/**
 * LMDB keys (DataWriter.cpp): LMDB orders keys with memcmp, so the writer stores
 * each 64-bit record id byte-reversed. On a little-endian host the eight bytes
 * in memory are then the big-endian encoding of the id, and memcmp order is
 * numeric order. Bytes are kept as `bv64` values below 256.
 */
module LmdbKeys {
  /** `swap`: the eight masked bytes of `i`, each shifted to the mirrored position. */
  function Swap(i: bv64): bv64 {
    var b0 := (i & 0x00000000000000ff) << 56;
    var b1 := (i & 0x000000000000ff00) << 40;
    var b2 := (i & 0x0000000000ff0000) << 24;
    var b3 := (i & 0x00000000ff000000) << 8;
    var b4 := (i & 0x000000ff00000000) >> 8;
    var b5 := (i & 0x0000ff0000000000) >> 24;
    var b6 := (i & 0x00ff000000000000) >> 40;
    var b7 := (i & 0xff00000000000000) >> 56;
    b0 | b1 | b2 | b3 | b4 | b5 | b6 | b7
  }

  /** Byte `k` of `x`, counting from the least significant. */
  function Byte(x: bv64, k: nat): (b: bv64)
    requires k < 8
  {
    (x >> Shift(k)) & 0xff
  }

  function Shift(k: nat): bv6
    requires k < 8
  {
    [0, 8, 16, 24, 32, 40, 48, 56][k]
  }

  /** The bytes of an `unsigned long` as a little-endian host lays them out in memory. */
  function LittleEndian(x: bv64): (s: seq<bv64>)
    ensures |s| == 8
  {
    [Byte(x, 0), Byte(x, 1), Byte(x, 2), Byte(x, 3), Byte(x, 4), Byte(x, 5), Byte(x, 6), Byte(x, 7)]
  }

  /** The big-endian encoding: most significant byte first. */
  function BigEndian(x: bv64): (s: seq<bv64>)
    ensures |s| == 8
  {
    [(x >> 56) & 0xff, (x >> 48) & 0xff, (x >> 40) & 0xff, (x >> 32) & 0xff,
     (x >> 24) & 0xff, (x >> 16) & 0xff, (x >> 8) & 0xff, x & 0xff]
  }

  /** `swap` moves byte `k` to position `7 - k`. */
  lemma SwapReversesBytes(i: bv64)
    ensures forall k :: 0 <= k < 8 ==> Byte(Swap(i), k) == Byte(i, 7 - k)
  {
  }

  /** Swapping twice gives the id back, so distinct ids get distinct keys. */
  lemma SwapInvolution(i: bv64)
    ensures Swap(Swap(i)) == i
  {
  }

  lemma SwapInjective(a: bv64, b: bv64)
    ensures Swap(a) == Swap(b) <==> a == b
  {
    SwapInvolution(a);
    SwapInvolution(b);
  }

  /** The key bytes LMDB sees for id `i` are the big-endian encoding of `i`. */
  lemma StoredKeyIsBigEndian(i: bv64)
    ensures LittleEndian(Swap(i)) == BigEndian(i)
  {
    SwapReversesBytes(i);
  }

  /** memcmp on equal-length byte strings: the first differing byte decides. */
  predicate LexLessFrom(s: seq<bv64>, t: seq<bv64>, i: nat)
    decreases |s| - i
  {
    i < |s| && i < |t| && (s[i] < t[i] || (s[i] == t[i] && LexLessFrom(s, t, i + 1)))
  }

  /** One step of the comparison. */
  lemma LexStep(s: seq<bv64>, t: seq<bv64>, i: nat)
    requires i < |s| && i < |t|
    ensures LexLessFrom(s, t, i) <==> s[i] < t[i] || (s[i] == t[i] && LexLessFrom(s, t, i + 1))
  {
  }

  predicate MemcmpLess(s: seq<bv64>, t: seq<bv64>) {
    LexLessFrom(s, t, 0)
  }

  /** LMDB's memcmp order on stored keys is the numeric order of the ids. */
  lemma KeyOrderIsIdOrder(a: bv64, b: bv64)
    ensures MemcmpLess(LittleEndian(Swap(a)), LittleEndian(Swap(b))) <==> a < b
  {
    StoredKeyIsBigEndian(a);
    StoredKeyIsBigEndian(b);
    SuffixOrder7(a, b);
  }

  // The comparison of the low k+1 bytes is decided by byte k unless it ties.

  lemma SplitAtByte1(a: bv64, b: bv64, q: bool)
    requires q <==> a & 0xff < b & 0xff
    ensures a & 0xffff < b & 0xffff <==> ((a >> 8) & 0xff) < ((b >> 8) & 0xff) || (((a >> 8) & 0xff) == ((b >> 8) & 0xff) && q)
  {
  }

  lemma SplitAtByte2(a: bv64, b: bv64, q: bool)
    requires q <==> a & 0xffff < b & 0xffff
    ensures a & 0xff_ffff < b & 0xff_ffff <==> ((a >> 16) & 0xff) < ((b >> 16) & 0xff) || (((a >> 16) & 0xff) == ((b >> 16) & 0xff) && q)
  {
  }

  lemma SplitAtByte3(a: bv64, b: bv64, q: bool)
    requires q <==> a & 0xff_ffff < b & 0xff_ffff
    ensures a & 0xffff_ffff < b & 0xffff_ffff <==> ((a >> 24) & 0xff) < ((b >> 24) & 0xff) || (((a >> 24) & 0xff) == ((b >> 24) & 0xff) && q)
  {
  }

  lemma SplitAtByte4(a: bv64, b: bv64, q: bool)
    requires q <==> a & 0xffff_ffff < b & 0xffff_ffff
    ensures a & 0xff_ffff_ffff < b & 0xff_ffff_ffff <==> ((a >> 32) & 0xff) < ((b >> 32) & 0xff) || (((a >> 32) & 0xff) == ((b >> 32) & 0xff) && q)
  {
  }

  lemma SplitAtByte5(a: bv64, b: bv64, q: bool)
    requires q <==> a & 0xff_ffff_ffff < b & 0xff_ffff_ffff
    ensures a & 0xffff_ffff_ffff < b & 0xffff_ffff_ffff <==> ((a >> 40) & 0xff) < ((b >> 40) & 0xff) || (((a >> 40) & 0xff) == ((b >> 40) & 0xff) && q)
  {
  }

  lemma SplitAtByte6(a: bv64, b: bv64, q: bool)
    requires q <==> a & 0xffff_ffff_ffff < b & 0xffff_ffff_ffff
    ensures a & 0xff_ffff_ffff_ffff < b & 0xff_ffff_ffff_ffff <==> ((a >> 48) & 0xff) < ((b >> 48) & 0xff) || (((a >> 48) & 0xff) == ((b >> 48) & 0xff) && q)
  {
  }

  lemma SplitAtByte7(a: bv64, b: bv64, q: bool)
    requires q <==> a & 0xff_ffff_ffff_ffff < b & 0xff_ffff_ffff_ffff
    ensures a < b <==> ((a >> 56) & 0xff) < ((b >> 56) & 0xff) || (((a >> 56) & 0xff) == ((b >> 56) & 0xff) && q)
  {
  }

  // memcmp from position 7 - k on the big-endian bytes compares the low k+1 bytes.
  lemma SuffixOrder0(a: bv64, b: bv64)
    ensures LexLessFrom(BigEndian(a), BigEndian(b), 7) <==> a & 0xff < b & 0xff
  {
  }

  lemma SuffixOrder1(a: bv64, b: bv64)
    ensures LexLessFrom(BigEndian(a), BigEndian(b), 6) <==> a & 0xffff < b & 0xffff
  {
    var s, t := BigEndian(a), BigEndian(b);
    LexStep(s, t, 6);
    SuffixOrder0(a, b);
    SplitAtByte1(a, b, LexLessFrom(s, t, 7));
  }

  lemma SuffixOrder2(a: bv64, b: bv64)
    ensures LexLessFrom(BigEndian(a), BigEndian(b), 5) <==> a & 0xff_ffff < b & 0xff_ffff
  {
    var s, t := BigEndian(a), BigEndian(b);
    LexStep(s, t, 5);
    SuffixOrder1(a, b);
    SplitAtByte2(a, b, LexLessFrom(s, t, 6));
  }

  lemma SuffixOrder3(a: bv64, b: bv64)
    ensures LexLessFrom(BigEndian(a), BigEndian(b), 4) <==> a & 0xffff_ffff < b & 0xffff_ffff
  {
    var s, t := BigEndian(a), BigEndian(b);
    LexStep(s, t, 4);
    SuffixOrder2(a, b);
    SplitAtByte3(a, b, LexLessFrom(s, t, 5));
  }

  lemma SuffixOrder4(a: bv64, b: bv64)
    ensures LexLessFrom(BigEndian(a), BigEndian(b), 3) <==> a & 0xff_ffff_ffff < b & 0xff_ffff_ffff
  {
    var s, t := BigEndian(a), BigEndian(b);
    LexStep(s, t, 3);
    SuffixOrder3(a, b);
    SplitAtByte4(a, b, LexLessFrom(s, t, 4));
  }

  lemma SuffixOrder5(a: bv64, b: bv64)
    ensures LexLessFrom(BigEndian(a), BigEndian(b), 2) <==> a & 0xffff_ffff_ffff < b & 0xffff_ffff_ffff
  {
    var s, t := BigEndian(a), BigEndian(b);
    LexStep(s, t, 2);
    SuffixOrder4(a, b);
    SplitAtByte5(a, b, LexLessFrom(s, t, 3));
  }

  lemma SuffixOrder6(a: bv64, b: bv64)
    ensures LexLessFrom(BigEndian(a), BigEndian(b), 1) <==> a & 0xff_ffff_ffff_ffff < b & 0xff_ffff_ffff_ffff
  {
    var s, t := BigEndian(a), BigEndian(b);
    LexStep(s, t, 1);
    SuffixOrder5(a, b);
    SplitAtByte6(a, b, LexLessFrom(s, t, 2));
  }

  lemma SuffixOrder7(a: bv64, b: bv64)
    ensures LexLessFrom(BigEndian(a), BigEndian(b), 0) <==> a < b
  {
    var s, t := BigEndian(a), BigEndian(b);
    LexStep(s, t, 0);
    SuffixOrder6(a, b);
    SplitAtByte7(a, b, LexLessFrom(s, t, 1));
  }

}
