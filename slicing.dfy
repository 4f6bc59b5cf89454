/**
 * The contiguous work split shared by `TrainsetGenerator::processParallel`
 * and `preprocess`: `count` slices of `per` items each, the last one
 * stretched to the end of the input.
 */
module Slicing {
  /** The half-open index range [start, end). */
  datatype Slice = Slice(start: nat, end: nat) {
    function Size(): int { end - start }
  }

  function SliceAt(n: nat, count: nat, per: nat, i: nat): Slice {
    Slice(i * per, if i + 1 == count then n else (i + 1) * per)
  }

  /** Slice i is [i * per, (i + 1) * per), except that the last one ends at n. */
  function Slices(n: nat, count: nat, per: nat): (r: seq<Slice>)
    ensures |r| == count
    ensures forall i :: 0 <= i < count ==> r[i] == SliceAt(n, count, per, i)
  {
    seq(count, (i: int) requires 0 <= i => SliceAt(n, count, per, i))
  }

  lemma MulMonotone(a: nat, b: nat, per: nat)
    requires a <= b
    ensures a * per <= b * per
  {
  }

  /** When the full slices fit, the slices tile [0, n): the first starts at 0, each ends where
      the next starts, none is reversed, and the last ends at n. */
  lemma {:induction false} SlicesTile(n: nat, count: nat, per: nat)
    requires count >= 1 && count * per <= n
    ensures var r := Slices(n, count, per);
      && r[0].start == 0 && r[count - 1].end == n
      && (forall i :: 0 <= i < count - 1 ==> r[i].end == r[i + 1].start)
      && (forall i :: 0 <= i < count ==> r[i].start <= r[i].end <= n)
  {
    var r := Slices(n, count, per);
    forall i | 0 <= i < count
      ensures r[i].start <= r[i].end <= n
    {
      MulMonotone(i, i + 1, per);
      MulMonotone(i + 1, count, per);
      MulMonotone(i, count, per);
    }
  }

  /** Every index below n lies in exactly one slice. */
  lemma {:induction false} SlicesPartition(n: nat, count: nat, per: nat, k: nat)
    requires count >= 1 && count * per <= n && k < n
    ensures var r := Slices(n, count, per);
      && (exists i :: 0 <= i < count && r[i].start <= k < r[i].end)
      && (forall i, j :: 0 <= i < count && 0 <= j < count && r[i].start <= k < r[i].end && r[j].start <= k < r[j].end ==> i == j)
  {
    var r := Slices(n, count, per);
    SlicesTile(n, count, per);
    var i := OwningSlice(n, count, per, k);
    forall i1, j1 | 0 <= i1 < count && 0 <= j1 < count && r[i1].start <= k < r[i1].end && r[j1].start <= k < r[j1].end
      ensures i1 == j1
    {
      if i1 < j1 {
        SliceEndsBeforeLater(n, count, per, i1, j1);
      } else if j1 < i1 {
        SliceEndsBeforeLater(n, count, per, j1, i1);
      }
    }
  }

  /** An earlier slice ends no later than a later one starts. */
  lemma SliceEndsBeforeLater(n: nat, count: nat, per: nat, i: nat, j: nat)
    requires count >= 1 && count * per <= n && i < j < count
    ensures Slices(n, count, per)[i].end <= Slices(n, count, per)[j].start
  {
    MulMonotone(i + 1, j, per);
  }

  /** The slice holding index k: the last one if k is past the full slices, else k / per. */
  lemma OwningSlice(n: nat, count: nat, per: nat, k: nat) returns (i: nat)
    requires count >= 1 && count * per <= n && k < n
    ensures i < count && Slices(n, count, per)[i].start <= k < Slices(n, count, per)[i].end
  {
    if per == 0 || k >= (count - 1) * per {
      i := count - 1;
      MulMonotone(count - 1, count, per);
    } else {
      i := k / per;
      assert i * per <= k < (i + 1) * per by {
        assert k == per * (k / per) + k % per;
      }
      if i >= count - 1 {
        MulMonotone(count - 1, i, per);
      }
    }
  }

  /** The sizes of all slices add up to n. */
  function SizeSum(r: seq<Slice>): int {
    if r == [] then 0 else SizeSum(r[..|r| - 1]) + r[|r| - 1].Size()
  }

  lemma {:induction false} SliceSizesAddUp(n: nat, count: nat, per: nat)
    requires count >= 1 && count * per <= n
    ensures SizeSum(Slices(n, count, per)) == n
  {
    var r := Slices(n, count, per);
    SlicesTile(n, count, per);
    PrefixSum(n, count, per, count);
    assert r[..count] == r;
  }

  lemma {:induction false} PrefixSum(n: nat, count: nat, per: nat, m: nat)
    requires count >= 1 && count * per <= n && 1 <= m <= count
    ensures SizeSum(Slices(n, count, per)[..m]) == Slices(n, count, per)[m - 1].end
  {
    var r := Slices(n, count, per);
    SlicesTile(n, count, per);
    assert r[..m][..m - 1] == r[..m - 1];
    if m > 1 {
      PrefixSum(n, count, per, m - 1);
    } else {
      assert r[..m - 1] == [];
    }
  }
}
