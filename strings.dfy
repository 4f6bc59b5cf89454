/**
 * Text helpers the source gets from the C++ library: decimal printing of
 * integers (`operator<<` on an integral type) and the two operations of
 * `boost::filesystem::path` the core uses, `operator/` and `filename()`.
 */
module Strings {

  /** The decimal digits of `n`, most significant first, as `operator<<` prints them. */
  function NatToString(n: nat): (s: string)
    ensures |s| >= 1
    ensures forall i :: 0 <= i < |s| ==> '0' <= s[i] <= '9'
    decreases n
  {
    if n < 10 then [Digit(n)] else NatToString(n / 10) + [Digit(n % 10)]
  }

  function Digit(d: nat): (c: char)
    requires d < 10
    ensures '0' <= c <= '9'
  {
    ['0', '1', '2', '3', '4', '5', '6', '7', '8', '9'][d]
  }

  /** Decimal printing of a signed integer. */
  function IntToString(i: int): (s: string)
    ensures |s| >= 1
    ensures i >= 0 ==> s == NatToString(i)
    ensures i < 0 ==> s == "-" + NatToString(-i)
  {
    if i >= 0 then NatToString(i) else "-" + NatToString(-i)
  }

  /** The value a string of decimal digits denotes. */
  function DigitsValue(s: string): nat
    requires forall i :: 0 <= i < |s| ==> '0' <= s[i] <= '9'
  {
    if s == [] then 0 else DigitsValue(s[..|s| - 1]) * 10 + (s[|s| - 1] as int - '0' as int)
  }

  /** Printing is injective: the digits read back as the number printed. */
  lemma {:induction false} NatToStringReadsBack(n: nat)
    ensures DigitsValue(NatToString(n)) == n
  {
    var s := NatToString(n);
    if n >= 10 {
      NatToStringReadsBack(n / 10);
      assert s[..|s| - 1] == NatToString(n / 10);
    }
  }

  lemma NatToStringInjective(a: nat, b: nat)
    ensures NatToString(a) == NatToString(b) ==> a == b
  {
    NatToStringReadsBack(a);
    NatToStringReadsBack(b);
  }

  /** `dir / name` as boost::filesystem appends: a separator is inserted only when neither
      side already supplies one, and an empty `name` leaves `dir` alone. */
  function Join(dir: string, name: string): (p: string)
    ensures name == [] ==> p == dir
    ensures dir == [] ==> p == name
    ensures |p| >= |dir| + |name| && p[..|dir|] == dir
    ensures p[|p| - |name|..] == name
  {
    if name == [] then dir
    else if dir == [] || dir[|dir| - 1] == '/' || name[0] == '/' then dir + name
    else dir + "/" + name
  }

  predicate NoSeparator(s: string) {
    forall i :: 0 <= i < |s| ==> s[i] != '/'
  }

  /** The part of a path after its last separator (the whole path if it has none). */
  function FileName(p: string): (f: string)
    ensures NoSeparator(f)
    ensures |f| <= |p|
  {
    if p == [] then []
    else if p[|p| - 1] == '/' then []
    else FileName(p[..|p| - 1]) + [p[|p| - 1]]
  }

  /** The file name of `dir / name` is `name` itself when `name` has no separator. */
  lemma {:induction false} FileNameOfJoin(dir: string, name: string)
    requires NoSeparator(name) && name != []
    ensures FileName(Join(dir, name)) == name
  {
    var prefix := if dir == [] || dir[|dir| - 1] == '/' then dir else dir + "/";
    assert Join(dir, name) == prefix + name;
    FileNameOfSuffix(prefix, name);
  }

  lemma FileNameOfDirectory(prefix: string)
    requires prefix == [] || prefix[|prefix| - 1] == '/'
    ensures FileName(prefix) == []
  {
  }

  lemma {:induction false} FileNameOfSuffix(prefix: string, name: string)
    requires prefix == [] || prefix[|prefix| - 1] == '/'
    requires NoSeparator(name) && name != []
    ensures FileName(prefix + name) == name
    decreases |name|
  {
    var p := prefix + name;
    var last := name[|name| - 1];
    assert p[|p| - 1] == last && last != '/';
    var rest := name[..|name| - 1];
    assert p[..|p| - 1] == prefix + rest;
    if rest == [] {
      FileNameOfDirectory(prefix);
    } else {
      FileNameOfSuffix(prefix, rest);
    }
    assert FileName(p) == FileName(p[..|p| - 1]) + [last];
    assert name == rest + [last];
  }

  /** Appending a part without separators extends the file name by that part. */
  lemma {:induction false} FileNameOfAppend(p: string, s: string)
    requires NoSeparator(s)
    ensures FileName(p + s) == FileName(p) + s
    decreases |s|
  {
    if s == [] {
      assert p + s == p;
    } else {
      var q := p + s;
      var rest := s[..|s| - 1];
      assert q[..|q| - 1] == p + rest;
      FileNameOfAppend(p, rest);
      assert s == rest + [s[|s| - 1]];
    }
  }

  /** The length of the part of `f` from its last '.' on, or 0 when `f` has no '.'. */
  function DotSuffixLength(f: string): (n: nat)
    ensures n <= |f|
    ensures n > 0 ==> f[|f| - n] == '.' && forall i :: |f| - n < i < |f| ==> f[i] != '.'
    ensures n == 0 ==> forall i :: 0 <= i < |f| ==> f[i] != '.'
  {
    if f == [] then 0
    else if f[|f| - 1] == '.' then 1
    else
      var k := DotSuffixLength(f[..|f| - 1]);
      if k == 0 then 0 else k + 1
  }

  /** The length of boost's `extension()`: the file name from its last '.' on, except that
      "." and ".." have none. */
  function ExtensionLength(p: string): (n: nat)
    ensures n <= |p|
  {
    var f := FileName(p);
    if f == "." || f == ".." then 0 else DotSuffixLength(f)
  }

  /** `replace_extension()` with no argument: the path without its extension. */
  function DropExtension(p: string): (q: string)
    ensures |q| <= |p| && q == p[..|q|]
  {
    p[..|p| - ExtensionLength(p)]
  }
}
