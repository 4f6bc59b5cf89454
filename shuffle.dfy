/**
 * `shuffledIndecies` (utils.h): the indices 0 .. n-1 pushed in order, then
 * shuffled in place by `std::shuffle` with a default-constructed engine.
 */
module Shuffling {
  /**
   * The draws of a default-constructed `std::default_random_engine`. The C++
   * standard fixes neither the order of the swaps `std::shuffle` makes nor how
   * it turns draws into positions; the model fixes one pass, from the last
   * position down, whose step at position `i` swaps it with position
   * `draw(n, i) % (i + 1)`. Because the engine always starts from the same
   * seed, the draws depend on nothing else.
   */
  datatype Engine = Engine(draw: (nat, nat) -> nat)

  function Pick(e: Engine, n: nat, i: nat): (j: nat)
    ensures j <= i
  {
    e.draw(n, i) % (i + 1)
  }

  /** 0, 1, ..., n-1. */
  function Range(n: nat): (r: seq<nat>)
    ensures |r| == n && forall i :: 0 <= i < n ==> r[i] == i
  {
    if n == 0 then [] else Range(n - 1) + [n - 1]
  }

  function SwapAt(s: seq<nat>, i: nat, j: nat): (r: seq<nat>)
    requires i < |s| && j < |s|
    ensures |r| == |s| && r[i] == s[j] && r[j] == s[i]
    ensures forall k :: 0 <= k < |s| && k != i && k != j ==> r[k] == s[k]
  {
    s[i := s[j]][j := s[i]]
  }

  /** The swap steps at positions i, i-1, ..., 1 of the model's pass. */
  function ShuffleSteps(s: seq<nat>, i: nat, e: Engine, n: nat): (r: seq<nat>)
    requires i < |s|
    ensures |r| == |s|
    decreases i
  {
    if i == 0 then s else ShuffleSteps(SwapAt(s, i, Pick(e, n, i)), i - 1, e, n)
  }

  /** The result of `shuffledIndecies(n)`. */
  function Shuffled(n: nat, e: Engine): (r: seq<nat>)
    ensures |r| == n
  {
    if n == 0 then [] else ShuffleSteps(Range(n), n - 1, e, n)
  }

  method ShuffledIndices(n: nat, e: Engine) returns (r: seq<nat>)
    ensures r == Shuffled(n, e)
  {
    var indices := new nat[n];
    for i := 0 to n
      invariant forall k :: 0 <= k < i ==> indices[k] == k
    {
      indices[i] := i;
    }
    assert indices[..] == Range(n);
    if n == 0 {
      return [];
    }
    Shuffle(indices, e);
    r := indices[..];
  }

  /** `std::shuffle` on the whole array, as the model's pass: the steps from the last
      position down to 1. */
  method Shuffle(a: array<nat>, e: Engine)
    requires a.Length > 0
    modifies a
    ensures a[..] == ShuffleSteps(old(a[..]), a.Length - 1, e, a.Length)
  {
    var n := a.Length;
    var i := n - 1;
    ghost var start := a[..];
    while i > 0
      invariant 0 <= i < n
      invariant ShuffleSteps(a[..], i, e, n) == ShuffleSteps(start, n - 1, e, n)
    {
      var j := Pick(e, n, i);
      ghost var before := a[..];
      a[i], a[j] := a[j], a[i];
      assert a[..] == SwapAt(before, i, j);
      i := i - 1;
    }
  }

  lemma SwapAtPermutes(s: seq<nat>, i: nat, j: nat)
    requires i < |s| && j < |s|
    ensures multiset(SwapAt(s, i, j)) == multiset(s)
  {
    var t := s[i := s[j]];
    assert multiset(t) == multiset(s) - multiset{s[i]} + multiset{s[j]};
    assert multiset(t[j := s[i]]) == multiset(t) - multiset{t[j]} + multiset{s[i]};
  }

  lemma {:induction false} ShuffleStepsPermutes(s: seq<nat>, i: nat, e: Engine, n: nat)
    requires i < |s|
    ensures multiset(ShuffleSteps(s, i, e, n)) == multiset(s)
    decreases i
  {
    if i > 0 {
      SwapAtPermutes(s, i, Pick(e, n, i));
      ShuffleStepsPermutes(SwapAt(s, i, Pick(e, n, i)), i - 1, e, n);
    }
  }

  lemma {:induction false} RangeCounts(n: nat, v: nat)
    ensures multiset(Range(n))[v] == if v < n then 1 else 0
  {
    if n > 0 {
      var prev := Range(n - 1);
      var last: nat := n - 1;
      assert Range(n) == prev + [last];
      var before: multiset<nat> := multiset(prev);
      var single: multiset<nat> := multiset{last};
      assert multiset(Range(n)) == before + single;
      assert multiset(Range(n))[v] == before[v] + single[v];
      RangeCounts(n - 1, v);
    }
  }

  /** A value at two positions occurs at least twice. */
  lemma TwiceCounted(s: seq<nat>, i: nat, j: nat)
    requires i < j < |s| && s[i] == s[j]
    ensures multiset(s)[s[i]] >= 2
  {
    assert s == s[..i] + [s[i]] + s[i + 1..j] + [s[j]] + s[j + 1..];
  }

  /** `shuffledIndecies(n)` has n entries, each of 0 .. n-1 exactly once. */
  lemma ShuffledIsPermutation(n: nat, e: Engine)
    ensures multiset(Shuffled(n, e)) == multiset(Range(n))
    ensures forall v :: v in Shuffled(n, e) <==> 0 <= v < n
    ensures forall i, j :: 0 <= i < j < n ==> Shuffled(n, e)[i] != Shuffled(n, e)[j]
  {
    var r := Shuffled(n, e);
    if n > 0 {
      ShuffleStepsPermutes(Range(n), n - 1, e, n);
    }
    forall v: nat | v < n
      ensures v in r
    {
      RangeCounts(n, v);
      assert multiset(r)[v] > 0;
    }
    forall v | v in r
      ensures v < n
    {
      RangeCounts(n, v);
      assert multiset(r)[v] > 0;
    }
    forall i, j | 0 <= i < j < n
      ensures r[i] != r[j]
    {
      if r[i] == r[j] {
        TwiceCounted(r, i, j);
        RangeCounts(n, r[i]);
      }
    }
  }

  /** Each entry of `shuffledIndecies(n)` indexes a sequence of length n. */
  lemma ShuffledInRange(n: nat, e: Engine)
    ensures forall i :: 0 <= i < n ==> Shuffled(n, e)[i] < n
  {
    ShuffledIsPermutation(n, e);
    forall i | 0 <= i < n
      ensures Shuffled(n, e)[i] < n
    {
      assert Shuffled(n, e)[i] in Shuffled(n, e);
    }
  }

  /** The elements of `data` at the positions listed in `idx`, in the order of `idx`. */
  function Gather<T>(data: seq<T>, idx: seq<nat>): (r: seq<T>)
    requires forall k :: 0 <= k < |idx| ==> idx[k] < |data|
    ensures |r| == |idx| && forall k :: 0 <= k < |idx| ==> r[k] == data[idx[k]]
  {
    seq(|idx|, k requires 0 <= k < |idx| => data[idx[k]])
  }

  /** Gathering along 0, 1, ..., n-1 gives the sequence back. */
  lemma GatherRange<T>(data: seq<T>)
    ensures Gather(data, Range(|data|)) == data
  {
  }

  /** Gathering along swapped positions gathers the same elements. */
  lemma GatherSwapPermutes<T>(data: seq<T>, s: seq<nat>, i: nat, j: nat)
    requires i < |s| && j < |s| && forall k :: 0 <= k < |s| ==> s[k] < |data|
    ensures forall k :: 0 <= k < |s| ==> SwapAt(s, i, j)[k] < |data|
    ensures multiset(Gather(data, SwapAt(s, i, j))) == multiset(Gather(data, s))
  {
    var g := Gather(data, s);
    var t := g[i := g[j]];
    assert Gather(data, SwapAt(s, i, j)) == t[j := g[i]];
    assert multiset(t) == multiset(g) - multiset{g[i]} + multiset{g[j]};
    assert multiset(t[j := g[i]]) == multiset(t) - multiset{t[j]} + multiset{g[i]};
  }

  /** Gathering along the result of the swap steps gathers the same elements. */
  lemma {:induction false} GatherStepsPermutes<T>(data: seq<T>, s: seq<nat>, i: nat, e: Engine, n: nat)
    requires i < |s| && forall k :: 0 <= k < |s| ==> s[k] < |data|
    ensures forall k :: 0 <= k < |s| ==> ShuffleSteps(s, i, e, n)[k] < |data|
    ensures multiset(Gather(data, ShuffleSteps(s, i, e, n))) == multiset(Gather(data, s))
    decreases i
  {
    if i > 0 {
      GatherSwapPermutes(data, s, i, Pick(e, n, i));
      GatherStepsPermutes(data, SwapAt(s, i, Pick(e, n, i)), i - 1, e, n);
    }
  }

  /** Taking a sequence in the order of `shuffledIndecies` keeps each element as often as
      it occurs. */
  lemma GatherShuffledPermutes<T>(data: seq<T>, e: Engine)
    ensures forall k :: 0 <= k < |data| ==> Shuffled(|data|, e)[k] < |data|
    ensures multiset(Gather(data, Shuffled(|data|, e))) == multiset(data)
  {
    GatherRange(data);
    if |data| > 0 {
      GatherStepsPermutes(data, Range(|data|), |data| - 1, e, |data|);
    }
  }
}
