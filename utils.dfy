/**
 * The arithmetic and failure conventions of utils.h: the ETA shown by
 * `printProgress`, and the `ASSERT` macro.
 */
module Utils {
  import opened Wrappers
  import opened Strings

  // ----- printProgress -----

  /** `printProgress` prints nothing until some progress was made and 100 ms have passed. */
  predicate ProgressShown(progress: real, elapsedMs: int) {
    !(progress <= 1.0 / 100000.0 || elapsedMs <= 100)
  }

  datatype Eta = Eta(hours: int, minutes: int, seconds: int)

  /**
   * The hours/minutes/seconds split of an ETA of `ticks` clock ticks, `perSecond` ticks
   * to the second: each `duration_cast` truncates the whole ETA, and the larger units
   * are subtracted afterwards.
   */
  function SplitEta(ticks: nat, perSecond: nat): Eta
    requires perSecond > 0
  {
    var h := ticks / (60 * 60 * perSecond);
    var m := ticks / (60 * perSecond) - 60 * h;
    var s := ticks / perSecond - 60 * m - 60 * 60 * h;
    Eta(h, m, s)
  }

  /** a / (b * c) == (a / b) / c for positive divisors. */
  lemma DivDiv(a: nat, b: nat, c: nat)
    requires b > 0 && c > 0
    ensures a / (b * c) == (a / b) / c
  {
    var q, r := a / b, a % b;
    var q2, r2 := q / c, q % c;
    assert a == b * q + r;
    assert q == c * q2 + r2;
    Regroup(b, c, q2, r2, r);
    assert a == b * (c * q2 + r2) + r;
    RemainderBound(b, c, r2, r);
    DivUnique(a, b * c, q2, b * r2 + r);
  }

  lemma Regroup(b: nat, c: nat, q2: nat, r2: nat, r: nat)
    ensures b * (c * q2 + r2) + r == (b * c) * q2 + (b * r2 + r)
  {
  }

  lemma RemainderBound(b: nat, c: nat, r2: nat, r: nat)
    requires r2 < c && r < b
    ensures b * r2 + r < b * c
  {
    assert b * r2 <= b * (c - 1);
  }

  lemma DivUnique(a: nat, d: nat, q: nat, r: nat)
    requires d > 0 && a == d * q + r && r < d
    ensures a / d == q
  {
    var k := a / d;
    assert d * k - d * q == d * (k - q);
    if k > q {
      MulAtLeast(d, k - q);
      assert false;
    } else if k < q {
      MulAtLeast(d, q - k);
      assert false;
    }
  }

  lemma MulAtLeast(d: nat, x: int)
    requires x >= 1
    ensures d * x >= d
  {
  }

  /** The split is exact: whole hours, then minutes and seconds below 60, adding up to the
      ETA in whole seconds. */
  lemma {:induction false} EtaDecomposition(ticks: nat, perSecond: nat)
    requires perSecond > 0
    ensures var e := SplitEta(ticks, perSecond);
      var total := ticks / perSecond;
      && e.hours == total / 3600
      && 0 <= e.minutes < 60 && 0 <= e.seconds < 60
      && 3600 * e.hours + 60 * e.minutes + e.seconds == total
  {
    var total := ticks / perSecond;
    DivDiv(ticks, perSecond, 60);
    DivDiv(ticks, perSecond, 3600);
    assert 60 * perSecond == perSecond * 60;
    assert 60 * 60 * perSecond == perSecond * 3600;
    DivDiv(total, 60, 60);
    var e := SplitEta(ticks, perSecond);
    assert e.hours == total / 3600;
    assert e.minutes == total / 60 - 60 * (total / 60 / 60);
    assert e.seconds == total - 60 * (total / 60);
  }

  /** What follows "eta ": hours only when non-zero, minutes when hours or minutes are,
      seconds always. */
  function EtaText(e: Eta): (t: string)
    ensures |t| >= 2 && t[|t| - 1] == 's'
  {
    (if e.hours != 0 then IntToString(e.hours) + "h " else "")
    + (if e.hours != 0 || e.minutes != 0 then IntToString(e.minutes) + "m " else "")
    + IntToString(e.seconds) + "s"
  }

  /** Below a minute only seconds are shown, below an hour minutes and seconds, otherwise all
      three. */
  lemma EtaTextShape(ticks: nat, perSecond: nat)
    requires perSecond > 0
    ensures var total := ticks / perSecond;
      var t := EtaText(SplitEta(ticks, perSecond));
      && (total < 60 ==> t == IntToString(total) + "s")
      && (60 <= total < 3600 ==> t == IntToString(total / 60) + "m " + IntToString(total % 60) + "s")
      && (3600 <= total ==>
            t == IntToString(total / 3600) + "h " + IntToString(total / 60 % 60) + "m " + IntToString(total % 60) + "s")
  {
    var total := ticks / perSecond;
    var e := SplitEta(ticks, perSecond);
    EtaFields(ticks, perSecond);
    if total < 60 {
      assert e == Eta(0, 0, total);
    } else if total < 3600 {
      assert e == Eta(0, total / 60, total % 60);
    } else {
      assert e == Eta(total / 3600, total / 60 % 60, total % 60) && e.hours != 0;
    }
  }

  lemma EtaFields(ticks: nat, perSecond: nat)
    requires perSecond > 0
    ensures var total := ticks / perSecond;
      var e := SplitEta(ticks, perSecond);
      && e.hours == total / 3600 && e.seconds == total % 60
      && (total < 3600 ==> e.hours == 0 && e.minutes == total / 60)
      && (3600 <= total ==> e.hours != 0 && e.minutes == total / 60 % 60)
      && (total < 60 ==> e.minutes == 0)
      && (60 <= total ==> e.hours != 0 || e.minutes != 0)
  {
    EtaDecomposition(ticks, perSecond);
    var total := ticks / perSecond;
    DivDiv(total, 60, 60);
  }

  // ----- ASSERT -----

  /** Whether NDEBUG was defined: the two expansions of `ASSERT` differ only in the message. */
  datatype BuildMode = Debug | Release

  /**
   * `ASSERT(condition, message)`: nothing when the condition holds; otherwise the message
   * is thrown as a string, prefixed in a debug build by the condition's text, file and line.
   * The copy written to standard error is not modelled.
   */
  function Assert(mode: BuildMode, condition: bool, conditionText: string, file: string, line: nat, message: string)
    : (r: Result<(), string>)
    ensures r.Ok? <==> condition
    ensures r.Err? && mode == Release ==> r.error == message
    ensures r.Err? && mode == Debug ==>
      |r.error| >= 11 + |message| && r.error[|r.error| - |message|..] == message && r.error[..11] == "Assertion `"
  {
    if condition then Ok(())
    else if mode == Release then Err(message)
    else Err("Assertion `" + conditionText + "` failed in " + file + " line " + NatToString(line) + ": " + message)
  }
}
