/** Moments kept a minimum gap apart, and how many of them any window can hold. */
module Spacing {
  import opened Sequences

  ghost predicate Spaced(ts: seq<int>, gap: int) {
    forall i :: 0 <= i < |ts| - 1 ==> ts[i + 1] - ts[i] >= gap
  }

  /** How many of the moments fall into the half-open window from..to. */
  function CountIn(ts: seq<int>, from: int, to: int): nat {
    if ts == [] then 0
    else CountIn(Front(ts), from, to) + if from <= Last(ts) < to then 1 else 0
  }

  function CeilDiv(a: int, b: int): int
    requires b > 0
  {
    (a + b - 1) / b
  }

  lemma SpacedFront(ts: seq<int>, gap: int)
    requires Spaced(ts, gap) && ts != []
    ensures Spaced(Front(ts), gap)
    ensures |ts| >= 2 ==> Last(ts) - Last(Front(ts)) >= gap
  {
    assert |ts| >= 2 ==> ts[|ts| - 2 + 1] - ts[|ts| - 2] >= gap;
    forall i | 0 <= i < |Front(ts)| - 1 ensures Front(ts)[i + 1] - Front(ts)[i] >= gap {
      assert ts[i + 1] - ts[i] >= gap;
    }
  }

  lemma SpacedAppend(ts: seq<int>, x: int, gap: int)
    requires Spaced(ts, gap)
    requires ts != [] ==> x - Last(ts) >= gap
    ensures Spaced(ts + [x], gap)
  {
  }

  /** The moments counted so far, less one, each cost a full gap after the window's start. */
  lemma {:induction false} CountedGaps(ts: seq<int>, gap: int, from: int, to: int)
    requires gap > 0 && Spaced(ts, gap)
    requires ts != [] && Last(ts) < to
    ensures CountIn(ts, from, to) > 0 ==> (CountIn(ts, from, to) - 1) * gap <= Last(ts) - from
  {
    SpacedFront(ts, gap);
    if |ts| >= 2 {
      CountedGaps(Front(ts), gap, from, to);
      var k := CountIn(Front(ts), from, to);
      if k > 0 {
        assert (k - 1) * gap + gap == k * gap;
        NonNegative(k - 1, gap);
      }
    }
  }

  lemma NonNegative(a: int, b: int)
    requires a >= 0 && b >= 0
    ensures a * b >= 0
  {
  }

  lemma {:induction false} CountedGapsInWindow(ts: seq<int>, gap: int, from: int, to: int)
    requires gap > 0 && Spaced(ts, gap)
    ensures CountIn(ts, from, to) > 0 ==> (CountIn(ts, from, to) - 1) * gap < to - from
  {
    if ts != [] {
      if Last(ts) < to {
        CountedGaps(ts, gap, from, to);
      } else {
        SpacedFront(ts, gap);
        CountedGapsInWindow(Front(ts), gap, from, to);
      }
    }
  }

  lemma CeilDivBound(k: int, gap: int, len: int)
    requires gap > 0 && k > 0 && (k - 1) * gap < len
    ensures k <= CeilDiv(len, gap)
  {
    assert (k - 1) * gap + gap == k * gap;
    assert k * gap <= len + gap - 1;
    DivAtLeast(len + gap - 1, k, gap);
  }

  lemma {:induction false} DivAtLeast(a: int, k: int, gap: int)
    requires gap > 0 && k * gap <= a
    ensures k <= a / gap
  {
    var q := a / gap;
    assert a == gap * q + a % gap;
    assert (q + 1) * gap == gap * q + gap;
    assert (q + 1 - k) * gap == (q + 1) * gap - k * gap;
    PositiveFactor(q + 1 - k, gap);
  }

  lemma PositiveFactor(x: int, gap: int)
    requires gap > 0 && x * gap > 0
    ensures x > 0
  {
  }

  /** Moments at least `gap` apart: a half-open window of length `len` holds at most ceil(len / gap) of them. */
  lemma {:induction false} WindowBound(ts: seq<int>, gap: int, from: int, len: nat)
    requires gap > 0 && Spaced(ts, gap)
    ensures CountIn(ts, from, from + len) <= CeilDiv(len, gap)
  {
    CountedGapsInWindow(ts, gap, from, from + len);
    if CountIn(ts, from, from + len) > 0 {
      CeilDivBound(CountIn(ts, from, from + len), gap, len);
    } else {
      DivAtLeast(len + gap - 1, 0, gap);
    }
  }
}
