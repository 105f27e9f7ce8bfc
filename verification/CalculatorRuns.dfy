/**
 What the calculator does over whole runs: any interleaving of computations for any
 chargers with changes of the limits.
 */
module CalculatorRuns {
  import opened Sequences
  import opened SmartCharging

  datatype Event = Compute(id: string, sample: Sample) | SetLimits(limits: Limits)

  function Apply(c: Calc, e: Event): (c': Calc)
    requires c.gridVolt > 0
    ensures c'.gridVolt == c.gridVolt
  {
    match e
    case Compute(id, s) => c.Computed(id, s)
    case SetLimits(l) => c.(limits := l)
  }

  function Run(c: Calc, evs: seq<Event>): (c': Calc)
    requires c.gridVolt > 0
    ensures c'.gridVolt == c.gridVolt
  {
    if evs == [] then c else Apply(Run(c, Front(evs)), Last(evs))
  }

  /** What the i-th event of a run, a computation, answered. */
  function OutputAt(c: Calc, evs: seq<Event>, i: nat): Request
    requires c.gridVolt > 0
    requires i < |evs| && evs[i].Compute?
  {
    Run(c, evs[..i]).Asked(evs[i].id, evs[i].sample)
  }

  // ---------------------------------------------------------------------------
  // The debounce counters against the history of calls
  // ---------------------------------------------------------------------------

  /** The limits in force after a run: the last ones set. */
  function LimitsAfter(l: Limits, evs: seq<Event>): Limits {
    if evs == [] then l
    else if Last(evs).SetLimits? then Last(evs).limits
    else LimitsAfter(l, Front(evs))
  }

  /** For each call made for `id`, whether its ideal current was below the minimum then in force. */
  function Verdicts(l: Limits, gridVolt: int, evs: seq<Event>, id: string): seq<bool>
    requires gridVolt > 0
  {
    if evs == [] then []
    else
      var h := Verdicts(l, gridVolt, Front(evs), id);
      match Last(evs)
      case SetLimits(_) => h
      case Compute(ch, s) =>
        if ch == id then h + [IdealAmps(s, gridVolt) < LimitsAfter(l, Front(evs)).minAmps] else h
  }

  function DebounceRun(st: StopState, h: seq<bool>): StopState {
    if h == [] then st else Debounce(DebounceRun(st, Front(h)), Last(h))
  }

  /** Calls e-3, e-2 and e-1 of the history were all below the minimum. */
  predicate TripleBelow(h: seq<bool>, e: nat) {
    3 <= e <= |h| && h[e - 3] && h[e - 2] && h[e - 1]
  }

  /** Calls e-2 and e-1 of the history were both at or above the minimum. */
  predicate PairAbove(h: seq<bool>, e: nat) {
    2 <= e <= |h| && !h[e - 2] && !h[e - 1]
  }

  /** The latest of the two kinds of event in the history is three consecutive calls below. */
  ghost predicate StoppedByHistory(h: seq<bool>) {
    exists e: nat :: TripleBelow(h, e) && forall f: nat :: e < f ==> !PairAbove(h, f)
  }

  /** How many calls in a row, up to the last, gave verdict `v`. */
  function Trailing(h: seq<bool>, v: bool): nat {
    if h == [] || Last(h) != v then 0 else 1 + Trailing(Front(h), v)
  }

  lemma TrailingMeansAll(h: seq<bool>, v: bool, n: nat)
    requires n <= |h|
    ensures Trailing(h, v) >= n <==> forall i :: |h| - n <= i < |h| ==> h[i] == v
  {
    if n > 0 {
      assert h != [];
      if Last(h) == v {
        TrailingMeansAll(Front(h), v, n - 1);
        if forall i :: |h| - n <= i < |h| ==> h[i] == v {
          forall i | |Front(h)| - (n - 1) <= i < |Front(h)| ensures Front(h)[i] == v {
            assert Front(h)[i] == h[i];
          }
        } else {
          var i :| |h| - n <= i < |h| && h[i] != v;
          assert Front(h)[i] == h[i];
        }
      } else {
        assert h[|h| - 1] != v;
      }
    }
  }

  lemma LongerHistory(h: seq<bool>, b: bool, e: nat)
    requires e <= |h|
    ensures TripleBelow(h + [b], e) == TripleBelow(h, e)
    ensures PairAbove(h + [b], e) == PairAbove(h, e)
  {
  }

  /** One more call changes the verdict of history exactly when it completes a triple or a pair. */
  lemma {:induction false} StoppedByHistoryStep(h: seq<bool>, b: bool)
    ensures var h' := h + [b];
            StoppedByHistory(h') <==>
            TripleBelow(h', |h'|) || (StoppedByHistory(h) && !PairAbove(h', |h'|))
  {
    var h' := h + [b];
    var n := |h'|;
    forall e: nat | e < n
      ensures TripleBelow(h', e) == TripleBelow(h, e) && PairAbove(h', e) == PairAbove(h, e)
    {
      LongerHistory(h, b, e);
    }
    if TripleBelow(h', n) {
      assert forall f: nat :: n < f ==> !PairAbove(h', f);
    } else if StoppedByHistory(h') {
      var e: nat :| TripleBelow(h', e) && forall f: nat :: e < f ==> !PairAbove(h', f);
      assert e < n && TripleBelow(h, e);
      forall f: nat | e < f ensures !PairAbove(h, f) {
        assert !PairAbove(h', f);
      }
      assert !PairAbove(h', n);
    } else if StoppedByHistory(h) && !PairAbove(h', n) {
      var e: nat :| TripleBelow(h, e) && forall f: nat :: e < f ==> !PairAbove(h, f);
      assert TripleBelow(h', e);
      forall f: nat | e < f ensures !PairAbove(h', f) {
        assert f < n ==> !PairAbove(h, f);
      }
      assert false;
    }
  }

  /** The two counters are run lengths, and the flag is the verdict of history. */
  lemma {:induction false} DebounceIsHistory(h: seq<bool>)
    ensures var st := DebounceRun(RUNNING, h);
            && (st.isStopped <==> StoppedByHistory(h))
            && (!st.isStopped ==> st.belowCount == Trailing(h, true) < STOP_CONFIRM_TICKS)
            && (st.isStopped ==> st.aboveCount == Trailing(h, false) < RUN_CONFIRM_TICKS)
  {
    if h != [] {
      var g, b := Front(h), Last(h);
      assert h == g + [b];
      DebounceIsHistory(g);
      StoppedByHistoryStep(g, b);
      if |h| >= 3 {
        TrailingMeansAll(h, true, 3);
        assert TripleBelow(h, |h|) <==> Trailing(h, true) >= 3;
      }
      if |h| >= 2 {
        TrailingMeansAll(h, false, 2);
        assert PairAbove(h, |h|) <==> Trailing(h, false) >= 2;
      }
      TrailingAtMost(h, true);
      TrailingAtMost(h, false);
    }
  }

  lemma TrailingAtMost(h: seq<bool>, v: bool)
    ensures Trailing(h, v) <= |h|
  {
  }

  lemma {:induction false} CountersFollowVerdicts(c: Calc, evs: seq<Event>, id: string)
    requires c.gridVolt > 0
    ensures Run(c, evs).limits == LimitsAfter(c.limits, evs)
    ensures Run(c, evs).Of(id).stop == DebounceRun(c.Of(id).stop, Verdicts(c.limits, c.gridVolt, evs, id))
  {
    if evs != [] {
      CountersFollowVerdicts(c, Front(evs), id);
      var e := Last(evs);
      if e.Compute? && e.id == id {
        var h := Verdicts(c.limits, c.gridVolt, Front(evs), id);
        var b := IdealAmps(e.sample, c.gridVolt) < LimitsAfter(c.limits, Front(evs)).minAmps;
        assert Front(h + [b]) == h;
      }
    }
  }

  /**
   A charger's answer says stop exactly when, in the history of its calls, each judged by the
   limits then in force, three calls below in a row came later than any two at or above in a row.
   */
  lemma {:induction false} StopsByHistory(c: Calc, evs: seq<Event>, i: nat)
    requires c.gridVolt > 0
    requires i < |evs| && evs[i].Compute? && evs[i].id !in c.mem
    ensures OutputAt(c, evs, i).shouldStop
        <==> StoppedByHistory(Verdicts(c.limits, c.gridVolt, evs[..i + 1], evs[i].id))
  {
    var id, past := evs[i].id, evs[..i + 1];
    assert Front(past) == evs[..i];
    CountersFollowVerdicts(c, past, id);
    DebounceIsHistory(Verdicts(c.limits, c.gridVolt, past, id));
    assert Run(c, past).Of(id).stop.isStopped == OutputAt(c, evs, i).shouldStop;
  }

  // ---------------------------------------------------------------------------
  // Bounded wear
  // ---------------------------------------------------------------------------

  /** How often the debounce went from running to stopped. */
  function Stops(h: seq<bool>): nat {
    if h == [] then 0
    else Stops(Front(h)) +
         if !DebounceRun(RUNNING, Front(h)).isStopped && DebounceRun(RUNNING, h).isStopped then 1 else 0
  }

  lemma {:induction false} StopsPotential(h: seq<bool>)
    ensures var st := DebounceRun(RUNNING, h);
            if st.isStopped then |h| >= 5 * Stops(h) - 2 + st.aboveCount && st.aboveCount < 2
            else |h| >= 5 * Stops(h) + st.belowCount && st.belowCount < 3
  {
    if h != [] {
      StopsPotential(Front(h));
    }
  }

  /** Whether the charger's last answer was a stop; false before its first. */
  function StoppedLast(c: Calc, evs: seq<Event>, id: string): bool
    requires c.gridVolt > 0
  {
    if evs == [] then false
    else if Last(evs).Compute? && Last(evs).id == id then OutputAt(c, evs, |evs| - 1).shouldStop
    else StoppedLast(c, Front(evs), id)
  }

  /** How often an answer to the charger was a stop after one, or none, that was not. */
  function StopAnswers(c: Calc, evs: seq<Event>, id: string): nat
    requires c.gridVolt > 0
  {
    if evs == [] then 0
    else
      StopAnswers(c, Front(evs), id) +
      if Last(evs).Compute? && Last(evs).id == id && !StoppedLast(c, Front(evs), id) && StoppedLast(c, evs, id)
      then 1 else 0
  }

  /** The answers turn to a stop just as often as the debounce does. */
  lemma {:induction false} StopAnswersAreStops(c: Calc, evs: seq<Event>, id: string)
    requires c.gridVolt > 0 && id !in c.mem
    ensures StoppedLast(c, evs, id) == Run(c, evs).Of(id).stop.isStopped
    ensures StopAnswers(c, evs, id) == Stops(Verdicts(c.limits, c.gridVolt, evs, id))
  {
    if evs != [] {
      var e, past := Last(evs), Front(evs);
      StopAnswersAreStops(c, past, id);
      CountersFollowVerdicts(c, past, id);
      CountersFollowVerdicts(c, evs, id);
      if e.Compute? && e.id == id {
        assert evs[..|evs| - 1] == past;
        assert Run(c, evs).Of(id).stop.isStopped == OutputAt(c, evs, |evs| - 1).shouldStop;
        var h, h' := Verdicts(c.limits, c.gridVolt, past, id), Verdicts(c.limits, c.gridVolt, evs, id);
        assert Front(h') == h;
      }
    }
  }

  /** k stops of one charger take at least 5k-2 of its calls, whatever the samples and limit changes. */
  lemma {:induction false} BoundedWear(c: Calc, evs: seq<Event>, id: string)
    requires c.gridVolt > 0 && id !in c.mem
    ensures var h := Verdicts(c.limits, c.gridVolt, evs, id);
            && |h| >= 5 * StopAnswers(c, evs, id) - 2
            && StopAnswers(c, evs, id) == Stops(h)
            && DebounceRun(RUNNING, h) == Run(c, evs).Of(id).stop
  {
    CountersFollowVerdicts(c, evs, id);
    StopAnswersAreStops(c, evs, id);
    StopsPotential(Verdicts(c.limits, c.gridVolt, evs, id));
  }

  /** The most wearing history with k stops: three below, then two above and three below, over and over. */
  function WorstCase(k: nat): seq<bool> {
    if k == 0 then []
    else if k == 1 then [true, true, true]
    else WorstCase(k - 1) + [false, false, true, true, true]
  }

  /** The bound is reached: k stops in exactly 5k-2 calls. */
  lemma {:induction false} WearBoundIsTight(k: nat)
    requires k >= 1
    ensures |WorstCase(k)| == 5 * k - 2
    ensures Stops(WorstCase(k)) == k
    ensures DebounceRun(RUNNING, WorstCase(k)) == StopState(true, 3, 0)
  {
    if k == 1 {
      var h := WorstCase(1);
      assert Front(h) == [true, true] && Front([true, true]) == [true] && Front([true]) == [];
    } else {
      WearBoundIsTight(k - 1);
      var h := WorstCase(k - 1);
      var h1, h2 := h + [false], h + [false, false];
      var h3, h4, h5 := h2 + [true], h2 + [true, true], h2 + [true, true, true];
      assert Front(h1) == h && Front(h2) == h1 && Front(h3) == h2 && Front(h4) == h3 && Front(h5) == h4;
      assert WorstCase(k) == h5;
      assert DebounceRun(RUNNING, h1) == StopState(true, 3, 1);
      assert DebounceRun(RUNNING, h2) == StopState(false, 0, 2);
      assert DebounceRun(RUNNING, h3) == StopState(false, 1, 2);
      assert DebounceRun(RUNNING, h4) == StopState(false, 2, 2);
      assert Stops(h2) == Stops(h1) == k - 1;
      assert Stops(h4) == Stops(h3) == k - 1;
    }
  }
}
