/**
 Bounds on the limits the calculator answers: at one step, over runs with fixed limits,
 and after the limits are changed while the calculator runs.
 */
module CalculatorLimits {
  import opened Options
  import opened Sequences
  import opened SmartCharging
  import opened CalculatorRuns

  /** The limit answered, which does not depend on how the reason is worded. */
  function Amps(lim: Limits, m: Memory, ideal: int): int {
    Answer(lim, m, ideal, GridFallback).limitAmps
  }

  function StopsNow(lim: Limits, m: Memory, ideal: int): bool {
    Debounce(m.stop, ideal < lim.minAmps).isStopped
  }

  lemma ReasonIsOnlyALabel(lim: Limits, m: Memory, ideal: int, why: Reason)
    ensures var r := Answer(lim, m, ideal, why);
            r.limitAmps == Amps(lim, m, ideal) && r.shouldStop == StopsNow(lim, m, ideal)
  {
  }

  /**
   A running answer at or above the minimum is within one ampere of the capped ideal, so it stays within
   the surplus.
   */
  lemma LimitTracksSurplus(lim: Limits, m: Memory, s: Sample, gridVolt: int)
    requires gridVolt > 0 && lim.minAmps > 0
    ensures var ideal := IdealAmps(s, gridVolt);
            var r := Answer(lim, m, ideal, SurplusReason(s));
            !r.shouldStop && ideal >= lim.minAmps ==>
              && Abs(r.limitAmps - Min(ideal, lim.maxAmps)) <= 1
              && (r.limitAmps - 1) * gridVolt <= Surplus(s)
  {
    var ideal := IdealAmps(s, gridVolt);
    var r := Answer(lim, m, ideal, SurplusReason(s));
    if !r.shouldStop && ideal >= lim.minAmps {
      assert r.limitAmps - 1 <= ideal;
      assert Surplus(s) > 0;
      FloorTimes(Surplus(s), gridVolt);
      TimesMonotone(r.limitAmps - 1, ideal, gridVolt);
    }
  }

  lemma FloorTimes(w: int, volt: int)
    requires volt > 0
    ensures w / volt * volt <= w
  {
  }

  lemma {:induction false} TimesMonotone(a: int, b: int, k: int)
    requires a <= b && k > 0
    ensures a * k <= b * k
  {
    assert (b - a) * k >= 0;
    assert (b - a) * k == b * k - a * k;
  }

  /** The guard under which the previous limit is answered again. */
  predicate HoldsLast(lim: Limits, m: Memory, ideal: int) {
    && m.last.Some?
    && !StopsNow(lim, m, ideal)
    && if ideal < lim.minAmps then m.last.value >= lim.minAmps
       else m.last.value > 0 && Abs(Min(ideal, lim.maxAmps) - m.last.value) < HYSTERESIS_AMPS
  }

  /**
   The limits in force do not bound every answer, because changing them leaves remembered limits
   alone: an answer is in bounds exactly when it is not a held limit from outside them.
   */
  lemma InBoundsIff(lim: Limits, m: Memory, ideal: int)
    requires lim.minAmps <= lim.maxAmps
    ensures lim.minAmps <= Amps(lim, m, ideal) <= lim.maxAmps
        <==> (HoldsLast(lim, m, ideal) ==> lim.minAmps <= m.last.value <= lim.maxAmps)
  {
    assert HoldsLast(lim, m, ideal) ==> Amps(lim, m, ideal) == m.last.value;
  }

  // ---------------------------------------------------------------------------
  // One charger under fixed limits
  // ---------------------------------------------------------------------------

  function After(lim: Limits, m: Memory, ideals: seq<int>): Memory {
    if ideals == [] then m else Step(lim, After(lim, m, Front(ideals)), Last(ideals))
  }

  function AmpsAt(lim: Limits, m: Memory, ideals: seq<int>, i: nat): int
    requires i < |ideals|
  {
    Amps(lim, After(lim, m, ideals[..i]), ideals[i])
  }

  lemma AfterOne(lim: Limits, m: Memory, ideals: seq<int>, i: nat)
    requires i < |ideals|
    ensures After(lim, m, ideals[..i + 1]) == Step(lim, After(lim, m, ideals[..i]), ideals[i])
    ensures After(lim, m, ideals[..i + 1]).last == Some(AmpsAt(lim, m, ideals, i))
  {
    assert Front(ideals[..i + 1]) == ideals[..i];
  }

  predicate NotUnder(lim: Limits, m: Memory) {
    m.last.Some? ==> m.last.value >= lim.minAmps
  }

  lemma {:induction false} NeverUnder(lim: Limits, m: Memory, ideals: seq<int>)
    requires 0 < lim.minAmps <= lim.maxAmps
    requires NotUnder(lim, m)
    ensures NotUnder(lim, After(lim, m, ideals))
  {
    if ideals != [] {
      NeverUnder(lim, m, Front(ideals));
    }
  }

  /** The limits of two consecutive calls are equal, or at least two amperes apart, or the later one is a stop. */
  predicate Calm(before: int, now: int, stop: bool) {
    now == before || Abs(now - before) >= HYSTERESIS_AMPS || stop
  }

  /**
   Under fixed limits and from any memory: two consecutive limits are calm unless the earlier one was held one
   ampere under the minimum, which only a raised minimum leads to, and the later call is below the minimum.
   */
  lemma {:induction false} NoChatterIff(lim: Limits, m: Memory, ideals: seq<int>, i: nat)
    requires 0 < lim.minAmps <= lim.maxAmps
    requires i + 1 < |ideals|
    ensures var before, now := AmpsAt(lim, m, ideals, i), AmpsAt(lim, m, ideals, i + 1);
            var stop := StopsNow(lim, After(lim, m, ideals[..i + 1]), ideals[i + 1]);
            Calm(before, now, stop) <==> !(before == lim.minAmps - 1 && ideals[i + 1] < lim.minAmps && !stop)
  {
    AfterOne(lim, m, ideals, i);
    AnyMemoryRecovers(lim, m, ideals[..i + 1]);
  }

  /** In particular there is no chatter from a memory that is not under the minimum, a fresh one for instance. */
  lemma {:induction false} NoChatter(lim: Limits, m: Memory, ideals: seq<int>, i: nat)
    requires 0 < lim.minAmps <= lim.maxAmps
    requires NotUnder(lim, m)
    requires i + 1 < |ideals|
    ensures var before, now := AmpsAt(lim, m, ideals, i), AmpsAt(lim, m, ideals, i + 1);
            Calm(before, now, StopsNow(lim, After(lim, m, ideals[..i + 1]), ideals[i + 1]))
  {
    AfterOne(lim, m, ideals, i);
    NeverUnder(lim, m, ideals[..i + 1]);
    NoChatterIff(lim, m, ideals, i);
  }

  /** Without the hypothesis it fails: a limit left under a raised minimum moves up by a single ampere. */
  lemma ChatterAfterRaisedMinimum()
    ensures var lim, m := Limits(11, 32), Memory(RUNNING, Some(10));
            && !NotUnder(lim, m)
            && AmpsAt(lim, m, [11, 5], 0) == 10
            && AmpsAt(lim, m, [11, 5], 1) == 11
            && !StopsNow(lim, After(lim, m, [11]), 5)
  {
    var lim, m := Limits(11, 32), Memory(RUNNING, Some(10));
    AfterOne(lim, m, [11, 5], 0);
    assert [11, 5][..0] == [] && [11, 5][..1] == [11];
  }

  /** How often the limit changed over a run, the first limit of a fresh charger not counted. */
  function Changes(lim: Limits, m: Memory, ideals: seq<int>): nat {
    if ideals == [] then 0
    else
      var was := After(lim, m, Front(ideals));
      Changes(lim, m, Front(ideals)) +
      if was.last.Some? && was.last.value != Amps(lim, was, Last(ideals)) then 1 else 0
  }

  /** No call of the run is answered with a stop, and those at or above the minimum aim at a or a+1. */
  ghost predicate AimsAt(lim: Limits, m: Memory, ideals: seq<int>, a: int) {
    forall i :: 0 <= i < |ideals| ==>
      && !StopsNow(lim, After(lim, m, ideals[..i]), ideals[i])
      && (ideals[i] >= lim.minAmps ==> a <= Min(ideals[i], lim.maxAmps) <= a + 1)
  }

  lemma {:induction false} SettlesPotential(lim: Limits, m: Memory, ideals: seq<int>, a: int)
    requires 0 < lim.minAmps <= lim.maxAmps
    requires NotUnder(lim, m)
    requires AimsAt(lim, m, ideals, a)
    ensures var last := After(lim, m, ideals).last;
            if last.Some? && a <= last.value <= a + 1 then Changes(lim, m, ideals) <= 1
            else Changes(lim, m, ideals) == 0
  {
    if ideals != [] {
      var xs := Front(ideals);
      forall i | 0 <= i < |xs| ensures xs[..i] == ideals[..i] && xs[i] == ideals[i] {
      }
      SettlesPotential(lim, m, xs, a);
      NeverUnder(lim, m, xs);
      assert xs == ideals[..|xs|];
    }
  }

  /** Some call aims at least two amperes over the minimum. */
  ghost predicate Climbs(lim: Limits, ideals: seq<int>) {
    exists i :: 0 <= i < |ideals| && ideals[i] >= lim.minAmps
      && Min(ideals[i], lim.maxAmps) >= lim.minAmps + HYSTERESIS_AMPS
  }

  /**
   A first call below the minimum lifts a limit remembered under it to the minimum, which is a change of
   its own.
   */
  predicate LiftsFirst(lim: Limits, m: Memory, ideals: seq<int>) {
    !NotUnder(lim, m) && ideals != [] && ideals[0] < lim.minAmps
  }

  /** From a memory under the minimum: where the limit stands, and how it got there. */
  ghost predicate Lifting(lim: Limits, m: Memory, ideals: seq<int>, a: int) {
    var last, n := After(lim, m, ideals).last, Changes(lim, m, ideals);
    && last.Some?
    && (|| (last == m.last && n == 0 &&
            (ideals != [] ==> ideals[0] >= lim.minAmps && a <= lim.minAmps && last.value == lim.minAmps - 1))
        || (last.value == lim.minAmps && n == 1 && ideals != [] && (ideals[0] >= lim.minAmps ==> a <= lim.minAmps) &&
            (ideals[0] < lim.minAmps ==> !Climbs(lim, ideals)))
        || (last.value >= lim.minAmps && a <= last.value <= a + 1 && n == 1 && ideals != [] && ideals[0] >= lim.minAmps)
        || (last.value >= lim.minAmps && a <= last.value <= a + 1 && n == 2 && ideals != [] &&
            ideals[0] < lim.minAmps && Climbs(lim, ideals)))
  }

  lemma ClimbsFront(lim: Limits, ideals: seq<int>)
    requires ideals != []
    ensures var x := Last(ideals);
            Climbs(lim, ideals) <==> Climbs(lim, Front(ideals)) ||
                                     (x >= lim.minAmps && Min(x, lim.maxAmps) >= lim.minAmps + HYSTERESIS_AMPS)
  {
    var xs := Front(ideals);
    if Climbs(lim, xs) {
      var i :| 0 <= i < |xs| && xs[i] >= lim.minAmps && Min(xs[i], lim.maxAmps) >= lim.minAmps + HYSTERESIS_AMPS;
      assert ideals[i] == xs[i];
    }
    if Climbs(lim, ideals) {
      var i :| 0 <= i < |ideals| && ideals[i] >= lim.minAmps
        && Min(ideals[i], lim.maxAmps) >= lim.minAmps + HYSTERESIS_AMPS;
      assert i < |xs| ==> xs[i] == ideals[i];
    }
    assert Last(ideals) == ideals[|ideals| - 1];
  }

  lemma {:induction false} LiftingPotential(lim: Limits, m: Memory, ideals: seq<int>, a: int)
    requires 0 < lim.minAmps <= lim.maxAmps
    requires !NotUnder(lim, m)
    requires AimsAt(lim, m, ideals, a)
    ensures Lifting(lim, m, ideals, a)
  {
    if ideals != [] {
      var xs := Front(ideals);
      forall i | 0 <= i < |xs| ensures xs[..i] == ideals[..i] && xs[i] == ideals[i] {
      }
      LiftingPotential(lim, m, xs, a);
      ClimbsFront(lim, ideals);
      assert xs == ideals[..|xs|] && Last(ideals) == ideals[|xs|];
      assert xs != [] ==> xs[0] == ideals[0];
    }
  }

  /**
   While the capped ideals stay in {a, a+1} the limit changes at most twice in a run of any length, and at most
   once unless a first call below a raised minimum lifts it there before it settles two amperes or more higher.
   */
  lemma {:induction false} SettlesIff(lim: Limits, m: Memory, ideals: seq<int>, a: int)
    requires 0 < lim.minAmps <= lim.maxAmps
    requires AimsAt(lim, m, ideals, a)
    ensures Changes(lim, m, ideals) <= 2
    ensures Changes(lim, m, ideals) <= 1 <==> !(LiftsFirst(lim, m, ideals) && Climbs(lim, ideals))
  {
    if NotUnder(lim, m) {
      SettlesPotential(lim, m, ideals, a);
    } else {
      LiftingPotential(lim, m, ideals, a);
    }
  }

  /**
   The exception: 6 amperes remembered under a minimum of 11, a call below it and then 20 amperes make
   two changes.
   */
  lemma SettlesTwice()
    ensures var lim, m := Limits(11, 32), Memory(RUNNING, Some(6));
            AimsAt(lim, m, [5, 20], 20) && Changes(lim, m, [5, 20]) == 2
  {
    var lim, m := Limits(11, 32), Memory(RUNNING, Some(6));
    assert Front([5, 20]) == [5] && Front([5]) == [];
    assert [5, 20][..0] == [] && [5, 20][..1] == [5];
    assert After(lim, m, [5]).last == Some(11);
  }

  /** In particular at most once from a memory that is not under the minimum. */
  lemma {:induction false} SettlesAtOnce(lim: Limits, m: Memory, ideals: seq<int>, a: int)
    requires 0 < lim.minAmps <= lim.maxAmps
    requires NotUnder(lim, m)
    requires AimsAt(lim, m, ideals, a)
    ensures Changes(lim, m, ideals) <= 1
  {
    SettlesIff(lim, m, ideals, a);
  }

  // ---------------------------------------------------------------------------
  // Changing the limits while running
  // ---------------------------------------------------------------------------

  /**
   From any memory: never under the minimum by more than one, and after two more calls never over the
   maximum by more than one.
   */
  lemma {:induction false} AnyMemoryRecovers(lim: Limits, m: Memory, ideals: seq<int>)
    requires 0 < lim.minAmps <= lim.maxAmps
    ensures var st, last := After(lim, m, ideals).stop, After(lim, m, ideals).last;
            && (|ideals| >= 1 ==> last.Some? && last.value >= lim.minAmps - 1)
            && (|ideals| >= 1 ==> last.value <= lim.maxAmps + 1 || (!st.isStopped && st.belowCount >= |ideals|))
            && (|ideals| >= 1 && !st.isStopped ==> st.belowCount < STOP_CONFIRM_TICKS)
  {
    if |ideals| > 1 {
      AnyMemoryRecovers(lim, m, Front(ideals));
    }
  }

  /** The ideal currents of the calls for `id`. */
  function Ideals(gridVolt: int, evs: seq<Event>, id: string): seq<int>
    requires gridVolt > 0
  {
    if evs == [] then []
    else
      var xs := Ideals(gridVolt, Front(evs), id);
      match Last(evs)
      case SetLimits(_) => xs
      case Compute(ch, s) => if ch == id then xs + [IdealAmps(s, gridVolt)] else xs
  }

  /** Without changes of limits, a charger's memory follows its own calls alone. */
  lemma {:induction false} FixedLimits(c: Calc, evs: seq<Event>, id: string)
    requires c.gridVolt > 0
    requires forall i :: 0 <= i < |evs| ==> evs[i].Compute?
    ensures Run(c, evs).limits == c.limits
    ensures Run(c, evs).Of(id) == After(c.limits, c.Of(id), Ideals(c.gridVolt, evs, id))
  {
    if evs != [] {
      FixedLimits(c, Front(evs), id);
      var e := Last(evs);
      assert e.Compute?;
      if e.id == id {
        var xs := Ideals(c.gridVolt, Front(evs), id);
        assert Front(xs + [IdealAmps(e.sample, c.gridVolt)]) == xs;
      }
    }
  }

  /** Two consecutive calls of one charger in a run without changes of limits, others' calls in between. */
  ghost predicate Consecutive(evs: seq<Event>, i: nat, j: nat) {
    && i < j < |evs|
    && (forall k :: 0 <= k < |evs| ==> evs[k].Compute?)
    && evs[j].id == evs[i].id
    && (forall k :: i < k < j ==> evs[k].id != evs[i].id)
  }

  lemma {:induction false} IdealsBetween(gridVolt: int, evs: seq<Event>, i: nat, j: nat)
    requires gridVolt > 0 && i < j <= |evs|
    requires forall k :: 0 <= k < j ==> evs[k].Compute?
    requires forall k :: i < k < j ==> evs[k].id != evs[i].id
    ensures Ideals(gridVolt, evs[..j], evs[i].id)
         == Ideals(gridVolt, evs[..i], evs[i].id) + [IdealAmps(evs[i].sample, gridVolt)]
    decreases j
  {
    assert Front(evs[..j]) == evs[..j - 1] && Last(evs[..j]) == evs[j - 1];
    if i + 1 < j {
      IdealsBetween(gridVolt, evs, i, j - 1);
    }
  }

  /**
   So in any run without changes of limits, from any state the calculator can be in: two consecutive answers to
   one charger are calm unless the earlier limit was one ampere under the minimum and the later call is below it.
   */
  lemma {:induction false} NoChatterInRuns(c: Calc, evs: seq<Event>, i: nat, j: nat)
    requires c.gridVolt > 0 && 0 < c.limits.minAmps <= c.limits.maxAmps
    requires Consecutive(evs, i, j)
    ensures var before, now := OutputAt(c, evs, i), OutputAt(c, evs, j);
            Calm(before.limitAmps, now.limitAmps, now.shouldStop) <==>
              !(before.limitAmps == c.limits.minAmps - 1 && IdealAmps(evs[j].sample, c.gridVolt) < c.limits.minAmps &&
                !now.shouldStop)
  {
    var lim, id := c.limits, evs[i].id;
    var xs, x, y :=
      Ideals(c.gridVolt, evs[..i], id), IdealAmps(evs[i].sample, c.gridVolt), IdealAmps(evs[j].sample, c.gridVolt);
    var all, n := xs + [x] + [y], |xs|;
    IdealsBetween(c.gridVolt, evs, i, j);
    FixedLimits(c, evs[..i], id);
    FixedLimits(c, evs[..j], id);
    ReasonIsOnlyALabel(lim, Run(c, evs[..i]).Of(id), x, SurplusReason(evs[i].sample));
    ReasonIsOnlyALabel(lim, Run(c, evs[..j]).Of(id), y, SurplusReason(evs[j].sample));
    assert all[..n] == xs && all[..n + 1] == xs + [x] && all[n] == x && all[n + 1] == y;
    NoChatterIff(lim, c.Of(id), all, n);
  }

  lemma {:induction false} RunSplit(c: Calc, a: seq<Event>, b: seq<Event>)
    requires c.gridVolt > 0
    ensures Run(c, a + b) == Run(Run(c, a), b)
  {
    if b == [] {
      assert a + b == a;
    } else {
      RunSplit(c, a, Front(b));
      assert Front(a + b) == a + Front(b);
    }
  }

  /**
   In any run, after the last change of limits to 0 < min <= max every answer is at least min-1,
   and from each charger's third call after it on also at most max+1.
   */
  lemma {:induction false} RecoveryAfterHotChange(c: Calc, evs: seq<Event>, k: nat, i: nat)
    requires c.gridVolt > 0
    requires k < i < |evs| && evs[k].SetLimits?
    requires forall j :: k < j <= i ==> evs[j].Compute?
    requires 0 < evs[k].limits.minAmps <= evs[k].limits.maxAmps
    ensures var lim, amps := evs[k].limits, OutputAt(c, evs, i).limitAmps;
            && amps >= lim.minAmps - 1
            && (|Ideals(c.gridVolt, evs[k + 1..i], evs[i].id)| >= 2 ==> amps <= lim.maxAmps + 1)
  {
    var id, lim := evs[i].id, evs[k].limits;
    var since := evs[k + 1..i];
    var d := Run(c, evs[..k + 1]);
    assert Front(evs[..k + 1]) == evs[..k];
    assert d.limits == lim;
    assert evs[..i] == evs[..k + 1] + since;
    RunSplit(c, evs[..k + 1], since);
    FixedLimits(d, since, id);
    var xs := Ideals(c.gridVolt, since, id);
    var x := IdealAmps(evs[i].sample, c.gridVolt);
    assert Front(xs + [x]) == xs;
    AnyMemoryRecovers(lim, d.Of(id), xs + [x]);
    ReasonIsOnlyALabel(lim, Run(c, evs[..i]).Of(id), x, SurplusReason(evs[i].sample));
  }

  /**
   The margins of one ampere are real: a limit of 10 is held under a minimum of 11, and one of 17 over a
   maximum of 16.
   */
  lemma HotChangeMarginsAreReached()
    ensures Amps(Limits(11, 32), Memory(RUNNING, Some(10)), 11) == 10
    ensures After(Limits(6, 16), Memory(RUNNING, Some(17)), [20, 20, 20]).last == Some(17)
  {
    var lim, m := Limits(6, 16), Memory(RUNNING, Some(17));
    assert Front([20, 20, 20]) == [20, 20] && Front([20, 20]) == [20] && Front([20]) == [];
  }

  /** Every remembered limit lies in lo..hi. */
  ghost predicate Remembers(c: Calc, lo: int, hi: int) {
    forall id :: id in c.mem && c.mem[id].last.Some? ==> lo <= c.mem[id].last.value <= hi
  }

  /** While the limits in force stay inside lo..hi, so does every answer. */
  lemma BoundsKept(c: Calc, id: string, s: Sample, lo: int, hi: int)
    requires c.gridVolt > 0 && lo <= c.limits.minAmps <= c.limits.maxAmps <= hi
    requires Remembers(c, lo, hi)
    ensures lo <= c.Asked(id, s).limitAmps <= hi
    ensures Remembers(c.Computed(id, s), lo, hi)
  {
    ReasonIsOnlyALabel(c.limits, c.Of(id), IdealAmps(s, c.gridVolt), SurplusReason(s));
  }

  // ---------------------------------------------------------------------------
  // Chargers do not interfere
  // ---------------------------------------------------------------------------

  /** The calls of one charger and every change of limits. */
  function Project(evs: seq<Event>, id: string): seq<Event> {
    if evs == [] then []
    else if Last(evs).SetLimits? || Last(evs).id == id then Project(Front(evs), id) + [Last(evs)]
    else Project(Front(evs), id)
  }

  lemma {:induction false} ProjectedRun(c: Calc, evs: seq<Event>, id: string)
    requires c.gridVolt > 0
    ensures Run(c, Project(evs, id)).limits == Run(c, evs).limits
    ensures Run(c, Project(evs, id)).Of(id) == Run(c, evs).Of(id)
  {
    if evs != [] {
      ProjectedRun(c, Front(evs), id);
      var p := Project(Front(evs), id);
      assert Front(p + [Last(evs)]) == p;
    }
  }

  /** Each answer is the one that charger would get if it ran alone with the same changes of limits. */
  lemma {:induction false} ChargersDoNotInterfere(c: Calc, evs: seq<Event>, i: nat)
    requires c.gridVolt > 0
    requires i < |evs| && evs[i].Compute?
    ensures var id := evs[i].id;
            var alone, j := Project(evs[..i + 1], id), |Project(evs[..i], id)|;
            && |alone| == j + 1
            && alone[j] == evs[i]
            && OutputAt(c, alone, j) == OutputAt(c, evs, i)
  {
    var id := evs[i].id;
    var past := evs[..i + 1];
    assert Front(past) == evs[..i] && Last(past) == evs[i];
    var p := Project(evs[..i], id);
    assert (p + [evs[i]])[..|p|] == p;
    ProjectedRun(c, evs[..i], id);
  }
}
