/**
 Quiescence: with constant readings and settings and every send accepted, the loop falls
 silent. From any state at all, ticks from the fourth on send nothing and change nothing.
 */
module ControlQuiet {
  import opened Options
  import opened Sequences
  import opened Ports
  import opened Trace
  import opened SmartCharging
  import opened CalculatorLimits
  import opened Control
  import opened ControlSteps
  import opened ControlOrder

  // ---------------------------------------------------------------------------
  // One charger's memory under a constant ideal current
  // ---------------------------------------------------------------------------

  /** The memory is at least where k calls with this ideal current leave any memory, k up to 3. */
  predicate Stage(lim: Limits, m: Memory, ideal: int, k: nat) {
    || k == 0
    || (ideal < lim.minAmps && m.stop.isStopped && m.stop.aboveCount == 0 && m.last == Some(lim.minAmps))
    || (ideal < lim.minAmps && !m.stop.isStopped && k <= 2 && m.stop.belowCount >= k)
    || (ideal >= lim.minAmps && m.stop.isStopped && k <= 1 && m.stop.aboveCount >= 1)
    || (ideal >= lim.minAmps && !m.stop.isStopped && m.stop.belowCount == 0 && m.last == Some(Amps(lim, m, ideal)))
  }

  function Next(k: nat): nat {
    if k < 3 then k + 1 else 3
  }

  lemma StageStep(lim: Limits, m: Memory, ideal: int, k: nat)
    requires k <= 3 && Stage(lim, m, ideal, k)
    ensures Stage(lim, Step(lim, m, ideal), ideal, Next(k))
  {
  }

  lemma StageWeaken(lim: Limits, m: Memory, ideal: int, k: nat, j: nat)
    requires j <= k && Stage(lim, m, ideal, k)
    ensures Stage(lim, m, ideal, j)
  {
  }

  /** After three calls nothing moves any more. */
  lemma LastStageIsFixed(lim: Limits, m: Memory, ideal: int)
    requires Stage(lim, m, ideal, 3)
    ensures Step(lim, m, ideal) == m
  {
  }

  /** From the third call on the answers are the final ones. */
  lemma ThirdAnswerIsFinal(lim: Limits, m: Memory, ideal: int)
    requires Stage(lim, m, ideal, 2)
    ensures var m' := Step(lim, m, ideal);
            Amps(lim, m, ideal) == Amps(lim, m', ideal) && StopsNow(lim, m, ideal) == StopsNow(lim, m', ideal)
  {
  }

  // ---------------------------------------------------------------------------
  // One pass over the connectors
  // ---------------------------------------------------------------------------

  function IdealOf(c: Control, s: Sample): int
    requires c.calculator.gridVolt > 0
  {
    IdealAmps(s, c.calculator.gridVolt)
  }

  predicate AtStage(c: Control, s: Sample, id: string, k: nat)
    requires c.calculator.gridVolt > 0
  {
    Stage(c.calculator.limits, c.calculator.Of(id), IdealOf(c, s), k)
  }

  /** The caches hold what the next call for this connector would send and announce. */
  predicate Pinned(c: Control, s: Sample, t: Target)
    requires c.calculator.gridVolt > 0
  {
    var lim, m, ideal := c.calculator.limits, c.calculator.Of(t.0), IdealOf(c, s);
    && Lookup(c.lastStop, t) == Some(StopsNow(lim, m, ideal))
    && Lookup(c.lastSet, t) == Some(if StopsNow(lim, m, ideal) then c.safeAmps else Amps(lim, m, ideal))
  }

  /** A call moves its charger one stage on and leaves the others where they are. */
  lemma TargetAdvances(c: Control, t: Target, s: Sample, replies: Replies, id: string, j: nat)
    requires c.calculator.gridVolt > 0
    requires j <= 3 && AtStage(c, s, id, j)
    ensures AtStage(ProcessTarget(c, t, s, replies), s, id, if t.0 == id then Next(j) else j)
  {
    TargetFrame(c, t, s, replies);
    if t.0 == id {
      StageStep(c.calculator.limits, c.calculator.Of(id), IdealOf(c, s), j);
    } else {
      assert SameFor(c, ProcessTarget(c, t, s, replies), id);
    }
  }

  /** A pass moves each charger it visits at least one stage on and leaves the others where they are. */
  lemma {:induction false} PassAdvances(
    c: Control, ts: seq<Target>, s: Sample, replies: Replies, id: string, k: nat)
    requires c.calculator.gridVolt > 0
    requires k <= 3 && AtStage(c, s, id, k)
    ensures AtStage(ProcessTargets(c, ts, s, replies), s, id, if AmongCalls(ts, id) then Next(k) else k)
  {
    if ts != [] {
      var t, d := Last(ts), ProcessTargets(c, Front(ts), s, replies);
      var j := if AmongCalls(Front(ts), id) then Next(k) else k;
      PassAdvances(c, Front(ts), s, replies, id, k);
      AmongFront(ts, id);
      TargetAdvances(d, t, s, replies, id, j);
      if t.0 == id {
        var d' := ProcessTarget(d, t, s, replies);
        StageWeaken(d'.calculator.limits, d'.calculator.Of(id), IdealOf(d', s), Next(j), Next(k));
      }
    }
  }

  /** A call from the second stage on leaves the connector pinned when its send is accepted. */
  lemma TargetPins(c: Control, t: Target, s: Sample, replies: Replies)
    requires c.calculator.gridVolt > 0
    requires AtStage(c, s, t.0, 2) && t in replies.accepts
    ensures Pinned(ProcessTarget(c, t, s, replies), s, t)
  {
    var r := c.calculator.Asked(t.0, s);
    ReasonIsOnlyALabel(c.calculator.limits, c.calculator.Of(t.0), IdealOf(c, s), SurplusReason(s));
    ThirdAnswerIsFinal(c.calculator.limits, c.calculator.Of(t.0), IdealOf(c, s));
    var c0 := c.(calculator := c.calculator.Computed(t.0, s));
    NotifyFrame(c0, t, r);
    SendFrame(NotifyIfFlipped(c0, t, r), t, Wanted(c, r), replies);
  }

  /** A later call for another connector leaves a settled charger's connector pinned. */
  lemma TargetKeepsPinned(c: Control, t: Target, u: Target, s: Sample, replies: Replies)
    requires c.calculator.gridVolt > 0
    requires Pinned(c, s, u) && AtStage(c, s, u.0, 3) && u != t
    ensures Pinned(ProcessTarget(c, t, s, replies), s, u)
  {
    var r := c.calculator.Asked(t.0, s);
    LastStageIsFixed(c.calculator.limits, c.calculator.Of(u.0), IdealOf(c, s));
    var c0 := c.(calculator := c.calculator.Computed(t.0, s));
    assert c0.calculator.Of(u.0) == c.calculator.Of(u.0);
    NotifyFrame(c0, t, r);
    SendFrame(NotifyIfFlipped(c0, t, r), t, Wanted(c, r), replies);
  }

  lemma PassSettles(c: Control, ts: seq<Target>, s: Sample, replies: Replies, u: Target)
    requires c.calculator.gridVolt > 0 && AtStage(c, s, u.0, 2)
    ensures AtStage(ProcessTargets(c, ts, s, replies), s, u.0, 2)
    ensures u in ts ==> AtStage(ProcessTargets(c, ts, s, replies), s, u.0, 3)
  {
    var d := ProcessTargets(c, ts, s, replies);
    PassAdvances(c, ts, s, replies, u.0, 2);
    StageWeaken(d.calculator.limits, d.calculator.Of(u.0), IdealOf(d, s), if AmongCalls(ts, u.0) then 3 else 2, 2);
    if u in ts {
      var i :| 0 <= i < |ts| && ts[i] == u;
      assert ts[i].0 == u.0;
      assert AmongCalls(ts, u.0);
    }
  }

  lemma {:induction false} PassPins(c: Control, ts: seq<Target>, s: Sample, replies: Replies)
    requires c.calculator.gridVolt > 0
    requires forall t :: t in ts ==> AtStage(c, s, t.0, 2) && t in replies.accepts
    ensures var d := ProcessTargets(c, ts, s, replies);
            forall t :: t in ts ==> AtStage(d, s, t.0, 3) && Pinned(d, s, t)
  {
    if ts != [] {
      var done, t := Front(ts), Last(ts);
      var d := ProcessTargets(c, done, s, replies);
      assert ts == done + [t];
      PassPins(c, done, s, replies);
      PassSettles(c, done, s, replies, t);
      TargetPins(d, t, s, replies);
      forall u | u in ts
        ensures AtStage(ProcessTargets(c, ts, s, replies), s, u.0, 3) && Pinned(ProcessTarget(d, t, s, replies), s, u) {
        PassSettles(c, ts, s, replies, u);
        if u != t {
          TargetKeepsPinned(d, t, u, s, replies);
        }
      }
      ProcessLast(c, ts, s, replies);
    }
  }

  lemma PinnedTargetIsQuiet(c: Control, t: Target, s: Sample, replies: Replies)
    requires c.calculator.gridVolt > 0
    requires AtStage(c, s, t.0, 3) && Pinned(c, s, t)
    ensures ProcessTarget(c, t, s, replies) == c
  {
    LastStageIsFixed(c.calculator.limits, c.calculator.Of(t.0), IdealOf(c, s));
    ReasonIsOnlyALabel(c.calculator.limits, c.calculator.Of(t.0), IdealOf(c, s), SurplusReason(s));
    assert c.calculator.mem[t.0 := c.calculator.mem[t.0]] == c.calculator.mem;
  }

  /** A pass over settled, pinned connectors does nothing. */
  lemma {:induction false} PinnedPassIsQuiet(c: Control, ts: seq<Target>, s: Sample, replies: Replies)
    requires c.calculator.gridVolt > 0
    requires forall t :: t in ts ==> AtStage(c, s, t.0, 3) && Pinned(c, s, t)
    ensures ProcessTargets(c, ts, s, replies) == c
  {
    if ts != [] {
      assert ts == Front(ts) + [Last(ts)];
      PinnedPassIsQuiet(c, Front(ts), s, replies);
      PinnedTargetIsQuiet(c, Last(ts), s, replies);
    }
  }

  // ---------------------------------------------------------------------------
  // Ticks
  // ---------------------------------------------------------------------------

  /** Enabled, with fresh data and the solar gate off. */
  predicate Steady(c: Control, e: Energy) {
    c.calculator.gridVolt > 0 && c.enabled && !e.stale && c.gate.threshold <= 0
  }

  /** Ticks with the same readings and repository, the chargers listed in a new order each time. */
  function Ticks(c: Control, e: Energy, v: View, orders: seq<seq<Charger>>, replies: Replies): (c': Control)
    requires c.calculator.gridVolt > 0
    ensures c'.calculator.gridVolt == c.calculator.gridVolt
  {
    if orders == [] then c
    else Tick(Ticks(c, e, v, Front(orders), replies), e, v.(chargers := Some(Last(orders))), replies)
  }

  ghost predicate Orders(orders: seq<seq<Charger>>, chargers: seq<Charger>) {
    forall i :: 0 <= i < |orders| ==> Permuted(orders[i], chargers)
  }

  ghost predicate Watched(c: Control, v: View, chargers: seq<Charger>, t: Target) {
    Visited(t, chargers, v.conns, c.overrides)
  }

  lemma SteadyTick(c: Control, e: Energy, v: View, order: seq<Charger>, replies: Replies)
    requires Steady(c, e)
    ensures var d := Tick(c, e, v.(chargers := Some(order)), replies);
            var c1 := c.(gate := c.gate.(below := 0, above := 0));
            && d == ProcessTargets(c1, Targets(order, v.conns, c.overrides), SampleOf(e), replies)
            && SameSettings(c1, d) && Steady(d, e)
  {
    var c1 := c.(gate := c.gate.(below := 0, above := 0));
    var w := v.(chargers := Some(order));
    assert c.trace + [] == c.trace;
    assert PassGate(c, e, w) == c1;
    ProcessFrame(c1, Targets(order, v.conns, c.overrides), SampleOf(e), replies);
  }

  lemma OrderVisits(
    order: seq<Charger>, chargers: seq<Charger>, conns: map<string, seq<Connector>>, skip: set<string>, t: Target)
    requires Permuted(order, chargers)
    ensures t in Targets(order, conns, skip) <==> Visited(t, chargers, conns, skip)
  {
    TargetsAreTheVisited(order, conns, skip, t);
  }

  /** After k ticks, k up to 3, every watched charger is at stage k. */
  lemma {:induction false} TicksAdvance(
    c: Control, e: Energy, v: View, chargers: seq<Charger>, orders: seq<seq<Charger>>, replies: Replies, t: Target)
    requires Steady(c, e) && Orders(orders, chargers) && |orders| <= 3
    requires Watched(c, v, chargers, t)
    ensures var d := Ticks(c, e, v, orders, replies);
            && Steady(d, e)
            && d.overrides == c.overrides
            && AtStage(d, SampleOf(e), t.0, |orders|)
  {
    if orders != [] {
      TicksAdvance(c, e, v, chargers, Front(orders), replies, t);
      var d := Ticks(c, e, v, Front(orders), replies);
      var order := Last(orders);
      assert Permuted(orders[|orders| - 1], chargers);
      SteadyTick(d, e, v, order, replies);
      OrderVisits(order, chargers, v.conns, d.overrides, t);
      var d1 := d.(gate := d.gate.(below := 0, above := 0));
      var ts := Targets(order, v.conns, d.overrides);
      var i :| 0 <= i < |ts| && ts[i] == t;
      assert ts[i].0 == t.0;
      PassAdvances(d1, ts, SampleOf(e), replies, t.0, |orders| - 1);
    }
  }

  lemma SteadyThroughout(c: Control, e: Energy, v: View, orders: seq<seq<Charger>>, replies: Replies)
    requires Steady(c, e)
    ensures var d := Ticks(c, e, v, orders, replies); Steady(d, e) && SameSettings(c.(gate := d.gate), d)
    ensures orders != [] ==> Ticks(c, e, v, orders, replies).gate == c.gate.(below := 0, above := 0)
  {
    if orders != [] {
      SteadyThroughout(c, e, v, Front(orders), replies);
      SteadyTick(Ticks(c, e, v, Front(orders), replies), e, v, Last(orders), replies);
    }
  }

  /** After three ticks every watched connector is settled and pinned. */
  lemma {:induction false} ThreeTicksSettle(
    c: Control, e: Energy, v: View, chargers: seq<Charger>, orders: seq<seq<Charger>>, replies: Replies)
    requires Steady(c, e) && Orders(orders, chargers) && |orders| == 3
    requires forall t :: Watched(c, v, chargers, t) ==> t in replies.accepts
    ensures var d := Ticks(c, e, v, orders, replies);
            && Steady(d, e)
            && forall t :: Watched(c, v, chargers, t) ==> AtStage(d, SampleOf(e), t.0, 3) && Pinned(d, SampleOf(e), t)
  {
    SteadyThroughout(c, e, v, orders, replies);
    SteadyThroughout(c, e, v, Front(orders), replies);
    var d, order := Ticks(c, e, v, Front(orders), replies), Last(orders);
    assert Permuted(orders[2], chargers);
    SteadyTick(d, e, v, order, replies);
    var d1 := d.(gate := d.gate.(below := 0, above := 0));
    var ts := Targets(order, v.conns, d.overrides);
    forall t | t in ts ensures AtStage(d1, SampleOf(e), t.0, 2) && t in replies.accepts {
      OrderVisits(order, chargers, v.conns, d.overrides, t);
      TicksAdvance(c, e, v, chargers, Front(orders), replies, t);
    }
    PassPins(d1, ts, SampleOf(e), replies);
    forall t | Watched(c, v, chargers, t) ensures t in ts {
      OrderVisits(order, chargers, v.conns, d.overrides, t);
    }
  }

  /**
   From any state, with the same fresh readings, limits, safe current and repository, the gate off
   and all sends accepted: after three ticks every further tick leaves everything as it is, so no
   profile, notice or other command is sent and no answer of the calculator changes.
   */
  lemma {:induction false} QuietFromTheFourthTick(
    c: Control, e: Energy, v: View, chargers: seq<Charger>, orders: seq<seq<Charger>>, replies: Replies)
    requires Steady(c, e) && Orders(orders, chargers) && |orders| >= 3
    requires forall t :: Watched(c, v, chargers, t) ==> t in replies.accepts
    ensures Ticks(c, e, v, orders, replies) == Ticks(c, e, v, orders[..3], replies)
  {
    if |orders| == 3 {
      assert orders[..3] == orders;
    } else {
      var order := Last(orders);
      assert Permuted(orders[|orders| - 1], chargers);
      assert Front(orders)[..3] == orders[..3];
      QuietFromTheFourthTick(c, e, v, chargers, Front(orders), replies);
      ThreeTicksSettle(c, e, v, chargers, orders[..3], replies);
      SteadyThroughout(c, e, v, orders[..3], replies);
      var d := Ticks(c, e, v, orders[..3], replies);
      SteadyTick(d, e, v, order, replies);
      assert d.gate.(below := 0, above := 0) == d.gate;
      var ts := Targets(order, v.conns, d.overrides);
      forall t | t in ts ensures AtStage(d, SampleOf(e), t.0, 3) && Pinned(d, SampleOf(e), t) {
        OrderVisits(order, chargers, v.conns, d.overrides, t);
        assert Watched(c, v, chargers, t);
      }
      PinnedPassIsQuiet(d, ts, SampleOf(e), replies);
    }
  }
}
