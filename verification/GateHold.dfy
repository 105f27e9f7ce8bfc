/**
 When the solar gate holds back the rest of a tick, in terms of the readings: while solar is below the threshold, and
 once more when it is first found at or above it again.
 */
module GateHold {
  import opened Sequences
  import opened Ports
  import opened Trace
  import opened SmartCharging
  import SolarGate
  import SolarGateRuns
  import opened Control
  import opened ControlSteps
  import opened System
  import SystemGate

  predicate HeldBack(c: Control, e: Energy) {
    Dark(c, e) || (Bright(c, e) && c.gate.above == 0)
  }

  lemma CallComputes(c: Control, t: Target, s: Sample, replies: Replies)
    requires c.calculator.gridVolt > 0
    ensures ProcessTarget(c, t, s, replies).calculator.mem.Keys == c.calculator.mem.Keys + {t.0}
  {
  }

  /** A pass computes every charger it visits. */
  lemma {:induction false} PassComputes(c: Control, ts: seq<Target>, s: Sample, replies: Replies, t: Target)
    requires c.calculator.gridVolt > 0
    ensures t in ts ==> t.0 in ProcessTargets(c, ts, s, replies).calculator.mem
  {
    if ts != [] {
      PassComputes(c, Front(ts), s, replies, t);
      assert ts == Front(ts) + [Last(ts)];
      CallComputes(ProcessTargets(c, Front(ts), s, replies), Last(ts), s, replies);
      ProcessLast(c, ts, s, replies);
    }
  }

  /**
   With fresh data and a listing, a tick either leaves calculator, caches and overrides alone and sends and announces
   nothing, or makes its pass over all connectors to visit. It does the first exactly when the gate is on, solar
   is known, and it is below the threshold or for the first time in a row not below it.
   */
  lemma TickHeldBackIff(c: Control, e: Energy, v: View, replies: Replies)
    requires c.calculator.gridVolt > 0 && c.enabled && !e.stale && v.chargers.Some?
    ensures var d := Tick(c, e, v, replies);
            && c.trace <= d.trace
            && if HeldBack(c, e) then
                 && d == c.(gate := d.gate, trace := d.trace)
                 && forall x :: x in Since(c.trace, d.trace) ==> !x.Profile? && !x.Notified?
               else
                 d == ProcessTargets(c.(gate := d.gate, trace := c.trace + GateLog(c, e, v)),
                                     Targets(v.chargers.value, v.conns, c.overrides), SampleOf(e), replies)
  {
    var o, c1 := SolarGate.Evaluate(c.gate, v.chargers.value, c.overrides, e, v), PassGate(c, e, v);
    SolarGateRuns.GateSendsNoProfile(c.gate, v.chargers.value, c.overrides, e, v);
    assert Since(c.trace, c1.trace) == o.log;
    if !HeldBack(c, e) {
      ProcessFrame(c1, Targets(v.chargers.value, v.conns, c.overrides), SampleOf(e), replies);
    }
  }

  /**
   So a charger never computed before, with a connector to visit, is computed exactly when the tick is not held
   back.
   */
  lemma {:induction false} NewChargerComputedIff(c: Control, e: Energy, v: View, replies: Replies, t: Target)
    requires c.calculator.gridVolt > 0 && c.enabled && !e.stale && v.chargers.Some?
    requires Visited(t, v.chargers.value, v.conns, c.overrides) && t.0 !in c.calculator.mem
    ensures t.0 in Tick(c, e, v, replies).calculator.mem <==> !HeldBack(c, e)
  {
    TickHeldBackIff(c, e, v, replies);
    TargetsAreTheVisited(v.chargers.value, v.conns, c.overrides, t);
    if !HeldBack(c, e) {
      var c1 := c.(gate := Tick(c, e, v, replies).gate, trace := c.trace + GateLog(c, e, v));
      PassComputes(c1, Targets(v.chargers.value, v.conns, c.overrides), SampleOf(e), replies, t);
    }
  }

  // ---------------------------------------------------------------------------
  // Runs
  // ---------------------------------------------------------------------------

  /** Ticks that compare nothing do not interrupt a row, unless they find the gate off. */
  function CountDark(c: Control, e: Energy, before: nat): nat {
    if Dark(c, e) then before + 1 else if Bright(c, e) || FindsGateOff(c, e) then 0 else before
  }

  function CountBright(c: Control, e: Energy, before: nat): nat {
    if Bright(c, e) then before + 1 else if Dark(c, e) || FindsGateOff(c, e) then 0 else before
  }

  /** How many dark ticks in a row the run has come to. */
  function DarkInARow(s: State, ops: seq<Op>): nat
    requires s.control.calculator.gridVolt > 0
  {
    if ops == [] then 0
    else if !Last(ops).TickOp? then DarkInARow(s, Front(ops))
    else CountDark(Run(s, Front(ops)).control, Last(ops).energy, DarkInARow(s, Front(ops)))
  }

  function BrightInARow(s: State, ops: seq<Op>): nat
    requires s.control.calculator.gridVolt > 0
  {
    if ops == [] then 0
    else if !Last(ops).TickOp? then BrightInARow(s, Front(ops))
    else CountBright(Run(s, Front(ops)).control, Last(ops).energy, BrightInARow(s, Front(ops)))
  }

  lemma ApplyCounts(w: State, op: Op)
    requires w.control.calculator.gridVolt > 0
    ensures var c, g := w.control, Apply(w, op).control.gate;
            && g.below == (if op.TickOp? then CountDark(c, op.energy, c.gate.below) else c.gate.below)
            && g.above == (if op.TickOp? then CountBright(c, op.energy, c.gate.above) else c.gate.above)
  {
    if op.TickOp? {
      SystemGate.TickGate(w.control, op.energy, ViewOf(w.repo, op.order, op.replies.live), op.replies);
    }
  }

  lemma {:induction false} CountersCountInARow(s: State, ops: seq<Op>)
    requires Initial(s)
    ensures Run(s, ops).control.gate.below == DarkInARow(s, ops)
    ensures Run(s, ops).control.gate.above == BrightInARow(s, ops)
  {
    if ops != [] {
      CountersCountInARow(s, Front(ops));
      ApplyCounts(Run(s, Front(ops)), Last(ops));
    }
  }

  /**
   In every run: a tick with fresh data is held back exactly when it is dark, or is bright and the comparing tick before
   it was not.
   */
  lemma {:induction false} HeldBackInEveryRun(s: State, ops: seq<Op>, op: Op)
    requires Initial(s) && ValidRun(s, ops)
    requires op.TickOp? && Enabled(Run(s, ops), op) && Run(s, ops).control.enabled && !op.energy.stale
    ensures var c, d := Run(s, ops).control, Apply(Run(s, ops), op).control;
            var v := ViewOf(Run(s, ops).repo, op.order, op.replies.live);
            && c.trace <= d.trace
            && if Dark(c, op.energy) || (Bright(c, op.energy) && BrightInARow(s, ops) == 0) then
                 && d == c.(gate := d.gate, trace := d.trace)
                 && forall x :: x in Since(c.trace, d.trace) ==> !x.Profile? && !x.Notified?
               else
                 d == ProcessTargets(c.(gate := d.gate, trace := c.trace + GateLog(c, op.energy, v)),
                                     Targets(op.order, v.conns, c.overrides), SampleOf(op.energy), op.replies)
  {
    var w := Run(s, ops);
    CountersCountInARow(s, ops);
    TickHeldBackIff(w.control, op.energy, ViewOf(w.repo, op.order, op.replies.live), op.replies);
  }
}
