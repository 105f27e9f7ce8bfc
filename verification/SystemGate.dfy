/** The solar gate in every state a run of the system reaches. */
module SystemGate {
  import opened Sequences
  import opened Ports
  import opened Trace
  import SolarGate
  import opened SolarGateRuns
  import opened Control
  import opened ControlSteps
  import opened System

  /** The gate part of a tick: an evaluation, or nothing. */
  lemma TickGate(c: Control, e: Energy, v: View, replies: Replies)
    requires c.calculator.gridVolt > 0 && v.chargers.Some?
    ensures var d := Tick(c, e, v, replies);
            var o := SolarGate.Evaluate(c.gate, v.chargers.value, c.overrides, e, v);
            && c.trace <= d.trace
            && d.overrides == c.overrides && d.enabled == c.enabled
            && if c.enabled && !e.stale then
                 && d.gate == o.gate
                 && |o.log| <= |Since(c.trace, d.trace)|
                 && Since(c.trace, d.trace)[..|o.log|] == o.log
                 && forall x :: x in Since(c.trace, d.trace)[|o.log|..] ==> x.Profile? || x.Notified?
               else
                 d.gate == c.gate && forall x :: x in Since(c.trace, d.trace) ==> x.Profile?
  {
    if c.enabled {
      if e.stale {
        RevertFrame(c, Targets(v.chargers.value, v.conns, {}), replies);
        RevertSendsProfiles(c, Targets(v.chargers.value, v.conns, {}), replies);
      } else {
        var o := SolarGate.Evaluate(c.gate, v.chargers.value, c.overrides, e, v);
        var c1 := PassGate(c, e, v);
        var ts := Targets(v.chargers.value, v.conns, c1.overrides);
        ProcessFrame(c1, ts, SampleOf(e), replies);
        assert Since(c.trace, c1.trace) == o.log;
        if !o.hold {
          var d := ProcessTargets(c1, ts, SampleOf(e), replies);
          SinceTwice(c.trace, c1.trace, d.trace);
        }
      }
    }
  }

  /** A tick changes no settings. */
  lemma TickKeepsSettings(c: Control, e: Energy, v: View, replies: Replies)
    requires c.calculator.gridVolt > 0
    ensures var d := Tick(c, e, v, replies);
            && d.gate.threshold == c.gate.threshold && d.safeAmps == c.safeAmps
            && d.calculator.limits == c.calculator.limits
  {
    if c.enabled && v.chargers.Some? {
      if e.stale {
        RevertFrame(c, Targets(v.chargers.value, v.conns, {}), replies);
      } else {
        var c1 := PassGate(c, e, v);
        ProcessFrame(c1, Targets(v.chargers.value, v.conns, c1.overrides), SampleOf(e), replies);
      }
    }
  }

  lemma {:induction false} RevertSendsProfiles(c: Control, ts: seq<Target>, replies: Replies)
    ensures var d := RevertTargets(c, ts, replies);
            c.trace <= d.trace && forall x :: x in Since(c.trace, d.trace) ==> x.Profile?
  {
    if ts != [] {
      RevertSendsProfiles(c, Front(ts), replies);
      var d := RevertTargets(c, Front(ts), replies);
      RevertFrame(c, Front(ts), replies);
      SinceTwice(c.trace, d.trace, RevertTargets(c, ts, replies).trace);
    }
  }

  /** Entries that are not the gate's own leave the coupling of trace and stopped set alone. */
  lemma {:induction false} OtherEntriesCoupled(p: Phase, log: seq<Entry>, id: string, stopped: set<string>)
    requires Coupled(p, id, stopped)
    requires forall x :: x in log ==> x.Profile? || x.Notified? || x.ManualProfile?
    ensures Coupled(PhaseAfter(p, log, id), id, stopped)
  {
    if log != [] {
      OtherEntriesCoupled(p, Front(log), id, stopped);
      assert Last(log) in log;
    }
  }

  ghost predicate GateSound(s: State) {
    && Consistent(s.control.gate, s.repo.chargers.Keys)
    && forall id :: Coupled(PhaseAfter(Clear, s.control.trace, id), id, s.control.gate.stopped)
  }

  lemma TickKeepsCoupled(c: Control, e: Energy, v: View, replies: Replies, id: string)
    requires c.calculator.gridVolt > 0 && v.chargers.Some?
    requires Coupled(PhaseAfter(Clear, c.trace, id), id, c.gate.stopped)
    ensures var d := Tick(c, e, v, replies); Coupled(PhaseAfter(Clear, d.trace, id), id, d.gate.stopped)
  {
    var d := Tick(c, e, v, replies);
    TickGate(c, e, v, replies);
    var p, added := PhaseAfter(Clear, c.trace, id), Since(c.trace, d.trace);
    assert d.trace == c.trace + added;
    PhaseSplit(Clear, c.trace, added, id);
    if c.enabled && !e.stale {
      var o := SolarGate.Evaluate(c.gate, v.chargers.value, c.overrides, e, v);
      var sends := added[|o.log|..];
      EvaluateKeepsCoupled(p, c.gate, v.chargers.value, c.overrides, e, v, id);
      assert added == o.log + sends;
      PhaseSplit(p, o.log, sends, id);
      OtherEntriesCoupled(PhaseAfter(p, o.log, id), sends, id, d.gate.stopped);
    } else {
      OtherEntriesCoupled(p, added, id, d.gate.stopped);
    }
  }

  lemma TickKeepsGateSound(s: State, op: Op)
    requires s.control.calculator.gridVolt > 0 && RepoValid(s.repo)
    requires op.TickOp? && Enabled(s, op)
    requires GateSound(s)
    ensures GateSound(Apply(s, op))
  {
    var c, v := s.control, ViewOf(s.repo, op.order, op.replies.live);
    TickGate(c, op.energy, v, op.replies);
    ListingIsWellFormed(s.repo, op.order, op.replies.live);
    EvaluateKeepsConsistent(c.gate, op.order, c.overrides, op.energy, v, s.repo.chargers.Keys);
    forall id
      ensures Coupled(PhaseAfter(Clear, Apply(s, op).control.trace, id), id, Apply(s, op).control.gate.stopped)
    {
      TickKeepsCoupled(c, op.energy, v, op.replies, id);
    }
  }

  lemma ApplyKeepsGateSound(s: State, op: Op)
    requires s.control.calculator.gridVolt > 0 && RepoValid(s.repo)
    requires Enabled(s, op)
    requires GateSound(s)
    ensures GateSound(Apply(s, op))
  {
    ApplyKeepsRepo(s.repo, op);
    if op.TickOp? {
      TickKeepsGateSound(s, op);
    } else if op.SetAmps? {
      var log := ManualLog(op.id, s.repo.Of(op.id), op.amps, op.replies);
      ManualLogOnly(op.id, s.repo.Of(op.id), op.amps, op.replies);
      forall id ensures Coupled(PhaseAfter(Clear, s.control.trace + log, id), id, s.control.gate.stopped) {
        PhaseSplit(Clear, s.control.trace, log, id);
        OtherEntriesCoupled(PhaseAfter(Clear, s.control.trace, id), log, id, s.control.gate.stopped);
      }
    }
  }

  /**
   In every reachable state the gate's two counters are not both positive, it holds only known
   chargers, and none once solar is confirmed; and for every charger its marks and releases have
   alternated, each remote stop right behind a mark and each remote start right behind a release.
   */
  lemma {:induction false} GateSoundInEveryRun(s: State, ops: seq<Op>)
    requires Initial(s) && ValidRun(s, ops)
    ensures GateSound(Run(s, ops))
  {
    if ops != [] {
      GateSoundInEveryRun(s, Front(ops));
      RunKeepsRepo(s, Front(ops));
      ApplyKeepsGateSound(Run(s, Front(ops)), Last(ops));
    }
  }

  /**
   What the gate made of an operation, if it was a tick; one that never reaches the gate counts as one
   without a reading.
   */
  function Judged(s: State, op: Op): seq<SolarGate.Verdict> {
    if !op.TickOp? then []
    else if !s.control.enabled || op.energy.stale then [SolarGate.NoReading]
    else [SolarGate.Judge(s.control.gate.threshold, op.energy)]
  }

  function GateHistory(s: State, ops: seq<Op>): seq<SolarGate.Verdict>
    requires s.control.calculator.gridVolt > 0
  {
    if ops == [] then [] else GateHistory(s, Front(ops)) + Judged(Run(s, Front(ops)), Last(ops))
  }

  lemma ApplyKeepsCounters(s: State, op: Op, h: seq<SolarGate.Verdict>)
    requires s.control.calculator.gridVolt > 0
    requires CountersMatch(s.control.gate, h)
    ensures CountersMatch(Apply(s, op).control.gate, h + Judged(s, op))
  {
    if op.TickOp? {
      var v := ViewOf(s.repo, op.order, op.replies.live);
      TickGate(s.control, op.energy, v, op.replies);
      EvaluateKeepsCounters(s.control.gate, op.order, s.control.overrides, op.energy, v, h);
      assert Front(h + [SolarGate.NoReading]) == h;
    } else {
      assert h + [] == h;
      assert Apply(s, op).control.gate.below == s.control.gate.below;
    }
  }

  lemma {:induction false} CountersMatchHistory(s: State, ops: seq<Op>)
    requires Initial(s)
    ensures CountersMatch(Run(s, ops).control.gate, GateHistory(s, ops))
  {
    if ops != [] {
      CountersMatchHistory(s, Front(ops));
      ApplyKeepsCounters(Run(s, Front(ops)), Last(ops), GateHistory(s, Front(ops)));
    }
  }

  lemma TickExtendsTrace(s: State, op: Op)
    requires s.control.calculator.gridVolt > 0 && op.TickOp?
    ensures s.control.trace <= Apply(s, op).control.trace
  {
    TickGate(s.control, op.energy, ViewOf(s.repo, op.order, op.replies.live), op.replies);
  }

  /** What a tick adds to the trace. */
  function Added(s: State, op: Op): seq<Entry>
    requires s.control.calculator.gridVolt > 0 && op.TickOp?
  {
    TickExtendsTrace(s, op);
    Since(s.control.trace, Apply(s, op).control.trace)
  }

  /** The stop entries of a log are `third`'s doing and for chargers due a stop, and `third` stops all of `others`. */
  ghost predicate Stops(log: seq<Entry>, third: bool, due: set<string>, others: set<string>, v: View) {
    && (forall x :: x in log && IsStopEntry(x) ==> third && x.id in due)
    && (third ==> forall id :: id in others ==> ToldToStop(log, id, v))
  }

  /** The start entries of a log are `second`'s doing and for chargers held, and `second` starts all of `present`. */
  ghost predicate Starts(log: seq<Entry>, second: bool, held: set<string>, present: set<string>, v: View) {
    && (forall x :: x in log && IsStartEntry(x) ==> second && x.id in held)
    && (second ==> forall id :: id in present ==> ToldToStart(log, id, v))
  }

  lemma StopsLonger(log: seq<Entry>, more: seq<Entry>, third: bool, due: set<string>, others: set<string>, v: View)
    requires Stops(log, third, due, others, v) && forall x :: x in more ==> !IsStopEntry(x)
    ensures Stops(log + more, third, due, others, v)
  {
  }

  lemma StartsLonger(log: seq<Entry>, more: seq<Entry>, second: bool, held: set<string>, present: set<string>, v: View)
    requires Starts(log, second, held, present, v) && forall x :: x in more ==> !IsStartEntry(x)
    ensures Starts(log + more, second, held, present, v)
  {
  }

  /** The last verdict is the n-th in a row of its kind. */
  predicate InARow(h: seq<SolarGate.Verdict>, verdict: SolarGate.Verdict, n: nat) {
    h != [] && Last(h) == verdict && Streak(h, verdict) == n
  }

  /**
   A tick after history h: stop entries come with the third verdict below in a row and no other, and
   then every online charger without override that was not stopped yet is told to stop.
   */
  ghost predicate StopsOnTime(s: State, op: Op, h: seq<SolarGate.Verdict>)
    requires s.control.calculator.gridVolt > 0 && op.TickOp?
  {
    var due := Stoppable(op.order, s.control.overrides);
    Stops(Added(s, op), InARow(h + Judged(s, op), SolarGate.Below, SolarGate.STOP_TICKS),
          due, due - s.control.gate.stopped, ViewOf(s.repo, op.order, op.replies.live))
  }

  /**
   A tick after history h: start entries come with the second verdict above in a row and no other,
   and then every charger held is released and the online ones, overridden or not, are told to start.
   */
  ghost predicate StartsOnTime(s: State, op: Op, h: seq<SolarGate.Verdict>)
    requires s.control.calculator.gridVolt > 0 && op.TickOp?
  {
    var second := InARow(h + Judged(s, op), SolarGate.Above, SolarGate.START_TICKS);
    var held := s.control.gate.stopped;
    && Starts(Added(s, op), second, held, held * (IDs(op.order) - OfflineIDs(op.order)),
          ViewOf(s.repo, op.order, op.replies.live))
    && (second ==> Apply(s, op).control.gate.stopped == {})
  }

  lemma TickStopsOnTime(s: State, op: Op, h: seq<SolarGate.Verdict>)
    requires s.control.calculator.gridVolt > 0 && op.TickOp?
    requires CountersMatch(s.control.gate, h)
    ensures StopsOnTime(s, op, h)
  {
    var c, e, v, log := s.control, op.energy, ViewOf(s.repo, op.order, op.replies.live), Added(s, op);
    TickGate(c, e, v, op.replies);
    if c.enabled && !e.stale {
      var o := SolarGate.Evaluate(c.gate, op.order, c.overrides, e, v);
      StopBurstOnTheThird(c.gate, op.order, c.overrides, e, v, h);
      var due := Stoppable(op.order, c.overrides);
      StopsLonger(o.log, log[|o.log|..], InARow(h + Judged(s, op), SolarGate.Below, SolarGate.STOP_TICKS),
                  due, due - c.gate.stopped, v);
      assert log == o.log + log[|o.log|..];
    }
  }

  /** The same of one evaluation. */
  lemma EvaluationStartsOnTime(
    g: SolarGate.Gate, chargers: seq<Charger>, overrides: set<string>, e: Energy, v: View, h: seq<SolarGate.Verdict>,
    known: set<string>)
    requires CountersMatch(g, h) && Consistent(g, known) && IDs(chargers) == known
    ensures var o := SolarGate.Evaluate(g, chargers, overrides, e, v);
            var second := InARow(h + [SolarGate.Judge(g.threshold, e)], SolarGate.Above, SolarGate.START_TICKS);
            && Starts(o.log, second, g.stopped, g.stopped * (IDs(chargers) - OfflineIDs(chargers)), v)
            && (second ==> o.gate.stopped == {})
  {
    StartBurstOnTheSecond(g, chargers, overrides, e, v, h);
  }

  lemma TickStartsOnTime(s: State, op: Op, h: seq<SolarGate.Verdict>)
    requires s.control.calculator.gridVolt > 0 && op.TickOp?
    requires RepoValid(s.repo) && Enabled(s, op)
    requires CountersMatch(s.control.gate, h) && GateSound(s)
    ensures StartsOnTime(s, op, h)
  {
    var c, e, v, log := s.control, op.energy, ViewOf(s.repo, op.order, op.replies.live), Added(s, op);
    TickGate(c, e, v, op.replies);
    if c.enabled && !e.stale {
      ListingIsWellFormed(s.repo, op.order, op.replies.live);
      var o := SolarGate.Evaluate(c.gate, op.order, c.overrides, e, v);
      EvaluationStartsOnTime(c.gate, op.order, c.overrides, e, v, h, s.repo.chargers.Keys);
      var held := c.gate.stopped;
      StartsLonger(o.log, log[|o.log|..], InARow(h + Judged(s, op), SolarGate.Above, SolarGate.START_TICKS),
                   held, held * (IDs(op.order) - OfflineIDs(op.order)), v);
      assert log == o.log + log[|o.log|..];
    }
  }

  /** In every run the gate's stop and start bursts come exactly on the third and the second verdict in a row. */
  lemma {:induction false} BurstsComeOnTime(s: State, ops: seq<Op>, op: Op)
    requires Initial(s) && ValidRun(s, ops)
    requires op.TickOp? && Enabled(Run(s, ops), op)
    ensures StopsOnTime(Run(s, ops), op, GateHistory(s, ops))
    ensures StartsOnTime(Run(s, ops), op, GateHistory(s, ops))
  {
    CountersMatchHistory(s, ops);
    GateSoundInEveryRun(s, ops);
    RunKeepsRepo(s, ops);
    TickStopsOnTime(Run(s, ops), op, GateHistory(s, ops));
    TickStartsOnTime(Run(s, ops), op, GateHistory(s, ops));
  }
}
