/**
 What one evaluation of the solar gate keeps: the relation between its counters, its set of
 stopped chargers and the commands it has sent. `System` lifts these to whole runs.
 */
module SolarGateRuns {
  import opened Sequences
  import opened Ports
  import opened Trace
  import opened SolarGate

  function IDs(chargers: seq<Charger>): set<string> {
    set c | c in chargers :: c.id
  }

  function OfflineIDs(chargers: seq<Charger>): set<string> {
    set c | c in chargers && !c.online :: c.id
  }

  /** The chargers a stop burst is for. */
  function Stoppable(chargers: seq<Charger>, overrides: set<string>): set<string> {
    set c | c in chargers && c.online && c.id !in overrides :: c.id
  }

  lemma {:induction false} ForgetOfflineEffect(b: Burst, chargers: seq<Charger>)
    ensures ForgetOffline(b, chargers).stopped == b.stopped - OfflineIDs(chargers)
  {
    if chargers != [] {
      ForgetOfflineEffect(b, Front(chargers));
      assert chargers == Front(chargers) + [Last(chargers)];
    }
  }

  lemma {:induction false} StopBurstEffect(b: Burst, chargers: seq<Charger>, overrides: set<string>, v: View)
    ensures StopBurst(b, chargers, overrides, v).stopped == b.stopped + Stoppable(chargers, overrides)
  {
    if chargers != [] {
      StopBurstEffect(b, Front(chargers), overrides, v);
      assert chargers == Front(chargers) + [Last(chargers)];
    }
  }

  lemma {:induction false} StartBurstEffect(b: Burst, chargers: seq<Charger>, v: View)
    ensures StartBurst(b, chargers, v).stopped == b.stopped - IDs(chargers)
  {
    if chargers != [] {
      StartBurstEffect(b, Front(chargers), v);
      assert chargers == Front(chargers) + [Last(chargers)];
    }
  }

  // ---------------------------------------------------------------------------
  // Counters and the stopped set
  // ---------------------------------------------------------------------------

  /** Never both counting; only known chargers stopped; none left stopped once solar is confirmed. */
  ghost predicate Consistent(g: Gate, known: set<string>) {
    && (g.below == 0 || g.above == 0)
    && g.stopped <= known
    && (g.above >= START_TICKS ==> g.stopped == {})
  }

  lemma EvaluateKeepsConsistent(
    g: Gate, chargers: seq<Charger>, overrides: set<string>, e: Energy, v: View, known: set<string>)
    requires Consistent(g, known) && IDs(chargers) == known
    ensures Consistent(Evaluate(g, chargers, overrides, e, v).gate, known)
  {
    var f := ForgetOffline(Burst(g.stopped, []), chargers);
    var b := Burst(f.stopped, []);
    ForgetOfflineEffect(Burst(g.stopped, []), chargers);
    StopBurstEffect(b, chargers, overrides, v);
    StartBurstEffect(b, chargers, v);
    assert Stoppable(chargers, overrides) <= IDs(chargers);
  }

  // ---------------------------------------------------------------------------
  // When the bursts come
  // ---------------------------------------------------------------------------

  /** How many evaluations in a row gave `v`, ticks without a reading passed over. */
  function Streak(h: seq<Verdict>, v: Verdict): nat {
    if h == [] then 0
    else if Last(h) == NoReading then Streak(Front(h), v)
    else if Last(h) == v then 1 + Streak(Front(h), v)
    else 0
  }

  ghost predicate CountersMatch(g: Gate, h: seq<Verdict>) {
    g.below == Streak(h, Below) && g.above == Streak(h, Above)
  }

  lemma EvaluateKeepsCounters(
    g: Gate, chargers: seq<Charger>, overrides: set<string>, e: Energy, v: View, h: seq<Verdict>)
    requires CountersMatch(g, h)
    ensures CountersMatch(Evaluate(g, chargers, overrides, e, v).gate, h + [Judge(g.threshold, e)])
  {
    assert Front(h + [Judge(g.threshold, e)]) == h;
  }

  predicate IsStopEntry(x: Entry) {
    x.GateMarked? || x.RemoteStop?
  }

  predicate IsStartEntry(x: Entry) {
    x.GateResumed? || x.RemoteStart?
  }

  lemma {:induction false} StopCommandsOnly(id: string, conns: seq<Connector>, active: map<Target, int>)
    ensures forall x :: x in StopCommands(id, conns, active) ==> x.RemoteStop? && x.id == id
    ensures forall c :: c in conns && c.connectorID != 0 && (id, c.connectorID) in active ==>
              RemoteStop(id, active[(id, c.connectorID)]) in StopCommands(id, conns, active)
  {
    if conns != [] {
      StopCommandsOnly(id, Front(conns), active);
      assert conns == Front(conns) + [Last(conns)];
    }
  }

  lemma {:induction false} StartCommandsOnly(id: string, conns: seq<Connector>)
    ensures forall x :: x in StartCommands(id, conns) ==> x.RemoteStart? && x.id == id
    ensures forall c :: c in conns && c.connectorID != 0 ==> RemoteStart(id, c.connectorID) in StartCommands(id, conns)
  {
    if conns != [] {
      StartCommandsOnly(id, Front(conns));
      assert conns == Front(conns) + [Last(conns)];
    }
  }

  /** A charger newly stopped by the gate is marked, and every open transaction of it is told to stop. */
  ghost predicate ToldToStop(log: seq<Entry>, id: string, v: View) {
    && GateMarked(id) in log
    && (id in v.conns ==>
          forall c :: c in v.conns[id] && c.connectorID != 0 && (id, c.connectorID) in v.active ==>
            RemoteStop(id, v.active[(id, c.connectorID)]) in log)
  }

  /** A charger released by the gate is marked so, and every numbered connector of it is told to start. */
  ghost predicate ToldToStart(log: seq<Entry>, id: string, v: View) {
    && GateResumed(id) in log
    && (id in v.conns ==>
          forall c :: c in v.conns[id] && c.connectorID != 0 ==> RemoteStart(id, c.connectorID) in log)
  }

  lemma {:induction false} StopBurstTells(b: Burst, chargers: seq<Charger>, overrides: set<string>, v: View)
    requires b.log == []
    ensures var b' := StopBurst(b, chargers, overrides, v);
            && (forall x :: x in b'.log ==> IsStopEntry(x) && x.id in Stoppable(chargers, overrides))
            && (forall id :: id in b'.stopped - b.stopped ==> ToldToStop(b'.log, id, v))
  {
    if chargers != [] {
      var ch := Last(chargers);
      StopBurstTells(b, Front(chargers), overrides, v);
      assert chargers == Front(chargers) + [ch];
      var b1 := StopBurst(b, Front(chargers), overrides, v);
      var b2 := StopOne(b1, ch, overrides, v);
      if ch.id in v.conns {
        StopCommandsOnly(ch.id, v.conns[ch.id], v.active);
      }
      forall id | id in b2.stopped - b.stopped ensures ToldToStop(b2.log, id, v) {
        if id in b1.stopped {
          assert ToldToStop(b1.log, id, v);
        }
      }
    }
  }

  lemma {:induction false} StartBurstTells(b: Burst, chargers: seq<Charger>, v: View)
    requires b.log == []
    requires forall c :: c in chargers && !c.online ==> c.id !in b.stopped
    ensures var b' := StartBurst(b, chargers, v);
            && (forall x :: x in b'.log ==> IsStartEntry(x) && x.id in b.stopped)
            && (forall id :: id in b.stopped - b'.stopped ==> ToldToStart(b'.log, id, v))
            && b'.stopped <= b.stopped
  {
    if chargers != [] {
      var ch := Last(chargers);
      assert chargers == Front(chargers) + [ch];
      StartBurstTells(b, Front(chargers), v);
      var b1 := StartBurst(b, Front(chargers), v);
      var b2 := StartOne(b1, ch, v);
      if ch.id in v.conns {
        StartCommandsOnly(ch.id, v.conns[ch.id]);
      }
      forall id | id in b.stopped - b2.stopped ensures ToldToStart(b2.log, id, v) {
        if id !in b1.stopped {
          assert ToldToStart(b1.log, id, v);
        }
      }
    }
  }

  /**
   Stop entries appear exactly on the third evaluation below in a row, for the online chargers
   without override that are not stopped yet, all of which are told to stop.
   */
  lemma StopBurstOnTheThird(
    g: Gate, chargers: seq<Charger>, overrides: set<string>, e: Energy, v: View, h: seq<Verdict>)
    requires CountersMatch(g, h)
    ensures var o, h' := Evaluate(g, chargers, overrides, e, v), h + [Judge(g.threshold, e)];
            var third := Last(h') == Below && Streak(h', Below) == STOP_TICKS;
            && (forall x :: x in o.log && IsStopEntry(x) ==> third && x.id in Stoppable(chargers, overrides))
            && (third ==>
                  && Stoppable(chargers, overrides) <= o.gate.stopped
                  && forall id :: id in Stoppable(chargers, overrides) - g.stopped ==> ToldToStop(o.log, id, v))
  {
    var h' := h + [Judge(g.threshold, e)];
    assert Front(h') == h;
    var f := ForgetOffline(Burst(g.stopped, []), chargers);
    var b := Burst(f.stopped, []);
    ForgetOfflineEffect(Burst(g.stopped, []), chargers);
    ForgetOfflineOnlyForgets(Burst(g.stopped, []), chargers);
    StopBurstEffect(b, chargers, overrides, v);
    StopBurstTells(b, chargers, overrides, v);
    StartBurstTells(b, chargers, v);
    var b' := StopBurst(b, chargers, overrides, v);
    forall id | id in Stoppable(chargers, overrides) - g.stopped && ToldToStop(b'.log, id, v)
      ensures ToldToStop(f.log + b'.log, id, v)
    {
    }
  }

  /**
   Start entries appear exactly on the second evaluation at or above in a row, for the chargers the gate
   had stopped, and release all of them.
   */
  lemma StartBurstOnTheSecond(
    g: Gate, chargers: seq<Charger>, overrides: set<string>, e: Energy, v: View, h: seq<Verdict>)
    requires CountersMatch(g, h)
    ensures var o, h' := Evaluate(g, chargers, overrides, e, v), h + [Judge(g.threshold, e)];
            var second := Last(h') == Above && Streak(h', Above) == START_TICKS;
            && (forall x :: x in o.log && IsStartEntry(x) ==> second && x.id in g.stopped)
            && (second ==>
                  && o.gate.stopped == g.stopped - IDs(chargers)
                  && forall id :: id in g.stopped && id in IDs(chargers) - OfflineIDs(chargers) ==>
                     ToldToStart(o.log, id, v))
  {
    var h' := h + [Judge(g.threshold, e)];
    assert Front(h') == h;
    var f := ForgetOffline(Burst(g.stopped, []), chargers);
    var b := Burst(f.stopped, []);
    ForgetOfflineEffect(Burst(g.stopped, []), chargers);
    ForgetOfflineOnlyForgets(Burst(g.stopped, []), chargers);
    StartBurstEffect(b, chargers, v);
    StartBurstTells(b, chargers, v);
    StopBurstTells(b, chargers, overrides, v);
    var b' := StartBurst(b, chargers, v);
    forall id | id in g.stopped && id in IDs(chargers) - OfflineIDs(chargers) && ToldToStart(b'.log, id, v)
      ensures ToldToStart(f.log + b'.log, id, v)
    {
    }
  }

  // ---------------------------------------------------------------------------
  // Marks and releases alternate
  // ---------------------------------------------------------------------------

  /**
   Where the gate stands with one charger, read off the trace; `Stopping` and `Starting` last only while
   its commands follow.
   */
  datatype Phase = Clear | Stopping | Held | Starting | Broken

  function Advance(p: Phase, x: Entry, id: string): Phase {
    if x.id == id && x.GateMarked? then if p == Clear || p == Starting then Stopping else Broken
    else if x.id == id && x.RemoteStop? then if p == Stopping then Stopping else Broken
    else if x.id == id && x.GateResumed? then if p == Stopping || p == Held then Starting else Broken
    else if x.id == id && x.RemoteStart? then if p == Starting then Starting else Broken
    else if x.id == id && x.GateForgot? then if p == Stopping || p == Held then Clear else Broken
    else if p == Stopping then Held
    else if p == Starting then Clear
    else p
  }

  function PhaseAfter(p: Phase, t: seq<Entry>, id: string): Phase {
    if t == [] then p else Advance(PhaseAfter(p, Front(t), id), Last(t), id)
  }

  lemma {:induction false} PhaseSplit(p: Phase, t: seq<Entry>, u: seq<Entry>, id: string)
    ensures PhaseAfter(p, t + u, id) == PhaseAfter(PhaseAfter(p, t, id), u, id)
  {
    if u == [] {
      assert t + u == t;
    } else {
      PhaseSplit(p, t, Front(u), id);
      assert Front(t + u) == t + Front(u);
    }
  }

  lemma PhaseOne(p: Phase, x: Entry, id: string)
    ensures PhaseAfter(p, [x], id) == Advance(p, x, id)
  {
    assert Front([x]) == [];
  }

  /** The trace has been well formed so far, and holds the charger exactly when the gate's set does. */
  predicate Coupled(p: Phase, id: string, stopped: set<string>) {
    p != Broken && (p == Stopping || p == Held <==> id in stopped)
  }

  lemma {:induction false} StopCommandsCoupled(
    p: Phase, who: string, conns: seq<Connector>, active: map<Target, int>, id: string, stopped: set<string>)
    requires Coupled(p, id, stopped) && (who == id ==> p == Stopping)
    ensures var p' := PhaseAfter(p, StopCommands(who, conns, active), id);
            Coupled(p', id, stopped) && (who == id ==> p' == Stopping)
  {
    if conns != [] {
      StopCommandsCoupled(p, who, Front(conns), active, id, stopped);
      var cmds, n := StopCommands(who, Front(conns), active), Last(conns).connectorID;
      if n != 0 && (who, n) in active {
        PhaseSplit(p, cmds, [RemoteStop(who, active[(who, n)])], id);
        PhaseOne(PhaseAfter(p, cmds, id), RemoteStop(who, active[(who, n)]), id);
      } else {
        assert cmds + [] == cmds;
      }
    }
  }

  lemma {:induction false} StartCommandsCoupled(
    p: Phase, who: string, conns: seq<Connector>, id: string, stopped: set<string>)
    requires Coupled(p, id, stopped) && (who == id ==> p == Starting)
    ensures var p' := PhaseAfter(p, StartCommands(who, conns), id);
            Coupled(p', id, stopped) && (who == id ==> p' == Starting)
  {
    if conns != [] {
      StartCommandsCoupled(p, who, Front(conns), id, stopped);
      var cmds, n := StartCommands(who, Front(conns)), Last(conns).connectorID;
      if n != 0 {
        PhaseSplit(p, cmds, [RemoteStart(who, n)], id);
        PhaseOne(PhaseAfter(p, cmds, id), RemoteStart(who, n), id);
      } else {
        assert cmds + [] == cmds;
      }
    }
  }

  lemma ForgetCoupled(p: Phase, b: Burst, who: string, id: string)
    requires Coupled(PhaseAfter(p, b.log, id), id, b.stopped)
    ensures var b' := Forget(b, who); Coupled(PhaseAfter(p, b'.log, id), id, b'.stopped)
  {
    PhaseSplit(p, b.log, [GateForgot(who)], id);
    PhaseOne(PhaseAfter(p, b.log, id), GateForgot(who), id);
  }

  lemma StopOneCoupled(p: Phase, b: Burst, ch: Charger, overrides: set<string>, v: View, id: string)
    requires Coupled(PhaseAfter(p, b.log, id), id, b.stopped)
    ensures var b' := StopOne(b, ch, overrides, v); Coupled(PhaseAfter(p, b'.log, id), id, b'.stopped)
  {
    var b' := StopOne(b, ch, overrides, v);
    if b' != b {
      var q := PhaseAfter(p, b.log, id);
      PhaseOne(q, GateMarked(ch.id), id);
      var q1 := Advance(q, GateMarked(ch.id), id);
      var cmds := if ch.id in v.conns then StopCommands(ch.id, v.conns[ch.id], v.active) else [];
      PhaseSplit(p, b.log, [GateMarked(ch.id)], id);
      PhaseSplit(p, b.log + [GateMarked(ch.id)], cmds, id);
      if ch.id in v.conns {
        StopCommandsCoupled(q1, ch.id, v.conns[ch.id], v.active, id, b'.stopped);
      }
    }
  }

  lemma StartOneCoupled(p: Phase, b: Burst, ch: Charger, v: View, id: string)
    requires Coupled(PhaseAfter(p, b.log, id), id, b.stopped)
    ensures var b' := StartOne(b, ch, v); Coupled(PhaseAfter(p, b'.log, id), id, b'.stopped)
  {
    var b' := StartOne(b, ch, v);
    ForgetCoupled(p, b, ch.id, id);
    if ch.online && ch.id in b.stopped {
      var q := PhaseAfter(p, b.log, id);
      PhaseOne(q, GateResumed(ch.id), id);
      var q1 := Advance(q, GateResumed(ch.id), id);
      var cmds := if ch.id in v.conns then StartCommands(ch.id, v.conns[ch.id]) else [];
      PhaseSplit(p, b.log, [GateResumed(ch.id)], id);
      PhaseSplit(p, b.log + [GateResumed(ch.id)], cmds, id);
      if ch.id in v.conns {
        StartCommandsCoupled(q1, ch.id, v.conns[ch.id], id, b'.stopped);
      }
    }
  }

  lemma {:induction false} ForgetOfflineCoupled(p: Phase, b: Burst, chargers: seq<Charger>, id: string)
    requires Coupled(PhaseAfter(p, b.log, id), id, b.stopped)
    ensures var b' := ForgetOffline(b, chargers); Coupled(PhaseAfter(p, b'.log, id), id, b'.stopped)
  {
    if chargers != [] {
      ForgetOfflineCoupled(p, b, Front(chargers), id);
      ForgetCoupled(p, ForgetOffline(b, Front(chargers)), Last(chargers).id, id);
    }
  }

  lemma {:induction false} StopBurstCoupled(
    p: Phase, b: Burst, chargers: seq<Charger>, overrides: set<string>, v: View, id: string)
    requires Coupled(PhaseAfter(p, b.log, id), id, b.stopped)
    ensures var b' := StopBurst(b, chargers, overrides, v); Coupled(PhaseAfter(p, b'.log, id), id, b'.stopped)
  {
    if chargers != [] {
      StopBurstCoupled(p, b, Front(chargers), overrides, v, id);
      StopOneCoupled(p, StopBurst(b, Front(chargers), overrides, v), Last(chargers), overrides, v, id);
    }
  }

  lemma {:induction false} StartBurstCoupled(p: Phase, b: Burst, chargers: seq<Charger>, v: View, id: string)
    requires Coupled(PhaseAfter(p, b.log, id), id, b.stopped)
    ensures var b' := StartBurst(b, chargers, v); Coupled(PhaseAfter(p, b'.log, id), id, b'.stopped)
  {
    if chargers != [] {
      StartBurstCoupled(p, b, Front(chargers), v, id);
      StartOneCoupled(p, StartBurst(b, Front(chargers), v), Last(chargers), v, id);
    }
  }

  lemma EvaluateKeepsCoupled(
    p: Phase, g: Gate, chargers: seq<Charger>, overrides: set<string>, e: Energy, v: View, id: string)
    requires Coupled(p, id, g.stopped)
    ensures var o := Evaluate(g, chargers, overrides, e, v);
            Coupled(PhaseAfter(p, o.log, id), id, o.gate.stopped)
  {
    var f := ForgetOffline(Burst(g.stopped, []), chargers);
    ForgetOfflineCoupled(p, Burst(g.stopped, []), chargers, id);
    var q := PhaseAfter(p, f.log, id);
    var b := Burst(f.stopped, []);
    assert f.log + [] == f.log;
    if Judge(g.threshold, e) == Below {
      StopBurstCoupled(q, b, chargers, overrides, v, id);
      PhaseSplit(p, f.log, StopBurst(b, chargers, overrides, v).log, id);
    } else if Judge(g.threshold, e) == Above {
      StartBurstCoupled(q, b, chargers, v, id);
      PhaseSplit(p, f.log, StartBurst(b, chargers, v).log, id);
    }
  }

  /** The gate sends no profile and announces nothing. */
  lemma {:induction false} GateSendsNoProfile(
    g: Gate, chargers: seq<Charger>, overrides: set<string>, e: Energy, v: View)
    ensures forall x :: x in Evaluate(g, chargers, overrides, e, v).log ==>
              !x.Profile? && !x.ManualProfile? && !x.Notified?
  {
    var f := ForgetOffline(Burst(g.stopped, []), chargers);
    var b := Burst(f.stopped, []);
    ForgetOfflineEffect(Burst(g.stopped, []), chargers);
    ForgetOfflineOnlyForgets(Burst(g.stopped, []), chargers);
    StopBurstTells(b, chargers, overrides, v);
    StartBurstTells(b, chargers, v);
  }
}
