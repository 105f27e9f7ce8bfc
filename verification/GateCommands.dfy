/**
 Exactly which remote stops and starts one tick issues to the commander: conditions on the readings,
 the gate's counter, its stopped set and the listing that a caller could check before the tick; and
 which of them get past the commander's cooldown.
 */
module GateCommands {
  import opened Sequences
  import opened Ports
  import opened Trace
  import opened ChargerRepositories
  import opened SolarGate
  import opened SolarGateRuns
  import opened Control
  import opened ControlSteps
  import opened SystemGate
  import Commanding
  import opened Handover

  /** A numbered connector of the charger has this active transaction. */
  ghost predicate Drives(conns: seq<Connector>, id: string, active: map<Target, int>, tx: int) {
    exists c :: c in conns && c.connectorID != 0 && (id, c.connectorID) in active && active[(id, c.connectorID)] == tx
  }

  lemma {:induction false} StopCommandsExactly(id: string, conns: seq<Connector>, active: map<Target, int>, tx: int)
    ensures RemoteStop(id, tx) in StopCommands(id, conns, active) <==> Drives(conns, id, active, tx)
  {
    if conns != [] {
      StopCommandsExactly(id, Front(conns), active, tx);
      assert conns == Front(conns) + [Last(conns)];
    }
  }

  lemma {:induction false} StartCommandsExactly(id: string, conns: seq<Connector>, n: int)
    ensures RemoteStart(id, n) in StartCommands(id, conns) <==> n != 0 && n in ConnectorNumbers(conns)
  {
    if conns != [] {
      StartCommandsExactly(id, Front(conns), n);
      assert conns == Front(conns) + [Last(conns)];
    }
  }

  lemma {:induction false} StopBurstExactly(
    b: Burst, chargers: seq<Charger>, overrides: set<string>, v: View, id: string, tx: int)
    requires b.log == []
    ensures RemoteStop(id, tx) in StopBurst(b, chargers, overrides, v).log
        <==> id in Stoppable(chargers, overrides) - b.stopped && id in v.conns && Drives(v.conns[id], id, v.active, tx)
  {
    if chargers != [] {
      var ch := Last(chargers);
      StopBurstExactly(b, Front(chargers), overrides, v, id, tx);
      StopBurstEffect(b, Front(chargers), overrides, v);
      assert chargers == Front(chargers) + [ch];
      if ch.id in v.conns {
        StopCommandsOnly(ch.id, v.conns[ch.id], v.active);
        StopCommandsExactly(ch.id, v.conns[ch.id], v.active, tx);
      }
    }
  }

  lemma {:induction false} StartBurstExactly(b: Burst, chargers: seq<Charger>, v: View, id: string, n: int)
    requires b.log == []
    requires forall c :: c in chargers && !c.online ==> c.id !in b.stopped
    ensures RemoteStart(id, n) in StartBurst(b, chargers, v).log
        <==> id in b.stopped * IDs(chargers) && id in v.conns && n != 0 && n in ConnectorNumbers(v.conns[id])
  {
    if chargers != [] {
      var ch := Last(chargers);
      assert chargers == Front(chargers) + [ch];
      StartBurstExactly(b, Front(chargers), v, id, n);
      StartBurstEffect(b, Front(chargers), v);
      if ch.id in v.conns {
        StartCommandsOnly(ch.id, v.conns[ch.id]);
        StartCommandsExactly(ch.id, v.conns[ch.id], n);
      }
    }
  }

  /** An evaluation's entries, without those for chargers that went offline. */
  lemma EvaluationLog(g: Gate, chargers: seq<Charger>, overrides: set<string>, e: Energy, v: View, x: Entry)
    requires IsStopEntry(x) || IsStartEntry(x)
    ensures var b := Burst(g.stopped - OfflineIDs(chargers), []);
            x in Evaluate(g, chargers, overrides, e, v).log <==>
              match Judge(g.threshold, e)
              case Below => g.below + 1 == STOP_TICKS && x in StopBurst(b, chargers, overrides, v).log
              case Above => g.above + 1 == START_TICKS && x in StartBurst(b, chargers, v).log
              case _ => false
  {
    ForgetOfflineEffect(Burst(g.stopped, []), chargers);
    ForgetOfflineOnlyForgets(Burst(g.stopped, []), chargers);
  }

  /** What a tick adds that is a remote stop or start was added by the gate. */
  lemma TickCommands(c: Control, e: Energy, v: View, replies: Replies, x: Entry)
    requires c.calculator.gridVolt > 0 && v.chargers.Some?
    requires IsStopEntry(x) || IsStartEntry(x)
    ensures var d := Tick(c, e, v, replies);
            && c.trace <= d.trace
            && (x in Since(c.trace, d.trace) <==>
                  c.enabled && !e.stale && x in Evaluate(c.gate, v.chargers.value, c.overrides, e, v).log)
  {
    TickGate(c, e, v, replies);
    var o := Evaluate(c.gate, v.chargers.value, c.overrides, e, v);
    if c.enabled && !e.stale {
      var added := Since(c.trace, Tick(c, e, v, replies).trace);
      assert added == o.log + added[|o.log|..];
    }
  }

  /**
   A tick issues to the commander a stop of a charger's transaction exactly when it is the third in a row to find solar
   below the threshold, the charger is online, not overridden and not stopped by the gate already,
   and the transaction is active on one of its numbered connectors.
   */
  lemma {:induction false} RemoteStopIff(c: Control, e: Energy, v: View, replies: Replies, id: string, tx: int)
    requires c.calculator.gridVolt > 0 && v.chargers.Some? && WellFormed(v)
    ensures c.trace <= Tick(c, e, v, replies).trace
    ensures RemoteStop(id, tx) in Since(c.trace, Tick(c, e, v, replies).trace) <==>
              && Dark(c, e) && c.gate.below + 1 == STOP_TICKS
              && id in Stoppable(v.chargers.value, c.overrides) && id !in c.gate.stopped
              && id in v.conns && Drives(v.conns[id], id, v.active, tx)
  {
    var chargers := v.chargers.value;
    TickCommands(c, e, v, replies, RemoteStop(id, tx));
    EvaluationLog(c.gate, chargers, c.overrides, e, v, RemoteStop(id, tx));
    var b := Burst(c.gate.stopped - OfflineIDs(chargers), []);
    StopBurstExactly(b, chargers, c.overrides, v, id, tx);
    StartBurstTells(b, chargers, v);
  }

  /**
   A tick issues to the commander a start of a connector exactly when it is the second in a row to find solar at or
   above the threshold, the charger is online and was stopped by the gate, and the connector is numbered.
   Overrides play no part: a charger overridden since the gate stopped it is started too.
   */
  lemma {:induction false} RemoteStartIff(c: Control, e: Energy, v: View, replies: Replies, id: string, n: int)
    requires c.calculator.gridVolt > 0 && v.chargers.Some? && WellFormed(v)
    ensures c.trace <= Tick(c, e, v, replies).trace
    ensures RemoteStart(id, n) in Since(c.trace, Tick(c, e, v, replies).trace) <==>
              && Bright(c, e) && c.gate.above + 1 == START_TICKS
              && id in c.gate.stopped && id in IDs(v.chargers.value) - OfflineIDs(v.chargers.value)
              && id in v.conns && n != 0 && n in ConnectorNumbers(v.conns[id])
  {
    var chargers := v.chargers.value;
    TickCommands(c, e, v, replies, RemoteStart(id, n));
    EvaluationLog(c.gate, chargers, c.overrides, e, v, RemoteStart(id, n));
    var b := Burst(c.gate.stopped - OfflineIDs(chargers), []);
    StartBurstExactly(b, chargers, v, id, n);
    StopBurstTells(b, chargers, c.overrides, v);
  }

  lemma {:induction false} MarksExactly(b: Burst, chargers: seq<Charger>, overrides: set<string>, v: View, id: string)
    requires b.log == []
    ensures GateMarked(id) in StopBurst(b, chargers, overrides, v).log
            <==> id in Stoppable(chargers, overrides) - b.stopped
  {
    if chargers != [] {
      var ch := Last(chargers);
      MarksExactly(b, Front(chargers), overrides, v, id);
      StopBurstEffect(b, Front(chargers), overrides, v);
      assert chargers == Front(chargers) + [ch];
      if ch.id in v.conns {
        StopCommandsOnly(ch.id, v.conns[ch.id], v.active);
      }
    }
  }

  /**
   A tick marks a charger as stopped exactly when it is the third in a row to find solar below the threshold and
   the charger is online, not overridden and not held already; whether it charges plays no part.
   */
  lemma {:induction false} MarkIff(c: Control, e: Energy, v: View, replies: Replies, id: string)
    requires c.calculator.gridVolt > 0 && v.chargers.Some? && WellFormed(v)
    ensures c.trace <= Tick(c, e, v, replies).trace
    ensures GateMarked(id) in Since(c.trace, Tick(c, e, v, replies).trace) <==>
              && Dark(c, e) && c.gate.below + 1 == STOP_TICKS
              && id in Stoppable(v.chargers.value, c.overrides) && id !in c.gate.stopped
  {
    var chargers := v.chargers.value;
    TickCommands(c, e, v, replies, GateMarked(id));
    EvaluationLog(c.gate, chargers, c.overrides, e, v, GateMarked(id));
    var b := Burst(c.gate.stopped - OfflineIDs(chargers), []);
    MarksExactly(b, chargers, c.overrides, v, id);
    StartBurstTells(b, chargers, v);
    if id in Stoppable(chargers, c.overrides) {
      OnlineOnce(chargers, c.overrides, id);
    }
  }

  /** So a mark comes with a stop exactly when one of the charger's numbered connectors has an active transaction. */
  lemma {:induction false} MarkWithStopIff(c: Control, e: Energy, v: View, replies: Replies, id: string)
    requires c.calculator.gridVolt > 0 && v.chargers.Some? && WellFormed(v)
    requires c.trace <= Tick(c, e, v, replies).trace
    requires GateMarked(id) in Since(c.trace, Tick(c, e, v, replies).trace)
    ensures (exists tx :: RemoteStop(id, tx) in Since(c.trace, Tick(c, e, v, replies).trace)) <==>
              id in v.conns && exists k :: k in v.conns[id] && k.connectorID != 0 && (id, k.connectorID) in v.active
  {
    var added := Since(c.trace, Tick(c, e, v, replies).trace);
    MarkIff(c, e, v, replies, id);
    if tx :| RemoteStop(id, tx) in added {
      RemoteStopIff(c, e, v, replies, id, tx);
    }
    if id in v.conns && exists k :: k in v.conns[id] && k.connectorID != 0 && (id, k.connectorID) in v.active {
      var k :| k in v.conns[id] && k.connectorID != 0 && (id, k.connectorID) in v.active;
      var tx := v.active[(id, k.connectorID)];
      RemoteStopIff(c, e, v, replies, id, tx);
      assert Drives(v.conns[id], id, v.active, tx);
      assert RemoteStop(id, tx) in added;
    }
  }

  // ---------------------------------------------------------------------------
  // Through the commander
  // ---------------------------------------------------------------------------

  /** The commands for one charger, in order. */
  function CommandsFor(log: seq<Entry>, id: string): seq<Entry> {
    if log == [] then []
    else
      var x := Last(log);
      CommandsFor(Front(log), id) + if IsCommand(x) && x.id == id then [x] else []
  }

  lemma {:induction false} CommandsSplit(a: seq<Entry>, b: seq<Entry>, id: string)
    ensures CommandsFor(a + b, id) == CommandsFor(a, id) + CommandsFor(b, id)
  {
    if b == [] {
      assert a + b == a;
    } else {
      CommandsSplit(a, Front(b), id);
      assert Front(a + b) == a + Front(b);
    }
  }

  lemma {:induction false} CommandsNone(log: seq<Entry>, id: string)
    requires forall x :: x in log ==> x.id != id || (!x.RemoteStop? && !x.RemoteStart?)
    ensures CommandsFor(log, id) == []
  {
    if log != [] {
      CommandsNone(Front(log), id);
      assert Last(log) in log;
    }
  }

  lemma {:induction false} CommandsAll(log: seq<Entry>, id: string)
    requires forall x :: x in log ==> x.id == id && (x.RemoteStop? || x.RemoteStart?)
    ensures CommandsFor(log, id) == log
  {
    if log != [] {
      var x := Last(log);
      assert log == Front(log) + [x];
      assert x in log;
      CommandsAll(Front(log), id);
    }
  }

  lemma NoteIsNoCommand(before: seq<Entry>, note: Entry, id: string)
    requires !IsCommand(note)
    ensures CommandsFor(before + [note], id) == CommandsFor(before, id)
  {
    assert Front(before + [note]) == before;
  }

  /** One charger's part of a burst: its mark or release, then its commands. */
  lemma CommandsOfTurn(before: seq<Entry>, note: Entry, cmds: seq<Entry>, who: string, id: string)
    requires !note.RemoteStop? && !note.RemoteStart?
    requires forall x :: x in cmds ==> x.id == who && (x.RemoteStop? || x.RemoteStart?)
    ensures CommandsFor(before + [note] + cmds, id) == CommandsFor(before, id) + if who == id then cmds else []
  {
    CommandsSplit(before + [note], cmds, id);
    NoteIsNoCommand(before, note, id);
    if who == id {
      CommandsAll(cmds, id);
    } else {
      CommandsNone(cmds, id);
    }
  }

  lemma StopOneCommands(b: Burst, ch: Charger, overrides: set<string>, v: View, id: string)
    ensures CommandsFor(StopOne(b, ch, overrides, v).log, id) == CommandsFor(b.log, id) +
            if ch.id == id && ch.online && id !in overrides && id !in b.stopped && id in v.conns
            then StopCommands(id, v.conns[id], v.active) else []
  {
    if ch.online && ch.id !in overrides && ch.id !in b.stopped {
      var cmds := if ch.id in v.conns then StopCommands(ch.id, v.conns[ch.id], v.active) else [];
      if ch.id in v.conns {
        StopCommandsOnly(ch.id, v.conns[ch.id], v.active);
      }
      CommandsOfTurn(b.log, GateMarked(ch.id), cmds, ch.id, id);
    }
  }

  lemma {:induction false} StopBurstCommands(
    b: Burst, chargers: seq<Charger>, overrides: set<string>, v: View, id: string)
    requires b.log == [] && DistinctIDs(chargers)
    ensures CommandsFor(StopBurst(b, chargers, overrides, v).log, id)
         == if id in Stoppable(chargers, overrides) - b.stopped && id in v.conns
           then StopCommands(id, v.conns[id], v.active)
            else []
  {
    if chargers != [] {
      var ch, b1 := Last(chargers), StopBurst(b, Front(chargers), overrides, v);
      StopBurstCommands(b, Front(chargers), overrides, v, id);
      StopBurstEffect(b, Front(chargers), overrides, v);
      StopOneCommands(b1, ch, overrides, v, id);
      assert chargers == Front(chargers) + [ch];
      assert id in Stoppable(chargers, overrides) <==>
             id in Stoppable(Front(chargers), overrides) || (ch.id == id && ch.online && id !in overrides);
      assert ch.id == id ==> id !in Stoppable(Front(chargers), overrides);
    }
  }

  lemma StartOneCommands(b: Burst, ch: Charger, v: View, id: string)
    requires !ch.online ==> ch.id !in b.stopped
    ensures CommandsFor(StartOne(b, ch, v).log, id) == CommandsFor(b.log, id) +
            if ch.id == id && id in b.stopped && id in v.conns then StartCommands(id, v.conns[id]) else []
  {
    if ch.online && ch.id in b.stopped {
      var cmds := if ch.id in v.conns then StartCommands(ch.id, v.conns[ch.id]) else [];
      if ch.id in v.conns {
        StartCommandsOnly(ch.id, v.conns[ch.id]);
      }
      CommandsOfTurn(b.log, GateResumed(ch.id), cmds, ch.id, id);
    }
  }

  lemma {:induction false} StartBurstCommands(b: Burst, chargers: seq<Charger>, v: View, id: string)
    requires b.log == [] && DistinctIDs(chargers)
    requires forall c :: c in chargers && !c.online ==> c.id !in b.stopped
    ensures CommandsFor(StartBurst(b, chargers, v).log, id)
         == if id in b.stopped * IDs(chargers) && id in v.conns then StartCommands(id, v.conns[id]) else []
  {
    if chargers != [] {
      var ch, b1 := Last(chargers), StartBurst(b, Front(chargers), v);
      assert chargers == Front(chargers) + [ch];
      StartBurstCommands(b, Front(chargers), v, id);
      StartBurstEffect(b, Front(chargers), v);
      StartOneCommands(b1, ch, v, id);
      assert id in IDs(chargers) <==> id in IDs(Front(chargers)) || ch.id == id;
      assert ch.id == id ==> id !in IDs(Front(chargers));
    }
  }

  /**
   The commands a tick issues for one charger, in order: a stop for each of its transactions, a start
   for each of its connectors, or none.
   */
  function Issued(c: Control, e: Energy, v: View, id: string): seq<Entry>
    requires v.chargers.Some?
  {
    var chargers := v.chargers.value;
    if id !in v.conns then []
    else if Dark(c, e) && c.gate.below + 1 == STOP_TICKS &&
            id in Stoppable(chargers, c.overrides) && id !in c.gate.stopped then StopCommands(id, v.conns[id], v.active)
    else if Bright(c, e) && c.gate.above + 1 == START_TICKS &&
            id in c.gate.stopped && id in IDs(chargers) - OfflineIDs(chargers) then StartCommands(id, v.conns[id])
    else []
  }

  lemma {:induction false} EvaluationCommands(
    g: Gate, chargers: seq<Charger>, overrides: set<string>, e: Energy, v: View, id: string)
    requires DistinctIDs(chargers)
    ensures var b := Burst(g.stopped - OfflineIDs(chargers), []);
            CommandsFor(Evaluate(g, chargers, overrides, e, v).log, id) ==
              match Judge(g.threshold, e)
              case Below => if g.below + 1 == STOP_TICKS
                then CommandsFor(StopBurst(b, chargers, overrides, v).log, id) else []
              case Above => if g.above + 1 == START_TICKS then CommandsFor(StartBurst(b, chargers, v).log, id) else []
              case _ => []
  {
    var f := ForgetOffline(Burst(g.stopped, []), chargers);
    ForgetOfflineEffect(Burst(g.stopped, []), chargers);
    ForgetOfflineOnlyForgets(Burst(g.stopped, []), chargers);
    var b := Burst(f.stopped, []);
    CommandsNone(f.log, id);
    CommandsSplit(f.log, [], id);
    CommandsSplit(f.log, StopBurst(b, chargers, overrides, v).log, id);
    CommandsSplit(f.log, StartBurst(b, chargers, v).log, id);
  }

  lemma TickCommandsFor(c: Control, e: Energy, v: View, replies: Replies, id: string)
    requires c.calculator.gridVolt > 0 && v.chargers.Some?
    ensures c.trace <= Tick(c, e, v, replies).trace
    ensures CommandsFor(Since(c.trace, Tick(c, e, v, replies).trace), id) ==
            if c.enabled && !e.stale then CommandsFor(Evaluate(c.gate, v.chargers.value, c.overrides, e, v).log, id)
              else []
  {
    TickGate(c, e, v, replies);
    var added, o := Since(c.trace, Tick(c, e, v, replies).trace), Evaluate(c.gate, v.chargers.value, c.overrides, e, v);
    if c.enabled && !e.stale {
      assert added == o.log + added[|o.log|..];
      CommandsSplit(o.log, added[|o.log|..], id);
      CommandsNone(added[|o.log|..], id);
    } else {
      CommandsNone(added, id);
    }
  }

  /** Each charger's commands in the trace of a tick are exactly those, each once. */
  lemma {:induction false} TickIssues(c: Control, e: Energy, v: View, replies: Replies, id: string)
    requires c.calculator.gridVolt > 0 && v.chargers.Some? && WellFormed(v)
    ensures c.trace <= Tick(c, e, v, replies).trace
    ensures CommandsFor(Since(c.trace, Tick(c, e, v, replies).trace), id) == Issued(c, e, v, id)
  {
    var chargers := v.chargers.value;
    var b := Burst(c.gate.stopped - OfflineIDs(chargers), []);
    TickCommandsFor(c, e, v, replies, id);
    EvaluationCommands(c.gate, chargers, c.overrides, e, v, id);
    StopBurstCommands(b, chargers, c.overrides, v, id);
    StartBurstCommands(b, chargers, v, id);
    if id in Stoppable(chargers, c.overrides) {
      OnlineOnce(chargers, c.overrides, id);
    }
  }

  lemma OnlineOnce(chargers: seq<Charger>, overrides: set<string>, id: string)
    requires DistinctIDs(chargers) && id in Stoppable(chargers, overrides)
    ensures id !in OfflineIDs(chargers)
  {
  }

  lemma {:induction false} RequestsOfCommands(log: seq<Entry>, id: string)
    ensures RequestsFor(CommandsFor(log, id), id) == RequestsFor(log, id)
  {
    if log != [] {
      RequestsOfCommands(Front(log), id);
      var cmds := CommandsFor(Front(log), id);
      assert Front(cmds + [Last(log)]) == cmds && cmds + [] == cmds;
    }
  }

  /** What a tick asks of one charger. */
  function Asked(c: Control, e: Energy, v: View, id: string): seq<Commanding.StartStop>
    requires v.chargers.Some?
  {
    RequestsFor(Issued(c, e, v, id), id)
  }

  lemma {:induction false} RequestsExactly(log: seq<Entry>, id: string, r: Commanding.StartStop)
    ensures r in RequestsFor(log, id) <==>
              || (r.StopRequest? && RemoteStop(id, r.transactionId) in log)
              || (r.StartRequest? && r.idTag == "solar" && RemoteStart(id, r.connector) in log)
  {
    if log != [] {
      RequestsExactly(Front(log), id, r);
      assert log == Front(log) + [Last(log)];
    }
  }

  /**
   What a tick asks of a charger: to stop a transaction active on one of its numbered connectors, exactly when
   its stops are due, and to start one of its numbered connectors for "solar", exactly when its starts are.
   */
  lemma {:induction false} AskedIff(c: Control, e: Energy, v: View, id: string, r: Commanding.StartStop)
    requires v.chargers.Some?
    ensures var chargers := v.chargers.value;
            r in Asked(c, e, v, id) <==>
              id in v.conns &&
              match r
              case StopRequest(tx) =>
                && Dark(c, e) && c.gate.below + 1 == STOP_TICKS
                && id in Stoppable(chargers, c.overrides) && id !in c.gate.stopped
                && Drives(v.conns[id], id, v.active, tx)
              case StartRequest(n, tag) =>
                && Bright(c, e) && c.gate.above + 1 == START_TICKS
                && id in c.gate.stopped && id in IDs(chargers) - OfflineIDs(chargers)
                && n != 0 && n in ConnectorNumbers(v.conns[id]) && tag == "solar"
  {
    RequestsExactly(Issued(c, e, v, id), id, r);
    if id in v.conns {
      match r {
        case StopRequest(tx) =>
          StopCommandsExactly(id, v.conns[id], v.active, tx);
          StartCommandsOnly(id, v.conns[id]);
        case StartRequest(n, tag) =>
          StartCommandsExactly(id, v.conns[id], n);
          StopCommandsOnly(id, v.conns[id], v.active);
      }
    }
  }

  lemma GateLogCommands(c: Control, e: Energy, v: View, id: string)
    requires c.calculator.gridVolt > 0 && v.chargers.Some? && WellFormed(v)
    ensures RequestsFor(GateLog(c, e, v), id) == Asked(c, e, v, id)
  {
    var replies := Replies({}, map[], {});
    TickIssues(c, e, v, replies, id);
    TickCommandsFor(c, e, v, replies, id);
    RequestsOfCommands(GateLog(c, e, v), id);
  }

  /** All can be sent, to a charger off cooldown. */
  ghost predicate Reachable(last: map<string, int>, cooldown: int, id: string, burst: seq<Commanding.Attempt>) {
    forall k :: 0 <= k < |burst| ==> burst[k].sent && Commanding.OffCooldown(last, cooldown, id, burst[k].at)
  }

  /** The m-th command is the first one accepted, or the last if none is before it. */
  ghost predicate FirstTaken(last: map<string, int>, cooldown: int, id: string, burst: seq<Commanding.Attempt>, m: nat)
  {
    && m <= |burst|
    && (forall j :: 0 <= j < m - 1 ==> !Commanding.Taken(last, cooldown, id, burst, j))
    && (m < |burst| ==> m > 0 && Commanding.Taken(last, cooldown, id, burst, m - 1))
  }

  /**
   What becomes of them at the commander, whose books before and after the tick are `b` and `b'`: the charger is sent
   those that go out of its burst. If the burst is shorter than the cooldown, the k-th goes out exactly when it can be
   sent, the charger was off cooldown before, and it has accepted none of the commands before it; so it accepts at
   most one.
   If all can be sent to a charger off cooldown, it is sent those up to and with the m-th, the first it accepts or else
   the last.
   */
  lemma {:induction false} BurstThroughCommander(
    c: Control, e: Energy, v: View, id: string, b: Books, cooldown: int, world: World, m: nat)
    requires c.calculator.gridVolt > 0 && v.chargers.Some? && WellFormed(v)
    requires var burst := AttemptsFor(world, |c.trace|, GateLog(c, e, v), id);
             Commanding.OneByOne(burst) && (burst != [] ==> Last(burst).at - burst[0].at < cooldown)
    ensures var b' := Handed(b, cooldown, world, |c.trace|, GateLog(c, e, v));
            var burst, requests := AttemptsFor(world, |c.trace|, GateLog(c, e, v), id), Asked(c, e, v, id);
            && |burst| == |requests|
            && RequestsTo(b'.requested, id) ==
                 RequestsTo(b.requested, id) + Commanding.Going(b.last, cooldown, id, burst, requests)
            && (forall k :: 0 <= k < |burst| ==>
                  (Commanding.Leaves(b.last, cooldown, id, burst, k)
                   <==> burst[k].sent && Commanding.OffCooldown(b.last, cooldown, id, burst[k].at) &&
                        forall j :: 0 <= j < k ==> !Commanding.Taken(b.last, cooldown, id, burst, j)))
            && (forall j, k :: 0 <= j < k < |burst| ==>
                  !(Commanding.Taken(b.last, cooldown, id, burst, j) &&
                    Commanding.Taken(b.last, cooldown, id, burst, k)))
            && (Reachable(b.last, cooldown, id, burst) && FirstTaken(b.last, cooldown, id, burst, m) ==>
                  RequestsTo(b'.requested, id) == RequestsTo(b.requested, id) + requests[..m])
  {
    var burst, requests := AttemptsFor(world, |c.trace|, GateLog(c, e, v), id), Asked(c, e, v, id);
    GateLogCommands(c, e, v, id);
    HandedFor(b, cooldown, world, |c.trace|, GateLog(c, e, v), id);
    QuickBurst(b.last, cooldown, id, burst, requests, m);
  }

  lemma QuickBurst<T>(
    last: map<string, int>, cooldown: int, id: string, burst: seq<Commanding.Attempt>, requests: seq<T>, m: nat)
    requires |requests| == |burst| && Commanding.OneByOne(burst)
    requires burst != [] ==> Last(burst).at - burst[0].at < cooldown
    ensures forall k :: 0 <= k < |burst| ==>
              (Commanding.Leaves(last, cooldown, id, burst, k)
               <==> burst[k].sent && Commanding.OffCooldown(last, cooldown, id, burst[k].at) &&
                    forall j :: 0 <= j < k ==> !Commanding.Taken(last, cooldown, id, burst, j))
    ensures forall j, k :: 0 <= j < k < |burst| ==>
              !(Commanding.Taken(last, cooldown, id, burst, j) && Commanding.Taken(last, cooldown, id, burst, k))
    ensures Reachable(last, cooldown, id, burst) && FirstTaken(last, cooldown, id, burst, m) ==>
              Commanding.Going(last, cooldown, id, burst, requests) == requests[..m]
  {
    forall k | 0 <= k < |burst| ensures burst[k].at - burst[0].at < cooldown {
      assert k < |burst| - 1 ==> burst[k].at <= burst[k].answeredAt <= Last(burst).at;
    }
    forall j, k | 0 <= j < k < |burst| && Commanding.Taken(last, cooldown, id, burst, j)
      ensures !Commanding.Leaves(last, cooldown, id, burst, k) {
      Commanding.AtMostOneTaken(last, cooldown, id, burst, j, k);
    }
    forall k | 0 <= k < |burst|
      ensures Commanding.Leaves(last, cooldown, id, burst, k)
          <==> burst[k].sent && Commanding.OffCooldown(last, cooldown, id, burst[k].at) &&
               forall j :: 0 <= j < k ==> !Commanding.Taken(last, cooldown, id, burst, j) {
      Commanding.LeavesIff(last, cooldown, id, burst, k);
    }
    if Reachable(last, cooldown, id, burst) && FirstTaken(last, cooldown, id, burst, m) {
      Commanding.GoingUpToTaken(last, cooldown, id, burst, requests, m);
    }
  }

  /** A charger it issues a stop for is held from then on, whatever became of the stop. */
  lemma StoppedIsHeld(c: Control, e: Energy, v: View, replies: Replies, id: string, tx: int)
    requires c.calculator.gridVolt > 0 && v.chargers.Some?
    requires RemoteStop(id, tx) in Issued(c, e, v, id)
    ensures id in Tick(c, e, v, replies).gate.stopped
  {
    TickGate(c, e, v, replies);
    if Dark(c, e) {
      var f := ForgetOffline(Burst(c.gate.stopped, []), v.chargers.value);
      StopBurstEffect(Burst(f.stopped, []), v.chargers.value, c.overrides, v);
    } else {
      StartCommandsOnly(id, v.conns[id]);
    }
  }

  /** What the gate did not stop it does not try again: while it holds a charger it issues no stop for it. */
  lemma HeldIsNotRetried(c: Control, e: Energy, v: View, replies: Replies, id: string)
    requires c.calculator.gridVolt > 0 && v.chargers.Some? && WellFormed(v)
    requires id in c.gate.stopped
    ensures c.trace <= Tick(c, e, v, replies).trace
    ensures forall tx :: RemoteStop(id, tx) !in Since(c.trace, Tick(c, e, v, replies).trace)
  {
    RemoteStopIff(c, e, v, replies, id, 0);
    forall tx ensures RemoteStop(id, tx) !in Since(c.trace, Tick(c, e, v, replies).trace) {
      RemoteStopIff(c, e, v, replies, id, tx);
    }
  }
}
