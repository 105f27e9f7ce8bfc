/**
 The smart-charging control loop. `Control` is the controller as a value and `Tick` one
 step of it; class `Controller` is the program's controller, with its nested loops and its
 maps keyed by "charger:connector", proved to follow `Tick`.
 */
module Control {
  import opened Options
  import opened Sequences
  import opened Ports
  import opened Trace
  import opened SmartCharging
  import SolarGate
  import SolarGateRuns
  import opened Keys
  import Commanding
  import opened Handover
  import opened Devices

  datatype Control = Control(
    enabled: bool,
    safeAmps: int,
    gate: SolarGate.Gate,
    overrides: set<string>,
    lastSet: map<Target, int>,
    lastStop: map<Target, bool>,
    calculator: Calc,
    trace: seq<Entry>)

  /**
   A profile is sent unless the last accepted one for that connector had the same limit.
   Accepted means that the default profile was; what became of a live transaction's is not remembered.
   */
  function SendIfChanged(c: Control, t: Target, amps: int, replies: Replies): Control {
    if Lookup(c.lastSet, t) == Some(amps) then c
    else
      var ok := t in replies.accepts;
      c.(lastSet := if ok then c.lastSet[t := amps] else c.lastSet,
         trace := c.trace + [ProfileTo(t, amps, replies)])
  }

  /** The limit sent for an answer of the calculator. */
  function Wanted(c: Control, r: Request): int {
    if r.shouldStop then c.safeAmps else r.limitAmps
  }

  function NotifyIfFlipped(c: Control, t: Target, r: Request): Control {
    if Lookup(c.lastStop, t) == Some(r.shouldStop) then c
    else c.(lastStop := c.lastStop[t := r.shouldStop],
            trace := c.trace + [Notified(t.0, Wanted(c, r), r.shouldStop, r.reason)])
  }

  function ProcessTarget(c: Control, t: Target, s: Sample, replies: Replies): Control
    requires c.calculator.gridVolt > 0
  {
    var r := c.calculator.Asked(t.0, s);
    var c1 := NotifyIfFlipped(c.(calculator := c.calculator.Computed(t.0, s)), t, r);
    SendIfChanged(c1, t, Wanted(c, r), replies)
  }

  function ProcessTargets(c: Control, ts: seq<Target>, s: Sample, replies: Replies): (c': Control)
    requires c.calculator.gridVolt > 0
    ensures c'.calculator.gridVolt == c.calculator.gridVolt
  {
    if ts == [] then c else ProcessTarget(ProcessTargets(c, Front(ts), s, replies), Last(ts), s, replies)
  }

  function RevertTargets(c: Control, ts: seq<Target>, replies: Replies): (c': Control)
    ensures c'.calculator == c.calculator
  {
    if ts == [] then c
    else
      var c1 := RevertTargets(c, Front(ts), replies);
      SendIfChanged(c1, Last(ts), c1.safeAmps, replies)
  }

  predicate IsDrawing(st: Status) {
    st == Charging || st == SuspendedEVSE
  }

  /** The drawing connectors of one charger, in the order they are listed. */
  function DrawingConnectors(id: string, conns: seq<Connector>): seq<Target> {
    if conns == [] then []
    else
      var conn := Last(conns);
      DrawingConnectors(id, Front(conns)) + if IsDrawing(conn.status) then [(id, conn.connectorID)] else []
  }

  function TargetsOf(ch: Charger, conns: map<string, seq<Connector>>, skip: set<string>): seq<Target> {
    if !ch.online || ch.id in skip || ch.id !in conns then [] else DrawingConnectors(ch.id, conns[ch.id])
  }

  /** The connectors a pass over `chargers` visits, chargers in `skip` left out. */
  function Targets(chargers: seq<Charger>, conns: map<string, seq<Connector>>, skip: set<string>): seq<Target> {
    if chargers == [] then []
    else Targets(Front(chargers), conns, skip) + TargetsOf(Last(chargers), conns, skip)
  }

  function SampleOf(e: Energy): Sample {
    Sample(e.gridW, if e.solarFresh then e.solarW else 0, if e.consumptionFresh then e.consumptionW else 0)
  }

  function RevertAll(c: Control, v: View, replies: Replies): Control {
    if v.chargers.None? then c
    else RevertTargets(c, Targets(v.chargers.value, v.conns, {}), replies)
  }

  function PassGate(c: Control, e: Energy, v: View): Control
    requires v.chargers.Some?
  {
    var o := SolarGate.Evaluate(c.gate, v.chargers.value, c.overrides, e, v);
    c.(gate := o.gate, trace := c.trace + o.log)
  }

  function Tick(c: Control, e: Energy, v: View, replies: Replies): (c': Control)
    requires c.calculator.gridVolt > 0
    ensures c'.calculator.gridVolt == c.calculator.gridVolt
  {
    if !c.enabled then c
    else if e.stale then RevertAll(c, v, replies)
    else if v.chargers.None? then c
    else
      var c1 := PassGate(c, e, v);
      if SolarGate.Evaluate(c.gate, v.chargers.value, c.overrides, e, v).hold then c1
      else ProcessTargets(c1, Targets(v.chargers.value, v.conns, c1.overrides), SampleOf(e), replies)
  }

  lemma ProcessLast(c: Control, ts: seq<Target>, s: Sample, replies: Replies)
    requires c.calculator.gridVolt > 0 && ts != []
    ensures ProcessTargets(c, ts, s, replies)
            == ProcessTarget(ProcessTargets(c, Front(ts), s, replies), Last(ts), s, replies)
  {
  }

  lemma ProcessOneMore(c: Control, ts: seq<Target>, t: Target, s: Sample, replies: Replies)
    requires c.calculator.gridVolt > 0
    ensures ProcessTargets(c, ts + [t], s, replies) == ProcessTarget(ProcessTargets(c, ts, s, replies), t, s, replies)
  {
    assert Front(ts + [t]) == ts;
    ProcessLast(c, ts + [t], s, replies);
  }

  lemma {:induction false} ProcessSplit(c: Control, a: seq<Target>, b: seq<Target>, s: Sample, replies: Replies)
    requires c.calculator.gridVolt > 0
    ensures ProcessTargets(c, a + b, s, replies) == ProcessTargets(ProcessTargets(c, a, s, replies), b, s, replies)
  {
    if b == [] {
      assert a + b == a;
    } else {
      var mid := ProcessTargets(c, a, s, replies);
      ProcessSplit(c, a, Front(b), s, replies);
      assert Front(a + b) == a + Front(b) && Last(a + b) == Last(b);
      ProcessLast(c, a + b, s, replies);
      ProcessLast(mid, b, s, replies);
    }
  }

  lemma {:induction false} RevertSplit(c: Control, a: seq<Target>, b: seq<Target>, replies: Replies)
    ensures RevertTargets(c, a + b, replies) == RevertTargets(RevertTargets(c, a, replies), b, replies)
  {
    if b == [] {
      assert a + b == a;
    } else {
      RevertSplit(c, a, Front(b), replies);
      assert Front(a + b) == a + Front(b);
    }
  }

  /** What the gate does in a tick. */
  function GateLog(c: Control, e: Energy, v: View): seq<Entry> {
    if !c.enabled || e.stale || v.chargers.None? then []
    else SolarGate.Evaluate(c.gate, v.chargers.value, c.overrides, e, v).log
  }

  lemma QuietFirst(b: Books, cooldown: int, world: World, before: seq<Entry>, notes: seq<Entry>, cmds: seq<Entry>)
    requires forall x :: x in notes ==> !IsCommand(x)
    ensures before + notes + cmds == before + (notes + cmds)
    ensures Handed(b, cooldown, world, |before|, notes + cmds) == Handed(b, cooldown, world, |before + notes|, cmds)
  {
    HandedQuiet(b, cooldown, world, |before|, notes);
    HandedSplit(b, cooldown, world, |before|, notes, cmds);
  }

  /** A log after another makes one log. */
  lemma LogAfterLog(b: Books, b1: Books, cooldown: int, world: World, before: seq<Entry>, xs: seq<Entry>,
          ys: seq<Entry>)
    requires b1 == Handed(b, cooldown, world, |before|, xs)
    ensures before + xs + ys == before + (xs + ys)
    ensures Handed(b1, cooldown, world, |before + xs|, ys) == Handed(b, cooldown, world, |before|, xs + ys)
  {
    HandedSplit(b, cooldown, world, |before|, xs, ys);
  }

  class Controller {
    const calculator: Calculator
    const commander: Commanding.Commander
    var enabled: bool
    var safeAmps: int
    var solarThreshold: int
    var solarBelowTicks: nat
    var solarAboveTicks: nat
    var solarGateStopped: set<string>
    var manualOverride: set<string>
    var lastSetAmps: map<string, int>
    var lastShouldStop: map<string, bool>
    var trace: seq<Entry>

    ghost var setView: map<Target, int>
    ghost var stopView: map<Target, bool>

    ghost predicate Valid()
      reads this, calculator
    {
      && calculator.Valid()
      && Mirrors(lastSetAmps, setView)
      && Mirrors(lastShouldStop, stopView)
    }

    ghost function Value(): Control
      reads this, calculator
    {
      Control(enabled, safeAmps, GateNow(), manualOverride, setView, stopView, calculator.Value(), trace)
    }

    constructor (calculator: Calculator, commander: Commanding.Commander, safeAmps: int)
      requires calculator.Valid()
      ensures Valid() && this.calculator == calculator && this.commander == commander
      ensures commander.sent == [] ==> InStep()
      ensures Value()
              == Control(true, Int32(safeAmps), SolarGate.Gate(0, 0, 0, {}), {}, map[], map[], calculator.Value(), [])
    {
      this.calculator, this.commander := calculator, commander;
      this.safeAmps := Int32(safeAmps);
      enabled := true;
      solarThreshold, solarBelowTicks, solarAboveTicks, solarGateStopped := 0, 0, 0, {};
      manualOverride := {};
      lastSetAmps, lastShouldStop := map[], map[];
      setView, stopView, trace := map[], map[], [];
    }

    method SetEnabled(enabled: bool)
      requires Valid()
      modifies this`enabled
      ensures Valid() && Value() == old(Value()).(enabled := enabled)
    {
      this.enabled := enabled;
    }

    method SetSafeAmps(amps: int)
      requires Valid()
      modifies this`safeAmps
      ensures Valid() && Value() == old(Value()).(safeAmps := Int32(amps))
    {
      safeAmps := Int32(amps);
    }

    method SetManualOverride(chargerID: string)
      requires Valid()
      modifies this`manualOverride
      ensures Valid() && Value() == old(Value()).(overrides := old(manualOverride) + {chargerID})
    {
      manualOverride := manualOverride + {chargerID};
    }

    method ClearManualOverride(chargerID: string)
      requires Valid()
      modifies this`manualOverride
      ensures Valid() && Value() == old(Value()).(overrides := old(manualOverride) - {chargerID})
    {
      manualOverride := manualOverride - {chargerID};
    }

    method ClearAllManualOverrides()
      requires Valid()
      modifies this`manualOverride
      ensures Valid() && Value() == old(Value()).(overrides := {})
    {
      manualOverride := {};
    }

    method SetSolarThreshold(watts: int)
      requires Valid()
      modifies this`solarThreshold
      ensures Valid()
      ensures Value() == old(Value()).(gate := old(Value()).gate.(threshold := Int32(watts)))
    {
      solarThreshold := Int32(watts);
    }

    /** The last limit accepted by a connector, or 0. */
    method LastSetAmps(chargerID: string, connectorID: int) returns (amps: int)
      requires Valid()
      ensures amps == if (chargerID, connectorID) in setView then setView[(chargerID, connectorID)] else 0
    {
      var key := Key(chargerID, connectorID);
      amps := if key in lastSetAmps then lastSetAmps[key] else 0;
    }

    // -------------------------------------------------------------------------
    // The solar gate
    // -------------------------------------------------------------------------

    ghost function GateNow(): SolarGate.Gate
      reads this
    {
      SolarGate.Gate(solarThreshold, solarBelowTicks, solarAboveTicks, solarGateStopped)
    }

    ghost function BooksNow(): Books
      reads commander
    {
      Books(commander.lastStartStop, commander.requested)
    }

    /** The gate's log and what became of its commands at the commander. */
    twostate predicate Did(log: seq<Entry>, world: World)
      reads this, commander
    {
      && trace == old(trace) + log
      && BooksNow() == Handed(old(BooksNow()), commander.contactorCooldown, world, |old(trace)|, log)
    }

    method ForgetGateStop(id: string)
      modifies this`solarGateStopped, this`trace
      ensures var b := SolarGate.Forget(SolarGate.Burst(old(solarGateStopped), []), id);
              solarGateStopped == b.stopped && trace == old(trace) + b.log
    {
      if id in solarGateStopped {
        trace := trace + [GateForgot(id)];
      }
      solarGateStopped := solarGateStopped - {id};
    }

    method ForgetOfflineChargers(chargers: seq<Charger>)
      modifies this`solarGateStopped, this`trace
      ensures var b := SolarGate.ForgetOffline(SolarGate.Burst(old(solarGateStopped), []), chargers);
              solarGateStopped == b.stopped && trace == old(trace) + b.log
    {
      ghost var b := SolarGate.Burst(solarGateStopped, []);
      for i := 0 to |chargers|
        invariant b == SolarGate.ForgetOffline(SolarGate.Burst(old(solarGateStopped), []), chargers[..i])
        invariant solarGateStopped == b.stopped && trace == old(trace) + b.log
      {
        assert Front(chargers[..i + 1]) == chargers[..i];
        if !chargers[i].online {
          ForgetGateStop(chargers[i].id);
          b := SolarGate.Forget(b, chargers[i].id);
        }
      }
      assert chargers[..|chargers|] == chargers;
    }

    method IssueStop(id: string, tx: int, world: World)
      modifies this`trace, commander`requested, commander`lastStartStop
      ensures Did([RemoteStop(id, tx)], world)
    {
      var ok := commander.RemoteCommand(id, Commanding.StopRequest(tx), world(|trace|));
      trace := trace + [RemoteStop(id, tx)];
    }

    method IssueStart(id: string, n: int, world: World)
      modifies this`trace, commander`requested, commander`lastStartStop
      ensures Did([RemoteStart(id, n)], world)
    {
      var ok := commander.RemoteCommand(id, Commanding.StartRequest(n, "solar"), world(|trace|));
      trace := trace + [RemoteStart(id, n)];
    }

    method StopTransactions(id: string, conns: seq<Connector>, active: map<Target, int>, world: World)
      modifies this`trace, commander`requested, commander`lastStartStop
      ensures Did(SolarGate.StopCommands(id, conns, active), world)
    {
      assert trace + [] == trace;
      for j := 0 to |conns|
        invariant Did(SolarGate.StopCommands(id, conns[..j], active), world)
      {
        ghost var cmds := SolarGate.StopCommands(id, conns[..j], active);
        assert Front(conns[..j + 1]) == conns[..j];
        var n := conns[j].connectorID;
        if n == 0 || (id, n) !in active {
          assert cmds + [] == cmds;
          continue;
        }
        ghost var x := RemoteStop(id, active[(id, n)]);
        LogAfterLog(old(BooksNow()), BooksNow(), commander.contactorCooldown, world, old(trace), cmds, [x]);
        IssueStop(id, active[(id, n)], world);
      }
      assert conns[..|conns|] == conns;
    }

    method StopAtGate(ch: Charger, v: View, world: World)
      modifies this`solarGateStopped, this`trace, commander`requested, commander`lastStartStop
      ensures var b := SolarGate.StopOne(SolarGate.Burst(old(solarGateStopped), []), ch, manualOverride, v);
              solarGateStopped == b.stopped && Did(b.log, world)
    {
      assert trace + [] == trace;
      if !ch.online || ch.id in manualOverride {
        return;
      }
      if ch.id in solarGateStopped {
        return;
      }
      solarGateStopped := solarGateStopped + {ch.id};
      trace := trace + [GateMarked(ch.id)];
      ghost var cmds := [];
      if ch.id in v.conns {
        StopTransactions(ch.id, v.conns[ch.id], v.active, world);
        cmds := SolarGate.StopCommands(ch.id, v.conns[ch.id], v.active);
      }
      QuietFirst(old(BooksNow()), commander.contactorCooldown, world, old(trace), [GateMarked(ch.id)], cmds);
      assert [] + [GateMarked(ch.id)] == [GateMarked(ch.id)];
    }

    method StopAllAtGate(chargers: seq<Charger>, v: View, world: World)
      modifies this`solarGateStopped, this`trace, commander`requested, commander`lastStartStop
      ensures var b := SolarGate.StopBurst(SolarGate.Burst(old(solarGateStopped), []), chargers, manualOverride, v);
              solarGateStopped == b.stopped && Did(b.log, world)
    {
      ghost var b := SolarGate.Burst(solarGateStopped, []);
      assert trace + [] == trace;
      for i := 0 to |chargers|
        invariant b == SolarGate.StopBurst(SolarGate.Burst(old(solarGateStopped), []), chargers[..i], manualOverride, v)
        invariant solarGateStopped == b.stopped && Did(b.log, world)
      {
        SolarGate.StopBurstOneMore(SolarGate.Burst(old(solarGateStopped), []), chargers, manualOverride, v, i);
        ghost var one := SolarGate.StopOne(SolarGate.Burst(solarGateStopped, []), chargers[i], manualOverride, v);
        SolarGate.StopOneApart(b, chargers[i], manualOverride, v);
        LogAfterLog(old(BooksNow()), BooksNow(), commander.contactorCooldown, world, old(trace), b.log, one.log);
        StopAtGate(chargers[i], v, world);
        b := SolarGate.Burst(one.stopped, b.log + one.log);
      }
      assert chargers[..|chargers|] == chargers;
    }

    method StartConnectors(id: string, conns: seq<Connector>, world: World)
      modifies this`trace, commander`requested, commander`lastStartStop
      ensures Did(SolarGate.StartCommands(id, conns), world)
    {
      assert trace + [] == trace;
      for j := 0 to |conns|
        invariant Did(SolarGate.StartCommands(id, conns[..j]), world)
      {
        ghost var cmds := SolarGate.StartCommands(id, conns[..j]);
        assert Front(conns[..j + 1]) == conns[..j];
        var n := conns[j].connectorID;
        if n == 0 {
          assert cmds + [] == cmds;
          continue;
        }
        LogAfterLog(old(BooksNow()), BooksNow(), commander.contactorCooldown, world, old(trace), cmds,
          [RemoteStart(id, n)]);
        IssueStart(id, n, world);
      }
      assert conns[..|conns|] == conns;
    }

    method StartAtGate(ch: Charger, v: View, world: World)
      modifies this`solarGateStopped, this`trace, commander`requested, commander`lastStartStop
      ensures var b := SolarGate.StartOne(SolarGate.Burst(old(solarGateStopped), []), ch, v);
              solarGateStopped == b.stopped && Did(b.log, world)
    {
      assert trace + [] == trace;
      if !ch.online {
        ForgetGateStop(ch.id);
        return;
      }
      if ch.id !in solarGateStopped {
        return;
      }
      solarGateStopped := solarGateStopped - {ch.id};
      trace := trace + [GateResumed(ch.id)];
      ghost var cmds := [];
      if ch.id in v.conns {
        StartConnectors(ch.id, v.conns[ch.id], world);
        cmds := SolarGate.StartCommands(ch.id, v.conns[ch.id]);
      }
      QuietFirst(old(BooksNow()), commander.contactorCooldown, world, old(trace), [GateResumed(ch.id)], cmds);
      assert [] + [GateResumed(ch.id)] == [GateResumed(ch.id)];
    }

    method StartAllAtGate(chargers: seq<Charger>, v: View, world: World)
      modifies this`solarGateStopped, this`trace, commander`requested, commander`lastStartStop
      ensures var b := SolarGate.StartBurst(SolarGate.Burst(old(solarGateStopped), []), chargers, v);
              solarGateStopped == b.stopped && Did(b.log, world)
    {
      ghost var b := SolarGate.Burst(solarGateStopped, []);
      assert trace + [] == trace;
      for i := 0 to |chargers|
        invariant b == SolarGate.StartBurst(SolarGate.Burst(old(solarGateStopped), []), chargers[..i], v)
        invariant solarGateStopped == b.stopped && Did(b.log, world)
      {
        SolarGate.StartBurstOneMore(SolarGate.Burst(old(solarGateStopped), []), chargers, v, i);
        ghost var one := SolarGate.StartOne(SolarGate.Burst(solarGateStopped, []), chargers[i], v);
        SolarGate.StartOneApart(b, chargers[i], v);
        LogAfterLog(old(BooksNow()), BooksNow(), commander.contactorCooldown, world, old(trace), b.log, one.log);
        StartAtGate(chargers[i], v, world);
        b := SolarGate.Burst(one.stopped, b.log + one.log);
      }
      assert chargers[..|chargers|] == chargers;
    }

    method CountBelow(chargers: seq<Charger>, v: View, world: World)
      modifies this`solarBelowTicks, this`solarAboveTicks, this`solarGateStopped, this`trace,
               commander`requested, commander`lastStartStop
      ensures solarAboveTicks == 0 && solarBelowTicks == old(solarBelowTicks) + 1
      ensures var b := SolarGate.Burst(old(solarGateStopped), []);
              var b' := if solarBelowTicks == SolarGate.STOP_TICKS
                        then SolarGate.StopBurst(b, chargers, manualOverride, v) else b;
              solarGateStopped == b'.stopped && Did(b'.log, world)
    {
      solarAboveTicks := 0;
      solarBelowTicks := solarBelowTicks + 1;
      assert trace + [] == trace;
      if solarBelowTicks < SolarGate.STOP_TICKS {
        return;
      }
      if solarBelowTicks > SolarGate.STOP_TICKS {
        return;
      }
      StopAllAtGate(chargers, v, world);
    }

    method CountAbove(chargers: seq<Charger>, v: View, world: World) returns (hold: bool)
      modifies this`solarBelowTicks, this`solarAboveTicks, this`solarGateStopped, this`trace,
               commander`requested, commander`lastStartStop
      ensures solarBelowTicks == 0 && solarAboveTicks == old(solarAboveTicks) + 1
      ensures hold == (solarAboveTicks < SolarGate.START_TICKS)
      ensures var b := SolarGate.Burst(old(solarGateStopped), []);
              var b' := if solarAboveTicks == SolarGate.START_TICKS
                        then SolarGate.StartBurst(b, chargers, v) else b;
              solarGateStopped == b'.stopped && Did(b'.log, world)
    {
      solarBelowTicks := 0;
      solarAboveTicks := solarAboveTicks + 1;
      assert trace + [] == trace;
      if solarAboveTicks < SolarGate.START_TICKS {
        return true;
      }
      if solarAboveTicks > SolarGate.START_TICKS {
        return false;
      }
      StartAllAtGate(chargers, v, world);
      return false;
    }

    /** An evaluation with a threshold and a reading. */
    method EvaluateReading(chargers: seq<Charger>, e: Energy, v: View, world: World) returns (hold: bool)
      requires solarThreshold > 0 && e.solarFresh
      modifies this`solarBelowTicks, this`solarAboveTicks, this`solarGateStopped, this`trace,
               commander`requested, commander`lastStartStop
      ensures var o := SolarGate.Evaluate(old(GateNow()), chargers, manualOverride, e, v);
              GateNow() == o.gate && hold == o.hold && Did(o.log, world)
    {
      ForgetOfflineChargers(chargers);
      ghost var f := SolarGate.ForgetOffline(SolarGate.Burst(old(solarGateStopped), []), chargers);
      ghost var between := trace;
      if e.solarW < solarThreshold {
        CountBelow(chargers, v, world);
        hold := true;
      } else {
        hold := CountAbove(chargers, v, world);
      }
      SolarGate.ForgetOfflineOnlyForgets(SolarGate.Burst(old(solarGateStopped), []), chargers);
      QuietFirst(old(BooksNow()), commander.contactorCooldown, world, old(trace), f.log, Since(between, trace));
    }

    method RunSolarGate(chargers: seq<Charger>, e: Energy, v: View, world: World) returns (hold: bool)
      requires Valid() && InStep() && v.chargers == Some(chargers)
      modifies this`solarBelowTicks, this`solarAboveTicks, this`solarGateStopped, this`trace,
               commander`requested, commander`lastStartStop
      ensures Valid() && InStep()
      ensures Value() == PassGate(old(Value()), e, v)
      ensures var o := SolarGate.Evaluate(old(Value()).gate, chargers, manualOverride, e, v);
              hold == o.hold && Did(o.log, world)
    {
      assert trace + [] == trace;
      if solarThreshold <= 0 {
        solarBelowTicks, solarAboveTicks := 0, 0;
        return false;
      }
      if !e.solarFresh {
        return false;
      }
      hold := EvaluateReading(chargers, e, v, world);
      SolarGateRuns.GateSendsNoProfile(old(GateNow()), chargers, manualOverride, e, v);
      ghost var log := SolarGate.Evaluate(old(GateNow()), chargers, manualOverride, e, v).log;
      SentOfQuiet(old(trace), log);
    }

    // -------------------------------------------------------------------------
    // Charging profiles
    // -------------------------------------------------------------------------

    /** The commander has sent exactly the profiles of the entries in the trace, in order. */
    ghost predicate InStep()
      reads this, commander
    {
      commander.sent == SentOf(trace)
    }

    /** The commander sends the profiles; `replies` holds the outside world's part in that. */
    method SetChargingProfile(chargerID: string, connectorID: int, amps: int, replies: Replies) returns (ok: bool)
      requires Valid() && InStep()
      modifies this`trace, commander`sent
      ensures Valid()
      ensures ok == ((chargerID, connectorID) in replies.accepts)
      ensures trace == old(trace) + [ProfileTo((chargerID, connectorID), amps, replies)]
      ensures InStep()
    {
      var t := (chargerID, connectorID);
      ok := commander.SetChargingProfile(chargerID, connectorID, amps, Lookup(replies.live, t),
                                         t in replies.accepts, t in replies.acceptsTx);
      trace := trace + [ProfileTo(t, amps, replies)];
      SentOfOneMore(old(trace), Last(trace));
    }

    /** Remembers the limit a connector accepted. */
    method StoreLastSet(chargerID: string, connectorID: int, amps: int)
      requires Valid()
      modifies this`lastSetAmps, this`setView
      ensures Valid() && setView == old(setView)[(chargerID, connectorID) := amps]
    {
      MirrorsUpdate(lastSetAmps, setView, chargerID, connectorID, amps);
      lastSetAmps := lastSetAmps[Key(chargerID, connectorID) := amps];
      setView := setView[(chargerID, connectorID) := amps];
    }

    method SetUnlessUnchanged(chargerID: string, connectorID: int, amps: int, replies: Replies)
      requires Valid() && InStep()
      modifies this`trace, this`lastSetAmps, this`setView, commander`sent
      ensures Valid()
      ensures Value() == SendIfChanged(old(Value()), (chargerID, connectorID), amps, replies)
      ensures InStep()
    {
      var key := Key(chargerID, connectorID);
      if key in lastSetAmps && SmartCharging.Abs(amps - lastSetAmps[key]) < 1 {
        return;
      }
      var ok := SetChargingProfile(chargerID, connectorID, amps, replies);
      if ok {
        StoreLastSet(chargerID, connectorID, amps);
      }
    }

    /** Publishes a change of the stop flag. */
    method Announce(chargerID: string, limitAmps: int, r: Request)
      requires InStep()
      modifies this`trace
      ensures InStep()
      ensures trace == old(trace) + [Notified(chargerID, limitAmps, r.shouldStop, r.reason)]
    {
      trace := trace + [Notified(chargerID, limitAmps, r.shouldStop, r.reason)];
      SentOfOneMore(old(trace), Last(trace));
    }

    method NotifyStopFlip(chargerID: string, connectorID: int, r: Request)
      requires Valid() && InStep()
      modifies this`trace, this`lastShouldStop, this`stopView
      ensures Valid()
      ensures Value() == NotifyIfFlipped(old(Value()), (chargerID, connectorID), r)
      ensures InStep()
    {
      var key := Key(chargerID, connectorID);
      if key !in lastShouldStop || lastShouldStop[key] != r.shouldStop {
        MirrorsUpdate(lastShouldStop, stopView, chargerID, connectorID, r.shouldStop);
        lastShouldStop := lastShouldStop[key := r.shouldStop];
        stopView := stopView[(chargerID, connectorID) := r.shouldStop];
        var limitAmps := r.limitAmps;
        if r.shouldStop {
          limitAmps := safeAmps;
        }
        Announce(chargerID, limitAmps, r);
      }
    }

    method ProcessConnector(chargerID: string, connectorID: int, s: Sample, replies: Replies)
      requires Valid() && InStep()
      modifies this`trace, this`lastSetAmps, this`setView, this`lastShouldStop, this`stopView, calculator,
               commander`sent
      ensures Valid()
      ensures Value() == ProcessTarget(old(Value()), (chargerID, connectorID), s, replies)
      ensures InStep()
    {
      var result := calculator.Compute(chargerID, s);
      NotifyStopFlip(chargerID, connectorID, result);
      if result.shouldStop {
        SetUnlessUnchanged(chargerID, connectorID, safeAmps, replies);
        return;
      }
      SetUnlessUnchanged(chargerID, connectorID, result.limitAmps, replies);
    }

    method ProcessCharger(ch: Charger, v: View, s: Sample, replies: Replies)
      requires Valid() && InStep()
      modifies this`trace, this`lastSetAmps, this`setView, this`lastShouldStop, this`stopView, calculator,
               commander`sent
      ensures Valid()
      ensures ch.online ==>
                Value() == ProcessTargets(old(Value()), TargetsOf(ch, v.conns, manualOverride), s, replies)
      ensures InStep()
    {
      if ch.id in manualOverride || ch.id !in v.conns {
        return;
      }
      var conns := v.conns[ch.id];
      for j := 0 to |conns|
        invariant Valid()
        invariant Value() == ProcessTargets(old(Value()), DrawingConnectors(ch.id, conns[..j]), s, replies)
        invariant InStep()
      {
        ghost var done := DrawingConnectors(ch.id, conns[..j]);
        assert Front(conns[..j + 1]) == conns[..j];
        if !IsDrawing(conns[j].status) {
          assert done + [] == done;
          continue;
        }
        ProcessConnector(ch.id, conns[j].connectorID, s, replies);
        ProcessOneMore(old(Value()), done, (ch.id, conns[j].connectorID), s, replies);
      }
      assert conns[..|conns|] == conns;
    }

    method RevertCharger(ch: Charger, v: View, replies: Replies)
      requires Valid() && InStep()
      modifies this`trace, this`lastSetAmps, this`setView, commander`sent
      ensures Valid()
      ensures Value() == RevertTargets(old(Value()), TargetsOf(ch, v.conns, {}), replies)
      ensures InStep()
    {
      if !ch.online || ch.id !in v.conns {
        return;
      }
      var conns := v.conns[ch.id];
      for j := 0 to |conns|
        invariant Valid()
        invariant Value() == RevertTargets(old(Value()), DrawingConnectors(ch.id, conns[..j]), replies)
        invariant InStep()
      {
        ghost var done := DrawingConnectors(ch.id, conns[..j]);
        assert Front(conns[..j + 1]) == conns[..j];
        if !IsDrawing(conns[j].status) {
          assert done + [] == done;
          continue;
        }
        SetUnlessUnchanged(ch.id, conns[j].connectorID, safeAmps, replies);
        assert Front(done + [(ch.id, conns[j].connectorID)]) == done;
      }
      assert conns[..|conns|] == conns;
    }

    method RevertAllToSafe(v: View, replies: Replies)
      requires Valid() && InStep()
      modifies this`trace, this`lastSetAmps, this`setView, commander`sent
      ensures Valid()
      ensures Value() == RevertAll(old(Value()), v, replies)
      ensures InStep()
    {
      if v.chargers.None? {
        return;
      }
      var chargers := v.chargers.value;
      for i := 0 to |chargers|
        invariant Valid()
        invariant Value() == RevertTargets(old(Value()), Targets(chargers[..i], v.conns, {}), replies)
        invariant InStep()
      {
        assert Front(chargers[..i + 1]) == chargers[..i];
        RevertCharger(chargers[i], v, replies);
        RevertSplit(old(Value()), Targets(chargers[..i], v.conns, {}), TargetsOf(chargers[i], v.conns, {}), replies);
      }
      assert chargers[..|chargers|] == chargers;
    }

    /** One pass of the control loop, the energy source and the repositories answering `e` and `v`. */
    method RunTick(e: Energy, v: View, replies: Replies, world: World)
      requires Valid() && InStep()
      modifies this, calculator, commander`sent, commander`requested, commander`lastStartStop
      ensures Valid()
      ensures Value() == Tick(old(Value()), e, v, replies)
      ensures InStep()
      ensures BooksNow()
              == Handed(old(BooksNow()), commander.contactorCooldown, world, |old(trace)|, GateLog(old(Value()), e, v))
    {
      if !enabled {
        return;
      }
      if e.stale {
        RevertAllToSafe(v, replies);
        return;
      }
      if v.chargers.None? {
        return;
      }
      var chargers := v.chargers.value;
      var hold := RunSolarGate(chargers, e, v, world);
      if hold {
        return;
      }
      ProcessChargers(chargers, v, SampleOf(e), replies);
    }

    method ProcessChargers(chargers: seq<Charger>, v: View, s: Sample, replies: Replies)
      requires Valid() && InStep()
      modifies this`trace, this`lastSetAmps, this`setView, this`lastShouldStop, this`stopView, calculator,
               commander`sent
      ensures Valid()
      ensures Value() == ProcessTargets(old(Value()), Targets(chargers, v.conns, manualOverride), s, replies)
      ensures InStep()
    {
      for i := 0 to |chargers|
        invariant Valid()
        invariant Value() == ProcessTargets(old(Value()), Targets(chargers[..i], v.conns, manualOverride), s, replies)
        invariant InStep()
      {
        ghost var done := Targets(chargers[..i], v.conns, manualOverride);
        assert Front(chargers[..i + 1]) == chargers[..i];
        if !chargers[i].online {
          assert done + [] == done;
          continue;
        }
        ProcessCharger(chargers[i], v, s, replies);
        ProcessSplit(old(Value()), done, TargetsOf(chargers[i], v.conns, manualOverride), s, replies);
      }
      assert chargers[..|chargers|] == chargers;
    }
  }
}
