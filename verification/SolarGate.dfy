/**
 The solar gate: stops charging when solar production has been below a threshold for three
 evaluations in a row and restarts it after two in a row at or above, remembering which
 chargers it stopped.
 */
module SolarGate {
  import opened Sequences
  import opened Ports
  import opened Trace

  const STOP_TICKS := 3
  const START_TICKS := 2

  datatype Gate = Gate(threshold: int, below: nat, above: nat, stopped: set<string>)

  /** The set of gate-stopped chargers while a loop over the chargers changes it, with what the loop did. */
  datatype Burst = Burst(stopped: set<string>, log: seq<Entry>)

  function Forget(b: Burst, id: string): Burst {
    if id in b.stopped then Burst(b.stopped - {id}, b.log + [GateForgot(id)]) else b
  }

  function ForgetOffline(b: Burst, chargers: seq<Charger>): Burst {
    if chargers == [] then b
    else
      var rest := ForgetOffline(b, Front(chargers));
      if Last(chargers).online then rest else Forget(rest, Last(chargers).id)
  }

  lemma {:induction false} ForgetOfflineOnlyForgets(b: Burst, chargers: seq<Charger>)
    requires forall x :: x in b.log ==> x.GateForgot?
    ensures forall x :: x in ForgetOffline(b, chargers).log ==> x.GateForgot?
  {
    if chargers != [] {
      ForgetOfflineOnlyForgets(b, Front(chargers));
    }
  }

  /** A remote stop for every numbered connector with an active transaction. */
  function StopCommands(id: string, conns: seq<Connector>, active: map<Target, int>): seq<Entry> {
    if conns == [] then []
    else
      var n := Last(conns).connectorID;
      StopCommands(id, Front(conns), active) +
      if n != 0 && (id, n) in active then [RemoteStop(id, active[(id, n)])] else []
  }

  function StopOne(b: Burst, ch: Charger, overrides: set<string>, v: View): Burst {
    if !ch.online || ch.id in overrides || ch.id in b.stopped then b
    else Burst(b.stopped + {ch.id},
               b.log + [GateMarked(ch.id)] +
               if ch.id in v.conns then StopCommands(ch.id, v.conns[ch.id], v.active) else [])
  }

  function StopBurst(b: Burst, chargers: seq<Charger>, overrides: set<string>, v: View): Burst {
    if chargers == [] then b
    else StopOne(StopBurst(b, Front(chargers), overrides, v), Last(chargers), overrides, v)
  }

  /** What is done for one charger does not depend on what was logged before. */
  lemma StopOneApart(b: Burst, ch: Charger, overrides: set<string>, v: View)
    ensures var one := StopOne(Burst(b.stopped, []), ch, overrides, v);
            StopOne(b, ch, overrides, v) == Burst(one.stopped, b.log + one.log)
  {
  }

  /** A remote start for every numbered connector. */
  function StartCommands(id: string, conns: seq<Connector>): seq<Entry> {
    if conns == [] then []
    else
      var n := Last(conns).connectorID;
      StartCommands(id, Front(conns)) + if n != 0 then [RemoteStart(id, n)] else []
  }

  function StartOne(b: Burst, ch: Charger, v: View): Burst {
    if !ch.online then Forget(b, ch.id)
    else if ch.id !in b.stopped then b
    else Burst(b.stopped - {ch.id},
               b.log + [GateResumed(ch.id)] +
               if ch.id in v.conns then StartCommands(ch.id, v.conns[ch.id]) else [])
  }

  lemma StartOneApart(b: Burst, ch: Charger, v: View)
    ensures var one := StartOne(Burst(b.stopped, []), ch, v);
            StartOne(b, ch, v) == Burst(one.stopped, b.log + one.log)
  {
  }

  function StartBurst(b: Burst, chargers: seq<Charger>, v: View): Burst {
    if chargers == [] then b
    else StartOne(StartBurst(b, Front(chargers), v), Last(chargers), v)
  }

  lemma StopBurstOneMore(b: Burst, chargers: seq<Charger>, overrides: set<string>, v: View, i: nat)
    requires i < |chargers|
    ensures StopBurst(b, chargers[..i + 1], overrides, v)
         == StopOne(StopBurst(b, chargers[..i], overrides, v), chargers[i], overrides, v)
  {
    assert Front(chargers[..i + 1]) == chargers[..i];
  }

  lemma StartBurstOneMore(b: Burst, chargers: seq<Charger>, v: View, i: nat)
    requires i < |chargers|
    ensures StartBurst(b, chargers[..i + 1], v) == StartOne(StartBurst(b, chargers[..i], v), chargers[i], v)
  {
    assert Front(chargers[..i + 1]) == chargers[..i];
  }

  /** What the gate makes of one tick's energy reading. */
  datatype Verdict = Disabled | NoReading | Below | Above

  function Judge(threshold: int, e: Energy): Verdict {
    if threshold <= 0 then Disabled
    else if !e.solarFresh then NoReading
    else if e.solarW < threshold then Below
    else Above
  }

  /** The gate after a tick, what it did, and whether the rest of the tick is held back. */
  datatype Outcome = Outcome(gate: Gate, log: seq<Entry>, hold: bool)

  function Evaluate(g: Gate, chargers: seq<Charger>, overrides: set<string>, e: Energy, v: View): Outcome {
    match Judge(g.threshold, e)
    case Disabled => Outcome(g.(below := 0, above := 0), [], false)
    case NoReading => Outcome(g, [], false)
    case Below =>
      var f := ForgetOffline(Burst(g.stopped, []), chargers);
      var b := Burst(f.stopped, []);
      var b' := if g.below + 1 == STOP_TICKS then StopBurst(b, chargers, overrides, v) else b;
      Outcome(Gate(g.threshold, g.below + 1, 0, b'.stopped), f.log + b'.log, true)
    case Above =>
      var f := ForgetOffline(Burst(g.stopped, []), chargers);
      var b := Burst(f.stopped, []);
      var b' := if g.above + 1 == START_TICKS then StartBurst(b, chargers, v) else b;
      Outcome(Gate(g.threshold, 0, g.above + 1, b'.stopped), f.log + b'.log, g.above + 1 < START_TICKS)
  }
}
