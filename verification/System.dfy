/**
 The control loop among everything else that moves: chargers connecting and reporting, the user
 and Home Assistant changing settings. A run is any sequence of such operations.
 */
module System {
  import opened Options
  import opened Sequences
  import opened Ports
  import opened Trace
  import opened SmartCharging
  import opened ChargerRepositories
  import SolarGate
  import SolarGateRuns
  import opened Control

  /** The charger repository as a value. */
  datatype Repo = Repo(chargers: map<string, Charger>, connectors: map<string, seq<Connector>>)
  {
    function Of(id: string): seq<Connector> {
      if id in connectors then connectors[id] else []
    }
  }

  datatype Params = Params(minAmps: int, maxAmps: int, defaultAmps: int, contactorCooldownSec: int)

  datatype State = State(repo: Repo, control: Control)

  datatype Op =
    | TickOp(order: seq<Charger>, energy: Energy, replies: Replies)
    | Connect(id: string)
    | Disconnect(id: string)
    | Boot(charger: Charger)
    | ReportStatus(connector: Connector)
    | StopTransaction(id: string)
    | UpdateCharging(params: Params)
    | SetAmps(id: string, amps: int, replies: Replies)
    | SetMode(id: string, manual: bool)
    | SetSmartCharging(enabled: bool)
    | SetSolarThreshold(watts: int)

  predicate Acceptable(p: Params) {
    p.minAmps >= 6 && p.maxAmps <= 32 && p.minAmps <= p.maxAmps
  }

  function ViewOf(repo: Repo, order: seq<Charger>, active: map<Target, int>): View {
    View(Some(order), map id | id in repo.chargers :: repo.Of(id), active)
  }

  /** The profiles a manual limit sends: one to every numbered connector. */
  function ManualLog(id: string, conns: seq<Connector>, amps: int, replies: Replies): seq<Entry> {
    if conns == [] then []
    else
      var n := Last(conns).connectorID;
      ManualLog(id, Front(conns), amps, replies) +
      if n != 0 then [ManualProfileTo((id, n), amps, replies)] else []
  }

  predicate AnyAccepted(log: seq<Entry>) {
    exists x :: x in log && x.ManualProfile? && x.accepted
  }

  lemma AnyAcceptedAppend(log: seq<Entry>, x: Entry)
    ensures AnyAccepted(log + [x]) <==> AnyAccepted(log) || (x.ManualProfile? && x.accepted)
  {
    assert x in log + [x];
    assert forall y :: y in log ==> y in log + [x];
  }

  function SetByHand(c: Control, id: string, conns: seq<Connector>, amps: int, replies: Replies): Control {
    var log := ManualLog(id, conns, amps, replies);
    c.(trace := c.trace + log, overrides := if AnyAccepted(log) then c.overrides + {id} else c.overrides)
  }

  function Updated(c: Control, p: Params): Control {
    if Acceptable(p) then
      c.(calculator := c.calculator.(limits := Limits(p.minAmps, p.maxAmps)), safeAmps := Int32(p.defaultAmps))
    else c
  }

  function ApplyToRepo(r: Repo, op: Op): Repo {
    match op
    case Connect(id) =>
      r.(chargers := r.chargers[id := if id in r.chargers then r.chargers[id].(online := true)
                                      else Charger(id, "", "", "", "", true)])
    case Disconnect(id) =>
      if id in r.chargers then r.(chargers := r.chargers[id := r.chargers[id].(online := false)]) else r
    case Boot(ch) => r.(chargers := r.chargers[ch.id := ch.(online := true)])
    case ReportStatus(conn) =>
      r.(connectors := r.connectors[conn.chargerID := Upserted(r.Of(conn.chargerID), conn)])
    case _ => r
  }

  function ApplyToControl(c: Control, r: Repo, op: Op): (c': Control)
    requires c.calculator.gridVolt > 0
    ensures c'.calculator.gridVolt == c.calculator.gridVolt
  {
    match op
    case TickOp(order, e, replies) => Tick(c, e, ViewOf(r, order, replies.live), replies)
    case Disconnect(id) => c.(overrides := c.overrides - {id})
    case StopTransaction(id) => c.(overrides := c.overrides - {id})
    case UpdateCharging(p) => Updated(c, p)
    case SetAmps(id, amps, replies) => SetByHand(c, id, r.Of(id), amps, replies)
    case SetMode(id, manual) => c.(overrides := if manual then c.overrides + {id} else c.overrides - {id})
    case SetSmartCharging(on) => c.(enabled := on, overrides := if on then {} else c.overrides)
    case SetSolarThreshold(w) => c.(gate := c.gate.(threshold := Int32(w)))
    case _ => c
  }

  function Apply(s: State, op: Op): (s': State)
    requires s.control.calculator.gridVolt > 0
    ensures s'.control.calculator.gridVolt == s.control.calculator.gridVolt
  {
    State(ApplyToRepo(s.repo, op), ApplyToControl(s.control, s.repo, op))
  }

  /** A tick sees the repository's chargers, in any order. */
  ghost predicate Enabled(s: State, op: Op) {
    op.TickOp? ==> Lists(op.order, s.repo.chargers)
  }

  function Run(s: State, ops: seq<Op>): (s': State)
    requires s.control.calculator.gridVolt > 0
    ensures s'.control.calculator.gridVolt == s.control.calculator.gridVolt
  {
    if ops == [] then s else Apply(Run(s, Front(ops)), Last(ops))
  }

  ghost predicate ValidRun(s: State, ops: seq<Op>)
    requires s.control.calculator.gridVolt > 0
  {
    ops != [] ==> ValidRun(s, Front(ops)) && Enabled(Run(s, Front(ops)), Last(ops))
  }

  lemma RunOneMore(s: State, ops: seq<Op>, op: Op)
    requires s.control.calculator.gridVolt > 0 && ValidRun(s, ops) && Enabled(Run(s, ops), op)
    ensures ValidRun(s, ops + [op]) && Run(s, ops + [op]) == Apply(Run(s, ops), op)
  {
    assert Front(ops + [op]) == ops;
  }

  lemma RunThree(s: State, a: Op, b: Op, d: Op)
    requires s.control.calculator.gridVolt > 0 && !a.TickOp? && !b.TickOp? && !d.TickOp?
    ensures ValidRun(s, [a, b, d]) && Run(s, [a, b, d]) == Apply(Apply(Apply(s, a), b), d)
  {
    RunOneMore(s, [], a);
    assert [] + [a] == [a];
    RunOneMore(s, [a], b);
    assert [a] + [b] == [a, b];
    RunOneMore(s, [a, b], d);
    assert [a, b] + [d] == [a, b, d];
  }

  ghost predicate RepoValid(r: Repo) {
    && (forall id :: id in r.chargers ==> r.chargers[id].id == id)
    && (forall id :: id in r.connectors ==> DistinctConnectors(r.connectors[id]))
  }

  /** The state the program starts in: nothing known, nothing sent. */
  ghost predicate Initial(s: State) {
    && s.control.calculator.gridVolt > 0
    && s.control.calculator.mem == map[]
    && s.repo == Repo(map[], map[])
    && s.control.gate == SolarGate.Gate(s.control.gate.threshold, 0, 0, {})
    && s.control.overrides == {} && s.control.lastSet == map[] && s.control.lastStop == map[]
    && s.control.trace == []
  }

  // ---------------------------------------------------------------------------
  // The repository
  // ---------------------------------------------------------------------------

  lemma ApplyKeepsRepo(r: Repo, op: Op)
    requires RepoValid(r)
    ensures RepoValid(ApplyToRepo(r, op)) && r.chargers.Keys <= ApplyToRepo(r, op).chargers.Keys
  {
    if op.ReportStatus? {
      UpsertedKeepsDistinct(r.Of(op.connector.chargerID), op.connector);
    }
  }

  lemma {:induction false} RunKeepsRepo(s: State, ops: seq<Op>)
    requires s.control.calculator.gridVolt > 0 && RepoValid(s.repo)
    ensures RepoValid(Run(s, ops).repo)
  {
    if ops != [] {
      RunKeepsRepo(s, Front(ops));
      ApplyKeepsRepo(Run(s, Front(ops)).repo, Last(ops));
    }
  }

  lemma ListingIsWellFormed(r: Repo, order: seq<Charger>, active: map<Target, int>)
    requires RepoValid(r) && Lists(order, r.chargers)
    ensures WellFormed(ViewOf(r, order, active)) && SolarGateRuns.IDs(order) == r.chargers.Keys
  {
    forall id | id in r.chargers ensures id in SolarGateRuns.IDs(order) {
      assert r.chargers[id] in order && r.chargers[id].id == id;
    }
  }

  lemma {:induction false} ManualLogOnly(id: string, conns: seq<Connector>, amps: int, replies: Replies)
    ensures forall x :: x in ManualLog(id, conns, amps, replies) ==> x.ManualProfile? && x.id == id && x.amps == amps
  {
    if conns != [] {
      ManualLogOnly(id, Front(conns), amps, replies);
    }
  }
}
