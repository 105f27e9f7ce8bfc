/**
 The other sources of steps: runtime changes of the charging parameters, and the bridge that
 turns Home Assistant's commands into profiles, remote starts and remote stops.
 */
module Csms {
  import opened Options
  import opened Sequences
  import opened Ports
  import opened Trace
  import opened Devices
  import SmartCharging
  import opened ChargerRepositories
  import opened Sessions
  import opened Control
  import opened System
  import Commanding
  import opened Handover
  import Handling
  import Transactions

  datatype UpdateError = MinTooLow | MaxTooHigh | MinAboveMax

  class CSMS {
    const calculator: SmartCharging.Calculator
    const controller: Controller
    const commander: Commanding.Commander
    const handler: Handling.Handler

    ghost predicate Valid()
      reads this, calculator, controller, handler, handler.chargers, handler.sessions, handler.meters
    {
      && controller.calculator == calculator && handler.controller == controller
      && controller.Valid() && handler.Valid()
    }

    constructor (controller: Controller, commander: Commanding.Commander, handler: Handling.Handler)
      requires handler.controller == controller && controller.Valid() && handler.Valid()
      ensures Valid()
      ensures this.controller == controller && this.commander == commander && this.handler == handler
    {
      this.calculator, this.controller, this.commander, this.handler :=
        controller.calculator, controller, commander, handler;
    }

    /** Either all four components take the new parameters, or none changes. */
    method UpdateCharging(params: Params) returns (error: Option<UpdateError>)
      requires Valid()
      modifies calculator, controller, commander, handler
      ensures Valid()
      ensures error.None? <==> Acceptable(params)
      ensures handler.Whole() == Apply(old(handler.Whole()), Op.UpdateCharging(params))
      ensures commander.contactorCooldown == if error.None? then params.contactorCooldownSec * Commanding.SECOND
                                             else old(commander.contactorCooldown)
      ensures (handler.minAmps, handler.maxAmps) == if error.None? then (params.minAmps, params.maxAmps)
                                                    else (old(handler.minAmps), old(handler.maxAmps))
      ensures commander.lastStartStop == old(commander.lastStartStop)
      ensures error == Some(MinTooLow) ==> params.minAmps < 6
      ensures error == Some(MaxTooHigh) ==> params.minAmps >= 6 && params.maxAmps > 32
      ensures error == Some(MinAboveMax) ==>
              6 <= params.minAmps && params.maxAmps <= 32 && params.maxAmps < params.minAmps
    {
      if params.minAmps >= 6 && params.maxAmps <= 32 && params.minAmps <= params.maxAmps {
        calculator.SetLimits(params.minAmps, params.maxAmps);
        controller.SetSafeAmps(params.defaultAmps);
        commander.SetCooldown(params.contactorCooldownSec * Commanding.SECOND);
        handler.SetMinMax(params.minAmps, params.maxAmps);
        return None;
      }
      if params.minAmps < 6 {
        return Some(MinTooLow);
      }
      if params.maxAmps > 32 {
        return Some(MaxTooHigh);
      }
      return Some(MinAboveMax);
    }
  }

  // ---------------------------------------------------------------------------
  // Commands from Home Assistant
  // ---------------------------------------------------------------------------

  /** The connector's active session, as the repository may answer, has this transaction. */
  ghost predicate ActiveWith(b: Book, p: Target, tx: int) {
    exists id :: id in b && IsActiveAt(b[id], p) && b[id].transactionID == tx
  }

  /** The repository's answers about the active session of each connector. */
  ghost predicate Answered(b: Book, id: string, conns: seq<Connector>, answers: seq<Option<Session>>) {
    && |answers| == |conns|
    && forall j :: 0 <= j < |conns| ==> AnswersActive(b, (id, conns[j].connectorID), answers[j])
  }

  predicate Charges(answer: Option<Session>) {
    answer.Some? && answer.value.transactionID != 0
  }

  /** The numbered connectors without a usable active transaction, in order. */
  function StartsFor(conns: seq<Connector>, answers: seq<Option<Session>>): seq<int>
    requires |answers| == |conns|
  {
    if conns == [] then []
    else
      var n := Last(conns).connectorID;
      StartsFor(Front(conns), Front(answers)) + if n != 0 && !Charges(Last(answers)) then [n] else []
  }

  /** The usable active transactions, in the order of their connectors. */
  function StopsFor(conns: seq<Connector>, answers: seq<Option<Session>>): seq<int>
    requires |answers| == |conns|
  {
    if conns == [] then []
    else
      StopsFor(Front(conns), Front(answers)) +
      if Charges(Last(answers)) then [Last(answers).value.transactionID] else []
  }

  /** The stops asked for are of active transactions, one for every connector whose active session has a usable id. */
  ghost predicate StopsActive(b: Book, id: string, conns: seq<Connector>, stopped: seq<int>) {
    && (forall tx :: tx in stopped ==> tx != 0 && exists c :: c in conns && ActiveWith(b, (id, c.connectorID), tx))
    && (forall c :: c in conns && Transactions.HasActive(b, (id, c.connectorID)) ==>
          exists tx :: ActiveWith(b, (id, c.connectorID), tx) && (tx == 0 || tx in stopped))
  }

  /** The starts asked for are of numbered connectors, and those left out have an active session with a usable id. */
  ghost predicate StartsIdle(b: Book, id: string, conns: seq<Connector>, started: seq<int>) {
    && (forall n :: n in started ==> n != 0 && n in ConnectorNumbers(conns))
    && (forall n :: n in started && Transactions.HasActive(b, (id, n)) ==> ActiveWith(b, (id, n), 0))
    && (forall n :: n in ConnectorNumbers(conns) && n != 0 && n !in started ==>
          exists tx :: tx != 0 && ActiveWith(b, (id, n), tx))
  }

  function NumbersOf(conns: seq<Connector>): seq<int> {
    seq(|conns|, i requires 0 <= i < |conns| => conns[i].connectorID)
  }

  function TransactionsOf(answers: seq<Option<Session>>): seq<int> {
    seq(|answers|, i requires 0 <= i < |answers| => if answers[i].Some? then answers[i].value.transactionID else 0)
  }

  /** What the commander is asked for. */
  function Starts(ns: seq<int>): (requests: seq<Commanding.StartStop>)
    ensures |requests| == |ns|
    ensures forall r :: r in requests ==> r.StartRequest? && r.idTag == "default" && r.connector in ns
  {
    seq(|ns|, i requires 0 <= i < |ns| => Commanding.StartRequest(ns[i], "default"))
  }

  function Stops(txs: seq<int>): (requests: seq<Commanding.StartStop>)
    ensures |requests| == |txs|
    ensures forall r :: r in requests ==> r.StopRequest? && r.transactionId in txs
  {
    seq(|txs|, i requires 0 <= i < |txs| => Commanding.StopRequest(txs[i]))
  }

  class CmdBridge {
    const chargers: ChargerRepository
    const sessions: SessionRepository
    const commander: Commanding.Commander
    const controller: Controller

    ghost predicate Valid()
      reads this, chargers, sessions, controller, controller.calculator
    {
      chargers.Valid() && sessions.Valid() && controller.Valid() && commander == controller.commander
    }

    ghost function Connectors(id: string): seq<Connector>
      reads chargers
    {
      Repo(chargers.chargers, chargers.connectors).Of(id)
    }

    ghost function Whole(): State
      reads this, chargers, controller, controller.calculator
    {
      State(Repo(chargers.chargers, chargers.connectors), controller.Value())
    }

    constructor (chargers: ChargerRepository, sessions: SessionRepository, controller: Controller)
      requires chargers.Valid() && sessions.Valid() && controller.Valid()
      ensures Valid() && this.chargers == chargers && this.sessions == sessions && this.controller == controller
    {
      this.chargers, this.sessions, this.commander, this.controller :=
        chargers, sessions, controller.commander, controller;
    }

    /** One connector's turn; `base` is the trace before the first. */
    method OfferByHand(id: string, conns: seq<Connector>, j: nat, amps: int, replies: Replies, sent: bool,
            ghost base: seq<Entry>)
      returns (now: bool)
      requires commander == controller.commander && controller.InStep() && j < |conns|
      requires controller.trace == base + ManualLog(id, conns[..j], amps, replies)
      requires sent == AnyAccepted(ManualLog(id, conns[..j], amps, replies))
      modifies controller`trace, commander`sent
      ensures controller.trace == base + ManualLog(id, conns[..j + 1], amps, replies)
      ensures now == AnyAccepted(ManualLog(id, conns[..j + 1], amps, replies))
      ensures controller.InStep()
    {
      ghost var log := ManualLog(id, conns[..j], amps, replies);
      assert Front(conns[..j + 1]) == conns[..j];
      now := sent;
      var t := (id, conns[j].connectorID);
      if t.1 == 0 {
        assert log + [] == log;
        return;
      }
      var ok := commander.SetChargingProfile(t.0, t.1, amps, Lookup(replies.live, t),
                                             t in replies.accepts, t in replies.acceptsTx);
      var x := ManualProfileTo(t, amps, replies);
      controller.trace := controller.trace + [x];
      AnyAcceptedAppend(log, x);
      SentOfOneMore(old(controller.trace), x);
      assert base + log + [x] == base + (log + [x]);
      if ok {
        now := true;
      }
    }

    /** A limit offered to every numbered connector; whether any accepts it. */
    method OfferToAll(id: string, conns: seq<Connector>, amps: int, replies: Replies) returns (sent: bool)
      requires commander == controller.commander && controller.InStep()
      modifies controller`trace, commander`sent
      ensures controller.trace == old(controller.trace) + ManualLog(id, conns, amps, replies)
      ensures sent == AnyAccepted(ManualLog(id, conns, amps, replies))
      ensures controller.InStep()
    {
      sent := false;
      for j := 0 to |conns|
        invariant controller.trace == old(controller.trace) + ManualLog(id, conns[..j], amps, replies)
        invariant sent == AnyAccepted(ManualLog(id, conns[..j], amps, replies))
        invariant controller.InStep()
      {
        sent := OfferByHand(id, conns, j, amps, replies, sent, old(controller.trace));
      }
      assert conns[..|conns|] == conns;
    }

    /** A limit set by hand: the charger is overridden if any of its numbered connectors accepts it. */
    method ApplyAmps(id: string, amps: int, replies: Replies)
      requires Valid() && controller.InStep()
      modifies controller, commander`sent
      ensures Valid()
      ensures Whole() == Apply(old(Whole()), SetAmps(id, amps, replies))
      ensures controller.InStep()
    {
      var conns := chargers.ListConnectors(id);
      var sent := OfferToAll(id, conns, amps, replies);
      if sent {
        controller.SetManualOverride(id);
      }
    }

    method OnSetSmartCharging(enabled: bool)
      requires Valid()
      modifies controller
      ensures Valid()
      ensures Whole() == Apply(old(Whole()), SetSmartCharging(enabled))
    {
      controller.SetEnabled(enabled);
      if enabled {
        controller.ClearAllManualOverrides();
      }
    }

    method OnSetChargingMode(id: string, manual: bool)
      requires Valid()
      modifies controller
      ensures Valid()
      ensures Whole() == Apply(old(Whole()), SetMode(id, manual))
    {
      if manual {
        controller.SetManualOverride(id);
      } else {
        controller.ClearManualOverride(id);
      }
    }

    method OnSetSolarThreshold(watts: int)
      requires Valid()
      modifies controller
      ensures Valid()
      ensures Whole() == Apply(old(Whole()), SetSolarThreshold(watts))
    {
      controller.SetSolarThreshold(watts);
    }

    ghost function BooksNow(): Books
      reads commander
    {
      Books(commander.lastStartStop, commander.requested)
    }

    /** One more request to the commander, whose books before the first are `base`. */
    method RequestStart(id: string, n: int, started: seq<int>, world: World, ghost base: Books)
      requires BooksNow() == AskAll(base, commander.contactorCooldown, id, Starts(started), world)
      modifies commander`requested, commander`lastStartStop
      ensures BooksNow() == AskAll(base, commander.contactorCooldown, id, Starts(started + [n]), world)
    {
      var ok := commander.RemoteCommand(id, Commanding.StartRequest(n, "default"), world(|started|));
      assert Starts(started + [n]) == Starts(started) + [Commanding.StartRequest(n, "default")];
      AskOneMore(base, commander.contactorCooldown, id, Starts(started), Commanding.StartRequest(n, "default"), world);
    }

    method RequestStop(id: string, tx: int, stopped: seq<int>, world: World, ghost base: Books)
      requires BooksNow() == AskAll(base, commander.contactorCooldown, id, Stops(stopped), world)
      modifies commander`requested, commander`lastStartStop
      ensures BooksNow() == AskAll(base, commander.contactorCooldown, id, Stops(stopped + [tx]), world)
    {
      var ok := commander.RemoteCommand(id, Commanding.StopRequest(tx), world(|stopped|));
      assert Stops(stopped + [tx]) == Stops(stopped) + [Commanding.StopRequest(tx)];
      AskOneMore(base, commander.contactorCooldown, id, Stops(stopped), Commanding.StopRequest(tx), world);
    }

    /** One connector's turn to be started; `base` are the commander's books before the first. */
    method StartAt(id: string, conns: seq<Connector>, j: nat, started: seq<int>, ghost answers: seq<Option<Session>>,
                   world: World, ghost base: Books)
      returns (now: seq<int>, ghost told: seq<Option<Session>>)
      requires Valid() && j < |conns|
      requires Answered(sessions.sessions, id, conns[..j], answers) && started == StartsFor(conns[..j], answers)
      requires BooksNow() == AskAll(base, commander.contactorCooldown, id, Starts(started), world)
      modifies commander`requested, commander`lastStartStop
      ensures Answered(sessions.sessions, id, conns[..j + 1], told) && now == StartsFor(conns[..j + 1], told)
      ensures BooksNow() == AskAll(base, commander.contactorCooldown, id, Starts(now), world)
    {
      var n := conns[j].connectorID;
      var active := sessions.GetActiveSession(id, n);
      AnsweredOneMore(sessions.sessions, id, conns, j, answers, active);
      now, told := started, answers + [active];
      if n == 0 {
        return;
      }
      if active.Some? && active.value.transactionID != 0 {
        return;
      }
      RequestStart(id, n, started, world, base);
      now := started + [n];
    }

    /**
     The connectors the commander is asked to start, each once and in order; `answers` is what the
     repository said, and the k-th request meets the k-th attempt.
     */
    method StartCharging(id: string, world: World) returns (started: seq<int>, ghost answers: seq<Option<Session>>)
      requires Valid()
      modifies commander`requested, commander`lastStartStop
      ensures Answered(sessions.sessions, id, Connectors(id), answers)
      ensures started == StartsFor(Connectors(id), answers)
      ensures StartsIdle(sessions.sessions, id, Connectors(id), started)
      ensures IsSubsequence(started, NumbersOf(Connectors(id)))
      ensures BooksNow() == AskAll(old(BooksNow()), commander.contactorCooldown, id, Starts(started), world)
    {
      var conns := chargers.ListConnectors(id);
      started, answers := [], [];
      for j := 0 to |conns|
        invariant Answered(sessions.sessions, id, conns[..j], answers)
        invariant started == StartsFor(conns[..j], answers)
        invariant BooksNow() == AskAll(old(BooksNow()), commander.contactorCooldown, id, Starts(started), world)
      {
        started, answers := StartAt(id, conns, j, started, answers, world, old(BooksNow()));
      }
      assert conns[..|conns|] == conns;
      StartsForIdle(sessions.sessions, id, conns, answers);
      StartsInOrder(conns, answers);
    }

    /** One connector's turn to be stopped. */
    method StopAt(id: string, conns: seq<Connector>, j: nat, stopped: seq<int>, ghost answers: seq<Option<Session>>,
                  world: World, ghost base: Books)
      returns (now: seq<int>, ghost told: seq<Option<Session>>)
      requires Valid() && j < |conns|
      requires Answered(sessions.sessions, id, conns[..j], answers) && stopped == StopsFor(conns[..j], answers)
      requires BooksNow() == AskAll(base, commander.contactorCooldown, id, Stops(stopped), world)
      modifies commander`requested, commander`lastStartStop
      ensures Answered(sessions.sessions, id, conns[..j + 1], told) && now == StopsFor(conns[..j + 1], told)
      ensures BooksNow() == AskAll(base, commander.contactorCooldown, id, Stops(now), world)
    {
      var active := sessions.GetActiveSession(id, conns[j].connectorID);
      AnsweredOneMore(sessions.sessions, id, conns, j, answers, active);
      now, told := stopped, answers + [active];
      if active.None? || active.value.transactionID == 0 {
        return;
      }
      var tx := active.value.transactionID;
      RequestStop(id, tx, stopped, world, base);
      now := stopped + [tx];
    }

    /**
     The transactions the commander is asked to stop, each once and in order; `answers` is what the
     repository said, and the k-th request meets the k-th attempt.
     */
    method StopCharging(id: string, world: World) returns (stopped: seq<int>, ghost answers: seq<Option<Session>>)
      requires Valid()
      modifies commander`requested, commander`lastStartStop
      ensures Answered(sessions.sessions, id, Connectors(id), answers)
      ensures stopped == StopsFor(Connectors(id), answers)
      ensures StopsActive(sessions.sessions, id, Connectors(id), stopped)
      ensures IsSubsequence(stopped, TransactionsOf(answers))
      ensures BooksNow() == AskAll(old(BooksNow()), commander.contactorCooldown, id, Stops(stopped), world)
    {
      var conns := chargers.ListConnectors(id);
      stopped, answers := [], [];
      for j := 0 to |conns|
        invariant Answered(sessions.sessions, id, conns[..j], answers)
        invariant stopped == StopsFor(conns[..j], answers)
        invariant BooksNow() == AskAll(old(BooksNow()), commander.contactorCooldown, id, Stops(stopped), world)
      {
        stopped, answers := StopAt(id, conns, j, stopped, answers, world, old(BooksNow()));
      }
      assert conns[..|conns|] == conns;
      StopsForActive(sessions.sessions, id, conns, answers);
      StopsInOrder(conns, answers);
    }
  }

  /** Starts come in the order of the list, at most one for each entry of it. */
  lemma {:induction false} StartsInOrder(conns: seq<Connector>, answers: seq<Option<Session>>)
    requires |answers| == |conns|
    ensures IsSubsequence(StartsFor(conns, answers), NumbersOf(conns))
  {
    if conns != [] {
      var n, before := Last(conns).connectorID, StartsFor(Front(conns), Front(answers));
      StartsInOrder(Front(conns), Front(answers));
      SubsequenceOneMore(before, NumbersOf(Front(conns)), n);
      assert NumbersOf(conns) == NumbersOf(Front(conns)) + [n];
      assert before + [] == before;
      assert StartsFor(conns, answers) == before || StartsFor(conns, answers) == before + [n];
    }
  }

  /** Stops come in the order of the connectors, at most one for each. */
  lemma {:induction false} StopsInOrder(conns: seq<Connector>, answers: seq<Option<Session>>)
    requires |answers| == |conns|
    ensures IsSubsequence(StopsFor(conns, answers), TransactionsOf(answers))
  {
    if conns != [] {
      var tx, before := Last(TransactionsOf(answers)), StopsFor(Front(conns), Front(answers));
      StopsInOrder(Front(conns), Front(answers));
      SubsequenceOneMore(before, TransactionsOf(Front(answers)), tx);
      assert TransactionsOf(answers) == TransactionsOf(Front(answers)) + [tx];
      if Charges(Last(answers)) {
        assert StopsFor(conns, answers) == before + [tx];
      } else {
        assert StopsFor(conns, answers) == before;
      }
    }
  }

  lemma AnsweredOneMore(
    b: Book, id: string, conns: seq<Connector>, j: nat, answers: seq<Option<Session>>, active: Option<Session>)
    requires j < |conns| && Answered(b, id, conns[..j], answers)
    requires AnswersActive(b, (id, conns[j].connectorID), active)
    ensures Answered(b, id, conns[..j + 1], answers + [active])
    ensures Front(conns[..j + 1]) == conns[..j] && Front(answers + [active]) == answers
  {
  }

  /** Only numbered connectors without a usable transaction are started, and all of them. */
  lemma {:induction false} StartsForIdle(b: Book, id: string, conns: seq<Connector>, answers: seq<Option<Session>>)
    requires Answered(b, id, conns, answers)
    ensures StartsIdle(b, id, conns, StartsFor(conns, answers))
  {
    if conns != [] {
      var n, active := Last(conns).connectorID, Last(answers);
      StartsForIdle(b, id, Front(conns), Front(answers));
      assert conns == Front(conns) + [Last(conns)];
      assert ConnectorNumbers(conns) == ConnectorNumbers(Front(conns)) + {n};
      assert AnswersActive(b, (id, n), active);
      if active.Some? {
        assert ActiveWith(b, (id, n), active.value.transactionID);
      } else {
        assert !Transactions.HasActive(b, (id, n));
      }
    }
  }

  /** Only usable active transactions are stopped, and all of them. */
  lemma {:induction false} StopsForActive(b: Book, id: string, conns: seq<Connector>, answers: seq<Option<Session>>)
    requires Answered(b, id, conns, answers)
    ensures StopsActive(b, id, conns, StopsFor(conns, answers))
  {
    if conns != [] {
      var c, active := Last(conns), Last(answers);
      var before := StopsFor(Front(conns), Front(answers));
      StopsForActive(b, id, Front(conns), Front(answers));
      assert conns == Front(conns) + [c];
      assert AnswersActive(b, (id, c.connectorID), active);
      if active.Some? {
        assert ActiveWith(b, (id, c.connectorID), active.value.transactionID);
        if active.value.transactionID != 0 {
          StopsGrow(b, id, Front(conns), before, active.value.transactionID, c);
        } else {
          StopsSkip(b, id, Front(conns), before, c);
        }
      } else {
        StopsSkip(b, id, Front(conns), before, c);
      }
    }
  }

  lemma StopsSkip(b: Book, id: string, conns: seq<Connector>, stopped: seq<int>, c: Connector)
    requires StopsActive(b, id, conns, stopped)
    requires Transactions.HasActive(b, (id, c.connectorID)) ==> ActiveWith(b, (id, c.connectorID), 0)
    ensures StopsActive(b, id, conns + [c], stopped)
  {
    forall t | t in stopped ensures t != 0 && exists k :: k in conns + [c] && ActiveWith(b, (id, k.connectorID), t) {
      var k :| k in conns && ActiveWith(b, (id, k.connectorID), t);
      assert k in conns + [c];
    }
  }

  lemma StopsGrow(b: Book, id: string, conns: seq<Connector>, stopped: seq<int>, tx: int, c: Connector)
    requires StopsActive(b, id, conns, stopped)
    requires tx != 0 && ActiveWith(b, (id, c.connectorID), tx)
    ensures StopsActive(b, id, conns + [c], stopped + [tx])
  {
    forall t | t in stopped + [tx]
      ensures t != 0 && exists k :: k in conns + [c] && ActiveWith(b, (id, k.connectorID), t)
    {
      if t in stopped {
        var k :| k in conns && ActiveWith(b, (id, k.connectorID), t);
        assert k in conns + [c];
      } else {
        assert c in conns + [c];
      }
    }
    forall k | k in conns + [c] && Transactions.HasActive(b, (id, k.connectorID))
      ensures exists t :: ActiveWith(b, (id, k.connectorID), t) && (t == 0 || t in stopped + [tx])
    {
      if k in conns {
        var t :| ActiveWith(b, (id, k.connectorID), t) && (t == 0 || t in stopped);
        assert t == 0 || t in stopped + [tx];
      } else {
        assert tx in stopped + [tx];
      }
    }
  }

  /**
   With chargers that follow the protocol, a stop from Home Assistant asks for the very transactions
   that are open: each one it sends is open on a connector of the charger, and every open one that
   was started or metered since the last restart is sent, unless its id is the reserved 0.
   */
  lemma {:induction false} StopsTheOpenTransactions(
    ws: seq<Transactions.World>, steps: seq<Transactions.Step>, i: nat, id: string, conns: seq<Connector>,
    stopped: seq<int>)
    requires Transactions.Execution(ws, steps) && i <= |steps|
    requires StopsActive(ws[i].book, id, conns, stopped)
    ensures forall tx :: tx in stopped ==>
              exists c :: c in conns && (id, c.connectorID) in ws[i].open && ws[i].open[(id, c.connectorID)] == tx
    ensures forall c :: c in conns && (id, c.connectorID) in ws[i].announced ==>
              (id, c.connectorID) in ws[i].open &&
              (ws[i].open[(id, c.connectorID)] == 0 || ws[i].open[(id, c.connectorID)] in stopped)
  {
    var w := ws[i];
    Transactions.BothSidesStayInStep(ws, steps, i);
    forall p: Target, tx: int | ActiveWith(w.book, p, tx) ensures p in w.open && w.open[p] == tx {
      var s :| s in w.book && IsActiveAt(w.book[s], p) && w.book[s].transactionID == tx;
      assert Transactions.Faithful(w, w.book[s]);
    }
    forall c | c in conns && (id, c.connectorID) in w.announced
      ensures (id, c.connectorID) in w.open
      ensures w.open[(id, c.connectorID)] == 0 || w.open[(id, c.connectorID)] in stopped
    {
      assert Transactions.HasActive(w.book, (id, c.connectorID));
      var tx :| ActiveWith(w.book, (id, c.connectorID), tx) && (tx == 0 || tx in stopped);
    }
  }
}
