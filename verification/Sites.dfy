/**
 Everything together: the control loop among its users and chargers, the chargers' transactions, and the
 limits in force at the chargers; and, beside them, a control loop without a profile cache with chargers of
 its own that see the same. A restart of the central system loses the sessions and all that the loop
 remembers, but no transaction and no limit in force.
 */
module Sites {
  import opened Options
  import opened Sequences
  import opened Ports
  import opened Trace
  import opened Sessions
  import opened ChargerRepositories
  import opened Devices
  import SolarGate
  import SolarGateRuns
  import opened Control
  import ControlSteps
  import opened ControlDedup
  import opened System
  import opened SystemProfiles
  import GateCommands
  import Transactions
  import Csms

  datatype Site = Site(
    state: State, world: Transactions.World, device: Device, ref: Reference, refDevice: Device)

  datatype Step = Operate(op: Op) | Transact(step: Transactions.Step)

  /** What the session repository answers for each connector while a step's commands are sent. */
  ghost predicate Informed(b: Book, live: map<Target, int>) {
    && (forall p :: p in live ==> Csms.ActiveWith(b, p, live[p]))
    && (forall p: Target :: p !in live ==> !Transactions.HasActive(b, p))
  }

  ghost predicate Knowing(b: Book, op: Op) {
    (op.TickOp? || op.SetAmps?) ==> Informed(b, op.replies.live)
  }

  /** A transaction starts under the standing limit, if there is one. */
  function Begun(d: Device, p: Target): Device {
    d.(live := if p in d.standing then d.live[p := d.standing[p]] else d.live - {p})
  }

  function Ended(d: Device, p: Target): Device {
    d.(live := d.live - {p})
  }

  predicate Powered(a: Site) {
    a.state.control.calculator.gridVolt > 0 && a.ref.calculator.gridVolt > 0
  }

  /** An operation: both loops perform it, and their sends reach their chargers. */
  ghost predicate Operates(a: Site, op: Op, b: Site)
    requires Powered(a)
  {
    && Enabled(a.state, op) && Knowing(a.world.book, op)
    && b.state == Apply(a.state, op) && b.ref == RefApply(a.ref, a.state.repo, op)
    && b.world == a.world
    && a.state.control.trace <= b.state.control.trace && a.ref.trace <= b.ref.trace
    && b.device == InForce(a.device, Since(a.state.control.trace, b.state.control.trace))
    && b.refDevice == InForce(a.refDevice, Since(a.ref.trace, b.ref.trace))
  }

  ghost predicate Next(a: Site, s: Step, b: Site) {
    && Powered(a)
    && match s
       case Operate(op) => Operates(a, op, b)
       case Transact(t) =>
         && Transactions.Next(a.world, t, b.world)
         && match t
            case Start(p, _, _, _, _, _) =>
              b == a.(world := b.world, device := Begun(a.device, p), refDevice := Begun(a.refDevice, p))
            case Meter(p, withTx, _, _) =>
              b == a.(world := b.world,
                      state := if withTx && !Knows(a.world.book, p.0, a.world.open[p])
                               then Apply(a.state, ReportStatus(Connector(p.0, p.1, Charging, "", ""))) else a.state)
            case Stop(p, _, _, _) =>
              b == a.(world := b.world, device := Ended(a.device, p), refDevice := Ended(a.refDevice, p),
                      state := Apply(a.state, StopTransaction(p.0)),
                      ref := RefApply(a.ref, a.state.repo, StopTransaction(p.0)))
            case Wipe =>
              && Initial(b.state) && Matches(b.state.control, b.ref)
              && b.device == a.device && b.refDevice == a.refDevice
  }

  /** From scratch, the two sets of chargers under the same standing limits. */
  ghost predicate Execution(run: seq<Site>, steps: seq<Step>) {
    && |run| == |steps| + 1
    && Initial(run[0].state) && Matches(run[0].state.control, run[0].ref)
    && run[0].world == Transactions.World(map[], map[], {}, {}, {})
    && run[0].device == run[0].refDevice && run[0].device.live == map[]
    && forall i :: 0 <= i < |steps| ==> Next(run[i], steps[i], run[i + 1])
  }

  ghost predicate Sound(a: Site) {
    Powered(a) && Matches(a.state.control, a.ref) && RepoValid(a.state.repo) && Transactions.InStep(a.world)
  }

  lemma StepKeepsSound(a: Site, s: Step, b: Site)
    requires Sound(a) && Next(a, s, b)
    ensures Sound(b)
  {
    match s
    case Operate(op) =>
      ApplyMatches(a.state, a.ref, op);
      ApplyKeepsRepo(a.state.repo, op);
    case Transact(t) =>
      Transactions.StepKeepsInStep(a.world, t, b.world);
      match t
      case Start(_, _, _, _, _, _) =>
      case Meter(p, _, _, _) =>
        ApplyKeepsRepo(a.state.repo, ReportStatus(Connector(p.0, p.1, Charging, "", "")));
      case Stop(_, _, _, _) =>
      case Wipe =>
  }

  lemma {:induction false} EverySiteIsSound(run: seq<Site>, steps: seq<Step>, i: nat)
    requires Execution(run, steps) && i <= |steps|
    ensures Sound(run[i])
  {
    if i > 0 {
      EverySiteIsSound(run, steps, i - 1);
      StepKeepsSound(run[i - 1], steps[i - 1], run[i]);
    }
  }

  // ---------------------------------------------------------------------------
  // The gate's stops
  // ---------------------------------------------------------------------------

  lemma InformedIsOpen(w: Transactions.World, live: map<Target, int>, p: Target)
    requires Transactions.InStep(w) && Informed(w.book, live)
    ensures p in live ==> p in w.open && w.open[p] == live[p]
    ensures p in w.announced ==> p in live
  {
    if p in live {
      var id :| id in w.book && IsActiveAt(w.book[id], p) && w.book[id].transactionID == live[p];
      assert Transactions.Faithful(w, w.book[id]);
    }
  }

  /**
   Every stop the gate issues names a transaction that is open on a connector of that charger; and when a burst
   is due for a charger, each of its numbered connectors' transactions started or metered since the last
   restart is named.
   */
  lemma {:induction false} GateStopsOpenTransactions(run: seq<Site>, steps: seq<Step>, i: nat)
    requires Execution(run, steps) && i < |steps| && steps[i].Operate? && steps[i].op.TickOp?
    ensures run[i].state.control.trace <= run[i + 1].state.control.trace
    ensures forall x :: x in Since(run[i].state.control.trace, run[i + 1].state.control.trace) && x.RemoteStop? ==>
              exists n :: (x.id, n) in run[i].world.open && run[i].world.open[(x.id, n)] == x.tx
    ensures forall id, n: int ::
              (id, n) in run[i].world.announced && n != 0 && n in ConnectorNumbers(run[i].state.repo.Of(id)) &&
              BurstDue(run[i], steps[i].op, id) ==>
                (id, n) in run[i].world.open &&
                RemoteStop(id, run[i].world.open[(id, n)])
                  in Since(run[i].state.control.trace, run[i + 1].state.control.trace)
  {
    var a, op := run[i], steps[i].op;
    EverySiteIsSound(run, steps, i);
    assert Next(run[i], steps[i], run[i + 1]);
    var v := ViewOf(a.state.repo, op.order, op.replies.live);
    ListingIsWellFormed(a.state.repo, op.order, op.replies.live);
    var added := Since(a.state.control.trace, run[i + 1].state.control.trace);
    forall x | x in added && x.RemoteStop?
      ensures exists n :: (x.id, n) in a.world.open && a.world.open[(x.id, n)] == x.tx
    {
      GateCommands.RemoteStopIff(a.state.control, op.energy, v, op.replies, x.id, x.tx);
      var k :| k in v.conns[x.id] && k.connectorID != 0 && (x.id, k.connectorID) in v.active &&
               v.active[(x.id, k.connectorID)] == x.tx;
      InformedIsOpen(a.world, op.replies.live, (x.id, k.connectorID));
    }
    forall id, n: int |
      (id, n) in a.world.announced && n != 0 && n in ConnectorNumbers(a.state.repo.Of(id)) && BurstDue(a, op, id)
      ensures (id, n) in a.world.open && RemoteStop(id, a.world.open[(id, n)]) in added
    {
      InformedIsOpen(a.world, op.replies.live, (id, n));
      GateCommands.RemoteStopIff(a.state.control, op.energy, v, op.replies, id, a.world.open[(id, n)]);
      var k :| k in a.state.repo.Of(id) && k.connectorID == n;
      assert GateCommands.Drives(v.conns[id], id, v.active, a.world.open[(id, n)]);
    }
  }

  /** The tick is the third in a row below the threshold, and the charger one its burst is for. */
  predicate BurstDue(a: Site, op: Op, id: string)
    requires op.TickOp?
  {
    var c := a.state.control;
    && ControlSteps.Dark(c, op.energy) && c.gate.below + 1 == SolarGate.STOP_TICKS
    && id in SolarGateRuns.Stoppable(op.order, c.overrides) && id !in c.gate.stopped && id in a.state.repo.chargers
  }

  // ---------------------------------------------------------------------------
  // Limits in force, with and without the cache
  // ---------------------------------------------------------------------------

  /** None of the sends a loop without the cache makes in this step is skipped although it would change something. */
  ghost predicate Harmless(a: Site, s: Step, b: Site) {
    s.Operate? && s.op.TickOp? ==> forall x :: x in RefLog(a, b) ==> !HarmfulSkip(a.state.control, x, a.device)
  }

  /** What a step adds to the sends of the loop without the cache. */
  function RefLog(a: Site, b: Site): seq<Entry> {
    if a.ref.trace <= b.ref.trace then Since(a.ref.trace, b.ref.trace) else []
  }

  /** The limits in force, standing and live, are those of the loop without the cache at every moment. */
  ghost predicate AlwaysAgree(run: seq<Site>) {
    forall i :: 0 <= i < |run| ==> run[i].device == run[i].refDevice
  }

  ghost predicate AllHarmless(run: seq<Site>, steps: seq<Step>)
    requires |run| == |steps| + 1
  {
    forall i :: 0 <= i < |steps| ==> Harmless(run[i], steps[i], run[i + 1])
  }

  lemma StepAgreesIff(a: Site, s: Step, b: Site)
    requires Sound(a) && Next(a, s, b) && a.device == a.refDevice
    ensures b.device == b.refDevice <==> Harmless(a, s, b)
  {
    match s
    case Operate(op) =>
      if op.TickOp? {
        ListingIsWellFormed(a.state.repo, op.order, op.replies.live);
        TickAgreesIff(a.state.control, a.ref, op.energy, ViewOf(a.state.repo, op.order, op.replies.live), op.replies,
          a.device);
      } else {
        SameSends(a, op, b);
      }
    case Transact(_) =>
  }

  /** Apart from ticks both loops send the same. */
  lemma SameSends(a: Site, op: Op, b: Site)
    requires Powered(a) && Matches(a.state.control, a.ref) && Operates(a, op, b) && !op.TickOp?
    ensures Since(a.state.control.trace, b.state.control.trace) == Since(a.ref.trace, b.ref.trace)
  {
  }

  /**
   Over any execution, whatever is set by hand, refused or lost in restarts: the limits in force, of the chargers
   and of their transactions under way, are at every moment those a loop without the cache would have put in
   force, exactly when no tick skips a send that would have changed one of them.
   */
  lemma {:induction false} LimitsAgreeIff(run: seq<Site>, steps: seq<Step>)
    requires Execution(run, steps)
    ensures AlwaysAgree(run) <==> AllHarmless(run, steps)
  {
    if AlwaysAgree(run) {
      forall i | 0 <= i < |steps| ensures Harmless(run[i], steps[i], run[i + 1]) {
        EverySiteIsSound(run, steps, i);
        assert run[i].device == run[i].refDevice && run[i + 1].device == run[i + 1].refDevice;
        StepAgreesIff(run[i], steps[i], run[i + 1]);
      }
    }
    if AllHarmless(run, steps) {
      forall i | 0 <= i <= |steps| ensures run[i].device == run[i].refDevice {
        HarmlessAgree(run, steps, i);
      }
    }
  }

  lemma {:induction false} HarmlessAgree(run: seq<Site>, steps: seq<Step>, i: nat)
    requires Execution(run, steps) && i <= |steps|
    requires AllHarmless(run, steps)
    ensures run[i].device == run[i].refDevice
  {
    if i > 0 {
      HarmlessAgree(run, steps, i - 1);
      EverySiteIsSound(run, steps, i - 1);
      assert Harmless(run[i - 1], steps[i - 1], run[i]);
      StepAgreesIff(run[i - 1], steps[i - 1], run[i]);
    }
  }

  /** A limit set by hand in this step is the cached one wherever one is cached. */
  predicate SafeStep(a: Site, s: Step) {
    s.Operate? && s.op.SetAmps? ==>
      SafeByHand(a.state.control, s.op.id, a.state.repo.Of(s.op.id), s.op.amps, s.op.replies)
  }

  ghost predicate Standing(a: Site) {
    Agree(a.state.control, a.ref, a.device, a.refDevice)
  }

  /**
   The standing limits are those of a loop without the cache at every moment, refused profiles, unknown
   transactions and restarts included, as long as no limit is set by hand over another cached one.
   */
  lemma {:induction false} StandingLimitsAgree(run: seq<Site>, steps: seq<Step>, i: nat)
    requires Execution(run, steps) && i <= |steps|
    requires forall k :: 0 <= k < i ==> SafeStep(run[k], steps[k])
    ensures Standing(run[i])
  {
    if i > 0 {
      StandingLimitsAgree(run, steps, i - 1);
      assert SafeStep(run[i - 1], steps[i - 1]) && Next(run[i - 1], steps[i - 1], run[i]);
      if steps[i - 1].Operate? {
        ApplyAgrees(run[i - 1].state, run[i - 1].ref, steps[i - 1].op, run[i - 1].device, run[i - 1].refDevice);
      }
    }
  }

  // ---------------------------------------------------------------------------
  // The limit of a transaction under way
  // ---------------------------------------------------------------------------

  /** What an operation's sends added to the trace. */
  function LogOf(a: Site, b: Site): seq<Entry> {
    if a.state.control.trace <= b.state.control.trace then Since(a.state.control.trace, b.state.control.trace) else []
  }

  /** The log's accepted send to t reached the transaction under way, or carried the limit it had already. */
  ghost predicate Caught(log: seq<Entry>, d: Device, t: Target) {
    exists x :: x in log && IsSend(x) && TargetOf(x) == t && x.accepted
      && (Reaches(x) || Lookup(d.live, t) == Some(x.amps))
  }

  /**
   Of the last send to t that was not skipped and was accepted, and the start of t's transaction, whichever was
   later: the start, or a send that was made knowing the transaction and had its profile accepted, or that
   carried the limit the transaction already had.
   */
  ghost predicate CaughtUp(run: seq<Site>, steps: seq<Step>, i: nat, t: Target)
    requires |run| == |steps| + 1 && i <= |steps|
  {
    if i == 0 then false
    else
      match steps[i - 1]
      case Operate(_) =>
        var log := LogOf(run[i - 1], run[i]);
        if AcceptedAt(log, t) then Caught(log, run[i - 1].device, t) else CaughtUp(run, steps, i - 1, t)
      case Transact(s) => (s.Start? && s.p == t) || CaughtUp(run, steps, i - 1, t)
  }

  lemma {:induction false} ManualSends(id: string, conns: seq<Connector>, amps: int, replies: Replies)
    ensures forall x :: x in ManualLog(id, conns, amps, replies) ==>
              x.ManualProfile? && x == ManualProfileTo((x.id, x.connector), amps, replies)
              && x.id == id && x.connector != 0 && x.connector in ConnectorNumbers(conns)
  {
    if conns != [] {
      ManualSends(id, Front(conns), amps, replies);
      NumbersOfFront(conns);
    }
  }

  lemma {:induction false} ManualLive(d: Device, log: seq<Entry>, t: Target, y: Entry)
    requires IsSend(y) && TargetOf(y) == t
    requires forall x :: x in log ==> IsSend(x) && (TargetOf(x) == t ==> x == y)
    ensures Lookup(InForce(d, log).live, t) == if y in log && Reaches(y) then Some(y.amps) else Lookup(d.live, t)
  {
    if log != [] {
      assert log == Front(log) + [Last(log)];
      ManualLive(d, Front(log), t, y);
    }
  }

  /** A limit set by hand where the same one is cached: like any other send. */
  lemma {:induction false} ManualSettles(
    c: Control, d: Device, id: string, conns: seq<Connector>, amps: int, replies: Replies, t: Target)
    requires SafeByHand(c, id, conns, amps, replies) && t in c.lastSet
    ensures var log := ManualLog(id, conns, amps, replies);
            Settles(c, c, d, InForce(d, log), log, t)
  {
    var log, y := ManualLog(id, conns, amps, replies), ManualProfileTo(t, amps, replies);
    ManualSends(id, conns, amps, replies);
    ManualLive(d, log, t, y);
    forall x | x in log && IsSend(x) && TargetOf(x) == t && x.accepted
      ensures Lookup(c.lastSet, t) == Some(x.amps)
      ensures Lookup(InForce(d, log).live, t) == if Reaches(x) then Some(x.amps) else Lookup(d.live, t) {
      assert x == y && t == (id, x.connector);
    }
    if !AcceptedAt(log, t) {
      assert y in log ==> !y.accepted;
    }
  }

  lemma OperationSettles(a: Site, op: Op, b: Site, t: Target)
    requires Sound(a) && Operates(a, op, b) && SafeStep(a, Operate(op))
    requires t in a.state.control.lastSet || op.TickOp?
    ensures Settles(a.state.control, b.state.control, a.device, b.device, LogOf(a, b), t)
  {
    if op.TickOp? {
      ListingIsWellFormed(a.state.repo, op.order, op.replies.live);
      TickSettles(a.state.control, op.energy, ViewOf(a.state.repo, op.order, op.replies.live), op.replies, a.device, t);
    } else if op.SetAmps? {
      ManualSettles(a.state.control, a.device, op.id, a.state.repo.Of(op.id), op.amps, op.replies, t);
      assert LogOf(a, b) == ManualLog(op.id, a.state.repo.Of(op.id), op.amps, op.replies);
    } else {
      assert LogOf(a, b) == [];
    }
  }

  /** The limit of t's transaction is the cached one. */
  predicate LiveIsCached(a: Site, t: Target) {
    Lookup(a.device.live, t) == Lookup(a.state.control.lastSet, t)
  }

  lemma SettledIsCached(a: Site, op: Op, b: Site, t: Target)
    requires Sound(a) && Operates(a, op, b) && SafeStep(a, Operate(op)) && t in b.state.control.lastSet
    ensures AcceptedAt(LogOf(a, b), t) ==> (LiveIsCached(b, t) <==> Caught(LogOf(a, b), a.device, t))
    ensures !AcceptedAt(LogOf(a, b), t) ==> t in a.state.control.lastSet && (LiveIsCached(b, t) <==> LiveIsCached(a, t))
  {
    OperationSettles(a, op, b, t);
    var log := LogOf(a, b);
    if AcceptedAt(log, t) {
      var x :| x in log && IsSend(x) && TargetOf(x) == t && x.accepted;
      assert Lookup(b.state.control.lastSet, t) == Some(x.amps);
    }
  }

  lemma TransactionCatchesUp(a: Site, s: Transactions.Step, b: Site, t: Target)
    requires Standing(a) && Next(a, Transact(s), b) && t in b.world.open && t in b.state.control.lastSet
    ensures s.Start? && s.p == t ==> LiveIsCached(b, t)
    ensures !(s.Start? && s.p == t) ==>
              t in a.world.open && t in a.state.control.lastSet && (LiveIsCached(b, t) <==> LiveIsCached(a, t))
  {
  }

  lemma StepCatchesUp(run: seq<Site>, steps: seq<Step>, i: nat, t: Target)
    requires |run| == |steps| + 1 && 0 < i <= |steps|
    requires Sound(run[i - 1]) && Standing(run[i - 1])
    requires Next(run[i - 1], steps[i - 1], run[i]) && SafeStep(run[i - 1], steps[i - 1])
    requires t in run[i - 1].world.open && t in run[i - 1].state.control.lastSet ==>
               (LiveIsCached(run[i - 1], t) <==> CaughtUp(run, steps, i - 1, t))
    requires t in run[i].world.open && t in run[i].state.control.lastSet
    ensures LiveIsCached(run[i], t) <==> CaughtUp(run, steps, i, t)
  {
    match steps[i - 1]
    case Operate(op) => SettledIsCached(run[i - 1], op, run[i], t);
    case Transact(s) => TransactionCatchesUp(run[i - 1], s, run[i], t);
  }

  /**
   In any execution in which no limit is set by hand over another cached one: the limit of a transaction under
   way is the cached one, which is the standing one, exactly when the last send that was not skipped and was
   accepted reached the transaction or needed not, or the transaction started after it.
   */
  lemma {:induction false} LiveIsCachedIff(run: seq<Site>, steps: seq<Step>, i: nat, t: Target)
    requires Execution(run, steps) && i <= |steps|
    requires forall k :: 0 <= k < i ==> SafeStep(run[k], steps[k])
    requires t in run[i].world.open && t in run[i].state.control.lastSet
    ensures LiveIsCached(run[i], t) <==> CaughtUp(run, steps, i, t)
    ensures Lookup(run[i].device.standing, t) == Lookup(run[i].state.control.lastSet, t)
  {
    StandingLimitsAgree(run, steps, i);
    if i > 0 {
      EverySiteIsSound(run, steps, i - 1);
      StandingLimitsAgree(run, steps, i - 1);
      if t in run[i - 1].world.open && t in run[i - 1].state.control.lastSet {
        LiveIsCachedIff(run, steps, i - 1, t);
      }
      assert SafeStep(run[i - 1], steps[i - 1]) && Next(run[i - 1], steps[i - 1], run[i]);
      StepCatchesUp(run, steps, i, t);
    }
  }

  /**
   So, of the sends a tick without the cache would make, exactly those are skipped to any harm that are cached, would
   reach the transaction under way, and whose connector has not caught up.
   */
  lemma {:induction false} HarmfulSkipIff(run: seq<Site>, steps: seq<Step>, i: nat, x: Entry)
    requires Execution(run, steps) && i < |steps| && steps[i].Operate? && steps[i].op.TickOp?
    requires forall k :: 0 <= k < i ==> SafeStep(run[k], steps[k])
    requires x in RefLog(run[i], run[i + 1])
    ensures IsSend(x)
    ensures HarmfulSkip(run[i].state.control, x, run[i].device)
        <==> Cached(run[i].state.control, x) && Reaches(x) && !CaughtUp(run, steps, i, TargetOf(x))
  {
    var a, op := run[i], steps[i].op;
    assert Next(run[i], steps[i], run[i + 1]);
    RefTickSends(a.ref, op.energy, ViewOf(a.state.repo, op.order, op.replies.live), op.replies);
    assert IsReply(x, op.replies);
    EverySiteIsSound(run, steps, i);
    StandingLimitsAgree(run, steps, i);
    RedundantIff(a.device, x);
    if Cached(a.state.control, x) && Reaches(x) {
      InformedIsOpen(a.world, op.replies.live, TargetOf(x));
      LiveIsCachedIff(run, steps, i, TargetOf(x));
    }
  }

  /**
   The step is no tick that skips a send to a known transaction, to be accepted, whose connector has not
   caught up.
   */
  ghost predicate LeavesNoneBehind(run: seq<Site>, steps: seq<Step>, i: nat)
    requires |run| == |steps| + 1 && i < |steps|
  {
    steps[i].Operate? && steps[i].op.TickOp? ==>
      forall x :: x in RefLog(run[i], run[i + 1]) && Reaches(x) && Cached(run[i].state.control, x) ==>
        CaughtUp(run, steps, i, TargetOf(x))
  }

  lemma {:induction false} HarmlessIff(run: seq<Site>, steps: seq<Step>, i: nat)
    requires Execution(run, steps) && i < |steps|
    requires forall k :: 0 <= k < |steps| ==> SafeStep(run[k], steps[k])
    ensures Harmless(run[i], steps[i], run[i + 1]) <==> LeavesNoneBehind(run, steps, i)
  {
    if steps[i].Operate? && steps[i].op.TickOp? {
      forall x | x in RefLog(run[i], run[i + 1])
        ensures HarmfulSkip(run[i].state.control, x, run[i].device)
            <==> IsSend(x) && Reaches(x) && Cached(run[i].state.control, x) && !CaughtUp(run, steps, i, TargetOf(x)) {
        HarmfulSkipIff(run, steps, i, x);
      }
    }
  }

  ghost predicate NoneLeftBehind(run: seq<Site>, steps: seq<Step>)
    requires |run| == |steps| + 1
  {
    forall i :: 0 <= i < |steps| ==> LeavesNoneBehind(run, steps, i)
  }

  lemma {:induction false} AllHarmlessIff(run: seq<Site>, steps: seq<Step>)
    requires Execution(run, steps)
    requires forall k :: 0 <= k < |steps| ==> SafeStep(run[k], steps[k])
    ensures AllHarmless(run, steps) <==> NoneLeftBehind(run, steps)
  {
    forall i | 0 <= i < |steps| ensures Harmless(run[i], steps[i], run[i + 1]) <==> LeavesNoneBehind(run, steps, i) {
      HarmlessIff(run, steps, i);
    }
  }

  /**
   The cache against always sending, both limits: with no limit set by hand over another cached one, the limits in
   force are the same at every moment exactly when no tick skips a send that would reach a transaction which the
   last send that was made missed.
   */
  lemma {:induction false} CacheRefinesIff(run: seq<Site>, steps: seq<Step>)
    requires Execution(run, steps)
    requires forall k :: 0 <= k < |steps| ==> SafeStep(run[k], steps[k])
    ensures AlwaysAgree(run) <==> NoneLeftBehind(run, steps)
  {
    LimitsAgreeIff(run, steps);
    AllHarmlessIff(run, steps);
  }
}
