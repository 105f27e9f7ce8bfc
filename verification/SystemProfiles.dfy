/** Bounds on the profiles sent, and the profile cache, over runs of the system. */
module SystemProfiles {
  import opened Options
  import opened Sequences
  import opened Ports
  import opened Trace
  import opened SmartCharging
  import opened ChargerRepositories
  import opened Control
  import opened ControlSteps
  import opened Devices
  import opened ControlDedup
  import opened System

  // ---------------------------------------------------------------------------
  // Amp bounds over runs
  // ---------------------------------------------------------------------------

  /**
   The default current is not validated by the program; here it is assumed in range whenever the rest is
   accepted.
   */
  predicate SafeUpdate(p: Params) {
    Acceptable(p) ==> 6 <= Int32(p.defaultAmps) <= 32
  }

  predicate SafeDefaults(ops: seq<Op>) {
    forall i :: 0 <= i < |ops| && ops[i].UpdateCharging? ==> SafeUpdate(ops[i].params)
  }

  lemma ApplyKeepsAmps(s: State, op: Op)
    requires AmpsWithin(s.control, 6, 32)
    requires op.UpdateCharging? ==> SafeUpdate(op.params)
    ensures AmpsWithin(Apply(s, op).control, 6, 32)
  {
    if op.TickOp? {
      TickKeepsAmps(s.control, op.energy, ViewOf(s.repo, op.order, op.replies.live), op.replies, 6, 32);
    } else if op.SetAmps? {
      ManualLogOnly(op.id, s.repo.Of(op.id), op.amps, op.replies);
    }
  }

  /** Over any run, every profile the control loop sends lies in 6..32 amperes. */
  lemma {:induction false} ProfilesWithin6And32(s: State, ops: seq<Op>)
    requires AmpsWithin(s.control, 6, 32)
    requires SafeDefaults(ops)
    ensures AmpsWithin(Run(s, ops).control, 6, 32)
  {
    if ops != [] {
      assert Last(ops) == ops[|ops| - 1];
      forall i | 0 <= i < |Front(ops)| ensures Front(ops)[i] == ops[i] {
      }
      ProfilesWithin6And32(s, Front(ops));
      ApplyKeepsAmps(Run(s, Front(ops)), Last(ops));
    }
  }

  /**
   A change of parameters keeps the bounds exactly when it is rejected, and then it changes nothing,
   or its default current is in range as well.
   */
  lemma UpdateKeepsBoundsIff(s: State, p: Params)
    requires AmpsWithin(s.control, 6, 32)
    ensures AmpsWithin(Apply(s, UpdateCharging(p)).control, 6, 32) <==> SafeUpdate(p)
    ensures p.minAmps < 6 || p.maxAmps > 32 || p.minAmps > p.maxAmps ==> Apply(s, UpdateCharging(p)) == s
  {
    if Acceptable(p) {
      assert Apply(s, UpdateCharging(p)).control.safeAmps == Int32(p.defaultAmps);
    }
  }

  lemma StaleSendsSafe(c: Control, e: Energy, v: View, replies: Replies, t: Target)
    requires c.calculator.gridVolt > 0
    requires c.enabled && e.stale && v.chargers.Some? && WellFormed(v)
    requires Visited(t, v.chargers.value, v.conns, {}) && Lookup(c.lastSet, t) != Some(c.safeAmps)
    ensures c.trace <= Tick(c, e, v, replies).trace
    ensures ProfileTo(t, c.safeAmps, replies) in Since(c.trace, Tick(c, e, v, replies).trace)
  {
    StaleSendIff(c, e, v, replies, ProfileTo(t, c.safeAmps, replies));
  }

  lemma StaleTickSends(s: State, order: seq<Charger>, e: Energy, replies: Replies, t: Target)
    requires s.control.calculator.gridVolt > 0 && s.control.enabled && e.stale
    requires RepoValid(s.repo) && Lists(order, s.repo.chargers)
    requires Visited(t, order, ViewOf(s.repo, order, replies.live).conns, {})
    requires Lookup(s.control.lastSet, t) != Some(s.control.safeAmps)
    ensures var s' := Apply(s, TickOp(order, e, replies));
            && s.control.trace <= s'.control.trace
            && ProfileTo(t, s.control.safeAmps, replies) in Since(s.control.trace, s'.control.trace)
  {
    ListingIsWellFormed(s.repo, order, replies.live);
    StaleSendsSafe(s.control, e, ViewOf(s.repo, order, replies.live), replies, t);
  }

  /**
   An accepted update with a default of 80 amperes, and the next stale tick sends 80 amperes to a
   drawing connector that has another limit.
   */
  lemma {:induction false} UnvalidatedDefault(s: State, order: seq<Charger>, e: Energy, replies: Replies, t: Target)
    requires AmpsWithin(s.control, 6, 32) && s.control.enabled && e.stale
    requires RepoValid(s.repo) && Lists(order, s.repo.chargers)
    requires Visited(t, order, ViewOf(s.repo, order, replies.live).conns, {})
             && Lookup(s.control.lastSet, t) != Some(80)
    ensures Acceptable(Params(6, 32, 80, 180))
    ensures var s1 := Apply(s, UpdateCharging(Params(6, 32, 80, 180)));
            var s2 := Apply(s1, TickOp(order, e, replies));
            && s1.control.trace <= s2.control.trace
            && ProfileTo(t, 80, replies) in Since(s1.control.trace, s2.control.trace)
  {
    var s1 := Apply(s, UpdateCharging(Params(6, 32, 80, 180)));
    assert s1 == State(s.repo, Updated(s.control, Params(6, 32, 80, 180))) && s1.control.safeAmps == 80;
    StaleTickSends(s1, order, e, replies, t);
  }

  /** Every profile the control loop sent lies in 6..32 amperes. */
  ghost predicate ProfilesInRange(trace: seq<Entry>) {
    forall x :: x in trace && x.Profile? ==> 6 <= x.amps <= 32
  }

  /** Whatever happens from here on, with default currents in range, no profile out of range is sent. */
  ghost predicate SafeFromHere(s: State)
    requires s.control.calculator.gridVolt > 0
  {
    forall ops :: ValidRun(s, ops) && SafeDefaults(ops) ==> ProfilesInRange(Run(s, ops).control.trace)
  }

  /** A repository's chargers can be listed. */
  lemma {:induction false} ListingOf(ids: set<string>, m: map<string, Charger>) returns (order: seq<Charger>)
    requires ids <= m.Keys && forall id :: id in m ==> m[id].id == id
    ensures DistinctIDs(order) && forall c :: c in order <==> c.id in ids && m[c.id] == c
    decreases ids
  {
    order := [];
    if ids != {} {
      var id :| id in ids;
      var rest := ListingOf(ids - {id}, m);
      order := rest + [m[id]];
      forall i, j | 0 <= i < j < |order| ensures order[i].id != order[j].id {
        assert rest[i] in rest;
      }
    }
  }

  lemma {:induction false} NumbersBelow(ts: set<Target>) returns (n: nat)
    ensures n > 0 && forall t :: t in ts ==> t.1 < n
    decreases ts
  {
    n := 1;
    if ts != {} {
      var t: Target :| t in ts;
      var m := NumbersBelow(ts - {t});
      n := if t.1 < m then m else t.1 + 1;
    }
  }

  /** A charger connects and reports a connector as charging. */
  function Newcomer(r: Repo, n: int): Repo {
    ApplyToRepo(ApplyToRepo(r, Connect("c")), ReportStatus(Connector("c", n, Charging, "", "")))
  }

  /** What the next stale tick then finds. */
  lemma NewcomerDraws(r: Repo, n: int, order: seq<Charger>)
    requires RepoValid(r)
    ensures RepoValid(Newcomer(r, n))
    ensures Lists(order, Newcomer(r, n).chargers) ==>
            Visited(("c", n), order, ViewOf(Newcomer(r, n), order, map[]).conns, {})
  {
    var r1, conn := ApplyToRepo(r, Connect("c")), Connector("c", n, Charging, "", "");
    var r' := Newcomer(r, n);
    ApplyKeepsRepo(r, Connect("c"));
    ApplyKeepsRepo(r1, ReportStatus(conn));
    UpsertedKeepsDistinct(r1.Of("c"), conn);
    if Lists(order, r'.chargers) {
      assert r'.chargers["c"] in order && r'.chargers["c"].online;
      assert conn in r'.Of("c");
      assert Draws(("c", n), r'.chargers["c"], ViewOf(r', order, map[]).conns, {});
    }
  }

  /** The loop is switched on, a charger arrives with a connector number nothing is cached for. */
  function Arrival(n: int): seq<Op> {
    [SetSmartCharging(true), Connect("c"), ReportStatus(Connector("c", n, Charging, "", ""))]
  }

  lemma SwitchOnEffect(s: State)
    requires s.control.calculator.gridVolt > 0
    ensures Apply(s, SetSmartCharging(true)) == State(s.repo, s.control.(enabled := true, overrides := {}))
  {
  }

  lemma ReportEffect(s: State, op: Op)
    requires s.control.calculator.gridVolt > 0 && (op.Connect? || op.ReportStatus?)
    ensures Apply(s, op) == State(ApplyToRepo(s.repo, op), s.control)
  {
  }

  lemma ArrivalIsSafe(n: int)
    ensures SafeDefaults(Arrival(n))
  {
  }

  lemma Arrives(s: State, n: int)
    requires s.control.calculator.gridVolt > 0
    ensures ValidRun(s, Arrival(n))
    ensures Run(s, Arrival(n)) == State(Newcomer(s.repo, n), s.control.(enabled := true, overrides := {}))
  {
    var a, b, d := SetSmartCharging(true), Connect("c"), ReportStatus(Connector("c", n, Charging, "", ""));
    RunThree(s, a, b, d);
    SwitchOnEffect(s);
    ReportEffect(Apply(s, a), b);
    ReportEffect(Apply(Apply(s, a), b), d);
  }

  /** From a safe current out of range a run leads to a profile out of range. */
  lemma {:induction false} UnsafeCurrentIsSent(s: State)
    requires s.control.calculator.gridVolt > 0 && RepoValid(s.repo)
    requires !(6 <= s.control.safeAmps <= 32)
    ensures !SafeFromHere(s)
  {
    var n := NumbersBelow(s.control.lastSet.Keys);
    var w := Run(s, Arrival(n));
    Arrives(s, n);
    var order := ListingOf(w.repo.chargers.Keys, w.repo.chargers);
    NewcomerDraws(s.repo, n, order);
    var e, replies := Energy(true, 0, 0, false, 0, false), Replies({}, map[], {});
    var tick := TickOp(order, e, replies);
    RunOneMore(s, Arrival(n), tick);
    StaleTickSends(w, order, e, replies, ("c", n));
    var ops := Arrival(n) + [tick];
    assert SafeDefaults(ops) by {
      ArrivalIsSafe(n);
    }
    assert ProfileTo(("c", n), s.control.safeAmps, replies) in Run(s, ops).control.trace;
    assert !ProfilesInRange(Run(s, ops).control.trace);
  }

  /**
   Exactly the updates that are rejected, or have their default current in range as well, leave it impossible that
   a profile out of 6..32 amperes is sent in any run from then on, however chargers, users and readings go on.
   */
  lemma {:induction false} UpdateIsSafeIff(s: State, p: Params)
    requires AmpsWithin(s.control, 6, 32) && RepoValid(s.repo)
    ensures SafeFromHere(Apply(s, UpdateCharging(p))) <==> SafeUpdate(p)
  {
    var s' := Apply(s, UpdateCharging(p));
    UpdateKeepsBoundsIff(s, p);
    if SafeUpdate(p) {
      forall ops | ValidRun(s', ops) && SafeDefaults(ops) ensures ProfilesInRange(Run(s', ops).control.trace) {
        ProfilesWithin6And32(s', ops);
      }
    } else {
      UnsafeCurrentIsSent(s');
    }
  }

  /**
   In every run a stale tick leaves the safe limit on record for every drawing connector of every
   online charger that accepts it, overridden or not, and all other records as they were.
   */
  lemma {:induction false} StaleTicksInEveryRun(s: State, ops: seq<Op>, op: Op)
    requires Initial(s) && ValidRun(s, ops)
    requires op.TickOp? && op.energy.stale && Enabled(Run(s, ops), op) && Run(s, ops).control.enabled
    ensures var w := Run(s, ops);
            var c, d, v := w.control, Apply(w, op).control, ViewOf(w.repo, op.order, op.replies.live);
            && d == c.(lastSet := d.lastSet, trace := d.trace)
            && forall t :: Lookup(d.lastSet, t) ==
                           if Visited(t, op.order, v.conns, {}) && t in op.replies.accepts then Some(c.safeAmps)
                           else Lookup(c.lastSet, t)
  {
    var w := Run(s, ops);
    RunKeepsRepo(s, ops);
    ListingIsWellFormed(w.repo, op.order, op.replies.live);
    StaleTickIsComplete(w.control, op.energy, ViewOf(w.repo, op.order, op.replies.live), op.replies);
  }

  // ---------------------------------------------------------------------------
  // The profile cache over runs
  // ---------------------------------------------------------------------------

  function RefApply(r: Reference, repo: Repo, op: Op): (r': Reference)
    requires r.calculator.gridVolt > 0
    ensures r'.calculator.gridVolt == r.calculator.gridVolt
  {
    match op
    case TickOp(order, e, replies) => RefTick(r, e, ViewOf(repo, order, replies.live), replies)
    case Disconnect(id) => r.(overrides := r.overrides - {id})
    case StopTransaction(id) => r.(overrides := r.overrides - {id})
    case UpdateCharging(p) =>
      if Acceptable(p) then
        r.(calculator := r.calculator.(limits := Limits(p.minAmps, p.maxAmps)), safeAmps := Int32(p.defaultAmps))
      else r
    case SetAmps(id, amps, replies) =>
      var log := ManualLog(id, repo.Of(id), amps, replies);
      r.(trace := r.trace + log, overrides := if AnyAccepted(log) then r.overrides + {id} else r.overrides)
    case SetMode(id, manual) => r.(overrides := if manual then r.overrides + {id} else r.overrides - {id})
    case SetSmartCharging(on) => r.(enabled := on, overrides := if on then {} else r.overrides)
    case SetSolarThreshold(w) => r.(gate := r.gate.(threshold := Int32(w)))
    case _ => r
  }

  function RefRun(r: Reference, s: State, ops: seq<Op>): (r': Reference)
    requires r.calculator.gridVolt > 0 && s.control.calculator.gridVolt > 0
    ensures r'.calculator.gridVolt == r.calculator.gridVolt
  {
    if ops == [] then r
    else RefApply(RefRun(r, s, Front(ops)), Run(s, Front(ops)).repo, Last(ops))
  }

  lemma StandingAfter(d: Device, x: Entry, t: Target)
    requires IsSend(x)
    ensures Lookup(Deliver(d, x).standing, t) == if x.accepted && t == TargetOf(x) then Some(x.amps)
            else Lookup(d.standing, t)
  {
  }

  /** What a limit set by hand leaves standing, connector by connector. */
  lemma {:induction false} ManualStanding(
    d: Device, id: string, conns: seq<Connector>, amps: int, replies: Replies, t: Target)
    ensures Lookup(InForce(d, ManualLog(id, conns, amps, replies)).standing, t)
         == if t.0 == id && t.1 != 0 && t.1 in ConnectorNumbers(conns) && t in replies.accepts then Some(amps)
            else Lookup(d.standing, t)
  {
    if conns != [] {
      var n, log := Last(conns).connectorID, ManualLog(id, Front(conns), amps, replies);
      ManualStanding(d, id, Front(conns), amps, replies, t);
      NumbersOfFront(conns);
      if n == 0 {
        assert log + [] == log;
      } else {
        InForceAppend(d, log, ManualProfileTo((id, n), amps, replies));
        StandingAfter(InForce(d, log), ManualProfileTo((id, n), amps, replies), t);
        assert t == (t.0, t.1);
      }
    }
  }

  lemma NumbersOfFront(conns: seq<Connector>)
    requires conns != []
    ensures ConnectorNumbers(conns) == ConnectorNumbers(Front(conns)) + {Last(conns).connectorID}
  {
    assert conns == Front(conns) + [Last(conns)];
  }

  /** No connector that takes the limit has another one cached. */
  predicate SafeByHand(c: Control, id: string, conns: seq<Connector>, amps: int, replies: Replies) {
    forall n :: n in ConnectorNumbers(conns) && n != 0 && (id, n) in replies.accepts && (id, n) in c.lastSet ==>
      c.lastSet[(id, n)] == amps
  }

  /** A limit set by hand goes past the cache: what is remembered stays in force exactly if it was the same limit. */
  lemma {:induction false} ManualKeepsCoherentIff(
    c: Control, d: Device, id: string, conns: seq<Connector>, amps: int, replies: Replies)
    requires Coherent(c, d)
    ensures Coherent(SetByHand(c, id, conns, amps, replies), InForce(d, ManualLog(id, conns, amps, replies)))
        <==> SafeByHand(c, id, conns, amps, replies)
  {
    var d' := InForce(d, ManualLog(id, conns, amps, replies));
    forall t ensures Lookup(d'.standing, t) ==
                     if t.0 == id && t.1 != 0 && t.1 in ConnectorNumbers(conns) && t in replies.accepts then Some(amps)
                     else Lookup(d.standing, t) {
      ManualStanding(d, id, conns, amps, replies, t);
    }
    if SafeByHand(c, id, conns, amps, replies) {
      forall t | t in c.lastSet ensures Lookup(d'.standing, t) == Some(c.lastSet[t]) {
        assert t == (t.0, t.1);
      }
    } else {
      var n :| n in ConnectorNumbers(conns) && n != 0 && (id, n) in replies.accepts && (id, n) in c.lastSet &&
               c.lastSet[(id, n)] != amps;
      assert Lookup(d'.standing, (id, n)) == Some(amps);
    }
  }

  /** Every limit set by hand in the run is safe when it is set. */
  ghost predicate SafeHands(s: State, ops: seq<Op>)
    requires s.control.calculator.gridVolt > 0
  {
    forall i :: 0 <= i < |ops| && ops[i].SetAmps? ==>
      SafeByHand(Run(s, ops[..i]).control, ops[i].id, Run(s, ops[..i]).repo.Of(ops[i].id), ops[i].amps, ops[i].replies)
  }

  lemma ApplyMatches(s: State, r: Reference, op: Op)
    requires s.control.calculator.gridVolt > 0 && Matches(s.control, r)
    ensures Matches(Apply(s, op).control, RefApply(r, s.repo, op))
    ensures s.control.trace <= Apply(s, op).control.trace && r.trace <= RefApply(r, s.repo, op).trace
  {
    if op.TickOp? {
      TickMatches(s.control, r, op.energy, ViewOf(s.repo, op.order, op.replies.live), op.replies);
    }
  }

  /** Unless a limit is set by hand over another one, an operation leaves the two agreed. */
  lemma ApplyAgrees(s: State, r: Reference, op: Op, d: Device, rd: Device)
    requires s.control.calculator.gridVolt > 0 && Agree(s.control, r, d, rd)
    requires op.SetAmps? ==> SafeByHand(s.control, op.id, s.repo.Of(op.id), op.amps, op.replies)
    ensures var c', r' := Apply(s, op).control, RefApply(r, s.repo, op);
            && s.control.trace <= c'.trace && r.trace <= r'.trace
            && Agree(c', r', InForce(d, Since(s.control.trace, c'.trace)), InForce(rd, Since(r.trace, r'.trace)))
  {
    if op.TickOp? {
      TickAgrees(s.control, r, op.energy, ViewOf(s.repo, op.order, op.replies.live), op.replies, d, rd);
    } else if op.SetAmps? {
      var conns := s.repo.Of(op.id);
      var log := ManualLog(op.id, conns, op.amps, op.replies);
      assert Since(s.control.trace, s.control.trace + log) == log == Since(r.trace, r.trace + log);
      ManualKeepsCoherentIff(s.control, d, op.id, conns, op.amps, op.replies);
      forall t ensures Lookup(InForce(d, log).standing, t) == Lookup(InForce(rd, log).standing, t) {
        ManualStanding(d, op.id, conns, op.amps, op.replies, t);
        ManualStanding(rd, op.id, conns, op.amps, op.replies, t);
      }
      SameLookups(InForce(d, log).standing, InForce(rd, log).standing);
    }
  }

  /**
   Over any run in which no limit is set by hand over a different cached one, the standing limit of
   every connector is the one a controller without the cache would have left, sending on every tick to the
   same connectors with the same answers.
   */
  lemma {:induction false} CacheRefinesAlwaysSending(s: State, r: Reference, ops: seq<Op>, d: Device, rd: Device)
    requires s.control.calculator.gridVolt > 0 && Agree(s.control, r, d, rd)
    requires SafeHands(s, ops)
    ensures var c', r' := Run(s, ops).control, RefRun(r, s, ops);
            && s.control.trace <= c'.trace && r.trace <= r'.trace
            && Agree(c', r', InForce(d, Since(s.control.trace, c'.trace)), InForce(rd, Since(r.trace, r'.trace)))
  {
    if ops != [] {
      var past, n := Front(ops), |ops| - 1;
      forall i | 0 <= i < |past| ensures past[i] == ops[i] && past[..i] == ops[..i] {
      }
      CacheRefinesAlwaysSending(s, r, past, d, rd);
      var s1, r1 := Run(s, past), RefRun(r, s, past);
      assert ops[..n] == past && ops[n] == Last(ops);
      ApplyAgrees(s1, r1, Last(ops), InForce(d, Since(s.control.trace, s1.control.trace)),
                  InForce(rd, Since(r.trace, r1.trace)));
      InForceLonger(d, s.control.trace, s1.control.trace, Run(s, ops).control.trace);
      InForceLonger(rd, r.trace, r1.trace, RefRun(r, s, ops).trace);
    }
  }

  /** A limit set by hand: the limits in force change, what is remembered does not. */
  lemma SetAmpsGoesPastTheCache(c: Control, id: string, conns: seq<Connector>, amps: int, replies: Replies, d: Device)
    ensures var c' := SetByHand(c, id, conns, amps, replies);
            && c'.lastSet == c.lastSet
            && c.trace <= c'.trace
            && forall n: int :: n != 0 && n in ConnectorNumbers(conns) && (id, n) in replies.accepts ==>
                 Lookup(InForce(d, Since(c.trace, c'.trace)).standing, (id, n)) == Some(amps)
  {
    var log := ManualLog(id, conns, amps, replies);
    assert Since(c.trace, c.trace + log) == log;
    forall n: int | n != 0 && n in ConnectorNumbers(conns) && (id, n) in replies.accepts
      ensures Lookup(InForce(d, log).standing, (id, n)) == Some(amps)
    {
      ManualStanding(d, id, conns, amps, replies, (id, n));
    }
  }
}
