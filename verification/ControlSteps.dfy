/**
 One tick of the control loop: which connectors it visits, what it leaves alone, what a
 stale tick does and what it does not do to overridden chargers.
 */
module ControlSteps {
  import opened Options
  import opened Sequences
  import opened Ports
  import opened Trace
  import opened SmartCharging
  import SolarGate
  import SolarGateRuns
  import CalculatorLimits
  import opened Control
  import opened Commanding
  import opened Devices

  // ---------------------------------------------------------------------------
  // The connectors visited
  // ---------------------------------------------------------------------------

  /** An online charger outside `skip` with this connector charging, or suspended by the charger. */
  ghost predicate Visited(t: Target, chargers: seq<Charger>, conns: map<string, seq<Connector>>, skip: set<string>) {
    exists ch :: ch in chargers && Draws(t, ch, conns, skip)
  }

  ghost predicate Draws(t: Target, ch: Charger, conns: map<string, seq<Connector>>, skip: set<string>) {
    && ch.online && ch.id == t.0 && ch.id !in skip && ch.id in conns
    && exists k :: k in conns[ch.id] && k.connectorID == t.1 && (k.status == Charging || k.status == SuspendedEVSE)
  }

  lemma {:induction false} DrawingMembers(id: string, conns: seq<Connector>, t: Target)
    ensures t in DrawingConnectors(id, conns)
        <==> t.0 == id && exists k :: k in conns && k.connectorID == t.1 && IsDrawing(k.status)
  {
    if conns != [] {
      DrawingMembers(id, Front(conns), t);
      assert conns == Front(conns) + [Last(conns)];
    }
  }

  /** A pass visits exactly the drawing connectors of the online chargers it does not skip. */
  lemma {:induction false} TargetsAreTheVisited(
    chargers: seq<Charger>, conns: map<string, seq<Connector>>, skip: set<string>, t: Target)
    ensures t in Targets(chargers, conns, skip) <==> Visited(t, chargers, conns, skip)
  {
    if chargers != [] {
      var ch := Last(chargers);
      TargetsAreTheVisited(Front(chargers), conns, skip, t);
      assert chargers == Front(chargers) + [ch];
      if ch.id in conns {
        DrawingMembers(ch.id, conns[ch.id], t);
      }
      assert t in TargetsOf(ch, conns, skip) <==> Draws(t, ch, conns, skip);
    }
  }

  lemma {:induction false} DrawingDistinct(id: string, conns: seq<Connector>)
    requires DistinctConnectors(conns)
    ensures Distinct(DrawingConnectors(id, conns))
  {
    if conns != [] {
      DrawingDistinct(id, Front(conns));
      DrawingMembers(id, Front(conns), (id, Last(conns).connectorID));
      assert forall k :: k in Front(conns) ==> k.connectorID != Last(conns).connectorID;
    }
  }

  lemma DistinctJoin(a: seq<Target>, b: seq<Target>)
    requires Distinct(a) && Distinct(b)
    requires forall t :: t in a ==> t !in b
    ensures Distinct(a + b)
  {
    forall i, j | 0 <= i < j < |a + b| ensures (a + b)[i] != (a + b)[j] {
      if i < |a| <= j {
        assert a[i] in a && b[j - |a|] in b;
      }
    }
  }

  /** No connector is visited twice in one pass. */
  lemma {:induction false} TargetsDistinct(
    chargers: seq<Charger>, conns: map<string, seq<Connector>>, skip: set<string>)
    requires DistinctIDs(chargers)
    requires forall id :: id in conns ==> DistinctConnectors(conns[id])
    ensures Distinct(Targets(chargers, conns, skip))
  {
    if chargers != [] {
      var ch := Last(chargers);
      var done, now := Targets(Front(chargers), conns, skip), TargetsOf(ch, conns, skip);
      TargetsDistinct(Front(chargers), conns, skip);
      if ch.id in conns {
        DrawingDistinct(ch.id, conns[ch.id]);
      }
      forall t | t in done ensures t !in now {
        TargetsAreTheVisited(Front(chargers), conns, skip, t);
        if ch.id in conns {
          DrawingMembers(ch.id, conns[ch.id], t);
        }
        var d :| d in Front(chargers) && Draws(t, d, conns, skip);
        assert d.id != ch.id;
      }
      DistinctJoin(done, now);
    }
  }

  // ---------------------------------------------------------------------------
  // Frames
  // ---------------------------------------------------------------------------

  /** Everything a pass over connectors never changes. */
  ghost predicate SameSettings(c: Control, d: Control) {
    && d.enabled == c.enabled && d.safeAmps == c.safeAmps && d.gate == c.gate && d.overrides == c.overrides
    && d.calculator.limits == c.calculator.limits && d.calculator.gridVolt == c.calculator.gridVolt
    && c.trace <= d.trace
  }

  predicate AmongCalls(ts: seq<Target>, id: string) {
    exists i :: 0 <= i < |ts| && ts[i].0 == id
  }

  /** What is remembered of one charger is unchanged. */
  ghost predicate SameFor(c: Control, d: Control, id: string) {
    && Lookup(d.calculator.mem, id) == Lookup(c.calculator.mem, id)
    && (forall n: int :: Lookup(d.lastSet, (id, n)) == Lookup(c.lastSet, (id, n)))
    && (forall n: int :: Lookup(d.lastStop, (id, n)) == Lookup(c.lastStop, (id, n)))
  }

  predicate IsSendTo(x: Entry, id: string) {
    x.id == id && (x.Profile? || x.Notified?)
  }

  lemma NotifyFrame(c: Control, t: Target, r: Request)
    ensures var d := NotifyIfFlipped(c, t, r);
            && d == c.(lastStop := d.lastStop, trace := d.trace)
            && (forall u :: u != t ==> Lookup(d.lastStop, u) == Lookup(c.lastStop, u))
            && c.trace <= d.trace
            && (forall x :: x in Since(c.trace, d.trace) ==> IsSendTo(x, t.0))
  {
  }

  lemma SendFrame(c: Control, t: Target, amps: int, replies: Replies)
    ensures var d := SendIfChanged(c, t, amps, replies);
            && d == c.(lastSet := d.lastSet, trace := d.trace)
            && (forall u :: u != t ==> Lookup(d.lastSet, u) == Lookup(c.lastSet, u))
            && c.trace <= d.trace
            && (forall x :: x in Since(c.trace, d.trace) ==> IsSendTo(x, t.0))
  {
  }

  lemma TargetFrame(c: Control, t: Target, s: Sample, replies: Replies)
    requires c.calculator.gridVolt > 0
    ensures var d := ProcessTarget(c, t, s, replies);
            && SameSettings(c, d)
            && (forall id :: id != t.0 ==> SameFor(c, d, id))
            && (forall x :: x in Since(c.trace, d.trace) ==> IsSendTo(x, t.0))
  {
    var r := c.calculator.Asked(t.0, s);
    var c0 := c.(calculator := c.calculator.Computed(t.0, s));
    var c1 := NotifyIfFlipped(c0, t, r);
    NotifyFrame(c0, t, r);
    SendFrame(c1, t, Wanted(c, r), replies);
    SinceTwice(c.trace, c1.trace, ProcessTarget(c, t, s, replies).trace);
  }

  lemma AmongFront(ts: seq<Target>, id: string)
    requires ts != []
    ensures AmongCalls(ts, id) <==> AmongCalls(Front(ts), id) || Last(ts).0 == id
  {
    if AmongCalls(Front(ts), id) {
      var i :| 0 <= i < |Front(ts)| && Front(ts)[i].0 == id;
      assert ts[i].0 == id;
    }
    if AmongCalls(ts, id) {
      var i :| 0 <= i < |ts| && ts[i].0 == id;
      assert i < |ts| - 1 ==> Front(ts)[i].0 == id;
    }
    assert ts[|ts| - 1] == Last(ts);
  }

  /** A pass changes only chargers it visits, and only sends profiles and notices to them. */
  lemma {:induction false} ProcessFrame(c: Control, ts: seq<Target>, s: Sample, replies: Replies)
    requires c.calculator.gridVolt > 0
    ensures var d := ProcessTargets(c, ts, s, replies);
            && SameSettings(c, d)
            && (forall id :: !AmongCalls(ts, id) ==> SameFor(c, d, id))
            && (forall x :: x in Since(c.trace, d.trace) ==> IsSendTo(x, x.id) && AmongCalls(ts, x.id))
  {
    if ts != [] {
      ProcessFrame(c, Front(ts), s, replies);
      var d := ProcessTargets(c, Front(ts), s, replies);
      var d' := ProcessTarget(d, Last(ts), s, replies);
      TargetFrame(d, Last(ts), s, replies);
      forall id | !AmongCalls(ts, id) ensures SameFor(c, d', id) {
        AmongFront(ts, id);
        assert SameFor(c, d, id) && SameFor(d, d', id);
      }
      SinceTwice(c.trace, d.trace, d'.trace);
      forall x | x in Since(c.trace, d'.trace) ensures IsSendTo(x, x.id) && AmongCalls(ts, x.id) {
        AmongFront(ts, x.id);
      }
    }
  }

  lemma {:induction false} RevertFrame(c: Control, ts: seq<Target>, replies: Replies)
    ensures var d := RevertTargets(c, ts, replies);
            d == c.(lastSet := d.lastSet, trace := d.trace) && c.trace <= d.trace
  {
    if ts != [] {
      RevertFrame(c, Front(ts), replies);
    }
  }

  // ---------------------------------------------------------------------------
  // Overridden chargers
  // ---------------------------------------------------------------------------

  /**
   A tick with fresh data sends an overridden charger no profile, no notice and no gate stop, and
   leaves what is remembered of it alone. (A charger overridden after the gate stopped it can still be restarted.)
   */
  lemma {:induction false} OverrideIsolation(c: Control, e: Energy, v: View, replies: Replies, id: string)
    requires c.calculator.gridVolt > 0
    requires !e.stale && id in c.overrides
    ensures var d := Tick(c, e, v, replies);
            && SameFor(c, d, id)
            && c.trace <= d.trace
            && (forall x :: x in Since(c.trace, d.trace) && x.id == id ==>
                  x.GateForgot? || x.GateResumed? || x.RemoteStart?)
            && (id in d.gate.stopped ==> id in c.gate.stopped)
  {
    if c.enabled && v.chargers.Some? {
      var chargers := v.chargers.value;
      var o := SolarGate.Evaluate(c.gate, chargers, c.overrides, e, v);
      var c1 := PassGate(c, e, v);
      GateLeavesOverridden(c.gate, chargers, c.overrides, e, v, id);
      assert Since(c.trace, c1.trace) == o.log;
      if !o.hold {
        var ts := Targets(chargers, v.conns, c.overrides);
        ProcessFrame(c1, ts, SampleOf(e), replies);
        if AmongCalls(ts, id) {
          var i :| 0 <= i < |ts| && ts[i].0 == id;
          TargetsAreTheVisited(chargers, v.conns, c.overrides, ts[i]);
        }
        var d := ProcessTargets(c1, ts, SampleOf(e), replies);
        assert SameFor(c1, d, id);
        SinceTwice(c.trace, c1.trace, d.trace);
      }
    }
  }

  lemma SinceTwice(a: seq<Entry>, b: seq<Entry>, c: seq<Entry>)
    requires a <= b <= c
    ensures Since(a, c) == Since(a, b) + Since(b, c)
  {
  }

  lemma GateLeavesOverridden(
    g: SolarGate.Gate, chargers: seq<Charger>, overrides: set<string>, e: Energy, v: View, id: string)
    requires id in overrides
    ensures var o := SolarGate.Evaluate(g, chargers, overrides, e, v);
            && (forall x :: x in o.log && x.id == id ==> x.GateForgot? || x.GateResumed? || x.RemoteStart?)
            && (id in o.gate.stopped ==> id in g.stopped)
  {
    var f := SolarGate.ForgetOffline(SolarGate.Burst(g.stopped, []), chargers);
    var b := SolarGate.Burst(f.stopped, []);
    SolarGateRuns.ForgetOfflineEffect(SolarGate.Burst(g.stopped, []), chargers);
    SolarGate.ForgetOfflineOnlyForgets(SolarGate.Burst(g.stopped, []), chargers);
    SolarGateRuns.StopBurstEffect(b, chargers, overrides, v);
    SolarGateRuns.StopBurstTells(b, chargers, overrides, v);
    SolarGateRuns.StartBurstTells(b, chargers, v);
    assert id !in SolarGateRuns.Stoppable(chargers, overrides);
  }

  // ---------------------------------------------------------------------------
  // What a tick's solar reading comes to
  // ---------------------------------------------------------------------------

  /** The tick compares a solar reading with a threshold. */
  predicate Compares(c: Control, e: Energy) {
    c.enabled && !e.stale && c.gate.threshold > 0 && e.solarFresh
  }

  predicate Dark(c: Control, e: Energy) {
    Compares(c, e) && e.solarW < c.gate.threshold
  }

  predicate Bright(c: Control, e: Energy) {
    Compares(c, e) && e.solarW >= c.gate.threshold
  }

  /** The tick finds the gate switched off. */
  predicate FindsGateOff(c: Control, e: Energy) {
    c.enabled && !e.stale && c.gate.threshold <= 0
  }

  // ---------------------------------------------------------------------------
  // Stale data
  // ---------------------------------------------------------------------------

  /** The sends of a revert: one for each connector whose last accepted limit is another one. */
  function RevertLog(lastSet: map<Target, int>, ts: seq<Target>, amps: int, replies: Replies): seq<Entry> {
    if ts == [] then []
    else
      var t := Last(ts);
      RevertLog(lastSet, Front(ts), amps, replies) +
      if Lookup(lastSet, t) == Some(amps) then [] else [ProfileTo(t, amps, replies)]
  }

  lemma {:induction false} RevertEffect(c: Control, ts: seq<Target>, replies: Replies)
    requires Distinct(ts)
    ensures var d := RevertTargets(c, ts, replies);
            && d.safeAmps == c.safeAmps
            && d.trace == c.trace + RevertLog(c.lastSet, ts, c.safeAmps, replies)
            && forall t :: Lookup(d.lastSet, t) ==
                           if t in ts && t in replies.accepts then Some(c.safeAmps) else Lookup(c.lastSet, t)
  {
    if ts != [] {
      var t := Last(ts);
      RevertEffect(c, Front(ts), replies);
      assert ts == Front(ts) + [t];
      assert t !in Front(ts);
    }
  }

  /**
   A stale tick: every drawing connector of every online charger, overridden or not, then has the
   safe limit on record if it accepts one, each gets at most one send, and nothing else changes.
   */
  lemma {:induction false} StaleTickIsComplete(c: Control, e: Energy, v: View, replies: Replies)
    requires c.calculator.gridVolt > 0
    requires c.enabled && e.stale && v.chargers.Some? && WellFormed(v)
    ensures var d := Tick(c, e, v, replies);
            var ts := Targets(v.chargers.value, v.conns, {});
            && d == c.(lastSet := d.lastSet, trace := c.trace + RevertLog(c.lastSet, ts, c.safeAmps, replies))
            && Distinct(ts)
            && (forall t :: Visited(t, v.chargers.value, v.conns, {}) && t in replies.accepts ==>
                  Lookup(d.lastSet, t) == Some(c.safeAmps))
            && (forall t :: !(Visited(t, v.chargers.value, v.conns, {}) && t in replies.accepts) ==>
                  Lookup(d.lastSet, t) == Lookup(c.lastSet, t))
  {
    var ts := Targets(v.chargers.value, v.conns, {});
    TargetsDistinct(v.chargers.value, v.conns, {});
    RevertFrame(c, ts, replies);
    RevertEffect(c, ts, replies);
    forall t: Target ensures t in ts <==> Visited(t, v.chargers.value, v.conns, {}) {
      TargetsAreTheVisited(v.chargers.value, v.conns, {}, t);
    }
  }

  lemma {:induction false} RevertLogExactly(
    lastSet: map<Target, int>, ts: seq<Target>, amps: int, replies: Replies, x: Entry)
    ensures x in RevertLog(lastSet, ts, amps, replies)
        <==> x.Profile? && (x.id, x.connector) in ts && Lookup(lastSet, (x.id, x.connector)) != Some(amps)
             && x == ProfileTo((x.id, x.connector), amps, replies)
  {
    if ts != [] {
      RevertLogExactly(lastSet, Front(ts), amps, replies, x);
      assert ts == Front(ts) + [Last(ts)];
    }
  }

  /**
   The entries of a stale tick: the safe limit, to exactly the drawing connectors of online chargers
   not known to have it.
   */
  lemma {:induction false} StaleSendIff(c: Control, e: Energy, v: View, replies: Replies, x: Entry)
    requires c.calculator.gridVolt > 0
    requires c.enabled && e.stale && v.chargers.Some? && WellFormed(v)
    ensures c.trace <= Tick(c, e, v, replies).trace
    ensures x in Since(c.trace, Tick(c, e, v, replies).trace)
        <==> x.Profile? && Visited((x.id, x.connector), v.chargers.value, v.conns, {})
             && Lookup(c.lastSet, (x.id, x.connector)) != Some(c.safeAmps)
             && x == ProfileTo((x.id, x.connector), c.safeAmps, replies)
  {
    var ts := Targets(v.chargers.value, v.conns, {});
    StaleTickIsComplete(c, e, v, replies);
    if x.Profile? {
      TargetsAreTheVisited(v.chargers.value, v.conns, {}, (x.id, x.connector));
    }
    RevertLogExactly(c.lastSet, ts, c.safeAmps, replies, x);
    assert Since(c.trace, Tick(c, e, v, replies).trace) == RevertLog(c.lastSet, ts, c.safeAmps, replies);
  }

  /** What a log makes the commander send are the profiles of its entries. */
  lemma {:induction false} SentOfExactly(log: seq<Entry>, p: Sent)
    ensures p in SentOf(log) <==> exists x :: x in log && p in ProfilesOf(x)
  {
    if log != [] {
      SentOfExactly(Front(log), p);
      assert log == Front(log) + [Last(log)];
      if p in ProfilesOf(Last(log)) {
        assert Last(log) in log;
      }
    }
  }

  function DefaultProfile(t: Target, amps: int): Sent {
    Sent(t.0, t.1, ChargingProfile(TxDefaultProfile, amps, None))
  }

  function LiveProfile(t: Target, amps: int, tx: int): Sent {
    Sent(t.0, t.1, ChargingProfile(TxProfile, amps, Some(tx)))
  }

  lemma {:induction false} DefaultSent(log: seq<Entry>, safe: int, replies: Replies, t: Target, amps: int)
    requires forall x :: x in log ==> x.Profile? && x == ProfileTo((x.id, x.connector), safe, replies)
    ensures DefaultProfile(t, amps) in SentOf(log) <==> amps == safe && ProfileTo(t, safe, replies) in log
  {
    SentOfExactly(log, DefaultProfile(t, amps));
    if amps == safe && ProfileTo(t, safe, replies) in log {
      assert DefaultProfile(t, amps) == ProfilesOf(ProfileTo(t, safe, replies))[0];
    }
  }

  lemma {:induction false} LiveSent(log: seq<Entry>, safe: int, replies: Replies, t: Target, amps: int, tx: int)
    requires forall x :: x in log ==> x.Profile? && x == ProfileTo((x.id, x.connector), safe, replies)
    ensures LiveProfile(t, amps, tx) in SentOf(log) <==>
              && amps == safe && ProfileTo(t, safe, replies) in log
              && t in replies.accepts && t.1 > 0 && Lookup(replies.live, t) == Some(tx)
  {
    SentOfExactly(log, LiveProfile(t, amps, tx));
    var ps := ProfilesOf(ProfileTo(t, safe, replies));
    if amps == safe && t in replies.accepts && t.1 > 0 && Lookup(replies.live, t) == Some(tx) {
      assert ps[1] == LiveProfile(t, amps, tx);
    }
  }

  /**
   At the commander: a stale tick sends a connector a default profile exactly when it charges, or is suspended by the
   charger, on an online charger and is not known to have the safe limit, and then of that limit; and with it the same
   limit for its transaction, if it accepts the default, has a number and a transaction is known.
   */
  lemma {:induction false} StaleTickSendsIff(c: Control, e: Energy, v: View, replies: Replies, t: Target, amps: int)
    requires c.calculator.gridVolt > 0
    requires c.enabled && e.stale && v.chargers.Some? && WellFormed(v)
    ensures c.trace <= Tick(c, e, v, replies).trace
    ensures var sent := SentOf(Since(c.trace, Tick(c, e, v, replies).trace));
            && (DefaultProfile(t, amps) in sent <==>
                  && Visited(t, v.chargers.value, v.conns, {}) && amps == c.safeAmps
                  && Lookup(c.lastSet, t) != Some(c.safeAmps))
            && forall tx: int ::
                 LiveProfile(t, amps, tx) in sent <==>
                   && DefaultProfile(t, amps) in sent
                   && t in replies.accepts && t.1 > 0 && Lookup(replies.live, t) == Some(tx)
  {
    StaleSendIff(c, e, v, replies, ProfileTo(t, c.safeAmps, replies));
    var log := Since(c.trace, Tick(c, e, v, replies).trace);
    forall x | x in log ensures x.Profile? && x == ProfileTo((x.id, x.connector), c.safeAmps, replies) {
      StaleSendIff(c, e, v, replies, x);
    }
    DefaultSent(log, c.safeAmps, replies, t, amps);
    forall tx: int
      ensures LiveProfile(t, amps, tx) in SentOf(log) <==>
                && amps == c.safeAmps && ProfileTo(t, c.safeAmps, replies) in log
                && t in replies.accepts && t.1 > 0 && Lookup(replies.live, t) == Some(tx)
    {
      LiveSent(log, c.safeAmps, replies, t, amps, tx);
    }
  }

  /** The connectors a log sent a profile to, or only those that refused it. */
  function SentTo(log: seq<Entry>, refusedOnly: bool): seq<Target> {
    if log == [] then []
    else
      var x := Last(log);
      SentTo(Front(log), refusedOnly) +
      if x.Profile? && (refusedOnly ==> !x.accepted) then [(x.id, x.connector)] else []
  }

  lemma {:induction false} SentToSplit(a: seq<Entry>, b: seq<Entry>, r: bool)
    ensures SentTo(a + b, r) == SentTo(a, r) + SentTo(b, r)
  {
    if b == [] {
      assert a + b == a;
    } else {
      SentToSplit(a, Front(b), r);
      assert Front(a + b) == a + Front(b);
    }
  }

  lemma {:induction false} RepeatSendsTheRefused(
    before: map<Target, int>, after: map<Target, int>, ts: seq<Target>, amps: int, first: Replies, second: Replies)
    requires forall t :: t in ts ==> Lookup(after, t) == if t in first.accepts then Some(amps) else Lookup(before, t)
    ensures SentTo(RevertLog(after, ts, amps, second), false) == SentTo(RevertLog(before, ts, amps, first), true)
  {
    if ts != [] {
      var t := Last(ts);
      var log1, log2 := RevertLog(before, Front(ts), amps, first), RevertLog(after, Front(ts), amps, second);
      RepeatSendsTheRefused(before, after, Front(ts), amps, first, second);
      var one, two := [ProfileTo(t, amps, first)], [ProfileTo(t, amps, second)];
      assert Front(one) == [] && Front(two) == [];
      if Lookup(before, t) == Some(amps) {
        assert log1 + [] == log1 && log2 + [] == log2;
      } else {
        SentToSplit(log1, one, true);
        if t in first.accepts {
          assert log2 + [] == log2;
          assert SentTo(log1, true) + [] == SentTo(log1, true);
        } else {
          SentToSplit(log2, two, false);
        }
      }
    }
  }

  /** A stale tick repeated at once tries again exactly the sends that were refused. */
  lemma {:induction false} StaleTickRepeated(c: Control, e: Energy, v: View, first: Replies, second: Replies)
    requires c.calculator.gridVolt > 0
    requires c.enabled && e.stale && v.chargers.Some? && WellFormed(v)
    ensures var d := Tick(c, e, v, first);
            var d' := Tick(d, e, v, second);
            && c.trace <= d.trace <= d'.trace
            && SentTo(Since(d.trace, d'.trace), false) == SentTo(Since(c.trace, d.trace), true)
  {
    var ts := Targets(v.chargers.value, v.conns, {});
    TargetsDistinct(v.chargers.value, v.conns, {});
    var d := Tick(c, e, v, first);
    RevertFrame(c, ts, first);
    RevertEffect(c, ts, first);
    RevertEffect(d, ts, second);
    RepeatSendsTheRefused(c.lastSet, d.lastSet, ts, c.safeAmps, first, second);
    assert Since(c.trace, d.trace) == RevertLog(c.lastSet, ts, c.safeAmps, first);
    var d' := Tick(d, e, v, second);
    assert Since(d.trace, d'.trace) == RevertLog(d.lastSet, ts, c.safeAmps, second);
  }

  // ---------------------------------------------------------------------------
  // Amp bounds
  // ---------------------------------------------------------------------------

  /** Limits, safe current, remembered limits and every profile sent lie in lo..hi. */
  ghost predicate AmpsWithin(c: Control, lo: int, hi: int) {
    && c.calculator.gridVolt > 0
    && lo <= c.calculator.limits.minAmps <= c.calculator.limits.maxAmps <= hi
    && lo <= c.safeAmps <= hi
    && CalculatorLimits.Remembers(c.calculator, lo, hi)
    && forall x :: x in c.trace && x.Profile? ==> lo <= x.amps <= hi
  }

  lemma {:induction false} ProcessKeepsAmps(
    c: Control, ts: seq<Target>, s: Sample, replies: Replies, lo: int, hi: int)
    requires AmpsWithin(c, lo, hi)
    ensures AmpsWithin(ProcessTargets(c, ts, s, replies), lo, hi)
  {
    if ts != [] {
      ProcessKeepsAmps(c, Front(ts), s, replies, lo, hi);
      CalculatorLimits.BoundsKept(ProcessTargets(c, Front(ts), s, replies).calculator, Last(ts).0, s, lo, hi);
    }
  }

  lemma {:induction false} RevertKeepsAmps(c: Control, ts: seq<Target>, replies: Replies, lo: int, hi: int)
    requires AmpsWithin(c, lo, hi)
    ensures AmpsWithin(RevertTargets(c, ts, replies), lo, hi)
  {
    if ts != [] {
      RevertKeepsAmps(c, Front(ts), replies, lo, hi);
    }
  }

  lemma TickKeepsAmps(c: Control, e: Energy, v: View, replies: Replies, lo: int, hi: int)
    requires AmpsWithin(c, lo, hi)
    ensures AmpsWithin(Tick(c, e, v, replies), lo, hi)
  {
    if c.enabled && v.chargers.Some? {
      var chargers := v.chargers.value;
      if e.stale {
        RevertKeepsAmps(c, Targets(chargers, v.conns, {}), replies, lo, hi);
      } else {
        SolarGateRuns.GateSendsNoProfile(c.gate, chargers, c.overrides, e, v);
        var c1 := PassGate(c, e, v);
        assert AmpsWithin(c1, lo, hi);
        ProcessKeepsAmps(c1, Targets(chargers, v.conns, c1.overrides), SampleOf(e), replies, lo, hi);
      }
    }
  }
}
