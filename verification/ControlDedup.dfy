/**
 The cache of last accepted limits against a controller without one. `Reference` sends a profile
 to every visited connector on every tick. The two leave the same standing limits as long as what
 is cached is in force, and the same limits of live transactions exactly when no skipped send
 would have changed anything.
 */
module ControlDedup {
  import opened Options
  import opened Sequences
  import opened Ports
  import opened Trace
  import opened SmartCharging
  import SolarGate
  import SolarGateRuns
  import opened Devices
  import opened Control
  import opened ControlSteps

  /** `trace` holds the sends alone. */
  datatype Reference = Reference(
    enabled: bool,
    safeAmps: int,
    gate: SolarGate.Gate,
    overrides: set<string>,
    calculator: Calc,
    trace: seq<Entry>)

  function RefSend(r: Reference, t: Target, amps: int, replies: Replies): Reference {
    r.(trace := r.trace + [ProfileTo(t, amps, replies)])
  }

  function RefTarget(r: Reference, t: Target, s: Sample, replies: Replies): Reference
    requires r.calculator.gridVolt > 0
  {
    var ask := r.calculator.Asked(t.0, s);
    RefSend(r.(calculator := r.calculator.Computed(t.0, s)), t,
            if ask.shouldStop then r.safeAmps else ask.limitAmps, replies)
  }

  function RefTargets(r: Reference, ts: seq<Target>, s: Sample, replies: Replies): (r': Reference)
    requires r.calculator.gridVolt > 0
    ensures r'.calculator.gridVolt == r.calculator.gridVolt
  {
    if ts == [] then r else RefTarget(RefTargets(r, Front(ts), s, replies), Last(ts), s, replies)
  }

  function RefRevert(r: Reference, ts: seq<Target>, replies: Replies): (r': Reference)
    ensures r'.calculator == r.calculator
  {
    if ts == [] then r
    else
      var r1 := RefRevert(r, Front(ts), replies);
      RefSend(r1, Last(ts), r1.safeAmps, replies)
  }

  function RefTick(r: Reference, e: Energy, v: View, replies: Replies): (r': Reference)
    requires r.calculator.gridVolt > 0
    ensures r'.calculator.gridVolt == r.calculator.gridVolt
  {
    if !r.enabled || v.chargers.None? then r
    else if e.stale then RefRevert(r, Targets(v.chargers.value, v.conns, {}), replies)
    else
      var o := SolarGate.Evaluate(r.gate, v.chargers.value, r.overrides, e, v);
      var r1 := r.(gate := o.gate);
      if o.hold then r1 else RefTargets(r1, Targets(v.chargers.value, v.conns, r.overrides), SampleOf(e), replies)
  }

  /** The two controllers are in the same state but for caches and traces. */
  ghost predicate Matches(c: Control, r: Reference) {
    r == Reference(c.enabled, c.safeAmps, c.gate, c.overrides, c.calculator, r.trace)
  }

  // ---------------------------------------------------------------------------
  // One send
  // ---------------------------------------------------------------------------

  /** The last accepted limit of the connector is the one to be sent. */
  predicate Cached(c: Control, x: Entry)
    requires IsSend(x)
  {
    Lookup(c.lastSet, TargetOf(x)) == Some(x.amps)
  }

  /** From c to c' the send x was made or skipped, and nothing else that matters to a device. */
  ghost predicate Sends(c: Control, c': Control, x: Entry, d: Device)
    requires IsSend(x)
  {
    && c.trace <= c'.trace
    && InForce(d, Since(c.trace, c'.trace)) == (if Cached(c, x) then d else Deliver(d, x))
    && c'.lastSet == (if x.accepted then c.lastSet[TargetOf(x) := x.amps] else c.lastSet)
  }

  lemma SendSends(c: Control, t: Target, amps: int, replies: Replies, d: Device)
    ensures Sends(c, SendIfChanged(c, t, amps, replies), ProfileTo(t, amps, replies), d)
  {
    var x, c' := ProfileTo(t, amps, replies), SendIfChanged(c, t, amps, replies);
    if Cached(c, x) {
      assert Since(c.trace, c'.trace) == [];
      assert c.lastSet[t := amps] == c.lastSet;
    } else {
      assert Since(c.trace, c'.trace) == [x];
      InForceOne(d, x);
    }
  }

  lemma NotifySends(c: Control, t: Target, r: Request, d: Device)
    ensures var c' := NotifyIfFlipped(c, t, r);
            && c' == c.(lastStop := c'.lastStop, trace := c'.trace)
            && c.trace <= c'.trace
            && InForce(d, Since(c.trace, c'.trace)) == d
  {
    InForceQuiet(d, Since(c.trace, NotifyIfFlipped(c, t, r).trace));
  }

  lemma InForceLonger(d: Device, a: seq<Entry>, b: seq<Entry>, c: seq<Entry>)
    requires a <= b <= c
    ensures InForce(d, Since(a, c)) == InForce(InForce(d, Since(a, b)), Since(b, c))
  {
    SinceTwice(a, b, c);
    InForceSplit(d, Since(a, b), Since(b, c));
  }

  lemma QuietThenSends(c: Control, c1: Control, c': Control, x: Entry, d: Device)
    requires c.trace <= c1.trace && InForce(d, Since(c.trace, c1.trace)) == d && c1.lastSet == c.lastSet
    requires IsSend(x) && Sends(c1, c', x, d)
    ensures Sends(c, c', x, d)
  {
    InForceLonger(d, c.trace, c1.trace, c'.trace);
  }

  lemma TargetSends(c: Control, t: Target, s: Sample, replies: Replies, d: Device)
    requires c.calculator.gridVolt > 0
    ensures Sends(c, ProcessTarget(c, t, s, replies), ProfileTo(t, Wanted(c, c.calculator.Asked(t.0, s)), replies), d)
  {
    var ask := c.calculator.Asked(t.0, s);
    var c0 := c.(calculator := c.calculator.Computed(t.0, s));
    var c1 := NotifyIfFlipped(c0, t, ask);
    NotifySends(c0, t, ask, d);
    SendSends(c1, t, Wanted(c, ask), replies, d);
    QuietThenSends(c, c1, ProcessTarget(c, t, s, replies), ProfileTo(t, Wanted(c, ask), replies), d);
  }

  lemma TargetMatches(c: Control, r: Reference, t: Target, s: Sample, replies: Replies)
    requires c.calculator.gridVolt > 0 && Matches(c, r)
    ensures var c', r' := ProcessTarget(c, t, s, replies), RefTarget(r, t, s, replies);
            && Matches(c', r')
            && r'.trace == r.trace + [ProfileTo(t, Wanted(c, c.calculator.Asked(t.0, s)), replies)]
  {
  }

  // ---------------------------------------------------------------------------
  // Standing limits
  // ---------------------------------------------------------------------------

  /** What the controller remembers as accepted is the standing limit. */
  ghost predicate Coherent(c: Control, d: Device) {
    forall t :: t in c.lastSet ==> Lookup(d.standing, t) == Some(c.lastSet[t])
  }

  /** The controller and the reference agree, on the standing limits as on everything else they share. */
  ghost predicate Agree(c: Control, r: Reference, d: Device, rd: Device) {
    Matches(c, r) && d.standing == rd.standing && Coherent(c, d)
  }

  /** Where what is cached is in force, sending or skipping makes no difference to the standing limits. */
  lemma SendAgrees(c: Control, c': Control, x: Entry, d: Device, rd: Device)
    requires IsSend(x) && Sends(c, c', x, d)
    requires d.standing == rd.standing && Coherent(c, d)
    ensures var d' := InForce(d, Since(c.trace, c'.trace));
            d'.standing == Deliver(rd, x).standing && Coherent(c', d')
  {
    if Cached(c, x) && x.accepted {
      assert d.standing[TargetOf(x) := x.amps] == d.standing;
    }
  }

  lemma {:induction false} TargetsAgree(
    c: Control, r: Reference, ts: seq<Target>, s: Sample, replies: Replies, d: Device, rd: Device)
    requires c.calculator.gridVolt > 0 && Agree(c, r, d, rd)
    ensures var c', r' := ProcessTargets(c, ts, s, replies), RefTargets(r, ts, s, replies);
            && c.trace <= c'.trace && r.trace <= r'.trace
            && Agree(c', r', InForce(d, Since(c.trace, c'.trace)), InForce(rd, Since(r.trace, r'.trace)))
  {
    if ts != [] {
      TargetsAgree(c, r, Front(ts), s, replies, d, rd);
      var c1, r1 := ProcessTargets(c, Front(ts), s, replies), RefTargets(r, Front(ts), s, replies);
      var c2, r2 := ProcessTarget(c1, Last(ts), s, replies), RefTarget(r1, Last(ts), s, replies);
      var x := ProfileTo(Last(ts), Wanted(c1, c1.calculator.Asked(Last(ts).0, s)), replies);
      TargetSends(c1, Last(ts), s, replies, InForce(d, Since(c.trace, c1.trace)));
      TargetMatches(c1, r1, Last(ts), s, replies);
      OneMoreAgrees(c, c1, c2, r, r1, r2, x, d, rd);
    }
  }

  lemma OneMoreAgrees(
    c: Control, c1: Control, c2: Control, r: Reference, r1: Reference, r2: Reference, x: Entry, d: Device, rd: Device)
    requires c.trace <= c1.trace && r.trace <= r1.trace
    requires var d1 := InForce(d, Since(c.trace, c1.trace));
             && Agree(c1, r1, d1, InForce(rd, Since(r.trace, r1.trace)))
             && IsSend(x) && Sends(c1, c2, x, d1)
    requires Matches(c2, r2) && r2.trace == r1.trace + [x]
    ensures Agree(c2, r2, InForce(d, Since(c.trace, c2.trace)), InForce(rd, Since(r.trace, r2.trace)))
  {
    var d1, rd1 := InForce(d, Since(c.trace, c1.trace)), InForce(rd, Since(r.trace, r1.trace));
    SendAgrees(c1, c2, x, d1, rd1);
    InForceLonger(d, c.trace, c1.trace, c2.trace);
    assert Since(r.trace, r2.trace) == Since(r.trace, r1.trace) + [x];
    InForceAppend(rd, Since(r.trace, r1.trace), x);
  }

  lemma {:induction false} RevertAgrees(
    c: Control, r: Reference, ts: seq<Target>, replies: Replies, d: Device, rd: Device)
    requires Agree(c, r, d, rd)
    ensures var c', r' := RevertTargets(c, ts, replies), RefRevert(r, ts, replies);
            && c.trace <= c'.trace && r.trace <= r'.trace
            && Agree(c', r', InForce(d, Since(c.trace, c'.trace)), InForce(rd, Since(r.trace, r'.trace)))
  {
    if ts != [] {
      RevertAgrees(c, r, Front(ts), replies, d, rd);
      var c1, r1 := RevertTargets(c, Front(ts), replies), RefRevert(r, Front(ts), replies);
      var c2, r2 := SendIfChanged(c1, Last(ts), c1.safeAmps, replies), RefSend(r1, Last(ts), r1.safeAmps, replies);
      SendSends(c1, Last(ts), c1.safeAmps, replies, InForce(d, Since(c.trace, c1.trace)));
      OneMoreAgrees(c, c1, c2, r, r1, r2, ProfileTo(Last(ts), c1.safeAmps, replies), d, rd);
    }
  }

  lemma GateIsQuiet(c: Control, e: Energy, v: View, d: Device)
    requires v.chargers.Some?
    ensures var c1 := PassGate(c, e, v);
            c.trace <= c1.trace && InForce(d, Since(c.trace, c1.trace)) == d
  {
    var c1 := PassGate(c, e, v);
    SolarGateRuns.GateSendsNoProfile(c.gate, v.chargers.value, c.overrides, e, v);
    assert Since(c.trace, c1.trace) == SolarGate.Evaluate(c.gate, v.chargers.value, c.overrides, e, v).log;
    InForceQuiet(d, Since(c.trace, c1.trace));
  }

  /** One tick of the controller leaves every connector at the standing limit a tick of the reference would. */
  lemma TickAgrees(c: Control, r: Reference, e: Energy, v: View, replies: Replies, d: Device, rd: Device)
    requires c.calculator.gridVolt > 0 && Agree(c, r, d, rd)
    ensures var c', r' := Tick(c, e, v, replies), RefTick(r, e, v, replies);
            && c.trace <= c'.trace && r.trace <= r'.trace
            && Agree(c', r', InForce(d, Since(c.trace, c'.trace)), InForce(rd, Since(r.trace, r'.trace)))
  {
    if c.enabled && v.chargers.Some? {
      var chargers := v.chargers.value;
      if e.stale {
        RevertAgrees(c, r, Targets(chargers, v.conns, {}), replies, d, rd);
      } else {
        var o := SolarGate.Evaluate(c.gate, chargers, c.overrides, e, v);
        GateIsQuiet(c, e, v, d);
        var c1, r1 := PassGate(c, e, v), r.(gate := o.gate);
        if !o.hold {
          var ts := Targets(chargers, v.conns, c.overrides);
          TargetsAgree(c1, r1, ts, SampleOf(e), replies, d, rd);
          InForceLonger(d, c.trace, c1.trace, ProcessTargets(c1, ts, SampleOf(e), replies).trace);
        }
      }
    }
  }

  // ---------------------------------------------------------------------------
  // Both limits
  // ---------------------------------------------------------------------------

  /** The send x of a controller that always sends is one this controller skips although it would change something. */
  predicate HarmfulSkip(c: Control, x: Entry, d: Device) {
    IsSend(x) && Cached(c, x) && Deliver(d, x) != d
  }

  predicate HarmedAt(c: Control, sends: seq<Entry>, d: Device, u: Target) {
    exists x :: x in sends && IsSend(x) && TargetOf(x) == u && HarmfulSkip(c, x, d)
  }

  predicate SentAt(sends: seq<Entry>, u: Target) {
    exists x :: x in sends && IsSend(x) && TargetOf(x) == u
  }

  /**
   Both controllers are done with `done`: untouched elsewhere, and at u equal exactly if no harmful skip
   was there.
   */
  ghost predicate Tracks(
    c: Control, c1: Control, sends: seq<Entry>, d: Device, rd: Device, d1: Device, rd1: Device, u: Target,
    done: seq<Target>)
  {
    && (u !in done ==>
          && !SentAt(sends, u) && Lookup(c1.lastSet, u) == Lookup(c.lastSet, u)
          && At(d1, u) == At(d, u) && At(rd1, u) == At(rd, u))
    && (At(d, u) == At(rd, u) ==> (At(d1, u) == At(rd1, u) <==> !HarmedAt(c, sends, d, u)))
  }

  lemma DeliverAlike(d: Device, rd: Device, x: Entry)
    requires IsSend(x) && At(d, TargetOf(x)) == At(rd, TargetOf(x))
    ensures At(Deliver(d, x), TargetOf(x)) == At(Deliver(rd, x), TargetOf(x))
    ensures At(d, TargetOf(x)) == At(Deliver(rd, x), TargetOf(x)) <==> Deliver(d, x) == d
  {
    RedundantIff(d, x);
  }

  lemma TracksElsewhere(
    c: Control, c1: Control, c2: Control, sends: seq<Entry>, x: Entry,
    d: Device, rd: Device, d1: Device, rd1: Device, u: Target, done: seq<Target>)
    requires Tracks(c, c1, sends, d, rd, d1, rd1, u, done)
    requires IsSend(x) && TargetOf(x) != u && Sends(c1, c2, x, d1)
    ensures Tracks(c, c2, sends + [x], d, rd, InForce(d1, Since(c1.trace, c2.trace)), Deliver(rd1, x), u,
                done + [TargetOf(x)])
  {
    DeliverElsewhere(d1, x, u);
    DeliverElsewhere(rd1, x, u);
    assert HarmedAt(c, sends, d, u) <==> HarmedAt(c, sends + [x], d, u);
    assert SentAt(sends + [x], u) ==> SentAt(sends, u);
  }

  lemma TracksHere(
    c: Control, c1: Control, c2: Control, sends: seq<Entry>, x: Entry,
    d: Device, rd: Device, d1: Device, rd1: Device, done: seq<Target>)
    requires IsSend(x) && TargetOf(x) !in done && Sends(c1, c2, x, d1)
    requires Tracks(c, c1, sends, d, rd, d1, rd1, TargetOf(x), done)
    ensures Tracks(c, c2, sends + [x], d, rd, InForce(d1, Since(c1.trace, c2.trace)), Deliver(rd1, x),
                   TargetOf(x), done + [TargetOf(x)])
  {
    var u := TargetOf(x);
    assert HarmedAt(c, sends + [x], d, u) <==> HarmfulSkip(c, x, d) by {
      assert !HarmedAt(c, sends, d, u);
      assert x in sends + [x];
    }
    if At(d, u) == At(rd, u) {
      DeliverAlike(d, rd1, x);
      DeliverAlike(d1, rd1, x);
    }
  }

  /** The pass from c and r has come to c1 and r1. */
  ghost predicate Tracked(
    c: Control, r: Reference, c1: Control, r1: Reference, d: Device, rd: Device, u: Target, done: seq<Target>)
  {
    && Matches(c1, r1) && c.trace <= c1.trace && r.trace <= r1.trace
    && Tracks(c, c1, Since(r.trace, r1.trace), d, rd,
              InForce(d, Since(c.trace, c1.trace)), InForce(rd, Since(r.trace, r1.trace)), u, done)
  }

  lemma TargetTracked(
    c: Control, r: Reference, c1: Control, r1: Reference, t: Target, s: Sample, replies: Replies,
    d: Device, rd: Device, u: Target, done: seq<Target>)
    requires c1.calculator.gridVolt > 0
    requires Tracked(c, r, c1, r1, d, rd, u, done) && t !in done
    ensures Tracked(c, r, ProcessTarget(c1, t, s, replies), RefTarget(r1, t, s, replies), d, rd, u, done + [t])
  {
    var x := ProfileTo(t, Wanted(c1, c1.calculator.Asked(t.0, s)), replies);
    TargetSends(c1, t, s, replies, InForce(d, Since(c.trace, c1.trace)));
    TargetMatches(c1, r1, t, s, replies);
    TracksLonger(c, c1, ProcessTarget(c1, t, s, replies), r, r1, RefTarget(r1, t, s, replies), x, d, rd, u, done);
  }

  lemma {:induction false} TargetsTrack(
    c: Control, r: Reference, ts: seq<Target>, s: Sample, replies: Replies, d: Device, rd: Device, u: Target)
    requires c.calculator.gridVolt > 0 && Matches(c, r) && Distinct(ts)
    ensures Tracked(c, r, ProcessTargets(c, ts, s, replies), RefTargets(r, ts, s, replies), d, rd, u, ts)
  {
    if ts != [] {
      TargetsTrack(c, r, Front(ts), s, replies, d, rd, u);
      TargetTracked(c, r, ProcessTargets(c, Front(ts), s, replies), RefTargets(r, Front(ts), s, replies),
                    Last(ts), s, replies, d, rd, u, Front(ts));
      assert ts == Front(ts) + [Last(ts)];
    }
  }

  lemma TracksLonger(
    c: Control, c1: Control, c2: Control, r: Reference, r1: Reference, r2: Reference, x: Entry,
    d: Device, rd: Device, u: Target, done: seq<Target>)
    requires c.trace <= c1.trace && r.trace <= r1.trace
    requires var d1 := InForce(d, Since(c.trace, c1.trace));
             && Tracks(c, c1, Since(r.trace, r1.trace), d, rd, d1, InForce(rd, Since(r.trace, r1.trace)), u, done)
             && IsSend(x) && TargetOf(x) !in done && Sends(c1, c2, x, d1)
    requires r2.trace == r1.trace + [x]
    ensures c.trace <= c2.trace && r.trace <= r2.trace
    ensures Tracks(c, c2, Since(r.trace, r2.trace), d, rd,
                   InForce(d, Since(c.trace, c2.trace)), InForce(rd, Since(r.trace, r2.trace)), u, done + [TargetOf(x)])
  {
    var d1, rd1 := InForce(d, Since(c.trace, c1.trace)), InForce(rd, Since(r.trace, r1.trace));
    if u == TargetOf(x) {
      TracksHere(c, c1, c2, Since(r.trace, r1.trace), x, d, rd, d1, rd1, done);
    } else {
      TracksElsewhere(c, c1, c2, Since(r.trace, r1.trace), x, d, rd, d1, rd1, u, done);
    }
    InForceLonger(d, c.trace, c1.trace, c2.trace);
    assert Since(r.trace, r2.trace) == Since(r.trace, r1.trace) + [x];
    InForceAppend(rd, Since(r.trace, r1.trace), x);
  }

  lemma {:induction false} RevertTracks(
    c: Control, r: Reference, ts: seq<Target>, replies: Replies, d: Device, rd: Device, u: Target)
    requires Matches(c, r) && Distinct(ts)
    ensures Tracked(c, r, RevertTargets(c, ts, replies), RefRevert(r, ts, replies), d, rd, u, ts)
  {
    if ts != [] {
      RevertTracks(c, r, Front(ts), replies, d, rd, u);
      var c1, r1 := RevertTargets(c, Front(ts), replies), RefRevert(r, Front(ts), replies);
      var c2, r2 := SendIfChanged(c1, Last(ts), c1.safeAmps, replies), RefSend(r1, Last(ts), r1.safeAmps, replies);
      SendSends(c1, Last(ts), c1.safeAmps, replies, InForce(d, Since(c.trace, c1.trace)));
      TracksLonger(c, c1, c2, r, r1, r2, ProfileTo(Last(ts), c1.safeAmps, replies), d, rd, u, Front(ts));
      assert ts == Front(ts) + [Last(ts)];
    }
  }

  lemma TickTracks(c: Control, r: Reference, e: Energy, v: View, replies: Replies, d: Device, rd: Device, u: Target)
    requires c.calculator.gridVolt > 0 && Matches(c, r) && WellFormed(v)
    ensures var c', r' := Tick(c, e, v, replies), RefTick(r, e, v, replies);
            && Matches(c', r') && c.trace <= c'.trace && r.trace <= r'.trace
            && (At(d, u) == At(rd, u) ==>
                  (At(InForce(d, Since(c.trace, c'.trace)), u) == At(InForce(rd, Since(r.trace, r'.trace)), u)
                   <==> !HarmedAt(c, Since(r.trace, r'.trace), d, u)))
  {
    if c.enabled && v.chargers.Some? {
      var chargers := v.chargers.value;
      if e.stale {
        TargetsDistinct(chargers, v.conns, {});
        RevertTracks(c, r, Targets(chargers, v.conns, {}), replies, d, rd, u);
      } else {
        var o := SolarGate.Evaluate(c.gate, chargers, c.overrides, e, v);
        GateIsQuiet(c, e, v, d);
        var c1, r1 := PassGate(c, e, v), r.(gate := o.gate);
        if !o.hold {
          var ts := Targets(chargers, v.conns, c.overrides);
          TargetsDistinct(chargers, v.conns, c.overrides);
          TargetsTrack(c1, r1, ts, SampleOf(e), replies, d, rd, u);
          InForceLonger(d, c.trace, c1.trace, ProcessTargets(c1, ts, SampleOf(e), replies).trace);
        }
      }
    }
  }

  lemma TickMatches(c: Control, r: Reference, e: Energy, v: View, replies: Replies)
    requires c.calculator.gridVolt > 0 && Matches(c, r)
    ensures Matches(Tick(c, e, v, replies), RefTick(r, e, v, replies))
    ensures c.trace <= Tick(c, e, v, replies).trace && r.trace <= RefTick(r, e, v, replies).trace
  {
    TickAgrees(c, r, e, v, replies, Device(c.lastSet, map[]), Device(c.lastSet, map[]));
  }

  /**
   From equal limits in force, standing and live, a tick with the cache and one without leave equal
   limits exactly when none of the sends the one without makes is both cached and of any effect.
   */
  lemma TickAgreesIff(c: Control, r: Reference, e: Energy, v: View, replies: Replies, d: Device)
    requires c.calculator.gridVolt > 0 && Matches(c, r) && WellFormed(v)
    ensures var c', r' := Tick(c, e, v, replies), RefTick(r, e, v, replies);
            && Matches(c', r') && c.trace <= c'.trace && r.trace <= r'.trace
            && (InForce(d, Since(c.trace, c'.trace)) == InForce(d, Since(r.trace, r'.trace))
                <==> forall x :: x in Since(r.trace, r'.trace) ==> !HarmfulSkip(c, x, d))
  {
    var c', r' := Tick(c, e, v, replies), RefTick(r, e, v, replies);
    TickTracks(c, r, e, v, replies, d, d, ("", 0));
    var sends, a, b :=
      Since(r.trace, r'.trace), InForce(d, Since(c.trace, c'.trace)), InForce(d, Since(r.trace, r'.trace));
    if forall x :: x in sends ==> !HarmfulSkip(c, x, d) {
      forall u ensures At(a, u) == At(b, u) {
        TickTracks(c, r, e, v, replies, d, d, u);
      }
      SameAtEach(a, b);
    } else {
      var x :| x in sends && HarmfulSkip(c, x, d);
      TickTracks(c, r, e, v, replies, d, d, TargetOf(x));
      assert HarmedAt(c, sends, d, TargetOf(x));
    }
  }

  // ---------------------------------------------------------------------------
  // The last send
  // ---------------------------------------------------------------------------

  predicate AcceptedAt(log: seq<Entry>, t: Target) {
    exists x :: x in log && IsSend(x) && TargetOf(x) == t && x.accepted
  }

  /** What a log's accepted send to t, if there is one, makes of what is cached there and of the live limit. */
  ghost predicate Settles(c: Control, c': Control, d: Device, d': Device, log: seq<Entry>, t: Target) {
    && (forall x :: x in log && IsSend(x) && TargetOf(x) == t && x.accepted ==>
          && Lookup(c'.lastSet, t) == Some(x.amps)
          && Lookup(d'.live, t) == if Reaches(x) then Some(x.amps) else Lookup(d.live, t))
    && (!AcceptedAt(log, t) ==>
          Lookup(c'.lastSet, t) == Lookup(c.lastSet, t) && Lookup(d'.live, t) == Lookup(d.live, t))
  }

  lemma SettlesOneMore(
    c: Control, c1: Control, c2: Control, log: seq<Entry>, x: Entry, d: Device, d1: Device, t: Target)
    requires Settles(c, c1, d, d1, log, t)
    requires IsSend(x) && (TargetOf(x) == t ==> !SentAt(log, t))
    requires c2.lastSet == if x.accepted then c1.lastSet[TargetOf(x) := x.amps] else c1.lastSet
    ensures Settles(c, c2, d, Deliver(d1, x), log + [x], t)
  {
    if TargetOf(x) == t {
      assert !AcceptedAt(log, t);
      assert x.accepted ==> x in log + [x] && AcceptedAt(log + [x], t);
    } else {
      assert AcceptedAt(log + [x], t) <==> AcceptedAt(log, t) by {
        assert AcceptedAt(log, t) ==> AcceptedAt(log + [x], t);
      }
    }
  }

  lemma SettlesQuiet(
    c: Control, c1: Control, c2: Control, log: seq<Entry>, more: seq<Entry>, d: Device, d1: Device, t: Target)
    requires Settles(c, c1, d, d1, log, t) && c2.lastSet == c1.lastSet
    requires forall x :: x in more ==> !IsSend(x)
    ensures Settles(c, c2, d, d1, log + more, t)
  {
    assert AcceptedAt(log, t) ==> AcceptedAt(log + more, t);
  }

  /** So far the pass has settled t and sent to nobody outside `done`. */
  ghost predicate SettledSoFar(c: Control, c1: Control, d: Device, t: Target, done: seq<Target>) {
    && c.trace <= c1.trace
    && Settles(c, c1, d, InForce(d, Since(c.trace, c1.trace)), Since(c.trace, c1.trace), t)
    && (t !in done ==> !SentAt(Since(c.trace, c1.trace), t))
  }

  lemma SendSettles(
    c: Control, c1: Control, u: Target, amps: int, replies: Replies, d: Device, t: Target, done: seq<Target>)
    requires SettledSoFar(c, c1, d, t, done) && u !in done
    ensures SettledSoFar(c, SendIfChanged(c1, u, amps, replies), d, t, done + [u])
  {
    var x, c2 := ProfileTo(u, amps, replies), SendIfChanged(c1, u, amps, replies);
    var log := Since(c.trace, c1.trace);
    if Cached(c1, x) {
      assert c2 == c1;
    } else {
      assert Since(c.trace, c2.trace) == log + [x];
      InForceAppend(d, log, x);
      SettlesOneMore(c, c1, c2, log, x, d, InForce(d, log), t);
      assert SentAt(log + [x], t) ==> SentAt(log, t) || u == t;
    }
  }

  lemma NoticeSettles(c: Control, c1: Control, c2: Control, d: Device, t: Target, done: seq<Target>)
    requires SettledSoFar(c, c1, d, t, done)
    requires c2.lastSet == c1.lastSet && c1.trace <= c2.trace
    requires forall x :: x in Since(c1.trace, c2.trace) ==> !IsSend(x)
    ensures SettledSoFar(c, c2, d, t, done)
  {
    var log, more := Since(c.trace, c1.trace), Since(c1.trace, c2.trace);
    SinceTwice(c.trace, c1.trace, c2.trace);
    InForceSplit(d, log, more);
    InForceQuiet(InForce(d, log), more);
    SettlesQuiet(c, c1, c2, log, more, d, InForce(d, log), t);
    assert SentAt(log + more, t) ==> SentAt(log, t);
  }

  lemma TargetSettles(
    c: Control, c1: Control, u: Target, s: Sample, replies: Replies, d: Device, t: Target, done: seq<Target>)
    requires c1.calculator.gridVolt > 0 && SettledSoFar(c, c1, d, t, done) && u !in done
    ensures SettledSoFar(c, ProcessTarget(c1, u, s, replies), d, t, done + [u])
  {
    var ask := c1.calculator.Asked(u.0, s);
    var c2 := NotifyIfFlipped(c1.(calculator := c1.calculator.Computed(u.0, s)), u, ask);
    NoticeSettles(c, c1, c2, d, t, done);
    SendSettles(c, c2, u, Wanted(c1, ask), replies, d, t, done);
  }

  lemma {:induction false} TargetsSettle(
    c: Control, c0: Control, ts: seq<Target>, s: Sample, replies: Replies, d: Device, t: Target)
    requires c0.calculator.gridVolt > 0 && SettledSoFar(c, c0, d, t, []) && Distinct(ts)
    ensures SettledSoFar(c, ProcessTargets(c0, ts, s, replies), d, t, ts)
  {
    if ts != [] {
      var done, u := Front(ts), Last(ts);
      assert ts == done + [u] && u !in done && Distinct(done);
      TargetsSettle(c, c0, done, s, replies, d, t);
      var c1 := ProcessTargets(c0, done, s, replies);
      assert SettledSoFar(c, ProcessTarget(c1, u, s, replies), d, t, ts) by {
        TargetSettles(c, c1, u, s, replies, d, t, done);
      }
    }
  }

  lemma {:induction false} RevertSettles(c: Control, ts: seq<Target>, replies: Replies, d: Device, t: Target)
    requires Distinct(ts)
    ensures SettledSoFar(c, RevertTargets(c, ts, replies), d, t, ts)
  {
    if ts != [] {
      RevertSettles(c, Front(ts), replies, d, t);
      var c1 := RevertTargets(c, Front(ts), replies);
      SendSettles(c, c1, Last(ts), c1.safeAmps, replies, d, t, Front(ts));
      assert ts == Front(ts) + [Last(ts)];
    }
  }

  /**
   A tick sends to each connector at most once; an accepted send is cached, and reaches a live
   transaction or does not.
   */
  lemma TickSettles(c: Control, e: Energy, v: View, replies: Replies, d: Device, t: Target)
    requires c.calculator.gridVolt > 0 && WellFormed(v)
    ensures var c' := Tick(c, e, v, replies);
            && c.trace <= c'.trace
            && Settles(c, c', d, InForce(d, Since(c.trace, c'.trace)), Since(c.trace, c'.trace), t)
  {
    if c.enabled && v.chargers.Some? {
      var chargers := v.chargers.value;
      if e.stale {
        TargetsDistinct(chargers, v.conns, {});
        RevertSettles(c, Targets(chargers, v.conns, {}), replies, d, t);
      } else {
        var c1, ts := PassGate(c, e, v), Targets(chargers, v.conns, c.overrides);
        SolarGateRuns.GateSendsNoProfile(c.gate, chargers, c.overrides, e, v);
        assert Since(c.trace, c1.trace) == SolarGate.Evaluate(c.gate, chargers, c.overrides, e, v).log;
        NoticeSettles(c, c, c1, d, t, []);
        TargetsDistinct(chargers, v.conns, c.overrides);
        TargetsSettle(c, c1, ts, SampleOf(e), replies, d, t);
      }
    }
  }

  predicate IsReply(x: Entry, replies: Replies) {
    x.Profile? && x == ProfileTo((x.id, x.connector), x.amps, replies)
  }

  lemma {:induction false} RefTargetsSends(r: Reference, ts: seq<Target>, s: Sample, replies: Replies)
    requires r.calculator.gridVolt > 0
    ensures var r' := RefTargets(r, ts, s, replies);
            r.trace <= r'.trace && forall x :: x in Since(r.trace, r'.trace) ==> IsReply(x, replies)
  {
    if ts != [] {
      RefTargetsSends(r, Front(ts), s, replies);
    }
  }

  lemma {:induction false} RefRevertSends(r: Reference, ts: seq<Target>, replies: Replies)
    ensures var r' := RefRevert(r, ts, replies);
            r.trace <= r'.trace && forall x :: x in Since(r.trace, r'.trace) ==> IsReply(x, replies)
  {
    if ts != [] {
      RefRevertSends(r, Front(ts), replies);
    }
  }

  /** Every send of a tick goes out with that tick's answers. */
  lemma RefTickSends(r: Reference, e: Energy, v: View, replies: Replies)
    requires r.calculator.gridVolt > 0
    ensures var r' := RefTick(r, e, v, replies);
            r.trace <= r'.trace && forall x :: x in Since(r.trace, r'.trace) ==> IsReply(x, replies)
  {
    if r.enabled && v.chargers.Some? {
      if e.stale {
        RefRevertSends(r, Targets(v.chargers.value, v.conns, {}), replies);
      } else {
        var o := SolarGate.Evaluate(r.gate, v.chargers.value, r.overrides, e, v);
        RefTargetsSends(r.(gate := o.gate), Targets(v.chargers.value, v.conns, r.overrides), SampleOf(e), replies);
      }
    }
  }
}
