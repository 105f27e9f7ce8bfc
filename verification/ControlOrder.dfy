/**
 The order in which the repository happens to list the chargers does not matter: a tick leaves
 the same state for every order, because what it does to one charger depends on that charger alone.
 */
module ControlOrder {
  import opened Options
  import opened Sequences
  import opened Ports
  import opened Trace
  import opened SmartCharging
  import SolarGate
  import SolarGateRuns
  import opened Control
  import opened ControlSteps

  function OfCharger(ts: seq<Target>, id: string): seq<Target> {
    if ts == [] then []
    else OfCharger(Front(ts), id) + if Last(ts).0 == id then [Last(ts)] else []
  }

  predicate SameParameters(c: Control, d: Control) {
    && c.safeAmps == d.safeAmps
    && c.calculator.limits == d.calculator.limits
    && c.calculator.gridVolt == d.calculator.gridVolt
  }

  lemma NotifyIsLocal(c: Control, d: Control, t: Target, r: Request)
    requires SameFor(c, d, t.0) && SameParameters(c, d)
    ensures SameFor(NotifyIfFlipped(c, t, r), NotifyIfFlipped(d, t, r), t.0)
  {
    assert t == (t.0, t.1);
  }

  lemma SendIsLocal(c: Control, d: Control, t: Target, amps: int, replies: Replies)
    requires SameFor(c, d, t.0)
    ensures SameFor(SendIfChanged(c, t, amps, replies), SendIfChanged(d, t, amps, replies), t.0)
  {
    assert t == (t.0, t.1);
  }

  lemma TargetIsLocal(c: Control, d: Control, t: Target, s: Sample, replies: Replies)
    requires c.calculator.gridVolt > 0
    requires SameFor(c, d, t.0) && SameParameters(c, d)
    ensures SameFor(ProcessTarget(c, t, s, replies), ProcessTarget(d, t, s, replies), t.0)
  {
    assert c.calculator.Of(t.0) == d.calculator.Of(t.0);
    var r := c.calculator.Asked(t.0, s);
    var c0 := c.(calculator := c.calculator.Computed(t.0, s));
    var d0 := d.(calculator := d.calculator.Computed(t.0, s));
    assert SameFor(c0, d0, t.0);
    NotifyIsLocal(c0, d0, t, r);
    SendIsLocal(NotifyIfFlipped(c0, t, r), NotifyIfFlipped(d0, t, r), t, Wanted(c, r), replies);
  }

  lemma OtherTargetIsLocal(c: Control, d: Control, t: Target, s: Sample, replies: Replies, id: string)
    requires c.calculator.gridVolt > 0
    requires SameFor(c, d, id) && t.0 != id
    ensures SameFor(ProcessTarget(c, t, s, replies), d, id)
  {
    TargetFrame(c, t, s, replies);
    assert SameFor(c, ProcessTarget(c, t, s, replies), id);
  }

  lemma OfChargerOneMore(ts: seq<Target>, t: Target, id: string)
    ensures OfCharger(ts + [t], id) == OfCharger(ts, id) + if t.0 == id then [t] else []
  {
    assert Front(ts + [t]) == ts;
  }

  lemma PassesKeepParameters(c: Control, ts: seq<Target>, us: seq<Target>, s: Sample, replies: Replies)
    requires c.calculator.gridVolt > 0
    ensures SameParameters(ProcessTargets(c, ts, s, replies), ProcessTargets(c, us, s, replies))
  {
    ProcessFrame(c, ts, s, replies);
    ProcessFrame(c, us, s, replies);
  }

  /** What a pass does to one charger is what a pass over that charger's connectors alone would do. */
  lemma {:induction false} PassIsLocal(c: Control, ts: seq<Target>, s: Sample, replies: Replies, id: string)
    requires c.calculator.gridVolt > 0
    ensures SameFor(ProcessTargets(c, ts, s, replies), ProcessTargets(c, OfCharger(ts, id), s, replies), id)
  {
    if ts != [] {
      var xs, t := Front(ts), Last(ts);
      var us := OfCharger(xs, id);
      PassIsLocal(c, xs, s, replies, id);
      PassesKeepParameters(c, xs, us, s, replies);
      assert ts == xs + [t];
      OfChargerOneMore(xs, t, id);
      ProcessOneMore(c, xs, t, s, replies);
      if t.0 == id {
        ProcessOneMore(c, us, t, s, replies);
        TargetIsLocal(ProcessTargets(c, xs, s, replies), ProcessTargets(c, us, s, replies), t, s, replies);
      } else {
        assert us + [] == us;
        OtherTargetIsLocal(ProcessTargets(c, xs, s, replies), ProcessTargets(c, us, s, replies), t, s, replies, id);
      }
    }
  }

  lemma SameForEach(a: Control, b: Control)
    requires forall id :: SameFor(a, b, id)
    ensures a.calculator.mem == b.calculator.mem && a.lastSet == b.lastSet && a.lastStop == b.lastStop
  {
    forall t: Target
      ensures Lookup(a.lastSet, t) == Lookup(b.lastSet, t) && Lookup(a.lastStop, t) == Lookup(b.lastStop, t)
    {
      var (id, n) := t;
      assert SameFor(a, b, id) && t == (id, n);
      assert Lookup(b.lastSet, (id, n)) == Lookup(a.lastSet, (id, n));
      assert Lookup(b.lastStop, (id, n)) == Lookup(a.lastStop, (id, n));
    }
    forall id: string ensures Lookup(a.calculator.mem, id) == Lookup(b.calculator.mem, id) {
      assert SameFor(a, b, id);
    }
    SameLookups(a.calculator.mem, b.calculator.mem);
    SameLookups(a.lastSet, b.lastSet);
    SameLookups(a.lastStop, b.lastStop);
  }

  /** The same calls for each charger, interleaved differently, leave the same state. */
  lemma {:induction false} InterleavingIrrelevant(
    c: Control, ts: seq<Target>, us: seq<Target>, s: Sample, replies: Replies)
    requires c.calculator.gridVolt > 0
    requires forall id :: OfCharger(ts, id) == OfCharger(us, id)
    ensures var d := ProcessTargets(c, us, s, replies);
            ProcessTargets(c, ts, s, replies).(trace := []) == d.(trace := [])
  {
    var a, b := ProcessTargets(c, ts, s, replies), ProcessTargets(c, us, s, replies);
    ProcessFrame(c, ts, s, replies);
    ProcessFrame(c, us, s, replies);
    forall id ensures SameFor(a, b, id) {
      PassIsLocal(c, ts, s, replies, id);
      PassIsLocal(c, us, s, replies, id);
    }
    SameForEach(a, b);
  }

  lemma {:induction false} OfChargerSplit(a: seq<Target>, b: seq<Target>, id: string)
    ensures OfCharger(a + b, id) == OfCharger(a, id) + OfCharger(b, id)
  {
    if b == [] {
      assert a + b == a;
    } else {
      OfChargerSplit(a, Front(b), id);
      assert Front(a + b) == a + Front(b);
    }
  }

  lemma {:induction false} OfChargerAll(ts: seq<Target>, who: string, id: string)
    requires forall t :: t in ts ==> t.0 == who
    ensures OfCharger(ts, id) == if who == id then ts else []
  {
    if ts != [] {
      OfChargerAll(Front(ts), who, id);
      assert Last(ts) in ts && ts == Front(ts) + [Last(ts)];
    }
  }

  /** Of another charger's connectors a listing's last charger adds nothing, of its own all. */
  lemma OfChargerLast(chargers: seq<Charger>, conns: map<string, seq<Connector>>, skip: set<string>, id: string)
    requires chargers != []
    ensures OfCharger(Targets(chargers, conns, skip), id)
         == OfCharger(Targets(Front(chargers), conns, skip), id) +
            if Last(chargers).id == id then TargetsOf(Last(chargers), conns, skip) else []
  {
    var ch := Last(chargers);
    var now := TargetsOf(ch, conns, skip);
    OfChargerSplit(Targets(Front(chargers), conns, skip), now, id);
    forall t | t in now ensures t.0 == ch.id {
      DrawingMembers(ch.id, conns[ch.id], t);
    }
    OfChargerAll(now, ch.id, id);
  }

  lemma {:induction false} OfChargerAbsent(
    chargers: seq<Charger>, conns: map<string, seq<Connector>>, skip: set<string>, id: string)
    requires forall i :: 0 <= i < |chargers| ==> chargers[i].id != id
    ensures OfCharger(Targets(chargers, conns, skip), id) == []
  {
    if chargers != [] {
      OfChargerAbsent(Front(chargers), conns, skip, id);
      OfChargerLast(chargers, conns, skip, id);
    }
  }

  /** What a pass visits of one charger, wherever it stands in the listing. */
  lemma {:induction false} OfChargerInListing(
    chargers: seq<Charger>, conns: map<string, seq<Connector>>, skip: set<string>, i: nat)
    requires DistinctIDs(chargers) && i < |chargers|
    ensures OfCharger(Targets(chargers, conns, skip), chargers[i].id) == TargetsOf(chargers[i], conns, skip)
  {
    var id := chargers[i].id;
    OfChargerLast(chargers, conns, skip, id);
    if i == |chargers| - 1 {
      OfChargerAbsent(Front(chargers), conns, skip, id);
    } else {
      OfChargerInListing(Front(chargers), conns, skip, i);
      assert Front(chargers)[i] == chargers[i] && Last(chargers).id != id;
      var ts := OfCharger(Targets(Front(chargers), conns, skip), id);
      assert ts + [] == ts;
    }
  }

  /** Two listings of the same chargers. */
  ghost predicate Permuted(a: seq<Charger>, b: seq<Charger>) {
    DistinctIDs(a) && DistinctIDs(b) && forall ch :: ch in a <==> ch in b
  }

  lemma ListingsVisitAlike(
    a: seq<Charger>, b: seq<Charger>, conns: map<string, seq<Connector>>, skip: set<string>, id: string)
    requires Permuted(a, b)
    ensures OfCharger(Targets(a, conns, skip), id) == OfCharger(Targets(b, conns, skip), id)
  {
    if i :| 0 <= i < |a| && a[i].id == id {
      assert a[i] in b;
      var j :| 0 <= j < |b| && b[j] == a[i];
      OfChargerInListing(a, conns, skip, i);
      OfChargerInListing(b, conns, skip, j);
    } else {
      assert forall j :: 0 <= j < |b| ==> b[j] in a;
      OfChargerAbsent(a, conns, skip, id);
      OfChargerAbsent(b, conns, skip, id);
    }
  }

  lemma GateOrderIrrelevant(
    g: SolarGate.Gate, a: seq<Charger>, b: seq<Charger>, overrides: set<string>, e: Energy, v: View, w: View)
    requires Permuted(a, b)
    ensures var x := SolarGate.Evaluate(g, a, overrides, e, v);
            var y := SolarGate.Evaluate(g, b, overrides, e, w);
            x.gate == y.gate && x.hold == y.hold
  {
    var start := SolarGate.Burst(g.stopped, []);
    SolarGateRuns.ForgetOfflineEffect(start, a);
    SolarGateRuns.ForgetOfflineEffect(start, b);
    assert SolarGateRuns.OfflineIDs(a) == SolarGateRuns.OfflineIDs(b);
    assert SolarGateRuns.Stoppable(a, overrides) == SolarGateRuns.Stoppable(b, overrides);
    assert SolarGateRuns.IDs(a) == SolarGateRuns.IDs(b);
    var fa := SolarGate.Burst(SolarGate.ForgetOffline(start, a).stopped, []);
    SolarGateRuns.StopBurstEffect(fa, a, overrides, v);
    SolarGateRuns.StopBurstEffect(fa, b, overrides, w);
    SolarGateRuns.StartBurstEffect(fa, a, v);
    SolarGateRuns.StartBurstEffect(fa, b, w);
  }

  /**
   A tick leaves the same state whatever order the chargers are listed in; only the order of its
   commands differs.
   */
  lemma {:induction false} ListingOrderIrrelevant(
    c: Control, e: Energy, v: View, a: seq<Charger>, b: seq<Charger>, replies: Replies)
    requires c.calculator.gridVolt > 0
    requires Permuted(a, b)
    requires forall id :: id in v.conns ==> DistinctConnectors(v.conns[id])
    ensures Tick(c, e, v.(chargers := Some(a)), replies).(trace := [])
         == Tick(c, e, v.(chargers := Some(b)), replies).(trace := [])
  {
    var va, vb := v.(chargers := Some(a)), v.(chargers := Some(b));
    if c.enabled {
      if e.stale {
        StaleOrderIrrelevant(c, v.conns, a, b, replies);
      } else {
        GateOrderIrrelevant(c.gate, a, b, c.overrides, e, va, vb);
        var ca, cb := PassGate(c, e, va), PassGate(c, e, vb);
        var ta, tb := Targets(a, v.conns, c.overrides), Targets(b, v.conns, c.overrides);
        forall id ensures OfCharger(ta, id) == OfCharger(tb, id) {
          ListingsVisitAlike(a, b, v.conns, c.overrides, id);
        }
        InterleavingIrrelevant(ca, ta, tb, SampleOf(e), replies);
        TraceIrrelevant(ca, cb, tb, SampleOf(e), replies);
      }
    }
  }

  lemma NoticeIgnoresTrace(c: Control, d: Control, t: Target, r: Request)
    requires c.(trace := []) == d.(trace := [])
    ensures NotifyIfFlipped(c, t, r).(trace := []) == NotifyIfFlipped(d, t, r).(trace := [])
  {
    assert Lookup(c.lastStop, t) == Lookup(d.lastStop, t);
  }

  lemma SendIgnoresTrace(c: Control, d: Control, t: Target, amps: int, replies: Replies)
    requires c.(trace := []) == d.(trace := [])
    ensures SendIfChanged(c, t, amps, replies).(trace := []) == SendIfChanged(d, t, amps, replies).(trace := [])
  {
    assert Lookup(c.lastSet, t) == Lookup(d.lastSet, t);
  }

  lemma TraceIrrelevantAt(c: Control, d: Control, t: Target, s: Sample, replies: Replies)
    requires c.calculator.gridVolt > 0
    requires c.(trace := []) == d.(trace := [])
    ensures ProcessTarget(c, t, s, replies).(trace := []) == ProcessTarget(d, t, s, replies).(trace := [])
  {
    var r := c.calculator.Asked(t.0, s);
    var c0 := c.(calculator := c.calculator.Computed(t.0, s));
    var d0 := d.(calculator := d.calculator.Computed(t.0, s));
    NoticeIgnoresTrace(c0, d0, t, r);
    SendIgnoresTrace(NotifyIfFlipped(c0, t, r), NotifyIfFlipped(d0, t, r), t, Wanted(c, r), replies);
  }

  /** A pass does not look at the trace. */
  lemma {:induction false} TraceIrrelevant(c: Control, d: Control, ts: seq<Target>, s: Sample, replies: Replies)
    requires c.calculator.gridVolt > 0
    requires c.(trace := []) == d.(trace := [])
    ensures ProcessTargets(c, ts, s, replies).(trace := []) == ProcessTargets(d, ts, s, replies).(trace := [])
  {
    if ts != [] {
      TraceIrrelevant(c, d, Front(ts), s, replies);
      ProcessLast(c, ts, s, replies);
      ProcessLast(d, ts, s, replies);
      TraceIrrelevantAt(ProcessTargets(c, Front(ts), s, replies), ProcessTargets(d, Front(ts), s, replies), Last(ts),
        s, replies);
    }
  }

  lemma StaleOrderIrrelevant(
    c: Control, conns: map<string, seq<Connector>>, a: seq<Charger>, b: seq<Charger>, replies: Replies)
    requires Permuted(a, b)
    requires forall id :: id in conns ==> DistinctConnectors(conns[id])
    ensures RevertTargets(c, Targets(a, conns, {}), replies).(trace := [])
         == RevertTargets(c, Targets(b, conns, {}), replies).(trace := [])
  {
    var ta, tb := Targets(a, conns, {}), Targets(b, conns, {});
    TargetsDistinct(a, conns, {});
    TargetsDistinct(b, conns, {});
    forall t ensures t in ta <==> t in tb {
      TargetsAreTheVisited(a, conns, {}, t);
      TargetsAreTheVisited(b, conns, {}, t);
    }
    RevertFrame(c, ta, replies);
    RevertFrame(c, tb, replies);
    RevertEffect(c, ta, replies);
    RevertEffect(c, tb, replies);
    SameLookups(RevertTargets(c, ta, replies).lastSet, RevertTargets(c, tb, replies).lastSet);
  }
}
