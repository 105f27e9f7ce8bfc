/**
 What follows from asking the calculator once per drawing connector: the full surplus is offered at
 every one of them, and a charger's debounce counts its connectors' calls rather than ticks.
 */
module ControlSharing {
  import opened Options
  import opened Sequences
  import opened Ports
  import opened Trace
  import opened SmartCharging
  import opened CalculatorLimits
  import Spacing
  import opened Control
  import opened ControlSteps
  import opened ControlOrder
  import opened ControlQuiet

  // ---------------------------------------------------------------------------
  // The surplus
  // ---------------------------------------------------------------------------

  /** The amperes of all profiles in a log. */
  function Offered(log: seq<Entry>): int {
    if log == [] then 0 else Offered(Front(log)) + if Last(log).Profile? then Last(log).amps else 0
  }

  lemma {:induction false} OfferedSplit(a: seq<Entry>, b: seq<Entry>)
    ensures Offered(a + b) == Offered(a) + Offered(b)
  {
    if b == [] {
      assert a + b == a;
    } else {
      OfferedSplit(a, Front(b));
      assert Front(a + b) == a + Front(b);
    }
  }

  /** The connector is new: nothing is cached for it and its charger's memory is fresh or holds this limit. */
  predicate NewAt(c: Control, t: Target, amps: int) {
    && t !in c.lastSet
    && (c.calculator.Of(t.0) == FRESH || c.calculator.Of(t.0) == Memory(RUNNING, Some(amps)))
  }

  function Capped(c: Control, s: Sample): int
    requires c.calculator.gridVolt > 0
  {
    Min(IdealOf(c, s), c.calculator.limits.maxAmps)
  }

  predicate Sunny(c: Control, s: Sample) {
    && c.calculator.gridVolt > 0
    && 0 < c.calculator.limits.minAmps <= c.calculator.limits.maxAmps
    && IdealAmps(s, c.calculator.gridVolt) >= c.calculator.limits.minAmps
  }

  lemma NewAnswer(c: Control, id: string, s: Sample)
    requires Sunny(c, s)
    requires c.calculator.Of(id) == FRESH || c.calculator.Of(id) == Memory(RUNNING, Some(Capped(c, s)))
    ensures var r, k := c.calculator.Asked(id, s), c.calculator.Computed(id, s);
            && !r.shouldStop && r.limitAmps == Capped(c, s)
            && k == Calc(c.calculator.limits, c.calculator.gridVolt, k.mem)
            && k.Of(id) == Memory(RUNNING, Some(Capped(c, s)))
            && forall other :: other != id ==> k.Of(other) == c.calculator.Of(other)
  {
  }

  lemma NoticeOffersNothing(c: Control, t: Target, r: Request)
    ensures var d := NotifyIfFlipped(c, t, r);
            && c.trace <= d.trace && Offered(Since(c.trace, d.trace)) == 0
            && d == c.(lastStop := d.lastStop, trace := d.trace)
  {
    var x := Notified(t.0, Wanted(c, r), r.shouldStop, r.reason);
    assert Front([x]) == [];
    assert Offered([x]) == 0;
  }

  lemma NewSend(c: Control, t: Target, amps: int, replies: Replies)
    requires t !in c.lastSet
    ensures var d := SendIfChanged(c, t, amps, replies);
            && c.trace <= d.trace && Offered(Since(c.trace, d.trace)) == amps
            && d == c.(lastSet := d.lastSet, trace := d.trace)
            && forall u :: u != t && u !in c.lastSet ==> u !in d.lastSet
  {
    var x := ProfileTo(t, amps, replies);
    assert Front([x]) == [];
    assert Since(c.trace, c.trace + [x]) == [x];
  }

  lemma TargetOffers(c: Control, t: Target, s: Sample, replies: Replies)
    requires Sunny(c, s) && NewAt(c, t, Capped(c, s))
    ensures var d := ProcessTarget(c, t, s, replies);
            && c.trace <= d.trace && Offered(Since(c.trace, d.trace)) == Capped(c, s)
            && d.calculator.limits == c.calculator.limits && d.calculator.gridVolt == c.calculator.gridVolt
            && forall u :: u != t && NewAt(c, u, Capped(c, s)) ==> NewAt(d, u, Capped(c, s))
  {
    var r := c.calculator.Asked(t.0, s);
    var c0 := c.(calculator := c.calculator.Computed(t.0, s));
    var c1 := NotifyIfFlipped(c0, t, r);
    NewAnswer(c, t.0, s);
    NoticeOffersNothing(c0, t, r);
    NewSend(c1, t, Wanted(c, r), replies);
    var d := ProcessTarget(c, t, s, replies);
    SinceTwice(c.trace, c1.trace, d.trace);
    OfferedSplit(Since(c.trace, c1.trace), Since(c1.trace, d.trace));
  }

  /** A pass from c has come to d, having offered the capped ideal k times and left the others new. */
  ghost predicate OfferedSoFar(c: Control, d: Control, s: Sample, ts: seq<Target>)
    requires c.calculator.gridVolt > 0
  {
    && c.trace <= d.trace && Offered(Since(c.trace, d.trace)) == |ts| * Capped(c, s)
    && d.calculator.limits == c.calculator.limits && d.calculator.gridVolt == c.calculator.gridVolt
    && forall u :: u !in ts && NewAt(c, u, Capped(c, s)) ==> NewAt(d, u, Capped(c, s))
  }

  lemma OfferedOneMore(c: Control, d: Control, d': Control, s: Sample, ts: seq<Target>, t: Target)
    requires c.calculator.gridVolt > 0 && OfferedSoFar(c, d, s, ts)
    requires d.trace <= d'.trace && Offered(Since(d.trace, d'.trace)) == Capped(c, s)
    requires d'.calculator.limits == d.calculator.limits && d'.calculator.gridVolt == d.calculator.gridVolt
    requires forall u :: u != t && NewAt(d, u, Capped(c, s)) ==> NewAt(d', u, Capped(c, s))
    ensures OfferedSoFar(c, d', s, ts + [t])
  {
    SinceTwice(c.trace, d.trace, d'.trace);
    OfferedSplit(Since(c.trace, d.trace), Since(d.trace, d'.trace));
    OneMoreTime(|ts|, Capped(c, s));
    forall u | u !in ts + [t] && NewAt(c, u, Capped(c, s)) ensures NewAt(d', u, Capped(c, s)) {
      assert NewAt(d, u, Capped(c, s));
    }
  }

  lemma OneMoreTime(n: nat, x: int)
    ensures n * x + x == (n + 1) * x
  {
  }

  /** A pass over k new connectors offers k times the capped ideal. */
  lemma {:induction false} PassOffers(c: Control, ts: seq<Target>, s: Sample, replies: Replies)
    requires Sunny(c, s) && Distinct(ts)
    requires forall t :: t in ts ==> NewAt(c, t, Capped(c, s))
    ensures OfferedSoFar(c, ProcessTargets(c, ts, s, replies), s, ts)
  {
    if ts != [] {
      assert ts == Front(ts) + [Last(ts)] && Last(ts) !in Front(ts);
      PassOffers(c, Front(ts), s, replies);
      var d := ProcessTargets(c, Front(ts), s, replies);
      TargetOffers(d, Last(ts), s, replies);
      OfferedOneMore(c, d, ProcessTarget(d, Last(ts), s, replies), s, Front(ts), Last(ts));
      ProcessLast(c, ts, s, replies);
    }
  }

  lemma FitsIff(total: int, surplus: int, volt: int)
    requires volt > 0
    ensures total * volt <= surplus <==> total <= surplus / volt
  {
    var q := surplus / volt;
    assert q * volt <= surplus < (q + 1) * volt by {
      assert surplus == volt * q + surplus % volt;
      assert (q + 1) * volt == q * volt + volt;
    }
    if total <= q {
      Times(total, q, volt);
    } else {
      Times(q + 1, total, volt);
    }
  }

  lemma Times(a: int, b: int, k: int)
    requires a <= b && k >= 0
    ensures a * k <= b * k
  {
    assert (b - a) * k == b * k - a * k;
  }

  /**
   With enough surplus for one, the first tick with k drawing connectors offers k times the capped ideal; that
   stays within the surplus exactly when k times it is at most the ideal current.
   */
  lemma {:induction false} TickOffersIff(c: Control, e: Energy, v: View, order: seq<Charger>, replies: Replies)
    requires Steady(c, e) && Sunny(c, SampleOf(e))
    requires c.lastSet == map[] && c.calculator.mem == map[]
    requires WellFormed(v.(chargers := Some(order)))
    ensures var d, k := Tick(c, e, v.(chargers := Some(order)), replies), |Targets(order, v.conns, c.overrides)|;
            && c.trace <= d.trace
            && Offered(Since(c.trace, d.trace)) == k * Capped(c, SampleOf(e))
            && (Offered(Since(c.trace, d.trace)) * c.calculator.gridVolt <= Surplus(SampleOf(e))
                <==> k * Capped(c, SampleOf(e)) <= IdealOf(c, SampleOf(e)))
  {
    var s, ts := SampleOf(e), Targets(order, v.conns, c.overrides);
    SteadyTick(c, e, v, order, replies);
    TargetsDistinct(order, v.conns, c.overrides);
    var c1 := c.(gate := c.gate.(below := 0, above := 0));
    PassOffers(c1, ts, s, replies);
    assert Surplus(s) > 0;
    FitsIff(|ts| * Capped(c, s), Surplus(s), c.calculator.gridVolt);
  }

  function OnlineCharger(id: string): Charger {
    Charger(id, "", "", "", "", true)
  }

  lemma OneDrawing(id: string, conns: map<string, seq<Connector>>)
    requires id in conns && conns[id] == [Connector(id, 1, Charging, "", "")]
    ensures TargetsOf(OnlineCharger(id), conns, {}) == [(id, 1)]
  {
    assert Front(conns[id]) == [] && DrawingConnectors(id, []) == [];
    assert [] + [(id, 1)] == [(id, 1)];
  }

  lemma TwoDrawing(conns: map<string, seq<Connector>>)
    requires "a" in conns && conns["a"] == [Connector("a", 1, Charging, "", "")]
    requires "b" in conns && conns["b"] == [Connector("b", 1, Charging, "", "")]
    ensures |Targets([OnlineCharger("a"), OnlineCharger("b")], conns, {})| == 2
  {
    var a, b := OnlineCharger("a"), OnlineCharger("b");
    OneDrawing("a", conns);
    OneDrawing("b", conns);
    assert Front([a, b]) == [a] && Front([a]) == [];
    assert Targets([a], conns, {}) == [("a", 1)];
  }

  /** Two chargers and a surplus of 3680 watts, 16 amperes at 230 volts: 32 amperes are offered. */
  lemma {:induction false} TwoChargersOverdraw(
    c: Control, e: Energy, conns: map<string, seq<Connector>>, replies: Replies)
    requires Steady(c, e) && e.solarFresh && e.solarW == 3680 && !e.consumptionFresh
    requires c.calculator == Calc(Limits(6, 32), 230, map[]) && c.lastSet == map[] && c.overrides == {}
    requires conns == map["a" := [Connector("a", 1, Charging, "", "")], "b" := [Connector("b", 1, Charging, "", "")]]
    ensures var v := View(Some([OnlineCharger("a"), OnlineCharger("b")]), conns, replies.live);
            var d := Tick(c, e, v, replies);
            && Surplus(SampleOf(e)) == 3680
            && c.trace <= d.trace && Offered(Since(c.trace, d.trace)) == 32
            && Offered(Since(c.trace, d.trace)) * 230 > Surplus(SampleOf(e))
  {
    TwoDrawing(conns);
    TickOffersIff(c, e, View(None, conns, replies.live), [OnlineCharger("a"), OnlineCharger("b")], replies);
    assert Capped(c, SampleOf(e)) == 16;
  }

  // ---------------------------------------------------------------------------
  // The surplus once settled
  // ---------------------------------------------------------------------------

  /** The amperes of the limits on record for these connectors. */
  function Total(lastSet: map<Target, int>, ts: seq<Target>): int
    requires forall t :: t in ts ==> t in lastSet
  {
    if ts == [] then 0 else Total(lastSet, Front(ts)) + lastSet[Last(ts)]
  }

  lemma {:induction false} TotalBetween(lastSet: map<Target, int>, ts: seq<Target>, lo: int, hi: int)
    requires forall t :: t in ts ==> t in lastSet && lo <= lastSet[t] <= hi
    ensures |ts| * lo <= Total(lastSet, ts) <= |ts| * hi
  {
    if ts != [] {
      assert ts == Front(ts) + [Last(ts)];
      TotalBetween(lastSet, Front(ts), lo, hi);
      OneMoreTime(|ts| - 1, lo);
      OneMoreTime(|ts| - 1, hi);
    }
  }

  /** Below the minimum the safe current is on record, else a limit within one ampere of the capped ideal. */
  lemma SettledLimit(c: Control, s: Sample, t: Target)
    requires c.calculator.gridVolt > 0 && 0 < c.calculator.limits.minAmps
    requires AtStage(c, s, t.0, 3) && Pinned(c, s, t)
    ensures t in c.lastSet
    ensures if IdealOf(c, s) < c.calculator.limits.minAmps then c.lastSet[t] == c.safeAmps
            else Abs(c.lastSet[t] - Capped(c, s)) <= 1
  {
    LimitTracksSurplus(c.calculator.limits, c.calculator.Of(t.0), s, c.calculator.gridVolt);
    ReasonIsOnlyALabel(c.calculator.limits, c.calculator.Of(t.0), IdealOf(c, s), SurplusReason(s));
  }

  /**
   Where k drawing connectors have settled, what is on record is k safe currents, or k ideals up to an ampere each.
   */
  ghost predicate SettledTotal(c: Control, s: Sample, ts: seq<Target>)
    requires c.calculator.gridVolt > 0
  {
    && (forall t :: t in ts ==> t in c.lastSet)
    && if IdealOf(c, s) < c.calculator.limits.minAmps then Total(c.lastSet, ts) == |ts| * c.safeAmps
       else |ts| * (Capped(c, s) - 1) <= Total(c.lastSet, ts) <= |ts| * (Capped(c, s) + 1)
  }

  lemma SettledTotals(c: Control, s: Sample, ts: seq<Target>)
    requires c.calculator.gridVolt > 0 && 0 < c.calculator.limits.minAmps
    requires forall t :: t in ts ==> AtStage(c, s, t.0, 3) && Pinned(c, s, t)
    ensures SettledTotal(c, s, ts)
  {
    forall t | t in ts
      ensures t in c.lastSet
      ensures if IdealOf(c, s) < c.calculator.limits.minAmps then c.lastSet[t] == c.safeAmps
              else Abs(c.lastSet[t] - Capped(c, s)) <= 1
    {
      SettledLimit(c, s, t);
    }
    if IdealOf(c, s) < c.calculator.limits.minAmps {
      TotalBetween(c.lastSet, ts, c.safeAmps, c.safeAmps);
    } else {
      TotalBetween(c.lastSet, ts, Capped(c, s) - 1, Capped(c, s) + 1);
    }
  }

  /**
   From any state, after three steady ticks with all sends accepted: the limits on record at k drawing connectors
   total k times the safe current below the minimum, however little surplus there is, and else k times the capped ideal
   up to an ampere each. They fit into the surplus exactly when the total is at most the surplus in whole amperes.
   */
  lemma {:induction false} SettledOffersIff(
    c: Control, e: Energy, v: View, chargers: seq<Charger>, orders: seq<seq<Charger>>, replies: Replies)
    requires Steady(c, e) && Orders(orders, chargers) && |orders| >= 3 && 0 < c.calculator.limits.minAmps
    requires forall t :: Watched(c, v, chargers, t) ==> t in replies.accepts
    ensures var d, ts := Ticks(c, e, v, orders, replies), Targets(chargers, v.conns, c.overrides);
            && d.calculator.limits == c.calculator.limits && d.calculator.gridVolt == c.calculator.gridVolt
            && d.safeAmps == c.safeAmps
            && SettledTotal(d, SampleOf(e), ts)
            && (Total(d.lastSet, ts) * c.calculator.gridVolt <= Surplus(SampleOf(e))
                <==> Total(d.lastSet, ts) <= Surplus(SampleOf(e)) / c.calculator.gridVolt)
  {
    var d, ts := Ticks(c, e, v, orders, replies), Targets(chargers, v.conns, c.overrides);
    QuietFromTheFourthTick(c, e, v, chargers, orders, replies);
    ThreeTicksSettle(c, e, v, chargers, orders[..3], replies);
    SteadyThroughout(c, e, v, orders, replies);
    forall t | t in ts ensures AtStage(d, SampleOf(e), t.0, 3) && Pinned(d, SampleOf(e), t) {
      TargetsAreTheVisited(chargers, v.conns, c.overrides, t);
      assert Watched(c, v, chargers, t);
    }
    SettledTotals(d, SampleOf(e), ts);
    FitsIff(Total(d.lastSet, ts), Surplus(SampleOf(e)), c.calculator.gridVolt);
  }

  // ---------------------------------------------------------------------------
  // The debounce
  // ---------------------------------------------------------------------------

  /** The counters of a charger new before its last k calls, all below the minimum. */
  predicate BelowSince(st: StopState, k: nat) {
    st == StopState(k >= STOP_CONFIRM_TICKS, Min(k, STOP_CONFIRM_TICKS), 0)
  }

  lemma {:induction false} CallsCount(c: Control, us: seq<Target>, s: Sample, replies: Replies, id: string, k: nat)
    requires c.calculator.gridVolt > 0 && IdealOf(c, s) < c.calculator.limits.minAmps
    requires forall u :: u in us ==> u.0 == id
    requires BelowSince(c.calculator.Of(id).stop, k)
    ensures BelowSince(ProcessTargets(c, us, s, replies).calculator.Of(id).stop, k + |us|)
  {
    if us != [] {
      CallsCount(c, Front(us), s, replies, id, k);
      ProcessFrame(c, Front(us), s, replies);
      assert Last(us) in us;
      TargetCounts(ProcessTargets(c, Front(us), s, replies), Last(us), s, replies, k + |us| - 1);
      ProcessLast(c, us, s, replies);
    }
  }

  lemma TargetCounts(c: Control, t: Target, s: Sample, replies: Replies, k: nat)
    requires c.calculator.gridVolt > 0 && IdealOf(c, s) < c.calculator.limits.minAmps
    requires BelowSince(c.calculator.Of(t.0).stop, k)
    ensures BelowSince(ProcessTarget(c, t, s, replies).calculator.Of(t.0).stop, k + 1)
  {
    TargetFrame(c, t, s, replies);
  }

  /** n ticks below call a charger with d drawing connectors n times d times. */
  lemma {:induction false} TicksCount(
    c: Control, e: Energy, v: View, chargers: seq<Charger>, orders: seq<seq<Charger>>, replies: Replies, ch: Charger)
    requires Steady(c, e) && Orders(orders, chargers) && ch in chargers
    requires ch.id !in c.calculator.mem && IdealOf(c, SampleOf(e)) < c.calculator.limits.minAmps
    ensures var d := Ticks(c, e, v, orders, replies);
            && Steady(d, e) && d.overrides == c.overrides && d.calculator.limits == c.calculator.limits
            && d.calculator.gridVolt == c.calculator.gridVolt
            && BelowSince(d.calculator.Of(ch.id).stop, |orders| * |TargetsOf(ch, v.conns, c.overrides)|)
  {
    if orders != [] {
      var d, order, n := Ticks(c, e, v, Front(orders), replies), Last(orders), |TargetsOf(ch, v.conns, c.overrides)|;
      TicksCount(c, e, v, chargers, Front(orders), replies, ch);
      assert Permuted(orders[|orders| - 1], chargers);
      SteadyTick(d, e, v, order, replies);
      PassCounts(d.(gate := d.gate.(below := 0, above := 0)), order, v.conns, SampleOf(e), replies, ch,
        (|orders| - 1) * n);
      assert (|orders| - 1) * n + n == |orders| * n;
    }
  }

  lemma {:induction false} PassCounts(
    c: Control, order: seq<Charger>, conns: map<string, seq<Connector>>, s: Sample, replies: Replies, ch: Charger,
    k: nat)
    requires c.calculator.gridVolt > 0 && IdealOf(c, s) < c.calculator.limits.minAmps
    requires DistinctIDs(order) && ch in order
    requires BelowSince(c.calculator.Of(ch.id).stop, k)
    ensures var d := ProcessTargets(c, Targets(order, conns, c.overrides), s, replies);
            BelowSince(d.calculator.Of(ch.id).stop, k + |TargetsOf(ch, conns, c.overrides)|)
  {
    var i :| 0 <= i < |order| && order[i] == ch;
    var ts, own := Targets(order, conns, c.overrides), TargetsOf(ch, conns, c.overrides);
    OfChargerInListing(order, conns, c.overrides, i);
    PassIsLocal(c, ts, s, replies, ch.id);
    forall u | u in own ensures u.0 == ch.id {
      DrawingMembers(ch.id, conns[ch.id], u);
    }
    CallsCount(c, own, s, replies, ch.id, k);
    SameMemory(ProcessTargets(c, ts, s, replies), ProcessTargets(c, own, s, replies), ch.id);
  }

  lemma SameMemory(c: Control, d: Control, id: string)
    requires SameFor(c, d, id)
    ensures c.calculator.Of(id) == d.calculator.Of(id)
  {
    assert Lookup(c.calculator.mem, id) == Lookup(d.calculator.mem, id);
  }

  lemma EnoughTicksIff(n: nat, d: nat)
    requires d > 0
    ensures n * d >= STOP_CONFIRM_TICKS <==> n >= Spacing.CeilDiv(STOP_CONFIRM_TICKS, d)
  {
    if d >= STOP_CONFIRM_TICKS {
      if n > 0 {
        Times(1, n, d);
      }
      Spacing.DivAtLeast(STOP_CONFIRM_TICKS + d - 1, 1, d);
      assert STOP_CONFIRM_TICKS + d - 1 < 2 * d;
    }
  }

  /**
   With the ideal current constantly below the minimum, a charger with d drawing connectors that was new at the
   start is stopped exactly from tick number ceil(3/d) on: the third if it has one drawing connector, the very
   first if it has three.
   */
  lemma {:induction false} StoppedFromTickIff(
    c: Control, e: Energy, v: View, chargers: seq<Charger>, orders: seq<seq<Charger>>, replies: Replies, ch: Charger)
    requires Steady(c, e) && Orders(orders, chargers) && ch in chargers
    requires ch.id !in c.calculator.mem && IdealOf(c, SampleOf(e)) < c.calculator.limits.minAmps
    requires TargetsOf(ch, v.conns, c.overrides) != []
    ensures Ticks(c, e, v, orders, replies).calculator.Of(ch.id).stop.isStopped
        <==> |orders| >= Spacing.CeilDiv(STOP_CONFIRM_TICKS, |TargetsOf(ch, v.conns, c.overrides)|)
  {
    TicksCount(c, e, v, chargers, orders, replies, ch);
    EnoughTicksIff(|orders|, |TargetsOf(ch, v.conns, c.overrides)|);
  }
}
