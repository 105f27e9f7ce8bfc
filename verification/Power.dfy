/**
 The calculator and the control loop in watts, from the fields of the readings themselves: how close a limit comes to
 the power left over, and when a call counts towards a stop.
 */
module Power {
  import opened Options
  import opened Sequences
  import opened Ports
  import opened Trace
  import opened SmartCharging
  import SolarGateRuns
  import opened CalculatorLimits
  import opened Control
  import opened ControlSteps
  import opened ControlOrder
  import opened GateHold

  /**
   A limit for this much power left over: within it but for an ampere, and less than two amperes unused below the
   cap.
   */
  predicate Fits(amps: int, left: int, gridVolt: int, maxAmps: int) {
    (amps - 1) * gridVolt <= left && (left < (amps + 2) * gridVolt || amps >= maxAmps - 1)
  }

  lemma FloorBetween(left: int, volt: int, ideal: int)
    requires volt > 0 && left >= 0 && ideal == left / volt
    ensures ideal * volt <= left < (ideal + 1) * volt
  {
    assert left == volt * ideal + left % volt;
    assert (ideal + 1) * volt == ideal * volt + volt;
  }

  /** The ideal current reaches a positive minimum exactly when the power left over does. */
  lemma ReachesIff(left: int, volt: int, minAmps: int)
    requires volt > 0
    ensures Max(left, 0) / volt < minAmps <==> minAmps > 0 && left < minAmps * volt
  {
    var ideal := Max(left, 0) / volt;
    FloorBetween(Max(left, 0), volt, ideal);
    if ideal < minAmps {
      TimesMonotone(ideal + 1, minAmps, volt);
      assert 0 <= ideal;
    } else {
      TimesMonotone(minAmps, ideal, volt);
    }
  }

  lemma FitsNear(amps: int, left: int, volt: int, maxAmps: int)
    requires volt > 0 && left >= 0
    requires Abs(amps - Min(left / volt, maxAmps)) <= 1
    ensures Fits(amps, left, volt, maxAmps)
  {
    var ideal := left / volt;
    FloorBetween(left, volt, ideal);
    TimesMonotone(amps - 1, ideal, volt);
    if ideal <= maxAmps {
      TimesMonotone(ideal + 1, amps + 2, volt);
    }
  }

  // ---------------------------------------------------------------------------
  // One call
  // ---------------------------------------------------------------------------

  /**
   A call counts as below the minimum exactly when that is positive and what is left over, solar minus consumption if
   either reads more than nothing and otherwise what is fed into the grid, does not reach it.
   */
  lemma BelowIff(k: Calc, id: string, s: Sample)
    requires k.gridVolt > 0
    ensures var left := if s.solarW > 0 || s.consumptionW > 0 then s.solarW - s.consumptionW else -s.gridW;
            var below := k.limits.minAmps > 0 && left < k.limits.minAmps * k.gridVolt;
            && k.Computed(id, s).Of(id).stop == Debounce(k.Of(id).stop, below)
            && k.Asked(id, s).shouldStop == k.Computed(id, s).Of(id).stop.isStopped
  {
    var left := if s.solarW > 0 || s.consumptionW > 0 then s.solarW - s.consumptionW else -s.gridW;
    ReachesIff(left, k.gridVolt, k.limits.minAmps);
  }

  /** A running answer at or above a positive minimum keeps to what is left over. */
  lemma {:induction false} LimitFitsPower(k: Calc, id: string, s: Sample)
    requires k.gridVolt > 0 && 0 < k.limits.minAmps
    ensures var r := k.Asked(id, s);
            && (!r.shouldStop && (s.solarW > 0 || s.consumptionW > 0)
                && s.solarW - s.consumptionW >= k.limits.minAmps * k.gridVolt ==>
                  Fits(r.limitAmps, s.solarW - s.consumptionW, k.gridVolt, k.limits.maxAmps))
            && (!r.shouldStop && s.solarW <= 0 && s.consumptionW <= 0 && -s.gridW >= k.limits.minAmps * k.gridVolt ==>
                  Fits(r.limitAmps, -s.gridW, k.gridVolt, k.limits.maxAmps))
  {
    var left := if s.solarW > 0 || s.consumptionW > 0 then s.solarW - s.consumptionW else -s.gridW;
    ReachesIff(left, k.gridVolt, k.limits.minAmps);
    LimitTracksSurplus(k.limits, k.Of(id), s, k.gridVolt);
    if !k.Asked(id, s).shouldStop && left >= k.limits.minAmps * k.gridVolt {
      assert left >= 0 by {
        TimesMonotone(0, k.limits.minAmps, k.gridVolt);
      }
      FitsNear(k.Asked(id, s).limitAmps, left, k.gridVolt, k.limits.maxAmps);
    }
  }

  /**
   The reason published with an answer tells where its limit comes from: the minimum of a stop, the remembered limit or
   the minimum while debouncing below it, the remembered limit within an ampere of the new one, or a new one, exactly
   what is left over up to the cap, by solar and consumption or by the grid.
   */
  lemma {:induction false} ReasonTells(k: Calc, id: string, s: Sample)
    requires k.gridVolt > 0 && 0 < k.limits.minAmps <= k.limits.maxAmps
    ensures var left := if s.solarW > 0 || s.consumptionW > 0 then s.solarW - s.consumptionW else -s.gridW;
            var r, last := k.Asked(id, s), k.Of(id).last;
            && (r.reason == InsufficientSurplus <==> r.shouldStop)
            && (r.shouldStop ==> r.limitAmps == k.limits.minAmps)
            && (r.reason == HoldingWhileDebouncing <==> !r.shouldStop && left < k.limits.minAmps * k.gridVolt)
            && (r.reason == HoldingWhileDebouncing ==>
                  r.limitAmps == k.limits.minAmps || (last == Some(r.limitAmps) && r.limitAmps > k.limits.minAmps))
            && (r.reason == WithinHysteresis ==> last == Some(r.limitAmps) && r.limitAmps > 0)
            && (r.reason == SolarMinusConsumption ==> s.solarW > 0 || s.consumptionW > 0)
            && (r.reason == GridFallback ==> s.solarW <= 0 && s.consumptionW <= 0)
            && (r.reason == SolarMinusConsumption || r.reason == GridFallback ==>
                  && r.limitAmps * k.gridVolt <= left
                  && (left < (r.limitAmps + 1) * k.gridVolt || r.limitAmps == k.limits.maxAmps)
                  && (last.Some? && last.value > 0 ==> Abs(r.limitAmps - last.value) >= 2))
  {
    var left := if s.solarW > 0 || s.consumptionW > 0 then s.solarW - s.consumptionW else -s.gridW;
    var ideal := Max(left, 0) / k.gridVolt;
    ReachesIff(left, k.gridVolt, k.limits.minAmps);
    FloorBetween(Max(left, 0), k.gridVolt, ideal);
    if ideal > k.limits.maxAmps {
      TimesMonotone(k.limits.maxAmps, ideal, k.gridVolt);
    }
  }

  // ---------------------------------------------------------------------------
  // One tick
  // ---------------------------------------------------------------------------

  /** What a tick's readings leave over; one that is not fresh counts as nothing. */
  function LeftOver(e: Energy): int {
    var solar, use := if e.solarFresh then e.solarW else 0, if e.consumptionFresh then e.consumptionW else 0;
    if solar > 0 || use > 0 then solar - use else -e.gridW
  }

  /** What is sent or announced to a charger keeps to what is left over, or is the safe limit of a stopped one. */
  predicate Keeps(c: Control, x: Entry, left: int)
    requires x.Profile? || x.Notified?
  {
    || Fits(x.amps, left, c.calculator.gridVolt, c.calculator.limits.maxAmps)
    || (c.calculator.Of(x.id).stop.isStopped && x.amps == c.safeAmps && (x.Notified? ==> x.stop))
  }

  /**
   A call with enough left over: its limit fits, and only a charger stopped before is answered a stop or stays
   stopped.
   */
  lemma CallKeeps(k: Calc, id: string, e: Energy)
    requires k.gridVolt > 0 && 0 < k.limits.minAmps && LeftOver(e) >= k.limits.minAmps * k.gridVolt
    ensures var r, k' := k.Asked(id, SampleOf(e)), k.Computed(id, SampleOf(e));
            && (if r.shouldStop then k.Of(id).stop.isStopped
                else Fits(r.limitAmps, LeftOver(e), k.gridVolt, k.limits.maxAmps))
            && forall other :: k'.Of(other).stop.isStopped ==> k.Of(other).stop.isStopped
  {
    BelowIff(k, id, SampleOf(e));
    LimitFitsPower(k, id, SampleOf(e));
  }

  /** The entries a call adds: a notice if the stop flag is news, and then a profile if the limit is. */
  lemma CallAdds(c: Control, t: Target, s: Sample, replies: Replies)
    requires c.calculator.gridVolt > 0
    ensures var d, r := ProcessTarget(c, t, s, replies), c.calculator.Asked(t.0, s);
            var amps := if r.shouldStop then c.safeAmps else r.limitAmps;
            && d.calculator == c.calculator.Computed(t.0, s)
            && d.trace == c.trace +
                 (if Lookup(c.lastStop, t) == Some(r.shouldStop) then []
                  else [Notified(t.0, amps, r.shouldStop, r.reason)]) +
                 (if Lookup(c.lastSet, t) == Some(amps) then [] else [ProfileTo(t, amps, replies)])
  {
    assert c.trace + [] == c.trace;
  }

  lemma TargetKeeps(c: Control, t: Target, e: Energy, replies: Replies)
    requires c.calculator.gridVolt > 0 && 0 < c.calculator.limits.minAmps
    requires LeftOver(e) >= c.calculator.limits.minAmps * c.calculator.gridVolt
    ensures var d := ProcessTarget(c, t, SampleOf(e), replies);
            && c.trace <= d.trace
            && (forall x :: x in Since(c.trace, d.trace) ==>
                  (x.Profile? || x.Notified?) && Keeps(c, x, LeftOver(e)))
            && forall id :: d.calculator.Of(id).stop.isStopped ==> c.calculator.Of(id).stop.isStopped
  {
    CallKeeps(c.calculator, t.0, e);
    CallAdds(c, t, SampleOf(e), replies);
  }

  lemma {:induction false} PassKeeps(c: Control, ts: seq<Target>, e: Energy, replies: Replies)
    requires c.calculator.gridVolt > 0 && 0 < c.calculator.limits.minAmps
    requires LeftOver(e) >= c.calculator.limits.minAmps * c.calculator.gridVolt
    ensures var d := ProcessTargets(c, ts, SampleOf(e), replies);
            && c.trace <= d.trace
            && (forall x :: x in Since(c.trace, d.trace) ==>
                  (x.Profile? || x.Notified?) && Keeps(c, x, LeftOver(e)))
            && forall id :: d.calculator.Of(id).stop.isStopped ==> c.calculator.Of(id).stop.isStopped
  {
    if ts != [] {
      var d := ProcessTargets(c, Front(ts), SampleOf(e), replies);
      PassKeeps(c, Front(ts), e, replies);
      ProcessFrame(c, Front(ts), SampleOf(e), replies);
      TargetKeeps(d, Last(ts), e, replies);
      ProcessLast(c, ts, SampleOf(e), replies);
      SinceTwice(c.trace, d.trace, ProcessTargets(c, ts, SampleOf(e), replies).trace);
    }
  }

  /**
   While what the readings leave over reaches the minimum, every limit a tick with fresh data sends or announces keeps
   to it, except the safe limit of a charger that was stopped.
   */
  lemma {:induction false} TickFitsPower(c: Control, e: Energy, v: View, replies: Replies, x: Entry)
    requires c.calculator.gridVolt > 0 && 0 < c.calculator.limits.minAmps
    requires c.enabled && !e.stale && v.chargers.Some?
    requires LeftOver(e) >= c.calculator.limits.minAmps * c.calculator.gridVolt
    ensures c.trace <= Tick(c, e, v, replies).trace
    ensures x in Since(c.trace, Tick(c, e, v, replies).trace) && (x.Profile? || x.Notified?) ==>
              Keeps(c, x, LeftOver(e))
  {
    TickHeldBackIff(c, e, v, replies);
    if !HeldBack(c, e) {
      var d := Tick(c, e, v, replies);
      var c1 := c.(gate := d.gate, trace := c.trace + GateLog(c, e, v));
      SolarGateRuns.GateSendsNoProfile(c.gate, v.chargers.value, c.overrides, e, v);
      PassKeeps(c1, Targets(v.chargers.value, v.conns, c.overrides), e, replies);
      SinceTwice(c.trace, c1.trace, d.trace);
      assert Since(c.trace, c1.trace) == GateLog(c, e, v);
    }
  }

  function DebounceTimes(st: StopState, below: bool, n: nat): StopState {
    if n == 0 then st else Debounce(DebounceTimes(st, below, n - 1), below)
  }

  predicate CountsBelow(c: Control, e: Energy) {
    c.calculator.limits.minAmps > 0 && LeftOver(e) < c.calculator.limits.minAmps * c.calculator.gridVolt
  }

  lemma CallDebounces(c: Control, t: Target, e: Energy, replies: Replies, id: string)
    requires c.calculator.gridVolt > 0
    ensures ProcessTarget(c, t, SampleOf(e), replies).calculator.Of(id).stop
         == if t.0 == id then Debounce(c.calculator.Of(id).stop, CountsBelow(c, e)) else c.calculator.Of(id).stop
  {
    BelowIff(c.calculator, t.0, SampleOf(e));
    CallAdds(c, t, SampleOf(e), replies);
  }

  lemma PassKeepsLimits(c: Control, ts: seq<Target>, s: Sample, replies: Replies)
    requires c.calculator.gridVolt > 0
    ensures ProcessTargets(c, ts, s, replies).calculator.limits == c.calculator.limits
  {
    ProcessFrame(c, ts, s, replies);
  }

  lemma VisitsOneMore(ts: seq<Target>, id: string)
    requires ts != []
    ensures |OfCharger(ts, id)| == |OfCharger(Front(ts), id)| + if Last(ts).0 == id then 1 else 0
  {
    assert ts == Front(ts) + [Last(ts)];
    OfChargerOneMore(Front(ts), Last(ts), id);
  }

  lemma {:induction false} PassDebounces(c: Control, ts: seq<Target>, e: Energy, replies: Replies, id: string)
    requires c.calculator.gridVolt > 0
    ensures ProcessTargets(c, ts, SampleOf(e), replies).calculator.Of(id).stop
         == DebounceTimes(c.calculator.Of(id).stop, CountsBelow(c, e), |OfCharger(ts, id)|)
  {
    if ts != [] {
      var d := ProcessTargets(c, Front(ts), SampleOf(e), replies);
      PassDebounces(c, Front(ts), e, replies, id);
      assert CountsBelow(d, e) == CountsBelow(c, e) by {
        PassKeepsLimits(c, Front(ts), SampleOf(e), replies);
      }
      CallDebounces(d, Last(ts), e, replies, id);
      VisitsOneMore(ts, id);
      assert ProcessTargets(c, ts, SampleOf(e), replies) == ProcessTarget(d, Last(ts), SampleOf(e), replies) by {
        ProcessLast(c, ts, SampleOf(e), replies);
      }
    }
  }

  /**
   A tick with fresh data that is not held back counts for a listed charger once for each of its connectors to visit:
   below the minimum exactly when that is positive and what the readings leave over does not reach it.
   */
  lemma {:induction false} TickCounts(c: Control, e: Energy, v: View, replies: Replies, i: nat)
    requires c.calculator.gridVolt > 0 && c.enabled && !e.stale
    requires v.chargers.Some? && DistinctIDs(v.chargers.value) && i < |v.chargers.value|
    ensures var ch := v.chargers.value[i];
            Tick(c, e, v, replies).calculator.Of(ch.id).stop ==
              if HeldBack(c, e) then c.calculator.Of(ch.id).stop
              else DebounceTimes(c.calculator.Of(ch.id).stop, CountsBelow(c, e), |TargetsOf(ch, v.conns, c.overrides)|)
  {
    TickHeldBackIff(c, e, v, replies);
    if !HeldBack(c, e) {
      var c1 := c.(gate := Tick(c, e, v, replies).gate, trace := c.trace + GateLog(c, e, v));
      PassDebounces(c1, Targets(v.chargers.value, v.conns, c.overrides), e, replies, v.chargers.value[i].id);
      OfChargerInListing(v.chargers.value, v.conns, c.overrides, i);
    }
  }
}
