/**
 A reached run in which the solar gate first marks a charger that is not charging and then starts it although
 the user has taken it over.
 */
module GateRuns {
  import opened Options
  import opened Sequences
  import opened Ports
  import opened Trace
  import opened ChargerRepositories
  import opened SolarGate
  import opened SolarGateRuns
  import opened Control
  import opened System
  import SystemGate
  import GateCommands

  const IDLE := Connector("c", 1, Available, "", "")
  const THERE := Charger("c", "", "", "", "", true)
  const SITE := Repo(map["c" := THERE], map["c" := [IDLE]])

  /** Nobody charges. */
  const SILENCE := Replies({}, map[], {})

  function Solar(watts: int): Op {
    TickOp([THERE], Energy(false, 0, watts, true, 0, false), SILENCE)
  }

  /** Three ticks without sun, the user takes over, two ticks with sun. */
  function Story(): seq<Op> {
    [Connect("c"), ReportStatus(IDLE), SetSolarThreshold(1000), Solar(0), Solar(0), Solar(0),
     SetMode("c", true), Solar(2000), Solar(2000)]
  }

  ghost predicate Idle(s: State, gate: Gate, overrides: set<string>) {
    && s.control.calculator.gridVolt > 0 && s.control.enabled
    && s.repo == SITE && s.control.gate == gate && s.control.overrides == overrides
  }

  lemma ListsThere()
    ensures Lists([THERE], SITE.chargers) && RepoValid(SITE)
    ensures IDs([THERE]) == {"c"} && OfflineIDs([THERE]) == {}
    ensures WellFormed(ViewOf(SITE, [THERE], map[]))
  {
    assert THERE in [THERE];
    ListingIsWellFormed(SITE, [THERE], map[]);
  }

  lemma OneEvaluation(g: Gate, overrides: set<string>, e: Energy, v: View)
    requires g.threshold > 0 && e.solarFresh
    ensures var g' := Evaluate(g, [THERE], overrides, e, v).gate;
            if e.solarW < g.threshold then
              g' == Gate(g.threshold, g.below + 1, 0,
                         if g.below + 1 == STOP_TICKS && "c" !in overrides then g.stopped + {"c"} else g.stopped)
            else
              g' == Gate(g.threshold, 0, g.above + 1,
                         if g.above + 1 == START_TICKS then g.stopped - {"c"} else g.stopped)
  {
    ListsThere();
    ForgetOfflineEffect(Burst(g.stopped, []), [THERE]);
    assert g.stopped - {} == g.stopped;
    StopBurstEffect(Burst(g.stopped, []), [THERE], overrides, v);
    StartBurstEffect(Burst(g.stopped, []), [THERE], v);
    assert Stoppable([THERE], overrides) == if "c" in overrides then {} else {"c"};
  }

  /** The gate after a tick with this production. */
  function Moved(g: Gate, overrides: set<string>, watts: int): Gate {
    if watts < 1000 then
      Gate(1000, g.below + 1, 0,
           if g.below + 1 == STOP_TICKS && "c" !in overrides then g.stopped + {"c"} else g.stopped)
    else
      Gate(1000, 0, g.above + 1, if g.above + 1 == START_TICKS then g.stopped - {"c"} else g.stopped)
  }

  /** One tick, with the gate's counters and what it holds moved on. */
  lemma SolarTick(s: State, gate: Gate, overrides: set<string>, watts: int)
    requires Idle(s, gate, overrides) && gate.threshold == 1000
    ensures Enabled(s, Solar(watts))
    ensures Idle(Apply(s, Solar(watts)), Moved(gate, overrides, watts), overrides)
  {
    ListsThere();
    var op := Solar(watts);
    var v := ViewOf(SITE, [THERE], map[]);
    SystemGate.TickGate(s.control, op.energy, v, SILENCE);
    OneEvaluation(gate, overrides, op.energy, v);
  }

  lemma Prepared(s: State)
    requires Initial(s) && s.control.enabled
    ensures var ops := Story()[..3];
            ValidRun(s, ops) && Idle(Run(s, ops), Gate(1000, 0, 0, {}), {})
  {
    RunThree(s, Connect("c"), ReportStatus(IDLE), SetSolarThreshold(1000));
    assert Story()[..3] == [Connect("c"), ReportStatus(IDLE), SetSolarThreshold(1000)];
    assert Upserted([], IDLE) == [IDLE];
    assert Int32(1000) == 1000;
  }

  /** The run is possible and has come to this. */
  ghost predicate Reaches(s: State, ops: seq<Op>, gate: Gate, overrides: set<string>)
    requires s.control.calculator.gridVolt > 0
  {
    ValidRun(s, ops) && Idle(Run(s, ops), gate, overrides)
  }

  lemma TickAfter(s: State, ops: seq<Op>, gate: Gate, overrides: set<string>, watts: int)
    requires s.control.calculator.gridVolt > 0
    requires Reaches(s, ops, gate, overrides) && gate.threshold == 1000
    ensures Reaches(s, ops + [Solar(watts)], Moved(gate, overrides, watts), overrides)
  {
    SolarTick(Run(s, ops), gate, overrides, watts);
    RunOneMore(s, ops, Solar(watts));
  }

  /** After five operations the gate has counted two dark ticks. */
  lemma TwoDarkTicks(s: State)
    requires Initial(s) && s.control.enabled
    ensures Reaches(s, Story()[..5], Gate(1000, 2, 0, {}), {})
  {
    Prepared(s);
    TickAfter(s, Story()[..3], Gate(1000, 0, 0, {}), {}, 0);
    assert Story()[..4] == Story()[..3] + [Solar(0)];
    TickAfter(s, Story()[..4], Gate(1000, 1, 0, {}), {}, 0);
    assert Story()[..5] == Story()[..4] + [Solar(0)];
  }

  lemma TakenOver(s: State)
    requires s.control.calculator.gridVolt > 0 && Reaches(s, Story()[..6], Gate(1000, 3, 0, {"c"}), {})
    ensures Reaches(s, Story()[..7], Gate(1000, 3, 0, {"c"}), {"c"})
  {
    RunOneMore(s, Story()[..6], SetMode("c", true));
    assert Story()[..7] == Story()[..6] + [SetMode("c", true)];
    assert {} + {"c"} == {"c"};
  }

  /** After eight it has stopped the charger, the user has taken it over, and one bright tick is counted. */
  lemma OneBrightTick(s: State)
    requires Initial(s) && s.control.enabled
    ensures Reaches(s, Story()[..8], Gate(1000, 0, 1, {"c"}), {"c"})
  {
    TwoDarkTicks(s);
    TickAfter(s, Story()[..5], Gate(1000, 2, 0, {}), {}, 0);
    assert Story()[..6] == Story()[..5] + [Solar(0)];
    assert {} + {"c"} == {"c"};
    TakenOver(s);
    TickAfter(s, Story()[..7], Gate(1000, 3, 0, {"c"}), {"c"}, 2000);
    assert Story()[..8] == Story()[..7] + [Solar(2000)];
  }

  /** What a tick adds to the trace. */
  function Added(w: State, op: Op): seq<Entry>
    requires w.control.calculator.gridVolt > 0
  {
    var a, b := w.control.trace, Apply(w, op).control.trace;
    if a <= b then Since(a, b) else []
  }

  lemma ThirdDarkTick(w: State)
    requires Idle(w, Gate(1000, 2, 0, {}), {})
    ensures GateMarked("c") in Added(w, Solar(0)) && forall id, tx :: RemoteStop(id, tx) !in Added(w, Solar(0))
  {
    ListsThere();
    var v := ViewOf(SITE, [THERE], map[]);
    assert THERE in [THERE];
    GateCommands.MarkIff(w.control, Solar(0).energy, v, SILENCE, "c");
    forall id, tx ensures RemoteStop(id, tx) !in Added(w, Solar(0)) {
      GateCommands.RemoteStopIff(w.control, Solar(0).energy, v, SILENCE, id, tx);
    }
  }

  lemma SecondBrightTick(w: State)
    requires Idle(w, Gate(1000, 0, 1, {"c"}), {"c"})
    ensures RemoteStart("c", 1) in Added(w, Solar(2000))
  {
    ListsThere();
    var v := ViewOf(SITE, [THERE], map[]);
    GateCommands.RemoteStartIff(w.control, Solar(2000).energy, v, SILENCE, "c", 1);
    assert IDLE in v.conns["c"];
  }

  /** After the first five operations of the story the next, a third dark tick, marks the charger and stops nothing. */
  lemma {:induction false} IdleIsMarked(s: State)
    requires Initial(s) && s.control.enabled
    ensures ValidRun(s, Story()[..5]) && Enabled(Run(s, Story()[..5]), Solar(0)) && Story()[5] == Solar(0)
    ensures var added := Added(Run(s, Story()[..5]), Solar(0));
            GateMarked("c") in added && forall id, tx :: RemoteStop(id, tx) !in added
  {
    TwoDarkTicks(s);
    var w := Run(s, Story()[..5]);
    SolarTick(w, Gate(1000, 2, 0, {}), {}, 0);
    ThirdDarkTick(w);
  }

  /**
   From scratch, without any transaction: after the first eight operations the user has taken the charger over,
   and the next, a second bright tick, starts its connector.
   */
  lemma {:induction false} OverriddenIsStarted(s: State)
    requires Initial(s) && s.control.enabled
    ensures ValidRun(s, Story()[..8]) && Enabled(Run(s, Story()[..8]), Solar(2000)) && Story()[8] == Solar(2000)
    ensures "c" in Run(s, Story()[..8]).control.overrides
    ensures RemoteStart("c", 1) in Added(Run(s, Story()[..8]), Solar(2000))
  {
    OneBrightTick(s);
    var w := Run(s, Story()[..8]);
    SolarTick(w, Gate(1000, 0, 1, {"c"}), {"c"}, 2000);
    SecondBrightTick(w);
  }
}
