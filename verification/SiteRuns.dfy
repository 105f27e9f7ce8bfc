/** Two reached runs in which the profile cache leaves a limit in force that always sending would not. */
module SiteRuns {
  import opened Options
  import opened Sequences
  import opened Ports
  import opened Trace
  import opened SmartCharging
  import opened Sessions
  import opened ChargerRepositories
  import opened Devices
  import SolarGate
  import opened Control
  import opened ControlSteps
  import opened ControlDedup
  import opened ControlSharing
  import opened System
  import opened SystemProfiles
  import opened Sites
  import ControlQuiet
  import Transactions

  const HERE: Target := ("c", 1)
  const PLUG := Connector("c", 1, Charging, "", "")
  const HOME := Repo(map["c" := OnlineCharger("c")], map["c" := [PLUG]])
  const NEW := Control(true, 6, SolarGate.Gate(0, 0, 0, {}), {}, map[], map[], Calc(Limits(6, 32), 230, map[]), [])

  function RefOf(c: Control): Reference {
    Reference(c.enabled, c.safeAmps, c.gate, c.overrides, c.calculator, [])
  }

  /** Solar production worth this many amperes, no consumption, and no other readings. */
  function Sun(amps: int): Energy {
    Energy(false, 0, amps * 230, true, 0, false)
  }

  /** The site after an operation. */
  ghost function Performed(a: Site, op: Op): Site
    requires Powered(a) && Matches(a.state.control, a.ref)
  {
    ApplyMatches(a.state, a.ref, op);
    var s, r := Apply(a.state, op), RefApply(a.ref, a.state.repo, op);
    Site(s, a.world, InForce(a.device, Since(a.state.control.trace, s.control.trace)), r,
         InForce(a.refDevice, Since(a.ref.trace, r.trace)))
  }

  lemma PerformedNext(a: Site, op: Op)
    requires Powered(a) && Matches(a.state.control, a.ref)
    requires Enabled(a.state, op) && Knowing(a.world.book, op)
    ensures Next(a, Operate(op), Performed(a, op))
  {
    ApplyMatches(a.state, a.ref, op);
  }

  /** One charger with one drawing connector, the loop in its usual settings, its memory new or holding this limit. */
  ghost predicate Home(a: Site, amps: int) {
    a.state.repo == HOME && Matches(a.state.control, a.ref) && Usual(a.state.control, amps)
  }

  ghost predicate Usual(c: Control, amps: int) {
    && c.enabled && c.gate == NEW.gate && c.overrides == {}
    && c.calculator.limits == Limits(6, 32) && c.calculator.gridVolt == 230
    && (c.calculator.Of("c") == FRESH || c.calculator.Of("c") == Memory(RUNNING, Some(amps)))
  }

  /** The tick's one send is made unless it is cached; always sending makes it. */
  ghost predicate Sent(a: Site, b: Site, x: Entry)
    requires IsSend(x)
  {
    && b.world == a.world
    && b.device == (if Cached(a.state.control, x) then a.device else Deliver(a.device, x))
    && b.refDevice == Deliver(a.refDevice, x)
    && b.state.control.lastSet
       == (if x.accepted then a.state.control.lastSet[TargetOf(x) := x.amps] else a.state.control.lastSet)
  }

  lemma HomeTargets(conns: map<string, seq<Connector>>)
    requires "c" in conns && conns["c"] == [PLUG]
    ensures Targets([OnlineCharger("c")], conns, {}) == [HERE]
  {
    OneDrawing("c", conns);
    assert Front([OnlineCharger("c")]) == [];
    assert Targets([], conns, {}) + [HERE] == [HERE];
  }

  function HomeTick(amps: int, replies: Replies): Op {
    TickOp([OnlineCharger("c")], Sun(amps), replies)
  }

  lemma OneTarget(c: Control, r: Reference, s: Sample, replies: Replies)
    requires c.calculator.gridVolt > 0 && r.calculator.gridVolt > 0
    ensures ProcessTargets(c, [HERE], s, replies) == ProcessTarget(c, HERE, s, replies)
    ensures RefTargets(r, [HERE], s, replies) == RefTarget(r, HERE, s, replies)
  {
    assert Front([HERE]) == [];
  }

  function HomeView(replies: Replies): View {
    ViewOf(HOME, [OnlineCharger("c")], replies.live)
  }

  lemma OneTargetTick(c: Control, r: Reference, amps: int, replies: Replies)
    requires Usual(c, amps) && Matches(c, r)
    ensures Tick(c, Sun(amps), HomeView(replies), replies) == ProcessTarget(c, HERE, SampleOf(Sun(amps)), replies)
    ensures RefTick(r, Sun(amps), HomeView(replies), replies) == RefTarget(r, HERE, SampleOf(Sun(amps)), replies)
  {
    var v := HomeView(replies);
    HomeTargets(v.conns);
    ControlQuiet.SteadyTick(c, Sun(amps), v, [OnlineCharger("c")], replies);
    assert c.gate.(below := 0, above := 0) == c.gate;
    OneTarget(c, r, SampleOf(Sun(amps)), replies);
  }

  lemma HomeAnswer(c: Control, amps: int)
    requires Usual(c, amps) && 6 <= amps <= 32
    ensures var s := SampleOf(Sun(amps));
            && Wanted(c, c.calculator.Asked("c", s)) == amps
            && c.calculator.Computed("c", s).Of("c") == Memory(RUNNING, Some(amps))
            && c.calculator.Computed("c", s) == Calc(c.calculator.limits, 230, c.calculator.Computed("c", s).mem)
  {
    assert amps * 230 / 230 == amps;
    NewAnswer(c, "c", SampleOf(Sun(amps)));
  }

  /** The tick's one send, and what it leaves. */
  lemma HomeSends(c: Control, r: Reference, amps: int, replies: Replies, d: Device, rd: Device)
    requires Usual(c, amps) && Matches(c, r) && 6 <= amps <= 32
    ensures var s, x := SampleOf(Sun(amps)), ProfileTo(HERE, amps, replies);
            var c', r' := ProcessTarget(c, HERE, s, replies), RefTarget(r, HERE, s, replies);
            && Usual(c', amps) && Matches(c', r')
            && Sends(c, c', x, d)
            && r.trace <= r'.trace && InForce(rd, Since(r.trace, r'.trace)) == Deliver(rd, x)
  {
    var s, x := SampleOf(Sun(amps)), ProfileTo(HERE, amps, replies);
    HomeAnswer(c, amps);
    TargetSends(c, HERE, s, replies, d);
    TargetMatches(c, r, HERE, s, replies);
    TargetFrame(c, HERE, s, replies);
    assert ProcessTarget(c, HERE, s, replies).calculator == c.calculator.Computed("c", s);
    assert Since(r.trace, r.trace + [x]) == [] + [x];
    InForceAppend(rd, [], x);
  }

  lemma TicksAtHome(a: Site, amps: int, replies: Replies)
    requires Home(a, amps) && 6 <= amps <= 32
    requires Informed(a.world.book, replies.live)
    ensures var b := Performed(a, HomeTick(amps, replies));
            && Next(a, Operate(HomeTick(amps, replies)), b)
            && Home(b, amps) && Sent(a, b, ProfileTo(HERE, amps, replies))
  {
    PerformedNext(a, HomeTick(amps, replies));
    OneTargetTick(a.state.control, a.ref, amps, replies);
    HomeSends(a.state.control, a.ref, amps, replies, a.device, a.refDevice);
  }

  /** From scratch a charger connects and reports that it is charging. */
  lemma ArrivesHome(a: Site, amps: int)
    requires a.state == State(Repo(map[], map[]), NEW) && Matches(NEW, a.ref)
    ensures var b := Performed(a, Connect("c"));
            && Next(a, Operate(Connect("c")), b)
            && Matches(b.state.control, b.ref) && Powered(b)
            && var d := Performed(b, ReportStatus(PLUG));
               && Next(b, Operate(ReportStatus(PLUG)), d)
               && Home(d, amps) && d.state.control.lastSet == map[]
               && d.world == a.world && d.device == a.device && d.refDevice == a.refDevice
  {
    PerformedNext(a, Connect("c"));
    var b := Performed(a, Connect("c"));
    ApplyMatches(a.state, a.ref, Connect("c"));
    PerformedNext(b, ReportStatus(PLUG));
    assert Upserted([], PLUG) == [PLUG];
    assert b.device == a.device && b.refDevice == a.refDevice;
  }

  const NOBODY := Transactions.World(map[], map[], {}, {}, {})
  const UNSET := Device(map[], map[])
  const START := Site(State(Repo(map[], map[]), NEW), NOBODY, UNSET, RefOf(NEW), UNSET)
  /** Nobody's transaction is known; or that of the one transaction under way. */
  const BLIND := Replies({HERE}, map[], {HERE})
  const SEEING := Replies({HERE}, map[HERE := 7], {HERE})

  lemma Extended(run: seq<Site>, steps: seq<Step>, s: Step, b: Site)
    requires Execution(run, steps) && Next(Last(run), s, b)
    ensures Execution(run + [b], steps + [s])
  {
  }

  /** All profiles offered in the run are accepted, and no limit is set by hand. */
  predicate Smooth(steps: seq<Step>) {
    forall i :: 0 <= i < |steps| && steps[i].Operate? ==>
      var op := steps[i].op;
      !op.SetAmps? && (op.TickOp? ==> HERE in op.replies.accepts && HERE in op.replies.acceptsTx)
  }

  /** The run goes on with the charger connecting and reporting. */
  lemma {:induction false} ThenArrives(run: seq<Site>, steps: seq<Step>, amps: int)
    returns (run': seq<Site>, steps': seq<Step>)
    requires Execution(run, steps) && Smooth(steps)
    requires Last(run).state == START.state && Matches(NEW, Last(run).ref)
    ensures Execution(run', steps') && Smooth(steps')
    ensures Home(Last(run'), amps) && Last(run').state.control.lastSet == map[]
    ensures var a, b := Last(run), Last(run'); b.world == a.world && b.device == a.device && b.refDevice == a.refDevice
  {
    ArrivesHome(Last(run), amps);
    var b := Performed(Last(run), Connect("c"));
    var d := Performed(b, ReportStatus(PLUG));
    Extended(run, steps, Operate(Connect("c")), b);
    Extended(run + [b], steps + [Operate(Connect("c"))], Operate(ReportStatus(PLUG)), d);
    return run + [b] + [d], steps + [Operate(Connect("c"))] + [Operate(ReportStatus(PLUG))];
  }

  /** The run goes on with a tick. */
  lemma {:induction false} ThenTicks(run: seq<Site>, steps: seq<Step>, amps: int, replies: Replies)
    returns (run': seq<Site>, steps': seq<Step>)
    requires Execution(run, steps)
    requires Home(Last(run), amps) && 6 <= amps <= 32 && Informed(Last(run).world.book, replies.live)
    ensures Execution(run', steps')
    ensures Smooth(steps) && HERE in replies.accepts && HERE in replies.acceptsTx ==> Smooth(steps')
    ensures Home(Last(run'), amps) && Sent(Last(run), Last(run'), ProfileTo(HERE, amps, replies))
  {
    var tick := Operate(HomeTick(amps, replies));
    TicksAtHome(Last(run), amps, replies);
    var b := Performed(Last(run), HomeTick(amps, replies));
    Extended(run, steps, tick, b);
    SmoothTick(steps, amps, replies);
    return run + [b], steps + [tick];
  }

  lemma SmoothTick(steps: seq<Step>, amps: int, replies: Replies)
    ensures Smooth(steps) && HERE in replies.accepts && HERE in replies.acceptsTx ==>
              Smooth(steps + [Operate(HomeTick(amps, replies))])
  {
  }

  /** The run goes on with a transaction's step. */
  lemma {:induction false} ThenTransacts(run: seq<Site>, steps: seq<Step>, t: Transactions.Step, b: Site)
    returns (run': seq<Site>, steps': seq<Step>)
    requires Execution(run, steps) && Smooth(steps) && Next(Last(run), Transact(t), b)
    ensures Execution(run', steps') && Smooth(steps') && Last(run') == b
  {
    Extended(run, steps, Transact(t), b);
    return run + [b], steps + [Transact(t)];
  }

  lemma StartIsExecution()
    ensures Execution([START], []) && Smooth([])
  {
  }

  /** A charger arrives and a first tick sets its standing limit. */
  lemma {:induction false} FirstTick(amps: int) returns (run: seq<Site>, steps: seq<Step>)
    requires 6 <= amps <= 32
    ensures Execution(run, steps) && Smooth(steps)
    ensures var a := Last(run);
            && Home(a, amps) && a.world == NOBODY
            && a.device == a.refDevice == Device(map[HERE := amps], map[])
            && a.state.control.lastSet == map[HERE := amps]
  {
    StartIsExecution();
    run, steps := ThenArrives([START], [], amps);
    run, steps := ThenTicks(run, steps, amps, BLIND);
  }

  const STARTED := Transactions.World(
    map["s" := Opened("s", 7, HERE, "tag", 0.0, 0)], map[HERE := 7], {("c", 7)}, {"s"}, {HERE})

  const FORGOTTEN := STARTED.(book := map[], announced := {})

  /** A transaction starts under that limit, and the central system restarts. */
  lemma {:induction false} RestartsDuringTransaction(amps: int) returns (run: seq<Site>, steps: seq<Step>)
    requires 6 <= amps <= 32
    ensures Execution(run, steps) && Smooth(steps)
    ensures Last(run) == Site(START.state, FORGOTTEN, Last(run).device, RefOf(NEW), Last(run).device)
    ensures Last(run).device == Device(map[HERE := amps], map[HERE := amps])
  {
    run, steps := FirstTick(amps);
    var a := Last(run);
    var d := Begun(a.device, HERE);
    run, steps := ThenTransacts(run, steps, Transactions.Start(HERE, 7, "s", "tag", 0.0, 0),
                                a.(world := STARTED, device := d, refDevice := d));
    run, steps := ThenTransacts(run, steps, Transactions.Wipe, Site(START.state, FORGOTTEN, d, RefOf(NEW), d));
  }

  const RECOVERED := Transactions.World(
    map["r" := Recovered("r", 7, HERE, 1)], map[HERE := 7], {("c", 7)}, {"s", "r"}, {HERE})

  lemma RecoversAtHome(a: Site, amps: int)
    requires Home(a, amps) && a.world == FORGOTTEN
    ensures var b := a.(world := RECOVERED);
            && Next(a, Transact(Transactions.Meter(HERE, true, "r", 1)), b)
            && Informed(b.world.book, SEEING.live)
  {
    var b := a.(world := RECOVERED);
    assert !Knows(FORGOTTEN.book, "c", 7);
    assert STARTED.usedIDs + {"r"} == RECOVERED.usedIDs && FORGOTTEN.announced + {HERE} == RECOVERED.announced;
    assert map[]["r" := Recovered("r", 7, HERE, 1)] == RECOVERED.book;
    assert ApplyToRepo(HOME, ReportStatus(PLUG)) == HOME by {
      assert Upserted([PLUG], PLUG) == [PLUG];
      assert HOME.connectors["c" := [PLUG]] == HOME.connectors;
    }
    assert IsActiveAt(b.world.book["r"], HERE);
  }

  /**
   No send is refused and nothing is set by hand. A transaction starts under a limit of 10 amperes; the central
   system restarts; its first tick wants 16, knows of no transaction, and only the standing limit follows; then
   MeterValues bring the session back, and the next tick wants 16 and skips the send. The transaction is left at
   10 amperes, where always sending puts it at 16.
   */
  lemma {:induction false} RestartLeavesOldLimit() returns (run: seq<Site>, steps: seq<Step>)
    ensures Execution(run, steps) && Smooth(steps)
    ensures var a := Last(run);
            && a.world.open == map[HERE := 7]
            && At(a.device, HERE) == (Some(16), Some(10))
            && At(a.refDevice, HERE) == (Some(16), Some(16))
  {
    run, steps := RestartsDuringTransaction(10);
    run, steps := ThenArrives(run, steps, 16);
    run, steps := ThenTicks(run, steps, 16, BLIND);
    var a := Last(run);
    RecoversAtHome(a, 16);
    run, steps := ThenTransacts(run, steps, Transactions.Meter(HERE, true, "r", 1), a.(world := RECOVERED));
    run, steps := ThenTicks(run, steps, 16, SEEING);
  }

  lemma ManualLogAtHome(byHand: int, d: Device)
    ensures ManualLog("c", [PLUG], byHand, BLIND) == [ManualProfileTo(HERE, byHand, BLIND)]
    ensures InForce(d, [ManualProfileTo(HERE, byHand, BLIND)]) == Deliver(d, ManualProfileTo(HERE, byHand, BLIND))
  {
    assert Front([PLUG]) == [];
    InForceAppend(d, [], ManualProfileTo(HERE, byHand, BLIND));
    assert [] + [ManualProfileTo(HERE, byHand, BLIND)] == [ManualProfileTo(HERE, byHand, BLIND)];
  }

  lemma SetControl(c: Control, r: Reference, byHand: int)
    requires c.overrides == r.overrides == {}
    requires c.calculator.gridVolt > 0 && r.calculator.gridVolt > 0
    ensures var op, x := SetAmps("c", byHand, BLIND), ManualProfileTo(HERE, byHand, BLIND);
            && ApplyToControl(c, HOME, op) == c.(overrides := {"c"}, trace := c.trace + [x])
            && RefApply(r, HOME, op) == r.(overrides := {"c"}, trace := r.trace + [x])
  {
    var x := ManualProfileTo(HERE, byHand, BLIND);
    ManualLogAtHome(byHand, UNSET);
    assert HOME.Of("c") == [PLUG];
    assert AnyAccepted([x]) by {
      assert x in [x];
    }
    assert {} + {"c"} == {"c"};
  }

  lemma SetAtHome(a: Site, amps: int, byHand: int)
    requires Home(a, amps) && a.world == NOBODY
    ensures var b, x := Performed(a, SetAmps("c", byHand, BLIND)), ManualProfileTo(HERE, byHand, BLIND);
            && Next(a, Operate(SetAmps("c", byHand, BLIND)), b)
            && Matches(b.state.control, b.ref)
            && b.world == a.world && b.state.repo == HOME
            && b.state.control == a.state.control.(overrides := {"c"}, trace := a.state.control.trace + [x])
            && b.device == Deliver(a.device, x) && b.refDevice == Deliver(a.refDevice, x)
  {
    var op, x := SetAmps("c", byHand, BLIND), ManualProfileTo(HERE, byHand, BLIND);
    PerformedNext(a, op);
    ApplyMatches(a.state, a.ref, op);
    SetControl(a.state.control, a.ref, byHand);
    ManualLogAtHome(byHand, a.device);
    ManualLogAtHome(byHand, a.refDevice);
    assert Since(a.state.control.trace, a.state.control.trace + [x]) == [x] == Since(a.ref.trace, a.ref.trace + [x]);
  }

  lemma AutomaticAtHome(a: Site, amps: int)
    requires a.state.repo == HOME && Matches(a.state.control, a.ref) && Usual(a.state.control.(overrides := {}), amps)
    requires a.state.control.overrides == {"c"}
    ensures var b := Performed(a, SetMode("c", false));
            && Next(a, Operate(SetMode("c", false)), b)
            && Home(b, amps) && b == a.(state := b.state, ref := b.ref)
            && b.state.control.lastSet == a.state.control.lastSet
  {
    PerformedNext(a, SetMode("c", false));
    ApplyMatches(a.state, a.ref, SetMode("c", false));
    assert {"c"} - {"c"} == {};
  }

  /**
   A tick sends 16 amperes, the user sets 10 and switches the charger back to automatic, and the next tick wants
   16 again: it is cached, and the charger is left at 10.
   */
  lemma {:induction false} ManualLimitStays() returns (run: seq<Site>, steps: seq<Step>)
    ensures Execution(run, steps)
    ensures At(Last(run).device, HERE) == (Some(10), None)
    ensures At(Last(run).refDevice, HERE) == (Some(16), None)
  {
    run, steps := FirstTick(16);
    var a := Last(run);
    SetAtHome(a, 16, 10);
    var b := Performed(a, SetAmps("c", 10, BLIND));
    AutomaticAtHome(b, 16);
    var d := Performed(b, SetMode("c", false));
    Extended(run, steps, Operate(SetAmps("c", 10, BLIND)), b);
    run, steps := run + [b], steps + [Operate(SetAmps("c", 10, BLIND))];
    Extended(run, steps, Operate(SetMode("c", false)), d);
    run, steps := run + [d], steps + [Operate(SetMode("c", false))];
    run, steps := ThenTicks(run, steps, 16, BLIND);
  }
}
