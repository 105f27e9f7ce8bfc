/**
 What a run leaves in the repository and in the settings, in terms of the operations themselves: each is what the last
 operation that concerns it made it.
 */
module SystemHistory {
  import opened Sequences
  import opened Ports
  import Trace
  import opened SmartCharging
  import opened ChargerRepositories
  import opened System
  import SystemGate

  /** The i-th operation is the last one of its kind. */
  ghost predicate LastThat(ops: seq<Op>, i: nat, kind: Op -> bool) {
    i < |ops| && kind(ops[i]) && forall j :: i < j < |ops| ==> !kind(ops[j])
  }

  ghost predicate NoneThat(ops: seq<Op>, kind: Op -> bool) {
    forall j :: 0 <= j < |ops| ==> !kind(ops[j])
  }

  /** Of a kind the last operation either is the last of all, or is among those before that. */
  lemma LastThatSplit(ops: seq<Op>, i: nat, kind: Op -> bool)
    requires ops != []
    ensures LastThat(ops, i, kind) <==>
              if kind(Last(ops)) then i == |ops| - 1 else LastThat(Front(ops), i, kind)
    ensures NoneThat(ops, kind) <==> !kind(Last(ops)) && NoneThat(Front(ops), kind)
  {
    assert ops[|ops| - 1] == Last(ops);
    assert forall j :: 0 <= j < |Front(ops)| ==> Front(ops)[j] == ops[j];
    if kind(Last(ops)) && i < |ops| - 1 {
      assert kind(ops[|ops| - 1]);
    }
  }

  /** Something began before the n-th operation and has not ended since. */
  ghost predicate Since(n: nat, begins: nat -> bool, ends: nat -> bool) {
    exists i: nat :: i < n && begins(i) && forall j: nat :: i < j < n ==> !ends(j)
  }

  lemma SinceStep(n: nat, begins: nat -> bool, ends: nat -> bool)
    ensures Since(n + 1, begins, ends) <==> begins(n) || (Since(n, begins, ends) && !ends(n))
  {
    if Since(n + 1, begins, ends) {
      var i: nat :| i < n + 1 && begins(i) && forall j: nat :: i < j < n + 1 ==> !ends(j);
      assert i < n ==> Since(n, begins, ends) && !ends(n);
    }
    if begins(n) {
      assert Since(n + 1, begins, ends);
    } else if Since(n, begins, ends) && !ends(n) {
      var i: nat :| i < n && begins(i) && forall j: nat :: i < j < n ==> !ends(j);
      assert Since(n + 1, begins, ends);
    }
  }

  // ---------------------------------------------------------------------------
  // Chargers and connectors
  // ---------------------------------------------------------------------------

  /** The charger connects or introduces itself. */
  predicate Appears(op: Op, id: string) {
    op == Connect(id) || (op.Boot? && op.charger.id == id)
  }

  function Appearing(id: string): Op -> bool {
    (op: Op) => Appears(op, id)
  }

  function ComingOrGoing(id: string): Op -> bool {
    (op: Op) => Appears(op, id) || op == Disconnect(id)
  }

  function Booting(id: string): Op -> bool {
    (op: Op) => op.Boot? && op.charger.id == id
  }

  lemma {:induction false} KnownIff(s: State, ops: seq<Op>, id: string)
    requires Initial(s)
    ensures id in Run(s, ops).repo.chargers <==> !NoneThat(ops, Appearing(id))
  {
    if ops != [] {
      KnownIff(s, Front(ops), id);
      LastThatSplit(ops, 0, Appearing(id));
    }
  }

  /** In every run a known charger is online exactly when it last came rather than went. */
  lemma {:induction false} OnlineIff(s: State, ops: seq<Op>, id: string, i: nat)
    requires Initial(s) && LastThat(ops, i, ComingOrGoing(id))
    requires id in Run(s, ops).repo.chargers
    ensures Run(s, ops).repo.chargers[id].online <==> Appears(ops[i], id)
  {
    LastThatSplit(ops, i, ComingOrGoing(id));
    if !ComingOrGoing(id)(Last(ops)) {
      OnlineIff(s, Front(ops), id, i);
    }
  }

  /** What is known of it is what it said when it last introduced itself, or nothing. */
  lemma {:induction false} DetailsAreTheLastBoot(s: State, ops: seq<Op>, id: string, i: nat)
    requires Initial(s) && id in Run(s, ops).repo.chargers
    ensures var ch := Run(s, ops).repo.chargers[id];
            && (LastThat(ops, i, Booting(id)) ==> ch == ops[i].charger.(online := ch.online))
            && (NoneThat(ops, Booting(id)) ==> ch == Charger(id, "", "", "", "", ch.online))
  {
    if ops != [] {
      LastThatSplit(ops, i, Booting(id));
      if id in Run(s, Front(ops)).repo.chargers {
        DetailsAreTheLastBoot(s, Front(ops), id, i);
      } else if LastThat(Front(ops), i, Booting(id)) {
        KnownIff(s, Front(ops), id);
        assert Appears(Front(ops)[i], id);
      }
    }
  }

  function Reporting(t: Target): Op -> bool {
    (op: Op) => op.ReportStatus? && op.connector.chargerID == t.0 && op.connector.connectorID == t.1
  }

  lemma OnlyOneOfANumber(conns: seq<Connector>, a: Connector, b: Connector)
    requires DistinctConnectors(conns) && a in conns && a.connectorID == b.connectorID
    ensures b in conns <==> b == a
  {
    var i :| 0 <= i < |conns| && conns[i] == a;
    if b in conns {
      var j :| 0 <= j < |conns| && conns[j] == b;
    }
  }

  lemma ListStep(w: State, op: Op, k: Connector)
    requires w.control.calculator.gridVolt > 0 && RepoValid(w.repo)
    ensures k in Apply(w, op).repo.Of(k.chargerID) <==>
              op == ReportStatus(k) ||
              (k in w.repo.Of(k.chargerID) && !Reporting((k.chargerID, k.connectorID))(op))
  {
    if op.ReportStatus? && op.connector.chargerID == k.chargerID {
      var conns := w.repo.Of(k.chargerID);
      assert k.chargerID in w.repo.connectors ==> DistinctConnectors(conns);
      UpsertedKeepsDistinct(conns, op.connector);
      assert Apply(w, op).repo.Of(k.chargerID) == Upserted(conns, op.connector);
      if op.connector.connectorID == k.connectorID {
        OnlyOneOfANumber(Upserted(conns, op.connector), op.connector, k);
      }
    }
  }

  function ReportsOf(ops: seq<Op>, k: Connector): nat -> bool {
    (i: nat) => i < |ops| && ops[i] == ReportStatus(k)
  }

  function ReportsOfNumber(ops: seq<Op>, k: Connector): nat -> bool {
    (i: nat) => i < |ops| && Reporting((k.chargerID, k.connectorID))(ops[i])
  }

  /** In every run a connector is listed exactly as it was last reported, and only if it was. */
  lemma {:induction false} ListedIff(s: State, ops: seq<Op>, k: Connector, n: nat)
    requires Initial(s) && n <= |ops|
    ensures k in Run(s, ops[..n]).repo.Of(k.chargerID) <==> Since(n, ReportsOf(ops, k), ReportsOfNumber(ops, k))
  {
    if n > 0 {
      ListedIff(s, ops, k, n - 1);
      SinceStep(n - 1, ReportsOf(ops, k), ReportsOfNumber(ops, k));
      RunKeepsRepo(s, ops[..n - 1]);
      ListStep(Run(s, ops[..n - 1]), ops[n - 1], k);
      assert Front(ops[..n]) == ops[..n - 1];
    }
  }

  // ---------------------------------------------------------------------------
  // Settings
  // ---------------------------------------------------------------------------

  const SWITCHING := (op: Op) => op.SetSmartCharging?

  const SETTING_THRESHOLD := (op: Op) => op.SetSolarThreshold?

  /** A change of parameters within 6..32 amperes. */
  const TAKING_EFFECT := (op: Op) => op.UpdateCharging? && 6 <= op.params.minAmps <= op.params.maxAmps <= 32

  /** The loop is on exactly when it was last switched on, or was on from the start. */
  lemma {:induction false} EnabledByHistory(s: State, ops: seq<Op>, i: nat)
    requires s.control.calculator.gridVolt > 0
    ensures LastThat(ops, i, SWITCHING) ==> Run(s, ops).control.enabled == ops[i].enabled
    ensures NoneThat(ops, SWITCHING) ==> Run(s, ops).control.enabled == s.control.enabled
  {
    if ops != [] {
      var w := Run(s, Front(ops));
      EnabledByHistory(s, Front(ops), i);
      LastThatSplit(ops, i, SWITCHING);
      OtherOpsKeepSettings(w, Last(ops));
    }
  }

  /** The gate's threshold is the last one set, kept with 32 bits. */
  lemma {:induction false} ThresholdByHistory(s: State, ops: seq<Op>, i: nat)
    requires s.control.calculator.gridVolt > 0
    ensures LastThat(ops, i, SETTING_THRESHOLD) ==> Wrapped(ops[i].watts, Run(s, ops).control.gate.threshold)
    ensures NoneThat(ops, SETTING_THRESHOLD) ==>
              Run(s, ops).control.gate.threshold == s.control.gate.threshold
  {
    if ops != [] {
      var w := Run(s, Front(ops));
      ThresholdByHistory(s, Front(ops), i);
      LastThatSplit(ops, i, SETTING_THRESHOLD);
      OtherOpsKeepSettings(w, Last(ops));
      if Last(ops).SetSolarThreshold? {
        Int32Wraps(Last(ops).watts);
      }
    }
  }

  /** Limits and safe current are those of the last change within 6..32 amperes. */
  lemma {:induction false} LimitsByHistory(s: State, ops: seq<Op>, i: nat)
    requires s.control.calculator.gridVolt > 0
    ensures var c := Run(s, ops).control;
            && (LastThat(ops, i, TAKING_EFFECT) ==>
                  && c.calculator.limits == Limits(ops[i].params.minAmps, ops[i].params.maxAmps)
                  && Wrapped(ops[i].params.defaultAmps, c.safeAmps))
            && (NoneThat(ops, TAKING_EFFECT) ==>
                  c.calculator.limits == s.control.calculator.limits && c.safeAmps == s.control.safeAmps)
  {
    if ops != [] {
      var w := Run(s, Front(ops));
      LimitsByHistory(s, Front(ops), i);
      LastThatSplit(ops, i, TAKING_EFFECT);
      OtherOpsKeepSettings(w, Last(ops));
      if Last(ops).UpdateCharging? {
        Int32Wraps(Last(ops).params.defaultAmps);
      }
    }
  }

  /** `r` is what 32 bits keep of x. */
  predicate Wrapped(x: int, r: int) {
    -0x8000_0000 <= r < 0x8000_0000 && (x - r) % 0x1_0000_0000 == 0
  }

  lemma Int32Wraps(x: int)
    ensures Wrapped(x, Int32(x))
  {
  }

  lemma OtherOpsKeepSettings(w: State, op: Op)
    requires w.control.calculator.gridVolt > 0
    ensures var c, d := w.control, Apply(w, op).control;
            && (!op.SetSmartCharging? ==> d.enabled == c.enabled)
            && (!op.SetSolarThreshold? ==> d.gate.threshold == c.gate.threshold)
            && (!op.UpdateCharging? ==> d.calculator.limits == c.calculator.limits && d.safeAmps == c.safeAmps)
  {
    if op.TickOp? {
      var v := ViewOf(w.repo, op.order, op.replies.live);
      SystemGate.TickGate(w.control, op.energy, v, op.replies);
      SystemGate.TickKeepsSettings(w.control, op.energy, v, op.replies);
    }
  }

  // ---------------------------------------------------------------------------
  // Overrides
  // ---------------------------------------------------------------------------

  /**
   The user takes the charger over: by switching it to manual, or by a limit one of its numbered connectors accepts.
   */
  ghost predicate TakesOver(w: State, op: Op, id: string) {
    || op == SetMode(id, true)
    || (op.SetAmps? && op.id == id &&
        exists k :: k in w.repo.Of(id) && k.connectorID != 0 && (id, k.connectorID) in op.replies.accepts)
  }

  /** The charger goes back to the loop. */
  predicate HandsBack(op: Op, id: string) {
    op == SetMode(id, false) || op == SetSmartCharging(true) || op == StopTransaction(id) || op == Disconnect(id)
  }

  lemma {:induction false} AcceptedByHand(id: string, conns: seq<Connector>, amps: int, replies: Replies)
    ensures AnyAccepted(ManualLog(id, conns, amps, replies))
        <==> exists k :: k in conns && k.connectorID != 0 && (id, k.connectorID) in replies.accepts
  {
    if conns != [] {
      var n := Last(conns).connectorID;
      var log := ManualLog(id, Front(conns), amps, replies);
      AcceptedByHand(id, Front(conns), amps, replies);
      assert conns == Front(conns) + [Last(conns)];
      if n != 0 {
        AnyAcceptedAppend(log, Trace.ManualProfileTo((id, n), amps, replies));
      } else {
        assert log + [] == log;
      }
    }
  }

  lemma OverrideStep(w: State, op: Op, id: string)
    requires w.control.calculator.gridVolt > 0
    ensures id in Apply(w, op).control.overrides
        <==> TakesOver(w, op, id) || (id in w.control.overrides && !HandsBack(op, id))
  {
    if op.TickOp? {
      SystemGate.TickGate(w.control, op.energy, ViewOf(w.repo, op.order, op.replies.live), op.replies);
    } else if op.SetAmps? {
      AcceptedByHand(op.id, w.repo.Of(op.id), op.amps, op.replies);
    }
  }

  ghost function Takings(s: State, ops: seq<Op>, id: string): nat -> bool
    requires s.control.calculator.gridVolt > 0
  {
    (i: nat) => i < |ops| && TakesOver(Run(s, ops[..i]), ops[i], id)
  }

  function Returns(ops: seq<Op>, id: string): nat -> bool {
    (i: nat) => i < |ops| && HandsBack(ops[i], id)
  }

  /** In every run a charger is overridden exactly when it was taken over and not handed back since. */
  lemma {:induction false} OverriddenIff(s: State, ops: seq<Op>, id: string, n: nat)
    requires Initial(s) && n <= |ops|
    ensures id in Run(s, ops[..n]).control.overrides <==> Since(n, Takings(s, ops, id), Returns(ops, id))
  {
    if n > 0 {
      OverriddenIff(s, ops, id, n - 1);
      SinceStep(n - 1, Takings(s, ops, id), Returns(ops, id));
      OverrideStep(Run(s, ops[..n - 1]), ops[n - 1], id);
      assert Front(ops[..n]) == ops[..n - 1];
    }
  }
}
