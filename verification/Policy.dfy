/** The routing policy of OCPP messages and its overrides per charger. */
module Policies {
  /** Decisions are integers in the program; only the four named ones have a meaning. */
  type Decision = int

  const LOCAL_ONLY: Decision := 0
  const UPSTREAM_ONLY: Decision := 1
  const BOTH: Decision := 2
  const DROP: Decision := 3

  datatype Direction = Inbound | Outbound

  predicate ShouldForward(d: Decision) {
    d == UPSTREAM_ONLY || d == BOTH
  }

  datatype Policy = Policy(inbound: map<string, Decision>, outbound: map<string, Decision>)
  {
    /** Unknown actions stay local. */
    function Decide(dir: Direction, action: string): Decision {
      match dir
      case Inbound => if action in inbound then inbound[action] else LOCAL_ONLY
      case Outbound => if action in outbound then outbound[action] else LOCAL_ONLY
    }

    /** The direction an override of this action applies to. */
    function DirectionOf(action: string): Direction {
      if action in inbound then Inbound else if action in outbound then Outbound else Inbound
    }
  }

  const DEFAULT_POLICY := Policy(
    map["BootNotification" := BOTH, "Heartbeat" := BOTH, "Authorize" := UPSTREAM_ONLY,
        "StartTransaction" := BOTH, "StopTransaction" := BOTH, "StatusNotification" := BOTH,
        "MeterValues" := BOTH, "DataTransfer" := UPSTREAM_ONLY,
        "FirmwareStatusNotification" := UPSTREAM_ONLY, "DiagnosticsStatusNotification" := UPSTREAM_ONLY],
    map["SetChargingProfile" := LOCAL_ONLY, "ClearChargingProfile" := LOCAL_ONLY,
        "RemoteStartTransaction" := BOTH, "RemoteStopTransaction" := BOTH, "TriggerMessage" := BOTH,
        "GetConfiguration" := BOTH, "ChangeConfiguration" := BOTH, "Reset" := BOTH, "UnlockConnector" := BOTH,
        "GetLog" := BOTH, "GetDiagnostics" := BOTH, "ReserveNow" := UPSTREAM_ONLY,
        "CancelReservation" := UPSTREAM_ONLY, "UpdateFirmware" := UPSTREAM_ONLY, "ClearCache" := UPSTREAM_ONLY])

  type Overrides = map<string, Decision>

  /** The overrides that apply to one direction, those of the actions in `rest` left out. */
  function Part(p: Policy, o: Overrides, dir: Direction, rest: set<string>): map<string, Decision> {
    map a | a in o && a !in rest && p.DirectionOf(a) == dir :: o[a]
  }

  function Merged(p: Policy, o: Overrides): Policy {
    Policy(p.inbound + Part(p, o, Inbound, {}), p.outbound + Part(p, o, Outbound, {}))
  }

  lemma PartStep(p: Policy, o: Overrides, dir: Direction, rest: set<string>, action: string)
    requires action in o
    ensures Part(p, o, dir, rest - {action}) ==
            if p.DirectionOf(action) == dir then Part(p, o, dir, rest)[action := o[action]] else Part(p, o, dir, rest)
  {
  }

  lemma AddedLast(m: map<string, Decision>, n: map<string, Decision>, action: string, d: Decision)
    ensures m + n[action := d] == (m + n)[action := d]
  {
  }

  /** Fills new maps by loops whose order is the map's iteration order: any order at all. */
  method Merge(p: Policy, o: Overrides) returns (merged: Policy)
    ensures merged == Merged(p, o)
  {
    if |o| == 0 {
      assert Part(p, o, Inbound, {}) == map[] && Part(p, o, Outbound, {}) == map[];
      assert p.inbound + map[] == p.inbound && p.outbound + map[] == p.outbound;
      return p;
    }
    var inbound := Copy(p.inbound);
    var outbound := Copy(p.outbound);
    var rest := o.Keys;
    assert Part(p, o, Inbound, rest) == map[] && Part(p, o, Outbound, rest) == map[];
    assert p.inbound + map[] == p.inbound && p.outbound + map[] == p.outbound;
    while rest != {}
      invariant rest <= o.Keys
      invariant inbound == p.inbound + Part(p, o, Inbound, rest)
      invariant outbound == p.outbound + Part(p, o, Outbound, rest)
      decreases rest
    {
      var action :| action in rest;
      var d := o[action];
      PartStep(p, o, Inbound, rest, action);
      PartStep(p, o, Outbound, rest, action);
      AddedLast(p.inbound, Part(p, o, Inbound, rest), action, d);
      AddedLast(p.outbound, Part(p, o, Outbound, rest), action, d);
      if action in p.inbound {
        inbound := inbound[action := d];
      } else if action in p.outbound {
        outbound := outbound[action := d];
      } else {
        inbound := inbound[action := d];
      }
      rest := rest - {action};
    }
    return Policy(inbound, outbound);
  }

  method Copy(m: map<string, Decision>) returns (c: map<string, Decision>)
    ensures c == m
  {
    c := map[];
    var rest := m.Keys;
    while rest != {}
      invariant rest <= m.Keys
      invariant c == map k | k in m && k !in rest :: m[k]
      decreases rest
    {
      var k :| k in rest;
      c := c[k := m[k]];
      rest := rest - {k};
    }
    assert c == m;
  }

  /**
   An override decides its action inbound if the policy knows it inbound or not at all, and outbound if the policy
   knows it outbound alone. Every other decision stays, and what nobody decides stays local.
   */
  lemma DecideMerged(p: Policy, o: Overrides, dir: Direction, action: string)
    ensures Merged(p, o).Decide(dir, action) ==
              match dir
              case Inbound =>
                if action in o && (action in p.inbound || action !in p.outbound) then o[action]
                else if action in p.inbound then p.inbound[action] else LOCAL_ONLY
              case Outbound =>
                if action in o && action !in p.inbound && action in p.outbound then o[action]
                else if action in p.outbound then p.outbound[action] else LOCAL_ONLY
  {
  }

  lemma DirectionKept(p: Policy, o: Overrides, action: string)
    ensures Merged(p, o).DirectionOf(action) == p.DirectionOf(action)
  {
  }

  lemma PartKept(p: Policy, first: Overrides, second: Overrides, dir: Direction)
    ensures Part(Merged(p, first), second, dir, {}) == Part(p, second, dir, {})
  {
    forall a ensures Merged(p, first).DirectionOf(a) == p.DirectionOf(a) {
      DirectionKept(p, first, a);
    }
  }

  lemma PartsOfUnion(p: Policy, first: Overrides, second: Overrides, dir: Direction)
    ensures Part(p, first, dir, {}) + Part(p, second, dir, {}) == Part(p, first + second, dir, {})
  {
  }

  lemma MapSumAssociative(a: map<string, Decision>, b: map<string, Decision>, c: map<string, Decision>)
    ensures a + b + c == a + (b + c)
  {
  }

  lemma PartsJoin(p: Policy, first: Overrides, second: Overrides, dir: Direction, base: map<string, Decision>)
    ensures base + Part(p, first, dir, {}) + Part(Merged(p, first), second, dir, {})
            == base + Part(p, first + second, dir, {})
  {
    PartKept(p, first, second, dir);
    PartsOfUnion(p, first, second, dir);
    MapSumAssociative(base, Part(p, first, dir, {}), Part(p, second, dir, {}));
  }

  /** Merging twice is merging once, the later overrides taking precedence. */
  lemma MergeTwice(p: Policy, first: Overrides, second: Overrides)
    ensures Merged(Merged(p, first), second) == Merged(p, first + second)
  {
    PartsJoin(p, first, second, Inbound, p.inbound);
    PartsJoin(p, first, second, Outbound, p.outbound);
  }

  /** What a merged policy decides about charging profiles: to forward them exactly when an override says so. */
  lemma ProfileDecisionIff(o: Overrides)
    ensures ShouldForward(Merged(DEFAULT_POLICY, o).Decide(Outbound, "SetChargingProfile"))
        <==> "SetChargingProfile" in o && ShouldForward(o["SetChargingProfile"])
  {
    var a := "SetChargingProfile";
    assert a !in DEFAULT_POLICY.inbound && a in DEFAULT_POLICY.outbound;
    DecideMerged(DEFAULT_POLICY, o, Outbound, a);
  }

  // ---------------------------------------------------------------------------
  // The JSON text of a decision
  // ---------------------------------------------------------------------------

  function Name(d: Decision): string {
    if d == LOCAL_ONLY then "local_only"
    else if d == UPSTREAM_ONLY then "upstream_only"
    else if d == BOTH then "both"
    else if d == DROP then "drop"
    else "unknown"
  }

  function Marshal(d: Decision): string {
    "\"" + Name(d) + "\""
  }

  function Unquoted(s: string): string {
    if |s| >= 2 && s[0] == '"' && s[|s| - 1] == '"' then s[1..|s| - 1] else s
  }

  function Unmarshal(data: string): Decision {
    var s := Unquoted(data);
    if s == "local_only" then LOCAL_ONLY
    else if s == "upstream_only" then UPSTREAM_ONLY
    else if s == "both" then BOTH
    else if s == "drop" then DROP
    else LOCAL_ONLY
  }

  /**
   Reading yields one of the four named decisions, and of all integers the type admits those are exactly the ones
   their own text brings back.
   */
  lemma MarshalRoundTripIff(d: Decision)
    ensures forall data: string :: LOCAL_ONLY <= Unmarshal(data) <= DROP
    ensures Unmarshal(Marshal(d)) == d <==> LOCAL_ONLY <= d <= DROP
  {
    var s := Marshal(d);
    assert s[1..|s| - 1] == Name(d);
    assert "unknown"[0] == 'u' && "unknown"[1] == 'n' && "upstream_only"[1] == 'p';
  }
}
