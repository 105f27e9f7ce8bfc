/** The handler of a charger's messages, and the readings it takes from MeterValues. */
module Handling {
  import opened Options
  import opened Sequences
  import opened Ports
  import opened Sessions
  import opened MeterStore
  import opened ChargerRepositories
  import opened Control
  import System

  // ---------------------------------------------------------------------------
  // Sampled values
  // ---------------------------------------------------------------------------

  /** A sampled value; `number` is None when its text is not a number. */
  datatype Sampled = Sampled(number: Option<real>, measurand: string, unit: string, phase: string)

  datatype MeterGroup = MeterGroup(timestamp: Option<int>, samples: seq<Sampled>)

  datatype Quantity = PowerKW | EnergyWh | CurrentA

  function Measurand(sv: Sampled): string {
    if sv.measurand == "" then "Energy.Active.Import.Register" else sv.measurand
  }

  /** What one sample says about a quantity; 0 when it is about something else or in another unit. */
  function Reading(sv: Sampled, q: Quantity): real {
    if sv.number.None? then 0.0
    else
      var x := sv.number.value;
      match q
      case PowerKW =>
        if Measurand(sv) != "Power.Active.Import" then 0.0
        else if sv.unit == "W" || sv.unit == "" then x / 1000.0
        else if sv.unit == "kW" then x
        else 0.0
      case EnergyWh =>
        if Measurand(sv) != "Energy.Active.Import.Register" then 0.0
        else if sv.unit == "Wh" || sv.unit == "" then x
        else if sv.unit == "kWh" then x * 1000.0
        else 0.0
      case CurrentA =>
        if Measurand(sv) == "Current.Import" then x else 0.0
  }

  function Stored(sv: Sampled, p: Target, sessionID: string, ts: int): seq<MeterValue> {
    if sv.number.None? then []
    else [MeterValue(p.0, p.1, sessionID, ts, Measurand(sv), sv.number.value, sv.unit, sv.phase)]
  }

  /** All samples of a message in order, each with its group's timestamp or the time of arrival. */
  function Samples(groups: seq<MeterGroup>, now: int): seq<(int, Sampled)> {
    if groups == [] then []
    else Samples(Front(groups), now) + Stamped(Last(groups), now, |Last(groups).samples|)
  }

  function Stamp(g: MeterGroup, now: int): int {
    if g.timestamp.Some? then g.timestamp.value else now
  }

  /** The first k samples of one group. */
  function Stamped(g: MeterGroup, now: int, k: nat): seq<(int, Sampled)>
    requires k <= |g.samples|
  {
    if k == 0 then [] else Stamped(g, now, k - 1) + [(Stamp(g, now), g.samples[k - 1])]
  }

  function AllStored(xs: seq<(int, Sampled)>, p: Target, sessionID: string): seq<MeterValue> {
    if xs == [] then []
    else AllStored(Front(xs), p, sessionID) + Stored(Last(xs).1, p, sessionID, Last(xs).0)
  }

  /** The last positive reading of a quantity, or 0. */
  function LastPositive(xs: seq<(int, Sampled)>, q: Quantity): real {
    if xs == [] then 0.0
    else if Reading(Last(xs).1, q) > 0.0 then Reading(Last(xs).1, q)
    else LastPositive(Front(xs), q)
  }

  /** What a message's samples come to. */
  datatype Fold = Fold(values: seq<MeterValue>, powerKW: real, energyWh: real, currentA: real)

  function Taken(xs: seq<(int, Sampled)>, p: Target, sessionID: string): Fold {
    Fold(AllStored(xs, p, sessionID), LastPositive(xs, PowerKW), LastPositive(xs, EnergyWh), LastPositive(xs, CurrentA))
  }

  lemma TakenOneMore(xs: seq<(int, Sampled)>, x: (int, Sampled), p: Target, sessionID: string)
    ensures AllStored(xs + [x], p, sessionID) == AllStored(xs, p, sessionID) + Stored(x.1, p, sessionID, x.0)
    ensures forall q ::
            LastPositive(xs + [x], q) == if Reading(x.1, q) > 0.0 then Reading(x.1, q) else LastPositive(xs, q)
  {
    assert Front(xs + [x]) == xs;
  }

  /**
   The meaning of a last positive reading: nothing positive, or the positive reading no later one of the
   message overrides.
   */
  lemma {:induction false} LastPositiveMeaning(xs: seq<(int, Sampled)>, q: Quantity)
    ensures var r := LastPositive(xs, q);
            || (r == 0.0 && forall i :: 0 <= i < |xs| ==> Reading(xs[i].1, q) <= 0.0)
            || exists i :: 0 <= i < |xs| && Reading(xs[i].1, q) == r > 0.0 &&
                 forall j :: i < j < |xs| ==> Reading(xs[j].1, q) <= 0.0
  {
    if xs != [] {
      var n := |xs| - 1;
      LastPositiveMeaning(Front(xs), q);
      if Reading(xs[n].1, q) <= 0.0 {
        var ys := Front(xs);
        if exists i :: 0 <= i < |ys| && Reading(ys[i].1, q) == LastPositive(xs, q) > 0.0 &&
                 forall j :: i < j < |ys| ==> Reading(ys[j].1, q) <= 0.0 {
          var i :| 0 <= i < |ys| && Reading(ys[i].1, q) == LastPositive(xs, q) > 0.0 &&
                 forall j :: i < j < |ys| ==> Reading(ys[j].1, q) <= 0.0;
          forall j | i < j < |xs| ensures Reading(xs[j].1, q) <= 0.0 {
            assert j < n ==> ys[j] == xs[j];
          }
          assert xs[i] == ys[i];
        } else {
          forall i | 0 <= i < |xs| ensures Reading(xs[i].1, q) <= 0.0 {
            assert i < n ==> ys[i] == xs[i];
          }
        }
      }
    }
  }

  // ---------------------------------------------------------------------------
  // Transaction identifiers
  // ---------------------------------------------------------------------------

  /** The transaction id made of four random bytes, read as a number. */
  function TxIDFrom(v: int): int
    requires 0 <= v < 0x1_0000_0000
  {
    var w := if v == 0 then 1 else v;
    if w > 2147483647 then w % 2147483647 else w
  }

  /** It fits the 31 bits it is meant to fit; it is the reserved 0 for exactly one draw. */
  lemma TxIDRange(v: int)
    requires 0 <= v < 0x1_0000_0000
    ensures 0 <= TxIDFrom(v) <= 2147483647
    ensures TxIDFrom(v) == 0 <==> v == 4294967294
  {
    if v > 2147483647 {
      if v >= 4294967294 {
        assert v % 2147483647 == v - 4294967294;
      } else {
        assert v % 2147483647 == v - 2147483647;
      }
    }
  }

  /** Which draws give an id: all but the first and the last have two, the first has four and the last one. */
  lemma TxIDDraws(v: int, id: int)
    requires 0 <= v < 0x1_0000_0000 && 1 <= id <= 2147483647
    ensures TxIDFrom(v) == id <==>
              v == id || (id < 2147483647 && v == id + 2147483647) || (id == 1 && (v == 0 || v == 4294967295))
  {
    if v > 2147483647 {
      if v >= 4294967294 {
        assert v % 2147483647 == v - 4294967294;
      } else {
        assert v % 2147483647 == v - 2147483647;
      }
    }
  }

  // ---------------------------------------------------------------------------
  // Messages
  // ---------------------------------------------------------------------------

  /** What a MeterValues message gives the publishers. */
  datatype Published = Published(sessionID: string, readings: Fold)

  class Handler {
    const chargers: ChargerRepository
    const sessions: SessionRepository
    const meters: MeterRepository
    const controller: Controller
    var minAmps: int
    var maxAmps: int

    ghost predicate Valid()
      reads this, chargers, sessions, meters, controller, controller.calculator
    {
      chargers.Valid() && sessions.Valid() && controller.Valid()
    }

    /** What the control loop's runs are about: the charger repository and the controller. */
    ghost function Whole(): System.State
      reads this, chargers, controller, controller.calculator
    {
      System.State(System.Repo(chargers.chargers, chargers.connectors), controller.Value())
    }

    constructor (chargers: ChargerRepository, sessions: SessionRepository, meters: MeterRepository,
                 controller: Controller, minAmps: int, maxAmps: int)
      requires chargers.Valid() && sessions.Valid() && controller.Valid()
      ensures Valid()
      ensures this.chargers == chargers && this.sessions == sessions && this.meters == meters
              && this.controller == controller
    {
      this.chargers, this.sessions, this.meters, this.controller := chargers, sessions, meters, controller;
      this.minAmps, this.maxAmps := minAmps, maxAmps;
    }

    /** The amp bounds announced to Home Assistant. */
    method SetMinMax(minAmps: int, maxAmps: int)
      modifies this
      ensures this.minAmps == minAmps && this.maxAmps == maxAmps
    {
      this.minAmps, this.maxAmps := minAmps, maxAmps;
    }

    /** `tx` and `uuid` are the identifiers generated for the message. */
    method OnStartTransaction(p: Target, idTag: string, meterStart: int, timestamp: Option<int>, tx: int,
            uuid: string, now: int)
      returns (txID: int)
      requires Valid() && uuid != ""
      modifies sessions
      ensures Valid()
      ensures txID == tx
      ensures sessions.sessions == old(sessions.sessions)[uuid :=
                Opened(uuid, tx, p, idTag, meterStart as real, if timestamp.Some? then timestamp.value else now)]
    {
      var s := Session(uuid, tx, p.0, p.1, idTag, meterStart as real, None, now, None, "");
      if timestamp.Some? {
        s := s.(startedAt := timestamp.value);
      }
      sessions.CreateSession(s, "sess-0");
      return tx;
    }

    method OnStopTransaction(charger: string, tx: int, meterStop: int, timestamp: Option<int>, reason: string, now: int)
      requires Valid()
      modifies sessions, controller
      ensures Valid()
      ensures StopStep(old(sessions.sessions), sessions.sessions, charger, tx, meterStop as real,
                       if timestamp.Some? then timestamp.value else now, reason)
      ensures Whole() == System.Apply(old(Whole()), System.StopTransaction(charger))
    {
      var stopTime := now;
      if timestamp.Some? {
        stopTime := timestamp.value;
      }
      var active := sessions.GetSessionByTransactionID(charger, tx);
      if active.Some? {
        var s := active.value.(meterStopWh := Some(meterStop as real), stoppedAt := Some(stopTime),
                                 stopReason := reason);
        ghost var id := active.value.id;
        assert s == Closed(sessions.sessions[id], meterStop as real, stopTime, reason);
        var ok := sessions.UpdateSession(s);
      }
      controller.ClearManualOverride(charger);
    }

    /** The session a MeterValues belongs to, reconstructed if the central system has lost it. */
    method FindOrRecover(p: Target, tx: int, uuid: string, now: int) returns (sessionID: string)
      requires Valid() && uuid != ""
      modifies sessions, chargers`connectors
      ensures Valid()
      ensures MeterStep(old(sessions.sessions), sessions.sessions, p, Some(tx), uuid, now)
      ensures sessionID in sessions.sessions && IsOf(sessions.sessions[sessionID], p.0, tx)
      ensures Whole() == if Knows(old(sessions.sessions), p.0, tx) then old(Whole())
                         else System.Apply(old(Whole()), System.ReportStatus(Connector(p.0, p.1, Charging, "", "")))
    {
      var found := sessions.GetSessionByTransactionID(p.0, tx);
      if found.Some? {
        return found.value.id;
      }
      var existing := sessions.GetSessionByTransactionID(p.0, tx);
      if existing.Some? {
        return existing.value.id;
      }
      sessions.CreateSession(Session(uuid, tx, p.0, p.1, "recovered", 0.0, None, now, None, ""), "sess-0");
      chargers.UpsertConnector(Connector(p.0, p.1, Charging, "", ""));
      return uuid;
    }

    /** The readings of a message: the values to store, and the last positive power, energy and current. */
    method TakeReadings(p: Target, groups: seq<MeterGroup>, sessionID: string, now: int) returns (f: Fold)
      ensures f == Taken(Samples(groups, now), p, sessionID)
    {
      f := Fold([], 0.0, 0.0, 0.0);
      for i := 0 to |groups|
        invariant f == Taken(Samples(groups[..i], now), p, sessionID)
      {
        assert Front(groups[..i + 1]) == groups[..i];
        f := TakeGroup(f, Samples(groups[..i], now), p, groups[i], sessionID, now);
      }
      assert groups[..|groups|] == groups;
    }

    method TakeGroup(before: Fold, ghost done: seq<(int, Sampled)>, p: Target, g: MeterGroup, sessionID: string,
            now: int)
      returns (f: Fold)
      requires before == Taken(done, p, sessionID)
      ensures f == Taken(done + Stamped(g, now, |g.samples|), p, sessionID)
    {
      f := before;
      var ts := now;
      if g.timestamp.Some? {
        ts := g.timestamp.value;
      }
      assert done + Stamped(g, now, 0) == done;
      for j := 0 to |g.samples|
        invariant f == Taken(done + Stamped(g, now, j), p, sessionID)
      {
        ghost var xs := done + Stamped(g, now, j);
        assert done + Stamped(g, now, j + 1) == xs + [(ts, g.samples[j])];
        f := TakeSample(f, xs, p, ts, g.samples[j], sessionID);
      }
    }

    /** One sampled value: what is stored of it, and what it reads of each quantity. */
    method ParseSampledValue(sv: Sampled, p: Target, sessionID: string, ts: int)
      returns (mvals: seq<MeterValue>, powerKW: real, energyWh: real, currentA: real)
      ensures mvals == Stored(sv, p, sessionID, ts)
      ensures (powerKW, energyWh, currentA) == (Reading(sv, PowerKW), Reading(sv, EnergyWh), Reading(sv, CurrentA))
    {
      mvals, powerKW, energyWh, currentA := [], 0.0, 0.0, 0.0;
      if sv.number.None? {
        return;
      }
      var val, measurand := sv.number.value, sv.measurand;
      if measurand == "" {
        measurand := "Energy.Active.Import.Register";
      }
      mvals := [MeterValue(p.0, p.1, sessionID, ts, measurand, val, sv.unit, sv.phase)];
      if measurand == "Power.Active.Import" {
        if sv.unit == "W" || sv.unit == "" {
          powerKW := val / 1000.0;
        } else if sv.unit == "kW" {
          powerKW := val;
        }
      }
      if measurand == "Energy.Active.Import.Register" {
        if sv.unit == "Wh" || sv.unit == "" {
          energyWh := val;
        } else if sv.unit == "kWh" {
          energyWh := val * 1000.0;
        }
      }
      if measurand == "Current.Import" {
        currentA := val;
      }
    }

    method TakeSample(before: Fold, ghost xs: seq<(int, Sampled)>, p: Target, ts: int, sv: Sampled, sessionID: string)
      returns (f: Fold)
      requires before == Taken(xs, p, sessionID)
      ensures f == Taken(xs + [(ts, sv)], p, sessionID)
    {
      TakenOneMore(xs, (ts, sv), p, sessionID);
      var mvals, pwr, enrg, amps := ParseSampledValue(sv, p, sessionID, ts);
      f := before.(values := before.values + mvals);
      if pwr > 0.0 {
        f := f.(powerKW := pwr);
      }
      if enrg > 0.0 {
        f := f.(energyWh := enrg);
      }
      if amps > 0.0 {
        f := f.(currentA := amps);
      }
    }

    method OnMeterValues(p: Target, tx: Option<int>, groups: seq<MeterGroup>, uuid: string, now: int)
      returns (out: Published)
      requires Valid() && uuid != ""
      modifies sessions, chargers`connectors, meters
      ensures Valid()
      ensures MeterStep(old(sessions.sessions), sessions.sessions, p, tx, uuid, now)
      ensures tx.Some? ==> out.sessionID in sessions.sessions && IsOf(sessions.sessions[out.sessionID], p.0, tx.value)
      ensures tx.None? ==> out.sessionID == ""
      ensures Whole() == if tx.None? || Knows(old(sessions.sessions), p.0, tx.value) then old(Whole())
                         else System.Apply(old(Whole()), System.ReportStatus(Connector(p.0, p.1, Charging, "", "")))
      ensures out.readings == Taken(Samples(groups, now), p, out.sessionID)
      ensures meters.values == old(meters.values) + out.readings.values
    {
      var sessionID := "";
      if tx.Some? {
        sessionID := FindOrRecover(p, tx.value, uuid, now);
      }
      var f := TakeReadings(p, groups, sessionID, now);
      if |f.values| > 0 {
        meters.StoreMeterValues(f.values);
      }
      return Published(sessionID, f);
    }

    method OnStatusNotification(conn: Connector)
      requires Valid()
      modifies chargers`connectors
      ensures Valid()
      ensures Whole() == System.Apply(old(Whole()), System.ReportStatus(conn))
    {
      chargers.UpsertConnector(conn);
    }

    method OnBootNotification(id: string, vendor: string, model: string, firmware: string, serial: string)
      requires Valid()
      modifies chargers`chargers
      ensures Valid()
      ensures Whole() == System.Apply(old(Whole()), System.Boot(Charger(id, vendor, model, firmware, serial, true)))
    {
      chargers.UpsertCharger(Charger(id, vendor, model, firmware, serial, true));
    }

    method OnConnect(id: string)
      requires Valid()
      modifies chargers`chargers
      ensures Valid()
      ensures Whole() == System.Apply(old(Whole()), System.Connect(id))
    {
      var ok := chargers.MarkOnline(id, true);
      if !ok {
        chargers.UpsertCharger(Charger(id, "", "", "", "", true));
      }
    }

    method OnDisconnect(id: string)
      requires Valid()
      modifies chargers`chargers, controller
      ensures Valid()
      ensures Whole() == System.Apply(old(Whole()), System.Disconnect(id))
    {
      controller.ClearManualOverride(id);
      var ok := chargers.MarkOnline(id, false);
    }
  }
}
