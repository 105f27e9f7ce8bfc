/** The entities the adapters exchange, and what one control tick is told about the outside world. */
module Ports {
  import opened Options

  datatype Charger = Charger(
    id: string, vendor: string, model: string, firmware: string, serial: string, online: bool)

  datatype Status =
    | Available | Preparing | Charging | SuspendedEV | SuspendedEVSE
    | Finishing | Reserved | Unavailable | Faulted

  datatype Connector = Connector(chargerID: string, connectorID: int, status: Status, errorCode: string, info: string)

  /** A connector of a charger, the unit a charging profile is sent to. */
  type Target = (string, int)

  /**
   What the energy source answers during one tick; `solarFresh` and `consumptionFresh` are its
   availability tests.
   */
  datatype Energy = Energy(
    stale: bool, gridW: int, solarW: int, solarFresh: bool, consumptionW: int, consumptionFresh: bool)

  /**
   What the repositories answer during one tick. `chargers` is None when listing fails, a charger
   missing from `conns` is one whose connectors cannot be listed, and `active` holds the transaction
   of each connector with an active session.
   */
  datatype View = View(
    chargers: Option<seq<Charger>>, conns: map<string, seq<Connector>>, active: map<Target, int>)

  /**
   How a step's commands are answered: the connectors that accept a default profile, the transaction
   the session repository answers for each connector, and the connectors that accept a profile for it.
   */
  datatype Replies = Replies(accepts: set<Target>, live: map<Target, int>, acceptsTx: set<Target>)

  ghost predicate DistinctIDs(chargers: seq<Charger>) {
    forall i, j :: 0 <= i < j < |chargers| ==> chargers[i].id != chargers[j].id
  }

  ghost predicate DistinctConnectors(conns: seq<Connector>) {
    forall i, j :: 0 <= i < j < |conns| ==> conns[i].connectorID != conns[j].connectorID
  }

  /** What the in-memory repositories guarantee of their answers. */
  ghost predicate WellFormed(v: View) {
    && (v.chargers.Some? ==> DistinctIDs(v.chargers.value))
    && (forall id :: id in v.conns ==> DistinctConnectors(v.conns[id]))
  }

  /** The 32-bit value an `int32` conversion keeps. */
  function Int32(x: int): int {
    (x + 0x8000_0000) % 0x1_0000_0000 - 0x8000_0000
  }
}
