/** What the control loop does to the outside world, and to its set of gate-stopped chargers, in order. */
module Trace {
  import opened Options
  import opened Ports
  import opened SmartCharging

  /**
   A limit is handed to the commander with the transaction it then finds live on the connector;
   `accepted` answers the default profile and `applied` the transaction's, if one goes out.
   */
  datatype Entry =
    | GateMarked(id: string)
    | GateResumed(id: string)
    | GateForgot(id: string)
    | RemoteStop(id: string, tx: int)
    | RemoteStart(id: string, connector: int)
    | Profile(id: string, connector: int, amps: int, live: Option<int>, accepted: bool, applied: bool)
    | ManualProfile(id: string, connector: int, amps: int, live: Option<int>, accepted: bool, applied: bool)
    | Notified(id: string, amps: int, stop: bool, reason: Reason)

  function ProfileTo(t: Target, amps: int, r: Replies): Entry {
    Profile(t.0, t.1, amps, Lookup(r.live, t), t in r.accepts, t in r.acceptsTx)
  }

  function ManualProfileTo(t: Target, amps: int, r: Replies): Entry {
    ManualProfile(t.0, t.1, amps, Lookup(r.live, t), t in r.accepts, t in r.acceptsTx)
  }

  /** The entries of `now` that `before` does not have yet. */
  function Since(before: seq<Entry>, now: seq<Entry>): seq<Entry>
    requires |before| <= |now|
  {
    now[|before|..]
  }
}
