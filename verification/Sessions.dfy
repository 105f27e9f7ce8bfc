/** Charging sessions, their in-memory repository, and what each transaction message does to it. */
module Sessions {
  import opened Options
  import opened Ports

  /** `stoppedAt` is None while the session is active. */
  datatype Session = Session(
    id: string, transactionID: int, chargerID: string, connectorID: int, idTag: string,
    meterStartWh: real, meterStopWh: Option<real>, startedAt: int, stoppedAt: Option<int>, stopReason: string)

  type Book = map<string, Session>

  ghost predicate BookValid(b: Book) {
    forall id :: id in b ==> b[id].id == id && id != ""
  }

  predicate IsActiveAt(s: Session, p: Target) {
    s.chargerID == p.0 && s.connectorID == p.1 && s.stoppedAt.None?
  }

  predicate IsOf(s: Session, charger: string, tx: int) {
    s.chargerID == charger && s.transactionID == tx
  }

  /** Any answer the repository may give for the active session of a connector: its iteration order is arbitrary. */
  ghost predicate AnswersActive(b: Book, p: Target, r: Option<Session>) {
    match r
    case Some(s) => s.id in b && b[s.id] == s && IsActiveAt(s, p)
    case None => forall id :: id in b ==> !IsActiveAt(b[id], p)
  }

  /** Any answer it may give for a transaction of a charger. */
  ghost predicate AnswersTransaction(b: Book, charger: string, tx: int, r: Option<Session>) {
    match r
    case Some(s) => s.id in b && b[s.id] == s && IsOf(s, charger, tx)
    case None => forall id :: id in b ==> !IsOf(b[id], charger, tx)
  }

  class SessionRepository {
    var sessions: Book

    ghost predicate Valid()
      reads this
    {
      BookValid(sessions)
    }

    constructor ()
      ensures Valid() && sessions == map[]
    {
      sessions := map[];
    }

    /** `fallbackID` is the time-based name given to a session without one. */
    method CreateSession(s: Session, fallbackID: string)
      requires Valid() && fallbackID != ""
      modifies this
      ensures Valid()
      ensures var id := if s.id == "" then fallbackID else s.id;
              sessions == old(sessions)[id := s.(id := id)]
    {
      var t := s;
      if t.id == "" {
        t := t.(id := fallbackID);
      }
      sessions := sessions[t.id := t];
    }

    method UpdateSession(s: Session) returns (ok: bool)
      requires Valid()
      modifies this
      ensures Valid()
      ensures ok == (s.id in old(sessions))
      ensures sessions == if ok then old(sessions)[s.id := s] else old(sessions)
    {
      if s.id !in sessions {
        return false;
      }
      sessions := sessions[s.id := s];
      return true;
    }

    method GetActiveSession(chargerID: string, connectorID: int) returns (r: Option<Session>)
      requires Valid()
      ensures AnswersActive(sessions, (chargerID, connectorID), r)
    {
      var rest := sessions.Keys;
      while rest != {}
        invariant rest <= sessions.Keys
        invariant forall id :: id in sessions && id !in rest ==> !IsActiveAt(sessions[id], (chargerID, connectorID))
        decreases rest
      {
        var id :| id in rest;
        var s := sessions[id];
        if s.chargerID == chargerID && s.connectorID == connectorID && s.stoppedAt.None? {
          return Some(s);
        }
        rest := rest - {id};
      }
      return None;
    }

    method GetSessionByTransactionID(chargerID: string, txID: int) returns (r: Option<Session>)
      requires Valid()
      ensures AnswersTransaction(sessions, chargerID, txID, r)
    {
      var rest := sessions.Keys;
      while rest != {}
        invariant rest <= sessions.Keys
        invariant forall id :: id in sessions && id !in rest ==> !IsOf(sessions[id], chargerID, txID)
        decreases rest
      {
        var id :| id in rest;
        var s := sessions[id];
        if s.chargerID == chargerID && s.transactionID == txID {
          return Some(s);
        }
        rest := rest - {id};
      }
      return None;
    }

    method GetSession(id: string) returns (r: Option<Session>)
      ensures r == Lookup(sessions, id)
    {
      r := Lookup(sessions, id);
    }
  }

  // ---------------------------------------------------------------------------
  // What the messages of a charger do to the book
  // ---------------------------------------------------------------------------

  /** The session a StartTransaction opens. */
  function Opened(uuid: string, tx: int, p: Target, idTag: string, meterStartWh: real, at: int): Session {
    Session(uuid, tx, p.0, p.1, idTag, meterStartWh, None, at, None, "")
  }

  /** The session reconstructed from a MeterValues of a transaction the book does not know. */
  function Recovered(uuid: string, tx: int, p: Target, at: int): Session {
    Session(uuid, tx, p.0, p.1, "recovered", 0.0, None, at, None, "")
  }

  function Closed(s: Session, meterStopWh: real, at: int, reason: string): Session {
    s.(meterStopWh := Some(meterStopWh), stoppedAt := Some(at), stopReason := reason)
  }

  ghost predicate Knows(b: Book, charger: string, tx: int) {
    exists id :: id in b && IsOf(b[id], charger, tx)
  }

  ghost predicate MeterStep(b: Book, b': Book, p: Target, tx: Option<int>, uuid: string, at: int) {
    b' == if tx.None? || Knows(b, p.0, tx.value) then b
          else b[uuid := Recovered(uuid, tx.value, p, at)]
  }

  /** Some session of the transaction is closed, if there is one. */
  ghost predicate StopStep(b: Book, b': Book, charger: string, tx: int, meterStopWh: real, at: int, reason: string) {
    || (!Knows(b, charger, tx) && b' == b)
    || exists id :: id in b && IsOf(b[id], charger, tx) && b' == b[id := Closed(b[id], meterStopWh, at, reason)]
  }
}
