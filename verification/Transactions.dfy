/**
 The transaction protocol (sections 4.7, 4.8 and 4.10 of OCPP 1.6) between chargers and a central
 system that keeps its sessions in memory only: the chargers' open transactions against the
 sessions, with restarts of the central system that wipe all sessions.
 */
module Transactions {
  import opened Options
  import opened Ports
  import opened Sessions
  import Commanding

  // ---------------------------------------------------------------------------
  // Any messages at all
  // ---------------------------------------------------------------------------

  /** A message from any charger, well behaved or not, with the identifiers generated for it. */
  datatype Message =
    | StartMessage(p: Target, tx: int, uuid: string, idTag: string, meterStartWh: real, at: int)
    | MeterMessage(p: Target, reported: Option<int>, uuid: string, at: int)
    | StopMessage(charger: string, tx: int, meterStopWh: real, at: int, reason: string)

  /** Generated session ids are unused, and a generated transaction id is new to that charger's sessions. */
  ghost predicate FreshFor(b: Book, m: Message) {
    match m
    case StartMessage(p, tx, uuid, _, _, _) => uuid != "" && uuid !in b && !Knows(b, p.0, tx)
    case MeterMessage(_, _, uuid, _) => uuid != "" && uuid !in b
    case StopMessage(_, _, _, _, _) => true
  }

  ghost predicate Handled(b: Book, m: Message, b': Book) {
    match m
    case StartMessage(p, tx, uuid, idTag, wh, at) => b' == b[uuid := Opened(uuid, tx, p, idTag, wh, at)]
    case MeterMessage(p, tx, uuid, at) => MeterStep(b, b', p, tx, uuid, at)
    case StopMessage(charger, tx, wh, at, reason) => StopStep(b, b', charger, tx, wh, at, reason)
  }

  /** At most one session per charger and transaction. */
  ghost predicate OnePerTransaction(b: Book) {
    forall i, j ::
      i in b && j in b && b[i].chargerID == b[j].chargerID && b[i].transactionID == b[j].transactionID ==> i == j
  }

  /** Sessions are never lost, only closing changes them, and a stopped one stays stopped. */
  ghost predicate Preserves(b: Book, b': Book) {
    forall id :: id in b ==>
      && id in b'
      && b'[id] == b[id].(meterStopWh := b'[id].meterStopWh, stoppedAt := b'[id].stoppedAt,
                          stopReason := b'[id].stopReason)
      && (b[id].stoppedAt.Some? ==> b'[id].stoppedAt.Some?)
      && (b'[id].stoppedAt.None? ==> b'[id] == b[id])
  }

  ghost predicate Conversation(books: seq<Book>, ms: seq<Message>) {
    && |books| == |ms| + 1
    && forall i :: 0 <= i < |ms| ==> FreshFor(books[i], ms[i]) && Handled(books[i], ms[i], books[i + 1])
  }

  lemma MessageKeepsBook(b: Book, m: Message, b': Book)
    requires BookValid(b) && OnePerTransaction(b)
    requires FreshFor(b, m) && Handled(b, m, b')
    ensures BookValid(b') && OnePerTransaction(b') && Preserves(b, b')
  {
    match m
    case StartMessage(_, _, _, _, _, _) =>
    case MeterMessage(_, _, _, _) =>
    case StopMessage(charger, tx, wh, at, reason) =>
      if b' != b {
        var id :| id in b && IsOf(b[id], charger, tx) && b' == b[id := Closed(b[id], wh, at, reason)];
      }
  }

  /** MeterValues for a transaction with a session, stopped or not, create none. */
  lemma NoResurrection(b: Book, m: Message, b': Book, id: string)
    requires m.MeterMessage? && Handled(b, m, b')
    requires id in b && m.reported.Some? && IsOf(b[id], m.p.0, m.reported.value)
    ensures b' == b
  {
    assert Knows(b, m.p.0, m.reported.value);
  }

  /**
   Whatever chargers send in whatever order, while the central system is up: a charger's
   transaction has at most one session, no session is lost, and a stopped one is never active again.
   */
  lemma {:induction false} RecoveryNeitherDuplicatesNorResurrects(books: seq<Book>, ms: seq<Message>, i: nat, j: nat)
    requires Conversation(books, ms)
    requires BookValid(books[0]) && OnePerTransaction(books[0])
    requires i <= j <= |ms|
    ensures BookValid(books[j]) && OnePerTransaction(books[j]) && Preserves(books[i], books[j])
  {
    if i < j {
      RecoveryNeitherDuplicatesNorResurrects(books, ms, i, j - 1);
      MessageKeepsBook(books[j - 1], ms[j - 1], books[j]);
    } else if j > 0 {
      RecoveryNeitherDuplicatesNorResurrects(books, ms, j - 1, j - 1);
      MessageKeepsBook(books[j - 1], ms[j - 1], books[j]);
    }
  }

  // ---------------------------------------------------------------------------
  // Chargers that follow the protocol
  // ---------------------------------------------------------------------------

  /**
   Both sides: the book, and each connector's open transaction. `usedTx` and `usedIDs` are the
   identifiers generated so far, and `announced` the connectors whose open transaction was started
   or metered since the last wipe.
   */
  datatype World = World(
    book: Book, open: map<Target, int>, usedTx: set<(string, int)>, usedIDs: set<string>, announced: set<Target>)

  /**
   A charger opens a transaction on a free connector, meters or stops one it has open; the central
   system restarts.
   */
  datatype Step =
    | Start(p: Target, tx: int, uuid: string, idTag: string, meterStartWh: real, at: int)
    | Meter(p: Target, withTx: bool, uuid: string, at: int)
    | Stop(p: Target, meterStopWh: real, at: int, reason: string)
    | Wipe

  ghost predicate Next(w: World, s: Step, w': World) {
    match s
    case Start(p, tx, uuid, idTag, wh, at) =>
      && p !in w.open && (p.0, tx) !in w.usedTx && uuid !in w.usedIDs && uuid != ""
      && w' == World(w.book[uuid := Opened(uuid, tx, p, idTag, wh, at)], w.open[p := tx],
                     w.usedTx + {(p.0, tx)}, w.usedIDs + {uuid}, w.announced + {p})
    case Meter(p, withTx, uuid, at) =>
      && p in w.open && uuid !in w.usedIDs && uuid != ""
      && MeterStep(w.book, w'.book, p, if withTx then Some(w.open[p]) else None, uuid, at)
      && w' == World(w'.book, w.open, w.usedTx, w.usedIDs + {uuid}, if withTx then w.announced + {p} else w.announced)
    case Stop(p, wh, at, reason) =>
      && p in w.open
      && StopStep(w.book, w'.book, p.0, w.open[p], wh, at, reason)
      && w' == World(w'.book, w.open - {p}, w.usedTx, w.usedIDs, w.announced - {p})
    case Wipe =>
      w' == w.(book := map[], announced := {})
  }

  ghost predicate OpenIsDistinct(w: World) {
    && (forall p :: p in w.open ==> (p.0, w.open[p]) in w.usedTx)
    && (forall p, q :: p in w.open && q in w.open && p.0 == q.0 && w.open[p] == w.open[q] ==> p == q)
  }

  /**
   An active session is its charger's open transaction on that very connector, a stopped one is not open
   any more.
   */
  ghost predicate Faithful(w: World, s: Session) {
    var p := (s.chargerID, s.connectorID);
    && s.id in w.usedIDs
    && (s.chargerID, s.transactionID) in w.usedTx
    && (s.stoppedAt.None? ==> p in w.open && w.open[p] == s.transactionID)
    && (s.stoppedAt.Some? ==> forall q :: q in w.open && q.0 == s.chargerID ==> w.open[q] != s.transactionID)
  }

  ghost predicate HasActive(b: Book, p: Target) {
    exists id :: id in b && IsActiveAt(b[id], p)
  }

  ghost predicate InStep(w: World) {
    && BookValid(w.book)
    && OnePerTransaction(w.book)
    && OpenIsDistinct(w)
    && (forall id :: id in w.book ==> Faithful(w, w.book[id]))
    && (forall p :: p in w.announced ==> p in w.open && HasActive(w.book, p))
  }

  lemma StartKeepsInStep(w: World, s: Step, w': World)
    requires InStep(w) && s.Start? && Next(w, s, w')
    ensures InStep(w')
  {
    var x := w'.book[s.uuid];
    forall id | id in w'.book ensures Faithful(w', w'.book[id]) {
      assert id != s.uuid ==> Faithful(w, w.book[id]);
    }
    forall i | i in w.book ensures !IsOf(w.book[i], s.p.0, s.tx) {
      assert Faithful(w, w.book[i]);
    }
    forall p | p in w'.announced ensures HasActive(w'.book, p) {
      if p == s.p {
        assert IsActiveAt(x, p);
      } else {
        var id :| id in w.book && IsActiveAt(w.book[id], p);
        assert Faithful(w, w.book[id]);
        assert IsActiveAt(w'.book[id], p);
      }
    }
  }

  /** The session of an open transaction, if there is one, is active on the same connector. */
  lemma OpenSessionIsActive(w: World, p: Target, id: string)
    requires InStep(w) && p in w.open
    requires id in w.book && IsOf(w.book[id], p.0, w.open[p])
    ensures IsActiveAt(w.book[id], p)
  {
    assert Faithful(w, w.book[id]);
  }

  lemma MeterKeepsInStep(w: World, s: Step, w': World)
    requires InStep(w) && s.Meter? && Next(w, s, w')
    ensures InStep(w')
  {
    var tx := w.open[s.p];
    if s.withTx && Knows(w.book, s.p.0, tx) {
      var id :| id in w.book && IsOf(w.book[id], s.p.0, tx);
      OpenSessionIsActive(w, s.p, id);
    }
    forall id | id in w'.book ensures Faithful(w', w'.book[id]) {
      assert id in w.book ==> Faithful(w, w.book[id]);
    }
    assert s.uuid !in w.book;
    forall p | p in w'.announced ensures HasActive(w'.book, p) {
      if p in w.announced {
        var id :| id in w.book && IsActiveAt(w.book[id], p);
        assert IsActiveAt(w'.book[id], p);
      } else if !Knows(w.book, s.p.0, tx) {
        assert IsActiveAt(w'.book[s.uuid], p);
      }
    }
  }

  /** A stop closes the session of the very transaction that ends with it. */
  lemma CloseKeepsFaithful(w: World, s: Step, w': World, id: string)
    requires InStep(w) && s.Stop? && Next(w, s, w') && id in w'.book
    ensures Faithful(w', w'.book[id])
  {
    assert Faithful(w, w.book[id]);
    if IsOf(w.book[id], s.p.0, w.open[s.p]) {
      assert Knows(w.book, s.p.0, w.open[s.p]);
    }
  }

  lemma StopKeepsInStep(w: World, s: Step, w': World)
    requires InStep(w) && s.Stop? && Next(w, s, w')
    ensures InStep(w')
  {
    forall id | id in w'.book ensures Faithful(w', w'.book[id]) {
      CloseKeepsFaithful(w, s, w', id);
    }
    forall p | p in w'.announced ensures HasActive(w'.book, p) {
      var id :| id in w.book && IsActiveAt(w.book[id], p);
      assert Faithful(w, w.book[id]);
      assert IsActiveAt(w'.book[id], p);
    }
  }

  lemma StepKeepsInStep(w: World, s: Step, w': World)
    requires InStep(w) && Next(w, s, w')
    ensures InStep(w')
  {
    match s
    case Start(_, _, _, _, _, _) => StartKeepsInStep(w, s, w');
    case Meter(_, _, _, _) => MeterKeepsInStep(w, s, w');
    case Stop(_, _, _, _) => StopKeepsInStep(w, s, w');
    case Wipe =>
  }

  ghost predicate Execution(ws: seq<World>, steps: seq<Step>) {
    && |ws| == |steps| + 1
    && ws[0] == World(map[], map[], {}, {}, {})
    && forall i :: 0 <= i < |steps| ==> Next(ws[i], steps[i], ws[i + 1])
  }

  /**
   Across starts, meter values, stops and restarts of the central system, both sides stay in
   step: every active session is the open transaction of its connector.
   */
  lemma {:induction false} BothSidesStayInStep(ws: seq<World>, steps: seq<Step>, i: nat)
    requires Execution(ws, steps) && i <= |steps|
    ensures InStep(ws[i])
  {
    if i > 0 {
      BothSidesStayInStep(ws, steps, i - 1);
      StepKeepsInStep(ws[i - 1], steps[i - 1], ws[i]);
    }
  }

  /** A connector never has two active sessions. */
  lemma {:induction false} OneActiveSession(ws: seq<World>, steps: seq<Step>, i: nat, p: Target, a: string, b: string)
    requires Execution(ws, steps) && i <= |steps|
    requires a in ws[i].book && IsActiveAt(ws[i].book[a], p)
    requires b in ws[i].book && IsActiveAt(ws[i].book[b], p)
    ensures a == b
  {
    BothSidesStayInStep(ws, steps, i);
    assert Faithful(ws[i], ws[i].book[a]) && Faithful(ws[i], ws[i].book[b]);
  }

  /**
   Whatever session the repository answers, a TxProfile sent with it names the transaction really open
   on the connector.
   */
  lemma {:induction false} TxProfileNamesOpenTransaction(
    ws: seq<World>, steps: seq<Step>, i: nat, p: Target, answer: Option<Session>, amps: int, defaultAccepted: bool)
    requires Execution(ws, steps) && i <= |steps|
    requires AnswersActive(ws[i].book, p, answer)
    ensures var live := if answer.Some? then Some(answer.value.transactionID) else None;
            forall x ::
              x in Commanding.ProfilesFor(p.0, p.1, amps, live, defaultAccepted) && x.profile.purpose.TxProfile? ==>
              p in ws[i].open && x.profile.transactionId == Some(ws[i].open[p])
  {
    BothSidesStayInStep(ws, steps, i);
    if answer.Some? {
      assert Faithful(ws[i], answer.value);
    }
  }

  /**
   And the other way round: a connector whose open transaction was started or metered since the last
   restart has an active session, so it is found and no other is.
   */
  lemma {:induction false} AnnouncedTransactionIsFound(
    ws: seq<World>, steps: seq<Step>, i: nat, p: Target, answer: Option<Session>)
    requires Execution(ws, steps) && i <= |steps|
    requires AnswersActive(ws[i].book, p, answer)
    ensures p in ws[i].announced ==> p in ws[i].open && answer.Some? && answer.value.transactionID == ws[i].open[p]
    ensures p !in ws[i].open ==> answer.None?
  {
    BothSidesStayInStep(ws, steps, i);
    if answer.Some? {
      assert Faithful(ws[i], answer.value);
    }
  }

  /**
   After a restart one MeterValues with its transaction id brings a session back; reconstructed, it is a session of that
   transaction and connector from the moment of the message, with the id tag "recovered" and no start reading.
   */
  lemma {:induction false} OneMeterValueRecovers(ws: seq<World>, steps: seq<Step>, i: nat, answer: Option<Session>)
    requires Execution(ws, steps) && i < |steps|
    requires steps[i].Meter? && steps[i].withTx
    requires AnswersActive(ws[i + 1].book, steps[i].p, answer)
    ensures answer.Some? && answer.value.transactionID == ws[i].open[steps[i].p]
    ensures var s, tx := steps[i], ws[i].open[steps[i].p];
            !Knows(ws[i].book, s.p.0, tx) ==>
              answer.value == Session(s.uuid, tx, s.p.0, s.p.1, "recovered", 0.0, None, s.at, None, "")
  {
    var s, tx := steps[i], ws[i].open[steps[i].p];
    assert Next(ws[i], s, ws[i + 1]);
    AnnouncedTransactionIsFound(ws, steps, i + 1, s.p, answer);
    if !Knows(ws[i].book, s.p.0, tx) {
      BothSidesStayInStep(ws, steps, i + 1);
      assert IsOf(ws[i + 1].book[s.uuid], s.p.0, tx) && IsOf(ws[i + 1].book[answer.value.id], s.p.0, tx);
    }
  }

  /** The session of a transaction still open is untouched by every step but a wipe and its own stop. */
  lemma OpenSessionUntouched(w: World, s: Step, w': World, p: Target, id: string)
    requires InStep(w) && Next(w, s, w') && !s.Wipe? && !(s.Stop? && s.p == p)
    requires p in w.open && id in w.book && IsOf(w.book[id], p.0, w.open[p])
    ensures p in w'.open && w'.open[p] == w.open[p]
    ensures id in w'.book && w'.book[id] == w.book[id]
  {
    assert Faithful(w, w.book[id]);
  }

  lemma {:induction false} SessionUntilStop(ws: seq<World>, steps: seq<Step>, i: nat, k: nat)
    requires Execution(ws, steps) && i < k <= |steps| && steps[i].Start?
    requires forall j :: i < j < k ==> !steps[j].Wipe? && !(steps[j].Stop? && steps[j].p == steps[i].p)
    ensures var s := steps[i];
            && s.p in ws[k].open && ws[k].open[s.p] == s.tx
            && s.uuid in ws[k].book
            && ws[k].book[s.uuid] == Opened(s.uuid, s.tx, s.p, s.idTag, s.meterStartWh, s.at)
  {
    assert Next(ws[k - 1], steps[k - 1], ws[k]);
    if k > i + 1 {
      SessionUntilStop(ws, steps, i, k - 1);
      BothSidesStayInStep(ws, steps, k - 1);
      OpenSessionUntouched(ws[k - 1], steps[k - 1], ws[k], steps[i].p, steps[i].uuid);
    }
  }

  /**
   What a session records: whatever other chargers and connectors do in between, a transaction
   started and stopped with no restart of the central system in between leaves one session with
   the readings and times of exactly that start and that stop.
   */
  lemma {:induction false} StartToStop(ws: seq<World>, steps: seq<Step>, i: nat, j: nat)
    requires Execution(ws, steps) && i < j < |steps|
    requires steps[i].Start? && steps[j].Stop? && steps[j].p == steps[i].p
    requires forall k :: i < k < j ==> !steps[k].Wipe? && !(steps[k].Stop? && steps[k].p == steps[i].p)
    ensures var start, stop := steps[i], steps[j];
            && start.uuid in ws[j + 1].book
            && ws[j + 1].book[start.uuid] ==
                 Session(start.uuid, start.tx, start.p.0, start.p.1, start.idTag, start.meterStartWh,
                   Some(stop.meterStopWh),
                         start.at, Some(stop.at), stop.reason)
            && OnePerTransaction(ws[j + 1].book)
  {
    SessionUntilStop(ws, steps, i, j);
    BothSidesStayInStep(ws, steps, j);
    BothSidesStayInStep(ws, steps, j + 1);
    assert Next(ws[j], steps[j], ws[j + 1]);
    assert Knows(ws[j].book, steps[i].p.0, steps[i].tx);
  }
}
