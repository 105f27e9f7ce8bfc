/**
 The commander: remote start and stop behind a contactor cooldown per charger, and charging
 profiles sent as a TxDefaultProfile followed by a TxProfile for a live transaction
 (sections 3.13.1, 5.11, 5.12 and 5.16 of OCPP 1.6). Times are in nanoseconds.
 */
module Commanding {
  import opened Options
  import opened Sequences
  import opened Spacing

  const SECOND := 1_000_000_000
  const DEFAULT_COOLDOWN := 180 * SECOND

  datatype Purpose = TxDefaultProfile | TxProfile

  /** A one-period relative profile in amperes, profile id and stack level both 1. */
  datatype ChargingProfile = ChargingProfile(purpose: Purpose, limitAmps: int, transactionId: Option<int>)

  datatype Sent = Sent(charger: string, connector: int, profile: ChargingProfile)

  /**
   The profiles a limit is sent as: the default, and if that is accepted on a numbered connector, the
   live transaction's.
   */
  function ProfilesFor(id: string, n: int, amps: int, live: Option<int>, defaultAccepted: bool): seq<Sent> {
    [Sent(id, n, ChargingProfile(TxDefaultProfile, amps, None))] +
    if defaultAccepted && n > 0 && live.Some? then [Sent(id, n, ChargingProfile(TxProfile, amps, live))] else []
  }

  /** The check every start and stop command passes through. */
  predicate OffCooldown(last: map<string, int>, cooldown: int, id: string, now: int) {
    id in last ==> now - last[id] >= cooldown
  }

  datatype StartStop = StartRequest(connector: int, idTag: string) | StopRequest(transactionId: int)

  datatype Requested = OnCooldown | SendFailed | UnderWay

  class Commander {
    var contactorCooldown: int
    var lastStartStop: map<string, int>
    ghost var sent: seq<Sent>
    ghost var requested: seq<(string, StartStop)>

    constructor ()
      ensures contactorCooldown == DEFAULT_COOLDOWN && lastStartStop == map[] && sent == [] && requested == []
    {
      contactorCooldown, lastStartStop, sent, requested := DEFAULT_COOLDOWN, map[], [], [];
    }

    method SetCooldown(d: int)
      modifies this`contactorCooldown
      ensures contactorCooldown == d
    {
      contactorCooldown := d;
    }

    method EnforceCooldown(id: string, now: int) returns (ok: bool)
      ensures ok == OffCooldown(lastStartStop, contactorCooldown, id, now)
    {
      if id in lastStartStop && now - lastStartStop[id] < contactorCooldown {
        return false;
      }
      return true;
    }

    method MarkStartStop(id: string, now: int)
      modifies this`lastStartStop
      ensures lastStartStop == old(lastStartStop)[id := now]
    {
      lastStartStop := lastStartStop[id := now];
    }

    /**
     A remote start or stop: refused on cooldown before anything is sent, or not sent because the
     connection fails, or under way. Its confirmation, if any, comes later.
     */
    method RequestStartStop(id: string, request: StartStop, now: int, sendOk: bool) returns (out: Requested)
      modifies this`requested
      ensures out == if !OffCooldown(lastStartStop, contactorCooldown, id, now) then OnCooldown
                     else if sendOk then UnderWay else SendFailed
      ensures requested == old(requested) + if out == UnderWay then [(id, request)] else []
    {
      var ok := EnforceCooldown(id, now);
      if !ok {
        return OnCooldown;
      }
      if !sendOk {
        return SendFailed;
      }
      requested := requested + [(id, request)];
      return UnderWay;
    }

    /** The confirmation of a remote start or stop, which may come after the caller has timed out. */
    method OnStartStopConfirmation(id: string, accepted: bool, now: int)
      modifies this`lastStartStop
      ensures lastStartStop == if accepted then old(lastStartStop)[id := now] else old(lastStartStop)
    {
      if !accepted {
        return;
      }
      MarkStartStop(id, now);
    }

    /** A remote start or stop whose caller waits for the answer, or gives up. */
    method RemoteCommand(id: string, request: StartStop, a: Attempt) returns (ok: bool)
      modifies this`requested, this`lastStartStop
      ensures ok == (GoesOut(old(lastStartStop), contactorCooldown, id, a) && a.answer == Some(true))
      ensures lastStartStop == Tried(old(lastStartStop), contactorCooldown, id, a)
      ensures requested == old(requested) + if GoesOut(old(lastStartStop), contactorCooldown, id, a)
              then [(id, request)] else []
    {
      var out := RequestStartStop(id, request, a.at, a.sent);
      if out != UnderWay || a.answer.None? {
        return false;
      }
      OnStartStopConfirmation(id, a.answer.value, a.answeredAt);
      return a.answer.value;
    }

    /** `live` is the transaction of the connector's active session; the two flags are the charger's answers. */
    method SetChargingProfile(id: string, n: int, amps: int, live: Option<int>, acceptsDefault: bool, acceptsTx: bool)
      returns (ok: bool)
      modifies this`sent
      ensures ok == acceptsDefault
      ensures sent == old(sent) + ProfilesFor(id, n, amps, live, acceptsDefault)
    {
      ok := SendChargingProfile(id, n, ChargingProfile(TxDefaultProfile, amps, None), acceptsDefault);
      if !ok {
        return false;
      }
      if n <= 0 || live.None? {
        return true;
      }
      var applied := SendChargingProfile(id, n, ChargingProfile(TxProfile, amps, live), acceptsTx);
      return true;
    }

    method SendChargingProfile(id: string, n: int, p: ChargingProfile, accepts: bool) returns (ok: bool)
      modifies this`sent
      ensures ok == accepts && sent == old(sent) + [Sent(id, n, p)]
    {
      sent := sent + [Sent(id, n, p)];
      ok := accepts;
    }
  }

  // ---------------------------------------------------------------------------
  // Runs of start and stop commands
  // ---------------------------------------------------------------------------

  /** Whoever issues them: the gate, the user, or an upstream relay. */
  datatype Event =
    | Command(id: string, at: int)
    | Confirmation(id: string, at: int, accepted: bool)
    | Cooldown(cooldown: int)

  /** An accepted confirmation and the cooldown its command was checked against. */
  datatype Switch = Switch(id: string, at: int, checkedAgainst: int)

  /**
   `checked` holds, for each charger whose latest request has not been confirmed, the cooldown
   that request passed; `switches` are the accepted confirmations so far.
   */
  datatype Contactors = Contactors(
    cooldown: int, last: map<string, int>, checked: map<string, int>, now: int, switches: seq<Switch>)

  function React(w: Contactors, e: Event): Contactors {
    match e
    case Cooldown(d) => w.(cooldown := d)
    case Command(id, at) =>
      if OffCooldown(w.last, w.cooldown, id, at) then w.(checked := w.checked[id := w.cooldown], now := at)
      else w.(now := at)
    case Confirmation(id, at, accepted) =>
      var against := if id in w.checked then w.checked[id] else w.cooldown;
      if accepted then
        w.(last := w.last[id := at], checked := w.checked - {id}, now := at,
           switches := w.switches + [Switch(id, at, against)])
      else w.(checked := w.checked - {id}, now := at)
  }

  function ReactAll(w: Contactors, evs: seq<Event>): Contactors {
    if evs == [] then w else React(ReactAll(w, Front(evs)), Last(evs))
  }

  /** Time does not run backwards. */
  predicate InTime(w: Contactors, e: Event) {
    e.Cooldown? || e.at >= w.now
  }

  /** A confirmation answers the charger's latest request, which no other confirmation has answered. */
  predicate InTurn(w: Contactors, e: Event) {
    e.Confirmation? ==> e.id in w.checked
  }

  ghost predicate Timely(w: Contactors, evs: seq<Event>) {
    evs != [] ==> Timely(w, Front(evs)) && InTime(ReactAll(w, Front(evs)), Last(evs))
  }

  /** An accepted confirmation that answers no outstanding check, within the cooldown of the charger's last switch. */
  predicate TooSoon(w: Contactors, e: Event) {
    e.Confirmation? && e.accepted && e.id !in w.checked && e.id in w.last && e.at - w.last[e.id] < w.cooldown
  }

  ghost predicate NoneTooSoon(w: Contactors, evs: seq<Event>) {
    evs != [] ==> NoneTooSoon(w, Front(evs)) && !TooSoon(ReactAll(w, Front(evs)), Last(evs))
  }

  ghost predicate Serial(w: Contactors, evs: seq<Event>) {
    evs != [] ==>
      && Serial(w, Front(evs))
      && InTime(ReactAll(w, Front(evs)), Last(evs))
      && InTurn(ReactAll(w, Front(evs)), Last(evs))
  }

  /** The moments at which a charger's contactor was switched. */
  function SwitchTimes(switches: seq<Switch>, id: string): seq<int> {
    if switches == [] then []
    else SwitchTimes(Front(switches), id) + if Last(switches).id == id then [Last(switches).at] else []
  }

  /** Each switch comes at least the cooldown it was checked against after the charger's previous one. */
  ghost predicate WellSpaced(switches: seq<Switch>) {
    forall j :: 0 <= j < |switches| ==>
      var before := SwitchTimes(switches[..j], switches[j].id);
      before != [] ==> switches[j].at - Last(before) >= switches[j].checkedAgainst
  }

  predicate Remembered(w: Contactors, id: string) {
    Lookup(w.last, id) == (var ts := SwitchTimes(w.switches, id); if ts == [] then None else Some(Last(ts)))
  }

  ghost predicate Sound(w: Contactors) {
    && WellSpaced(w.switches)
    && (forall id :: Remembered(w, id))
    && (forall id :: id in w.checked && id in w.last ==> w.now - w.last[id] >= w.checked[id])
  }

  lemma SwitchTimesAppend(switches: seq<Switch>, x: Switch, id: string)
    ensures SwitchTimes(switches + [x], id) == SwitchTimes(switches, id) + if x.id == id then [x.at] else []
  {
    assert Front(switches + [x]) == switches;
  }

  lemma WellSpacedAppend(switches: seq<Switch>, x: Switch)
    requires WellSpaced(switches)
    requires var before := SwitchTimes(switches, x.id); before != [] ==> x.at - Last(before) >= x.checkedAgainst
    ensures WellSpaced(switches + [x])
  {
    forall j | 0 <= j < |switches + [x]|
      ensures var before := SwitchTimes((switches + [x])[..j], (switches + [x])[j].id);
              before != [] ==> (switches + [x])[j].at - Last(before) >= (switches + [x])[j].checkedAgainst
    {
      assert (switches + [x])[..j] == if j < |switches| then switches[..j] else switches;
    }
  }

  lemma RecordedAreRemembered(w: Contactors, id: string, at: int)
    requires forall k :: Remembered(w, k)
    ensures forall k :: Remembered(React(w, Confirmation(id, at, true)), k)
  {
    var x := Switch(id, at, if id in w.checked then w.checked[id] else w.cooldown);
    forall k ensures Remembered(React(w, Confirmation(id, at, true)), k) {
      assert Remembered(w, k);
      SwitchTimesAppend(w.switches, x, k);
    }
  }

  lemma ConfirmationKeepsSound(w: Contactors, id: string, at: int)
    requires Sound(w) && at >= w.now && !TooSoon(w, Confirmation(id, at, true))
    ensures Sound(React(w, Confirmation(id, at, true)))
  {
    var x := Switch(id, at, if id in w.checked then w.checked[id] else w.cooldown);
    RecordedAreRemembered(w, id, at);
    assert WellSpaced(React(w, Confirmation(id, at, true)).switches) by {
      assert Remembered(w, id);
      WellSpacedAppend(w.switches, x);
    }
  }

  lemma EventKeepsSound(w: Contactors, e: Event)
    requires Sound(w) && InTime(w, e) && !TooSoon(w, e)
    ensures Sound(React(w, e))
  {
    var w' := React(w, e);
    if e.Confirmation? && e.accepted {
      ConfirmationKeepsSound(w, e.id, e.at);
    } else {
      forall k ensures Remembered(w', k) {
        assert Remembered(w, k);
      }
    }
  }

  /** A switch that came too soon stays on record. */
  lemma TooSoonIsRecorded(w: Contactors, e: Event)
    requires Sound(w) && TooSoon(w, e)
    ensures !WellSpaced(React(w, e).switches)
  {
    var w', n := React(w, e), |w.switches|;
    assert Remembered(w, e.id);
    assert w'.switches[..n] == w.switches && w'.switches[n] == Switch(e.id, e.at, w.cooldown);
    assert w'.switches[n].at - Last(SwitchTimes(w'.switches[..n], e.id)) < w'.switches[n].checkedAgainst;
  }

  lemma UnspacedStays(w: Contactors, e: Event)
    requires !WellSpaced(w.switches)
    ensures !WellSpaced(React(w, e).switches)
  {
    var j :| 0 <= j < |w.switches| && SwitchTimes(w.switches[..j], w.switches[j].id) != [] &&
             w.switches[j].at - Last(SwitchTimes(w.switches[..j], w.switches[j].id)) < w.switches[j].checkedAgainst;
    var w' := React(w, e);
    assert w.switches <= w'.switches;
    assert w'.switches[..j] == w.switches[..j] && w'.switches[j] == w.switches[j];
  }

  lemma {:induction false} SpacedWhileInTime(w: Contactors, evs: seq<Event>)
    requires Sound(w) && Timely(w, evs)
    ensures NoneTooSoon(w, evs) ==> Sound(ReactAll(w, evs))
    ensures !NoneTooSoon(w, evs) ==> !WellSpaced(ReactAll(w, evs).switches)
  {
    if evs != [] {
      var before := ReactAll(w, Front(evs));
      SpacedWhileInTime(w, Front(evs));
      if NoneTooSoon(w, evs) {
        EventKeepsSound(before, Last(evs));
      } else if NoneTooSoon(w, Front(evs)) {
        TooSoonIsRecorded(before, Last(evs));
      } else {
        UnspacedStays(before, Last(evs));
      }
    }
  }

  /**
   However commands for different chargers, confirmations and changes of the cooldown interleave: every
   switch is at least the cooldown it was checked against after its charger's previous one exactly when
   no accepted confirmation that answers no outstanding check comes within the cooldown.
   */
  lemma {:induction false} SpacingIff(cooldown: int, start: int, evs: seq<Event>)
    requires Timely(Contactors(cooldown, map[], map[], start, []), evs)
    ensures var w := Contactors(cooldown, map[], map[], start, []);
            WellSpaced(ReactAll(w, evs).switches) <==> NoneTooSoon(w, evs)
  {
    SpacedWhileInTime(Contactors(cooldown, map[], map[], start, []), evs);
  }

  lemma {:induction false} SerialIsHarmless(w: Contactors, evs: seq<Event>)
    requires Serial(w, evs)
    ensures Timely(w, evs) && NoneTooSoon(w, evs)
  {
    if evs != [] {
      SerialIsHarmless(w, Front(evs));
    }
  }

  /**
   In particular, as long as a command's confirmation, if it comes, comes before the next command passes
   the check, every switch keeps the cooldown its command was checked against.
   */
  lemma {:induction false} ContactorSpacing(cooldown: int, start: int, evs: seq<Event>)
    requires Serial(Contactors(cooldown, map[], map[], start, []), evs)
    ensures WellSpaced(ReactAll(Contactors(cooldown, map[], map[], start, []), evs).switches)
  {
    SerialIsHarmless(Contactors(cooldown, map[], map[], start, []), evs);
    SpacingIff(cooldown, start, evs);
  }

  lemma OneMoreEvent(w: Contactors, evs: seq<Event>, e: Event)
    ensures ReactAll(w, evs + [e]) == React(ReactAll(w, evs), e)
    ensures Timely(w, evs + [e]) <==> Timely(w, evs) && InTime(ReactAll(w, evs), e)
    ensures NoneTooSoon(w, evs + [e]) <==> NoneTooSoon(w, evs) && !TooSoon(ReactAll(w, evs), e)
    ensures Serial(w, evs + [e]) <==>
              Serial(w, evs) && InTime(ReactAll(w, evs), e) && InTurn(ReactAll(w, evs), e)
  {
    assert Front(evs + [e]) == evs;
  }

  /**
   With two requests under way at once the spacing fails: both passed the check, both are accepted a
   nanosecond apart.
   */
  lemma TwoUnderWayBreakSpacing()
    ensures var w := Contactors(DEFAULT_COOLDOWN, map[], map[], 0, []);
            var evs := [Command("c", 0), Command("c", 0), Confirmation("c", 1, true), Confirmation("c", 2, true)];
            && Timely(w, evs) && !Serial(w, evs)
            && SwitchTimes(ReactAll(w, evs).switches, "c") == [1, 2]
            && !WellSpaced(ReactAll(w, evs).switches)
  {
    var w := Contactors(DEFAULT_COOLDOWN, map[], map[], 0, []);
    var evs := [Command("c", 0), Command("c", 0), Confirmation("c", 1, true), Confirmation("c", 2, true)];
    OneMoreEvent(w, [], evs[0]);
    OneMoreEvent(w, [evs[0]], evs[1]);
    OneMoreEvent(w, [evs[0], evs[1]], evs[2]);
    OneMoreEvent(w, [evs[0], evs[1], evs[2]], evs[3]);
    assert [] + [evs[0]] == [evs[0]] && [evs[0]] + [evs[1]] == [evs[0], evs[1]];
    assert [evs[0], evs[1]] + [evs[2]] == [evs[0], evs[1], evs[2]] && [evs[0], evs[1], evs[2]] + [evs[3]] == evs;
    SpacingIff(DEFAULT_COOLDOWN, 0, evs);
    SwitchTimesAppend([], Switch("c", 1, DEFAULT_COOLDOWN), "c");
    SwitchTimesAppend([Switch("c", 1, DEFAULT_COOLDOWN)], Switch("c", 2, DEFAULT_COOLDOWN), "c");
    assert [] + [Switch("c", 1, DEFAULT_COOLDOWN)] == [Switch("c", 1, DEFAULT_COOLDOWN)];
  }

  lemma {:induction false} FixedCooldown(w: Contactors, evs: seq<Event>)
    requires forall i :: 0 <= i < |evs| ==> !evs[i].Cooldown?
    requires forall id :: id in w.checked ==> w.checked[id] == w.cooldown
    requires forall j :: 0 <= j < |w.switches| ==> w.switches[j].checkedAgainst == w.cooldown
    ensures var w' := ReactAll(w, evs);
            && w'.cooldown == w.cooldown
            && (forall id :: id in w'.checked ==> w'.checked[id] == w.cooldown)
            && (forall j :: 0 <= j < |w'.switches| ==> w'.switches[j].checkedAgainst == w.cooldown)
  {
    if evs != [] {
      FixedCooldown(w, Front(evs));
      assert Last(evs) == evs[|evs| - 1];
    }
  }

  lemma {:induction false} SwitchTimesSpaced(switches: seq<Switch>, id: string, gap: int)
    requires WellSpaced(switches)
    requires forall j :: 0 <= j < |switches| ==> switches[j].checkedAgainst == gap
    ensures Spaced(SwitchTimes(switches, id), gap)
  {
    if switches != [] {
      var prefix, x := Front(switches), Last(switches);
      forall j | 0 <= j < |prefix|
        ensures var before := SwitchTimes(prefix[..j], prefix[j].id);
                before != [] ==> prefix[j].at - Last(before) >= prefix[j].checkedAgainst
      {
        assert prefix[..j] == switches[..j] && prefix[j] == switches[j];
      }
      SwitchTimesSpaced(prefix, id, gap);
      assert switches[..|switches| - 1] == prefix && switches[|switches| - 1] == x;
      if x.id == id {
        SpacedAppend(SwitchTimes(prefix, id), x.at, gap);
      }
    }
  }

  /** With a fixed positive cooldown C, a window of length L holds at most ceil(L / C) switches of one charger. */
  lemma {:induction false} SwitchesInAnyWindow(
    cooldown: int, start: int, evs: seq<Event>, id: string, from: int, len: nat)
    requires cooldown > 0
    requires forall i :: 0 <= i < |evs| ==> !evs[i].Cooldown?
    requires Timely(Contactors(cooldown, map[], map[], start, []), evs)
    requires NoneTooSoon(Contactors(cooldown, map[], map[], start, []), evs)
    ensures var w := ReactAll(Contactors(cooldown, map[], map[], start, []), evs);
            CountIn(SwitchTimes(w.switches, id), from, from + len) <= CeilDiv(len, cooldown)
  {
    var w := Contactors(cooldown, map[], map[], start, []);
    FixedCooldown(w, evs);
    SpacingIff(cooldown, start, evs);
    SwitchTimesSpaced(ReactAll(w, evs).switches, id, cooldown);
    WindowBound(SwitchTimes(ReactAll(w, evs).switches, id), cooldown, from, len);
  }

  // ---------------------------------------------------------------------------
  // A burst of commands for one charger
  // ---------------------------------------------------------------------------

  /** One command of a loop that waits for the answer; None when it gave up waiting. */
  datatype Attempt = Attempt(at: int, sent: bool, answer: Option<bool>, answeredAt: int)

  /** It passes the check and goes out to the charger. */
  predicate GoesOut(last: map<string, int>, cooldown: int, id: string, a: Attempt) {
    OffCooldown(last, cooldown, id, a.at) && a.sent
  }

  /** The switches on record after it. */
  function Tried(last: map<string, int>, cooldown: int, id: string, a: Attempt): map<string, int> {
    if GoesOut(last, cooldown, id, a) && a.answer == Some(true) then last[id := a.answeredAt] else last
  }

  /** It is a command among all others, followed by its confirmation if one comes while the loop waits. */
  lemma TriedAsEvents(w: Contactors, id: string, a: Attempt)
    ensures var w1 := React(w, Command(id, a.at));
            var w2 := if GoesOut(w.last, w.cooldown, id, a) && a.answer.Some?
                      then React(w1, Confirmation(id, a.answeredAt, a.answer.value)) else w1;
            w2.last == Tried(w.last, w.cooldown, id, a) && w2.cooldown == w.cooldown
  {
  }

  function TriedAll(last: map<string, int>, cooldown: int, id: string, burst: seq<Attempt>): map<string, int> {
    if burst == [] then last else Tried(TriedAll(last, cooldown, id, Front(burst)), cooldown, id, Last(burst))
  }

  /** The k-th command of the burst goes out. */
  predicate Leaves(last: map<string, int>, cooldown: int, id: string, burst: seq<Attempt>, k: nat)
    requires k < |burst|
  {
    GoesOut(TriedAll(last, cooldown, id, burst[..k]), cooldown, id, burst[k])
  }

  /** The k-th command goes out and the charger accepts it. */
  predicate Taken(last: map<string, int>, cooldown: int, id: string, burst: seq<Attempt>, k: nat)
    requires k < |burst|
  {
    Leaves(last, cooldown, id, burst, k) && burst[k].answer == Some(true)
  }

  ghost predicate OneByOne(burst: seq<Attempt>) {
    && (forall k :: 0 <= k < |burst| ==> burst[k].at <= burst[k].answeredAt)
    && (forall j, k :: 0 <= j < k < |burst| ==> burst[j].answeredAt <= burst[k].at)
  }

  lemma OneMoreTry(last: map<string, int>, cooldown: int, id: string, burst: seq<Attempt>, k: nat)
    requires k < |burst|
    ensures Lookup(TriedAll(last, cooldown, id, burst[..k + 1]), id)
         == if Taken(last, cooldown, id, burst, k) then Some(burst[k].answeredAt)
            else Lookup(TriedAll(last, cooldown, id, burst[..k]), id)
  {
    assert Front(burst[..k + 1]) == burst[..k] && Last(burst[..k + 1]) == burst[k];
  }

  /** A moment on record is the one before the burst or that of a command taken, and none was taken later. */
  ghost predicate Records(last: map<string, int>, cooldown: int, id: string, burst: seq<Attempt>, k: nat,
          r: Option<int>)
    requires k <= |burst|
  {
    && (|| r == Lookup(last, id)
        || exists j :: 0 <= j < k && Taken(last, cooldown, id, burst, j) && r == Some(burst[j].answeredAt))
    && (forall j :: 0 <= j < k && Taken(last, cooldown, id, burst, j) ==> r.Some? && burst[j].answeredAt <= r.value)
  }

  lemma RecordsTaken(last: map<string, int>, cooldown: int, id: string, burst: seq<Attempt>, k: nat)
    requires OneByOne(burst) && k < |burst| && Taken(last, cooldown, id, burst, k)
    ensures Records(last, cooldown, id, burst, k + 1, Some(burst[k].answeredAt))
  {
    forall j | 0 <= j < k ensures burst[j].answeredAt <= burst[k].answeredAt {
      assert burst[j].answeredAt <= burst[k].at;
    }
  }

  lemma RecordsKept(last: map<string, int>, cooldown: int, id: string, burst: seq<Attempt>, k: nat, r: Option<int>)
    requires k < |burst| && !Taken(last, cooldown, id, burst, k) && Records(last, cooldown, id, burst, k, r)
    ensures Records(last, cooldown, id, burst, k + 1, r)
  {
    if r != Lookup(last, id) {
      var j :| 0 <= j < k && Taken(last, cooldown, id, burst, j) && r == Some(burst[j].answeredAt);
      assert j < k + 1;
    }
  }

  lemma {:induction false} BurstRecord(last: map<string, int>, cooldown: int, id: string, burst: seq<Attempt>, k: nat)
    requires OneByOne(burst) && k <= |burst|
    ensures Records(last, cooldown, id, burst, k, Lookup(TriedAll(last, cooldown, id, burst[..k]), id))
  {
    if k > 0 {
      BurstRecord(last, cooldown, id, burst, k - 1);
      OneMoreTry(last, cooldown, id, burst, k - 1);
      if Taken(last, cooldown, id, burst, k - 1) {
        RecordsTaken(last, cooldown, id, burst, k - 1);
      } else {
        RecordsKept(last, cooldown, id, burst, k - 1, Lookup(TriedAll(last, cooldown, id, burst[..k - 1]), id));
      }
    }
  }

  /**
   A command of a burst goes out exactly when it can be sent, the charger was off cooldown to begin with, and is
   again since every earlier command of the burst it accepted.
   */
  lemma {:induction false} LeavesIff(last: map<string, int>, cooldown: int, id: string, burst: seq<Attempt>, k: nat)
    requires OneByOne(burst) && k < |burst|
    ensures Leaves(last, cooldown, id, burst, k)
        <==> burst[k].sent && OffCooldown(last, cooldown, id, burst[k].at) &&
             forall j :: 0 <= j < k && Taken(last, cooldown, id, burst, j) ==>
               burst[k].at - burst[j].answeredAt >= cooldown
  {
    var r := Lookup(TriedAll(last, cooldown, id, burst[..k]), id);
    BurstRecord(last, cooldown, id, burst, k);
    if Leaves(last, cooldown, id, burst, k) && r != Lookup(last, id) {
      var j :| 0 <= j < k && Taken(last, cooldown, id, burst, j) && r == Some(burst[j].answeredAt);
      LeavesIff(last, cooldown, id, burst, j);
      assert burst[j].at <= burst[j].answeredAt <= burst[k].at;
    }
  }

  /** In a burst shorter than the cooldown nothing goes out after a command that was accepted, so at most one is. */
  lemma {:induction false} AtMostOneTaken(
    last: map<string, int>, cooldown: int, id: string, burst: seq<Attempt>, j: nat, k: nat)
    requires OneByOne(burst) && j < k < |burst|
    requires burst[k].at - burst[0].at < cooldown
    requires Taken(last, cooldown, id, burst, j)
    ensures !Leaves(last, cooldown, id, burst, k) && !Taken(last, cooldown, id, burst, k)
  {
    LeavesIff(last, cooldown, id, burst, k);
    assert j > 0 ==> burst[0].at <= burst[0].answeredAt <= burst[j].at;
  }

  /** What goes out of a burst's requests. */
  function Going<T>(last: map<string, int>, cooldown: int, id: string, burst: seq<Attempt>, requests: seq<T>): seq<T>
    requires |requests| == |burst|
  {
    if burst == [] then []
    else
      Going(last, cooldown, id, Front(burst), Front(requests)) +
      if GoesOut(TriedAll(last, cooldown, id, Front(burst)), cooldown, id, Last(burst)) then [Last(requests)] else []
  }

  lemma GoingOneMore<T>(
    last: map<string, int>, cooldown: int, id: string, burst: seq<Attempt>, requests: seq<T>, a: Attempt, request: T)
    requires |requests| == |burst|
    ensures TriedAll(last, cooldown, id, burst + [a]) == Tried(TriedAll(last, cooldown, id, burst), cooldown, id, a)
    ensures Going(last, cooldown, id, burst + [a], requests + [request])
         == Going(last, cooldown, id, burst, requests) +
            if GoesOut(TriedAll(last, cooldown, id, burst), cooldown, id, a) then [request] else []
  {
    assert Front(burst + [a]) == burst && Front(requests + [request]) == requests;
  }

  lemma {:induction false} GoingWhatLeaves<T>(
    last: map<string, int>, cooldown: int, id: string, burst: seq<Attempt>, requests: seq<T>, n: nat, m: nat)
    requires |requests| == |burst| && n <= |burst|
    requires forall k :: 0 <= k < n ==> (Leaves(last, cooldown, id, burst, k) <==> k < m)
    ensures Going(last, cooldown, id, burst[..n], requests[..n]) == requests[..if n < m then n else m]
  {
    if n > 0 {
      GoingWhatLeaves(last, cooldown, id, burst, requests, n - 1, m);
      assert Front(burst[..n]) == burst[..n - 1] && Front(requests[..n]) == requests[..n - 1];
      assert Leaves(last, cooldown, id, burst, n - 1) <==> n - 1 < m;
    }
  }

  /**
   Of a burst shorter than a positive cooldown, for a charger off cooldown and with its connection up: the requests up
   to and with the first it accepts go out, in order, and none after it.
   */
  lemma {:induction false} GoingUpToTaken<T>(
    last: map<string, int>, cooldown: int, id: string, burst: seq<Attempt>, requests: seq<T>, m: nat)
    requires |requests| == |burst| && OneByOne(burst) && m <= |burst|
    requires forall k :: 0 <= k < |burst| ==>
               burst[k].sent && OffCooldown(last, cooldown, id, burst[k].at) && burst[k].at - burst[0].at < cooldown
    requires forall j :: 0 <= j < m - 1 ==> !Taken(last, cooldown, id, burst, j)
    requires m < |burst| ==> m > 0 && Taken(last, cooldown, id, burst, m - 1)
    ensures Going(last, cooldown, id, burst, requests) == requests[..m]
  {
    forall k | 0 <= k < |burst| ensures Leaves(last, cooldown, id, burst, k) <==> k < m {
      if k < m {
        LeavesIff(last, cooldown, id, burst, k);
      } else {
        AtMostOneTaken(last, cooldown, id, burst, m - 1, k);
      }
    }
    GoingWhatLeaves(last, cooldown, id, burst, requests, |burst|, m);
    assert burst[..|burst|] == burst && requests[..|burst|] == requests;
  }
}
