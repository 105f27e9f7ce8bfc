/**
 The gate's remote stops and starts as the commander meets them: `Handed` gives the commander's books after a log of
 the control loop, entry by entry, and `HandedFor` what that means for one charger.
 */
module Handover {
  import opened Options
  import opened Sequences
  import opened Trace
  import opened Commanding

  /** How the outside world meets the command at a position of the trace. */
  type World = nat -> Attempt

  /** The switches the commander has on record and the requests it has sent. */
  datatype Books = Books(last: map<string, int>, requested: seq<(string, StartStop)>)

  predicate IsCommand(x: Entry) {
    x.RemoteStop? || x.RemoteStart?
  }

  function RequestOf(x: Entry): StartStop
    requires IsCommand(x)
  {
    if x.RemoteStop? then StopRequest(x.tx) else StartRequest(x.connector, "solar")
  }

  /** The books after one command. */
  function Ask(b: Books, cooldown: int, id: string, request: StartStop, a: Attempt): Books {
    Books(Tried(b.last, cooldown, id, a),
          b.requested + if GoesOut(b.last, cooldown, id, a) then [(id, request)] else [])
  }

  function HandOne(b: Books, cooldown: int, x: Entry, a: Attempt): Books {
    if !IsCommand(x) then b else Ask(b, cooldown, x.id, RequestOf(x), a)
  }

  /** The books after a log whose first entry stands at `base`. */
  function Handed(b: Books, cooldown: int, world: World, base: nat, log: seq<Entry>): Books {
    if log == [] then b
    else HandOne(Handed(b, cooldown, world, base, Front(log)), cooldown, Last(log), world(base + |log| - 1))
  }

  lemma {:induction false} HandedSplit(
    b: Books, cooldown: int, world: World, base: nat, xs: seq<Entry>, ys: seq<Entry>)
    ensures Handed(b, cooldown, world, base, xs + ys)
         == Handed(Handed(b, cooldown, world, base, xs), cooldown, world, base + |xs|, ys)
  {
    if ys == [] {
      assert xs + ys == xs;
    } else {
      assert Front(xs + ys) == xs + Front(ys);
      HandedSplit(b, cooldown, world, base, xs, Front(ys));
    }
  }

  lemma {:induction false} HandedQuiet(b: Books, cooldown: int, world: World, base: nat, log: seq<Entry>)
    requires forall x :: x in log ==> !IsCommand(x)
    ensures Handed(b, cooldown, world, base, log) == b
  {
    if log != [] {
      HandedQuiet(b, cooldown, world, base, Front(log));
    }
  }

  // ---------------------------------------------------------------------------
  // One charger
  // ---------------------------------------------------------------------------

  /** What one charger's remote stops and starts ask of it, in order. */
  function RequestsFor(log: seq<Entry>, id: string): seq<StartStop> {
    if log == [] then []
    else
      var x := Last(log);
      RequestsFor(Front(log), id) + if IsCommand(x) && x.id == id then [RequestOf(x)] else []
  }

  /** How the outside world meets them. */
  function AttemptsFor(world: World, base: nat, log: seq<Entry>, id: string): (burst: seq<Attempt>)
    ensures |burst| == |RequestsFor(log, id)|
  {
    if log == [] then []
    else
      AttemptsFor(world, base, Front(log), id) +
      if IsCommand(Last(log)) && Last(log).id == id then [world(base + |log| - 1)] else []
  }

  function RequestsTo(requested: seq<(string, StartStop)>, id: string): seq<StartStop> {
    if requested == [] then []
    else RequestsTo(Front(requested), id) + if Last(requested).0 == id then [Last(requested).1] else []
  }

  lemma RequestsToOneMore(requested: seq<(string, StartStop)>, x: (string, StartStop), id: string)
    ensures RequestsTo(requested + [x], id) == RequestsTo(requested, id) + if x.0 == id then [x.1] else []
  {
    assert Front(requested + [x]) == requested;
  }

  /** A command for one charger is checked against that charger's record alone. */
  lemma TriedSame(last: map<string, int>, last': map<string, int>, cooldown: int, id: string, a: Attempt)
    requires Lookup(last, id) == Lookup(last', id)
    ensures GoesOut(last, cooldown, id, a) == GoesOut(last', cooldown, id, a)
    ensures Lookup(Tried(last, cooldown, id, a), id) == Lookup(Tried(last', cooldown, id, a), id)
  {
  }

  lemma AskFor(b: Books, cooldown: int, who: string, request: StartStop, a: Attempt, id: string)
    ensures var b' := Ask(b, cooldown, who, request, a);
            if who == id then
              && Lookup(b'.last, id) == Lookup(Tried(b.last, cooldown, id, a), id)
              && RequestsTo(b'.requested, id) == RequestsTo(b.requested, id) +
                 if GoesOut(b.last, cooldown, id, a) then [request] else []
            else
              Lookup(b'.last, id) == Lookup(b.last, id) && RequestsTo(b'.requested, id) == RequestsTo(b.requested, id)
  {
    if GoesOut(b.last, cooldown, who, a) {
      RequestsToOneMore(b.requested, (who, request), id);
    } else {
      assert b.requested + [] == b.requested;
    }
  }

  /** From `b` to `b'` the charger was sent what goes out of these requests, met like this. */
  predicate Follows(b: Books, b': Books, cooldown: int, id: string, burst: seq<Attempt>, requests: seq<StartStop>)
    requires |burst| == |requests|
  {
    && Lookup(b'.last, id) == Lookup(TriedAll(b.last, cooldown, id, burst), id)
    && RequestsTo(b'.requested, id) == RequestsTo(b.requested, id) + Going(b.last, cooldown, id, burst, requests)
  }

  lemma FollowsOneMore(
    b: Books, mid: Books, cooldown: int, id: string, burst: seq<Attempt>, requests: seq<StartStop>,
    request: StartStop, a: Attempt)
    requires |burst| == |requests| && Follows(b, mid, cooldown, id, burst, requests)
    ensures Follows(b, Ask(mid, cooldown, id, request, a), cooldown, id, burst + [a], requests + [request])
  {
    AskFor(mid, cooldown, id, request, a, id);
    TriedSame(mid.last, TriedAll(b.last, cooldown, id, burst), cooldown, id, a);
    GoingOneMore(b.last, cooldown, id, burst, requests, a, request);
  }

  /**
   However the commands for several chargers interleave, each charger is sent those of its own that go out of its own
   burst, whatever becomes of the others.
   */
  lemma {:induction false} HandedFor(b: Books, cooldown: int, world: World, base: nat, log: seq<Entry>, id: string)
    ensures Follows(b, Handed(b, cooldown, world, base, log), cooldown, id,
                    AttemptsFor(world, base, log, id), RequestsFor(log, id))
  {
    if log != [] {
      HandedFor(b, cooldown, world, base, Front(log), id);
      var mid, x, a := Handed(b, cooldown, world, base, Front(log)), Last(log), world(base + |log| - 1);
      var burst, requests := AttemptsFor(world, base, Front(log), id), RequestsFor(Front(log), id);
      if IsCommand(x) {
        if x.id == id {
          FollowsOneMore(b, mid, cooldown, id, burst, requests, RequestOf(x), a);
        } else {
          AskFor(mid, cooldown, x.id, RequestOf(x), a, id);
        }
      }
      assert burst + [] == burst && requests + [] == requests;
    }
  }

  // ---------------------------------------------------------------------------
  // Commands of one loop for one charger
  // ---------------------------------------------------------------------------

  /** The books after these requests, the k-th met by the k-th attempt. */
  function AskAll(b: Books, cooldown: int, id: string, requests: seq<StartStop>, world: World): Books {
    if requests == [] then b
    else Ask(AskAll(b, cooldown, id, Front(requests), world), cooldown, id, Last(requests), world(|requests| - 1))
  }

  lemma AskOneMore(
    b: Books, cooldown: int, id: string, requests: seq<StartStop>, request: StartStop, world: World)
    ensures AskAll(b, cooldown, id, requests + [request], world)
         == Ask(AskAll(b, cooldown, id, requests, world), cooldown, id, request, world(|requests|))
  {
    assert Front(requests + [request]) == requests;
  }

  function FirstOf(world: World, n: nat): (burst: seq<Attempt>)
    ensures |burst| == n
  {
    if n == 0 then [] else FirstOf(world, n - 1) + [world(n - 1)]
  }

  /** So the charger is sent those of them that go out of the burst they make. */
  lemma {:induction false} AskedFor(b: Books, cooldown: int, id: string, requests: seq<StartStop>, world: World)
    ensures Follows(b, AskAll(b, cooldown, id, requests, world), cooldown, id, FirstOf(world, |requests|), requests)
  {
    if requests != [] {
      var past := Front(requests);
      AskedFor(b, cooldown, id, past, world);
      FollowsOneMore(b, AskAll(b, cooldown, id, past, world), cooldown, id, FirstOf(world, |past|), past,
                     Last(requests), world(|past|));
      assert requests == past + [Last(requests)];
    }
  }
}
