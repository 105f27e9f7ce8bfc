/**
 The event emitter: every subscriber has a bounded buffer, and an event that finds it full is dropped
 for that subscriber.
 */
module Emitting {
  import opened Sequences

  const DEFAULT_BUFFER_SIZE := 512

  /**
   One subscriber's side, with everything emitted since it subscribed, everything it has received, and
   the number dropped.
   */
  datatype Stream<T> = Stream(cap: nat, buffer: seq<T>, received: seq<T>, emitted: seq<T>, dropped: nat)

  function Opened<T>(cap: nat): Stream<T> {
    Stream(cap, [], [], [], 0)
  }

  function Push<T>(s: Stream<T>, ev: T): Stream<T> {
    if |s.buffer| < s.cap then s.(buffer := s.buffer + [ev], emitted := s.emitted + [ev])
    else s.(emitted := s.emitted + [ev], dropped := s.dropped + 1)
  }

  /** Receiving from an empty buffer waits, so nothing happens yet. */
  function Pull<T>(s: Stream<T>): Stream<T> {
    if s.buffer == [] then s else s.(buffer := s.buffer[1..], received := s.received + [s.buffer[0]])
  }

  class Channel<T> {
    const cap: nat
    var buffer: seq<T>
    ghost var received: seq<T>
    ghost var emitted: seq<T>
    ghost var dropped: nat

    ghost function Value(): Stream<T>
      reads this
    {
      Stream(cap, buffer, received, emitted, dropped)
    }

    constructor (cap: nat)
      ensures Value() == Opened(cap)
    {
      this.cap := cap;
      buffer, received, emitted, dropped := [], [], [], 0;
    }

    /** A send that never blocks. */
    method TrySend(ev: T) returns (ok: bool)
      modifies this
      ensures ok == (|old(buffer)| < cap)
      ensures Value() == Push(old(Value()), ev)
    {
      ok := |buffer| < cap;
      emitted := emitted + [ev];
      if ok {
        buffer := buffer + [ev];
      } else {
        dropped := dropped + 1;
      }
    }

    method Receive() returns (ev: T)
      requires buffer != []
      modifies this
      ensures ev == old(buffer)[0]
      ensures Value() == Pull(old(Value()))
    {
      ev := buffer[0];
      received := received + [ev];
      buffer := buffer[1..];
    }
  }

  class Emitter<T> {
    var subscribers: seq<Channel<T>>
    const bufSize: nat

    ghost predicate Valid()
      reads this
    {
      forall i, j :: 0 <= i < j < |subscribers| ==> subscribers[i] != subscribers[j]
    }

    constructor (bufSize: int)
      ensures Valid() && subscribers == []
      ensures this.bufSize == if bufSize <= 0 then DEFAULT_BUFFER_SIZE else bufSize
    {
      this.bufSize := if bufSize <= 0 then DEFAULT_BUFFER_SIZE else bufSize;
      subscribers := [];
    }

    method Subscribe() returns (ch: Channel<T>)
      requires Valid()
      modifies this
      ensures Valid()
      ensures fresh(ch) && ch.Value() == Opened(bufSize)
      ensures subscribers == old(subscribers) + [ch]
    {
      ch := new Channel(bufSize);
      subscribers := subscribers + [ch];
    }

    method Emit(ev: T)
      requires Valid()
      modifies subscribers
      ensures Valid() && subscribers == old(subscribers)
      ensures forall ch :: ch in subscribers ==> ch.Value() == Push(old(ch.Value()), ev)
    {
      var i := 0;
      while i < |subscribers|
        invariant 0 <= i <= |subscribers|
        invariant subscribers == old(subscribers) && Valid()
        invariant forall k :: 0 <= k < i ==> subscribers[k].Value() == Push(old(subscribers[k].Value()), ev)
        invariant forall k :: i <= k < |subscribers| ==> subscribers[k].Value() == old(subscribers[k].Value())
      {
        var ok := subscribers[i].TrySend(ev);
        i := i + 1;
      }
    }
  }

  // ---------------------------------------------------------------------------
  // Runs
  // ---------------------------------------------------------------------------

  datatype Op<T> = Subscribe | Emit(ev: T) | Receive(k: nat)

  /** All subscribers, in the order they subscribed. */
  function Apply<T>(cap: nat, all: seq<Stream<T>>, op: Op<T>): seq<Stream<T>> {
    match op
    case Subscribe => all + [Opened(cap)]
    case Emit(ev) => seq(|all|, i requires 0 <= i < |all| => Push(all[i], ev))
    case Receive(k) => if k < |all| then all[k := Pull(all[k])] else all
  }

  function Run<T>(cap: nat, ops: seq<Op<T>>): seq<Stream<T>> {
    if ops == [] then [] else Apply(cap, Run(cap, Front(ops)), Last(ops))
  }

  /** Nothing invented, reordered, duplicated or uncounted, and never more waiting than the buffer holds. */
  predicate Conserved<T(==)>(s: Stream<T>) {
    && IsSubsequence(s.received + s.buffer, s.emitted)
    && |s.buffer| <= s.cap
    && |s.emitted| == |s.received| + |s.buffer| + s.dropped
  }

  lemma PushConserves<T>(s: Stream<T>, ev: T)
    requires Conserved(s)
    ensures Conserved(Push(s, ev))
  {
    var emitted := s.emitted + [ev];
    assert Front(emitted) == s.emitted;
    if |s.buffer| < s.cap {
      assert s.received + (s.buffer + [ev]) == (s.received + s.buffer) + [ev];
      assert Front((s.received + s.buffer) + [ev]) == s.received + s.buffer;
    }
  }

  lemma PullConserves<T>(s: Stream<T>)
    requires Conserved(s)
    ensures Conserved(Pull(s))
  {
    if s.buffer != [] {
      assert s.received + [s.buffer[0]] + s.buffer[1..] == s.received + s.buffer;
    }
  }

  /** For every subscriber, in every run. */
  lemma {:induction false} EveryStreamConserved<T>(cap: nat, ops: seq<Op<T>>)
    ensures forall i :: 0 <= i < |Run(cap, ops)| ==> Conserved(Run(cap, ops)[i])
  {
    if ops != [] {
      EveryStreamConserved(cap, Front(ops));
      var all := Run(cap, Front(ops));
      forall i | 0 <= i < |Run(cap, ops)| ensures Conserved(Run(cap, ops)[i]) {
        if i < |all| {
          PullConserves(all[i]);
          if Last(ops).Emit? {
            PushConserves(all[i], Last(ops).ev);
          }
        }
      }
    }
  }

  // ---------------------------------------------------------------------------
  // What is dropped
  // ---------------------------------------------------------------------------

  function Subscribed<T>(ops: seq<Op<T>>): nat {
    if ops == [] then 0 else Subscribed(Front(ops)) + if Last(ops).Subscribe? then 1 else 0
  }

  lemma {:induction false} OneStreamEach<T>(cap: nat, ops: seq<Op<T>>)
    ensures |Run(cap, ops)| == Subscribed(ops)
  {
    if ops != [] {
      OneStreamEach(cap, Front(ops));
    }
  }

  /** The events waiting for the k-th subscriber. */
  function Waiting<T>(cap: nat, ops: seq<Op<T>>, k: nat): seq<T> {
    if k < |Run(cap, ops)| then Run(cap, ops)[k].buffer else []
  }

  /** The events emitted since the k-th subscriber joined, all or only those that found room for it. */
  function Events<T>(cap: nat, ops: seq<Op<T>>, k: nat, roomOnly: bool): seq<T> {
    if ops == [] then []
    else
      var op := Last(ops);
      Events(cap, Front(ops), k, roomOnly) +
      if op.Emit? && k < Subscribed(Front(ops)) && (roomOnly ==> |Waiting(cap, Front(ops), k)| < cap) then [op.ev]
      else []
  }

  /** How often the k-th subscriber received while something was waiting for it. */
  function Receipts<T>(cap: nat, ops: seq<Op<T>>, k: nat): nat {
    if ops == [] then 0
    else
      Receipts(cap, Front(ops), k) +
      if Last(ops) == Receive(k) && Waiting(cap, Front(ops), k) != [] then 1 else 0
  }

  /** The stream of a subscriber is made of the events that found room, of which so many are received. */
  ghost predicate Delivers<T>(s: Stream<T>, all: seq<T>, kept: seq<T>, n: nat) {
    && s.emitted == all
    && s.received + s.buffer == kept
    && |s.received| == n
    && |s.emitted| == |kept| + s.dropped
  }

  lemma PushDelivers<T>(s: Stream<T>, ev: T, all: seq<T>, kept: seq<T>, n: nat)
    requires Delivers(s, all, kept, n)
    ensures Delivers(Push(s, ev), all + [ev], if |s.buffer| < s.cap then kept + [ev] else kept, n)
  {
    assert s.received + (s.buffer + [ev]) == s.received + s.buffer + [ev];
  }

  lemma PullDelivers<T>(s: Stream<T>, all: seq<T>, kept: seq<T>, n: nat)
    requires Delivers(s, all, kept, n)
    ensures Delivers(Pull(s), all, kept, if s.buffer == [] then n else n + 1)
  {
    if s.buffer != [] {
      assert s.received + [s.buffer[0]] + s.buffer[1..] == s.received + s.buffer;
    }
  }

  lemma {:induction false} NoEventsBefore<T>(cap: nat, ops: seq<Op<T>>, k: nat)
    requires k >= Subscribed(ops)
    ensures Events(cap, ops, k, true) == [] && Events(cap, ops, k, false) == [] && Receipts(cap, ops, k) == 0
  {
    if ops != [] {
      NoEventsBefore(cap, Front(ops), k);
      OneStreamEach(cap, Front(ops));
    }
  }

  /**
   In every run: a subscriber's stream is offered every event emitted since it joined, an event is dropped for it
   exactly when its buffer is full at that moment, and each receipt hands it the oldest event not received yet. With
   no event dropped it has received and waiting exactly what was emitted.
   */
  lemma {:induction false} DroppedIffFull<T>(cap: nat, ops: seq<Op<T>>, k: nat)
    requires k < Subscribed(ops)
    ensures k < |Run(cap, ops)| && Run(cap, ops)[k].cap == cap
    ensures var s, n := Run(cap, ops)[k], Receipts(cap, ops, k);
            var all, kept := Events(cap, ops, k, false), Events(cap, ops, k, true);
            && Delivers(s, all, kept, n)
            && n <= |kept| && s.received == kept[..n] && s.buffer == kept[n..]
            && (kept == all <==> s.dropped == 0)
  {
    var op := Last(ops);
    OneStreamEach(cap, ops);
    OneStreamEach(cap, Front(ops));
    if k < Subscribed(Front(ops)) {
      DroppedIffFull(cap, Front(ops), k);
      var s := Run(cap, Front(ops))[k];
      var n := Receipts(cap, Front(ops), k);
      var all, kept := Events(cap, Front(ops), k, false), Events(cap, Front(ops), k, true);
      if op.Emit? {
        PushDelivers(s, op.ev, all, kept, n);
        assert kept + [] == kept;
        KeptWithin(cap, Front(ops), k);
      } else {
        PullDelivers(s, all, kept, n);
        assert kept + [] == kept && all + [] == all;
      }
    } else {
      NoEventsBefore(cap, Front(ops), k);
    }
    KeptWithin(cap, ops, k);
  }

  lemma {:induction false} KeptWithin<T>(cap: nat, ops: seq<Op<T>>, k: nat)
    ensures var all, kept := Events(cap, ops, k, false), Events(cap, ops, k, true);
            |kept| <= |all| && (|kept| == |all| ==> kept == all)
  {
    if ops != [] {
      KeptWithin(cap, Front(ops), k);
    }
  }

  /** In particular nothing is dropped for a subscriber for whom there was room at every emission. */
  lemma {:induction false} NothingDroppedWithRoom<T>(cap: nat, ops: seq<Op<T>>, k: nat)
    requires k < Subscribed(ops)
    requires forall i :: 0 <= i < |ops| && ops[i].Emit? ==> |Waiting(cap, ops[..i], k)| < cap
    ensures k < |Run(cap, ops)|
    ensures var s := Run(cap, ops)[k];
            s.dropped == 0 && s.received + s.buffer == Events(cap, ops, k, false)
  {
    DroppedIffFull(cap, ops, k);
    AllKept(cap, ops, k);
  }

  lemma {:induction false} AllKept<T>(cap: nat, ops: seq<Op<T>>, k: nat)
    requires forall i :: 0 <= i < |ops| && ops[i].Emit? ==> |Waiting(cap, ops[..i], k)| < cap
    ensures Events(cap, ops, k, true) == Events(cap, ops, k, false)
  {
    if ops != [] {
      var xs := Front(ops);
      forall i | 0 <= i < |xs| && xs[i].Emit? ensures |Waiting(cap, xs[..i], k)| < cap {
        assert xs[..i] == ops[..i] && xs[i] == ops[i];
      }
      AllKept(cap, xs, k);
      assert xs == ops[..|ops| - 1];
    }
  }

  /** The emissions after the k-th subscriber joined, and its own receives. */
  function Own<T>(cap: nat, ops: seq<Op<T>>, k: nat): seq<Op<T>> {
    if ops == [] then []
    else
      var own := Own(cap, Front(ops), k);
      if k >= |Run(cap, Front(ops))| then own
      else if Last(ops).Emit? || Last(ops) == Receive(k) then own + [Last(ops)]
      else own
  }

  /** One subscriber alone. */
  function Alone<T>(cap: nat, ops: seq<Op<T>>): Stream<T> {
    if ops == [] then Opened(cap)
    else
      match Last(ops)
      case Subscribe => Alone(cap, Front(ops))
      case Emit(ev) => Push(Alone(cap, Front(ops)), ev)
      case Receive(_) => Pull(Alone(cap, Front(ops)))
  }

  /**
   A subscriber's stream is what it would be if nobody else had subscribed: it does not depend on how
   others drain theirs.
   */
  lemma {:induction false} StreamsAreIndependent<T>(cap: nat, ops: seq<Op<T>>, k: nat)
    requires k < |Run(cap, ops)|
    ensures Run(cap, ops)[k] == Alone(cap, Own(cap, ops, k))
  {
    var all := Run(cap, Front(ops));
    if k < |all| {
      StreamsAreIndependent(cap, Front(ops), k);
      var own := Own(cap, Front(ops), k);
      assert Front(own + [Last(ops)]) == own;
    } else {
      NothingBeforeSubscribing(cap, Front(ops), k);
    }
  }

  lemma {:induction false} NothingBeforeSubscribing<T>(cap: nat, ops: seq<Op<T>>, k: nat)
    requires k >= |Run(cap, ops)|
    ensures Own(cap, ops, k) == []
  {
    if ops != [] {
      NothingBeforeSubscribing(cap, Front(ops), k);
    }
  }
}
