/**
 What the profiles that were sent leave in force at the chargers. A connector has a standing limit,
 the last TxDefaultProfile it accepted, and a live one for the transaction under way. A default
 profile accepted during a transaction does not reach that transaction; a TxProfile does.
 */
module Devices {
  import opened Options
  import opened Sequences
  import opened Ports
  import opened Trace
  import opened Commanding

  datatype Device = Device(standing: map<Target, int>, live: map<Target, int>)

  predicate IsSend(x: Entry) {
    x.Profile? || x.ManualProfile?
  }

  function TargetOf(x: Entry): Target
    requires IsSend(x)
  {
    (x.id, x.connector)
  }

  /** The profiles the commander makes of an entry. */
  function ProfilesOf(x: Entry): seq<Sent> {
    if IsSend(x) then ProfilesFor(x.id, x.connector, x.amps, x.live, x.accepted) else []
  }

  /** All profiles the commander makes of a log, in order. */
  function SentOf(log: seq<Entry>): seq<Sent> {
    if log == [] then [] else SentOf(Front(log)) + ProfilesOf(Last(log))
  }

  lemma SentOfOneMore(log: seq<Entry>, x: Entry)
    ensures SentOf(log + [x]) == SentOf(log) + ProfilesOf(x)
  {
    assert Front(log + [x]) == log;
  }

  lemma SplitOneMore(a: seq<Entry>, xs: seq<Entry>, x: Entry)
    requires SentOf(a + xs) == SentOf(a) + SentOf(xs)
    ensures SentOf(a + (xs + [x])) == SentOf(a) + SentOf(xs + [x])
  {
    assert a + (xs + [x]) == (a + xs) + [x];
    SentOfOneMore(a + xs, x);
    SentOfOneMore(xs, x);
    Regroup(SentOf(a), SentOf(xs), ProfilesOf(x));
  }

  lemma {:induction false} SentOfSplit(a: seq<Entry>, b: seq<Entry>)
    ensures SentOf(a + b) == SentOf(a) + SentOf(b)
  {
    if b == [] {
      assert a + b == a && SentOf(a) + [] == SentOf(a);
    } else {
      SentOfSplit(a, Front(b));
      SplitOneMore(a, Front(b), Last(b));
      assert b == Front(b) + [Last(b)];
    }
  }

  /** Entries that send nothing change nothing of it. */
  lemma {:induction false} SentOfQuiet(log: seq<Entry>, quiet: seq<Entry>)
    requires forall x :: x in quiet ==> !IsSend(x)
    ensures SentOf(log + quiet) == SentOf(log)
  {
    if quiet == [] {
      assert log + quiet == log;
    } else {
      SentOfQuiet(log, Front(quiet));
      assert log + quiet == (log + Front(quiet)) + [Last(quiet)];
      SentOfOneMore(log + Front(quiet), Last(quiet));
    }
  }

  /** The send reaches the transaction under way: one is known, its profile goes out and is accepted. */
  predicate Reaches(x: Entry) {
    IsSend(x) && x.accepted && x.connector > 0 && x.live.Some? && x.applied
  }

  /**
   The standing limit changes if the default profile is accepted, the live one if the send reaches the
   transaction.
   */
  function Deliver(d: Device, x: Entry): Device {
    if !IsSend(x) then d
    else Device(if x.accepted then d.standing[TargetOf(x) := x.amps] else d.standing,
                if Reaches(x) then d.live[TargetOf(x) := x.amps] else d.live)
  }

  /** One profile and its answer. */
  function Take(d: Device, s: Sent, accepted: bool): Device {
    if !accepted then d
    else
      match s.profile.purpose
      case TxDefaultProfile => d.(standing := d.standing[(s.charger, s.connector) := s.profile.limitAmps])
      case TxProfile => d.(live := d.live[(s.charger, s.connector) := s.profile.limitAmps])
  }

  /** That is what the profiles the commander makes of the entry do, taken one by one with their answers. */
  lemma DeliveredByProfiles(d: Device, x: Entry)
    requires IsSend(x)
    ensures var ps := ProfilesOf(x);
            && 1 <= |ps| <= 2
            && Deliver(d, x) ==
                 var d1 := Take(d, ps[0], x.accepted);
                 if |ps| == 1 then d1 else Take(d1, ps[1], x.applied)
  {
  }

  /** What is in force after the sends of a log. */
  function InForce(d: Device, log: seq<Entry>): Device {
    if log == [] then d else Deliver(InForce(d, Front(log)), Last(log))
  }

  lemma InForceAppend(d: Device, log: seq<Entry>, x: Entry)
    ensures InForce(d, log + [x]) == Deliver(InForce(d, log), x)
  {
    assert Front(log + [x]) == log;
  }

  lemma InForceOne(d: Device, x: Entry)
    ensures InForce(d, [x]) == Deliver(d, x)
  {
    InForceAppend(d, [], x);
    assert [] + [x] == [x];
  }

  lemma {:induction false} InForceSplit(d: Device, a: seq<Entry>, b: seq<Entry>)
    ensures InForce(d, a + b) == InForce(InForce(d, a), b)
  {
    if b == [] {
      assert a + b == a;
    } else {
      var x := Last(b);
      InForceSplit(d, a, Front(b));
      assert InForce(d, a + b) == Deliver(InForce(d, a + Front(b)), x) by {
        assert a + b == a + Front(b) + [x];
        InForceAppend(d, a + Front(b), x);
      }
      assert InForce(InForce(d, a), b) == Deliver(InForce(InForce(d, a), Front(b)), x) by {
        assert b == Front(b) + [x];
        InForceAppend(InForce(d, a), Front(b), x);
      }
    }
  }

  lemma {:induction false} InForceQuiet(d: Device, log: seq<Entry>)
    requires forall x :: x in log ==> !IsSend(x)
    ensures InForce(d, log) == d
  {
    if log != [] {
      InForceQuiet(d, Front(log));
      assert Last(log) in log;
    }
  }

  /** Both limits of one connector. */
  function At(d: Device, t: Target): (Option<int>, Option<int>) {
    (Lookup(d.standing, t), Lookup(d.live, t))
  }

  /** Nothing changes anywhere else. */
  lemma DeliverElsewhere(d: Device, x: Entry, t: Target)
    requires IsSend(x) ==> t != TargetOf(x)
    ensures At(Deliver(d, x), t) == At(d, t)
  {
  }

  /** A send is redundant exactly when every limit it would set is in force already. */
  lemma RedundantIff(d: Device, x: Entry)
    requires IsSend(x)
    ensures Deliver(d, x) == d
        <==> (x.accepted ==> Lookup(d.standing, TargetOf(x)) == Some(x.amps)) &&
             (Reaches(x) ==> Lookup(d.live, TargetOf(x)) == Some(x.amps))
  {
    var t, d' := TargetOf(x), Deliver(d, x);
    if Lookup(d.standing, t) == Some(x.amps) {
      assert d.standing[t := x.amps] == d.standing;
    }
    if Lookup(d.live, t) == Some(x.amps) {
      assert d.live[t := x.amps] == d.live;
    }
    assert x.accepted ==> Lookup(d'.standing, t) == Some(x.amps);
    assert Reaches(x) ==> Lookup(d'.live, t) == Some(x.amps);
  }

  lemma SameAtEach(a: Device, b: Device)
    requires forall t :: At(a, t) == At(b, t)
    ensures a == b
  {
    forall t ensures Lookup(a.standing, t) == Lookup(b.standing, t) && Lookup(a.live, t) == Lookup(b.live, t) {
      assert At(a, t) == At(b, t);
    }
    SameLookups(a.standing, b.standing);
    SameLookups(a.live, b.live);
  }
}
