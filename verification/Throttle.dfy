/**
 The upstream relay and its throttle on MeterValues: a minimum interval of 60/r whole seconds for a
 rate of r per minute. Times are in nanoseconds.
 */
module Relay {
  import opened Options
  import opened Sequences
  import opened Spacing
  import opened Messages

  const SECOND := 1_000_000_000

  function MinInterval(rate: int): int
    requires rate > 0
  {
    60 / rate * SECOND
  }

  /** Whether a MeterValues arriving now is held back; `rate` is None when there is no configuration. */
  predicate Throttled(last: map<string, int>, rate: Option<int>, id: string, now: int) {
    rate.Some? && rate.value > 0 && id in last && now - last[id] < MinInterval(rate.value)
  }

  function Remember(last: map<string, int>, rate: Option<int>, id: string, now: int): map<string, int> {
    if rate.None? || rate.value <= 0 || Throttled(last, rate, id, now) then last else last[id := now]
  }

  datatype Outcome = NoConnection | Skipped | Unsupported | Passed(upstreamOk: bool)

  /** The messages the upstream connection has a call for. */
  predicate Supported(payload: Option<Message>) {
    payload.Some? && FromCharger(payload.value)
  }

  class UpstreamRelay {
    var clients: set<string>
    var mvLastSent: map<string, int>
    ghost var upstream: seq<(string, Message)>

    constructor ()
      ensures clients == {} && mvLastSent == map[] && upstream == []
    {
      clients, mvLastSent, upstream := {}, map[], [];
    }

    /**
     `proxied` says whether the charger's configuration asks for an upstream, `starts` whether the connection
     succeeds.
     */
    method Connect(id: string, proxied: bool, starts: bool) returns (ok: bool)
      modifies this`clients
      ensures ok == (!proxied || id in old(clients) || starts)
      ensures clients == if proxied && starts then old(clients) + {id} else old(clients)
    {
      if !proxied {
        return true;
      }
      if id in clients {
        return true;
      }
      if !starts {
        return false;
      }
      clients := clients + {id};
      return true;
    }

    method Disconnect(id: string)
      modifies this`clients
      ensures clients == old(clients) - {id}
    {
      clients := clients - {id};
    }

    method ShouldThrottleMV(rate: Option<int>, id: string, now: int) returns (throttle: bool)
      modifies this`mvLastSent
      ensures throttle == Throttled(old(mvLastSent), rate, id, now)
      ensures mvLastSent == Remember(old(mvLastSent), rate, id, now)
    {
      if rate.None? || rate.value <= 0 {
        return false;
      }
      var minInterval := 60 / rate.value * SECOND;
      if id in mvLastSent && now - mvLastSent[id] < minInterval {
        return true;
      }
      mvLastSent := mvLastSent[id := now];
      return false;
    }

    /** `upstreamOk` is the upstream's answer if the message is sent on. */
    method Forward(id: string, action: string, payload: Option<Message>, rate: Option<int>, now: int, upstreamOk: bool)
      returns (r: Outcome)
      modifies this`mvLastSent, this`upstream
      ensures r == if id !in clients then NoConnection
                   else if action == "MeterValues" && Throttled(old(mvLastSent), rate, id, now) then Skipped
                   else if !Supported(payload) then Unsupported
                   else Passed(upstreamOk)
      ensures mvLastSent == if id in clients && action == "MeterValues" then Remember(old(mvLastSent), rate, id, now)
                            else old(mvLastSent)
      ensures upstream == old(upstream) + if r.Passed? then [(id, payload.value)] else []
    {
      if id !in clients {
        return NoConnection;
      }
      if action == "MeterValues" {
        var throttle := ShouldThrottleMV(rate, id, now);
        if throttle {
          return Skipped;
        }
      }
      if payload.None? || !FromCharger(payload.value) {
        return Unsupported;
      }
      upstream := upstream + [(id, payload.value)];
      return Passed(upstreamOk);
    }
  }

  // ---------------------------------------------------------------------------
  // Runs of arriving MeterValues
  // ---------------------------------------------------------------------------

  type Arrival = (string, int)

  function LastAfter(rate: int, arrivals: seq<Arrival>): map<string, int> {
    if arrivals == [] then map[]
    else Remember(LastAfter(rate, Front(arrivals)), Some(rate), Last(arrivals).0, Last(arrivals).1)
  }

  /** The moments at which a charger's MeterValues are let through. */
  function LetThrough(rate: int, arrivals: seq<Arrival>, id: string): seq<int> {
    if arrivals == [] then []
    else
      var a := Last(arrivals);
      LetThrough(rate, Front(arrivals), id) +
      if a.0 == id && !Throttled(LastAfter(rate, Front(arrivals)), Some(rate), id, a.1) then [a.1] else []
  }

  lemma {:induction false} LetThroughSpaced(rate: int, arrivals: seq<Arrival>, id: string)
    requires rate > 0
    ensures var ts := LetThrough(rate, arrivals, id);
            && Spaced(ts, MinInterval(rate))
            && Lookup(LastAfter(rate, arrivals), id) == (if ts == [] then None else Some(Last(ts)))
  {
    if arrivals != [] {
      LetThroughSpaced(rate, Front(arrivals), id);
      var a, ts := Last(arrivals), LetThrough(rate, Front(arrivals), id);
      if a.0 == id && !Throttled(LastAfter(rate, Front(arrivals)), Some(rate), id, a.1) {
        SpacedAppend(ts, a.1, MinInterval(rate));
      } else {
        assert ts + [] == ts;
      }
    }
  }

  /** How many of a charger's MeterValues the minute starting at `from` lets through. */
  function InMinute(rate: int, arrivals: seq<Arrival>, id: string, from: int): nat {
    CountIn(LetThrough(rate, arrivals, id), from, from + 60 * SECOND)
  }

  /** For a rate in 1..60, whatever arrives when, a window of a minute lets through at most ceil(60 / floor(60/r)). */
  lemma {:induction false} ThrottleBound(rate: int, arrivals: seq<Arrival>, id: string, from: int)
    requires 1 <= rate <= 60
    ensures InMinute(rate, arrivals, id, from) <= CeilDiv(60, 60 / rate)
  {
    LetThroughSpaced(rate, arrivals, id);
    QuotientRange(rate);
    CountedGapsInWindow(LetThrough(rate, arrivals, id), MinInterval(rate), from, from + 60 * SECOND);
    GapsOfSeconds(InMinute(rate, arrivals, id, from), 60 / rate);
  }

  lemma GapsOfSeconds(k: nat, q: int)
    requires q >= 1
    requires k > 0 ==> (k - 1) * (q * SECOND) < 60 * SECOND
    ensures k <= CeilDiv(60, q)
  {
    if k > 0 {
      assert (k - 1) * (q * SECOND) == ((k - 1) * q) * SECOND;
      CeilDivBound(k, q, 60);
    } else {
      DivAtLeast(60 + q - 1, 0, q);
    }
  }

  lemma QuotientRange(rate: int)
    requires 1 <= rate <= 60
    ensures 1 <= 60 / rate
  {
    DivAtLeast(60, 1, rate);
  }

  /** The configured meaning of a rate: no minute ever carries more than r MeterValues of a charger. */
  ghost predicate HonoursRate(rate: int) {
    forall arrivals: seq<Arrival>, id: string, from: int :: InMinute(rate, arrivals, id, from) <= rate
  }

  /** Arrivals of one charger every q nanoseconds, from 0 on. */
  function Regular(n: nat, q: int): seq<Arrival> {
    seq(n, i => ("c", i * q))
  }

  lemma {:induction false} RegularArrivalsPass(n: nat, rate: int)
    requires rate > 0
    ensures LetThrough(rate, Regular(n, MinInterval(rate)), "c") == seq(n, i => i * MinInterval(rate))
  {
    var q := MinInterval(rate);
    if n > 0 {
      RegularArrivalsPass(n - 1, rate);
      LetThroughSpaced(rate, Regular(n - 1, q), "c");
      assert Front(Regular(n, q)) == Regular(n - 1, q);
      assert n > 1 ==> (n - 1) * q - (n - 2) * q == q;
    }
  }

  lemma {:induction false} CountAll(n: nat, q: int, to: int)
    requires q >= 0
    requires n > 0 ==> (n - 1) * q < to
    ensures CountIn(seq(n, i => i * q), 0, to) == n
  {
    if n > 0 {
      assert Front(seq(n, i => i * q)) == seq(n - 1, i => i * q);
      NonNegative(n - 1, q);
      assert n > 1 ==> (n - 2) * q + q == (n - 1) * q;
      CountAll(n - 1, q, to);
    }
  }

  lemma QuotientTimes(rate: int)
    requires rate > 0
    ensures 60 / rate * rate + 60 % rate == 60 && 60 / rate >= 0
  {
    DivAtLeast(60, 0, rate);
  }

  /** The throttle keeps to its configured rate for all arrivals exactly when the rate divides 60. */
  lemma {:induction false} RateHonouredIff(rate: int)
    requires rate >= 1
    ensures HonoursRate(rate) <==> 60 % rate == 0
  {
    QuotientTimes(rate);
    var q := 60 / rate;
    if 60 % rate == 0 {
      DividesQuotient(rate);
      forall arrivals: seq<Arrival>, id: string, from: int
        ensures InMinute(rate, arrivals, id, from) <= rate
      {
        ThrottleBound(rate, arrivals, id, from);
      }
    } else {
      var arrivals := Regular(rate + 1, MinInterval(rate));
      RegularArrivalsPass(rate + 1, rate);
      assert rate * (q * SECOND) == (q * rate) * SECOND;
      NonNegative(q, SECOND);
      CountAll(rate + 1, MinInterval(rate), 60 * SECOND);
      assert InMinute(rate, arrivals, "c", 0) == rate + 1;
    }
  }

  lemma {:induction false} DividesQuotient(rate: int)
    requires rate >= 1 && 60 % rate == 0
    ensures 1 <= rate <= 60 && CeilDiv(60, 60 / rate) == rate
  {
    QuotientTimes(rate);
    var q := 60 / rate;
    NonNegative(q - 1, rate);
    assert (q - 1) * rate == q * rate - rate;
    DivExactly(60 + q - 1, rate, q);
  }

  lemma {:induction false} DivExactly(a: int, k: int, gap: int)
    requires gap > 0 && k * gap <= a < k * gap + gap
    ensures a / gap == k
  {
    DivAtLeast(a, k, gap);
    var q := a / gap;
    assert a == gap * q + a % gap;
    assert (k + 1 - q) * gap == k * gap + gap - q * gap;
    PositiveFactor(k + 1 - q, gap);
  }
}
