/**
 The router asks the policy about every message and hands the relay those from chargers that it
 decides to forward. Whatever the policy, nothing else goes upstream.
 */
module Routing {
  import opened Options
  import opened Sequences
  import opened Messages
  import opened Policies
  import opened Relay

  /** The relay as a value: its connections, its throttle's memory and the calls made upstream. */
  datatype Link = Link(clients: set<string>, last: map<string, int>, upstream: seq<(string, Message)>)

  /** A message with what the relay finds when it comes to it. */
  datatype Letter = Letter(id: string, message: Message, rate: Option<int>, now: int, upstreamOk: bool)

  /** What the relay does with a message handed to it. */
  function Forwarded(w: Link, l: Letter): Link {
    if l.id !in w.clients then w
    else if l.message.MeterValues? then
      w.(last := Remember(w.last, l.rate, l.id, l.now),
         upstream := w.upstream + if Throttled(w.last, l.rate, l.id, l.now) then [] else [(l.id, l.message)])
    else w.(upstream := w.upstream + if FromCharger(l.message) then [(l.id, l.message)] else [])
  }

  function Routed(w: Link, p: Policy, l: Letter): Link {
    if FromCharger(l.message) && ShouldForward(p.Decide(Inbound, Action(l.message))) then Forwarded(w, l) else w
  }

  lemma ActionsDiffer(m: Message)
    ensures Action(m) == "MeterValues" <==> m.MeterValues?
  {
  }

  /** `relay` is null for the stub that forwards nothing. */
  class Router {
    const policy: Policy
    const relay: UpstreamRelay?

    constructor (policy: Policy, relay: UpstreamRelay?)
      ensures this.policy == policy && this.relay == relay
    {
      this.policy, this.relay := policy, relay;
    }

    ghost function Value(): Link
      reads this, relay
    {
      if relay == null then Link({}, map[], []) else Link(relay.clients, relay.mvLastSent, relay.upstream)
    }

    method ForwardAsync(l: Letter)
      modifies relay
      ensures Value() == Forwarded(old(Value()), l)
    {
      if relay != null {
        ActionsDiffer(l.message);
        var r := relay.Forward(l.id, Action(l.message), Some(l.message), l.rate, l.now, l.upstreamOk);
      }
    }

    /** The ten routes of messages from chargers; their handlers go on whatever the decision is. */
    method RouteInbound(l: Letter) returns (d: Decision)
      requires FromCharger(l.message)
      modifies relay
      ensures d == policy.Decide(Inbound, Action(l.message))
      ensures Value() == Routed(old(Value()), policy, l)
    {
      d := policy.Decide(Inbound, Action(l.message));
      if ShouldForward(d) {
        ForwardAsync(l);
      }
    }

    /** The four routes of commands to chargers: decided, logged, and not forwarded. */
    method RouteOutbound(l: Letter) returns (d: Decision)
      requires !FromCharger(l.message)
      ensures d == policy.Decide(Outbound, Action(l.message))
      ensures Value() == Routed(Value(), policy, l)
    {
      d := policy.Decide(Outbound, Action(l.message));
    }
  }

  // ---------------------------------------------------------------------------
  // Runs
  // ---------------------------------------------------------------------------

  /** Connections come and go, and messages are routed, each by any policy at all. */
  datatype Event =
    | Connects(id: string)
    | Disconnects(id: string)
    | Routes(policy: Policy, letter: Letter)

  function After(w: Link, evs: seq<Event>): Link {
    if evs == [] then w
    else
      var w1 := After(w, Front(evs));
      match Last(evs)
      case Connects(id) => w1.(clients := w1.clients + {id})
      case Disconnects(id) => w1.(clients := w1.clients - {id})
      case Routes(p, l) => Routed(w1, p, l)
  }

  /** The i-th event is this charger's message, it is one from chargers, and its policy decides to forward it. */
  ghost predicate SentBy(evs: seq<Event>, i: nat, call: (string, Message)) {
    && i < |evs| && evs[i].Routes?
    && (evs[i].letter.id, evs[i].letter.message) == call
    && FromCharger(call.1) && ShouldForward(evs[i].policy.Decide(Inbound, Action(call.1)))
  }

  /** Whatever goes upstream is a charger's message, routed by a policy that decides to forward it. */
  lemma {:induction false} OnlyChargersMessagesGoUpstream(evs: seq<Event>)
    ensures forall call :: call in After(Link({}, map[], []), evs).upstream ==> exists i :: SentBy(evs, i, call)
  {
    if evs != [] {
      var past := Front(evs);
      OnlyChargersMessagesGoUpstream(past);
      forall call | call in After(Link({}, map[], []), evs).upstream ensures exists i :: SentBy(evs, i, call) {
        if call in After(Link({}, map[], []), past).upstream {
          var i: nat :| SentBy(past, i, call);
          assert SentBy(evs, i, call);
        } else {
          assert SentBy(evs, |evs| - 1, call);
        }
      }
    }
  }

  /**
   Charging profiles stay local, and so does every other command to a charger: in no run, under no
   policies and overrides, does one go upstream.
   */
  lemma {:induction false} NoProfileGoesUpstream(evs: seq<Event>, id: string, m: Message)
    requires !FromCharger(m)
    ensures (id, SetChargingProfile) !in After(Link({}, map[], []), evs).upstream
    ensures (id, ClearChargingProfile) !in After(Link({}, map[], []), evs).upstream
    ensures (id, m) !in After(Link({}, map[], []), evs).upstream
  {
    OnlyChargersMessagesGoUpstream(evs);
  }

  lemma DefaultOutbound(m: Message)
    ensures !FromCharger(m) <==> Action(m) in DEFAULT_POLICY.outbound
  {
  }

  /**
   The messages from chargers are those the default policy decides inbound, and it forwards every one of them; the
   others it decides outbound.
   */
  lemma DefaultForwardsAll(m: Message)
    ensures FromCharger(m) <==> Action(m) in DEFAULT_POLICY.inbound
    ensures !FromCharger(m) <==> Action(m) in DEFAULT_POLICY.outbound
    ensures FromCharger(m) ==> ShouldForward(DEFAULT_POLICY.Decide(Inbound, Action(m)))
  {
    DefaultOutbound(m);
  }

  /**
   With any overrides merged into the default policy, a message goes upstream exactly when it comes from a
   charger, no override keeps it local, its charger is connected upstream, and the throttle lets it through.
   */
  lemma GoesUpstreamIff(w: Link, o: Overrides, l: Letter)
    ensures Routed(w, Merged(DEFAULT_POLICY, o), l).upstream == w.upstream + [(l.id, l.message)] <==>
              && FromCharger(l.message)
              && (Action(l.message) in o ==> o[Action(l.message)] == UPSTREAM_ONLY || o[Action(l.message)] == BOTH)
              && l.id in w.clients
              && !(l.message.MeterValues? && Throttled(w.last, l.rate, l.id, l.now))
    ensures var u := Routed(w, Merged(DEFAULT_POLICY, o), l).upstream;
            u == w.upstream || u == w.upstream + [(l.id, l.message)]
  {
    var a := Action(l.message);
    DecideMerged(DEFAULT_POLICY, o, Inbound, a);
    DefaultForwardsAll(l.message);
    assert |w.upstream + [(l.id, l.message)]| == |w.upstream| + 1;
  }
}
