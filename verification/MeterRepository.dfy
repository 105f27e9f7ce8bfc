/** The in-memory store of meter values: an append-only list that is purged from time to time. */
module MeterStore {
  import opened Sequences

  datatype MeterValue = MeterValue(
    chargerID: string, connectorID: int, sessionID: string, timestamp: int,
    measurand: string, value: real, unit: string, phase: string)

  /** The values that satisfy `keep`, in their order. */
  function Select(values: seq<MeterValue>, keep: MeterValue -> bool): seq<MeterValue> {
    if values == [] then []
    else Select(Front(values), keep) + if keep(Last(values)) then [Last(values)] else []
  }

  function NotBefore(before: int): MeterValue -> bool {
    (mv: MeterValue) => mv.timestamp >= before
  }

  function Between(charger: string, from: int, to: int): MeterValue -> bool {
    (mv: MeterValue) => mv.chargerID == charger && from <= mv.timestamp <= to
  }

  function OfSession(session: string): MeterValue -> bool {
    (mv: MeterValue) => mv.sessionID == session
  }

  class MeterRepository {
    var values: seq<MeterValue>

    constructor ()
      ensures values == []
    {
      values := [];
    }

    method StoreMeterValues(mvs: seq<MeterValue>)
      modifies this
      ensures values == old(values) + mvs
    {
      values := values + mvs;
    }

    method GetMeterValues(charger: string, from: int, to: int) returns (result: seq<MeterValue>)
      ensures result == Select(values, Between(charger, from, to))
    {
      result := [];
      for i := 0 to |values|
        invariant result == Select(values[..i], Between(charger, from, to))
      {
        assert Front(values[..i + 1]) == values[..i];
        var mv := values[i];
        if mv.chargerID == charger && !(mv.timestamp < from) && !(mv.timestamp > to) {
          result := result + [mv];
        }
      }
      assert values[..|values|] == values;
    }

    method GetMeterValuesBySession(session: string) returns (result: seq<MeterValue>)
      ensures result == Select(values, OfSession(session))
    {
      result := [];
      for i := 0 to |values|
        invariant result == Select(values[..i], OfSession(session))
      {
        assert Front(values[..i + 1]) == values[..i];
        if values[i].sessionID == session {
          result := result + [values[i]];
        }
      }
      assert values[..|values|] == values;
    }

    method PurgeOlderThan(before: int) returns (purged: int)
      modifies this
      ensures values == Select(old(values), NotBefore(before))
      ensures purged + |values| == |old(values)|
    {
      var kept := [];
      purged := 0;
      var i := 0;
      while i < |values|
        invariant 0 <= i <= |values|
        invariant values == old(values)
        invariant kept == Select(values[..i], NotBefore(before))
        invariant purged + |kept| == i
      {
        assert Front(values[..i + 1]) == values[..i];
        if !(values[i].timestamp < before) {
          kept := kept + [values[i]];
        } else {
          purged := purged + 1;
        }
        i := i + 1;
      }
      assert values[..|values|] == values;
      values := kept;
    }
  }

  lemma {:induction false} SelectTwice(values: seq<MeterValue>, first: MeterValue -> bool, then_: MeterValue -> bool)
    ensures Select(Select(values, first), then_) == Select(values, mv => first(mv) && then_(mv))
  {
    if values != [] {
      SelectTwice(Front(values), first, then_);
      var kept := Select(Front(values), first);
      assert Front(kept + [Last(values)]) == kept;
      assert kept + [] == kept;
    }
  }

  lemma {:induction false} SelectSame(values: seq<MeterValue>, f: MeterValue -> bool, g: MeterValue -> bool)
    requires forall mv :: mv in values ==> f(mv) == g(mv)
    ensures Select(values, f) == Select(values, g)
  {
    if values != [] {
      SelectSame(Front(values), f, g);
    }
  }

  lemma {:induction false} SelectMembers(values: seq<MeterValue>, keep: MeterValue -> bool)
    ensures forall mv :: mv in Select(values, keep) <==> mv in values && keep(mv)
  {
    if values != [] {
      SelectMembers(Front(values), keep);
      assert values == Front(values) + [Last(values)];
    }
  }

  lemma {:induction false} SelectLength(values: seq<MeterValue>, f: MeterValue -> bool, g: MeterValue -> bool)
    requires forall mv :: mv in values && f(mv) ==> g(mv)
    ensures |Select(values, f)| <= |Select(values, g)|
    ensures |Select(values, f)| == |Select(values, g)| ==> forall mv :: mv in values && g(mv) ==> f(mv)
  {
    if values != [] {
      SelectLength(Front(values), f, g);
      assert values == Front(values) + [Last(values)];
    }
  }

  /** A purge is invisible to a query exactly when no value it removes is one the query would return. */
  lemma {:induction false} PurgeInvisibleIff(values: seq<MeterValue>, before: int, charger: string, from: int, to: int)
    ensures Select(Select(values, NotBefore(before)), Between(charger, from, to))
            == Select(values, Between(charger, from, to))
        <==> forall mv :: mv in values && Between(charger, from, to)(mv) ==> mv.timestamp >= before
  {
    var both := (mv: MeterValue) => NotBefore(before)(mv) && Between(charger, from, to)(mv);
    SelectTwice(values, NotBefore(before), Between(charger, from, to));
    SelectLength(values, both, Between(charger, from, to));
    if forall mv :: mv in values && Between(charger, from, to)(mv) ==> mv.timestamp >= before {
      SelectSame(values, both, Between(charger, from, to));
    }
  }

  /** So a query from the purge limit on sees the same before and after. */
  lemma PurgeInvisibleFromLimit(values: seq<MeterValue>, before: int, charger: string, from: int, to: int)
    requires from >= before
    ensures Select(Select(values, NotBefore(before)), Between(charger, from, to))
            == Select(values, Between(charger, from, to))
  {
    PurgeInvisibleIff(values, before, charger, from, to);
  }

  lemma {:induction false} SelectSplit(a: seq<MeterValue>, b: seq<MeterValue>, keep: MeterValue -> bool)
    ensures Select(a + b, keep) == Select(a, keep) + Select(b, keep)
  {
    if b == [] {
      assert a + b == a;
    } else {
      SelectSplit(a, Front(b), keep);
      assert Front(a + b) == a + Front(b);
    }
  }

  /**
   A value stored among others is returned, in its place, by exactly the queries for its charger whose range holds its
   time, both ends included, and by the query for its session.
   */
  lemma {:induction false} StoredIsFoundIff(
    before: seq<MeterValue>, mv: MeterValue, after: seq<MeterValue>,
    charger: string, from: int, to: int, session: string)
    ensures var hit := mv.chargerID == charger && mv.timestamp >= from && mv.timestamp <= to;
            Select(before + [mv] + after, Between(charger, from, to)) ==
              Select(before, Between(charger, from, to)) + (if hit then [mv] else []) +
              Select(after, Between(charger, from, to))
    ensures Select(before + [mv] + after, OfSession(session)) ==
              Select(before, OfSession(session)) + (if mv.sessionID == session then [mv] else []) +
              Select(after, OfSession(session))
  {
    assert Front([mv]) == [];
    SelectSplit(before, [mv], Between(charger, from, to));
    SelectSplit(before + [mv], after, Between(charger, from, to));
    SelectSplit(before, [mv], OfSession(session));
    SelectSplit(before + [mv], after, OfSession(session));
  }
}
