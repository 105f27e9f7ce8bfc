/** The in-memory charger repository: a map of chargers, and per charger a list of connectors changed in place. */
module ChargerRepositories {
  import opened Options
  import opened Ports

  /** The list with `conn` in the place of the connector of the same number, or at the end. */
  function Upserted(conns: seq<Connector>, conn: Connector): seq<Connector> {
    if conns == [] then [conn]
    else if conns[0].connectorID == conn.connectorID then [conn] + conns[1..]
    else [conns[0]] + Upserted(conns[1..], conn)
  }

  function ConnectorNumbers(conns: seq<Connector>): set<int> {
    set c | c in conns :: c.connectorID
  }

  /** An upsert keeps the numbers distinct, adds the new one, and touches no other connector. */
  lemma {:induction false} UpsertedKeepsDistinct(conns: seq<Connector>, conn: Connector)
    requires DistinctConnectors(conns)
    ensures DistinctConnectors(Upserted(conns, conn))
    ensures ConnectorNumbers(Upserted(conns, conn)) == ConnectorNumbers(conns) + {conn.connectorID}
    ensures conn in Upserted(conns, conn)
    ensures forall c: Connector :: c.connectorID != conn.connectorID ==> (c in Upserted(conns, conn) <==> c in conns)
  {
    if conns == [] {
    } else {
      var rest := conns[1..];
      assert conns == [conns[0]] + rest;
      if conns[0].connectorID == conn.connectorID {
        var u := [conn] + rest;
        forall i, j | 0 <= i < j < |u| ensures u[i].connectorID != u[j].connectorID {
          assert conns[j].connectorID != conns[i].connectorID;
        }
        forall n | n in ConnectorNumbers(conns) + {conn.connectorID} ensures n in ConnectorNumbers(u) {
          if n != conn.connectorID {
            var c :| c in conns && c.connectorID == n;
            assert c in u;
          } else {
            assert conn in u;
          }
        }
      } else {
        UpsertedKeepsDistinct(rest, conn);
        var tail := Upserted(rest, conn);
        forall j | 0 <= j < |tail| ensures tail[j].connectorID != conns[0].connectorID {
          if tail[j].connectorID != conn.connectorID {
            assert tail[j] in rest;
          }
        }
        assert ConnectorNumbers([conns[0]] + tail) == {conns[0].connectorID} + ConnectorNumbers(tail) by {
          ConnectorNumbersCons(conns[0], tail);
        }
        ConnectorNumbersCons(conns[0], rest);
      }
    }
  }

  lemma ConnectorNumbersCons(c: Connector, rest: seq<Connector>)
    ensures ConnectorNumbers([c] + rest) == {c.connectorID} + ConnectorNumbers(rest)
  {
    forall n | n in {c.connectorID} + ConnectorNumbers(rest) ensures n in ConnectorNumbers([c] + rest) {
      if n == c.connectorID {
        assert c in [c] + rest;
      } else {
        var d :| d in rest && d.connectorID == n;
        assert d in [c] + rest;
      }
    }
  }

  /** Once the numbers before `i` are passed over, the upsert happens from `i` on. */
  lemma {:induction false} UpsertedSkips(conns: seq<Connector>, conn: Connector, i: nat)
    requires i <= |conns|
    requires forall k :: 0 <= k < i ==> conns[k].connectorID != conn.connectorID
    ensures Upserted(conns, conn) == conns[..i] + Upserted(conns[i..], conn)
  {
    if i == 0 {
      assert conns[0..] == conns;
    } else {
      UpsertedSkips(conns[1..], conn, i - 1);
      assert conns[1..][i - 1..] == conns[i..];
      assert conns[..i] == [conns[0]] + conns[1..][..i - 1];
    }
  }

  lemma UpsertedInPlace(conns: seq<Connector>, conn: Connector, i: nat)
    requires i < |conns| && conns[i].connectorID == conn.connectorID
    requires forall k :: 0 <= k < i ==> conns[k].connectorID != conn.connectorID
    ensures Upserted(conns, conn) == conns[i := conn]
  {
    UpsertedSkips(conns, conn, i);
    assert conns[i..][1..] == conns[i + 1..];
  }

  lemma UpsertedAtEnd(conns: seq<Connector>, conn: Connector)
    requires forall k :: 0 <= k < |conns| ==> conns[k].connectorID != conn.connectorID
    ensures Upserted(conns, conn) == conns + [conn]
  {
    UpsertedSkips(conns, conn, |conns|);
    assert conns[|conns|..] == [] && conns[..|conns|] == conns;
  }

  /** `chargers` lists the repository's chargers, each once, in some order. */
  ghost predicate Lists(chargers: seq<Charger>, m: map<string, Charger>) {
    && DistinctIDs(chargers)
    && (forall c :: c in chargers ==> c.id in m && m[c.id] == c)
    && (forall id :: id in m ==> m[id] in chargers)
  }

  class ChargerRepository {
    var chargers: map<string, Charger>
    var connectors: map<string, seq<Connector>>

    ghost predicate Valid()
      reads this
    {
      && (forall id :: id in chargers ==> chargers[id].id == id)
      && (forall id :: id in connectors ==> DistinctConnectors(connectors[id]))
    }

    constructor ()
      ensures Valid() && chargers == map[] && connectors == map[]
    {
      chargers, connectors := map[], map[];
    }

    method UpsertCharger(c: Charger)
      requires Valid()
      modifies this`chargers
      ensures Valid() && chargers == old(chargers)[c.id := c]
    {
      chargers := chargers[c.id := c];
    }

    method GetCharger(id: string) returns (r: Option<Charger>)
      ensures r == Lookup(chargers, id)
    {
      r := Lookup(chargers, id);
    }

    method MarkOnline(id: string, online: bool) returns (ok: bool)
      requires Valid()
      modifies this`chargers
      ensures Valid()
      ensures ok == (id in old(chargers))
      ensures chargers == if ok then old(chargers)[id := old(chargers)[id].(online := online)] else old(chargers)
    {
      if id !in chargers {
        return false;
      }
      chargers := chargers[id := chargers[id].(online := online)];
      return true;
    }

    /** The order of the listing is the map's iteration order: any order at all. */
    method ListChargers() returns (list: seq<Charger>)
      requires Valid()
      ensures Lists(list, chargers)
    {
      list := [];
      var rest := chargers.Keys;
      while rest != {}
        invariant rest <= chargers.Keys
        invariant DistinctIDs(list)
        invariant forall c :: c in list ==> c.id in chargers && chargers[c.id] == c && c.id !in rest
        invariant forall k :: k in chargers && k !in rest ==> chargers[k] in list
        decreases rest
      {
        var id :| id in rest;
        list := list + [chargers[id]];
        rest := rest - {id};
      }
    }

    method UpsertConnector(conn: Connector)
      requires Valid()
      modifies this`connectors
      ensures Valid()
      ensures connectors == old(connectors)[conn.chargerID :=
                Upserted(if conn.chargerID in old(connectors) then old(connectors)[conn.chargerID] else [], conn)]
    {
      var conns := if conn.chargerID in connectors then connectors[conn.chargerID] else [];
      ghost var was := conns;
      var i := 0;
      var found := false;
      while i < |conns| && !found
        invariant unchanged(this)
        invariant 0 <= i <= |was|
        invariant !found ==> conns == was && forall k :: 0 <= k < i ==> was[k].connectorID != conn.connectorID
        invariant found ==> conns == Upserted(was, conn)
        decreases |was| - i, !found
      {
        if conns[i].connectorID == conn.connectorID {
          UpsertedInPlace(was, conn, i);
          conns := conns[i := conn];
          found := true;
        } else {
          i := i + 1;
        }
      }
      if !found {
        UpsertedAtEnd(was, conn);
        conns := conns + [conn];
      }
      UpsertedKeepsDistinct(was, conn);
      connectors := connectors[conn.chargerID := conns];
    }

    method GetConnector(chargerID: string, connectorID: int) returns (r: Option<Connector>)
      requires Valid()
      ensures r.Some? ==>
              chargerID in connectors && r.value in connectors[chargerID] && r.value.connectorID == connectorID
      ensures r.None? ==> chargerID in connectors ==> connectorID !in ConnectorNumbers(connectors[chargerID])
    {
      var conns := if chargerID in connectors then connectors[chargerID] else [];
      for i := 0 to |conns|
        invariant forall k :: 0 <= k < i ==> conns[k].connectorID != connectorID
      {
        if conns[i].connectorID == connectorID {
          return Some(conns[i]);
        }
      }
      return None;
    }

    method ListConnectors(chargerID: string) returns (list: seq<Connector>)
      requires Valid()
      ensures list == if chargerID in connectors then connectors[chargerID] else []
      ensures DistinctConnectors(list)
    {
      list := if chargerID in connectors then connectors[chargerID] else [];
    }
  }
}
