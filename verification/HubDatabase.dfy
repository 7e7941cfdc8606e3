/**
 The compliance rows of all leaf hubs in the global hub's database, and what one leaf hub's share
 of them is.
 */
module HubDatabase {
  import opened Compliance

  /** Leaf hub, policy, cluster. */
  type Key = (string, string, string)
  type Database = map<Key, Status>

  /** The rows of one leaf hub. */
  function RowsOf(d: Database, hub: string): Table {
    var rows := set key | key in d && key.0 == hub :: (key.1, key.2);
    map row: Row | row in rows :: d[(hub, row.0, row.1)]
  }

  /** The database in which one leaf hub has these rows and every other one keeps its own. */
  function WithRows(d: Database, hub: string, t: Table): Database {
    var keys := (set key | key in d && key.0 != hub) + set row | row in t :: (hub, row.0, row.1);
    map key: Key | key in keys :: if key.0 == hub then t[(key.1, key.2)] else d[key]
  }

  lemma RowsOfAt(d: Database, hub: string, row: Row)
    ensures row in RowsOf(d, hub) <==> (hub, row.0, row.1) in d
    ensures row in RowsOf(d, hub) ==> RowsOf(d, hub)[row] == d[(hub, row.0, row.1)]
  {
    var key: Key := (hub, row.0, row.1);
    assert key in d ==> (key.1, key.2) == row;
  }

  lemma WithRowsAt(d: Database, hub: string, t: Table, key: Key)
    ensures key in WithRows(d, hub, t) <==> if key.0 == hub then (key.1, key.2) in t else key in d
    ensures key in WithRows(d, hub, t) ==>
            WithRows(d, hub, t)[key] == if key.0 == hub then t[(key.1, key.2)] else d[key]
  {
    var row: Row := (key.1, key.2);
    assert key.0 == hub ==> (hub, row.0, row.1) == key;
  }

  lemma SameDatabase(d: Database, e: Database)
    requires forall key: Key :: (key in d <==> key in e) && (key in d ==> d[key] == e[key])
    ensures d == e
  {
  }

  /** The leaf hub has the new rows, and no other one's change. */
  lemma RowsOfWithRows(d: Database, hub: string, t: Table)
    ensures RowsOf(WithRows(d, hub, t), hub) == t
    ensures forall other :: other != hub ==> RowsOf(WithRows(d, hub, t), other) == RowsOf(d, other)
  {
    hide RowsOf, WithRows;
    var r := WithRows(d, hub, t);
    forall row: Row
      ensures row in RowsOf(r, hub) <==> row in t
      ensures row in t ==> RowsOf(r, hub)[row] == t[row]
    {
      RowsOfAt(r, hub, row);
      WithRowsAt(d, hub, t, (hub, row.0, row.1));
    }
    assert RowsOf(r, hub) == t;
    forall other | other != hub
      ensures RowsOf(r, other) == RowsOf(d, other)
    {
      OthersKeepRows(d, hub, t, other);
    }
  }

  lemma OthersKeepRows(d: Database, hub: string, t: Table, other: string)
    requires other != hub
    ensures RowsOf(WithRows(d, hub, t), other) == RowsOf(d, other)
  {
    hide RowsOf, WithRows;
    var r := WithRows(d, hub, t);
    forall row: Row
      ensures row in RowsOf(r, other) <==> row in RowsOf(d, other)
      ensures row in RowsOf(d, other) ==> RowsOf(r, other)[row] == RowsOf(d, other)[row]
    {
      RowsOfAt(r, other, row);
      RowsOfAt(d, other, row);
      WithRowsAt(d, hub, t, (other, row.0, row.1));
    }
  }

  lemma KeepsRows(d: Database, hub: string)
    ensures WithRows(d, hub, RowsOf(d, hub)) == d
  {
    hide RowsOf, WithRows;
    forall key: Key
      ensures var r := WithRows(d, hub, RowsOf(d, hub)); (key in d <==> key in r) && (key in d ==> d[key] == r[key])
    {
      WithRowsAt(d, hub, RowsOf(d, hub), key);
      RowsOfAt(d, hub, (key.1, key.2));
      assert key.0 == hub ==> key == (hub, key.1, key.2);
    }
    SameDatabase(d, WithRows(d, hub, RowsOf(d, hub)));
  }

  lemma RowsReplaced(d: Database, hub: string, t: Table, u: Table)
    ensures WithRows(WithRows(d, hub, t), hub, u) == WithRows(d, hub, u)
  {
    hide WithRows;
    var r, s := WithRows(WithRows(d, hub, t), hub, u), WithRows(d, hub, u);
    forall key: Key
      ensures (key in r <==> key in s) && (key in r ==> r[key] == s[key])
    {
      WithRowsAt(WithRows(d, hub, t), hub, u, key);
      WithRowsAt(d, hub, t, key);
      WithRowsAt(d, hub, u, key);
    }
    SameDatabase(r, s);
  }

  /** What is done to one leaf hub's rows and to another one's may be done in either order. */
  lemma HubsCommute(d: Database, hub: string, t: Table, other: string, u: Table)
    requires hub != other
    ensures WithRows(WithRows(d, hub, t), other, u) == WithRows(WithRows(d, other, u), hub, t)
  {
    hide WithRows;
    var r, s := WithRows(WithRows(d, hub, t), other, u), WithRows(WithRows(d, other, u), hub, t);
    forall key: Key
      ensures (key in r <==> key in s) && (key in r ==> r[key] == s[key])
    {
      WithRowsAt(WithRows(d, hub, t), other, u, key);
      WithRowsAt(WithRows(d, other, u), hub, t, key);
      WithRowsAt(d, hub, t, key);
      WithRowsAt(d, other, u, key);
    }
    SameDatabase(r, s);
  }
}
