/** Log rows and the (timestamp, insert id) order of the Hub's index. */
module Rows {
  import opened Text

  /** The columns of an entry that filters, retention and paging look at. `size`
      is the logical payload length counted by the cleanup. */
  datatype Entry = Entry(insertId: string, timestamp: int, severity: string, stream: string,
                         nodeId: string, nodeName: string, containerId: string, containerName: string, size: nat)

  datatype BatchKey = BatchKey(agentId: string, bootId: string, sequence: nat)

  datatype Row = Row(entry: Entry, batch: BatchKey, receivedAt: int, line: nat)

  type Logs = map<string, Row>

  /** Rows are stored under their primary key. */
  predicate Keyed(logs: Logs) {
    forall id :: id in logs ==> logs[id].entry.insertId == id
  }

  predicate Before(a: Entry, b: Entry) {
    a.timestamp < b.timestamp || (a.timestamp == b.timestamp && Less(a.insertId, b.insertId))
  }

  lemma BeforeTotal(a: Entry, b: Entry)
    ensures Before(a, b) || Before(b, a) || (a.timestamp == b.timestamp && a.insertId == b.insertId)
    ensures !(Before(a, b) && Before(b, a)) && !Before(a, a)
  {
    LessTotal(a.insertId, b.insertId);
    LessTotal(a.insertId, a.insertId);
  }

  lemma BeforeTransitive(a: Entry, b: Entry, c: Entry)
    requires Before(a, b) && Before(b, c)
    ensures Before(a, c)
  {
    if a.timestamp == b.timestamp == c.timestamp {
      LessTransitive(a.insertId, b.insertId, c.insertId);
    }
  }

  predicate Sorted(rows: seq<Row>) {
    forall i, j :: 0 <= i < j < |rows| ==> Before(rows[i].entry, rows[j].entry)
  }

  /** Two sorted sequences with the same rows are the same sequence. */
  lemma {:induction false} SortedUnique(a: seq<Row>, b: seq<Row>)
    requires Sorted(a) && Sorted(b) && forall r :: r in a <==> r in b
    ensures a == b
  {
    assert b != [] ==> b[0] in b;
    if a == [] {
    } else {
      assert a[0] in b && b != [];
      FirstUnique(a, b);
      forall r ensures r in a[1..] <==> r in b[1..] {
        TailMember(a, r);
        TailMember(b, r);
      }
      SortedUnique(a[1..], b[1..]);
      assert a == [a[0]] + a[1..] && b == [b[0]] + b[1..];
    }
  }

  lemma FirstUnique(a: seq<Row>, b: seq<Row>)
    requires Sorted(a) && Sorted(b) && a != [] && b != [] && forall r :: r in a <==> r in b
    ensures a[0] == b[0]
  {
    assert a[0] in b && b[0] in a;
    BeforeTotal(a[0].entry, b[0].entry);
  }

  lemma TailMember(a: seq<Row>, r: Row)
    requires Sorted(a) && a != []
    ensures r in a[1..] <==> r in a && r != a[0]
  {
    BeforeTotal(a[0].entry, a[0].entry);
    if r in a[1..] {
      var i :| 0 <= i < |a[1..]| && a[1..][i] == r;
      assert a[i + 1] == r && Before(a[0].entry, r.entry);
    }
    assert a == [a[0]] + a[1..];
  }

  // ---- ORDER BY timestamp_ns ASC, insert_id ASC ------------------------------

  predicate Oldest(logs: Logs, id: string) {
    id in logs && forall other :: other in logs && other != id ==> Before(logs[id].entry, logs[other].entry)
  }

  lemma {:induction false} OldestExists(logs: Logs)
    requires Keyed(logs) && logs != map[]
    ensures exists id :: Oldest(logs, id)
    decreases |logs|
  {
    var id :| id in logs;
    var rest := logs - {id};
    assert logs.Keys == rest.Keys + {id};
    if rest == map[] {
      assert rest.Keys == {};
      assert Oldest(logs, id);
    } else {
      OldestExists(rest);
      var first :| Oldest(rest, first);
      OldestOfTwo(logs, id, first);
    }
  }

  lemma OldestOfTwo(logs: Logs, id: string, first: string)
    requires Keyed(logs) && id in logs && Oldest(logs - {id}, first)
    ensures Oldest(logs, id) || Oldest(logs, first)
  {
    BeforeTotal(logs[id].entry, logs[first].entry);
    if Before(logs[id].entry, logs[first].entry) {
      forall other | other in logs && other != id ensures Before(logs[id].entry, logs[other].entry) {
        if other != first {
          assert other in logs - {id};
          BeforeTransitive(logs[id].entry, logs[first].entry, logs[other].entry);
        }
      }
    } else {
      forall other | other in logs && other != first ensures Before(logs[first].entry, logs[other].entry) {
        if other != id {
          assert other in logs - {id};
        }
      }
    }
  }

  lemma OldestIsUnique(logs: Logs, a: string, b: string)
    requires Oldest(logs, a) && Oldest(logs, b)
    ensures a == b
  {
    BeforeTotal(logs[a].entry, logs[b].entry);
  }

  function OldestId(logs: Logs): (id: string)
    requires Keyed(logs) && logs != map[]
    ensures Oldest(logs, id)
  {
    OldestExists(logs);
    assert forall a, b :: Oldest(logs, a) && Oldest(logs, b) ==> a == b by {
      forall a, b | Oldest(logs, a) && Oldest(logs, b) ensures a == b {
        OldestIsUnique(logs, a, b);
      }
    }
    var id :| Oldest(logs, id);
    id
  }

  /** The table read through its index, oldest first. */
  function Ordered(logs: Logs): seq<Row>
    requires Keyed(logs)
    decreases |logs|
  {
    if logs == map[] then []
    else
      var id := OldestId(logs);
      [logs[id]] + Ordered(logs - {id})
  }

  predicate Holds(logs: Logs, r: Row) {
    r.entry.insertId in logs && logs[r.entry.insertId] == r
  }

  lemma {:induction false} OrderedRows(logs: Logs)
    requires Keyed(logs)
    ensures forall r :: r in Ordered(logs) <==> Holds(logs, r)
    ensures Sorted(Ordered(logs)) && |Ordered(logs)| == |logs|
    decreases |logs|
  {
    hide Before;
    if logs == map[] {
    } else {
      var id := OldestId(logs);
      var rest := logs - {id};
      OrderedRows(rest);
      var tail := Ordered(rest);
      assert Ordered(logs) == [logs[id]] + tail;
      forall r ensures r in Ordered(logs) <==> Holds(logs, r) {
        assert Holds(logs, r) <==> r == logs[id] || Holds(rest, r);
      }
      forall j | 0 <= j < |tail| ensures Before(logs[id].entry, tail[j].entry) {
        assert tail[j] in tail && Holds(rest, tail[j]);
      }
    }
  }

  /** A sorted sequence that lists the rows of a table is the table in order. */
  lemma OrderedIs(logs: Logs, rows: seq<Row>)
    requires Keyed(logs) && Sorted(rows) && forall r :: r in rows <==> Holds(logs, r)
    ensures Ordered(logs) == rows
  {
    OrderedRows(logs);
    SortedUnique(Ordered(logs), rows);
  }
}
