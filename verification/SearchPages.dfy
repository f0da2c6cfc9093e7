/** The service between the store's search and the pages: it filters and sorts
    again, and serves the result page by page. */
module SearchPages {
  import opened Options
  import opened Text
  import opened Rows
  import opened Store
  import opened Search
  import opened Pages

  /** The service's own selection test: any entry of the map counts. */
  predicate Chosen(selection: map<string, bool>, value: string) {
    value in selection && selection[value]
  }

  predicate ServiceKeeps(q: Request, e: Entry) {
    && MatchesFilters(q, e)
    && (q.selected != map[] ==> Chosen(q.selected, e.containerId) || Chosen(q.selected, e.containerName)
                                || Chosen(q.selected, ShortId(e.containerId)))
    && (q.selectedNodes != map[] ==> Chosen(q.selectedNodes, e.nodeId) || Chosen(q.selectedNodes, e.nodeName))
  }

  ghost predicate HasOn(selection: map<string, bool>, values: set<string>) {
    exists v :: v in values && v in selection && selection[v]
  }

  /** The service's tests: severity in any case, stream, query, and for each
      selection that has entries, one that is on. */
  ghost predicate ServiceAsks(q: Request, e: Entry) {
    && (q.severity == "" || q.severity == "ALL" || EqualFold(e.severity, q.severity))
    && (q.stream == "" || e.stream == q.stream) && q.query(e)
    && (|q.selected| > 0 ==>
          HasOn(q.selected, {e.containerId, e.containerName,
                             if |e.containerId| <= 12 then e.containerId else e.containerId[..12]}))
    && (|q.selectedNodes| > 0 ==> HasOn(q.selectedNodes, {e.nodeId, e.nodeName}))
  }

  lemma HasOnMeans(selection: map<string, bool>, values: set<string>)
    ensures HasOn(selection, values) <==> exists v :: v in values && Chosen(selection, v)
  {}

  lemma ServiceMeans(q: Request, e: Entry)
    ensures ServiceKeeps(q, e) <==> ServiceAsks(q, e)
  {
    hide HasOn, Chosen, EqualFold;
    HasOnMeans(q.selected, {e.containerId, e.containerName, ShortId(e.containerId)});
    HasOnMeans(q.selectedNodes, {e.nodeId, e.nodeName});
  }

  function KeptEntries(q: Request, rows: seq<Row>): seq<Entry> {
    if rows == [] then []
    else
      var last := rows[|rows| - 1];
      KeptEntries(q, rows[..|rows| - 1]) + if ServiceKeeps(q, last.entry) then [last.entry] else []
  }

  method FilterEntries(q: Request, rows: seq<Row>) returns (entries: seq<Entry>)
    ensures entries == KeptEntries(q, rows)
    ensures forall e :: e in entries <==> ServiceAsks(q, e) && exists r :: r in rows && r.entry == e
  {
    hide ServiceAsks;
    entries := [];
    for i := 0 to |rows|
      invariant entries == KeptEntries(q, rows[..i])
    {
      assert rows[..i + 1][..i] == rows[..i];
      var entry := rows[i].entry;
      if !MatchesFilters(q, entry) {
        continue;
      }
      if |q.selected| > 0 && !Chosen(q.selected, entry.containerId) && !Chosen(q.selected, entry.containerName)
         && !Chosen(q.selected, ShortId(entry.containerId)) {
        continue;
      }
      if |q.selectedNodes| > 0 && !Chosen(q.selectedNodes, entry.nodeId) && !Chosen(q.selectedNodes, entry.nodeName) {
        continue;
      }
      entries := entries + [entry];
    }
    assert rows[..|rows|] == rows;
    forall e ensures e in entries <==> ServiceAsks(q, e) && exists r :: r in rows && r.entry == e {
      KeptMembers(q, rows, e);
      ServiceMeans(q, e);
    }
  }

  lemma {:induction false} KeptMembers(q: Request, rows: seq<Row>, e: Entry)
    ensures e in KeptEntries(q, rows) <==> ServiceKeeps(q, e) && exists r :: r in rows && r.entry == e
  {
    if rows == [] {
      assert KeptEntries(q, rows) == [];
    } else {
      var init, last := rows[..|rows| - 1], rows[|rows| - 1];
      KeptMembers(q, init, e);
      assert rows == init + [last];
    }
  }

  // ---- order ----------------------------------------------------------------------------------

  /** The order of the scan is the order of the cursor. */
  lemma PrecedesIsAfter(ascending: bool, a: Entry, b: Entry)
    ensures Precedes(ascending, a, b) <==> IsAfterCursor(b, CursorOf(a), ascending)
    ensures IsAfterCursor(b, CursorOf(a), ascending) <==> IsAfterCursor(a, CursorOf(b), !ascending)
  {}

  lemma {:induction false} KeptInOrder(q: Request, rows: seq<Row>, ascending: bool)
    requires InOrder(ascending, rows)
    ensures SortedIn(ascending, KeptEntries(q, rows))
  {
    if rows == [] {
      assert KeptEntries(q, rows) == [];
    } else {
      var init, last := rows[..|rows| - 1], rows[|rows| - 1].entry;
      var kept := KeptEntries(q, init);
      KeptInOrder(q, init, ascending);
      forall i | 0 <= i < |kept| ensures IsAfterCursor(last, CursorOf(kept[i]), ascending) {
        KeptMembers(q, init, kept[i]);
        var r :| r in init && r.entry == kept[i];
        var k :| 0 <= k < |init| && init[k] == r;
        assert Precedes(ascending, rows[k].entry, last);
        PrecedesIsAfter(ascending, kept[i], last);
      }
    }
  }

  lemma ReverseSorted(ascending: bool, entries: seq<Entry>)
    requires SortedIn(ascending, entries)
    ensures SortedIn(!ascending, Reverse(entries)) && forall e :: e in Reverse(entries) <==> e in entries
  {
    hide Reverse, IsAfterCursor, CursorOf;
    var back, n := Reverse(entries), |entries|;
    forall i, j | 0 <= i < j < n ensures IsAfterCursor(back[j], CursorOf(back[i]), !ascending) {
      assert back[i] == entries[n - 1 - i] && back[j] == entries[n - 1 - j];
      PrecedesIsAfter(ascending, entries[n - 1 - j], entries[n - 1 - i]);
    }
    ReverseMembers(entries);
  }

  /** What sorting makes of entries that are sorted in one direction already. */
  function Arranged(entries: seq<Entry>, from: bool, to: bool): seq<Entry> {
    if from == to then entries else Reverse(entries)
  }

  lemma ArrangedSorted(entries: seq<Entry>, from: bool, to: bool)
    requires SortedIn(from, entries)
    ensures SortedIn(to, Arranged(entries, from, to))
    ensures forall e :: e in Arranged(entries, from, to) <==> e in entries
  {
    hide SortedIn, Reverse;
    if from != to {
      ReverseSorted(from, entries);
    }
  }

  lemma TailOfSorted(ascending: bool, a: seq<Entry>, e: Entry)
    requires SortedIn(ascending, a) && a != []
    ensures SortedIn(ascending, a[1..]) && (e in a[1..] <==> e in a && e != a[0])
  {
    assert a == [a[0]] + a[1..];
    if e in a[1..] {
      var i :| 0 <= i < |a[1..]| && a[1..][i] == e;
      assert IsAfterCursor(a[i + 1], CursorOf(a[0]), ascending);
      NotAfterItself(a[0], a[0], ascending);
    }
  }

  lemma FirstOfSorted(ascending: bool, a: seq<Entry>, b: seq<Entry>)
    requires SortedIn(ascending, a) && SortedIn(ascending, b) && a != [] && forall e :: e in a <==> e in b
    ensures b != [] && a[0] == b[0]
  {
    assert a[0] in b && b[0] in a;
    NotAfterItself(a[0], b[0], ascending);
  }

  /** There is one strictly sorted arrangement, so any sort produces it. */
  lemma {:induction false} SortIsUnique(ascending: bool, a: seq<Entry>, b: seq<Entry>)
    requires SortedIn(ascending, a) && SortedIn(ascending, b) && forall e :: e in a <==> e in b
    ensures a == b
  {
    assert b != [] ==> b[0] in b;
    if a == [] {
    } else {
      FirstOfSorted(ascending, a, b);
      forall e ensures e in a[1..] <==> e in b[1..] {
        TailOfSorted(ascending, a, e);
        TailOfSorted(ascending, b, e);
      }
      SortIsUnique(ascending, a[1..], b[1..]);
      assert a == [a[0]] + a[1..] && b == [b[0]] + b[1..];
    }
  }

  // ---- from the store to the pages --------------------------------------------------------------

  /** The store folds the case of the sort order, the service does not. */
  predicate StoreAscends(q: Request) {
    EqualFold(q.sort, "asc")
  }

  predicate ServiceAscends(q: Request) {
    q.sort == "asc"
  }

  /** The store's rows that the service keeps. */
  function KeptOf(logs: Logs, q: Request, now: int): seq<Entry>
    requires Keyed(logs)
  {
    KeptEntries(q, Take(AllMatches(logs, q, now, StoreAscends(q)), MAX_ENTRIES))
  }

  /** What the service pages through: those rows, sorted again. */
  function Response(logs: Logs, q: Request, now: int): seq<Entry>
    requires Keyed(logs)
  {
    Arranged(KeptOf(logs, q, now), StoreAscends(q), ServiceAscends(q))
  }

  lemma TakeInOrder(ascending: bool, rows: seq<Row>, n: nat)
    requires InOrder(ascending, rows)
    ensures InOrder(ascending, Take(rows, n)) && forall r :: r in Take(rows, n) ==> r in rows
  {}

  lemma KeptSorted(logs: Logs, q: Request, now: int)
    requires Keyed(logs)
    ensures SortedIn(StoreAscends(q), KeptOf(logs, q, now))
  {
    hide AllMatches, Take, InOrder, SortedIn, KeptEntries;
    var all := AllMatches(logs, q, now, StoreAscends(q));
    MatchesAreComplete(logs, q, now, StoreAscends(q));
    TakeInOrder(StoreAscends(q), all, MAX_ENTRIES);
    KeptInOrder(q, Take(all, MAX_ENTRIES), StoreAscends(q));
  }

  lemma ResponseSorted(logs: Logs, q: Request, now: int)
    requires Keyed(logs)
    ensures SortedIn(ServiceAscends(q), Response(logs, q, now))
    ensures forall e :: e in Response(logs, q, now) <==> e in KeptOf(logs, q, now)
  {
    hide KeptOf, SortedIn, Arranged;
    KeptSorted(logs, q, now);
    ArrangedSorted(KeptOf(logs, q, now), StoreAscends(q), ServiceAscends(q));
  }

  /** Whatever sort the source uses, it yields this response. */
  lemma SortedResponse(logs: Logs, q: Request, now: int, sorted: seq<Entry>)
    requires Keyed(logs) && SortedIn(ServiceAscends(q), sorted)
    requires forall e :: e in sorted <==> e in KeptOf(logs, q, now)
    ensures sorted == Response(logs, q, now)
  {
    hide KeptOf, SortedIn, Response;
    ResponseSorted(logs, q, now);
    SortIsUnique(ServiceAscends(q), sorted, Response(logs, q, now));
  }

  /** An entry of the table that the request asks for, with a selection on the way
      that is not empty naming it. */
  ghost predicate Found(logs: Logs, q: Request, now: int, e: Entry) {
    e.insertId in logs && logs[e.insertId].entry == e && Answers(q, now, e) && ServiceAsks(q, e)
  }

  lemma FoundMeans(logs: Logs, q: Request, now: int, e: Entry)
    ensures Found(logs, q, now, e)
       <==> e.insertId in logs && logs[e.insertId].entry == e && Where(q, now, e) && ServiceKeeps(q, e)
  {
    hide Answers, ServiceAsks, Where, MatchesFilters;
    AnswersMeans(q, now, e);
    ServiceMeans(q, e);
  }

  lemma KeptFound(logs: Logs, q: Request, now: int, e: Entry)
    requires Keyed(logs)
    ensures e in KeptOf(logs, q, now) ==> Found(logs, q, now, e)
    ensures |AllMatches(logs, q, now, StoreAscends(q))| <= MAX_ENTRIES && Found(logs, q, now, e) ==>
              e in KeptOf(logs, q, now)
  {
    hide AllMatches, KeptEntries, InOrder, Where, Found;
    FoundMeans(logs, q, now, e);
    var all := AllMatches(logs, q, now, StoreAscends(q));
    var rows := Take(all, MAX_ENTRIES);
    MatchesAreComplete(logs, q, now, StoreAscends(q));
    TakeInOrder(StoreAscends(q), all, MAX_ENTRIES);
    KeptMembers(q, rows, e);
    if e in KeptOf(logs, q, now) {
      var r :| r in rows && r.entry == e;
      assert r in all && Holds(logs, r);
    } else if Found(logs, q, now, e) {
      assert Holds(logs, logs[e.insertId]) && logs[e.insertId] in all;
    }
  }

  /** Following the tokens over a table: strictly sorted, so nothing twice, and
      while the matches fit the limit exactly the entries that match; never more. */
  lemma TokensYieldEveryMatch(logs: Logs, q: Request, now: int, limit: int)
    requires Keyed(logs)
    ensures SortedIn(ServiceAscends(q), Response(logs, q, now))
    ensures var pages := Walk(Response(logs, q, now), None, ServiceAscends(q), limit);
            SortedIn(ServiceAscends(q), Flatten(pages)) &&
            (forall page :: page in pages ==> |page| <= ClampLimit(limit)) &&
            (forall e :: e in Flatten(pages) ==> Found(logs, q, now, e)) &&
            (|AllMatches(logs, q, now, StoreAscends(q))| <= MAX_ENTRIES ==>
               forall e :: Found(logs, q, now, e) ==> e in Flatten(pages))
  {
    hide KeptOf, Response, SortedIn, Found, Walk, Flatten;
    ResponseSorted(logs, q, now);
    WalkIsComplete(Response(logs, q, now), ServiceAscends(q), limit);
    forall e ensures e in Response(logs, q, now) ==> Found(logs, q, now, e) {
      KeptFound(logs, q, now, e);
    }
    if |AllMatches(logs, q, now, StoreAscends(q))| <= MAX_ENTRIES {
      forall e | Found(logs, q, now, e) ensures e in Response(logs, q, now) {
        KeptFound(logs, q, now, e);
      }
    }
  }
}
