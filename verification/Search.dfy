/** SearchEntries: a keyset scan in chunks, proved equal to one pass. */
module Search {
  import opened Options
  import opened Text
  import opened Rows
  import opened Store

  const CHUNK_SIZE := 1000

  /** `query` is MatchesQuery on the request's query text. */
  datatype Request = Request(from: Option<int>, to: Option<int>, severity: string, stream: string, sort: string,
                             selected: map<string, bool>, selectedNodes: map<string, bool>, query: Entry -> bool)

  predicate Enabled(selection: map<string, bool>, value: string) {
    value in selection && selection[value] && Trim(value) != ""
  }

  predicate AnyEnabled(selection: map<string, bool>) {
    exists value :: value in selection && Enabled(selection, value)
  }

  function ShortId(id: string): string {
    if |id| > 12 then id[..12] else id
  }

  /** The SQL where clause. Its severity test is exact. */
  predicate Where(q: Request, now: int, e: Entry) {
    && (if q.from.Some? then q.from.value else 0) <= e.timestamp
    && e.timestamp <= (if q.to.Some? then q.to.value else now)
    && (var severity := Trim(q.severity); severity == "" || EqualFold(severity, "ALL") || e.severity == Upper(severity))
    && (var stream := Trim(q.stream); stream == "" || e.stream == stream)
    && (AnyEnabled(q.selectedNodes) ==> Enabled(q.selectedNodes, e.nodeId) || Enabled(q.selectedNodes, e.nodeName))
    && (AnyEnabled(q.selected) ==> Enabled(q.selected, e.containerId) || Enabled(q.selected, e.containerName)
                                   || Enabled(q.selected, ShortId(e.containerId)))
  }

  /** The filter applied to each row read. Its severity test folds case. */
  predicate MatchesFilters(q: Request, e: Entry) {
    && (q.severity == "" || q.severity == "ALL" || EqualFold(e.severity, q.severity))
    && (q.stream == "" || e.stream == q.stream)
    && q.query(e)
  }

  // ---- what a request asks for ------------------------------------------------------

  ghost predicate NotBlank(s: string) {
    exists i :: 0 <= i < |s| && !IsSpace(s[i])
  }

  /** If anything is enabled, one of these values is. */
  ghost predicate Picked(selection: map<string, bool>, values: set<string>) {
    (exists v :: v in selection && selection[v] && NotBlank(v)) ==>
      exists v :: v in values && v in selection && selection[v] && NotBlank(v)
  }

  /** The severity is the requested one in upper case. One that is blank, or a
      spelling of ALL other than ALL, is compared as it is; one with spaces around
      it finds nothing. */
  ghost predicate SeverityAsked(q: Request, e: Entry) {
    || q.severity == "" || q.severity == "ALL"
    || (if !NotBlank(q.severity) || EqualFold(Trim(q.severity), "ALL") then EqualFold(e.severity, q.severity)
        else Trimmed(q.severity) && e.severity == Upper(q.severity))
  }

  ghost predicate StreamAsked(q: Request, e: Entry) {
    q.stream == "" || (e.stream == q.stream && (NotBlank(q.stream) ==> Trimmed(q.stream)))
  }

  ghost predicate Answers(q: Request, now: int, e: Entry) {
    && (if q.from.Some? then q.from.value <= e.timestamp else 0 <= e.timestamp)
    && (if q.to.Some? then e.timestamp <= q.to.value else e.timestamp <= now)
    && SeverityAsked(q, e) && StreamAsked(q, e)
    && Picked(q.selectedNodes, {e.nodeId, e.nodeName})
    && Picked(q.selected, {e.containerId, e.containerName,
                           if |e.containerId| <= 12 then e.containerId else e.containerId[..12]})
    && q.query(e)
  }

  lemma BlankIsEmpty(s: string)
    ensures Trim(s) != "" <==> NotBlank(s)
    ensures Trim(s) == s <==> Trimmed(s)
  {
    hide IsSpace;
    BlankText(s);
    TrimIsTrimmed(s);
    if Trimmed(s) {
      TrimFixed(s);
    }
  }

  lemma SeverityMeans(q: Request, e: Entry)
    ensures SeverityAsked(q, e)
       <==> && (var severity := Trim(q.severity);
                severity == "" || EqualFold(severity, "ALL") || e.severity == Upper(severity))
            && (q.severity == "" || q.severity == "ALL" || EqualFold(e.severity, q.severity))
  {
    BlankIsEmpty(q.severity);
    TrimShortens(q.severity);
    UpperFolds(q.severity);
  }

  /** A text that is not trimmed gets shorter. */
  lemma TrimShortens(s: string)
    ensures |Trim(s)| <= |s| && (|Trim(s)| == |s| ==> Trim(s) == s)
  {
    TrimLeftParts(s);
    TrimRightParts(TrimLeft(s));
  }

  lemma UpperFolds(s: string)
    ensures |Upper(s)| == |s| && EqualFold(Upper(s), s)
    ensures forall i :: 0 <= i < |s| ==> !('a' <= Upper(s)[i] <= 'z')
  {}

  lemma StreamMeans(q: Request, e: Entry)
    ensures StreamAsked(q, e)
       <==> && (var stream := Trim(q.stream); stream == "" || e.stream == stream)
            && (q.stream == "" || e.stream == q.stream)
  {
    BlankIsEmpty(q.stream);
  }

  lemma PickedMeans(selection: map<string, bool>, values: set<string>)
    ensures Picked(selection, values)
       <==> (AnyEnabled(selection) ==> exists v :: v in values && Enabled(selection, v))
  {
    hide NotBlank, Trim;
    forall v | v in selection ensures Trim(v) != "" <==> NotBlank(v) {
      BlankIsEmpty(v);
    }
    if AnyEnabled(selection) {
      var v :| v in selection && Enabled(selection, v);
      assert NotBlank(v);
    }
  }

  /** The where clause and the filter together ask for exactly this. */
  lemma AnswersMeans(q: Request, now: int, e: Entry)
    ensures Answers(q, now, e) <==> Where(q, now, e) && MatchesFilters(q, e)
  {
    hide SeverityAsked, StreamAsked, Picked, AnyEnabled, Enabled, Trim, EqualFold, Upper;
    SeverityMeans(q, e);
    StreamMeans(q, e);
    PickedMeans(q.selectedNodes, {e.nodeId, e.nodeName});
    PickedMeans(q.selected, {e.containerId, e.containerName, ShortId(e.containerId)});
  }

  // ---- sequences ------------------------------------------------------------------

  function Filter<T>(xs: seq<T>, p: T -> bool): (r: seq<T>)
    ensures |r| <= |xs|
  {
    if xs == [] then []
    else
      var kept := Filter(xs[..|xs| - 1], p);
      if p(xs[|xs| - 1]) then kept + [xs[|xs| - 1]] else kept
  }

  function Take<T>(xs: seq<T>, n: nat): seq<T> {
    if |xs| <= n then xs else xs[..n]
  }

  lemma {:induction false} FilterStep<T>(xs: seq<T>, p: T -> bool, i: nat)
    requires i < |xs|
    ensures Filter(xs[..i + 1], p) == Filter(xs[..i], p) + if p(xs[i]) then [xs[i]] else []
  {
    assert xs[..i + 1][..i] == xs[..i];
  }

  lemma {:induction false} FilterPrefix<T>(xs: seq<T>, p: T -> bool, i: nat)
    requires i <= |xs|
    ensures Filter(xs[..i], p) <= Filter(xs, p)
  {
    if i < |xs| {
      FilterPrefix(xs[..|xs| - 1], p, i);
      assert xs[..|xs| - 1][..i] == xs[..i];
    } else {
      assert xs[..i] == xs;
    }
  }

  lemma {:induction false} FilterMember<T>(xs: seq<T>, p: T -> bool)
    ensures forall x :: x in Filter(xs, p) <==> x in xs && p(x)
  {
    if xs == [] {
    } else {
      FilterMember(xs[..|xs| - 1], p);
      assert xs == xs[..|xs| - 1] + [xs[|xs| - 1]];
    }
  }

  function Reverse<T>(xs: seq<T>): (r: seq<T>)
    ensures |r| == |xs| && forall i :: 0 <= i < |xs| ==> r[i] == xs[|xs| - 1 - i]
  {
    if xs == [] then [] else [xs[|xs| - 1]] + Reverse(xs[..|xs| - 1])
  }

  // ---- SELECT ... WHERE ... ORDER BY ... LIMIT --------------------------------------

  /** a comes before b in the order of the request. */
  predicate Precedes(ascending: bool, a: Entry, b: Entry) {
    if ascending then Before(a, b) else Before(b, a)
  }

  predicate InOrder(ascending: bool, rows: seq<Row>) {
    forall i, j :: 0 <= i < j < |rows| ==> Precedes(ascending, rows[i].entry, rows[j].entry)
  }

  function InDirection(logs: Logs, ascending: bool): seq<Row>
    requires Keyed(logs)
  {
    if ascending then Ordered(logs) else Reverse(Ordered(logs))
  }

  lemma ReverseMembers<T>(xs: seq<T>)
    ensures forall x :: x in Reverse(xs) <==> x in xs
  {
    hide Reverse;
    forall x | x in xs ensures x in Reverse(xs) {
      var i :| 0 <= i < |xs| && xs[i] == x;
      assert Reverse(xs)[|xs| - 1 - i] == x;
    }
  }

  lemma DirectionRows(logs: Logs, ascending: bool)
    requires Keyed(logs)
    ensures InOrder(ascending, InDirection(logs, ascending))
    ensures forall r :: r in InDirection(logs, ascending) <==> Holds(logs, r)
  {
    hide Ordered, Reverse, Before, Keyed, Holds;
    OrderedRows(logs);
    ReverseMembers(Ordered(logs));
  }

  function Selected(q: Request, now: int): Row -> bool {
    (r: Row) => Where(q, now, r.entry)
  }

  function Passes(q: Request): Row -> bool {
    (r: Row) => MatchesFilters(q, r.entry)
  }

  /** The where clause extended by the keyset condition. */
  function Wanted(q: Request, now: int, ascending: bool, after: Option<Entry>): Row -> bool {
    (r: Row) => Where(q, now, r.entry) && (after.Some? ==> Precedes(ascending, after.value, r.entry))
  }

  function Select(logs: Logs, q: Request, now: int, ascending: bool, after: Option<Entry>): seq<Row>
    requires Keyed(logs)
  {
    Take(Filter(InDirection(logs, ascending), Wanted(q, now, ascending, after)), CHUNK_SIZE)
  }

  /** All rows the where clause passes, in order: what the scan walks over. */
  function Scanned(logs: Logs, q: Request, now: int, ascending: bool): seq<Row>
    requires Keyed(logs)
  {
    Filter(InDirection(logs, ascending), Selected(q, now))
  }

  lemma {:induction false} FilterInOrder(ascending: bool, rows: seq<Row>, p: Row -> bool)
    requires InOrder(ascending, rows)
    ensures InOrder(ascending, Filter(rows, p))
  {
    if rows == [] {
    } else {
      var init := rows[..|rows| - 1];
      FilterInOrder(ascending, init, p);
      FilterMember(init, p);
      var kept, last := Filter(init, p), rows[|rows| - 1];
      forall i | 0 <= i < |kept| ensures Precedes(ascending, kept[i].entry, last.entry) {
        assert kept[i] in kept && kept[i] in init;
      }
    }
  }

  lemma {:induction false} DirectedUnique(ascending: bool, a: seq<Row>, b: seq<Row>)
    requires InOrder(ascending, a) && InOrder(ascending, b) && forall r :: r in a <==> r in b
    ensures a == b
  {
    if ascending {
      SortedUnique(a, b);
    } else {
      ReverseRows(a);
      ReverseRows(b);
      SortedUnique(Reverse(a), Reverse(b));
      forall i | 0 <= i < |a| ensures a[i] == b[i] {
        assert a[i] == Reverse(a)[|a| - 1 - i];
      }
    }
  }

  lemma ReverseRows(rows: seq<Row>)
    requires InOrder(false, rows)
    ensures Sorted(Reverse(rows)) && forall r :: r in Reverse(rows) <==> r in rows
  {
    hide Reverse, Before;
    ReverseMembers(rows);
  }

  /** Resuming behind the k-th scanned row reads exactly the rest: nothing is
      skipped or read twice, timestamp ties included. */
  lemma {:induction false} ResumeIsSuffix(logs: Logs, q: Request, now: int, ascending: bool, k: nat)
    requires Keyed(logs) && k <= |Scanned(logs, q, now, ascending)|
    ensures var all := Scanned(logs, q, now, ascending);
            Select(logs, q, now, ascending, if k == 0 then None else Some(all[k - 1].entry))
            == Take(all[k..], CHUNK_SIZE)
  {
    var rows, all := InDirection(logs, ascending), Scanned(logs, q, now, ascending);
    var after := if k == 0 then None else Some(all[k - 1].entry);
    var p := Wanted(q, now, ascending, after);
    var w := Selected(q, now);
    DirectionRows(logs, ascending);
    FilterMember(rows, p);
    FilterMember(rows, w);
    FilterInOrder(ascending, rows, p);
    FilterInOrder(ascending, rows, w);
    forall r ensures r in Filter(rows, p) <==> r in all[k..] {
      SuffixMember(ascending, all, k, r);
    }
    DirectedUnique(ascending, Filter(rows, p), all[k..]);
  }

  lemma SuffixMember(ascending: bool, all: seq<Row>, k: nat, r: Row)
    requires InOrder(ascending, all) && k <= |all|
    ensures r in all[k..] <==> r in all && (k > 0 ==> Precedes(ascending, all[k - 1].entry, r.entry))
  {
    if r in all {
      var i :| 0 <= i < |all| && all[i] == r;
      if i >= k {
        assert all[k..][i - k] == r;
      } else {
        BeforeTotal(all[k - 1].entry, r.entry);
        forall j | 0 <= j < |all[k..]| ensures all[k..][j] != r {
          BeforeTotal(r.entry, all[k + j].entry);
        }
      }
    }
  }

  // ---- the scan --------------------------------------------------------------------

  /** One pass: every matching row in order. */
  function AllMatches(logs: Logs, q: Request, now: int, ascending: bool): seq<Row>
    requires Keyed(logs)
  {
    Filter(Scanned(logs, q, now, ascending), Passes(q))
  }

  /** A match beyond a full result: the matches are cut. */
  lemma OverLimit(all: seq<Row>, p: Row -> bool, k: nat)
    requires k < |all| && p(all[k]) && |Filter(all[..k], p)| == MAX_ENTRIES
    ensures Filter(all[..k], p) == Take(Filter(all, p), MAX_ENTRIES) && |Filter(all, p)| > MAX_ENTRIES
  {
    FilterStep(all, p, k);
    FilterPrefix(all, p, k + 1);
    FilterPrefix(all, p, k);
  }

  method SearchEntries(logs: Logs, q: Request, now: int) returns (entries: seq<Row>, truncated: bool)
    requires Keyed(logs)
    ensures var matches := AllMatches(logs, q, now, EqualFold(q.sort, "asc"));
            entries == Take(matches, MAX_ENTRIES) && (truncated <==> |matches| > MAX_ENTRIES)
    ensures forall r :: r in entries ==> r.entry.insertId in logs && logs[r.entry.insertId] == r
    ensures forall r :: r in entries ==>
                          && (if q.from.Some? then q.from.value else 0) <= r.entry.timestamp
                          && r.entry.timestamp <= (if q.to.Some? then q.to.value else now)
    ensures forall r :: r in entries && q.severity != "" && q.severity != "ALL" ==>
                          EqualFold(r.entry.severity, q.severity)
    ensures forall r :: r in entries && q.stream != "" ==> r.entry.stream == q.stream
    ensures forall r :: r in entries ==>
                          && Picked(q.selectedNodes, {r.entry.nodeId, r.entry.nodeName})
                          && Picked(q.selected, {r.entry.containerId, r.entry.containerName,
                                                 if |r.entry.containerId| <= 12 then r.entry.containerId
                                                 else r.entry.containerId[..12]})
                          && q.query(r.entry)
    ensures forall r :: r in entries ==> Answers(q, now, r.entry)
    ensures if truncated then |entries| == 50000
            else forall id :: id in logs && Answers(q, now, logs[id].entry) ==> logs[id] in entries
  {
    hide SeverityAsked, StreamAsked, Picked, EqualFold, Filter, InDirection, Scanned;
    var ascending := EqualFold(q.sort, "asc");
    ghost var all := Scanned(logs, q, now, ascending);
    ghost var k;
    entries, truncated, k := ScanChunks(logs, q, now, ascending, all);
    ScannedMatches(all, q, k, truncated);
    SearchMeans(logs, q, now, ascending);
  }

  /** A match is a row of the table that the request asks for. */
  lemma SearchMeans(logs: Logs, q: Request, now: int, ascending: bool)
    requires Keyed(logs)
    ensures var entries := Take(AllMatches(logs, q, now, ascending), MAX_ENTRIES);
            && (forall r :: r in entries ==>
                              r.entry.insertId in logs && logs[r.entry.insertId] == r && Asked(q, now, r))
            && (|AllMatches(logs, q, now, ascending)| <= MAX_ENTRIES ==>
                  forall id :: id in logs && Answers(q, now, logs[id].entry) ==> logs[id] in entries)
  {
    hide AllMatches, Answers, Where, MatchesFilters;
    var all := AllMatches(logs, q, now, ascending);
    MatchesAreComplete(logs, q, now, ascending);
    forall r | r in all ensures Asked(q, now, r) {
      AskedMeans(q, now, r);
    }
    forall id | id in logs && Answers(q, now, logs[id].entry) ensures logs[id] in all {
      AnswersMeans(q, now, logs[id].entry);
      assert Holds(logs, logs[id]);
    }
  }

  ghost predicate Asked(q: Request, now: int, r: Row) {
    && Answers(q, now, r.entry)
    && (q.severity != "" && q.severity != "ALL" ==> EqualFold(r.entry.severity, q.severity))
    && (q.stream != "" ==> r.entry.stream == q.stream)
  }

  lemma AskedMeans(q: Request, now: int, r: Row)
    requires Where(q, now, r.entry) && MatchesFilters(q, r.entry)
    ensures Asked(q, now, r)
  {
    hide Answers, Where, EqualFold;
    AnswersMeans(q, now, r.entry);
  }

  /** Where the scan stopped decides what it has found. */
  lemma ScannedMatches(all: seq<Row>, q: Request, k: nat, truncated: bool)
    requires k <= |all| && |Filter(all[..k], Passes(q))| <= MAX_ENTRIES
    requires if truncated then k < |all| && |Filter(all[..k], Passes(q))| == MAX_ENTRIES &&
                               MatchesFilters(q, all[k].entry)
             else k == |all|
    ensures var matches := Filter(all, Passes(q));
            Filter(all[..k], Passes(q)) == Take(matches, MAX_ENTRIES) && (truncated <==> |matches| > MAX_ENTRIES)
  {
    hide Filter, MatchesFilters;
    if truncated {
      OverLimit(all, Passes(q), k);
    } else {
      assert all[..k] == all;
      WithinLimit(Filter(all, Passes(q)));
    }
  }

  lemma WithinLimit(rows: seq<Row>)
    requires |rows| <= MAX_ENTRIES
    ensures Take(rows, MAX_ENTRIES) == rows
  {}

  /** The loop over the chunks: it stops behind row k of the scan. */
  method ScanChunks(logs: Logs, q: Request, now: int, ascending: bool, ghost all: seq<Row>)
    returns (entries: seq<Row>, truncated: bool, ghost k: nat)
    requires Keyed(logs) && all == Scanned(logs, q, now, ascending)
    ensures k <= |all| && entries == Filter(all[..k], Passes(q)) && |entries| <= MAX_ENTRIES
    ensures if truncated then k < |all| && |entries| == MAX_ENTRIES && MatchesFilters(q, all[k].entry) else k == |all|
  {
    entries, truncated, k := [], false, 0;
    var last: Option<Entry> := None;
    while true
      invariant k <= |all| && !truncated
      invariant last == if k == 0 then None else Some(all[k - 1].entry)
      invariant entries == Filter(all[..k], Passes(q)) && |entries| <= MAX_ENTRIES
      decreases |all| - k
    {
      ResumeIsSuffix(logs, q, now, ascending, k);
      var chunk := Select(logs, q, now, ascending, last);
      var rowsRead: nat;
      rowsRead, entries, truncated, last, k := ReadChunk(chunk, q, entries, last, all, k);
      if truncated || rowsRead < CHUNK_SIZE {
        break;
      }
    }
  }

  /** The row callback over one chunk of the scan, starting behind row k. */
  method ReadChunk(chunk: seq<Row>, q: Request, found: seq<Row>, cursor: Option<Entry>, ghost all: seq<Row>,
                   ghost start: nat)
    returns (rowsRead: nat, entries: seq<Row>, truncated: bool, last: Option<Entry>, ghost k: nat)
    requires start <= |all| && chunk == Take(all[start..], CHUNK_SIZE)
    requires cursor == if start == 0 then None else Some(all[start - 1].entry)
    requires found == Filter(all[..start], Passes(q)) && |found| <= MAX_ENTRIES
    ensures start <= k <= |all|
    ensures entries == Filter(all[..k], Passes(q)) && |entries| <= MAX_ENTRIES
    ensures truncated ==> k < |all| && |entries| == MAX_ENTRIES && MatchesFilters(q, all[k].entry)
    ensures !truncated ==> last == (if k == 0 then None else Some(all[k - 1].entry)) && k == start + rowsRead
    ensures !truncated && rowsRead < CHUNK_SIZE ==> k == |all|
    ensures !truncated && rowsRead >= CHUNK_SIZE ==> k > start
  {
    hide Filter, MatchesFilters;
    ghost var p := Passes(q);
    rowsRead, entries, truncated, last, k := 0, found, false, cursor, start;
    while rowsRead < |chunk|
      invariant rowsRead <= |chunk| && k == start + rowsRead && !truncated
      invariant last == if k == 0 then None else Some(all[k - 1].entry)
      invariant entries == Filter(all[..k], p) && |entries| <= MAX_ENTRIES
    {
      var row := chunk[rowsRead];
      assert row == all[k];
      FilterStep(all, p, k);
      rowsRead := rowsRead + 1;
      last := Some(row.entry);
      if !MatchesFilters(q, row.entry) {
        k := k + 1;
        continue;
      }
      if |entries| == MAX_ENTRIES {
        truncated := true;
        return;
      }
      entries := entries + [row];
      k := k + 1;
    }
  }

  /** The result is already in the requested order, so the final sort of the
      source, which can only produce the one ordered arrangement, keeps it. */
  lemma FinalSortIsIdentity(logs: Logs, q: Request, now: int, ascending: bool, n: nat, sorted: seq<Row>)
    requires Keyed(logs) && InOrder(ascending, sorted)
    requires forall r :: r in sorted <==> r in Take(AllMatches(logs, q, now, ascending), n)
    ensures sorted == Take(AllMatches(logs, q, now, ascending), n)
  {
    DirectionRows(logs, ascending);
    FilterInOrder(ascending, InDirection(logs, ascending), Selected(q, now));
    FilterInOrder(ascending, Scanned(logs, q, now, ascending), Passes(q));
    DirectedUnique(ascending, sorted, Take(AllMatches(logs, q, now, ascending), n));
  }

  /** One pass finds exactly the rows of the table that pass both tests. */
  lemma MatchesAreComplete(logs: Logs, q: Request, now: int, ascending: bool)
    requires Keyed(logs)
    ensures forall r :: r in AllMatches(logs, q, now, ascending)
                        <==> Holds(logs, r) && Where(q, now, r.entry) && MatchesFilters(q, r.entry)
    ensures InOrder(ascending, AllMatches(logs, q, now, ascending))
  {
    var rows := InDirection(logs, ascending);
    DirectionRows(logs, ascending);
    FilterMember(rows, Selected(q, now));
    FilterMember(Scanned(logs, q, now, ascending), Passes(q));
    FilterInOrder(ascending, rows, Selected(q, now));
    FilterInOrder(ascending, Scanned(logs, q, now, ascending), Passes(q));
  }
}
