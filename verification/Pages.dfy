/** Keyset pagination over a sorted result, one page per request. */
module Pages {
  import opened Options
  import opened Text
  import opened Rows

  /** What a page token carries: the position of the last entry of a page. */
  datatype Cursor = Cursor(timestamp: int, insertId: string)

  function CursorOf(e: Entry): Cursor {
    Cursor(e.timestamp, e.insertId)
  }

  predicate IsAfterCursor(e: Entry, c: Cursor, ascending: bool) {
    if e.timestamp == c.timestamp then
      if ascending then Less(c.insertId, e.insertId) else Less(e.insertId, c.insertId)
    else if ascending then e.timestamp > c.timestamp else e.timestamp < c.timestamp
  }

  /** Strictly sorted in the requested order: what sorting entries with unique
      insert ids yields. */
  predicate SortedIn(ascending: bool, entries: seq<Entry>) {
    forall i, j :: 0 <= i < j < |entries| ==> IsAfterCursor(entries[j], CursorOf(entries[i]), ascending)
  }

  lemma AfterTransitive(a: Cursor, b: Entry, c: Entry, ascending: bool)
    requires IsAfterCursor(b, a, ascending) && IsAfterCursor(c, CursorOf(b), ascending)
    ensures IsAfterCursor(c, a, ascending)
  {
    if a.timestamp == b.timestamp == c.timestamp {
      if ascending {
        LessTransitive(a.insertId, b.insertId, c.insertId);
      } else {
        LessTransitive(c.insertId, b.insertId, a.insertId);
      }
    }
  }

  lemma NotAfterItself(a: Entry, b: Entry, ascending: bool)
    ensures !(IsAfterCursor(a, CursorOf(b), ascending) && IsAfterCursor(b, CursorOf(a), ascending))
    ensures !IsAfterCursor(a, CursorOf(a), ascending)
  {
    LessTotal(a.insertId, b.insertId);
    LessTotal(a.insertId, a.insertId);
  }

  /** A limit between one and a thousand is kept. */
  function ClampLimit(limit: int): (r: nat)
    ensures 1 <= r <= 1000
    ensures 1 <= limit <= 1000 ==> r == limit
    ensures limit < 1 ==> r == 100
    ensures limit > 1000 ==> r == 1000
  {
    if limit < 1 then 100 else if limit > 1000 then 1000 else limit
  }

  predicate Behind(e: Entry, cursor: Option<Cursor>, ascending: bool) {
    cursor.Some? ==> IsAfterCursor(e, cursor.value, ascending)
  }

  /** The number of entries at or before the cursor. */
  function Start(entries: seq<Entry>, cursor: Option<Cursor>, ascending: bool): (n: nat)
    ensures n <= |entries|
  {
    if entries == [] || Behind(entries[0], cursor, ascending) then 0 else 1 + Start(entries[1..], cursor, ascending)
  }

  /** Start finds the first entry behind the cursor. */
  lemma {:induction false} StartIsFirst(entries: seq<Entry>, cursor: Option<Cursor>, ascending: bool)
    ensures var n := Start(entries, cursor, ascending);
            (forall i :: 0 <= i < n ==> !Behind(entries[i], cursor, ascending))
            && (n < |entries| ==> Behind(entries[n], cursor, ascending))
  {
    if entries == [] || Behind(entries[0], cursor, ascending) {
    } else {
      StartIsFirst(entries[1..], cursor, ascending);
      assert forall i :: 1 <= i < |entries| ==> entries[i] == entries[1..][i - 1];
    }
  }

  lemma NoCursor(entries: seq<Entry>, cursor: Option<Cursor>, ascending: bool)
    requires cursor.None?
    ensures Start(entries, cursor, ascending) == 0
  {}

  function PageEnd(entries: seq<Entry>, cursor: Option<Cursor>, ascending: bool, limit: int): (n: nat)
    ensures Start(entries, cursor, ascending) <= n <= |entries|
  {
    var stop := Start(entries, cursor, ascending) + ClampLimit(limit);
    if stop < |entries| then stop else |entries|
  }

  /** A page is full, or goes to the end. */
  lemma PageSize(entries: seq<Entry>, cursor: Option<Cursor>, ascending: bool, limit: int)
    ensures var start, end := Start(entries, cursor, ascending), PageEnd(entries, cursor, ascending, limit);
            end - start <= ClampLimit(limit) && (end < |entries| ==> end == start + ClampLimit(limit))
  {}

  method PaginateResponse(entries: seq<Entry>, cursor: Option<Cursor>, ascending: bool, limit: int)
    returns (page: seq<Entry>, next: Option<Cursor>)
    ensures var start, end := Start(entries, cursor, ascending), PageEnd(entries, cursor, ascending, limit);
            page == entries[start..end] &&
            next == if start < end < |entries| then Some(CursorOf(entries[end - 1])) else None
    ensures |page| <= if limit < 1 then 100 else if limit > 1000 then 1000 else limit
  {
    hide IsAfterCursor, Start, ClampLimit, CursorOf;
    var start := 0;
    StartIsFirst(entries, cursor, ascending);
    if cursor.None? {
      NoCursor(entries, cursor, ascending);
    } else {
      while start < |entries| && !IsAfterCursor(entries[start], cursor.value, ascending)
        invariant start <= Start(entries, cursor, ascending)
      {
        start := start + 1;
      }
    }
    if start >= |entries| {
      return [], None;
    }
    var clamped := limit;
    if clamped < 1 {
      clamped := 100;
    }
    if clamped > 1000 {
      clamped := 1000;
    }
    var end := if start + clamped < |entries| then start + clamped else |entries|;
    page := entries[start..end];
    next := None;
    if end < |entries| && |page| > 0 {
      next := Some(CursorOf(page[|page| - 1]));
    }
  }

  /** In a sorted result the cursor separates a prefix from a suffix. */
  lemma {:induction false} StartSeparates(entries: seq<Entry>, cursor: Option<Cursor>, ascending: bool, i: nat)
    requires SortedIn(ascending, entries) && i < |entries|
    ensures Behind(entries[i], cursor, ascending) <==> i >= Start(entries, cursor, ascending)
  {
    var n := Start(entries, cursor, ascending);
    StartIsFirst(entries, cursor, ascending);
    if i > n && cursor.Some? {
      AfterTransitive(cursor.value, entries[n], entries[i], ascending);
    }
  }

  /** Resuming from the token of a page starts right behind that page. */
  lemma StartAfterToken(entries: seq<Entry>, ascending: bool, k: nat)
    requires SortedIn(ascending, entries) && 0 < k <= |entries|
    ensures Start(entries, Some(CursorOf(entries[k - 1])), ascending) == k
  {
    var token := Some(CursorOf(entries[k - 1]));
    StartSeparates(entries, token, ascending, k - 1);
    NotAfterItself(entries[k - 1], entries[k - 1], ascending);
    if k < |entries| {
      StartSeparates(entries, token, ascending, k);
    }
  }

  // ---- following the tokens ------------------------------------------------------------

  /** The pages a client gets by following tokens from this cursor on. */
  function Walk(entries: seq<Entry>, cursor: Option<Cursor>, ascending: bool, limit: int): seq<seq<Entry>>
    requires SortedIn(ascending, entries)
    decreases |entries| - Start(entries, cursor, ascending)
  {
    var start, end := Start(entries, cursor, ascending), PageEnd(entries, cursor, ascending, limit);
    if start < end < |entries| then
      StartAfterToken(entries, ascending, end);
      [entries[start..end]] + Walk(entries, Some(CursorOf(entries[end - 1])), ascending, limit)
    else [entries[start..end]]
  }

  function Flatten(pages: seq<seq<Entry>>): seq<Entry> {
    if pages == [] then [] else pages[0] + Flatten(pages[1..])
  }

  lemma FlattenCons(page: seq<Entry>, rest: seq<seq<Entry>>)
    ensures Flatten([page] + rest) == page + Flatten(rest)
  {
    assert ([page] + rest)[1..] == rest;
  }

  lemma SliceSplit(entries: seq<Entry>, i: nat, j: nat)
    requires i <= j <= |entries|
    ensures entries[i..] == entries[i..j] + entries[j..]
  {}

  lemma WalkMore(entries: seq<Entry>, cursor: Option<Cursor>, ascending: bool, limit: int)
    requires SortedIn(ascending, entries)
    requires Start(entries, cursor, ascending) < PageEnd(entries, cursor, ascending, limit) < |entries|
    ensures var start, end := Start(entries, cursor, ascending), PageEnd(entries, cursor, ascending, limit);
            Walk(entries, cursor, ascending, limit)
            == [entries[start..end]] + Walk(entries, Some(CursorOf(entries[end - 1])), ascending, limit)
  {}

  lemma WalkLast(entries: seq<Entry>, cursor: Option<Cursor>, ascending: bool, limit: int)
    requires SortedIn(ascending, entries)
    requires !(Start(entries, cursor, ascending) < PageEnd(entries, cursor, ascending, limit) < |entries|)
    ensures Walk(entries, cursor, ascending, limit) == [entries[Start(entries, cursor, ascending)..]]
  {
    assert entries[Start(entries, cursor, ascending)..|entries|] == entries[Start(entries, cursor, ascending)..];
  }

  lemma {:induction false} WalkFrom(entries: seq<Entry>, cursor: Option<Cursor>, ascending: bool, limit: int)
    requires SortedIn(ascending, entries)
    ensures Flatten(Walk(entries, cursor, ascending, limit)) == entries[Start(entries, cursor, ascending)..]
    ensures forall page :: page in Walk(entries, cursor, ascending, limit) ==> |page| <= ClampLimit(limit)
    decreases |entries| - Start(entries, cursor, ascending)
  {
    hide Start, PageEnd, Walk, SortedIn, ClampLimit, CursorOf;
    var start, end := Start(entries, cursor, ascending), PageEnd(entries, cursor, ascending, limit);
    PageSize(entries, cursor, ascending, limit);
    if start < end < |entries| {
      StartAfterToken(entries, ascending, end);
      var token := Some(CursorOf(entries[end - 1]));
      WalkFrom(entries, token, ascending, limit);
      WalkMore(entries, cursor, ascending, limit);
      FlattenCons(entries[start..end], Walk(entries, token, ascending, limit));
      SliceSplit(entries, start, end);
    } else {
      WalkLast(entries, cursor, ascending, limit);
      FlattenCons(entries[start..], []);
    }
  }

  /** From no cursor, the pages are the whole sorted result, each entry once. */
  lemma WalkIsComplete(entries: seq<Entry>, ascending: bool, limit: int)
    requires SortedIn(ascending, entries)
    ensures Flatten(Walk(entries, None, ascending, limit)) == entries
    ensures forall page :: page in Walk(entries, None, ascending, limit) ==> |page| <= ClampLimit(limit)
  {
    WalkFrom(entries, None, ascending, limit);
    assert entries[0..] == entries;
  }

  // ---- entries arriving between pages ----------------------------------------------------

  /** The n-th result a client is served from: sorted, and never losing an entry. */
  ghost predicate Growing(results: seq<seq<Entry>>, ascending: bool) {
    results != [] ==>
      && SortedIn(ascending, results[0])
      && (|results| > 1 ==> forall e :: e in results[0] ==> e in results[1])
      && Growing(results[1..], ascending)
  }

  /** The entries delivered while following tokens, page n taken from result n,
      and the token after the last page. */
  function Deliver(results: seq<seq<Entry>>, cursor: Option<Cursor>, ascending: bool,
                   limit: int): (seq<Entry>, Option<Cursor>)
  {
    if results == [] then ([], cursor)
    else
      var entries := results[0];
      var start, end := Start(entries, cursor, ascending), PageEnd(entries, cursor, ascending, limit);
      if start < end < |entries| then
        var (rest, token) := Deliver(results[1..], Some(CursorOf(entries[end - 1])), ascending, limit);
        (entries[start..end] + rest, token)
      else (entries[start..end], None)
  }

  /** A page after which more follow. */
  lemma DeliverMore(results: seq<seq<Entry>>, cursor: Option<Cursor>, ascending: bool, limit: int)
    requires results != []
    requires Start(results[0], cursor, ascending) < PageEnd(results[0], cursor, ascending, limit) < |results[0]|
    ensures var entries := results[0];
            var start, end := Start(entries, cursor, ascending), PageEnd(entries, cursor, ascending, limit);
            var (rest, token) := Deliver(results[1..], Some(CursorOf(entries[end - 1])), ascending, limit);
            Deliver(results, cursor, ascending, limit) == (entries[start..end] + rest, token)
  {}

  /** A page after which nothing follows. */
  lemma DeliverLast(results: seq<seq<Entry>>, cursor: Option<Cursor>, ascending: bool, limit: int)
    requires results != []
    requires !(Start(results[0], cursor, ascending) < PageEnd(results[0], cursor, ascending, limit) < |results[0]|)
    ensures var start, end := Start(results[0], cursor, ascending), PageEnd(results[0], cursor, ascending, limit);
            Deliver(results, cursor, ascending, limit) == (results[0][start..end], None)
  {}

  lemma PageSorted(entries: seq<Entry>, cursor: Option<Cursor>, ascending: bool, i: nat, j: nat)
    requires SortedIn(ascending, entries) && Start(entries, cursor, ascending) <= i <= j <= |entries|
    ensures SortedIn(ascending, entries[i..j])
    ensures forall e :: e in entries[i..j] ==> Behind(e, cursor, ascending)
  {
    forall k | 0 <= k < j - i ensures Behind(entries[i..j][k], cursor, ascending) {
      StartSeparates(entries, cursor, ascending, i + k);
    }
  }

  lemma GrowingTail(results: seq<seq<Entry>>, ascending: bool)
    requires results != [] && Growing(results, ascending)
    ensures SortedIn(ascending, results[0]) && Growing(results[1..], ascending)
    ensures |results| > 1 ==> forall e :: e in results[0] ==> e in results[1]
  {}

  /** No entry is delivered twice: everything delivered is strictly sorted and
      lies behind the cursor the walk started from. */
  lemma {:induction false} DeliveredSorted(results: seq<seq<Entry>>, cursor: Option<Cursor>, ascending: bool,
                                           limit: int)
    requires Growing(results, ascending)
    ensures var out := Deliver(results, cursor, ascending, limit).0;
            SortedIn(ascending, out) && forall e :: e in out ==> Behind(e, cursor, ascending)
  {
    hide Start, PageEnd, Growing, Behind, CursorOf, IsAfterCursor;
    if results == [] {
    } else {
      var entries := results[0];
      var start, end := Start(entries, cursor, ascending), PageEnd(entries, cursor, ascending, limit);
      GrowingTail(results, ascending);
      PageSorted(entries, cursor, ascending, start, end);
      if !(start < end < |entries|) {
        DeliverLast(results, cursor, ascending, limit);
      } else {
        var token := Some(CursorOf(entries[end - 1]));
        var rest := Deliver(results[1..], token, ascending, limit).0;
        DeliveredSorted(results[1..], token, ascending, limit);
        assert Behind(entries[end - 1], cursor, ascending) by {
          StartSeparates(entries, cursor, ascending, end - 1);
        }
        JoinSorted(entries, start, end, rest, cursor, ascending);
        DeliverMore(results, cursor, ascending, limit);
      }
    }
  }

  lemma JoinSorted(entries: seq<Entry>, start: nat, end: nat, rest: seq<Entry>, cursor: Option<Cursor>, ascending: bool)
    requires SortedIn(ascending, entries) && start < end <= |entries| && SortedIn(ascending, rest)
    requires Behind(entries[end - 1], cursor, ascending)
    requires forall e :: e in rest ==> Behind(e, Some(CursorOf(entries[end - 1])), ascending)
    ensures SortedIn(ascending, entries[start..end] + rest)
    ensures forall e :: e in rest ==> Behind(e, cursor, ascending)
  {
    var page, last := entries[start..end], entries[end - 1];
    forall e | e in rest ensures Behind(e, cursor, ascending) {
      if cursor.Some? {
        AfterTransitive(cursor.value, last, e, ascending);
      }
    }
    forall i, j | 0 <= i < |page| && 0 <= j < |rest| ensures IsAfterCursor(rest[j], CursorOf(page[i]), ascending) {
      assert rest[j] in rest;
      if i < |page| - 1 {
        AfterTransitive(CursorOf(page[i]), last, rest[j], ascending);
      }
    }
  }

  /** When the walk has ended, every entry of the first result that lay behind
      the starting cursor was delivered, whatever arrived in between. */
  lemma {:induction false} NothingIsLost(results: seq<seq<Entry>>, cursor: Option<Cursor>, ascending: bool,
                                         limit: int, e: Entry)
    requires Growing(results, ascending) && results != []
    requires e in results[0] && Behind(e, cursor, ascending)
    ensures Deliver(results, cursor, ascending, limit).1 == None ==> e in Deliver(results, cursor, ascending, limit).0
  {
    hide Start, PageEnd, Growing, Behind, CursorOf;
    var entries := results[0];
    var start, end := Start(entries, cursor, ascending), PageEnd(entries, cursor, ascending, limit);
    GrowingTail(results, ascending);
    PageSize(entries, cursor, ascending, limit);
    var i :| 0 <= i < |entries| && entries[i] == e;
    StartSeparates(entries, cursor, ascending, i);
    if i < end {
      assert entries[start..end][i - start] == e;
      FirstPage(results, cursor, ascending, limit);
    } else if |results| > 1 {
      assert e in results[1..][0];
      BehindToken(entries, ascending, i, end);
      NothingIsLost(results[1..], Some(CursorOf(entries[end - 1])), ascending, limit, e);
      DeliverMore(results, cursor, ascending, limit);
    }
  }

  lemma FirstPage(results: seq<seq<Entry>>, cursor: Option<Cursor>, ascending: bool, limit: int)
    requires results != []
    ensures var start, end := Start(results[0], cursor, ascending), PageEnd(results[0], cursor, ascending, limit);
            results[0][start..end] <= Deliver(results, cursor, ascending, limit).0
  {}

  lemma BehindToken(entries: seq<Entry>, ascending: bool, i: nat, end: nat)
    requires SortedIn(ascending, entries) && 0 < end <= i < |entries|
    ensures Behind(entries[i], Some(CursorOf(entries[end - 1])), ascending)
  {}

  /** A complete walk that began without a cursor delivers every original entry
      exactly once. */
  lemma InsertionsDoNotDisturb(results: seq<seq<Entry>>, ascending: bool, limit: int)
    requires Growing(results, ascending) && results != []
    requires Deliver(results, None, ascending, limit).1 == None
    ensures var out := Deliver(results, None, ascending, limit).0;
            (forall e :: e in results[0] ==> e in out) &&
            (forall i, j :: 0 <= i < j < |out| ==> out[i] != out[j])
  {
    var out := Deliver(results, None, ascending, limit).0;
    DeliveredSorted(results, None, ascending, limit);
    forall e | e in results[0] ensures e in out {
      NothingIsLost(results, None, ascending, limit, e);
    }
    forall i, j | 0 <= i < j < |out| ensures out[i] != out[j] {
      NotAfterItself(out[i], out[i], ascending);
    }
  }
}
