/** The histogram of a search: equal buckets over [from, to], entries counted by severity. */
module Timeline {
  import opened Options
  import opened Rows
  import opened Text

  const DEFAULT_BUCKETS := 24
  const MIN_BUCKETS := 24
  const MAX_BUCKETS := 96
  const MAX_DURATION := 0x7FFF_FFFF_FFFF_FFFF
  const MIN_DURATION := -0x8000_0000_0000_0000

  /** time.Time.Sub saturates at the int64 range of a time.Duration. */
  function Sub(a: int, b: int): (d: int)
    ensures MIN_DURATION <= d <= MAX_DURATION
    ensures MIN_DURATION <= a - b <= MAX_DURATION ==> d == a - b
  {
    if a - b > MAX_DURATION then MAX_DURATION else if a - b < MIN_DURATION then MIN_DURATION else a - b
  }

  /** Go's integer division by a positive number truncates towards zero. */
  function TruncDiv(x: int, y: int): int
    requires y > 0
  {
    if x >= 0 then x / y else -(-x / y)
  }

  function NormalizeTimelineBuckets(value: int): (n: nat)
    ensures MIN_BUCKETS <= n <= MAX_BUCKETS
    ensures MIN_BUCKETS <= value <= MAX_BUCKETS ==> n == value
    ensures value <= 0 ==> n == DEFAULT_BUCKETS
    ensures 0 < value < MIN_BUCKETS ==> n == MIN_BUCKETS
    ensures value > MAX_BUCKETS ==> n == MAX_BUCKETS
  {
    if value <= 0 then DEFAULT_BUCKETS
    else if value < MIN_BUCKETS then MIN_BUCKETS
    else if value > MAX_BUCKETS then MAX_BUCKETS
    else value
  }

  // ---- the grid ------------------------------------------------------------------------

  datatype Grid = Grid(from: int, to: int, count: nat, span: int)

  ghost predicate Regular(g: Grid) {
    g.count >= 1 && g.span >= 1 && g.count * g.span <= Sub(g.to, g.from)
  }

  lemma QuotientBounds(x: int, y: int)
    requires x >= 0 && y >= 1
    ensures x / y * y <= x < x / y * y + y
    ensures x / y >= 0 && (x / y <= 0 <==> x < y) && y * (x / y) == x / y * y
  {
    assert x == x / y * y + x % y;
  }

  /** One bucket when the range is shorter than the requested number of nanoseconds. */
  function GridOf(from: int, to: int, requested: int): (g: Grid)
    requires Sub(to, from) > 0
    ensures Regular(g) && g.from == from && g.to == to
    ensures g.count == NormalizeTimelineBuckets(requested) || g.count == 1
    ensures g.count == NormalizeTimelineBuckets(requested) <==> to - from >= NormalizeTimelineBuckets(requested)
  {
    var duration := Sub(to, from);
    var wanted := NormalizeTimelineBuckets(requested);
    var count := if duration / wanted <= 0 then 1 else wanted;
    QuotientBounds(duration, wanted);
    QuotientBounds(duration, count);
    Grid(from, to, count, duration / count)
  }

  function StartOf(g: Grid, k: nat): int {
    g.from + k * g.span
  }

  function EndOf(g: Grid, k: nat): int {
    if k == g.count - 1 then g.to else StartOf(g, k) + g.span
  }

  /** The bucket an entry of this time is counted in. */
  function Place(g: Grid, timestamp: int): (k: nat)
    requires Regular(g)
    ensures k < g.count
  {
    var index := TruncDiv(Sub(timestamp, g.from), g.span);
    if index < 0 then 0 else if index >= g.count then g.count - 1 else index
  }

  lemma {:induction false} Monotone(j: int, k: int, span: int)
    requires j <= k && span >= 1
    ensures j * span <= k * span
    ensures j < k ==> j * span + span <= k * span
    decreases k - j
  {
    if j >= k {
    } else {
      Monotone(j, k - 1, span);
      assert k * span == (k - 1) * span + span;
    }
  }

  /** The buckets tile the range: the first starts at `from`, each ends where the
      next starts, none is empty, and the last ends at `to`. */
  lemma Tiling(g: Grid, k: nat)
    requires Regular(g) && k < g.count
    ensures StartOf(g, 0) == g.from && EndOf(g, g.count - 1) == g.to
    ensures StartOf(g, k) < EndOf(g, k) <= g.to
    ensures k + 1 < g.count ==> EndOf(g, k) == StartOf(g, k + 1)
  {
    Monotone(k + 1, g.count, g.span);
    assert (k + 1) * g.span == k * g.span + g.span;
  }

  /** Half-open, except that the last bucket is closed. */
  predicate Contains(g: Grid, k: nat, timestamp: int) {
    StartOf(g, k) <= timestamp && (timestamp < EndOf(g, k) || (k == g.count - 1 && timestamp == g.to))
  }

  lemma PlaceContains(g: Grid, timestamp: int)
    requires Regular(g) && g.from <= timestamp <= g.to
    ensures Contains(g, Place(g, timestamp), timestamp)
  {
    var d := Sub(timestamp, g.from);
    var index := d / g.span;
    QuotientBounds(d, g.span);
    var k := Place(g, timestamp);
    Monotone(k, index, g.span);
    if k < g.count - 1 {
      assert k == index;
      Monotone(k + 1, g.count, g.span);
      assert (k + 1) * g.span == k * g.span + g.span;
    }
  }

  lemma {:induction false} ContainsOnce(g: Grid, j: nat, k: nat, timestamp: int)
    requires Regular(g) && j < k < g.count && Contains(g, j, timestamp)
    ensures !Contains(g, k, timestamp)
  {
    Monotone(j, k, g.span);
  }

  /** An entry in [from, to] is counted in the one bucket whose interval holds
      it; one before `from` in the first, one after `to` in the last. */
  lemma {:induction false} PlaceIsExact(g: Grid, k: nat, timestamp: int)
    requires Regular(g) && k < g.count
    ensures g.from <= timestamp <= g.to ==> (Place(g, timestamp) == k <==> Contains(g, k, timestamp))
    ensures timestamp < g.from ==> Place(g, timestamp) == 0
    ensures timestamp > g.to ==> Place(g, timestamp) == g.count - 1
  {
    if g.from <= timestamp <= g.to {
      var p := Place(g, timestamp);
      PlaceContains(g, timestamp);
      if p < k {
        ContainsOnce(g, p, k, timestamp);
      } else if k < p && Contains(g, k, timestamp) {
        ContainsOnce(g, k, p, timestamp);
      }
    } else if timestamp > g.to {
      AfterEnd(g, timestamp);
    }
  }

  lemma SubGrows(from: int, a: int, b: int)
    requires a <= b
    ensures Sub(a, from) <= Sub(b, from)
  {}

  lemma {:induction false} AfterEnd(g: Grid, timestamp: int)
    requires Regular(g) && timestamp > g.to
    ensures Place(g, timestamp) == g.count - 1
  {
    hide Sub;
    SubGrows(g.from, g.to, timestamp);
    var d := Sub(timestamp, g.from);
    QuotientBounds(d, g.span);
    if d / g.span < g.count {
      Monotone(d / g.span + 1, g.count, g.span);
    }
  }

  // ---- severities ----------------------------------------------------------------------------

  function SeverityRank(severity: string): Option<int> {
    var s := Upper(severity);
    if s == "DEFAULT" then Some(0)
    else if s == "DEBUG" then Some(100)
    else if s == "INFO" then Some(200)
    else if s == "NOTICE" then Some(300)
    else if s == "WARNING" then Some(400)
    else if s == "ERROR" then Some(500)
    else if s == "CRITICAL" then Some(600)
    else if s == "ALERT" then Some(700)
    else if s == "EMERGENCY" then Some(800)
    else None
  }

  const CLASSES := ["DEBUG", "INFO", "WARNING", "ERROR"]

  /** One of the four severities that the histogram shows. */
  function ClassOf(severity: string): (c: string)
    ensures c in CLASSES
  {
    var rank := SeverityRank(severity);
    if rank.None? then CLASSES[1]
    else if rank.value >= 500 then CLASSES[3]
    else if rank.value >= 400 then CLASSES[2]
    else if rank.value <= 100 then CLASSES[0]
    else CLASSES[1]
  }

  function Level(severity: string): nat {
    var c := ClassOf(severity);
    if c == CLASSES[0] then 0 else if c == CLASSES[1] then 1 else if c == CLASSES[2] then 2 else 3
  }

  /** The known severities, from the lowest up. */
  const SEVERITIES := ["DEFAULT", "DEBUG", "INFO", "NOTICE", "WARNING", "ERROR", "CRITICAL", "ALERT", "EMERGENCY"]

  lemma UpperFixed(s: string, name: string)
    requires forall i :: 0 <= i < |name| ==> 'A' <= name[i] <= 'Z'
    ensures EqualFold(s, name) <==> Upper(s) == name
  {
    if EqualFold(s, name) {
      forall i | 0 <= i < |s| ensures Upper(s)[i] == name[i] {
        assert Lower(s[i]) == Lower(name[i]);
      }
    }
    if Upper(s) == name {
      assert forall i :: 0 <= i < |s| ==> Upper(s)[i] == name[i];
    }
  }

  lemma NamesAreUpper(k: nat)
    requires k < |SEVERITIES|
    ensures forall i :: 0 <= i < |SEVERITIES[k]| ==> 'A' <= SEVERITIES[k][i] <= 'Z'
  {}

  /** The rank of a severity is a hundred for each known one below it, in any case;
      no other text has a rank. */
  lemma RankIs(severity: string, k: nat)
    requires k < |SEVERITIES|
    ensures EqualFold(severity, SEVERITIES[k]) <==> SeverityRank(severity) == Some(100 * k)
  {
    hide Upper, EqualFold;
    NamesAreUpper(k);
    UpperFixed(severity, SEVERITIES[k]);
  }

  lemma RankIsKnown(severity: string)
    ensures SeverityRank(severity).Some? <==> exists k :: 0 <= k < |SEVERITIES| && EqualFold(severity, SEVERITIES[k])
  {
    hide Upper, EqualFold;
    forall k | 0 <= k < |SEVERITIES| ensures EqualFold(severity, SEVERITIES[k]) ==> SeverityRank(severity).Some? {
      RankIs(severity, k);
    }
    if SeverityRank(severity).Some? {
      var k := SeverityRank(severity).value / 100;
      RankIs(severity, k);
    }
  }

  lemma SameText(s: string)
    ensures EqualFold(s, s)
  {}

  lemma ShownRanks()
    ensures SeverityRank("DEBUG") == Some(100) && SeverityRank("INFO") == Some(200)
    ensures SeverityRank("WARNING") == Some(400) && SeverityRank("ERROR") == Some(500)
  {
    hide SeverityRank, EqualFold;
    SameText("DEBUG");
    RankIs("DEBUG", 1);
    SameText("INFO");
    RankIs("INFO", 2);
    SameText("WARNING");
    RankIs("WARNING", 4);
    SameText("ERROR");
    RankIs("ERROR", 5);
  }

  /** The classes follow the ranks: a higher severity is never counted lower, and
      everything from the rank of ERROR up is counted as ERROR. */
  lemma ClassesFollowRank(a: string, b: string)
    ensures SeverityRank(a).Some? && SeverityRank(b).Some? && SeverityRank(a).value <= SeverityRank(b).value ==>
              Level(a) <= Level(b)
    ensures ClassOf(a) == "ERROR" <==> SeverityRank(a).Some? && SeverityRank(a).value >= 500
    ensures ClassOf(a) == "DEBUG" <==> SeverityRank(a).Some? && SeverityRank(a).value <= 100
    ensures ClassOf(a) == "WARNING" <==> SeverityRank(a).Some? && 400 <= SeverityRank(a).value < 500
    ensures ClassOf(a) == "INFO" <==> SeverityRank(a).Some? ==> 100 < SeverityRank(a).value < 400
  {}

  lemma ShownAsThemselves(c: string)
    requires c in CLASSES
    ensures ClassOf(c) == c
  {
    ShownRanks();
  }

  // ---- counting ---------------------------------------------------------------------------------

  datatype Bucket = Bucket(start: int, end: int, total: nat, severities: map<string, nat>)

  /** Entries counted in bucket `k`. */
  function Placed(g: Grid, entries: seq<Entry>, k: nat): nat
    requires Regular(g)
  {
    if entries == [] then 0
    else
      var last := entries[|entries| - 1];
      Placed(g, entries[..|entries| - 1], k) + if Place(g, last.timestamp) == k then 1 else 0
  }

  /** Those of one class. */
  function PlacedAs(g: Grid, entries: seq<Entry>, k: nat, c: string): nat
    requires Regular(g)
  {
    if entries == [] then 0
    else
      var last := entries[|entries| - 1];
      PlacedAs(g, entries[..|entries| - 1], k, c)
      + if Place(g, last.timestamp) == k && ClassOf(last.severity) == c then 1 else 0
  }

  ghost predicate Counts(g: Grid, entries: seq<Entry>, k: nat, b: Bucket)
    requires Regular(g)
  {
    && b.start == StartOf(g, k) && b.end == EndOf(g, k) && b.total == Placed(g, entries, k)
    && b.severities.Keys == {"DEBUG", "INFO", "WARNING", "ERROR"}
    && forall c :: c in b.severities ==> b.severities[c] == PlacedAs(g, entries, k, c)
  }

  function Counted(b: Bucket, c: string): Bucket {
    b.(total := b.total + 1, severities := b.severities[c := (if c in b.severities then b.severities[c] else 0) + 1])
  }

  lemma CountsMore(g: Grid, entries: seq<Entry>, entry: Entry, k: nat, b: Bucket)
    requires Regular(g) && Counts(g, entries, k, b)
    ensures Counts(g, entries + [entry], k,
                   if Place(g, entry.timestamp) == k then Counted(b, ClassOf(entry.severity)) else b)
  {
    var more := entries + [entry];
    assert more[..|entries|] == entries && more[|entries|] == entry;
    assert Placed(g, more, k) == Placed(g, entries, k) + if Place(g, entry.timestamp) == k then 1 else 0;
    assert ClassOf(entry.severity) in CLASSES;
  }

  /** Bucket `k` counts the entries placed in it, in total and by class. */
  ghost predicate AllCount(g: Grid, entries: seq<Entry>, buckets: seq<Bucket>)
    requires Regular(g)
  {
    |buckets| == g.count && forall k :: 0 <= k < g.count ==> Counts(g, entries, k, buckets[k])
  }

  lemma AllCountMore(g: Grid, entries: seq<Entry>, entry: Entry, buckets: seq<Bucket>)
    requires Regular(g) && AllCount(g, entries, buckets)
    ensures var p := Place(g, entry.timestamp);
            AllCount(g, entries + [entry], buckets[p := Counted(buckets[p], ClassOf(entry.severity))])
  {
    forall k | 0 <= k < g.count { CountsMore(g, entries, entry, k, buckets[k]); }
  }

  /** The empty buckets of a grid. */
  method EmptyBuckets(ghost g: Grid, from: int, to: int, bucketCount: nat, span: int) returns (buckets: array<Bucket>)
    requires g == Grid(from, to, bucketCount, span) && Regular(g)
    ensures fresh(buckets) && AllCount(g, [], buckets[..])
  {
    buckets := new Bucket[bucketCount];
    for index := 0 to bucketCount
      invariant forall k :: 0 <= k < index ==> Counts(g, [], k, buckets[k])
    {
      var start := from + index * span;
      var end := start + span;
      if index == bucketCount - 1 {
        end := to;
      }
      buckets[index] := Bucket(start, end, 0, map["DEBUG" := 0, "INFO" := 0, "WARNING" := 0, "ERROR" := 0]);
    }
  }

  lemma Forward(from: int, to: int)
    ensures Sub(to, from) <= 0 <==> to <= from
  {}

  lemma GridParts(from: int, to: int, requested: int)
    requires Sub(to, from) > 0
    ensures var duration, wanted := Sub(to, from), NormalizeTimelineBuckets(requested);
            var count := if duration / wanted <= 0 then 1 else wanted;
            GridOf(from, to, requested) == Grid(from, to, count, duration / count)
  {
    hide Sub, NormalizeTimelineBuckets;
  }

  /** No buckets for an empty or reversed range; else one for each part of the grid. */
  method BuildTimeline(entries: seq<Entry>, from: int, to: int, requested: int) returns (timeline: seq<Bucket>)
    ensures to <= from ==> timeline == []
    ensures to > from ==> AllCount(GridOf(from, to, requested), entries, timeline)
  {
    hide AllCount, Counted, ClassOf, Sub, TruncDiv, NormalizeTimelineBuckets, GridOf;
    Forward(from, to);
    var duration := Sub(to, from);
    if duration <= 0 {
      return [];
    }
    ghost var g := GridOf(from, to, requested);
    GridParts(from, to, requested);
    var bucketCount := NormalizeTimelineBuckets(requested);
    if duration / bucketCount <= 0 {
      bucketCount := 1;
    }
    var span := duration / bucketCount;
    var buckets := EmptyBuckets(g, from, to, bucketCount, span);
    assert entries[..0] == [];
    for i := 0 to |entries|
      invariant AllCount(g, entries[..i], buckets[..])
    {
      var entry := entries[i];
      AllCountMore(g, entries[..i], entry, buckets[..]);
      assert entries[..i + 1] == entries[..i] + [entry];
      var index := TruncDiv(Sub(entry.timestamp, from), span);
      if index < 0 {
        index := 0;
      }
      if index >= bucketCount {
        index := bucketCount - 1;
      }
      buckets[index] := Counted(buckets[index], ClassOf(entry.severity));
    }
    assert entries[..|entries|] == entries;
    timeline := buckets[..];
  }

  // ---- counting positions --------------------------------------------------------------------------

  /** The positions of the entries that pass a test. */
  ghost function PositionsOf(entries: seq<Entry>, p: Entry -> bool): set<nat> {
    set i: nat | i < |entries| && p(entries[i])
  }

  lemma NoPositions(p: Entry -> bool)
    ensures PositionsOf([], p) == {}
  {}

  lemma OnePositionMore(entries: seq<Entry>, p: Entry -> bool)
    requires entries != []
    ensures var n := |entries| - 1;
            |PositionsOf(entries, p)| == |PositionsOf(entries[..n], p)| + if p(entries[n]) then 1 else 0
  {
    var n := |entries| - 1;
    var before, now := PositionsOf(entries[..n], p), PositionsOf(entries, p);
    assert n !in before;
    assert now == if p(entries[n]) then before + {n} else before;
  }

  ghost function InBucket(g: Grid, k: nat): Entry -> bool
    requires Regular(g)
  {
    (e: Entry) => Place(g, e.timestamp) == k
  }

  ghost function InBucketAs(g: Grid, k: nat, c: string): Entry -> bool
    requires Regular(g)
  {
    (e: Entry) => Place(g, e.timestamp) == k && ClassOf(e.severity) == c
  }

  /** A count is the number of positions at which an entry is placed so. */
  lemma {:induction false} PlacedIsCount(g: Grid, entries: seq<Entry>, k: nat)
    requires Regular(g)
    ensures Placed(g, entries, k) == |PositionsOf(entries, InBucket(g, k))|
  {
    hide Place, PositionsOf;
    var p := InBucket(g, k);
    if entries == [] {
      NoPositions(p);
    } else {
      PlacedIsCount(g, entries[..|entries| - 1], k);
      OnePositionMore(entries, p);
    }
  }

  lemma {:induction false} PlacedAsIsCount(g: Grid, entries: seq<Entry>, k: nat, c: string)
    requires Regular(g)
    ensures PlacedAs(g, entries, k, c)
         == |PositionsOf(entries, InBucketAs(g, k, c))|
  {
    hide Place, ClassOf, PositionsOf;
    var p := InBucketAs(g, k, c);
    if entries == [] {
      NoPositions(p);
    } else {
      PlacedAsIsCount(g, entries[..|entries| - 1], k, c);
      OnePositionMore(entries, p);
    }
  }

  // ---- conservation --------------------------------------------------------------------------------

  function SumPlaced(g: Grid, entries: seq<Entry>, count: nat): nat
    requires Regular(g)
  {
    if count == 0 then 0 else SumPlaced(g, entries, count - 1) + Placed(g, entries, count - 1)
  }

  /** The totals of all buckets add up to the number of entries. */
  lemma {:induction false} TotalsAreConserved(g: Grid, entries: seq<Entry>)
    requires Regular(g)
    ensures SumPlaced(g, entries, g.count) == |entries|
  {
    if entries == [] {
      SumOfNone(g, g.count);
    } else {
      var init, last := entries[..|entries| - 1], entries[|entries| - 1];
      TotalsAreConserved(g, init);
      SumOfOneMore(g, init, last, g.count);
      assert entries == init + [last];
    }
  }

  lemma {:induction false} SumOfNone(g: Grid, count: nat)
    requires Regular(g)
    ensures SumPlaced(g, [], count) == 0
  {
    if count == 0 {
    } else {
      SumOfNone(g, count - 1);
    }
  }

  lemma {:induction false} SumOfOneMore(g: Grid, entries: seq<Entry>, entry: Entry, count: nat)
    requires Regular(g)
    ensures SumPlaced(g, entries + [entry], count)
         == SumPlaced(g, entries, count) + if Place(g, entry.timestamp) < count then 1 else 0
  {
    if count == 0 {
    } else {
      SumOfOneMore(g, entries, entry, count - 1);
      assert (entries + [entry])[..|entries|] == entries;
    }
  }

  /** Each total is the sum of its four severities. */
  lemma {:induction false} TotalIsSumOfSeverities(g: Grid, entries: seq<Entry>, k: nat)
    requires Regular(g)
    ensures Placed(g, entries, k) == PlacedAs(g, entries, k, "DEBUG") + PlacedAs(g, entries, k, "INFO")
                                     + PlacedAs(g, entries, k, "WARNING") + PlacedAs(g, entries, k, "ERROR")
  {
    if entries == [] {
    } else {
      TotalIsSumOfSeverities(g, entries[..|entries| - 1], k);
      assert ClassOf(entries[|entries| - 1].severity) in CLASSES;
    }
  }

  function SumTotals(buckets: seq<Bucket>): nat {
    if buckets == [] then 0 else SumTotals(buckets[..|buckets| - 1]) + buckets[|buckets| - 1].total
  }

  lemma {:induction false} SumTotalsIsPlaced(g: Grid, entries: seq<Entry>, buckets: seq<Bucket>, n: nat)
    requires Regular(g) && AllCount(g, entries, buckets) && n <= g.count
    ensures SumTotals(buckets[..n]) == SumPlaced(g, entries, n)
  {
    if n == 0 {
    } else {
      SumTotalsIsPlaced(g, entries, buckets, n - 1);
      assert buckets[..n][..n - 1] == buckets[..n - 1];
    }
  }

  /** Nothing is lost or counted twice: the totals add up to the number of
      entries, and each total is the sum of its four severities. */
  lemma {:induction false} HistogramIsComplete(g: Grid, entries: seq<Entry>, buckets: seq<Bucket>)
    requires Regular(g) && AllCount(g, entries, buckets)
    ensures SumTotals(buckets) == |entries|
    ensures forall k :: 0 <= k < |buckets| ==>
                          var counts := buckets[k].severities;
                          counts.Keys == {"DEBUG", "INFO", "WARNING", "ERROR"}
                          && buckets[k].total == counts["DEBUG"] + counts["INFO"] + counts["WARNING"] + counts["ERROR"]
  {
    SumTotalsIsPlaced(g, entries, buckets, g.count);
    assert buckets[..g.count] == buckets;
    TotalsAreConserved(g, entries);
    forall k | 0 <= k < g.count { TotalIsSumOfSeverities(g, entries, k); }
  }
}
