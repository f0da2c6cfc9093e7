/** The spool as a directory of files in replay order: what a write and the
    pruning behind it leave, in ages and sizes. */
module SpoolLaws {
  import opened Text
  import opened Rows
  import opened Budget
  import opened Delivery

  ghost predicate SpoolSorted(spool: seq<SpoolItem>) {
    forall i, j :: 0 <= i < j < |spool| ==> KeyBefore(spool[i].batch.key, spool[j].batch.key)
  }

  /** By sequence, and by boot where two boots have the same. */
  ghost predicate InReplayOrder(spool: seq<SpoolItem>) {
    forall i, j :: 0 <= i < j < |spool| ==>
                     var a, b := spool[i].batch.key, spool[j].batch.key;
                     a.sequence < b.sequence || (a.sequence == b.sequence && Less(a.bootId, b.bootId))
  }

  /** The file takes its place; one of the same name is replaced. */
  lemma {:induction false} InsertItem(spool: seq<SpoolItem>, item: SpoolItem)
    requires SpoolSorted(spool)
    ensures SpoolSorted(Insert(spool, item))
    ensures forall x :: x in Insert(spool, item) <==>
                        x == item || (x in spool && !SameFile(x.batch.key, item.batch.key))
  {
    if spool == [] {
    } else {
      var head, tail := spool[0], spool[1..];
      assert spool == [head] + tail;
      HeadIsFirst(spool);
      LessTotal(head.batch.key.bootId, item.batch.key.bootId);
      if SameFile(head.batch.key, item.batch.key) {
        SameFileFirst(spool, item);
      } else if KeyBefore(item.batch.key, head.batch.key) {
        NewFileFirst(spool, item);
      } else {
        InsertItem(tail, item);
        forall x | x in Insert(tail, item) ensures KeyBefore(head.batch.key, x.batch.key) {}
      }
    }
  }

  lemma HeadIsFirst(spool: seq<SpoolItem>)
    requires SpoolSorted(spool) && spool != []
    ensures forall x :: x in spool[1..] ==> KeyBefore(spool[0].batch.key, x.batch.key)
  {
    forall x | x in spool[1..] ensures KeyBefore(spool[0].batch.key, x.batch.key) {
      var i :| 0 <= i < |spool[1..]| && spool[1..][i] == x;
      assert spool[i + 1] == x;
    }
  }

  lemma SameFileFirst(spool: seq<SpoolItem>, item: SpoolItem)
    requires SpoolSorted(spool) && spool != [] && SameFile(spool[0].batch.key, item.batch.key)
    ensures SpoolSorted([item] + spool[1..])
    ensures forall x :: x in spool[1..] ==> !SameFile(x.batch.key, item.batch.key)
  {
    hide Less;
    HeadIsFirst(spool);
    LessTotal(item.batch.key.bootId, item.batch.key.bootId);
  }

  lemma NewFileFirst(spool: seq<SpoolItem>, item: SpoolItem)
    requires SpoolSorted(spool) && spool != [] && KeyBefore(item.batch.key, spool[0].batch.key)
    ensures SpoolSorted([item] + spool)
    ensures forall x :: x in spool ==> KeyBefore(item.batch.key, x.batch.key) && !SameFile(x.batch.key, item.batch.key)
  {
    forall x | x in spool ensures KeyBefore(item.batch.key, x.batch.key) {
      var i :| 0 <= i < |spool| && spool[i] == x;
      if i > 0 {
        KeyBeforeTransitive(item.batch.key, spool[0].batch.key, x.batch.key);
      }
    }
    LessTotal(item.batch.key.bootId, item.batch.key.bootId);
  }

  lemma KeyBeforeTransitive(a: BatchKey, b: BatchKey, c: BatchKey)
    requires KeyBefore(a, b) && KeyBefore(b, c)
    ensures KeyBefore(a, c)
  {
    if a.sequence == b.sequence == c.sequence {
      LessTransitive(a.bootId, b.bootId, c.bootId);
    }
  }

  lemma {:induction false} DropOldKeeps(cfg: Config, now: int, spool: seq<SpoolItem>)
    requires SpoolSorted(spool)
    ensures SpoolSorted(DropOld(cfg, now, spool))
    ensures forall x :: x in DropOld(cfg, now, spool) <==> x in spool && !TooOld(cfg, now, x)
  {
    if spool == [] {
    } else {
      var head, tail := spool[0], spool[1..];
      DropOldKeeps(cfg, now, tail);
      assert spool == [head] + tail;
      var rest := DropOld(cfg, now, tail);
      forall j | 0 <= j < |rest| ensures KeyBefore(head.batch.key, rest[j].batch.key) {
        assert rest[j] in tail;
        var i :| 0 <= i < |tail| && tail[i] == rest[j];
        assert spool[i + 1] == tail[i];
      }
    }
  }

  lemma PruneKeeps(cfg: Config, now: int, spool: seq<SpoolItem>)
    requires SpoolSorted(spool)
    ensures SpoolSorted(Prune(cfg, now, spool))
    ensures forall x :: x in Prune(cfg, now, spool) ==> x in spool
  {
    DropOldKeeps(cfg, now, spool);
    if cfg.spoolMaxSize > 0 {
      DropOldestIsLeast(DropOld(cfg, now, spool), ItemSize, cfg.spoolMaxSize);
    }
  }

  lemma {:induction false} DropOldUpToKeeps(cfg: Config, now: int, spool: seq<SpoolItem>, n: nat)
    requires SpoolSorted(spool)
    ensures SpoolSorted(DropOldUpTo(cfg, now, spool, n))
    ensures forall x :: x in DropOldUpTo(cfg, now, spool, n) ==> x in spool
  {
    if spool == [] || n == 0 {
    } else {
      var head, tail := spool[0], spool[1..];
      var m := if TooOld(cfg, now, head) then n - 1 else n;
      DropOldUpToKeeps(cfg, now, tail, m);
      HeadBefore(spool, DropOldUpTo(cfg, now, tail, m));
    }
  }

  /** The head of a sorted spool comes before whatever is left of the rest. */
  lemma HeadBefore(spool: seq<SpoolItem>, rest: seq<SpoolItem>)
    requires SpoolSorted(spool) && spool != [] && SpoolSorted(rest) && forall x :: x in rest ==> x in spool[1..]
    ensures SpoolSorted([spool[0]] + rest)
    ensures forall x :: x in rest ==> x in spool
  {
    forall j | 0 <= j < |rest| ensures KeyBefore(spool[0].batch.key, rest[j].batch.key) {
      assert rest[j] in spool[1..];
      var i :| 0 <= i < |spool[1..]| && spool[1..][i] == rest[j];
      assert spool[i + 1] == rest[j];
    }
  }

  lemma {:induction false} DropOldestUpToKeeps(spool: seq<SpoolItem>, max: nat, n: nat)
    requires SpoolSorted(spool)
    ensures SpoolSorted(DropOldestUpTo(spool, max, n))
    ensures forall x :: x in DropOldestUpTo(spool, max, n) ==> x in spool
    decreases n
  {
    if n == 0 || Total(spool, ItemSize) <= max {
    } else {
      DropOldestUpToKeeps(spool[1..], max, n - 1);
    }
  }

  /** A pruning that fails midway leaves a sorted part of the spool, too. */
  lemma PrunedKeeps(cfg: Config, now: int, stored: seq<SpoolItem>, fault: WriteFault)
    requires SpoolSorted(stored)
    ensures SpoolSorted(Pruned(cfg, now, stored, fault))
    ensures forall x :: x in Pruned(cfg, now, stored, fault) ==> x in stored
  {
    match fault
    case NotPruned(n) =>
      DropOldKeeps(cfg, now, stored);
      DropOldUpToKeeps(cfg, now, stored, n);
      if cfg.spoolMaxSize > 0 && n >= OldCount(cfg, now, stored) {
        DropOldestUpToKeeps(DropOld(cfg, now, stored), cfg.spoolMaxSize, n - OldCount(cfg, now, stored));
      }
    case _ => PruneKeeps(cfg, now, stored);
  }

  // ---- ages and sizes -----------------------------------------------------------------------

  /** The bytes of the items within the age limit; without a limit, all of them. */
  function YoungBytes(maxAge: int, now: int, items: seq<SpoolItem>): nat {
    if items == [] then 0
    else YoungBytes(maxAge, now, items[1..])
         + if maxAge <= 0 || now - items[0].modTime <= maxAge then items[0].size else 0
  }

  /** The items to keep: those within the age limit that, with the younger ones
      behind them, fit the budget. */
  function Survivors(maxAge: int, maxSize: int, now: int, items: seq<SpoolItem>): seq<SpoolItem> {
    if items == [] then []
    else
      var rest := Survivors(maxAge, maxSize, now, items[1..]);
      if (maxAge <= 0 || now - items[0].modTime <= maxAge)
         && (maxSize <= 0 || YoungBytes(maxAge, now, items) <= maxSize)
      then [items[0]] + rest else rest
  }

  lemma {:induction false} YoungTotal(cfg: Config, now: int, spool: seq<SpoolItem>)
    ensures Total(DropOld(cfg, now, spool), ItemSize) == YoungBytes(cfg.spoolMaxAge, now, spool)
  {
    if spool == [] {
    } else {
      YoungTotal(cfg, now, spool[1..]);
      assert ([spool[0]] + DropOld(cfg, now, spool[1..]))[1..] == DropOld(cfg, now, spool[1..]);
    }
  }

  /** Without a budget, or within it, the items within the age limit stay. */
  lemma {:induction false} YoungSurvive(cfg: Config, now: int, spool: seq<SpoolItem>)
    requires cfg.spoolMaxSize <= 0 || YoungBytes(cfg.spoolMaxAge, now, spool) <= cfg.spoolMaxSize
    ensures DropOld(cfg, now, spool) == Survivors(cfg.spoolMaxAge, cfg.spoolMaxSize, now, spool)
  {
    if spool == [] {
    } else {
      YoungSurvive(cfg, now, spool[1..]);
    }
  }

  lemma {:induction false} PruneIsSurvivors(cfg: Config, now: int, spool: seq<SpoolItem>)
    ensures Prune(cfg, now, spool) == Survivors(cfg.spoolMaxAge, cfg.spoolMaxSize, now, spool)
  {
    YoungTotal(cfg, now, spool);
    if cfg.spoolMaxSize <= 0 || YoungBytes(cfg.spoolMaxAge, now, spool) <= cfg.spoolMaxSize {
      YoungSurvive(cfg, now, spool);
    } else {
      PruneIsSurvivors(cfg, now, spool[1..]);
      assert !TooOld(cfg, now, spool[0]) ==> DropOld(cfg, now, spool)[1..] == DropOld(cfg, now, spool[1..]);
    }
  }

  /** Survivors by position. */
  lemma {:induction false} SurvivorAt(maxAge: int, maxSize: int, now: int, items: seq<SpoolItem>, i: nat)
    requires i < |items| && (maxAge <= 0 || now - items[i].modTime <= maxAge)
    requires maxSize <= 0 || YoungBytes(maxAge, now, items[i..]) <= maxSize
    ensures items[i] in Survivors(maxAge, maxSize, now, items)
  {
    if i == 0 {
      assert items[0..] == items;
    } else {
      assert items[1..][i - 1..] == items[i..];
      SurvivorAt(maxAge, maxSize, now, items[1..], i - 1);
    }
  }

  lemma {:induction false} SurvivorsAreYoung(maxAge: int, maxSize: int, now: int, items: seq<SpoolItem>)
    ensures forall x :: x in Survivors(maxAge, maxSize, now, items) ==>
                          x in items && (maxAge <= 0 || now - x.modTime <= maxAge)
  {
    if items == [] {
    } else {
      SurvivorsAreYoung(maxAge, maxSize, now, items[1..]);
    }
  }

  lemma {:induction false} OldUpToKeepsYoung(cfg: Config, now: int, spool: seq<SpoolItem>, n: nat)
    ensures forall x :: x in DropOld(cfg, now, spool) ==> x in DropOldUpTo(cfg, now, spool, n)
    ensures |DropOldUpTo(cfg, now, spool, n)|
         == |spool| - if n < OldCount(cfg, now, spool) then n else OldCount(cfg, now, spool)
  {
    if spool == [] {
    } else {
      OldUpToKeepsYoung(cfg, now, spool[1..], n);
      if n > 0 {
        OldUpToKeepsYoung(cfg, now, spool[1..], n - 1);
      }
      YoungAreThere(cfg, now, spool);
    }
  }

  lemma {:induction false} YoungAreThere(cfg: Config, now: int, spool: seq<SpoolItem>)
    ensures forall x :: x in DropOld(cfg, now, spool) ==> x in spool
    ensures OldCount(cfg, now, spool) + |DropOld(cfg, now, spool)| == |spool|
  {
    if spool == [] {
    } else {
      YoungAreThere(cfg, now, spool[1..]);
    }
  }

  lemma DropOldestIsPart(spool: seq<SpoolItem>, max: nat)
    ensures var kept := DropOldest(spool, ItemSize, max);
            |kept| <= |spool| && (|kept| == |spool| ==> kept == spool) && forall x :: x in kept ==> x in spool
  {
    DropOldestIsLeast(spool, ItemSize, max);
  }

  lemma {:induction false} OldestUpToKeeps(spool: seq<SpoolItem>, max: nat, n: nat)
    ensures var kept, left := DropOldest(spool, ItemSize, max), DropOldestUpTo(spool, max, n);
            (forall x :: x in kept ==> x in left) && (forall x :: x in left ==> x in spool) &&
            |left| == (if n <= |spool| - |kept| then |spool| - n else |kept|) &&
            (n >= |spool| - |kept| ==> left == kept)
  {
    DropOldestIsPart(spool, max);
    if n == 0 || Total(spool, ItemSize) <= max {
    } else {
      DropOldestIsPart(spool[1..], max);
      OldestUpToKeeps(spool[1..], max, n - 1);
    }
  }

  /** Wherever it fails, a pruning has removed so many of the items it is to
      remove, in the end all of them. */
  lemma {:induction false} PruneUpToRemoves(cfg: Config, now: int, spool: seq<SpoolItem>, n: nat)
    ensures var kept, all := PruneUpTo(cfg, now, spool, n), Prune(cfg, now, spool);
            (forall x :: x in all ==> x in kept) &&
            |kept| == (if n <= |spool| - |all| then |spool| - n else |all|) &&
            (n >= |spool| - |all| ==> kept == all)
  {
    hide DropOldUpTo, DropOldestUpTo, DropOldest, Total;
    var young := DropOld(cfg, now, spool);
    YoungAreThere(cfg, now, spool);
    OldUpToKeepsYoung(cfg, now, spool, n);
    if cfg.spoolMaxSize > 0 {
      DropOldestIsPart(young, cfg.spoolMaxSize);
      if n >= OldCount(cfg, now, spool) {
        OldestUpToKeeps(young, cfg.spoolMaxSize, n - OldCount(cfg, now, spool));
      }
    }
  }

  /** Age comes first: no item within the age limit goes while one beyond it is
      left. */
  lemma {:induction false} AgeComesFirst(cfg: Config, now: int, spool: seq<SpoolItem>, n: nat)
    ensures var kept := PruneUpTo(cfg, now, spool, n);
            || (forall x :: x in kept ==> cfg.spoolMaxAge <= 0 || now - x.modTime <= cfg.spoolMaxAge)
            || (forall x :: x in spool && (cfg.spoolMaxAge <= 0 || now - x.modTime <= cfg.spoolMaxAge) ==> x in kept)
  {
    YoungAreDropOld(cfg, now, spool);
    OldUpToKeepsYoung(cfg, now, spool, n);
    if n >= OldCount(cfg, now, spool) && cfg.spoolMaxSize > 0 {
      OldestUpToKeeps(DropOld(cfg, now, spool), cfg.spoolMaxSize, n - OldCount(cfg, now, spool));
    }
  }

  lemma {:induction false} YoungAreDropOld(cfg: Config, now: int, spool: seq<SpoolItem>)
    ensures forall x :: x in DropOld(cfg, now, spool) <==>
                        x in spool && (cfg.spoolMaxAge <= 0 || now - x.modTime <= cfg.spoolMaxAge)
  {
    if spool == [] {
    } else {
      YoungAreDropOld(cfg, now, spool[1..]);
    }
  }

  /** Removed is only what is over the age limit, or does not fit the budget with
      the younger ones behind it; a pruning that does not fail removes all of it. */
  lemma PrunedByAgeAndSize(cfg: Config, now: int, stored: seq<SpoolItem>, fault: WriteFault)
    ensures var kept := Pruned(cfg, now, stored, fault);
            forall i :: 0 <= i < |stored| && (cfg.spoolMaxAge <= 0 || now - stored[i].modTime <= cfg.spoolMaxAge) &&
                        (cfg.spoolMaxSize <= 0 || YoungBytes(cfg.spoolMaxAge, now, stored[i..]) <= cfg.spoolMaxSize)
                        ==> stored[i] in kept
    ensures fault.NotPruned? || Pruned(cfg, now, stored, fault)
                                == Survivors(cfg.spoolMaxAge, cfg.spoolMaxSize, now, stored)
  {
    hide PruneUpTo, Prune, Survivors, YoungBytes;
    PruneIsSurvivors(cfg, now, stored);
    if fault.NotPruned? {
      PruneUpToRemoves(cfg, now, stored, fault.removed);
    }
    forall i | 0 <= i < |stored| && (cfg.spoolMaxAge <= 0 || now - stored[i].modTime <= cfg.spoolMaxAge) &&
               (cfg.spoolMaxSize <= 0 || YoungBytes(cfg.spoolMaxAge, now, stored[i..]) <= cfg.spoolMaxSize)
      ensures stored[i] in Prune(cfg, now, stored)
    {
      SurvivorAt(cfg.spoolMaxAge, cfg.spoolMaxSize, now, stored, i);
    }
  }

  /** What a complete pruning leaves is within both limits. */
  lemma SurvivorsFit(cfg: Config, now: int, stored: seq<SpoolItem>)
    ensures var kept := Survivors(cfg.spoolMaxAge, cfg.spoolMaxSize, now, stored);
            (forall x :: x in kept ==> cfg.spoolMaxAge <= 0 || now - x.modTime <= cfg.spoolMaxAge) &&
            (cfg.spoolMaxSize > 0 ==> Total(kept, ItemSize) <= cfg.spoolMaxSize)
  {
    hide Survivors, Total, DropOldest, DropOld;
    SurvivorsAreYoung(cfg.spoolMaxAge, cfg.spoolMaxSize, now, stored);
    PruneIsSurvivors(cfg, now, stored);
    if cfg.spoolMaxSize > 0 {
      DropOldestIsLeast(DropOld(cfg, now, stored), ItemSize, cfg.spoolMaxSize);
    }
  }

  lemma SortedIsInOrder(spool: seq<SpoolItem>)
    ensures SpoolSorted(spool) <==> InReplayOrder(spool)
  {
    hide Less;
    if SpoolSorted(spool) {
      forall i, j | 0 <= i < j < |spool|
        ensures var a, b := spool[i].batch.key, spool[j].batch.key;
                a.sequence < b.sequence || (a.sequence == b.sequence && Less(a.bootId, b.bootId))
      {
        assert KeyBefore(spool[i].batch.key, spool[j].batch.key);
      }
    }
  }

  /** A write keeps the replay order. */
  lemma WrittenInOrder(cfg: Config, spool: seq<SpoolItem>, item: SpoolItem, now: int, fault: WriteFault)
    ensures SpoolSorted(spool) ==> InReplayOrder(spool) && InReplayOrder(Pruned(cfg, now, Insert(spool, item), fault))
  {
    hide SpoolSorted, InReplayOrder, Insert, Pruned;
    if SpoolSorted(spool) {
      InsertItem(spool, item);
      PrunedKeeps(cfg, now, Insert(spool, item), fault);
      SortedIsInOrder(spool);
      SortedIsInOrder(Pruned(cfg, now, Insert(spool, item), fault));
    }
  }
}
