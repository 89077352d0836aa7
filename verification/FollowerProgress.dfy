/** What the follower is sure to do: when its first call refuses, which indexes are there after a successful call, and what its
    result tells. */
module FollowerProgress {
  import opened Prelude
  import opened ObjectKeys
  import opened BlockTree
  import opened Services
  import opened Ranges
  import opened FollowerModel
  import opened FollowerCache
  import opened FollowerRuns
  import opened FollowerFaults
  import FollowerIndexes
  import Probes
  import Pub = Publishing
  import RangeIndex

  // ----- the first call

  /** Every managed range from the first one through the one that starts at st has an index. */
  ghost predicate IndexedThrough(cfg: Config, objects: Objects, size: nat, st: nat)
    requires size > 0
  {
    forall k: nat :: cfg.ManagedStart() <= k <= st && k % size == 0 ==> Index(size, k) in objects
  }

  /** A clean first call refuses if and only if the store has the index of a range that the chain enters but does not complete, and
      of every managed range before it; and then it writes nothing. Otherwise it succeeds, however many ranges are published. */
  lemma FirstCallRefuses(cfg: Config, tree: Tree, chain: seq<Hash>, s: Sys, t: Sys, r: Result<FollowResult, Error>,
                         size: nat, end: nat)
    requires cfg.Valid() && IsChain(tree, chain) && |chain| <= MAX_U64 && ComesTo(cfg, |chain| - 1, size, end)
    requires !s.f.initialized && cfg.fromHeight <= end
    requires CallStep(cfg, tree, chain, s, t, r) && r != Failure(Fault)
    ensures size > 0
    ensures r == Failure(ReorgTouchesPublishedIndex) <==>
            exists st: nat :: && cfg.ManagedStart() <= st && st % size == 0 && st <= end < st + size - 1
                              && st + size <= MAX_U64 // otherwise there is no next range to go on to
                              && IndexedThrough(cfg, s.objects, size, st)
    ensures r == Failure(ReorgTouchesPublishedIndex) ==> t.objects == s.objects && !t.f.initialized
    ensures r != Failure(ReorgTouchesPublishedIndex) ==> r.Success? && t.f.initialized
  {
    hide IsChain, AfterIncrement, Refuses, Reports, Comparable, FirstUnindexed, Config.ManagedStart, Config.RangeSize,
      Config.EndHeight, IndexedThrough, InitialBlocks;
    SettingsCome(cfg, |chain| - 1, size, end);
    SearchRefuses(cfg, s.objects, size, end);
  }

  lemma SearchRefuses(cfg: Config, objects: Objects, size: nat, end: nat)
    requires cfg.Valid() && size == cfg.RangeSize() && end < MAX_U64
    ensures RefusesInit(cfg, objects, end) <==>
            exists st: nat :: && cfg.ManagedStart() <= st && st % size == 0 && st <= end < st + size - 1
                              && st + size <= MAX_U64 && IndexedThrough(cfg, objects, size, st)
  {
    hide FirstUnindexed, Config.ManagedStart, Config.RangeSize;
    var m := cfg.ManagedStart();
    var n := FirstUnindexed(cfg, objects, m, end);
    ManagedStartAligned(cfg);
    FirstUnindexedMeans(cfg, objects, m, end);
    SearchPasses(cfg, objects, m, end);
    if RefusesInit(cfg, objects, end) {
      var st := n - size;
      RangeIndex.NextMultiple(st, size);
      assert IndexedThrough(cfg, objects, size, st);
    }
    forall st: nat | && m <= st && st % size == 0 && st <= end < st + size - 1
                     && st + size <= MAX_U64 && IndexedThrough(cfg, objects, size, st)
      ensures RefusesInit(cfg, objects, end)
    {
      if n > st {
        AlignedGap(st, n, size);
      }
    }
  }

  /** When the search moves, it does so past a range that starts at or below the end. */
  lemma {:induction false} SearchPasses(cfg: Config, objects: Objects, start: nat, end: nat)
    requires cfg.Valid()
    ensures var n := FirstUnindexed(cfg, objects, start, end);
            n > start ==> start + cfg.RangeSize() <= n <= MAX_U64 && n - cfg.RangeSize() <= end
    decreases end + 1 - start
  {
    hide Config.RangeSize, NextRangeStart;
    if start <= end && Index(cfg.RangeSize(), start) in objects {
      NextFits(start, cfg.RangeSize());
      match NextRangeStart(start, cfg.RangeSize())
      case None =>
      case Some(next) => SearchPasses(cfg, objects, next, end);
    }
  }

  lemma NextFits(start: nat, size: nat)
    requires size <= MAX_U64
    ensures NextRangeStart(start, size).Some? ==> NextRangeStart(start, size).value == start + size <= MAX_U64
  {
  }

  // ----- publishing happens

  /** The range that starts at st is managed, complete up to the end height, and its last block is at least stableDelay deep. */
  ghost predicate Due(cfg: Config, size: nat, tip: nat, end: nat, st: nat)
    requires size > 0
  {
    cfg.ManagedStart() <= st && st % size == 0 && st + size - 1 <= end && st + size - 1 + cfg.stableDelay <= tip
  }

  /** After a successful call a range has an index if and only if it had one before or it is due; and the next range is past
      every due one and not due itself. */
  lemma DueIsPublished(cfg: Config, tree: Tree, chain: seq<Hash>, s: Sys, t: Sys, r: Result<FollowResult, Error>, size: nat,
                       end: nat)
    requires cfg.Valid() && WellFormed(tree) && IsChain(tree, chain) && |chain| <= MAX_U64 && ComesTo(cfg, |chain| - 1, size, end)
    requires Inv(cfg, tree, s.f) && PassedIndexed(cfg, s) && cfg.fromHeight <= end
    requires CallStep(cfg, tree, chain, s, t, r) && r.Success?
    ensures size > 0
    ensures var n, tip := t.f.nextIndexStart, |chain| - 1;
            && (forall st: nat :: Index(size, st) in t.objects <==> Index(size, st) in s.objects || Due(cfg, size, tip, end, st))
            && n % size == 0 && cfg.ManagedStart() <= n
            && (n + size - 1 > end || n + size - 1 + cfg.stableDelay > tip)
            && (forall st: nat :: Due(cfg, size, tip, end, st) ==> st + size <= n)
  {
    hide WellFormed, IsChain, Inv, AfterIncrement, AfterInit, Refuses, RefusesInit, Reports, Comparable, FirstUnindexed,
      Config.ManagedStart, Config.RangeSize, Config.EndHeight, Due, PassedIndexed;
    SettingsCome(cfg, |chain| - 1, size, end);
    ManagedStartAligned(cfg);
    if s.f.initialized {
      InvAligned(cfg, tree, s.f);
      NextInSight(cfg, s.f, chain);
      PassedAre(cfg, s);
      FollowerIndexes.AfterIncrementIs(cfg, tree, chain, s);
      IncrementIsBlocks(cfg, tree, chain, s);
      SettledDue(cfg, tree, chain, s.objects, Incremented(cfg, tree, chain, s), s.f.nextIndexStart, end);
    } else {
      var start := FirstUnindexed(cfg, s.objects, cfg.ManagedStart(), end);
      FirstUnindexedMeans(cfg, s.objects, cfg.ManagedStart(), end);
      NotRefusedInit(cfg, s.objects, end);
      FollowerIndexes.AfterInitIs(cfg, tree, chain, s.objects);
      InitialIsBlocks(cfg, tree, chain, s.objects, start, end);
      SettledDue(cfg, tree, chain, s.objects, InitialBlocks(cfg, tree, chain, s.objects, start, end), start, end);
    }
  }

  lemma NextInSight(cfg: Config, f: Follower, chain: seq<Hash>)
    requires Comparable(cfg, f, chain)
    ensures f.nextIndexStart <= cfg.EndHeight(|chain| - 1) + 1
  {
    hide Config.ManagedStart, Config.EndHeight;
  }

  lemma PassedAre(cfg: Config, s: Sys)
    requires PassedIndexed(cfg, s) && s.f.initialized
    ensures forall st: nat :: cfg.ManagedStart() <= st < s.f.nextIndexStart && st % cfg.RangeSize() == 0 ==> Index(cfg.RangeSize(), st) in s.objects
  {
  }

  ghost predicate SameIndexes(a: Objects, b: Objects) {
    forall size: nat, st: nat :: Index(size, st) in a <==> Index(size, st) in b
  }

  lemma IncrementIsBlocks(cfg: Config, tree: Tree, chain: seq<Hash>, s: Sys)
    requires IsChain(tree, chain) && Comparable(cfg, s.f, chain)
    ensures SameIndexes(s.objects, Incremented(cfg, tree, chain, s))
  {
    hide IsChain, AddBlocks, UploadFrom;
    var end := cfg.EndHeight(|chain| - 1);
    forall size: nat, st: nat ensures Index(size, st) in s.objects <==> Index(size, st) in Incremented(cfg, tree, chain, s) {
      IndexesStay(tree, s.objects, chain, UploadFrom(cfg, s.f, chain, end), end + 1, Index(size, st));
    }
  }

  lemma InitialIsBlocks(cfg: Config, tree: Tree, chain: seq<Hash>, objects: Objects, start: nat, end: nat)
    requires IsChain(tree, chain) && end < |chain|
    ensures SameIndexes(objects, InitialBlocks(cfg, tree, chain, objects, start, end))
  {
    hide IsChain, AddBlocks, Probes.UploadStart;
    if start <= end {
      forall size: nat, st: nat
        ensures Index(size, st) in objects <==> Index(size, st) in InitialBlocks(cfg, tree, chain, objects, start, end)
      {
        IndexesStay(tree, objects, chain, Probes.UploadStart(objects, chain, start, end, Probes.PROBE_STEP), end + 1, Index(size, st));
      }
    }
  }

  /** Publishing from start on, when every managed range below start has an index. */
  lemma SettledDue(cfg: Config, tree: Tree, chain: seq<Hash>, before: Objects, blocks: Objects, start: nat, end: nat)
    requires cfg.Valid() && IsChain(tree, chain) && end < |chain| <= MAX_U64 && SameIndexes(before, blocks)
    requires cfg.ManagedStart() <= start <= end + 1 && start % cfg.RangeSize() == 0
    requires forall st: nat :: cfg.ManagedStart() <= st < start && st % cfg.RangeSize() == 0 ==> Index(cfg.RangeSize(), st) in before
    ensures var t, size, tip := Settled(cfg, tree, chain, blocks, start, end), cfg.RangeSize(), |chain| - 1;
            var n := t.f.nextIndexStart;
            && n % size == 0 && cfg.ManagedStart() <= n
            && (n + size - 1 > end || n + size - 1 + cfg.stableDelay > tip)
            && (forall st: nat :: Index(size, st) in t.objects <==> Index(size, st) in before || Due(cfg, size, tip, end, st))
            && (forall st: nat :: Due(cfg, size, tip, end, st) ==> st + size <= n)
  {
    hide IsChain, Config.ManagedStart, Config.RangeSize, PublishObjects, Segment, PublishTo;
    var size, tip := cfg.RangeSize(), |chain| - 1;
    var n := PublishTo(cfg, start, tip, end);
    Pub.PublishToMeans(cfg, start, tip, end);
    Pub.PublishToReached(cfg, start, tip, end);
    forall st: nat | Due(cfg, size, tip, end, st) ensures st + size <= n {
      DueIsBelow(cfg, size, tip, end, st, n);
    }
    forall st: nat
      ensures Index(size, st) in Settled(cfg, tree, chain, blocks, start, end).objects
              <==> Index(size, st) in before || Due(cfg, size, tip, end, st)
    {
      Pub.PublishedMeans(cfg, tree, chain, blocks, start, n, st);
      Pub.PublishGrows(cfg, tree, chain, blocks, start, n);
      assert Index(size, st) in before <==> Index(size, st) in blocks;
      if start <= st < n && st % size == 0 {
        AlignedGap(st, n, size);
        assert Due(cfg, size, tip, end, st);
      }
    }
  }

  lemma DueIsBelow(cfg: Config, size: nat, tip: nat, end: nat, st: nat, n: nat)
    requires size > 0 && n % size == 0 && Due(cfg, size, tip, end, st)
    requires n + size - 1 > end || n + size - 1 + cfg.stableDelay > tip
    ensures st + size <= n
  {
    hide Config.ManagedStart;
    if st < n {
      AlignedGap(st, n, size);
    }
  }

  lemma {:induction false} RunsPass(cfg: Config, tree: Tree, states: seq<Sys>, events: seq<Event>, i: nat)
    requires IsRun(cfg, tree, states, events) && i < |states|
    requires !states[0].f.initialized && Inv(cfg, tree, states[0].f)
    ensures PassedIndexed(cfg, states[i])
    decreases i
  {
    hide Inv, CallStep, IsChain, WellFormed, WritesInOrder, PassedIndexed;
    if i == 0 {
      NothingPassed(cfg, states[0]);
    } else {
      RunsPass(cfg, tree, states, events, i - 1);
      RunsKeepTheCache(cfg, tree, states, events, i - 1);
      PassedKept(cfg, tree, events[i - 1].chain, states[i - 1], states[i], events[i - 1].result);
    }
  }

  /** Over every run, from any store and with any faults before: after each successful call past the FromHeight check every due
      range of the chain then shown has an index, the call created those that were missing and no others, and the next range is
      the first one that is not due. */
  lemma RunsPublishWhatIsDue(cfg: Config, tree: Tree, states: seq<Sys>, events: seq<Event>, i: nat, size: nat, end: nat)
    requires IsRun(cfg, tree, states, events) && 0 < i < |states|
    requires !states[0].f.initialized && Inv(cfg, tree, states[0].f)
    requires events[i - 1].result.Success? && |events[i - 1].chain| > 0
    requires ComesTo(cfg, |events[i - 1].chain| - 1, size, end) && cfg.fromHeight <= end
    ensures size > 0
    ensures var s, t, tip := states[i - 1], states[i], |events[i - 1].chain| - 1;
            var n := t.f.nextIndexStart;
            && (forall st: nat :: Index(size, st) in t.objects <==> Index(size, st) in s.objects || Due(cfg, size, tip, end, st))
            && n % size == 0 && cfg.ManagedStart() <= n
            && (n + size - 1 > end || n + size - 1 + cfg.stableDelay > tip)
            && (forall st: nat :: Due(cfg, size, tip, end, st) ==> st + size <= n)
  {
    hide Inv, CallStep, IsChain, WellFormed, WritesInOrder, PassedIndexed, Due, ComesTo;
    RunsPass(cfg, tree, states, events, i - 1);
    RunsKeepTheCache(cfg, tree, states, events, i - 1);
    DueIsPublished(cfg, tree, events[i - 1].chain, states[i - 1], states[i], events[i - 1].result, size, end);
  }

  // ----- which blocks are there

  lemma SettledStores(cfg: Config, tree: Tree, chain: seq<Hash>, blocks: Objects, start: nat, end: nat, h: nat)
    requires cfg.Valid() && IsChain(tree, chain) && start <= end + 1 <= |chain| <= MAX_U64 && h < |chain|
    requires start % cfg.RangeSize() == 0
    ensures var t := Settled(cfg, tree, chain, blocks, start, end);
            Stored(t.objects, chain, h) <==> Stored(blocks, chain, h) || start <= h < t.f.nextIndexStart
  {
    hide IsChain, Config.RangeSize, PublishObjects, Segment, PublishTo, Stored;
    var n := PublishTo(cfg, start, |chain| - 1, end);
    Pub.PublishToMeans(cfg, start, |chain| - 1, end);
    Pub.PublishToReached(cfg, start, |chain| - 1, end);
    Pub.PublishedMeans(cfg, tree, chain, blocks, start, n, h);
    if h < start {
      Pub.PublishedBelow(cfg, tree, chain, blocks, start, n, h);
    }
  }

  /** Block by block, a successful later call: what was there, the chain above the fork, and the ranges that were passed. */
  lemma LaterCallStores(cfg: Config, tree: Tree, chain: seq<Hash>, s: Sys, t: Sys, r: Result<FollowResult, Error>, end: nat,
                        h: nat)
    requires cfg.Valid() && WellFormed(tree) && IsChain(tree, chain) && |chain| <= MAX_U64 && end == cfg.EndHeight(|chain| - 1)
    requires Inv(cfg, tree, s.f) && s.f.initialized && cfg.fromHeight <= end && h < |chain|
    requires CallStep(cfg, tree, chain, s, t, r) && r.Success?
    ensures Comparable(cfg, s.f, chain)
    ensures Stored(t.objects, chain, h) <==>
            || Stored(s.objects, chain, h)
            || UploadFrom(cfg, s.f, chain, end) <= h <= end
            || s.f.nextIndexStart <= h < t.f.nextIndexStart
  {
    hide WellFormed, IsChain, Inv, Settled, Refuses, Reports, UploadFrom, AddBlocks, Stored, Config.ManagedStart,
      Config.RangeSize, Config.EndHeight;
    InvAligned(cfg, tree, s.f);
    NextInSight(cfg, s.f, chain);
    EndBelow(cfg, chain);
    SettledStores(cfg, tree, chain, Incremented(cfg, tree, chain, s), s.f.nextIndexStart, end, h);
    AddedOrThere(tree, s.objects, chain, UploadFrom(cfg, s.f, chain, end), end + 1, h);
  }

  /** And a successful first call: what was there, the blocks from the probed start on, and the ranges that were passed. */
  lemma FirstCallStores(cfg: Config, tree: Tree, chain: seq<Hash>, s: Sys, t: Sys, r: Result<FollowResult, Error>, end: nat,
                        h: nat)
    requires cfg.Valid() && IsChain(tree, chain) && |chain| <= MAX_U64 && end == cfg.EndHeight(|chain| - 1)
    requires !s.f.initialized && cfg.fromHeight <= end && h < |chain|
    requires CallStep(cfg, tree, chain, s, t, r) && r.Success?
    ensures end < |chain|
    ensures var start := FirstUnindexed(cfg, s.objects, cfg.ManagedStart(), end);
            Stored(t.objects, chain, h) <==>
            || Stored(s.objects, chain, h)
            || (start <= h <= end && Probes.UploadStart(s.objects, chain, start, end, 100) <= h)
            || start <= h < t.f.nextIndexStart
  {
    hide IsChain, Settled, RefusesInit, Reports, Probes.UploadStart, AddBlocks, Stored, Config.ManagedStart, Config.RangeSize,
      Config.EndHeight, FirstUnindexed;
    ManagedStartAligned(cfg);
    EndBelow(cfg, chain);
    NotRefusedInit(cfg, s.objects, end);
    var start := FirstUnindexed(cfg, s.objects, cfg.ManagedStart(), end);
    FirstUnindexedAligned(cfg, s.objects, cfg.ManagedStart(), end);
    SettledStores(cfg, tree, chain, InitialBlocks(cfg, tree, chain, s.objects, start, end), start, end, h);
    if start <= end {
      var probed := Probes.UploadStart(s.objects, chain, start, end, 100);
      Probes.UploadStartInSpan(s.objects, chain, start, end, 100);
      AddedOrThere(tree, s.objects, chain, probed, end + 1, h);
    }
  }

  lemma EndBelow(cfg: Config, chain: seq<Hash>)
    requires |chain| > 0
    ensures cfg.EndHeight(|chain| - 1) < |chain|
  {
  }

  // ----- what the result tells

  function NewKeys(before: Objects, after: Objects): set<Key> {
    set k | k in after && k !in before
  }

  /** A successful result counts the blocks and the indexes that the call created, each by itself, and it says waiting if and
      only if the call created nothing and the end height is where it was. */
  lemma ResultTells(cfg: Config, tree: Tree, chain: seq<Hash>, s: Sys, t: Sys, r: Result<FollowResult, Error>, size: nat,
                    end: nat)
    requires cfg.Valid() && IsChain(tree, chain) && |chain| <= MAX_U64 && ComesTo(cfg, |chain| - 1, size, end)
    requires CallStep(cfg, tree, chain, s, t, r) && r.Success?
    ensures r.value.tip == end && r.value.lastTip == s.f.lastTip && r.value.nextIndexStart == t.f.nextIndexStart
    ensures r.value.uploadedBlocks == |set k | k in NewKeys(s.objects, t.objects) && k.Block?|
    ensures r.value.publishedIndexes == |set k | k in NewKeys(s.objects, t.objects) && k.Index?|
    ensures r.value.waiting <==> t.objects == s.objects && end == s.f.lastTip
  {
    hide IsChain, AfterIncrement, AfterInit, Refuses, RefusesInit, Comparable, FirstUnindexed, Config.ManagedStart,
      Config.RangeSize, Config.EndHeight, Grew;
    SettingsCome(cfg, |chain| - 1, size, end);
    CallGrows(cfg, tree, chain, s, t, r);
    NewSplit(s.objects, t.objects);
  }

  /** The growth of the store is its new blocks and its new indexes. */
  lemma NewSplit(before: Objects, after: Objects)
    requires Grew(before, after)
    ensures var blocks, indexes := (set k | k in NewKeys(before, after) && k.Block?), (set k | k in NewKeys(before, after) && k.Index?);
            && |blocks| + |indexes| == |after| - |before|
            && |indexes| == |IndexKeys(after)| - |IndexKeys(before)|
            && (blocks == {} && indexes == {} ==> after == before)
  {
    hide Grew;
    var new_ := NewKeys(before, after);
    var blocks, indexes := (set k | k in new_ && k.Block?), (set k | k in new_ && k.Index?);
    NewParts(before, after);
    Disjoint(before.Keys, new_);
    Disjoint(blocks, indexes);
    Disjoint(IndexKeys(before), indexes);
    SizeOfKeys(before);
    SizeOfKeys(after);
    if blocks == {} && indexes == {} {
      NothingNew(before, after);
    }
  }

  lemma SizeOfKeys(objects: Objects)
    ensures |objects.Keys| == |objects|
  {
  }

  lemma NothingNew(before: Objects, after: Objects)
    requires Grew(before, after) && NewKeys(before, after) == {}
    ensures after == before
  {
    forall k | k in after ensures k in before {
      assert k !in NewKeys(before, after);
    }
  }

  lemma NewParts(before: Objects, after: Objects)
    requires Grew(before, after)
    ensures var new_ := NewKeys(before, after);
            var blocks, indexes := (set k | k in new_ && k.Block?), (set k | k in new_ && k.Index?);
            && after.Keys == before.Keys + new_ && before.Keys * new_ == {}
            && new_ == blocks + indexes && blocks * indexes == {}
            && IndexKeys(after) == IndexKeys(before) + indexes && IndexKeys(before) * indexes == {}
  {
  }

  lemma Disjoint<T>(a: set<T>, b: set<T>)
    requires a * b == {}
    ensures |a + b| == |a| + |b|
  {
  }
}
