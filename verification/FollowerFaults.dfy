/** Published indexes in runs with faults. A fault can leave an index behind that the follower has not noted; if the chain
    then changes below it, the index stays while the range is passed. When that happens, and that nothing else goes wrong. */
module FollowerFaults {
  import opened Prelude
  import opened ObjectKeys
  import opened BlockTree
  import opened Services
  import opened Ranges
  import opened FollowerModel
  import opened FollowerCache
  import opened FollowerRuns
  import opened FollowerIndexes
  import Probes
  import Pub = Publishing
  import RangeIndex
  import Upload = UploadFollower

  /** Every index that is there for a range of [lo, hi) is the one the chain would get. */
  ghost predicate IndexesAgree(cfg: Config, objects: Objects, chain: seq<Hash>, lo: nat, hi: nat) {
    forall st: nat :: lo <= st < hi && st % cfg.RangeSize() == 0 && Index(cfg.RangeSize(), st) in objects ==>
      st + cfg.RangeSize() <= |chain| && objects[Index(cfg.RangeSize(), st)] == RangeBin(chain, st, cfg.RangeSize())
  }

  // ----- one call

  /** Publishing [start, stop) leaves everything up to stop published as the chain has it if and only if everything up to
      start was, and every index it found in [start, stop) was the chain's. */
  lemma PublishIff(cfg: Config, tree: Tree, chain: seq<Hash>, before: Objects, start: nat, stop: nat)
    requires IsChain(tree, chain) && cfg.ManagedStart() <= start <= stop <= |chain|
    requires start % cfg.RangeSize() == 0 && stop % cfg.RangeSize() == 0
    ensures PublishedAs(cfg, PublishObjects(cfg, tree, chain, before, start, stop), chain, stop)
            <==> PublishedAs(cfg, before, chain, start) && IndexesAgree(cfg, before, chain, start, stop)
  {
    hide *;
    if PublishedAs(cfg, before, chain, start) && IndexesAgree(cfg, before, chain, start, stop) {
      PublishedWhenAgreeing(cfg, tree, chain, before, start, stop);
    }
    if PublishedAs(cfg, PublishObjects(cfg, tree, chain, before, start, stop), chain, stop) {
      AgreedWhenPublished(cfg, tree, chain, before, start, stop);
    }
  }

  lemma PublishedWhenAgreeing(cfg: Config, tree: Tree, chain: seq<Hash>, before: Objects, start: nat, stop: nat)
    requires IsChain(tree, chain) && cfg.ManagedStart() <= start <= stop <= |chain|
    requires start % cfg.RangeSize() == 0 && stop % cfg.RangeSize() == 0
    requires PublishedAs(cfg, before, chain, start) && IndexesAgree(cfg, before, chain, start, stop)
    ensures PublishedAs(cfg, PublishObjects(cfg, tree, chain, before, start, stop), chain, stop)
  {
    hide Config.ManagedStart, Config.RangeSize, IsChain, PublishObjects, RangeBin;
    var after := PublishObjects(cfg, tree, chain, before, start, stop);
    Pub.PublishGrows(cfg, tree, chain, before, start, stop);
    forall st: nat | cfg.ManagedStart() <= st < stop && st % cfg.RangeSize() == 0
      ensures st + cfg.RangeSize() <= stop && Index(cfg.RangeSize(), st) in after
      ensures after[Index(cfg.RangeSize(), st)] == RangeBin(chain, st, cfg.RangeSize())
    {
      Pub.PublishedMeans(cfg, tree, chain, before, start, stop, st);
      if st < start {
        AlignedGap(st, stop, cfg.RangeSize());
        assert Index(cfg.RangeSize(), st) in before;
      }
    }
    forall h: nat | cfg.ManagedStart() <= h < stop ensures Stored(after, chain, h) {
      Pub.PublishedMeans(cfg, tree, chain, before, start, stop, h);
      assert h < start ==> Stored(before, chain, h);
    }
  }

  lemma AgreedWhenPublished(cfg: Config, tree: Tree, chain: seq<Hash>, before: Objects, start: nat, stop: nat)
    requires IsChain(tree, chain) && cfg.ManagedStart() <= start <= stop <= |chain|
    requires start % cfg.RangeSize() == 0 && stop % cfg.RangeSize() == 0
    requires PublishedAs(cfg, PublishObjects(cfg, tree, chain, before, start, stop), chain, stop)
    ensures PublishedAs(cfg, before, chain, start) && IndexesAgree(cfg, before, chain, start, stop)
  {
    hide Config.ManagedStart, Config.RangeSize, IsChain, PublishObjects, RangeBin;
    var after := PublishObjects(cfg, tree, chain, before, start, stop);
    Pub.PublishGrows(cfg, tree, chain, before, start, stop);
    forall st: nat | cfg.ManagedStart() <= st < start && st % cfg.RangeSize() == 0
      ensures st + cfg.RangeSize() <= start && Index(cfg.RangeSize(), st) in before
      ensures before[Index(cfg.RangeSize(), st)] == RangeBin(chain, st, cfg.RangeSize())
    {
      AlignedGap(st, start, cfg.RangeSize());
      assert Index(cfg.RangeSize(), st) in after;
      Pub.PublishedMeans(cfg, tree, chain, before, start, stop, st);
    }
    forall h: nat | cfg.ManagedStart() <= h < start ensures Stored(before, chain, h) {
      assert Stored(after, chain, h);
      Pub.PublishedBelow(cfg, tree, chain, before, start, stop, h);
    }
    forall st: nat | start <= st < stop && st % cfg.RangeSize() == 0 && Index(cfg.RangeSize(), st) in before
      ensures st + cfg.RangeSize() <= |chain| && before[Index(cfg.RangeSize(), st)] == RangeBin(chain, st, cfg.RangeSize())
    {
      assert Index(cfg.RangeSize(), st) in after;
    }
  }

  /** Uploading blocks from a height on makes no difference to what is published below it. */
  lemma BlocksAboveIff(cfg: Config, tree: Tree, chain: seq<Hash>, before: Objects, lo: nat, hi: nat, n: nat)
    requires IsChain(tree, chain) && n <= lo && hi <= |chain| && n <= |chain|
    ensures PublishedAs(cfg, AddBlocks(tree, before, chain, lo, hi), chain, n) <==> PublishedAs(cfg, before, chain, n)
    ensures forall x: nat :: IndexesAgree(cfg, AddBlocks(tree, before, chain, lo, hi), chain, n, x) <==> IndexesAgree(cfg, before, chain, n, x)
  {
    hide Config.ManagedStart, Config.RangeSize, IsChain, RangeBin;
    var after := AddBlocks(tree, before, chain, lo, hi);
    forall h: nat | h < n ensures Stored(after, chain, h) <==> Stored(before, chain, h) {
      BlockKeyFresh(tree, chain, lo, hi, h);
    }
    forall st: nat ensures Index(cfg.RangeSize(), st) in after <==> Index(cfg.RangeSize(), st) in before {
    }
    assert forall st: nat :: Index(cfg.RangeSize(), st) in before ==>
      after[Index(cfg.RangeSize(), st)] == before[Index(cfg.RangeSize(), st)];
  }

  /** Where publishing will have got to after a clean call. */
  function NextIndex(cfg: Config, s: Sys, chain: seq<Hash>): nat
    requires cfg.Valid() && 0 < |chain| <= MAX_U64
  {
    var end := cfg.EndHeight(|chain| - 1);
    PublishTo(cfg, if s.f.initialized then s.f.nextIndexStart else FirstUnindexed(cfg, s.objects, cfg.ManagedStart(), end), |chain| - 1, end)
  }

  ghost predicate BlocksThere(objects: Objects, chain: seq<Hash>, lo: nat, hi: nat) {
    hi <= |chain| && forall h: nat :: lo <= h < hi ==> Stored(objects, chain, h)
  }

  /** The ranges that a first call skips are published as the chain has them if and only if their indexes are the chain's and
      their blocks are there. */
  lemma SkippedIff(cfg: Config, objects: Objects, chain: seq<Hash>, end: nat)
    requires cfg.Valid() && FirstUnindexed(cfg, objects, cfg.ManagedStart(), end) <= |chain|
    ensures var managed, start := cfg.ManagedStart(), FirstUnindexed(cfg, objects, cfg.ManagedStart(), end);
            PublishedAs(cfg, objects, chain, start)
            <==> IndexesAgree(cfg, objects, chain, managed, start) && BlocksThere(objects, chain, managed, start)
  {
    hide Config.ManagedStart, Config.RangeSize, RangeBin, FirstUnindexed;
    var start := FirstUnindexed(cfg, objects, cfg.ManagedStart(), end);
    ManagedStartAligned(cfg);
    FirstUnindexedMeans(cfg, objects, cfg.ManagedStart(), end);
    forall st: nat | cfg.ManagedStart() <= st < start && st % cfg.RangeSize() == 0
      ensures st + cfg.RangeSize() <= start && Index(cfg.RangeSize(), st) in objects
    {
      AlignedGap(st, start, cfg.RangeSize());
    }
  }

  lemma AgreeSplit(cfg: Config, objects: Objects, chain: seq<Hash>, lo: nat, mid: nat, hi: nat)
    requires lo <= mid <= hi
    ensures IndexesAgree(cfg, objects, chain, lo, hi)
            <==> IndexesAgree(cfg, objects, chain, lo, mid) && IndexesAgree(cfg, objects, chain, mid, hi)
  {
    hide RangeBin, Config.RangeSize;
  }

  /** What NextIndex is worth: an aligned height, at or above where publishing starts, within the chain. */
  lemma NextIndexWithin(cfg: Config, tree: Tree, chain: seq<Hash>, start: nat)
    requires cfg.Valid() && IsChain(tree, chain) && |chain| <= MAX_U64
    requires start % cfg.RangeSize() == 0 && start <= cfg.EndHeight(|chain| - 1) + 1
    ensures 0 < |chain| && cfg.EndHeight(|chain| - 1) < |chain|
    ensures var stop := PublishTo(cfg, start, |chain| - 1, cfg.EndHeight(|chain| - 1));
            start <= stop <= |chain| && stop % cfg.RangeSize() == 0
  {
    hide Config.RangeSize, PublishTo;
    Pub.PublishToMeans(cfg, start, |chain| - 1, cfg.EndHeight(|chain| - 1));
  }

  /** After a first call, from any store, the passed ranges are published as the chain has them if and only if every index
      that was there for one of them is the chain's, and the blocks of the ranges that were skipped are stored. */
  lemma InitIndexesIff(cfg: Config, tree: Tree, chain: seq<Hash>, objects: Objects)
    requires cfg.Valid() && IsChain(tree, chain) && |chain| <= MAX_U64
    requires cfg.fromHeight <= cfg.EndHeight(|chain| - 1) && !RefusesInit(cfg, objects, cfg.EndHeight(|chain| - 1))
    ensures var end := cfg.EndHeight(|chain| - 1);
            var start := FirstUnindexed(cfg, objects, cfg.ManagedStart(), end);
            var stop := PublishTo(cfg, start, |chain| - 1, end);
            && AfterInit(cfg, tree, chain, objects).f.nextIndexStart == stop
            && (PublishedAs(cfg, AfterInit(cfg, tree, chain, objects).objects, chain, stop)
                <==> IndexesAgree(cfg, objects, chain, cfg.ManagedStart(), stop) && BlocksThere(objects, chain, cfg.ManagedStart(), start))
  {
    hide *;
    EndShown(cfg, tree, chain);
    ManagedStartAligned(cfg);
    var end, managed := cfg.EndHeight(|chain| - 1), cfg.ManagedStart();
    var start := FirstUnindexed(cfg, objects, managed, end);
    FirstUnindexedMeans(cfg, objects, managed, end);
    NotRefusedInit(cfg, objects, end);
    NextIndexWithin(cfg, tree, chain, start);
    var stop := PublishTo(cfg, start, |chain| - 1, end);
    AfterInitIs(cfg, tree, chain, objects);
    var blocks := InitialBlocks(cfg, tree, chain, objects, start, end);
    SettledIs(cfg, tree, chain, blocks, start, end);
    PublishIff(cfg, tree, chain, blocks, start, stop);
    InitialBlocksIff(cfg, tree, chain, objects, start, end, stop);
    SkippedIff(cfg, objects, chain, end);
    AgreeSplit(cfg, objects, chain, managed, start, stop);
  }

  lemma NotRefusedInit(cfg: Config, objects: Objects, end: nat)
    requires cfg.Valid() && !RefusesInit(cfg, objects, end) && cfg.ManagedStart() <= end
    ensures FirstUnindexed(cfg, objects, cfg.ManagedStart(), end) <= end + 1
  {
    hide FirstUnindexed, Config.ManagedStart;
  }

  lemma SettledIs(cfg: Config, tree: Tree, chain: seq<Hash>, objects: Objects, start: nat, end: nat)
    requires cfg.Valid() && IsChain(tree, chain) && end < |chain| <= MAX_U64
    requires PublishTo(cfg, start, |chain| - 1, end) <= |chain|
    ensures var t, stop := Settled(cfg, tree, chain, objects, start, end), PublishTo(cfg, start, |chain| - 1, end);
            t.f.nextIndexStart == stop && t.objects == PublishObjects(cfg, tree, chain, objects, start, stop)
  {
    hide IsChain, PublishTo, PublishObjects, Segment;
  }

  lemma InitialBlocksIff(cfg: Config, tree: Tree, chain: seq<Hash>, objects: Objects, start: nat, end: nat, stop: nat)
    requires IsChain(tree, chain) && end < |chain| && start <= |chain|
    ensures var blocks := InitialBlocks(cfg, tree, chain, objects, start, end);
            && (PublishedAs(cfg, blocks, chain, start) <==> PublishedAs(cfg, objects, chain, start))
            && (IndexesAgree(cfg, blocks, chain, start, stop) <==> IndexesAgree(cfg, objects, chain, start, stop))
  {
    hide IsChain, PublishedAs, IndexesAgree, AddBlocks, Probes.UploadStart;
    if start <= end {
      var probed := Probes.UploadStart(objects, chain, start, end, Probes.PROBE_STEP);
      Probes.UploadStartInSpan(objects, chain, start, end, Probes.PROBE_STEP);
      BlocksAboveIff(cfg, tree, chain, objects, probed, end + 1, start);
    }
  }

  /** After a later call that is not refused: if and only if they were so before it up to the next range, and every index
      that was there for a range it passed is the chain's. */
  lemma IncrementIndexesIff(cfg: Config, tree: Tree, chain: seq<Hash>, s: Sys)
    requires cfg.Valid() && WellFormed(tree) && IsChain(tree, chain) && |chain| <= MAX_U64
    requires Inv(cfg, tree, s.f) && s.f.initialized && Comparable(cfg, s.f, chain)
    requires cfg.fromHeight <= cfg.EndHeight(|chain| - 1) && !Refuses(cfg, s.f, chain, cfg.EndHeight(|chain| - 1))
    ensures var end := cfg.EndHeight(|chain| - 1);
            var stop := PublishTo(cfg, s.f.nextIndexStart, |chain| - 1, end);
            && s.f.nextIndexStart <= |chain|
            && AfterIncrement(cfg, tree, chain, s).f.nextIndexStart == stop
            && (PublishedAs(cfg, AfterIncrement(cfg, tree, chain, s).objects, chain, stop)
                <==> PublishedAs(cfg, s.objects, chain, s.f.nextIndexStart) && IndexesAgree(cfg, s.objects, chain, s.f.nextIndexStart, stop))
  {
    hide *;
    EndShown(cfg, tree, chain);
    FloorBelowEnd(cfg, s.f, chain);
    InvAligned(cfg, tree, s.f);
    var end, n := cfg.EndHeight(|chain| - 1), s.f.nextIndexStart;
    ForkAboveNext(cfg, tree, chain, s);
    NextIndexWithin(cfg, tree, chain, n);
    var stop := PublishTo(cfg, n, |chain| - 1, end);
    AfterIncrementIs(cfg, tree, chain, s);
    var blocks := Incremented(cfg, tree, chain, s);
    SettledIs(cfg, tree, chain, blocks, n, end);
    PublishIff(cfg, tree, chain, blocks, n, stop);
    BlocksAboveIff(cfg, tree, chain, s.objects, UploadFrom(cfg, s.f, chain, end), end + 1, n);
  }

  lemma ForkAboveNext(cfg: Config, tree: Tree, chain: seq<Hash>, s: Sys)
    requires WellFormed(tree) && IsChain(tree, chain) && Inv(cfg, tree, s.f) && s.f.initialized && Comparable(cfg, s.f, chain)
    requires cfg.fromHeight <= cfg.EndHeight(|chain| - 1) && !Refuses(cfg, s.f, chain, cfg.EndHeight(|chain| - 1))
    ensures s.f.nextIndexStart <= cfg.EndHeight(|chain| - 1) + 1
    ensures s.f.nextIndexStart <= UploadFrom(cfg, s.f, chain, cfg.EndHeight(|chain| - 1))
  {
    hide IsChain, WellFormed, UploadFrom, Below, Segment, Config.RangeSize, Config.ManagedStart, Cached;
    ManagedStartAligned(cfg);
    TrueFork(cfg, tree, s.f, chain);
  }

  // ----- whole runs, with faults

  /** Every index in the store was published for one of these chains, with its blocks. */
  ghost predicate FromChains(cfg: Config, objects: Objects, chains: seq<seq<Hash>>) {
    forall st: nat :: Index(cfg.RangeSize(), st) in objects ==> FromOne(objects, chains, st, cfg.RangeSize())
  }

  ghost predicate FromOne(objects: Objects, chains: seq<seq<Hash>>, st: nat, size: nat) {
    exists j :: 0 <= j < |chains| && RangeWhole(objects, chains[j], st, size)
  }

  /** An initialised follower has passed only ranges that have an index. */
  ghost predicate PassedIndexed(cfg: Config, s: Sys) {
    s.f.initialized ==>
      forall st: nat :: cfg.ManagedStart() <= st < s.f.nextIndexStart && st % cfg.RangeSize() == 0 ==> Index(cfg.RangeSize(), st) in s.objects
  }

  lemma CallGrows(cfg: Config, tree: Tree, chain: seq<Hash>, s: Sys, t: Sys, r: Result<FollowResult, Error>)
    requires cfg.Valid() && IsChain(tree, chain) && |chain| <= MAX_U64 && CallStep(cfg, tree, chain, s, t, r)
    ensures Grew(s.objects, t.objects)
  {
    hide IsChain, AfterIncrement, AfterInit, Refuses, RefusesInit, Reports, Refreshing, FollowerModel.Publishing,
      Comparable, Grew,
      FirstUnindexed;
    GrewReflexive(s.objects);
    if t.objects != s.objects && r.Success? {
      if s.f.initialized {
        Upload.IncrementGoalGrows(cfg, tree, chain, s);
      } else {
        InitGrows(cfg, tree, chain, s.objects);
      }
    }
  }

  lemma InitGrows(cfg: Config, tree: Tree, chain: seq<Hash>, objects: Objects)
    requires cfg.Valid() && IsChain(tree, chain) && |chain| <= MAX_U64
    ensures Grew(objects, AfterInit(cfg, tree, chain, objects).objects)
  {
    hide *;
    EndShown(cfg, tree, chain);
    AfterInitIs(cfg, tree, chain, objects);
    var end := cfg.EndHeight(|chain| - 1);
    Upload.InitGoalGrows(cfg, tree, chain, objects, FirstUnindexed(cfg, objects, cfg.ManagedStart(), end), end);
  }

  lemma FromChainsKept(cfg: Config, chain: seq<Hash>, before: Objects, after: Objects, chains: seq<seq<Hash>>)
    requires FromChains(cfg, before, chains) && Grew(before, after) && NewIndexesWhole(cfg, chain, before, after)
    ensures FromChains(cfg, after, chains + [chain])
  {
    hide RangeWhole, Config.RangeSize;
    var all := chains + [chain];
    forall st: nat | Index(cfg.RangeSize(), st) in after ensures FromOne(after, all, st, cfg.RangeSize()) {
      if Index(cfg.RangeSize(), st) in before {
        var j :| 0 <= j < |chains| && RangeWhole(before, chains[j], st, cfg.RangeSize());
        Upload.WholeStays(before, after, chains[j], st, cfg.RangeSize());
        assert all[j] == chains[j];
      } else {
        assert RangeWhole(after, all[|chains|], st, cfg.RangeSize());
      }
    }
  }

  lemma PublishedPasses(cfg: Config, tree: Tree, chain: seq<Hash>, before: Objects, after: Objects, start: nat, n: nat)
    requires IsChain(tree, chain) && start <= n && start % cfg.RangeSize() == 0 && n % cfg.RangeSize() == 0
    requires start < n ==> n <= |chain| && Grew(PublishObjects(cfg, tree, chain, before, start, n), after)
    requires Grew(before, after)
    requires forall st: nat :: cfg.ManagedStart() <= st < start && st % cfg.RangeSize() == 0 ==> Index(cfg.RangeSize(), st) in before
    ensures forall st: nat :: cfg.ManagedStart() <= st < n && st % cfg.RangeSize() == 0 ==> Index(cfg.RangeSize(), st) in after
  {
    hide IsChain, PublishObjects, Config.ManagedStart, Config.RangeSize;
    forall st: nat | cfg.ManagedStart() <= st < n && st % cfg.RangeSize() == 0 ensures Index(cfg.RangeSize(), st) in after {
      if st >= start {
        Pub.PublishedMeans(cfg, tree, chain, before, start, n, st);
      }
    }
  }

  lemma IncrementPasses(cfg: Config, tree: Tree, chain: seq<Hash>, s: Sys)
    requires cfg.Valid() && WellFormed(tree) && IsChain(tree, chain) && |chain| <= MAX_U64
    requires Inv(cfg, tree, s.f) && s.f.initialized && Comparable(cfg, s.f, chain) && PassedIndexed(cfg, s)
    requires cfg.fromHeight <= cfg.EndHeight(|chain| - 1) && !Refuses(cfg, s.f, chain, cfg.EndHeight(|chain| - 1))
    ensures PassedIndexed(cfg, AfterIncrement(cfg, tree, chain, s))
  {
    hide WellFormed, IsChain, Inv, Comparable, Refuses, AfterIncrement, PublishObjects, Config.ManagedStart,
      Config.RangeSize, Incremented, Grew,
      FollowerModel.PublishTo;
    EndShown(cfg, tree, chain);
    InvAligned(cfg, tree, s.f);
    ForkAboveNext(cfg, tree, chain, s);
    var end, n := cfg.EndHeight(|chain| - 1), s.f.nextIndexStart;
    NextIndexWithin(cfg, tree, chain, n);
    AfterIncrementIs(cfg, tree, chain, s);
    var blocks, t := Incremented(cfg, tree, chain, s), AfterIncrement(cfg, tree, chain, s);
    SettledIs(cfg, tree, chain, blocks, n, end);
    Upload.IncrementGoalGrows(cfg, tree, chain, s);
    GrewReflexive(t.objects);
    PassedMore(cfg, s.objects, blocks, n);
    PublishedPasses(cfg, tree, chain, blocks, t.objects, n, t.f.nextIndexStart);
  }

  lemma PassedMore(cfg: Config, before: Objects, after: Objects, n: nat)
    requires Grew(before, after)
    requires forall st: nat :: cfg.ManagedStart() <= st < n && st % cfg.RangeSize() == 0 ==> Index(cfg.RangeSize(), st) in before
    ensures forall st: nat :: cfg.ManagedStart() <= st < n && st % cfg.RangeSize() == 0 ==> Index(cfg.RangeSize(), st) in after
  {
    hide Config.ManagedStart, Config.RangeSize;
  }

  lemma InitPasses(cfg: Config, tree: Tree, chain: seq<Hash>, objects: Objects)
    requires cfg.Valid() && IsChain(tree, chain) && |chain| <= MAX_U64
    requires cfg.fromHeight <= cfg.EndHeight(|chain| - 1) && !RefusesInit(cfg, objects, cfg.EndHeight(|chain| - 1))
    ensures PassedIndexed(cfg, AfterInit(cfg, tree, chain, objects))
  {
    hide IsChain, RefusesInit, AfterInit, PublishObjects, Config.ManagedStart, Config.RangeSize, InitialBlocks, Grew,
      FirstUnindexed,
      FollowerModel.PublishTo;
    EndShown(cfg, tree, chain);
    ManagedStartAligned(cfg);
    var end, managed := cfg.EndHeight(|chain| - 1), cfg.ManagedStart();
    var start := FirstUnindexed(cfg, objects, managed, end);
    FirstUnindexedMeans(cfg, objects, managed, end);
    NotRefusedInit(cfg, objects, end);
    NextIndexWithin(cfg, tree, chain, start);
    AfterInitIs(cfg, tree, chain, objects);
    var blocks, t := InitialBlocks(cfg, tree, chain, objects, start, end), AfterInit(cfg, tree, chain, objects);
    SettledIs(cfg, tree, chain, blocks, start, end);
    Upload.InitGoalGrows(cfg, tree, chain, objects, start, end);
    GrewReflexive(t.objects);
    PassedMore(cfg, objects, blocks, start);
    PublishedPasses(cfg, tree, chain, blocks, t.objects, start, t.f.nextIndexStart);
  }

  lemma PublishingPasses(cfg: Config, tree: Tree, chain: seq<Hash>, s: Sys, t: Sys)
    requires cfg.Valid() && WellFormed(tree) && IsChain(tree, chain) && |chain| <= MAX_U64
    requires Inv(cfg, tree, s.f) && s.f.initialized && Comparable(cfg, s.f, chain) && PassedIndexed(cfg, s)
    requires cfg.fromHeight <= cfg.EndHeight(|chain| - 1) && !Refuses(cfg, s.f, chain, cfg.EndHeight(|chain| - 1))
    requires FollowerModel.Publishing(cfg, tree, chain, s, t) && Grew(s.objects, t.objects)
    ensures PassedIndexed(cfg, t)
  {
    hide WellFormed, IsChain, Inv, Comparable, Refuses, PublishObjects, Config.ManagedStart, Config.RangeSize,
      Incremented, Grew,
      FollowerModel.PublishTo, FollowerModel.Publishing, Segment;
    EndShown(cfg, tree, chain);
    InvAligned(cfg, tree, s.f);
    PublishingShape(cfg, tree, chain, s, t);
    var end, start, n := cfg.EndHeight(|chain| - 1), s.f.nextIndexStart, t.f.nextIndexStart;
    ForkAboveNext(cfg, tree, chain, s);
    NextIndexWithin(cfg, tree, chain, start);
    Pub.PublishToReached(cfg, n, |chain| - 1, end);
    var blocks := Incremented(cfg, tree, chain, s);
    Upload.IncrementGoalGrows(cfg, tree, chain, s);
    PassedMore(cfg, s.objects, blocks, start);
    Pub.PublishGrows(cfg, tree, chain, blocks, start, n);
    GrewTransitive(blocks, PublishObjects(cfg, tree, chain, blocks, start, n), t.objects);
    PublishedPasses(cfg, tree, chain, blocks, t.objects, start, n);
  }

  /** Faulty or not, a call passes only ranges that have an index. */
  lemma PassedKept(cfg: Config, tree: Tree, chain: seq<Hash>, s: Sys, t: Sys, r: Result<FollowResult, Error>)
    requires cfg.Valid() && WellFormed(tree) && IsChain(tree, chain) && |chain| <= MAX_U64
    requires Inv(cfg, tree, s.f) && PassedIndexed(cfg, s) && CallStep(cfg, tree, chain, s, t, r)
    ensures PassedIndexed(cfg, t)
  {
    hide WellFormed, IsChain, Inv, Comparable, Refuses, RefusesInit, AfterIncrement, AfterInit, Reports, Refreshing,
      FollowerModel.Publishing,
      Grew, PassedIndexed, FirstUnindexed, Config.ManagedStart, Config.RangeSize;
    CallGrows(cfg, tree, chain, s, t, r);
    if t != s && cfg.fromHeight <= cfg.EndHeight(|chain| - 1) {
      if r.Success? {
        if s.f.initialized {
          IncrementPasses(cfg, tree, chain, s);
        } else {
          InitPasses(cfg, tree, chain, s.objects);
        }
      } else if !t.f.initialized {
        NothingPassed(cfg, t);
      } else if t.f == s.f {
        SamePassed(cfg, s, t);
      } else if Refreshing(cfg, tree, chain, s, t) {
        RefreshingKeeps(cfg, tree, chain, s, t);
        SamePassed(cfg, s, t);
      } else {
        PublishingPasses(cfg, tree, chain, s, t);
      }
    }
  }

  lemma NothingPassed(cfg: Config, t: Sys)
    requires !t.f.initialized
    ensures PassedIndexed(cfg, t)
  {
  }

  lemma SamePassed(cfg: Config, s: Sys, t: Sys)
    requires PassedIndexed(cfg, s) && Grew(s.objects, t.objects) && t.f == s.f.(recent := t.f.recent)
    ensures PassedIndexed(cfg, t)
  {
    hide Config.ManagedStart, Config.RangeSize;
  }

  /** A bin tells the hashes it was made of. */
  lemma BinsTell(tree: Tree, c: seq<Hash>, d: seq<Hash>, st: nat, size: nat, h: nat)
    requires WellFormed(tree) && IsChain(tree, c) && IsChain(tree, d)
    requires st <= h < st + size && st + size <= |c| && st + size <= |d| && RangeBin(c, st, size) == RangeBin(d, st, size)
    ensures c[h] == d[h]
  {
    hide WellFormed, IsChain, RangeBin, RangeIndex.HashAt;
    RangeBinAnswers(tree, c, st, size, h);
    RangeBinAnswers(tree, d, st, size, h);
  }

  /** Where each index came with its blocks, indexes that agree with the chain are enough. */
  lemma AgreeMeansPublished(cfg: Config, tree: Tree, objects: Objects, chains: seq<seq<Hash>>, c: seq<Hash>, n: nat)
    requires WellFormed(tree) && IsChain(tree, c) && forall j :: 0 <= j < |chains| ==> IsChain(tree, chains[j])
    requires FromChains(cfg, objects, chains) && IndexesAgree(cfg, objects, c, cfg.ManagedStart(), n)
    requires cfg.ManagedStart() <= n <= |c| && n % cfg.RangeSize() == 0
    requires forall st: nat :: cfg.ManagedStart() <= st < n && st % cfg.RangeSize() == 0 ==> Index(cfg.RangeSize(), st) in objects
    ensures PublishedAs(cfg, objects, c, n)
  {
    hide WellFormed, IsChain, RangeBin, Config.ManagedStart, Config.RangeSize;
    var size := cfg.RangeSize();
    ManagedStartAligned(cfg);
    forall st: nat | cfg.ManagedStart() <= st < n && st % size == 0 ensures st + size <= n {
      AlignedGap(st, n, size);
    }
    forall h: nat | cfg.ManagedStart() <= h < n ensures Stored(objects, c, h) {
      var st := RangeIndex.StartHeight(h, size).value;
      RangeIndex.StartHeightCovers(h, size);
      if st < cfg.ManagedStart() {
        AlignedGap(st, cfg.ManagedStart(), size);
      }
      assert Index(size, st) in objects;
      assert FromOne(objects, chains, st, size);
      var j :| 0 <= j < |chains| && RangeWhole(objects, chains[j], st, size);
      BinsTell(tree, c, chains[j], st, size, h);
      assert Stored(objects, chains[j], h);
    }
  }

  function ChainsOf(events: seq<Event>, i: nat): seq<seq<Hash>>
    requires i <= |events|
  {
    seq(i, j requires 0 <= j < i => events[j].chain)
  }

  /** A run of a fresh follower over a store without indexes. */
  ghost predicate FreshRun(cfg: Config, tree: Tree, states: seq<Sys>, events: seq<Event>) {
    && IsRun(cfg, tree, states, events)
    && states[0].f == Follower(false, 0, cfg.ManagedStart(), map[])
    && forall st: nat :: Index(cfg.RangeSize(), st) !in states[0].objects
  }

  /** Over every run, faults and all: each index was published, blocks first, for a chain that some call saw, and the follower
      has passed only ranges that have one. */
  lemma {:induction false} RunsKeepIndexes(cfg: Config, tree: Tree, states: seq<Sys>, events: seq<Event>, i: nat)
    requires FreshRun(cfg, tree, states, events) && i < |states|
    ensures FromChains(cfg, states[i].objects, ChainsOf(events, i)) && PassedIndexed(cfg, states[i])
    ensures Inv(cfg, tree, states[i].f)
    decreases i
  {
    hide Inv, CallStep, IsChain, WellFormed, NewIndexesWhole, FirstInOrder, FromOne, Grew, Config.RangeSize,
      Config.ManagedStart;
    FreshFollower(cfg, tree);
    if i > 0 {
      hide PassedIndexed, FromChains;
      RunsKeepIndexes(cfg, tree, states, events, i - 1);
      var e, s, t := events[i - 1], states[i - 1], states[i];
      EndShown(cfg, tree, e.chain);
      InvKept(cfg, tree, e.chain, s, t, e.result);
      CallGrows(cfg, tree, e.chain, s, t, e.result);
      PassedKept(cfg, tree, e.chain, s, t, e.result);
      FromChainsKept(cfg, e.chain, s.objects, t.objects, ChainsOf(events, i - 1));
      assert ChainsOf(events, i) == ChainsOf(events, i - 1) + [e.chain];
    }
  }

  /** Published indexes over whole runs with any faults. After a successful call past the FromHeight check the passed ranges
      are published as the current chain has them if and only if every index that the call found for one of them is the
      current chain's: a stale index is the only thing that can go wrong. */
  lemma RunsPublishIff(cfg: Config, tree: Tree, states: seq<Sys>, events: seq<Event>, i: nat)
    requires FreshRun(cfg, tree, states, events) && 0 < i < |states| && Settles(cfg, events[i - 1])
    ensures IsChain(tree, events[i - 1].chain) && 0 < |events[i - 1].chain| <= MAX_U64
    ensures var s, chain := states[i - 1], events[i - 1].chain;
            var stop := NextIndex(cfg, s, chain);
            && states[i].f.nextIndexStart == stop
            && (PublishedAs(cfg, states[i].objects, chain, stop) <==> IndexesAgree(cfg, s.objects, chain, cfg.ManagedStart(), stop))
  {
    hide Inv, CallStep, IsChain, WellFormed, WritesInOrder, FromChains, PassedIndexed, PublishedAs, IndexesAgree,
      FirstUnindexed,
      Config.RangeSize, Config.ManagedStart;
    var e, s, t := events[i - 1], states[i - 1], states[i];
    EndShown(cfg, tree, e.chain);
    RunsKeepIndexes(cfg, tree, states, events, i - 1);
    var chains := ChainsOf(events, i - 1);
    assert forall j :: 0 <= j < |chains| ==> chains[j] == events[j].chain;
    if s.f.initialized {
      IncrementPublishes(cfg, tree, e.chain, s, t, e.result, chains);
    } else {
      InitPublishes(cfg, tree, e.chain, s, t, e.result, chains);
    }
  }

  lemma InitPublishes(cfg: Config, tree: Tree, chain: seq<Hash>, s: Sys, t: Sys, r: Result<FollowResult, Error>,
          chains: seq<seq<Hash>>)
    requires cfg.Valid() && WellFormed(tree) && IsChain(tree, chain) && 0 < |chain| <= MAX_U64
    requires CallStep(cfg, tree, chain, s, t, r) && r.Success? && cfg.fromHeight <= cfg.EndHeight(|chain| - 1) && !s.f.initialized
    requires FromChains(cfg, s.objects, chains) && forall j :: 0 <= j < |chains| ==> IsChain(tree, chains[j])
    ensures var stop := NextIndex(cfg, s, chain);
            && t.f.nextIndexStart == stop
            && (PublishedAs(cfg, t.objects, chain, stop) <==> IndexesAgree(cfg, s.objects, chain, cfg.ManagedStart(), stop))
  {
    hide WellFormed, IsChain, FromChains, PublishedAs, IndexesAgree, FirstUnindexed, AfterInit, AfterIncrement,
      Comparable, Refuses,
      RefusesInit, Reports, BlocksThere, Config.RangeSize, Config.ManagedStart;
    var end, managed := cfg.EndHeight(|chain| - 1), cfg.ManagedStart();
    var start := FirstUnindexed(cfg, s.objects, managed, end);
    InitIndexesIff(cfg, tree, chain, s.objects);
    ManagedStartAligned(cfg);
    FirstUnindexedMeans(cfg, s.objects, managed, end);
    NotRefusedInit(cfg, s.objects, end);
    NextIndexWithin(cfg, tree, chain, start);
    AgreeSplit(cfg, s.objects, chain, managed, start, NextIndex(cfg, s, chain));
    SkippedIff(cfg, s.objects, chain, end);
    if IndexesAgree(cfg, s.objects, chain, managed, start) {
      AgreeMeansPublished(cfg, tree, s.objects, chains, chain, start);
    }
  }

  lemma IncrementPublishes(cfg: Config, tree: Tree, chain: seq<Hash>, s: Sys, t: Sys, r: Result<FollowResult, Error>,
          chains: seq<seq<Hash>>)
    requires cfg.Valid() && WellFormed(tree) && IsChain(tree, chain) && 0 < |chain| <= MAX_U64
    requires CallStep(cfg, tree, chain, s, t, r) && r.Success? && cfg.fromHeight <= cfg.EndHeight(|chain| - 1) && s.f.initialized
    requires FromChains(cfg, s.objects, chains) && forall j :: 0 <= j < |chains| ==> IsChain(tree, chains[j])
    requires Inv(cfg, tree, s.f) && PassedIndexed(cfg, s)
    ensures var stop := NextIndex(cfg, s, chain);
            && t.f.nextIndexStart == stop
            && (PublishedAs(cfg, t.objects, chain, stop) <==> IndexesAgree(cfg, s.objects, chain, cfg.ManagedStart(), stop))
  {
    hide WellFormed, IsChain, Inv, FromChains, PublishedAs, IndexesAgree, FirstUnindexed, AfterInit, AfterIncrement,
      Comparable, Refuses,
      RefusesInit, Reports, Config.RangeSize, Config.ManagedStart;
    var n, managed := s.f.nextIndexStart, cfg.ManagedStart();
    IncrementIndexesIff(cfg, tree, chain, s);
    InvAligned(cfg, tree, s.f);
    ForkAboveNext(cfg, tree, chain, s);
    NextIndexWithin(cfg, tree, chain, n);
    AgreeSplit(cfg, s.objects, chain, managed, n, NextIndex(cfg, s, chain));
    if IndexesAgree(cfg, s.objects, chain, managed, n) {
      AgreeMeansPublished(cfg, tree, s.objects, chains, chain, n);
    }
    if PublishedAs(cfg, s.objects, chain, n) {
      PublishedAgrees(cfg, s.objects, chain, n);
    }
  }

  lemma PublishedAgrees(cfg: Config, objects: Objects, chain: seq<Hash>, n: nat)
    requires PublishedAs(cfg, objects, chain, n)
    ensures IndexesAgree(cfg, objects, chain, cfg.ManagedStart(), n)
  {
    hide RangeBin, Config.RangeSize, Config.ManagedStart;
  }

  /** As long as every chain so far is a part of one chain, no fault can do harm. */
  lemma OneBranchPublishes(cfg: Config, tree: Tree, states: seq<Sys>, events: seq<Event>, i: nat, top: seq<Hash>)
    requires FreshRun(cfg, tree, states, events) && 0 < i < |states| && Settles(cfg, events[i - 1])
    requires forall j :: 0 <= j < i ==> events[j].chain <= top
    ensures PublishedAs(cfg, states[i].objects, events[i - 1].chain, states[i].f.nextIndexStart)
  {
    hide CallStep, IsChain, WellFormed, WritesInOrder, PassedIndexed, PublishedAs, RangeBin, Config.RangeSize,
      Config.ManagedStart,
      NextIndex, Inv;
    RunsPublishIff(cfg, tree, states, events, i);
    RunsKeepIndexes(cfg, tree, states, events, i - 1);
    RunsKeepIndexes(cfg, tree, states, events, i);
    var s, chain, stop := states[i - 1], events[i - 1].chain, states[i].f.nextIndexStart;
    NextWithinChain(cfg, tree, chain, s, states[i], events[i - 1].result);
    var chains, size := ChainsOf(events, i - 1), cfg.RangeSize();
    forall st: nat | cfg.ManagedStart() <= st < stop && st % size == 0 && Index(size, st) in s.objects
      ensures st + size <= |chain| && s.objects[Index(size, st)] == RangeBin(chain, st, size)
    {
      InvAligned(cfg, tree, states[i].f);
      AlignedGap(st, stop, size);
      assert FromOne(s.objects, chains, st, size);
      var j :| 0 <= j < |chains| && RangeWhole(s.objects, chains[j], st, size);
      assert chains[j] == events[j].chain;
      SameBinBelow(chains[j], chain, top, st, size);
    }
  }

  lemma SameBinBelow(c: seq<Hash>, d: seq<Hash>, top: seq<Hash>, st: nat, size: nat)
    requires c <= top && d <= top && st + size <= |c| && st + size <= |d|
    ensures RangeBin(c, st, size) == RangeBin(d, st, size)
  {
    assert c[st..st + size] == top[st..st + size];
    assert d[st..st + size] == top[st..st + size];
    hide *;
  }

  lemma NextWithinChain(cfg: Config, tree: Tree, chain: seq<Hash>, s: Sys, t: Sys, r: Result<FollowResult, Error>)
    requires cfg.Valid() && WellFormed(tree) && IsChain(tree, chain) && |chain| <= MAX_U64 && Inv(cfg, tree, s.f)
    requires CallStep(cfg, tree, chain, s, t, r) && r.Success? && cfg.fromHeight <= cfg.EndHeight(|chain| - 1)
    ensures t.f.nextIndexStart <= |chain|
  {
    hide WellFormed, IsChain, Inv, FirstUnindexed, AfterInit, AfterIncrement, Comparable, Refuses, RefusesInit, Reports,
      Config.RangeSize,
      Config.ManagedStart, FollowerModel.PublishTo;
    EndShown(cfg, tree, chain);
    ManagedStartAligned(cfg);
    var end := cfg.EndHeight(|chain| - 1);
    if s.f.initialized {
      IncrementIndexesIff(cfg, tree, chain, s);
      InvAligned(cfg, tree, s.f);
      ForkAboveNext(cfg, tree, chain, s);
      NextIndexWithin(cfg, tree, chain, s.f.nextIndexStart);
    } else {
      InitIndexesIff(cfg, tree, chain, s.objects);
      FirstUnindexedMeans(cfg, s.objects, cfg.ManagedStart(), end);
      NotRefusedInit(cfg, s.objects, end);
      NextIndexWithin(cfg, tree, chain, FirstUnindexed(cfg, s.objects, cfg.ManagedStart(), end));
    }
  }
}
