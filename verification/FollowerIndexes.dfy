/** Published indexes agree with the chain, in runs of one follower without faults that start with no index. */
module FollowerIndexes {
  import opened Prelude
  import opened ObjectKeys
  import opened BlockTree
  import opened Services
  import opened Ranges
  import opened FollowerModel
  import opened FollowerCache
  import opened FollowerRuns
  import FollowerTail
  import Probes
  import Pub = Publishing
  import RangeIndex

  /** Every range from the managed start up to n is published as the chain c has it, and its blocks are stored. */
  ghost predicate PublishedAs(cfg: Config, objects: Objects, c: seq<Hash>, n: nat) {
    && n <= |c|
    && (forall st: nat :: cfg.ManagedStart() <= st < n && st % cfg.RangeSize() == 0 ==>
          st + cfg.RangeSize() <= n && Index(cfg.RangeSize(), st) in objects
          && objects[Index(cfg.RangeSize(), st)] == RangeBin(c, st, cfg.RangeSize()))
    && (forall h: nat :: cfg.ManagedStart() <= h < n ==> Stored(objects, c, h))
  }

  /** No range from n on, and none below the managed start, has an index. */
  ghost predicate NoOtherIndex(cfg: Config, objects: Objects, n: nat) {
    forall st: nat :: Index(cfg.RangeSize(), st) in objects ==> cfg.ManagedStart() <= st < n
  }

  /** The published ranges are those of the chain that ends in the recorded boundary hash. */
  ghost predicate IndexInv(cfg: Config, tree: Tree, s: Sys) {
    && NoOtherIndex(cfg, s.objects, s.f.nextIndexStart)
    && (!s.f.initialized ==> s.f.nextIndexStart == cfg.ManagedStart())
    && (Published(cfg, s.f.nextIndexStart) ==>
          s.f.nextIndexStart - 1 in s.f.recent && OnBoundary(cfg, tree, s.objects, s.f.nextIndexStart, s.f.recent[s.f.nextIndexStart - 1]))
  }

  ghost predicate OnBoundary(cfg: Config, tree: Tree, objects: Objects, n: nat, boundary: Hash)
    requires n > 0
  {
    exists c :: IsChain(tree, c) && n <= |c| && c[n - 1] == boundary && PublishedAs(cfg, objects, c, n)
  }

  /** Seen from any chain through the boundary the published ranges are its own. */
  lemma SeenFrom(cfg: Config, tree: Tree, objects: Objects, n: nat, chain: seq<Hash>)
    requires WellFormed(tree) && IsChain(tree, chain) && 0 < n <= |chain| && OnBoundary(cfg, tree, objects, n, chain[n - 1])
    ensures PublishedAs(cfg, objects, chain, n)
  {
    hide Config.ManagedStart, Config.RangeSize, IsChain, WellFormed, RangeBin;
    var c :| IsChain(tree, c) && n <= |c| && c[n - 1] == chain[n - 1] && PublishedAs(cfg, objects, c, n);
    SameHashSamePast(tree, c, chain, n - 1);
    SamePrefixPublished(cfg, objects, c, chain, n);
  }

  lemma SamePrefixPublished(cfg: Config, objects: Objects, c: seq<Hash>, chain: seq<Hash>, n: nat)
    requires n <= |c| && n <= |chain| && c[..n] == chain[..n] && PublishedAs(cfg, objects, c, n)
    ensures PublishedAs(cfg, objects, chain, n)
  {
    hide RangeBin, Config.ManagedStart, Config.RangeSize;
    forall st: nat | cfg.ManagedStart() <= st < n && st % cfg.RangeSize() == 0
      ensures st + cfg.RangeSize() <= n && Index(cfg.RangeSize(), st) in objects
      ensures objects[Index(cfg.RangeSize(), st)] == RangeBin(chain, st, cfg.RangeSize())
    {
      assert Index(cfg.RangeSize(), st) in objects;
      SameBin(c, chain, n, st, cfg.RangeSize());
    }
    forall h: nat | cfg.ManagedStart() <= h < n ensures Stored(objects, chain, h) {
      assert Stored(objects, c, h) && c[..n][h] == chain[..n][h];
    }
  }

  lemma SameBin(c: seq<Hash>, chain: seq<Hash>, n: nat, st: nat, size: nat)
    requires st + size <= n <= |c| && n <= |chain| && c[..n] == chain[..n]
    ensures RangeBin(c, st, size) == RangeBin(chain, st, size)
  {
    assert c[st..st + size] == c[..n][st..st + size];
    assert chain[st..st + size] == chain[..n][st..st + size];
    hide *;
  }

  /** Publishing further ranges of the same chain. */
  lemma PublishMore(cfg: Config, tree: Tree, chain: seq<Hash>, before: Objects, start: nat, stop: nat)
    requires IsChain(tree, chain) && cfg.ManagedStart() <= start <= stop <= |chain|
    requires start % cfg.RangeSize() == 0 && stop % cfg.RangeSize() == 0
    requires PublishedAs(cfg, before, chain, start) && NoOtherIndex(cfg, before, start)
    ensures var after := PublishObjects(cfg, tree, chain, before, start, stop);
            PublishedAs(cfg, after, chain, stop) && NoOtherIndex(cfg, after, stop)
  {
    hide Config.ManagedStart, Config.RangeSize, IsChain, PublishObjects, RangeBin;
    var after := PublishObjects(cfg, tree, chain, before, start, stop);
    Pub.PublishGrows(cfg, tree, chain, before, start, stop);
    forall st: nat | cfg.ManagedStart() <= st < stop && st % cfg.RangeSize() == 0
      ensures st + cfg.RangeSize() <= stop && Index(cfg.RangeSize(), st) in after
      ensures after[Index(cfg.RangeSize(), st)] == RangeBin(chain, st, cfg.RangeSize())
    {
      Pub.PublishedMeans(cfg, tree, chain, before, start, stop, st);
      if st < start {
        AlignedGap(st, stop, cfg.RangeSize());
        assert Index(cfg.RangeSize(), st) in before;
      } else {
        assert Index(cfg.RangeSize(), st) !in before;
      }
    }
    forall h: nat | cfg.ManagedStart() <= h < stop ensures Stored(after, chain, h) {
      Pub.PublishedMeans(cfg, tree, chain, before, start, stop, h);
      assert h < start ==> Stored(before, chain, h);
    }
    forall st: nat | Index(cfg.RangeSize(), st) in after ensures cfg.ManagedStart() <= st < stop {
      Pub.PublishedMeans(cfg, tree, chain, before, start, stop, st);
    }
  }

  /** Uploading blocks neither adds an index nor takes anything away. */
  lemma BlocksKeepIndexes(cfg: Config, tree: Tree, chain: seq<Hash>, c: seq<Hash>, before: Objects, lo: nat, hi: nat,
          n: nat)
    requires IsChain(tree, chain) && hi <= |chain|
    requires PublishedAs(cfg, before, c, n) && NoOtherIndex(cfg, before, n)
    ensures var after := AddBlocks(tree, before, chain, lo, hi); PublishedAs(cfg, after, c, n) && NoOtherIndex(cfg, after, n)
  {
    hide Config.ManagedStart, Config.RangeSize, IsChain, RangeBin;
    var after := AddBlocks(tree, before, chain, lo, hi);
    forall h: nat | cfg.ManagedStart() <= h < n ensures Stored(after, c, h) {
      assert Stored(before, c, h);
    }
  }

  lemma NothingPublishedYet(cfg: Config, objects: Objects, chain: seq<Hash>)
    requires cfg.ManagedStart() <= |chain|
    ensures PublishedAs(cfg, objects, chain, cfg.ManagedStart())
  {
  }

  lemma SettledIndexes(cfg: Config, tree: Tree, chain: seq<Hash>, objects: Objects, start: nat, end: nat)
    requires cfg.Valid() && WellFormed(tree) && IsChain(tree, chain) && end < |chain| <= MAX_U64
    requires cfg.ManagedStart() <= start && start % cfg.RangeSize() == 0 && Floor(cfg, start) <= end
    requires cfg.ManagedStart() <= end
    requires PublishedAs(cfg, objects, chain, start) && NoOtherIndex(cfg, objects, start)
    ensures var t := Settled(cfg, tree, chain, objects, start, end);
            IndexInv(cfg, tree, t) && PublishedAs(cfg, t.objects, chain, t.f.nextIndexStart)
  {
    hide Config.ManagedStart, Config.RangeSize, IsChain, WellFormed, PublishObjects, PublishTo, PublishedAs, NoOtherIndex;
    var stop := PublishTo(cfg, start, |chain| - 1, end);
    Pub.PublishToMeans(cfg, start, |chain| - 1, end);
    PublishMore(cfg, tree, chain, objects, start, stop);
    if Published(cfg, stop) {
      BoundaryOf(cfg, tree, PublishObjects(cfg, tree, chain, objects, start, stop), stop, chain);
    }
  }

  lemma BoundaryOf(cfg: Config, tree: Tree, objects: Objects, n: nat, chain: seq<Hash>)
    requires IsChain(tree, chain) && 0 < n <= |chain| && PublishedAs(cfg, objects, chain, n)
    ensures OnBoundary(cfg, tree, objects, n, chain[n - 1])
  {
  }

  lemma NoIndexFirst(cfg: Config, objects: Objects, end: nat)
    requires cfg.Valid() && NoOtherIndex(cfg, objects, cfg.ManagedStart())
    ensures FirstUnindexed(cfg, objects, cfg.ManagedStart(), end) == cfg.ManagedStart()
  {
  }

  /** A call without faults keeps the published ranges those of the boundary's chain; and a successful one shows them to
      be those of the current chain. */
  lemma IndexKept(cfg: Config, tree: Tree, chain: seq<Hash>, s: Sys, t: Sys, r: Result<FollowResult, Error>)
    requires cfg.Valid() && WellFormed(tree) && IsChain(tree, chain) && |chain| <= MAX_U64
    requires Inv(cfg, tree, s.f) && IndexInv(cfg, tree, s) && CallStep(cfg, tree, chain, s, t, r) && r != Failure(Fault)
    ensures IndexInv(cfg, tree, t)
    ensures r.Success? && cfg.fromHeight <= cfg.EndHeight(|chain| - 1) ==> PublishedAs(cfg, t.objects, chain, t.f.nextIndexStart)
  {
    var end := cfg.EndHeight(|chain| - 1);
    hide Config.ManagedStart, Config.RangeSize, IsChain, WellFormed, Inv, Refuses, Incremented, AfterIncrement,
      AfterInit, Reports, PublishedAs, NoOtherIndex, FirstUnindexed, Comparable, OnBoundary;
    ManagedStartAligned(cfg);
    if cfg.fromHeight <= end && t != s {
      if s.f.initialized {
        IndexIncrement(cfg, tree, chain, s);
      } else {
        NoIndexFirst(cfg, s.objects, end);
        IndexInit(cfg, tree, chain, s.objects);
      }
    }
    if cfg.fromHeight <= end && r.Success? && s.f.initialized {
      IndexIncrement(cfg, tree, chain, s);
    }
  }

  lemma IndexIncrement(cfg: Config, tree: Tree, chain: seq<Hash>, s: Sys)
    requires cfg.Valid() && WellFormed(tree) && IsChain(tree, chain) && |chain| <= MAX_U64
    requires Inv(cfg, tree, s.f) && IndexInv(cfg, tree, s) && s.f.initialized && Comparable(cfg, s.f, chain)
    requires cfg.fromHeight <= cfg.EndHeight(|chain| - 1) && !Refuses(cfg, s.f, chain, cfg.EndHeight(|chain| - 1))
    ensures var t := AfterIncrement(cfg, tree, chain, s);
            IndexInv(cfg, tree, t) && PublishedAs(cfg, t.objects, chain, t.f.nextIndexStart)
  {
    hide *;
    ManagedStartAligned(cfg);
    EndShown(cfg, tree, chain);
    FloorBelowEnd(cfg, s.f, chain);
    AfterIncrementIs(cfg, tree, chain, s);
    var end, n := cfg.EndHeight(|chain| - 1), s.f.nextIndexStart;
    InvAligned(cfg, tree, s.f);
    BoundarySeen(cfg, tree, chain, s);
    BlocksKeepIndexes(cfg, tree, chain, chain, s.objects, UploadFrom(cfg, s.f, chain, end), end + 1, n);
    SettledIndexes(cfg, tree, chain, Incremented(cfg, tree, chain, s), n, end);
  }

  lemma EndShown(cfg: Config, tree: Tree, chain: seq<Hash>)
    requires IsChain(tree, chain)
    ensures |chain| > 0 && cfg.EndHeight(|chain| - 1) < |chain|
  {
  }

  lemma AfterIncrementIs(cfg: Config, tree: Tree, chain: seq<Hash>, s: Sys)
    requires cfg.Valid() && IsChain(tree, chain) && |chain| <= MAX_U64 && Comparable(cfg, s.f, chain)
    ensures var end := cfg.EndHeight(|chain| - 1);
            && Incremented(cfg, tree, chain, s) == AddBlocks(tree, s.objects, chain, UploadFrom(cfg, s.f, chain, end), end + 1)
            && AfterIncrement(cfg, tree, chain, s) == Settled(cfg, tree, chain, Incremented(cfg, tree, chain, s), s.f.nextIndexStart, end)
  {
    hide AddBlocks, UploadFrom, Settled, IsChain;
  }

  lemma AfterInitIs(cfg: Config, tree: Tree, chain: seq<Hash>, objects: Objects)
    requires cfg.Valid() && IsChain(tree, chain) && |chain| <= MAX_U64
    ensures var end := cfg.EndHeight(|chain| - 1);
            var start := FirstUnindexed(cfg, objects, cfg.ManagedStart(), end);
            var probed := if start > end then 0 else Probes.UploadStart(objects, chain, start, end, Probes.PROBE_STEP);
            var blocks := InitialBlocks(cfg, tree, chain, objects, start, end);
            && (start <= end ==> blocks == AddBlocks(tree, objects, chain, probed, end + 1))
            && AfterInit(cfg, tree, chain, objects) == Settled(cfg, tree, chain, blocks, start, end)
  {
    hide AddBlocks, Probes.UploadStart, Settled, IsChain, FirstUnindexed, Config.ManagedStart;
  }

  lemma FloorBelowEnd(cfg: Config, f: Follower, chain: seq<Hash>)
    requires Comparable(cfg, f, chain)
    ensures Floor(cfg, f.nextIndexStart) <= CheckHeight(f, cfg.EndHeight(|chain| - 1))
    ensures Floor(cfg, f.nextIndexStart) <= cfg.EndHeight(|chain| - 1)
  {
  }

  /** A call that is not refused sees the published ranges as its own chain's. */
  lemma BoundarySeen(cfg: Config, tree: Tree, chain: seq<Hash>, s: Sys)
    requires cfg.Valid() && WellFormed(tree) && IsChain(tree, chain) && IndexInv(cfg, tree, s)
    requires cfg.ManagedStart() <= s.f.nextIndexStart && cfg.ManagedStart() <= cfg.fromHeight <= cfg.EndHeight(|chain| - 1)
    requires !Refuses(cfg, s.f, chain, cfg.EndHeight(|chain| - 1))
    ensures PublishedAs(cfg, s.objects, chain, s.f.nextIndexStart) && NoOtherIndex(cfg, s.objects, s.f.nextIndexStart)
  {
    var end := cfg.EndHeight(|chain| - 1);
    hide Config.ManagedStart, Config.RangeSize, IsChain, WellFormed, PublishedAs, NoOtherIndex, OnBoundary;
    if Published(cfg, s.f.nextIndexStart) {
      SeenFrom(cfg, tree, s.objects, s.f.nextIndexStart, chain);
    } else {
      NothingPublishedYet(cfg, s.objects, chain);
    }
  }

  lemma NothingRefused(cfg: Config, objects: Objects, end: nat)
    requires cfg.Valid() && FirstUnindexed(cfg, objects, cfg.ManagedStart(), end) == cfg.ManagedStart()
    ensures !RefusesInit(cfg, objects, end) && Floor(cfg, cfg.ManagedStart()) == cfg.ManagedStart()
  {
    hide FirstUnindexed, Config.ManagedStart;
  }

  lemma IndexInit(cfg: Config, tree: Tree, chain: seq<Hash>, objects: Objects)
    requires cfg.Valid() && WellFormed(tree) && IsChain(tree, chain) && |chain| <= MAX_U64
    requires NoOtherIndex(cfg, objects, cfg.ManagedStart()) && cfg.fromHeight <= cfg.EndHeight(|chain| - 1)
    requires FirstUnindexed(cfg, objects, cfg.ManagedStart(), cfg.EndHeight(|chain| - 1)) == cfg.ManagedStart()
    ensures var t := AfterInit(cfg, tree, chain, objects);
            IndexInv(cfg, tree, t) && PublishedAs(cfg, t.objects, chain, t.f.nextIndexStart)
    ensures !RefusesInit(cfg, objects, cfg.EndHeight(|chain| - 1))
  {
    hide *;
    ManagedStartAligned(cfg);
    EndShown(cfg, tree, chain);
    AfterInitIs(cfg, tree, chain, objects);
    var end, start := cfg.EndHeight(|chain| - 1), cfg.ManagedStart();
    NothingRefused(cfg, objects, end);
    NothingPublishedYet(cfg, objects, chain);
    BlocksKeepIndexes(cfg, tree, chain, chain, objects, Probes.UploadStart(objects, chain, start, end, Probes.PROBE_STEP), end + 1, start);
    SettledIndexes(cfg, tree, chain, InitialBlocks(cfg, tree, chain, objects, start, end), start, end);
  }

  /** Published indexes over whole runs without faults, from a fresh follower and a store with no index: after every
      successful call past the FromHeight check each range from the managed start to nextIndexStart has an index, and
      that index answers with the current chain's hash at each of its heights; the published blocks are stored. */
  lemma {:induction false} RunsPublishTheChain(cfg: Config, tree: Tree, states: seq<Sys>, events: seq<Event>, i: nat)
    requires IsRun(cfg, tree, states, events) && i < |states|
    requires states[0].f == Follower(false, 0, cfg.ManagedStart(), map[])
    requires forall st: nat :: Index(cfg.RangeSize(), st) !in states[0].objects
    requires forall j :: 0 <= j < |events| ==> events[j].result != Failure(Fault)
    ensures IndexInv(cfg, tree, states[i])
    ensures i > 0 && Settles(cfg, events[i - 1]) ==> PublishedAs(cfg, states[i].objects, events[i - 1].chain, states[i].f.nextIndexStart)
    decreases i
  {
    if i == 0 {
      hide Inv, CallStep, IsChain, WellFormed, OnBoundary;
    } else {
      hide Inv, CallStep, IsChain, WellFormed, IndexInv, PublishedAs;
      RunsPublishTheChain(cfg, tree, states, events, i - 1);
      FreshFollower(cfg, tree);
      RunsKeepTheCache(cfg, tree, states, events, i - 1);
      var e := events[i - 1];
      IndexKept(cfg, tree, e.chain, states[i - 1], states[i], e.result);
    }
  }

  /** Such an index answers lookups with the chain's own hashes. */
  lemma PublishedAnswers(cfg: Config, tree: Tree, objects: Objects, chain: seq<Hash>, n: nat, h: nat)
    requires WellFormed(tree) && IsChain(tree, chain) && PublishedAs(cfg, objects, chain, n) && cfg.ManagedStart() <= h < n
    requires n % cfg.RangeSize() == 0
    ensures var st := RangeIndex.StartHeight(h, cfg.RangeSize()).value;
            && Index(cfg.RangeSize(), st) in objects
            && RangeIndex.HashAt(objects[Index(cfg.RangeSize(), st)], st, h, cfg.RangeSize()) == Success(chain[h])
  {
    hide Config.ManagedStart, Config.RangeSize, IsChain, WellFormed, RangeBin;
    var rangeSize := cfg.RangeSize();
    var st := RangeIndex.StartHeight(h, rangeSize).value;
    ManagedStartAligned(cfg);
    RangeIndex.StartHeightCovers(h, rangeSize);
    if st < cfg.ManagedStart() {
      AlignedGap(st, cfg.ManagedStart(), rangeSize);
    }
    RangeBinAnswers(tree, chain, st, rangeSize, h);
  }
}
