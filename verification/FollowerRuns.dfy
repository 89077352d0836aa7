/** What holds over every run of the stateful uploader: any number of calls, each on whatever chain the node then
    shows, with success, refusal or faults as they come. */
module FollowerRuns {
  import opened Prelude
  import opened ObjectKeys
  import opened BlockTree
  import opened Services
  import opened Ranges
  import opened FollowerModel
  import opened FollowerCache
  import Probes
  import Pub = Publishing
  import RangeIndex

  /** One call: the chain the node showed, and the answer. */
  datatype Event = Event(chain: seq<Hash>, result: Result<FollowResult, Error>)

  ghost predicate IsRun(cfg: Config, tree: Tree, states: seq<Sys>, events: seq<Event>) {
    && cfg.Valid() && WellFormed(tree) && |states| == |events| + 1
    && forall i :: 0 <= i < |events| ==>
         && IsChain(tree, events[i].chain) && |events[i].chain| <= MAX_U64
         && CallStep(cfg, tree, events[i].chain, states[i], states[i + 1], events[i].result)
         && (|events[i].chain| > 0 ==> WritesInOrder(cfg, events[i].chain, states[i], states[i + 1]))
  }

  /** A successful call that was not turned away by the FromHeight check. */
  predicate Settles(cfg: Config, e: Event) {
    |e.chain| > 0 && e.result.Success? && cfg.fromHeight <= cfg.EndHeight(|e.chain| - 1)
  }

  // ----- the cache

  lemma FreshCache(cfg: Config, tree: Tree, chain: seq<Hash>, n: nat, end: nat)
    requires IsChain(tree, chain) && end < |chain|
    requires cfg.ManagedStart() <= n && n % cfg.RangeSize() == 0 && Floor(cfg, n) <= end
    ensures Inv(cfg, tree, Follower(true, end, n, Segment(chain, CacheStart(cfg, n, end), end + 1)))
  {
    hide IsChain;
    var f := Follower(true, end, n, Segment(chain, CacheStart(cfg, n, end), end + 1));
    assert CacheOn(cfg, f, chain, end + 1);
  }

  /** Where a refresh that was cut short had come to. */
  lemma RefreshingAt(cfg: Config, tree: Tree, chain: seq<Hash>, s: Sys, t: Sys) returns (u: nat, k: nat)
    requires IsChain(tree, chain) && Comparable(cfg, s.f, chain) && Refreshing(cfg, tree, chain, s, t)
    ensures u <= k <= cfg.EndHeight(|chain| - 1) + 1 <= |chain|
    ensures u == UploadFrom(cfg, s.f, chain, cfg.EndHeight(|chain| - 1))
    ensures t.objects == AddBlocks(tree, s.objects, chain, u, cfg.EndHeight(|chain| - 1) + 1)
    ensures t.f == s.f.(recent := t.f.recent)
    ensures t.f.recent == Below(s.f.recent, u) + Segment(chain, u, k)
            || (u == s.f.lastTip + 1 && t.f.recent == s.f.recent + Segment(chain, u, k))
  {
    hide IsChain, AddBlocks, UploadFrom, Segment, Below;
    var end := cfg.EndHeight(|chain| - 1);
    u := UploadFrom(cfg, s.f, chain, end);
    k :| u <= k <= end + 1
         && (t.f == s.f.(recent := Below(s.f.recent, u) + Segment(chain, u, k))
             || (u == s.f.lastTip + 1 && t.f == s.f.(recent := s.f.recent + Segment(chain, u, k))));
  }

  lemma RefreshingCache(cfg: Config, tree: Tree, chain: seq<Hash>, s: Sys, t: Sys)
    requires WellFormed(tree) && IsChain(tree, chain) && Inv(cfg, tree, s.f) && s.f.initialized
    requires Comparable(cfg, s.f, chain)
    requires !Refuses(cfg, s.f, chain, cfg.EndHeight(|chain| - 1)) && Refreshing(cfg, tree, chain, s, t)
    ensures Inv(cfg, tree, t.f)
  {
    hide IsChain, WellFormed, Refuses, Comparable, Incremented, UploadFrom, Inv, CacheOn, Segment, Below, Refreshing,
      Config.RangeSize,
      Config.ManagedStart, Config.EndHeight;
    var u, k := RefreshingAt(cfg, tree, chain, s, t);
    InvCached(cfg, tree, s.f);
    TrueFork(cfg, tree, s.f, chain);
    RefreshedCache(cfg, chain, s.f, t.f, u, k);
    CachedBy(cfg, tree, t.f, chain, Min(k, s.f.lastTip + 1));
    InvFrom(cfg, tree, s.f, t.f);
  }

  lemma InvCached(cfg: Config, tree: Tree, f: Follower)
    requires Inv(cfg, tree, f) && f.initialized
    ensures Floor(cfg, f.nextIndexStart) <= f.lastTip
  {
    hide Cached;
  }

  lemma InvFrom(cfg: Config, tree: Tree, f: Follower, g: Follower)
    requires Inv(cfg, tree, f) && g == f.(recent := g.recent) && Cached(cfg, tree, g)
    ensures Inv(cfg, tree, g)
  {
    hide Cached;
  }

  lemma CachedBy(cfg: Config, tree: Tree, f: Follower, c: seq<Hash>, k: nat)
    requires IsChain(tree, c) && CacheOn(cfg, f, c, k)
    ensures Cached(cfg, tree, f)
  {
  }

  lemma RefreshedCache(cfg: Config, chain: seq<Hash>, f: Follower, g: Follower, u: nat, k: nat)
    requires var floor := Floor(cfg, f.nextIndexStart);
             && floor <= u <= k <= |chain| && u <= f.lastTip + 1 && (Published(cfg, f.nextIndexStart) ==> f.nextIndexStart <= u)
             && Below(f.recent, u) == Segment(chain, floor, u)
    requires g == f.(recent := Below(f.recent, u) + Segment(chain, u, k))
             || (u == f.lastTip + 1 && g == f.(recent := f.recent + Segment(chain, u, k)))
    ensures CacheOn(cfg, g, chain, Min(k, f.lastTip + 1))
  {
    var floor := Floor(cfg, f.nextIndexStart);
    forall h: nat | h <= f.lastTip ensures h in g.recent <==> floor <= h < Min(k, f.lastTip + 1) {
      assert h in Below(f.recent, u) <==> floor <= h < u;
    }
    forall h: nat | floor <= h < Min(k, f.lastTip + 1) ensures h in g.recent && g.recent[h] == chain[h] {
      assert h < u ==> h in Below(f.recent, u) && Below(f.recent, u)[h] == Segment(chain, floor, u)[h];
    }
  }

  lemma {:induction false} FirstUnindexedAligned(cfg: Config, objects: Objects, start: nat, end: nat)
    requires cfg.Valid()
    ensures FirstUnindexed(cfg, objects, start, end) % cfg.RangeSize() == start % cfg.RangeSize()
    decreases end + 1 - start
  {
    if start <= end && Index(cfg.RangeSize(), start) in objects {
      RangeIndex.NextMultiple(start, cfg.RangeSize());
      match NextRangeStart(start, cfg.RangeSize())
      case None =>
      case Some(next) => FirstUnindexedAligned(cfg, objects, next, end);
    }
  }

  /** The search for the first range without an index skips exactly the ranges that have one, and stops at the first that has
      none, past the end, or at the top of uint64. */
  lemma {:induction false} FirstUnindexedMeans(cfg: Config, objects: Objects, start: nat, end: nat)
    requires cfg.Valid()
    ensures var n := FirstUnindexed(cfg, objects, start, end);
            && start <= n && n % cfg.RangeSize() == start % cfg.RangeSize()
            && (forall st: nat :: start <= st < n && st % cfg.RangeSize() == start % cfg.RangeSize() ==> Index(cfg.RangeSize(), st) in objects)
            && (n <= end && Index(cfg.RangeSize(), n) in objects ==> NextRangeStart(n, cfg.RangeSize()).None?)
    decreases end + 1 - start
  {
    hide Config.RangeSize, NextRangeStart;
    var size := cfg.RangeSize();
    if start <= end && Index(size, start) in objects {
      match NextRangeStart(start, size)
      case None =>
      case Some(next) =>
        NextIs(start, size);
        FirstUnindexedMeans(cfg, objects, next, end);
        RangeIndex.NextMultiple(start, size);
        forall st: nat | start < st < next && st % size == start % size ensures false {
          AlignedGap(start, st, size);
        }
    }
  }

  lemma NextIs(start: nat, size: nat)
    requires size <= MAX_U64
    ensures NextRangeStart(start, size).Some? ==> NextRangeStart(start, size).value == start + size
  {
  }

  lemma SettledInv(cfg: Config, tree: Tree, chain: seq<Hash>, objects: Objects, start: nat, end: nat)
    requires cfg.Valid() && IsChain(tree, chain) && end < |chain| <= MAX_U64 && cfg.fromHeight <= end
    requires cfg.ManagedStart() <= start && start % cfg.RangeSize() == 0 && Floor(cfg, start) <= end
    ensures Inv(cfg, tree, Settled(cfg, tree, chain, objects, start, end).f)
    ensures Settled(cfg, tree, chain, objects, start, end).f.nextIndexStart >= start
  {
    hide IsChain, Inv, Segment, PublishObjects;
    Pub.PublishToMeans(cfg, start, |chain| - 1, end);
    ManagedStartAligned(cfg);
    FreshCache(cfg, tree, chain, PublishTo(cfg, start, |chain| - 1, end), end);
  }

  /** Every call keeps the cache one contiguous segment of one chain, and never takes back a published range. */
  lemma InvKept(cfg: Config, tree: Tree, chain: seq<Hash>, s: Sys, t: Sys, r: Result<FollowResult, Error>)
    requires cfg.Valid() && WellFormed(tree) && IsChain(tree, chain) && |chain| <= MAX_U64
    requires Inv(cfg, tree, s.f) && CallStep(cfg, tree, chain, s, t, r)
    ensures Inv(cfg, tree, t.f)
    ensures s.f.initialized ==> t.f.initialized && t.f.nextIndexStart >= s.f.nextIndexStart
  {
    var end := cfg.EndHeight(|chain| - 1);
    ManagedStartAligned(cfg);
    FirstUnindexedAligned(cfg, s.objects, cfg.ManagedStart(), end);
    hide IsChain, WellFormed, Refuses, Incremented, InitialBlocks, Settled, Refreshing, FirstUnindexed, Reports, Within,
      Cached,
      FollowerModel.Publishing;
    if cfg.fromHeight <= end && t != s {
      if r.Success? {
        if s.f.initialized {
          SettledInv(cfg, tree, chain, Incremented(cfg, tree, chain, s), s.f.nextIndexStart, end);
        } else {
          var start := FirstUnindexed(cfg, s.objects, cfg.ManagedStart(), end);
          SettledInv(cfg, tree, chain, InitialBlocks(cfg, tree, chain, s.objects, start, end), start, end);
        }
      } else if r.error == Fault && s.f.initialized {
        FaultInv(cfg, tree, chain, s, t);
      }
    }
  }

  lemma FaultInv(cfg: Config, tree: Tree, chain: seq<Hash>, s: Sys, t: Sys)
    requires cfg.Valid() && WellFormed(tree) && IsChain(tree, chain) && |chain| <= MAX_U64
    requires Inv(cfg, tree, s.f) && s.f.initialized && FaultStep(cfg, tree, chain, s, t)
    requires cfg.fromHeight <= cfg.EndHeight(|chain| - 1)
    ensures Inv(cfg, tree, t.f) && t.f.initialized && t.f.nextIndexStart >= s.f.nextIndexStart
  {
    hide IsChain, WellFormed, Refuses, Within, Inv, AfterIncrement, Refreshing, FollowerModel.Publishing, Comparable;
    if t.f != s.f {
      if Refreshing(cfg, tree, chain, s, t) {
        RefreshingCache(cfg, tree, chain, s, t);
        RefreshingKeeps(cfg, tree, chain, s, t);
      } else {
        PublishingInv(cfg, tree, chain, s, t);
      }
    }
  }

  lemma PublishingInv(cfg: Config, tree: Tree, chain: seq<Hash>, s: Sys, t: Sys)
    requires cfg.Valid() && WellFormed(tree) && IsChain(tree, chain) && |chain| <= MAX_U64 && Comparable(cfg, s.f, chain)
    requires Inv(cfg, tree, s.f) && cfg.fromHeight <= cfg.EndHeight(|chain| - 1)
    requires FollowerModel.Publishing(cfg, tree, chain, s, t)
    ensures Inv(cfg, tree, t.f) && t.f.initialized && t.f.nextIndexStart >= s.f.nextIndexStart
  {
    hide IsChain, WellFormed, Inv, Segment, PublishTo, FollowerModel.Publishing;
    var end := cfg.EndHeight(|chain| - 1);
    var start, n := s.f.nextIndexStart, t.f.nextIndexStart;
    PublishingShape(cfg, tree, chain, s, t);
    InvAligned(cfg, tree, s.f);
    Pub.PublishToMeans(cfg, start, |chain| - 1, end);
    Pub.PublishToReached(cfg, n, |chain| - 1, end);
    ManagedStartAligned(cfg);
    FreshCache(cfg, tree, chain, n, end);
  }

  lemma PublishingShape(cfg: Config, tree: Tree, chain: seq<Hash>, s: Sys, t: Sys)
    requires cfg.Valid() && IsChain(tree, chain) && |chain| <= MAX_U64 && Comparable(cfg, s.f, chain)
    requires FollowerModel.Publishing(cfg, tree, chain, s, t)
    ensures var end := cfg.EndHeight(|chain| - 1);
            var start, n := s.f.nextIndexStart, t.f.nextIndexStart;
            && start <= n && n % cfg.RangeSize() == start % cfg.RangeSize()
            && PublishTo(cfg, n, |chain| - 1, end) == PublishTo(cfg, start, |chain| - 1, end)
            && t.f == Follower(true, end, n, Segment(chain, CacheStart(cfg, n, end), end + 1))
            && Grew(PublishObjects(cfg, tree, chain, Incremented(cfg, tree, chain, s), start, Min(n, |chain|)), t.objects)
  {
    hide IsChain, Segment, PublishTo, PublishObjects, Incremented, Grew;
  }

  lemma InvAligned(cfg: Config, tree: Tree, f: Follower)
    requires Inv(cfg, tree, f)
    ensures cfg.ManagedStart() <= f.nextIndexStart && f.nextIndexStart % cfg.RangeSize() == 0
  {
    hide Cached;
  }

  lemma RefreshingKeeps(cfg: Config, tree: Tree, chain: seq<Hash>, s: Sys, t: Sys)
    requires IsChain(tree, chain) && Comparable(cfg, s.f, chain) && Refreshing(cfg, tree, chain, s, t)
    ensures t.f == s.f.(recent := t.f.recent)
  {
    hide IsChain, Incremented, UploadFrom, Segment, Below;
  }

  /** Cache coherence over whole runs. From a fresh follower on, after any mix of successful, refused and faulty calls, the
      cache at or below the last tip is one contiguous segment of a single chain, published ranges stay published, and
      ranges stay aligned. */
  lemma {:induction false} RunsKeepTheCache(cfg: Config, tree: Tree, states: seq<Sys>, events: seq<Event>, i: nat)
    requires IsRun(cfg, tree, states, events) && i < |states| && Inv(cfg, tree, states[0].f)
    ensures Inv(cfg, tree, states[i].f)
    decreases i
  {
    if i > 0 {
      RunsKeepTheCache(cfg, tree, states, events, i - 1);
      var e := events[i - 1];
      InvKept(cfg, tree, e.chain, states[i - 1], states[i], e.result);
    }
    hide Inv, CallStep, IsChain, WellFormed;
  }

  /** A fresh follower qualifies. */
  lemma FreshFollower(cfg: Config, tree: Tree)
    ensures Inv(cfg, tree, Follower(false, 0, cfg.ManagedStart(), map[]))
  {
    ManagedStartAligned(cfg);
  }

  // ----- reorganisations

  /** A clean call of an initialised follower refuses if and only if something is published and the chain, up to the end
      height, either does not reach the last published height or has another block there than the recorded one; and a
      refusal changes neither the follower nor the store. A reorganisation strictly above that height is never refused. */
  lemma ExactRefusal(cfg: Config, tree: Tree, chain: seq<Hash>, s: Sys, t: Sys, r: Result<FollowResult, Error>)
    requires cfg.Valid() && WellFormed(tree) && IsChain(tree, chain) && |chain| <= MAX_U64
    requires Inv(cfg, tree, s.f) && s.f.initialized && cfg.fromHeight <= cfg.EndHeight(|chain| - 1)
    requires CallStep(cfg, tree, chain, s, t, r) && r != Failure(Fault)
    ensures var n := s.f.nextIndexStart;
            && (n > cfg.ManagedStart() ==> n - 1 in s.f.recent)
            && (r == Failure(ReorgTouchesPublishedIndex)
                <==> n > cfg.ManagedStart() && (cfg.EndHeight(|chain| - 1) < n - 1 || s.f.recent[n - 1] != chain[n - 1]))
    ensures r == Failure(ReorgTouchesPublishedIndex) ==> t == s
    ensures r != Failure(ReorgTouchesPublishedIndex) ==> r.Success?
  {
    BoundaryCached(cfg, tree, s.f);
    hide IsChain, WellFormed, Config.RangeSize, Config.ManagedStart, Inv, AfterIncrement, AfterInit, Reports, Comparable,
      RefusesInit;
  }

  lemma BoundaryCached(cfg: Config, tree: Tree, f: Follower)
    requires Inv(cfg, tree, f) && f.initialized
    ensures Published(cfg, f.nextIndexStart) ==> f.nextIndexStart - 1 in f.recent
  {
    hide IsChain, Config.RangeSize, Config.ManagedStart;
    var c, k: nat :| IsChain(tree, c) && CacheOn(cfg, f, c, k);
  }

  /** After a success on chain c, a call on chain d that is not refused uploads exactly the heights of d above the fork:
      down to the cache's floor, and up to the compared height, c and d agree below the first uploaded height and nowhere else. */
  lemma UploadsAboveTheFork(cfg: Config, tree: Tree, c: seq<Hash>, d: seq<Hash>, s: Sys)
    requires cfg.Valid() && WellFormed(tree) && IsChain(tree, c) && IsChain(tree, d) && |d| <= MAX_U64
    requires Inv(cfg, tree, s.f) && s.f.initialized && s.f.lastTip < |c| && Comparable(cfg, s.f, d)
    requires s.f.recent == Segment(c, Floor(cfg, s.f.nextIndexStart), s.f.lastTip + 1)
    requires !Refuses(cfg, s.f, d, cfg.EndHeight(|d| - 1))
    ensures var end := cfg.EndHeight(|d| - 1);
            var u := UploadFrom(cfg, s.f, d, end);
            && (forall h :: Floor(cfg, s.f.nextIndexStart) <= h <= CheckHeight(s.f, end) ==> (c[h] == d[h] <==> h < u))
            && Incremented(cfg, tree, d, s) == AddBlocks(tree, s.objects, d, u, end + 1)
  {
    hide IsChain, WellFormed, Config.RangeSize, Config.ManagedStart, Inv, Refuses, UploadFrom, AddBlocks;
    var end := cfg.EndHeight(|d| - 1);
    var u := UploadFrom(cfg, s.f, d, end);
    TrueFork(cfg, tree, s.f, d);
    forall h | Floor(cfg, s.f.nextIndexStart) <= h <= CheckHeight(s.f, end) ensures c[h] == d[h] <==> h < u {
      assert s.f.recent[h] == c[h];
      if h < u {
        assert h in Below(s.f.recent, u);
        assert Below(s.f.recent, u)[h] == Segment(d, Floor(cfg, s.f.nextIndexStart), u)[h];
      }
    }
  }
}
