/** Tail coverage: the blocks that no index vouches for yet are nevertheless all stored. */
module FollowerTail {
  import opened Prelude
  import opened ObjectKeys
  import opened BlockTree
  import opened Services
  import opened Ranges
  import opened FollowerModel
  import opened FollowerCache
  import opened FollowerRuns
  import Probes
  import Pub = Publishing

  /** Every hash in the cache from the next range on names a stored block. As the cache is contiguous, a cached hash
      thereby implies that its ancestors back to nextIndexStart are stored too. */
  ghost predicate Covered(s: Sys) {
    s.f.initialized ==> RecentStored(s.f.recent, s.f.nextIndexStart, s.objects)
  }

  ghost predicate RecentStored(recent: map<nat, Hash>, n: nat, objects: Objects) {
    forall h :: h in recent && h >= n ==> Block(recent[h]) in objects
  }

  /** The first call does not jump over a missing block: below the probed start everything is stored. */
  ghost predicate StartsWhole(cfg: Config, chain: seq<Hash>, objects: Objects)
    requires cfg.Valid() && 0 < |chain|
  {
    var end := cfg.EndHeight(|chain| - 1);
    var start := FirstUnindexed(cfg, objects, cfg.ManagedStart(), end);
    start <= end ==>
      forall h :: start <= h < Probes.UploadStart(objects, chain, start, end, Probes.PROBE_STEP) ==> Stored(objects, chain, h)
  }

  /** A store whose blocks of the chain have no gap qualifies. */
  lemma NoGapsStartWhole(cfg: Config, chain: seq<Hash>, objects: Objects)
    requires cfg.Valid() && 0 < |chain|
    requires var end := cfg.EndHeight(|chain| - 1);
             NoGapsFrom(objects, chain, FirstUnindexed(cfg, objects, cfg.ManagedStart(), end), end)
    ensures StartsWhole(cfg, chain, objects)
  {
    var end := cfg.EndHeight(|chain| - 1);
    var start := FirstUnindexed(cfg, objects, cfg.ManagedStart(), end);
    hide FirstUnindexed;
    if start <= end {
      Probes.NoGapsVouch(objects, chain, start, start, end, Probes.PROBE_STEP);
      Probes.VouchedStart(objects, chain, start, end, Probes.PROBE_STEP);
    }
  }

  ghost predicate NoGapsFrom(objects: Objects, chain: seq<Hash>, start: nat, end: nat)
    requires end < |chain|
  {
    Probes.NoGaps(objects, chain, start, end)
  }

  /** What a chain's increment leaves stored: everything from the next range up to the end. */
  lemma IncrementCovers(cfg: Config, tree: Tree, chain: seq<Hash>, s: Sys, h: nat)
    requires cfg.Valid() && WellFormed(tree) && IsChain(tree, chain) && |chain| <= MAX_U64
    requires Inv(cfg, tree, s.f) && s.f.initialized && Comparable(cfg, s.f, chain) && Covered(s)
    requires !Refuses(cfg, s.f, chain, cfg.EndHeight(|chain| - 1))
    requires s.f.nextIndexStart <= h <= cfg.EndHeight(|chain| - 1)
    ensures Stored(Incremented(cfg, tree, chain, s), chain, h)
  {
    var end := cfg.EndHeight(|chain| - 1);
    var u := UploadFrom(cfg, s.f, chain, end);
    TrueFork(cfg, tree, s.f, chain);
    AddBlocksGrows(tree, s.objects, chain, u, end + 1);
    hide IsChain, WellFormed, Refuses, AddBlocks, UploadFrom, Inv, LastAgree;
    if h < u {
      assert h in Segment(chain, Floor(cfg, s.f.nextIndexStart), u);
      assert h in Below(s.f.recent, u) && Below(s.f.recent, u)[h] == chain[h];
    }
  }

  lemma SegmentCovered(chain: seq<Hash>, lo: nat, end: nat, n: nat, objects: Objects)
    requires end < |chain| && forall h :: n <= h <= end ==> Stored(objects, chain, h)
    ensures RecentStored(Segment(chain, lo, end + 1), n, objects)
  {
    var recent := Segment(chain, lo, end + 1);
    forall h | h in recent && h >= n ensures Block(recent[h]) in objects {
      assert Stored(objects, chain, h);
    }
  }

  lemma StoredStays(before: Objects, after: Objects, chain: seq<Hash>, h: nat)
    requires h < |chain| && Grew(before, after) && Stored(before, chain, h)
    ensures Stored(after, chain, h)
  {
  }

  lemma SettledCovered(cfg: Config, tree: Tree, chain: seq<Hash>, objects: Objects, start: nat, end: nat)
    requires cfg.Valid() && IsChain(tree, chain) && end < |chain| <= MAX_U64
    requires var t := Settled(cfg, tree, chain, objects, start, end);
             forall h :: t.f.nextIndexStart <= h <= end ==> Stored(objects, chain, h)
    ensures Covered(Settled(cfg, tree, chain, objects, start, end))
  {
    hide IsChain, PublishObjects, PublishTo, Segment, Stored, Grew;
    var t := Settled(cfg, tree, chain, objects, start, end);
    Pub.PublishGrows(cfg, tree, chain, objects, start, Min(t.f.nextIndexStart, |chain|));
    forall h | t.f.nextIndexStart <= h <= end ensures Stored(t.objects, chain, h) {
      StoredStays(objects, t.objects, chain, h);
    }
    SegmentCovered(chain, CacheStart(cfg, t.f.nextIndexStart, end), end, t.f.nextIndexStart, t.objects);
  }

  lemma IncrementCovered(cfg: Config, tree: Tree, chain: seq<Hash>, s: Sys)
    requires cfg.Valid() && WellFormed(tree) && IsChain(tree, chain) && |chain| <= MAX_U64
    requires Inv(cfg, tree, s.f) && s.f.initialized && Comparable(cfg, s.f, chain) && Covered(s)
    requires !Refuses(cfg, s.f, chain, cfg.EndHeight(|chain| - 1))
    ensures Covered(AfterIncrement(cfg, tree, chain, s))
  {
    var end := cfg.EndHeight(|chain| - 1);
    hide IsChain, WellFormed, Inv, Refuses, Comparable, Incremented, PublishObjects, Segment, Covered;
    forall h | s.f.nextIndexStart <= h <= end ensures Stored(Incremented(cfg, tree, chain, s), chain, h) {
      IncrementCovers(cfg, tree, chain, s, h);
    }
    SettledCovered(cfg, tree, chain, Incremented(cfg, tree, chain, s), s.f.nextIndexStart, end);
  }

  lemma InitCovered(cfg: Config, tree: Tree, chain: seq<Hash>, objects: Objects)
    requires cfg.Valid() && IsChain(tree, chain) && |chain| <= MAX_U64
    requires StartsWhole(cfg, chain, objects)
    ensures Covered(AfterInit(cfg, tree, chain, objects))
  {
    var end := cfg.EndHeight(|chain| - 1);
    hide IsChain, AddBlocks, Probes.UploadStart, Settled, Covered, FirstUnindexed, Stored;
    var start := FirstUnindexed(cfg, objects, cfg.ManagedStart(), end);
    var blocks := InitialBlocks(cfg, tree, chain, objects, start, end);
    forall h | start <= h <= end ensures Stored(blocks, chain, h) {
      AddedOrThere(tree, objects, chain, Probes.UploadStart(objects, chain, start, end, Probes.PROBE_STEP), end + 1, h);
    }
    SettledStart(cfg, tree, chain, blocks, start, end);
    SettledCovered(cfg, tree, chain, InitialBlocks(cfg, tree, chain, objects, start, end), start, end);
  }

  lemma SettledStart(cfg: Config, tree: Tree, chain: seq<Hash>, objects: Objects, start: nat, end: nat)
    requires cfg.Valid() && IsChain(tree, chain) && end < |chain| <= MAX_U64
    ensures start <= Settled(cfg, tree, chain, objects, start, end).f.nextIndexStart
  {
    hide IsChain, PublishObjects, Segment;
  }

  lemma CoveredMore(s: Sys, t: Sys)
    requires Covered(s) && Grew(s.objects, t.objects) && t.f == s.f
    ensures Covered(t)
  {
  }

  lemma RefreshingCovered(cfg: Config, tree: Tree, chain: seq<Hash>, s: Sys, t: Sys)
    requires cfg.Valid() && WellFormed(tree) && IsChain(tree, chain) && |chain| <= MAX_U64
    requires Inv(cfg, tree, s.f) && s.f.initialized && Comparable(cfg, s.f, chain) && Covered(s)
    requires !Refuses(cfg, s.f, chain, cfg.EndHeight(|chain| - 1)) && Refreshing(cfg, tree, chain, s, t)
    ensures Covered(t)
  {
    hide *;
    ChainShown(tree, chain);
    var u, k := RefreshingAt(cfg, tree, chain, s, t);
    var end := cfg.EndHeight(|chain| - 1);
    AddBlocksGrows(tree, s.objects, chain, u, end + 1);
    CoveredIs(s);
    CoveredIs(t);
    RefreshedStored(s.f.recent, t.f.recent, chain, u, k, s.f.nextIndexStart, s.objects, t.objects);
  }

  lemma CoveredIs(s: Sys)
    ensures Covered(s) <==> (s.f.initialized ==> RecentStored(s.f.recent, s.f.nextIndexStart, s.objects))
  {
  }

  lemma RefreshedStored(before: map<nat, Hash>, after: map<nat, Hash>, chain: seq<Hash>, u: nat, k: nat, n: nat,
          old_: Objects, now: Objects)
    requires u <= k <= |chain| && RecentStored(before, n, old_) && Grew(old_, now)
    requires after == Below(before, u) + Segment(chain, u, k) || after == before + Segment(chain, u, k)
    requires forall h :: u <= h < k ==> Stored(now, chain, h)
    ensures RecentStored(after, n, now)
  {
    forall h | h in after && h >= n ensures Block(after[h]) in now {
      if u <= h < k {
        assert Stored(now, chain, h);
      } else {
        assert h in before && after[h] == before[h];
      }
    }
  }

  lemma PublishingCovered(cfg: Config, tree: Tree, chain: seq<Hash>, s: Sys, t: Sys)
    requires cfg.Valid() && WellFormed(tree) && IsChain(tree, chain) && |chain| <= MAX_U64
    requires Inv(cfg, tree, s.f) && s.f.initialized && Comparable(cfg, s.f, chain) && Covered(s)
    requires !Refuses(cfg, s.f, chain, cfg.EndHeight(|chain| - 1)) && FollowerModel.Publishing(cfg, tree, chain, s, t)
    ensures Covered(t)
  {
    hide *;
    EndWithin(cfg, tree, chain);
    var end := cfg.EndHeight(|chain| - 1);
    var blocks, start, n := Incremented(cfg, tree, chain, s), s.f.nextIndexStart, t.f.nextIndexStart;
    PublishingShape(cfg, tree, chain, s, t);
    var out := PublishObjects(cfg, tree, chain, blocks, start, Min(n, |chain|));
    Pub.PublishGrows(cfg, tree, chain, blocks, start, Min(n, |chain|));
    GrewTransitive(blocks, out, t.objects);
    forall h | n <= h <= end ensures Stored(t.objects, chain, h) {
      IncrementCovers(cfg, tree, chain, s, h);
      StoredStays(blocks, t.objects, chain, h);
    }
    SegmentCovered(chain, CacheStart(cfg, n, end), end, n, t.objects);
    SegmentIsCovered(t, chain, CacheStart(cfg, n, end), end, n);
  }

  lemma EndWithin(cfg: Config, tree: Tree, chain: seq<Hash>)
    requires IsChain(tree, chain)
    ensures |chain| > 0 && cfg.EndHeight(|chain| - 1) < |chain| && forall n :: Min(n, |chain|) <= |chain|
  {
  }

  lemma SegmentIsCovered(t: Sys, chain: seq<Hash>, lo: nat, end: nat, n: nat)
    requires end < |chain| && t.f == Follower(true, end, n, Segment(chain, lo, end + 1))
    requires RecentStored(Segment(chain, lo, end + 1), n, t.objects)
    ensures Covered(t)
  {
  }

  /** Extensions, rollbacks, reorganisations, refusals and faults keep the tail covered. */
  lemma CoveredKept(cfg: Config, tree: Tree, chain: seq<Hash>, s: Sys, t: Sys, r: Result<FollowResult, Error>)
    requires cfg.Valid() && WellFormed(tree) && IsChain(tree, chain) && |chain| <= MAX_U64
    requires Inv(cfg, tree, s.f) && Covered(s) && CallStep(cfg, tree, chain, s, t, r)
    requires !s.f.initialized && t.f.initialized ==> StartsWhole(cfg, chain, s.objects)
    ensures Covered(t)
  {
    var end := cfg.EndHeight(|chain| - 1);
    hide IsChain, WellFormed, Inv, Refuses, Comparable, AfterIncrement, AfterInit, RefusesInit, Reports, Refreshing,
      FollowerModel.Publishing,
      Covered, Grew, StartsWhole;
    if t != s && cfg.fromHeight <= end {
      if r.Success? {
        if s.f.initialized {
          IncrementCovered(cfg, tree, chain, s);
        } else {
          InitSets(cfg, tree, chain, s.objects);
          InitCovered(cfg, tree, chain, s.objects);
        }
      } else if !t.f.initialized {
        NotYetCovered(t);
      } else if t.f == s.f {
        CoveredMore(s, t);
      } else if Refreshing(cfg, tree, chain, s, t) {
        RefreshingCovered(cfg, tree, chain, s, t);
      } else {
        PublishingCovered(cfg, tree, chain, s, t);
      }
    }
  }

  lemma NotYetCovered(t: Sys)
    requires !t.f.initialized
    ensures Covered(t)
  {
  }

  lemma InitSets(cfg: Config, tree: Tree, chain: seq<Hash>, objects: Objects)
    requires cfg.Valid() && IsChain(tree, chain) && |chain| <= MAX_U64
    ensures AfterInit(cfg, tree, chain, objects).f.initialized
  {
    hide IsChain, InitialBlocks, PublishObjects, PublishTo, Segment, FirstUnindexed;
  }

  /** Tail coverage over whole runs: if the first successful call starts whole, then in every later state the tail is
      covered; and after each successful call past the FromHeight check every block of the current chain from
      nextIndexStart up to the last tip is in the store. */
  lemma {:induction false} RunsCoverTheTail(cfg: Config, tree: Tree, states: seq<Sys>, events: seq<Event>, i: nat)
    requires IsRun(cfg, tree, states, events) && i < |states|
    requires !states[0].f.initialized && Inv(cfg, tree, states[0].f)
    requires forall j :: 0 <= j < |events| && !states[j].f.initialized && states[j + 1].f.initialized ==>
               IsChain(tree, events[j].chain) && StartsWhole(cfg, events[j].chain, states[j].objects)
    ensures Covered(states[i])
    ensures i > 0 && Settles(cfg, events[i - 1]) ==> TailStored(events[i - 1].chain, states[i])
    decreases i
  {
    hide Inv, CallStep, IsChain, WellFormed, StartsWhole, Covered, TailStored;
    if i == 0 {
      NotYetCovered(states[0]);
    } else {
      RunsCoverTheTail(cfg, tree, states, events, i - 1);
      RunsKeepTheCache(cfg, tree, states, events, i - 1);
      RunsKeepTheCache(cfg, tree, states, events, i);
      var e, s, t := events[i - 1], states[i - 1], states[i];
      CoveredKept(cfg, tree, e.chain, s, t, e.result);
      if Settles(cfg, e) {
        SettledTail(cfg, tree, e.chain, s, t, e.result);
      }
    }
  }

  /** Every block of the chain from the next range up to the last tip is in the store. */
  ghost predicate TailStored(chain: seq<Hash>, s: Sys) {
    forall h :: s.f.nextIndexStart <= h <= s.f.lastTip ==> h < |chain| && Stored(s.objects, chain, h)
  }

  /** After a successful call the cache is exactly the current chain from the last published height, or the managed start when
      nothing is published, up to the end height. */
  lemma SuccessCache(cfg: Config, tree: Tree, chain: seq<Hash>, s: Sys, t: Sys, r: Result<FollowResult, Error>)
    requires cfg.Valid() && IsChain(tree, chain) && |chain| <= MAX_U64
    requires CallStep(cfg, tree, chain, s, t, r) && r.Success? && cfg.fromHeight <= cfg.EndHeight(|chain| - 1)
    ensures var end := cfg.EndHeight(|chain| - 1);
            && t.f.initialized && t.f.lastTip == end
            && t.f.recent == Segment(chain, CacheStart(cfg, t.f.nextIndexStart, end), end + 1)
    ensures var n, m, end := t.f.nextIndexStart, cfg.ManagedStart(), cfg.EndHeight(|chain| - 1);
            var lowest := if n > m then n - 1 else m;
            && (forall h: nat :: h in t.f.recent <==> lowest <= h <= end)
            && (forall h: nat :: h in t.f.recent ==> t.f.recent[h] == chain[h])
  {
    hide IsChain, Incremented, InitialBlocks, PublishObjects, PublishTo, Segment, FirstUnindexed, Refuses, RefusesInit,
      Reports, Comparable, Config.ManagedStart, Config.RangeSize;
    BoundaryInSight(cfg, tree, chain, s, t, r);
    SegmentIs(chain, CacheStart(cfg, t.f.nextIndexStart, cfg.EndHeight(|chain| - 1)), cfg.EndHeight(|chain| - 1) + 1);
  }

  lemma SegmentIs(chain: seq<Hash>, lo: nat, hi: nat)
    requires hi <= |chain|
    ensures forall h: nat :: h in Segment(chain, lo, hi) <==> lo <= h < hi
    ensures forall h: nat :: h in Segment(chain, lo, hi) ==> Segment(chain, lo, hi)[h] == chain[h]
  {
  }

  /** The last published height, or the managed start, is not above the end height. */
  lemma BoundaryInSight(cfg: Config, tree: Tree, chain: seq<Hash>, s: Sys, t: Sys, r: Result<FollowResult, Error>)
    requires cfg.Valid() && IsChain(tree, chain) && |chain| <= MAX_U64
    requires CallStep(cfg, tree, chain, s, t, r) && r.Success? && cfg.fromHeight <= cfg.EndHeight(|chain| - 1)
    ensures Floor(cfg, t.f.nextIndexStart) <= cfg.EndHeight(|chain| - 1)
  {
    hide IsChain, Incremented, InitialBlocks, PublishObjects, PublishTo, Segment, FirstUnindexed, Refuses, Reports,
      Config.RangeSize;
    var end := cfg.EndHeight(|chain| - 1);
    ManagedStartAligned(cfg);
    var start := if s.f.initialized then s.f.nextIndexStart else FirstUnindexed(cfg, s.objects, cfg.ManagedStart(), end);
    Pub.PublishToMeans(cfg, start, |chain| - 1, end);
    assert t.f.nextIndexStart == PublishTo(cfg, start, |chain| - 1, end);
    assert Floor(cfg, start) <= end;
  }

  lemma SettledTail(cfg: Config, tree: Tree, chain: seq<Hash>, s: Sys, t: Sys, r: Result<FollowResult, Error>)
    requires cfg.Valid() && IsChain(tree, chain) && |chain| <= MAX_U64
    requires CallStep(cfg, tree, chain, s, t, r) && r.Success? && cfg.fromHeight <= cfg.EndHeight(|chain| - 1) && Covered(t)
    requires Inv(cfg, tree, t.f)
    ensures TailStored(chain, t)
  {
    hide IsChain, CallStep, Cached;
    SuccessCache(cfg, tree, chain, s, t, r);
    forall h | t.f.nextIndexStart <= h <= t.f.lastTip ensures h < |chain| && Stored(t.objects, chain, h) {
      assert h in t.f.recent && t.f.recent[h] == chain[h];
    }
  }

  /** The condition on the first call is exact, and can be told before it: with the start that its search will find and the
      height that publishing will reach, the tail is whole afterwards if and only if no block of it is missing below the
      probed start. */
  lemma InitTailIff(cfg: Config, tree: Tree, chain: seq<Hash>, objects: Objects)
    requires cfg.Valid() && IsChain(tree, chain) && |chain| <= MAX_U64
    ensures 0 < |chain|
    ensures var end := cfg.EndHeight(|chain| - 1);
            var start := FirstUnindexed(cfg, objects, cfg.ManagedStart(), end);
            var stop := PublishTo(cfg, start, |chain| - 1, end);
            TailStored(chain, AfterInit(cfg, tree, chain, objects))
            <==> (start <= end ==>
                    forall h :: stop <= h < Probes.UploadStart(objects, chain, start, end, Probes.PROBE_STEP) ==> Stored(objects, chain, h))
  {
    hide IsChain, AfterInit, FirstUnindexed, Probes.UploadStart, Stored, Config.ManagedStart, Config.RangeSize, PublishTo;
    ChainShown(tree, chain);
    AfterInitEnds(cfg, tree, chain, objects);
    var end := cfg.EndHeight(|chain| - 1);
    var start := FirstUnindexed(cfg, objects, cfg.ManagedStart(), end);
    var stop := PublishTo(cfg, start, |chain| - 1, end);
    if start <= end {
      var probed := Probes.UploadStart(objects, chain, start, end, Probes.PROBE_STEP);
      var t := AfterInit(cfg, tree, chain, objects);
      Probes.UploadStartInSpan(objects, chain, start, end, Probes.PROBE_STEP);
      forall h | stop <= h <= end
        ensures Stored(t.objects, chain, h) <==> (probed <= h || Stored(objects, chain, h))
      {
        InitStored(cfg, tree, chain, objects, h);
      }
    }
  }

  lemma AfterInitEnds(cfg: Config, tree: Tree, chain: seq<Hash>, objects: Objects)
    requires cfg.Valid() && IsChain(tree, chain) && |chain| <= MAX_U64
    ensures var end := cfg.EndHeight(|chain| - 1);
            var start := FirstUnindexed(cfg, objects, cfg.ManagedStart(), end);
            var t := AfterInit(cfg, tree, chain, objects);
            t.f.lastTip == end && t.f.nextIndexStart == PublishTo(cfg, start, |chain| - 1, end) >= start
  {
    hide IsChain, FirstUnindexed, PublishObjects, Segment, InitialBlocks, Config.ManagedStart, Config.RangeSize;
  }

  lemma InitStored(cfg: Config, tree: Tree, chain: seq<Hash>, objects: Objects, h: nat)
    requires cfg.Valid() && IsChain(tree, chain) && |chain| <= MAX_U64
    requires var end := cfg.EndHeight(|chain| - 1);
             && FirstUnindexed(cfg, objects, cfg.ManagedStart(), end) <= end
             && AfterInit(cfg, tree, chain, objects).f.nextIndexStart <= h <= end
    ensures var end := cfg.EndHeight(|chain| - 1);
            var start := FirstUnindexed(cfg, objects, cfg.ManagedStart(), end);
            Stored(AfterInit(cfg, tree, chain, objects).objects, chain, h)
            <==> (Probes.UploadStart(objects, chain, start, end, Probes.PROBE_STEP) <= h || Stored(objects, chain, h))
  {
    hide IsChain, PublishObjects, PublishTo, Segment, FirstUnindexed, Probes.UploadStart, AddBlocks, Stored,
      Config.ManagedStart,
      Config.RangeSize;
    ChainShown(tree, chain);
    var end := cfg.EndHeight(|chain| - 1);
    var start := FirstUnindexed(cfg, objects, cfg.ManagedStart(), end);
    var probed := Probes.UploadStart(objects, chain, start, end, Probes.PROBE_STEP);
    var blocks, stop := InitialBlocks(cfg, tree, chain, objects, start, end), PublishTo(cfg, start, |chain| - 1, end);
    Pub.PublishToMeans(cfg, start, |chain| - 1, end);
    Pub.PublishedMeans(cfg, tree, chain, blocks, start, stop, h);
    AddedOrThere(tree, objects, chain, probed, end + 1, h);
  }

  lemma ChainShown(tree: Tree, chain: seq<Hash>)
    requires IsChain(tree, chain)
    ensures |chain| > 0
  {
  }
}
