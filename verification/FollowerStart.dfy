/** When a first call starts whole: it does on a store without gaps, as long as no call faulted before it, and even after
    faulty calls when a single worker uploads the blocks in order. */
module FollowerStart {
  import opened Prelude
  import opened ObjectKeys
  import opened BlockTree
  import opened Services
  import opened Ranges
  import opened FollowerModel
  import opened FollowerCache
  import opened FollowerRuns
  import opened FollowerTail
  import Faults = FollowerFaults
  import Indexes = FollowerIndexes
  import Probes
  import Pub = Publishing
  import RangeIndex

  // ----- no fault before the first call

  /** Until the first successful call nothing is written, unless a request faults. */
  lemma QuietUntilFirst(cfg: Config, tree: Tree, chain: seq<Hash>, s: Sys, t: Sys, r: Result<FollowResult, Error>)
    requires cfg.Valid() && IsChain(tree, chain) && |chain| <= MAX_U64
    requires CallStep(cfg, tree, chain, s, t, r) && r != Failure(Fault) && !s.f.initialized && !t.f.initialized
    ensures t.objects == s.objects
  {
    hide IsChain, Refuses, RefusesInit, Reports, Comparable, AfterIncrement, FirstUnindexed, InitialBlocks,
      PublishObjects, PublishTo, Segment;
  }

  lemma {:induction false} NoFaultStartsWhole(cfg: Config, tree: Tree, states: seq<Sys>, events: seq<Event>, j: nat)
    requires IsRun(cfg, tree, states, events) && j < |events|
    requires forall k :: 0 <= k <= j ==> !states[k].f.initialized
    requires forall k :: 0 <= k < j ==> events[k].result != Failure(Fault)
    requires IsChain(tree, events[j].chain)
    requires var end := cfg.EndHeight(|events[j].chain| - 1);
             NoGapsFrom(states[0].objects, events[j].chain, FirstUnindexed(cfg, states[0].objects, cfg.ManagedStart(), end), end)
    ensures states[j].objects == states[0].objects && StartsWhole(cfg, events[j].chain, states[j].objects)
  {
    hide CallStep, IsChain, WellFormed, WritesInOrder, StartsWhole, NoGapsFrom, FirstUnindexed;
    for k := 0 to j
      invariant states[k].objects == states[0].objects
    {
      QuietUntilFirst(cfg, tree, events[k].chain, states[k], states[k + 1], events[k].result);
    }
    NoGapsStartWhole(cfg, events[j].chain, states[j].objects);
  }

  // ----- a single worker

  /** A height from which a first call may have to upload: the start of a range without an index. */
  predicate Open(cfg: Config, objects: Objects, st: nat)
    requires cfg.Valid()
  {
    && st >= cfg.ManagedStart() && st % cfg.RangeSize() == 0
    && (Index(cfg.RangeSize(), st) !in objects || NextRangeStart(st, cfg.RangeSize()).None?)
  }

  /** No gaps, on any chain: above an open height each stored block has its parent in the store. */
  ghost predicate Closed(cfg: Config, tree: Tree, objects: Objects)
    requires cfg.Valid()
  {
    forall st: nat, x :: Open(cfg, objects, st) && x in tree && tree[x].height > st && Block(x) in objects ==>
      Block(tree[x].parent) in objects
  }

  /** A store without blocks has no gaps. */
  lemma EmptyIsClosed(cfg: Config, tree: Tree, objects: Objects)
    requires cfg.Valid() && forall k :: k in objects ==> k.Index?
    ensures Closed(cfg, tree, objects)
  {
  }

  lemma SearchFindsOpen(cfg: Config, objects: Objects, end: nat)
    requires cfg.Valid()
    ensures var start := FirstUnindexed(cfg, objects, cfg.ManagedStart(), end);
            && (start <= end ==> Open(cfg, objects, start))
            && (forall st: nat :: Open(cfg, objects, st) && st < start ==> NextRangeStart(st, cfg.RangeSize()).None?)
  {
    hide Config.ManagedStart, Config.RangeSize, NextRangeStart, FirstUnindexed;
    ManagedStartAligned(cfg);
    FirstUnindexedMeans(cfg, objects, cfg.ManagedStart(), end);
  }

  lemma {:induction false} ClosedDown(cfg: Config, tree: Tree, objects: Objects, chain: seq<Hash>, st: nat, h: nat, p: nat)
    requires cfg.Valid() && IsChain(tree, chain) && Closed(cfg, tree, objects) && Open(cfg, objects, st)
    requires st <= h <= p < |chain| && Stored(objects, chain, p)
    ensures Stored(objects, chain, h)
    decreases p
  {
    hide Open;
    if h < p {
      assert tree[chain[p]].parent == chain[p - 1];
      ClosedDown(cfg, tree, objects, chain, st, h, p - 1);
    }
  }

  lemma ClosedStartsWhole(cfg: Config, tree: Tree, objects: Objects, chain: seq<Hash>)
    requires cfg.Valid() && IsChain(tree, chain) && Closed(cfg, tree, objects)
    ensures StartsWhole(cfg, chain, objects)
  {
    hide Open, Closed, FirstUnindexed, IsChain, StartsWhole, Config.ManagedStart;
    ChainShown(tree, chain);
    var end := cfg.EndHeight(|chain| - 1);
    var start := FirstUnindexed(cfg, objects, cfg.ManagedStart(), end);
    SearchFindsOpen(cfg, objects, end);
    if start <= end {
      forall h: nat, p: nat | start <= h <= p <= end && Stored(objects, chain, p) ensures Stored(objects, chain, h) {
        ClosedDown(cfg, tree, objects, chain, start, h, p);
      }
      NoGapsStartWhole(cfg, chain, objects);
    } else {
      NothingToStart(cfg, chain, objects);
    }
  }

  lemma NothingToStart(cfg: Config, chain: seq<Hash>, objects: Objects)
    requires cfg.Valid() && 0 < |chain|
    requires FirstUnindexed(cfg, objects, cfg.ManagedStart(), cfg.EndHeight(|chain| - 1)) > cfg.EndHeight(|chain| - 1)
    ensures StartsWhole(cfg, chain, objects)
  {
    hide FirstUnindexed, Config.ManagedStart;
  }

  // ----- what a first call can have added

  lemma {:induction false} PublishAdds(cfg: Config, tree: Tree, chain: seq<Hash>, objects: Objects, start: nat,
          stop: nat, x: Hash)
    requires IsChain(tree, chain) && start <= stop <= |chain|
    requires Block(x) in PublishObjects(cfg, tree, chain, objects, start, stop) && Block(x) !in objects
    ensures Block(x) in BlockKeys(chain, start, stop)
    decreases stop - start
  {
    hide IsChain, PublishRange, Config.RangeSize;
    var size := cfg.RangeSize();
    if start + size <= stop {
      var one := PublishRange(cfg, tree, chain, objects, start);
      if Block(x) in one {
        RangeAdds(cfg, tree, chain, objects, start, x);
        KeysWiden(chain, start, start + size, start, stop, Block(x));
      } else {
        PublishAdds(cfg, tree, chain, one, start + size, stop, x);
        KeysWiden(chain, start + size, stop, start, stop, Block(x));
      }
    }
  }

  lemma RangeAdds(cfg: Config, tree: Tree, chain: seq<Hash>, objects: Objects, start: nat, x: Hash)
    requires IsChain(tree, chain) && start + cfg.RangeSize() <= |chain|
    requires Block(x) in PublishRange(cfg, tree, chain, objects, start) && Block(x) !in objects
    ensures Block(x) in BlockKeys(chain, start, start + cfg.RangeSize())
  {
    hide IsChain, RangeBin, Config.RangeSize;
  }

  lemma KeysWiden(chain: seq<Hash>, lo: nat, hi: nat, lo': nat, hi': nat, k: Key)
    requires hi <= |chain| && hi' <= |chain| && lo' <= lo && hi <= hi' && k in BlockKeys(chain, lo, hi)
    ensures k in BlockKeys(chain, lo', hi')
  {
  }

  /** A first call adds only blocks of its chain from its start to the end height. */
  lemma InitAdds(cfg: Config, tree: Tree, chain: seq<Hash>, objects: Objects, x: Hash) returns (h: nat)
    requires cfg.Valid() && IsChain(tree, chain) && |chain| <= MAX_U64
    requires Block(x) in AfterInit(cfg, tree, chain, objects).objects && Block(x) !in objects
    ensures var end := cfg.EndHeight(|chain| - 1);
            FirstUnindexed(cfg, objects, cfg.ManagedStart(), end) <= h <= end < |chain| && x == chain[h]
  {
    hide IsChain, AfterInit, FirstUnindexed, Config.ManagedStart, Config.RangeSize, PublishObjects, PublishTo,
      Probes.UploadStart, InitialBlocks;
    ChainShown(tree, chain);
    var end := cfg.EndHeight(|chain| - 1);
    var start := FirstUnindexed(cfg, objects, cfg.ManagedStart(), end);
    Indexes.AfterInitIs(cfg, tree, chain, objects);
    var blocks, stop := InitialBlocks(cfg, tree, chain, objects, start, end), PublishTo(cfg, start, |chain| - 1, end);
    SettledStore(cfg, tree, chain, blocks, start, end);
    if Block(x) in blocks {
      BlocksAdd(tree, chain, objects, start, end, x, cfg);
    } else {
      if start >= stop {
        NothingPublished(cfg, tree, chain, blocks, start, Min(stop, |chain|));
      }
      PublishAdds(cfg, tree, chain, blocks, start, stop, x);
      KeysWiden(chain, start, stop, start, end + 1, Block(x));
    }
    h :| start <= h < end + 1 && Block(x) == Block(chain[h]);
  }

  lemma NothingPublished(cfg: Config, tree: Tree, chain: seq<Hash>, objects: Objects, start: nat, stop: nat)
    requires IsChain(tree, chain) && stop <= |chain| && stop <= start
    ensures PublishObjects(cfg, tree, chain, objects, start, stop) == objects
  {
  }

  lemma SettledStore(cfg: Config, tree: Tree, chain: seq<Hash>, objects: Objects, start: nat, end: nat)
    requires cfg.Valid() && IsChain(tree, chain) && end < |chain| <= MAX_U64
    ensures var stop := PublishTo(cfg, start, |chain| - 1, end);
            && Settled(cfg, tree, chain, objects, start, end).objects == PublishObjects(cfg, tree, chain, objects, start, Min(stop, |chain|))
            && start <= stop && (stop > start ==> stop <= end + 1)
  {
    hide IsChain, PublishObjects, Segment;
  }

  lemma BlocksAdd(tree: Tree, chain: seq<Hash>, objects: Objects, start: nat, end: nat, x: Hash, cfg: Config)
    requires IsChain(tree, chain) && end < |chain|
    requires Block(x) in InitialBlocks(cfg, tree, chain, objects, start, end) && Block(x) !in objects
    ensures start <= end && Block(x) in BlockKeys(chain, start, end + 1)
  {
    hide IsChain, Probes.UploadStart;
    if start <= end {
      var probed := Probes.UploadStart(objects, chain, start, end, Probes.PROBE_STEP);
      Probes.UploadStartInSpan(objects, chain, start, end, Probes.PROBE_STEP);
      KeysWiden(chain, probed, end + 1, start, end + 1, Block(x));
    }
  }

  lemma OpenIsAbove(cfg: Config, objects: Objects, end: nat, st: nat)
    requires cfg.Valid() && end < MAX_U64 && Open(cfg, objects, st)
    requires FirstUnindexed(cfg, objects, cfg.ManagedStart(), end) <= end
    ensures FirstUnindexed(cfg, objects, cfg.ManagedStart(), end) <= st
  {
    hide Config.ManagedStart, Config.RangeSize, FirstUnindexed;
    var start := FirstUnindexed(cfg, objects, cfg.ManagedStart(), end);
    ManagedStartAligned(cfg);
    SearchFindsOpen(cfg, objects, end);
    if st < start {
      AlignedGap(st, start, cfg.RangeSize());
    }
  }

  lemma StaysOpen(cfg: Config, before: Objects, after: Objects, st: nat)
    requires cfg.Valid() && Grew(before, after) && Open(cfg, after, st)
    ensures Open(cfg, before, st)
  {
    hide Config.ManagedStart, Config.RangeSize, NextRangeStart;
  }

  /** Where a new block of a first call stands, its parent is: it was there below the probed start, and above it the blocks
      come from the bottom up. */
  lemma ParentIsThere(cfg: Config, tree: Tree, chain: seq<Hash>, before: Objects, after: Objects, h: nat)
    requires cfg.Valid() && IsChain(tree, chain) && |chain| <= MAX_U64 && Grew(before, after)
    requires StartsWhole(cfg, chain, before) && FirstInOrder(cfg, chain, before, after)
    requires var end := cfg.EndHeight(|chain| - 1);
             FirstUnindexed(cfg, before, cfg.ManagedStart(), end) < h <= end
    requires Stored(after, chain, h) && !Stored(before, chain, h)
    ensures Stored(after, chain, h - 1)
  {
    hide IsChain, FirstUnindexed, Probes.UploadStart, Config.ManagedStart, Stored, Grew;
    var end := cfg.EndHeight(|chain| - 1);
    var start := FirstUnindexed(cfg, before, cfg.ManagedStart(), end);
    var probed := Probes.UploadStart(before, chain, start, end, Probes.PROBE_STEP);
    Probes.UploadStartInSpan(before, chain, start, end, Probes.PROBE_STEP);
    if h - 1 < probed {
      assert Stored(before, chain, h - 1);
      StoredStays(before, after, chain, h - 1);
    }
  }

  /** A first call of a single worker leaves no gap behind, wherever it faults. */
  lemma ClosedKept(cfg: Config, tree: Tree, chain: seq<Hash>, s: Sys, t: Sys)
    requires cfg.Valid() && cfg.Workers() <= 1 && WellFormed(tree) && IsChain(tree, chain) && |chain| <= MAX_U64 && 0 < |chain|
    requires !s.f.initialized && WritesInOrder(cfg, chain, s, t) && Closed(cfg, tree, s.objects)
    requires Within(s.objects, t.objects, AfterInit(cfg, tree, chain, s.objects).objects)
    ensures Closed(cfg, tree, t.objects)
  {
    hide Open, FirstUnindexed, IsChain, WellFormed, AfterInit, FirstInOrder, NewIndexesWhole, StartsWhole,
      Config.ManagedStart;
    ClosedStartsWhole(cfg, tree, s.objects, chain);
    forall st: nat, x | Open(cfg, t.objects, st) && x in tree && tree[x].height > st && Block(x) in t.objects
      ensures Block(tree[x].parent) in t.objects
    {
      StaysOpen(cfg, s.objects, t.objects, st);
      if Block(x) in s.objects {
        assert Block(tree[x].parent) in s.objects;
      } else {
        NewBlocksParent(cfg, tree, chain, s.objects, t.objects, st, x);
      }
    }
  }

  lemma NewBlocksParent(cfg: Config, tree: Tree, chain: seq<Hash>, before: Objects, after: Objects, st: nat, x: Hash)
    requires cfg.Valid() && IsChain(tree, chain) && 0 < |chain| <= MAX_U64
    requires StartsWhole(cfg, chain, before) && FirstInOrder(cfg, chain, before, after)
    requires Within(before, after, AfterInit(cfg, tree, chain, before).objects)
    requires Open(cfg, before, st) && x in tree && tree[x].height > st && Block(x) in after && Block(x) !in before
    ensures Block(tree[x].parent) in after
  {
    hide Open, FirstUnindexed, AfterInit, FirstInOrder, StartsWhole, Config.ManagedStart;
    var h := InitAdds(cfg, tree, chain, before, x);
    OpenIsAbove(cfg, before, cfg.EndHeight(|chain| - 1), st);
    assert tree[chain[h]].height == h && tree[chain[h]].parent == chain[h - 1];
    ParentIsThere(cfg, tree, chain, before, after, h);
  }

  lemma FirstFaultWithin(cfg: Config, tree: Tree, chain: seq<Hash>, s: Sys, t: Sys, r: Result<FollowResult, Error>)
    requires cfg.Valid() && IsChain(tree, chain) && |chain| <= MAX_U64
    requires CallStep(cfg, tree, chain, s, t, r) && !s.f.initialized && !t.f.initialized
    ensures t.objects == s.objects || Within(s.objects, t.objects, AfterInit(cfg, tree, chain, s.objects).objects)
  {
    hide IsChain, Refuses, RefusesInit, Reports, Comparable, AfterIncrement, FirstUnindexed, Within;
    if r != Failure(Fault) {
      QuietUntilFirst(cfg, tree, chain, s, t, r);
    }
  }

  /** With a single worker every first call starts whole, whatever faults came before, from a store without gaps. */
  lemma {:induction false} OneWorkerStartsWhole(cfg: Config, tree: Tree, states: seq<Sys>, events: seq<Event>, j: nat)
    requires IsRun(cfg, tree, states, events) && cfg.uploadWorkers == 1 && j < |states|
    requires forall k :: 0 <= k <= j ==> !states[k].f.initialized
    requires Closed(cfg, tree, states[0].objects)
    ensures Closed(cfg, tree, states[j].objects)
    ensures j < |events| ==> StartsWhole(cfg, events[j].chain, states[j].objects)
    decreases j
  {
    hide CallStep, IsChain, WellFormed, WritesInOrder, StartsWhole, Closed, Within, AfterInit;
    if j > 0 {
      OneWorkerStartsWhole(cfg, tree, states, events, j - 1);
      var e, s, t := events[j - 1], states[j - 1], states[j];
      ChainShown(tree, e.chain);
      FirstFaultWithin(cfg, tree, e.chain, s, t, e.result);
      if t.objects != s.objects {
        ClosedKept(cfg, tree, e.chain, s, t);
      }
    }
    if j < |events| {
      ChainShown(tree, events[j].chain);
      ClosedStartsWhole(cfg, tree, states[j].objects, events[j].chain);
    }
  }

  /** Being initialised lasts. */
  lemma {:induction false} NotYetBefore(cfg: Config, tree: Tree, states: seq<Sys>, events: seq<Event>, k: nat, j: nat)
    requires IsRun(cfg, tree, states, events) && k <= j < |states| && Inv(cfg, tree, states[0].f) && !states[j].f.initialized
    ensures !states[k].f.initialized
    decreases j - k
  {
    hide CallStep, IsChain, WellFormed, WritesInOrder, Inv;
    if k < j {
      NotYetBefore(cfg, tree, states, events, k + 1, j);
      RunsKeepTheCache(cfg, tree, states, events, k);
      InvKept(cfg, tree, events[k].chain, states[k], states[k + 1], events[k].result);
    }
  }

  /** So with a single worker and a store without gaps the tail is covered after every successful call, faults and all. */
  lemma OneWorkerCoversTheTail(cfg: Config, tree: Tree, states: seq<Sys>, events: seq<Event>, i: nat)
    requires IsRun(cfg, tree, states, events) && cfg.uploadWorkers == 1 && 0 < i < |states| && Settles(cfg, events[i - 1])
    requires !states[0].f.initialized && Inv(cfg, tree, states[0].f) && Closed(cfg, tree, states[0].objects)
    ensures TailStored(events[i - 1].chain, states[i])
  {
    hide CallStep, WellFormed, WritesInOrder, Inv, StartsWhole, Closed, TailStored, Covered;
    forall j | 0 <= j < |events| && !states[j].f.initialized && states[j + 1].f.initialized
      ensures IsChain(tree, events[j].chain) && StartsWhole(cfg, events[j].chain, states[j].objects)
    {
      forall k | 0 <= k <= j ensures !states[k].f.initialized {
        NotYetBefore(cfg, tree, states, events, k, j);
      }
      ChainShown(tree, events[j].chain);
      OneWorkerStartsWhole(cfg, tree, states, events, j);
    }
    RunsCoverTheTail(cfg, tree, states, events, i);
  }
}
