/** The stateful uploader of follow mode. */
module UploadFollower {
  import opened Prelude
  import opened ObjectKeys
  import opened BlockTree
  import opened Services
  import opened Ranges
  import opened FollowerModel
  import opened FollowerCache
  import Probes
  import Pub = Publishing
  import Runs = FollowerRuns
  import RangeIndex
  import Uploads

  /** The entries at heights lo up to, not including, hi. */
  function Keep(recent: map<nat, Hash>, lo: nat, hi: nat): map<nat, Hash> {
    map h | h in recent && lo <= h < hi :: recent[h]
  }

  /** Some of the heights from `from` up to last were read into the cache. */
  ghost predicate PartlyRead(before: map<nat, Hash>, chain: seq<Hash>, from: nat, last: nat, after: map<nat, Hash>)
    requires last < |chain|
  {
    exists k: nat :: from <= k <= last + 1 && after == before + Segment(chain, from, k)
  }

  class UploadFollower {
    const backend: Backend
    const cfg: Config
    var initialized: bool
    var lastTip: nat
    var nextIndexStart: nat
    var recentHashes: map<nat, Hash>

    ghost function State(): Follower
      reads this
    {
      Follower(initialized, lastTip, nextIndexStart, recentHashes)
    }

    constructor (backend: Backend, cfg: Config)
      ensures this.backend == backend && this.cfg == cfg
      ensures State() == Follower(false, 0, cfg.ManagedStart(), map[])
    {
      this.backend, this.cfg := backend, cfg;
      initialized, lastTip, nextIndexStart, recentHashes := false, 0, cfg.ManagedStart(), map[];
    }

    method PruneRecentHashes(end: nat)
      modifies this`recentHashes
      ensures recentHashes == Keep(old(recentHashes), CacheStart(cfg, nextIndexStart, end), end + 1)
    {
      var start := CacheStart(cfg, nextIndexStart, end);
      var todo := recentHashes.Keys;
      while todo != {}
        invariant todo <= recentHashes.Keys
        invariant recentHashes == map h | h in old(recentHashes) && (h in todo || start <= h <= end) :: old(recentHashes)[h]
        decreases todo
      {
        var height :| height in todo;
        if height < start || height > end {
          recentHashes := recentHashes - {height};
        }
        todo := todo - {height};
      }
    }

    /** Reads the hashes of [from, last] into the cache and prunes it. */
    method RefreshRecentHashes(from: nat, last: nat) returns (r: Result<(), Error>)
      requires backend.Valid() && last < |backend.chain|
      modifies this`recentHashes, backend`faults
      ensures Answers(r, Success(()), old(backend.faults), backend.faults)
      ensures from > last ==> recentHashes == old(recentHashes) && backend.faults == old(backend.faults)
      ensures from <= last && backend.faults == old(backend.faults) ==>
                recentHashes == Keep(old(recentHashes) + Segment(backend.chain, from, last + 1), CacheStart(cfg, nextIndexStart, last), last + 1)
      ensures from <= last && backend.faults > old(backend.faults) ==>
                PartlyRead(old(recentHashes), backend.chain, from, last, recentHashes)
    {
      hide Backend.Valid, Segment, Keep, PartlyRead;
      if from > last {
        return Success(());
      }
      SegmentNone(old(recentHashes), backend.chain, from);
      var height := from;
      while true
        invariant from <= height <= last
        invariant backend.faults == old(backend.faults)
        invariant recentHashes == old(recentHashes) + Segment(backend.chain, from, height)
        decreases last - height
      {
        PartlyReadTo(old(recentHashes), backend.chain, from, last, height);
        var hash := backend.GetBlockHash(height);
        if hash.Failure? {
          return Failure(hash.error);
        }
        SegmentNext(old(recentHashes), backend.chain, from, height);
        recentHashes := recentHashes[height := hash.value];
        if height == last {
          break;
        }
        height := height + 1;
      }
      PruneRecentHashes(last);
      return Success(());
    }

    /** The greatest height of the cache, from start down, at which the chain still agrees. */
    method FindCommonAncestor(start: nat) returns (r: Result<(nat, bool, bool), Error>)
      requires backend.Valid() && Floor(cfg, nextIndexStart) <= start <= lastTip && start < |backend.chain|
      modifies backend`faults
      ensures Answers(r, Success(match LastAgree(recentHashes, backend.chain, Floor(cfg, nextIndexStart), start)
                                 case Some(a) => (a, true, false)
                                 case None => (0, false, Published(cfg, nextIndexStart))),
                      old(backend.faults), backend.faults)
    {
      hide Backend.Valid;
      var lowerBound := CacheStart(cfg, nextIndexStart, lastTip);
      if start < lowerBound {
        lowerBound := start;
      }
      var height := start;
      while true
        invariant lowerBound == Floor(cfg, nextIndexStart) <= height <= start
        invariant backend.faults == old(backend.faults)
        invariant LastAgree(recentHashes, backend.chain, lowerBound, start) == LastAgree(recentHashes, backend.chain, lowerBound, height)
        decreases height
      {
        if height in recentHashes {
          var current := backend.GetBlockHash(height);
          if current.Failure? {
            return Failure(current.error);
          }
          if current.value == recentHashes[height] {
            return Success((height, true, false));
          }
        }
        if height == lowerBound || height == 0 {
          break;
        }
        height := height - 1;
      }
      var searchedPublishedBoundary := nextIndexStart > cfg.ManagedStart() && lowerBound < nextIndexStart;
      return Success((0, false, searchedPublishedBoundary));
    }

    method DropFrom(u: nat)
      modifies this`recentHashes
      ensures recentHashes == Below(old(recentHashes), u)
    {
      var todo := recentHashes.Keys;
      while todo != {}
        invariant todo <= recentHashes.Keys
        invariant recentHashes == map h | h in old(recentHashes) && (h in todo || h < u) :: old(recentHashes)[h]
        decreases todo
      {
        var height :| height in todo;
        if height >= u {
          recentHashes := recentHashes - {height};
        }
        todo := todo - {height};
      }
    }

    method UploadIncrement(end: nat) returns (r: Result<nat, Error>)
      requires backend.Valid() && cfg.Valid() && Inv(cfg, backend.tree, State()) && initialized
      requires Comparable(cfg, State(), backend.chain) && end == cfg.EndHeight(|backend.chain| - 1)
      modifies this`lastTip, this`recentHashes, backend`faults, backend`objects
      ensures backend.faults >= old(backend.faults) && (backend.faults > old(backend.faults) ==> r == Failure(Fault))
      ensures IncrementStep(cfg, backend.tree, backend.chain, old(Sys(State(), backend.objects)), Sys(State(), backend.objects),
                            r, backend.faults == old(backend.faults))
    {
      hide Backend.Valid, IsChain, WellFormed, Inv, IncrementStep, Segment, LastAgree, Refuses, Keep, Below,
        SpanUploaded, UploadFrom, PartlyRead;
      backend.ShowsChain();
      ghost var s := Sys(State(), backend.objects);
      StepUntouched(cfg, backend.tree, backend.chain, s, Failure(Fault));
      var checkHeight := end;
      if lastTip < checkHeight {
        checkHeight := lastTip;
      }
      assert cfg.ManagedStart() <= checkHeight; // the source's guard against a lower height never fires
      var current := backend.GetBlockHash(checkHeight);
      if current.Failure? {
        return Failure(current.error);
      }
      assert checkHeight == CheckHeight(s.f, end);
      if checkHeight in recentHashes && recentHashes[checkHeight] == current.value {
        MatchIsFork(cfg, backend.tree, s.f, backend.chain);
        r := Extend(end);
        return;
      }
      if checkHeight !in recentHashes && checkHeight < nextIndexStart && nextIndexStart > cfg.ManagedStart() {
        BoundaryDiffers(cfg, s.f, backend.chain);
        return Failure(ReorgTouchesPublishedIndex);
      }
      r := UploadReorg(checkHeight, end);
    }

    method UploadReorg(checkHeight: nat, end: nat) returns (r: Result<nat, Error>)
      requires backend.Valid() && cfg.Valid() && Inv(cfg, backend.tree, State()) && initialized
      requires Comparable(cfg, State(), backend.chain) && end == cfg.EndHeight(|backend.chain| - 1)
      requires checkHeight == CheckHeight(State(), end)
      requires checkHeight in recentHashes ==> recentHashes[checkHeight] != backend.chain[checkHeight]
      modifies this`lastTip, this`recentHashes, backend`faults, backend`objects
      ensures backend.faults >= old(backend.faults) && (backend.faults > old(backend.faults) ==> r == Failure(Fault))
      ensures IncrementStep(cfg, backend.tree, backend.chain, old(Sys(State(), backend.objects)), Sys(State(), backend.objects),
                            r, backend.faults == old(backend.faults))
    {
      hide Backend.Valid, IsChain, WellFormed, Inv, IncrementStep, Segment, Refuses, Keep, Below, SpanUploaded, PartlyRead,
        UploadFrom, Comparable, LastAgree;
      backend.ShowsChain();
      ghost var s := Sys(State(), backend.objects);
      StepUntouched(cfg, backend.tree, backend.chain, s, Failure(Fault));
      var start := ReorgStart(checkHeight, end);
      if start.Failure? {
        return Failure(start.error);
      }
      r := RebuildFrom(start.value, end);
    }

    /** The checked height agrees: only what lies above it is new. */
    method Extend(end: nat) returns (r: Result<nat, Error>)
      requires backend.Valid() && cfg.Valid() && Inv(cfg, backend.tree, State()) && initialized
      requires Comparable(cfg, State(), backend.chain) && end == cfg.EndHeight(|backend.chain| - 1)
      requires !Refuses(cfg, State(), backend.chain, end)
      requires UploadFrom(cfg, State(), backend.chain, end) == CheckHeight(State(), end) + 1
      modifies this`lastTip, this`recentHashes, backend`faults, backend`objects
      ensures backend.faults >= old(backend.faults) && (backend.faults > old(backend.faults) ==> r == Failure(Fault))
      ensures IncrementStep(cfg, backend.tree, backend.chain, old(Sys(State(), backend.objects)), Sys(State(), backend.objects),
                            r, backend.faults == old(backend.faults))
    {
      hide Backend.Valid, IsChain, WellFormed, Inv, IncrementStep, Segment, LastAgree, Refuses, Keep, Below,
        SpanUploaded, UploadFrom, PartlyRead, InOrder, Config.ManagedStart, Config.RangeSize;
      backend.ShowsChain();
      ghost var s := Sys(State(), backend.objects);
      ForkFacts(cfg, backend.tree, s.f, backend.chain);
      CacheSettles(s.f.recent, backend.chain, Floor(cfg, nextIndexStart), CheckHeight(s.f, end) + 1, end);
      r := Success(0);
      if end > lastTip {
        var start := lastTip + 1;
        assert cfg.ManagedStart() <= start; // so the source need not raise it
        r := Uploads.UploadBlocksFrom(backend, start, end, cfg.Workers());
        if r.Failure? {
          StepUploading(cfg, backend.tree, backend.chain, s, backend.objects, r);
          return;
        }
        var refresh := RefreshRecentHashes(start, end);
        if refresh.Failure? {
          StepRefreshing(cfg, backend.tree, backend.chain, s, backend.objects, s.f.recent, recentHashes, Failure(Fault));
          return Failure(refresh.error);
        }
        KeepTwice(s.f.recent + Segment(backend.chain, start, end + 1), Floor(cfg, nextIndexStart), end + 1);
      } else {
        SegmentNone(s.f.recent, backend.chain, end + 1);
      }
      lastTip := end;
      PruneRecentHashes(end);
      StepDone(cfg, backend.tree, backend.chain, s, Sys(State(), backend.objects), r);
    }

    /** Where a reorg's upload starts; or that it would touch a published range. */
    method ReorgStart(checkHeight: nat, end: nat) returns (r: Result<nat, Error>)
      requires backend.Valid() && cfg.Valid() && Inv(cfg, backend.tree, State()) && initialized
      requires Comparable(cfg, State(), backend.chain) && end == cfg.EndHeight(|backend.chain| - 1)
      requires checkHeight == CheckHeight(State(), end)
      requires checkHeight in recentHashes ==> recentHashes[checkHeight] != backend.chain[checkHeight]
      modifies backend`faults
      ensures Answers(r, if Refuses(cfg, State(), backend.chain, end) then Failure(ReorgTouchesPublishedIndex)
                         else Success(UploadFrom(cfg, State(), backend.chain, end)), old(backend.faults), backend.faults)
    {
      hide Backend.Valid, IsChain, WellFormed, Inv, Refuses;
      backend.ShowsChain();
      RefusesIffNoAgreement(cfg, backend.tree, State(), backend.chain);
      if checkHeight < nextIndexStart && nextIndexStart > cfg.ManagedStart() {
        BoundaryDiffers(cfg, State(), backend.chain);
        return Failure(ReorgTouchesPublishedIndex);
      }
      var search := FindCommonAncestor(checkHeight);
      if search.Failure? {
        return Failure(search.error);
      }
      var (ancestor, found, searchedPublishedBoundary) := search.value;
      if found {
        assert ancestor < MAX_U64; // the source's overflow guard never fires
        return Success(ancestor + 1);
      }
      if searchedPublishedBoundary {
        return Failure(ReorgTouchesPublishedIndex);
      }
      NothingPublished(cfg, backend.tree, State());
      return Success(nextIndexStart);
    }

    /** Uploads the new branch and replaces the cache from its first height on. */
    method RebuildFrom(uploadStart: nat, end: nat) returns (r: Result<nat, Error>)
      requires backend.Valid() && cfg.Valid() && Inv(cfg, backend.tree, State()) && initialized
      requires Comparable(cfg, State(), backend.chain) && end == cfg.EndHeight(|backend.chain| - 1)
      requires !Refuses(cfg, State(), backend.chain, end) && uploadStart == UploadFrom(cfg, State(), backend.chain, end)
      modifies this`lastTip, this`recentHashes, backend`faults, backend`objects
      ensures backend.faults >= old(backend.faults) && (backend.faults > old(backend.faults) ==> r == Failure(Fault))
      ensures IncrementStep(cfg, backend.tree, backend.chain, old(Sys(State(), backend.objects)), Sys(State(), backend.objects),
                            r, backend.faults == old(backend.faults))
    {
      hide Backend.Valid, IsChain, WellFormed, Inv, IncrementStep, Segment, Refuses, Keep, Below, SpanUploaded, PartlyRead,
        UploadFrom, LastAgree, InOrder;
      backend.ShowsChain();
      ghost var s := Sys(State(), backend.objects);
      ForkFacts(cfg, backend.tree, s.f, backend.chain);
      assert nextIndexStart > cfg.ManagedStart() ==> nextIndexStart <= uploadStart; // its last guard never fires either
      r := Success(0);
      if uploadStart <= end {
        r := Uploads.UploadBlocksFrom(backend, uploadStart, end, cfg.Workers());
        if r.Failure? {
          StepUploading(cfg, backend.tree, backend.chain, s, backend.objects, r);
          return;
        }
      }
      r := SwitchBranch(uploadStart, end, r.value, s);
    }

    /** The blocks of the new branch are up: the cache follows. */
    method SwitchBranch(uploadStart: nat, end: nat, uploaded: nat, ghost s: Sys) returns (r: Result<nat, Error>)
      requires backend.Valid() && State() == s.f && BranchUp(cfg, backend.tree, backend.chain, s, backend.objects, uploadStart, end)
      requires |backend.objects| - |s.objects| == uploaded
      modifies this`lastTip, this`recentHashes, backend`faults
      ensures backend.faults >= old(backend.faults) && (backend.faults > old(backend.faults) ==> r == Failure(Fault))
      ensures IncrementStep(cfg, backend.tree, backend.chain, s, Sys(State(), backend.objects), r, backend.faults == old(backend.faults))
    {
      hide Backend.Valid, IncrementStep, BranchUp, Floor, CacheStart, Below, Keep, Segment, PartlyRead, WellFormed, IsChain,
        Comparable;
      backend.ShowsChain();
      BranchBounds(cfg, backend.tree, backend.chain, s, backend.objects, uploadStart, end);
      DropFrom(uploadStart);
      if uploadStart <= end {
        var refresh := RefreshRecentHashes(uploadStart, end);
        if refresh.Failure? {
          BranchFaulted(cfg, backend.tree, backend.chain, s, backend.objects, uploadStart, end, recentHashes);
          return Failure(refresh.error);
        }
      }
      ghost var read := recentHashes;
      lastTip := end;
      PruneRecentHashes(end);
      BranchSwitched(cfg, backend.tree, backend.chain, s, backend.objects, uploadStart, end, uploaded, read, recentHashes);
      return Success(uploaded);
    }

    /** One range's turn: all of its blocks, then its index. */
    method PublishRange(start: nat) returns (r: Result<Stats, Error>)
      requires backend.Valid() && start + cfg.RangeSize() <= |backend.chain|
      modifies backend`faults, backend`objects
      ensures backend.faults >= old(backend.faults) && (backend.faults > old(backend.faults) ==> r == Failure(Fault))
      ensures backend.faults == old(backend.faults) ==>
                r.Success? && Counted(r.value, old(backend.objects), backend.objects)
      ensures RangeStep(cfg, backend.tree, backend.chain, old(backend.objects), backend.objects, start, backend.faults == old(backend.faults))
      ensures NewIndexesWhole(cfg, backend.chain, old(backend.objects), backend.objects)
      ensures Grew(old(backend.objects), backend.objects)
    {
      hide Backend.Valid, IsChain, WellFormed, SpanUploaded, RangeStep, RangeBin, Counted, NewIndexesWhole, Grew;
      backend.ShowsChain();
      var rangeEnd := start + cfg.RangeSize() - 1;
      var uploaded := Uploads.UploadBlocksFrom(backend, start, rangeEnd, cfg.Workers());
      if uploaded.Failure? {
        RangeBlocksStep(cfg, backend.tree, backend.chain, old(backend.objects), backend.objects, start);
        SpanHasNoIndex(cfg, backend.tree, backend.chain, old(backend.objects), backend.objects, start, rangeEnd);
        return Failure(uploaded.error);
      }
      ghost var filled := backend.objects;
      var published := UploadRangeIndexIfMissing(backend, start, cfg.RangeSize());
      RangeIndexStep(cfg, backend.tree, backend.chain, old(backend.objects), filled, start);
      IndexAfterBlocks(cfg, backend.tree, backend.chain, old(backend.objects), filled, backend.objects, start);
      if published.Failure? {
        return Failure(published.error);
      }
      return Success(Stats(uploaded.value, if published.value then 1 else 0));
    }

    method PublishStableIndexes(localTip: nat, end: nat) returns (r: Result<Stats, Error>)
      requires backend.Valid() && cfg.Valid() && localTip == |backend.chain| - 1 && end <= localTip
      requires cfg.ManagedStart() <= nextIndexStart
      modifies this`nextIndexStart, this`recentHashes, backend`faults, backend`objects
      ensures backend.faults >= old(backend.faults) && (backend.faults > old(backend.faults) ==> r == Failure(Fault))
      ensures backend.faults == old(backend.faults) ==>
                r.Success? && Counted(r.value, old(backend.objects), backend.objects)
      ensures PublishStep(cfg, backend.tree, backend.chain, old(Sys(State(), backend.objects)), Sys(State(), backend.objects),
                          end, backend.faults == old(backend.faults))
      ensures NewIndexesWhole(cfg, backend.chain, old(backend.objects), backend.objects)
      ensures Grew(old(backend.objects), backend.objects)
    {
      hide Backend.Valid, IsChain, WellFormed, SpanUploaded, RangeStep, PublishStep, PublishSoFar, Counted, Segment, Keep,
        NewIndexesWhole, Grew, Config.ManagedStart, Published, BlockTree.ChainOf, PublishObjects, PublishTo, Going;
      backend.ShowsChain();
      ghost var s := Sys(State(), backend.objects);
      PublishStart(cfg, backend.tree, backend.chain, s, end);
      var stats := Stats(0, 0);
      if localTip < cfg.stableDelay {
        return Success(stats);
      }
      var stableTip := localTip - cfg.stableDelay;
      while nextIndexStart <= end
        invariant backend.faults == old(backend.faults)
        invariant Going(cfg, backend.tree, backend.chain, s, Sys(State(), backend.objects), end, stats)
        decreases end + 1 - nextIndexStart
      {
        var rangeEnd := EndOfRange(nextIndexStart, cfg.RangeSize());
        if rangeEnd > end || rangeEnd > stableTip {
          break;
        }
        ghost var t := Sys(State(), backend.objects);
        PublishGoesOn(cfg, backend.tree, backend.chain, s, t, end, stats);
        var range := PublishRange(nextIndexStart);
        PublishMidRange(cfg, backend.tree, backend.chain, s, t, backend.objects, end, stats, range);
        if range.Failure? {
          return Failure(range.error);
        }
        stats := Stats(stats.uploadedBlocks + range.value.uploadedBlocks, stats.publishedIndexes + range.value.publishedIndexes);
        var boundary := backend.GetBlockHash(rangeEnd);
        if boundary.Failure? {
          return Failure(boundary.error);
        }
        recentHashes := recentHashes[rangeEnd := boundary.value];
        var next := NextRangeStart(nextIndexStart, cfg.RangeSize());
        if next.None? {
          break;
        }
        nextIndexStart := next.value;
        PruneRecentHashes(end);
      }
      PublishEnds(cfg, backend.tree, backend.chain, s, Sys(State(), backend.objects), end, stats);
      return Success(stats);
    }

    /** The chain must still show the last published height. */
    method EnsurePublishedBoundaryVisible(end: nat) returns (r: Result<(), Error>)
      ensures r == if Published(cfg, nextIndexStart) && end < nextIndexStart - 1 then Failure(ReorgTouchesPublishedIndex) else Success(())
    {
      if nextIndexStart <= cfg.ManagedStart() || end >= nextIndexStart - 1 {
        return Success(());
      }
      return Failure(ReorgTouchesPublishedIndex);
    }

    /** Skips the ranges that have an index. */
    method FindInitialUploadStart(end: nat) returns (r: Result<nat, Error>)
      requires cfg.Valid()
      modifies this`nextIndexStart, backend`faults
      ensures Answers(r, Success(FirstUnindexed(cfg, backend.objects, old(nextIndexStart), end)), old(backend.faults), backend.faults)
      ensures backend.faults == old(backend.faults) ==> nextIndexStart == FirstUnindexed(cfg, backend.objects, old(nextIndexStart), end)
      ensures nextIndexStart >= old(nextIndexStart) && nextIndexStart % cfg.RangeSize() == old(nextIndexStart) % cfg.RangeSize()
    {
      while nextIndexStart <= end
        invariant backend.faults == old(backend.faults)
        invariant nextIndexStart >= old(nextIndexStart) && nextIndexStart % cfg.RangeSize() == old(nextIndexStart) % cfg.RangeSize()
        invariant FirstUnindexed(cfg, backend.objects, nextIndexStart, end) == FirstUnindexed(cfg, backend.objects, old(nextIndexStart), end)
        decreases end + 1 - nextIndexStart
      {
        var exists_ := backend.ObjectExists(Index(cfg.RangeSize(), nextIndexStart));
        if exists_.Failure? {
          return Failure(exists_.error);
        }
        if !exists_.value {
          break;
        }
        var next := NextRangeStart(nextIndexStart, cfg.RangeSize());
        if next.None? {
          return Success(nextIndexStart);
        }
        RangeIndex.NextMultiple(nextIndexStart, cfg.RangeSize());
        nextIndexStart := next.value;
      }
      return Success(nextIndexStart);
    }

    method Initialize(localTip: nat, end: nat) returns (r: Result<Stats, Error>)
      requires backend.Valid() && cfg.Valid() && !initialized
      requires localTip == |backend.chain| - 1 && end == cfg.EndHeight(localTip) && cfg.fromHeight <= end
      modifies this, backend`faults, backend`objects
      ensures backend.faults >= old(backend.faults) && (backend.faults > old(backend.faults) ==> r == Failure(Fault))
      ensures InitStep(cfg, backend.tree, backend.chain, old(Sys(State(), backend.objects)), Sys(State(), backend.objects),
                       r, backend.faults == old(backend.faults))
      ensures WritesInOrder(cfg, backend.chain, old(Sys(State(), backend.objects)), Sys(State(), backend.objects))
    {
      hide WritesInOrder, NewIndexesWhole, FirstInOrder, InOrder, Backend.Valid, IsChain, WellFormed, InitStep, Segment,
        Keep,
        PublishStep, SpanUploaded, Counted, FirstUnindexed, Probes.UploadStart, InitialBlocks, PartlyRead, AfterInit, Config.ManagedStart, Config.RangeSize;
      backend.ShowsChain();
      ManagedStartAligned(cfg);
      ghost var s := Sys(State(), backend.objects);
      nextIndexStart := cfg.ManagedStart();
      recentHashes := map[];
      var search := FindInitialUploadStart(end);
      InitSearching(cfg, backend.tree, backend.chain, s, State(), end);
      NothingWritten(cfg, backend.tree, backend.chain, s, State());
      if search.Failure? {
        return Failure(search.error);
      }
      var uploadStart := search.value;
      var visible := EnsurePublishedBoundaryVisible(end);
      if visible.Failure? {
        return Failure(visible.error);
      }
      var stats := Stats(0, 0);
      if uploadStart <= end {
        var uploaded := Probes.UploadBlocks(backend, uploadStart, end, cfg.Workers());
        if uploaded.Failure? {
          InitUploading(cfg, backend.tree, backend.chain, s, Sys(State(), backend.objects), end);
          FirstBlocksInOrder(cfg, backend.tree, backend.chain, s, Sys(State(), backend.objects), end);
          return Failure(uploaded.error);
        }
        stats := Stats(uploaded.value, 0);
      }
      InitUploaded(cfg, backend.tree, backend.chain, s, Sys(State(), backend.objects), end, stats);
      r := SettleFirst(localTip, end, stats, s);
    }

    /** The rest of a first call, once the blocks are up: the indexes, the cache, and the mark that it has been done. */
    method SettleFirst(localTip: nat, end: nat, blocks: Stats, ghost s: Sys) returns (r: Result<Stats, Error>)
      requires backend.Valid() && cfg.Valid() && localTip == |backend.chain| - 1 && end == cfg.EndHeight(localTip)
      requires cfg.fromHeight <= end && !RefusesInit(cfg, s.objects, end)
      requires Starting(cfg, s, State()) && nextIndexStart == FirstUnindexed(cfg, s.objects, cfg.ManagedStart(), end)
      requires backend.objects == InitialBlocks(cfg, backend.tree, backend.chain, s.objects, nextIndexStart, end)
      requires Counted(blocks, s.objects, backend.objects)
      modifies this, backend`faults, backend`objects
      ensures backend.faults >= old(backend.faults) && (backend.faults > old(backend.faults) ==> r == Failure(Fault))
      ensures InitStep(cfg, backend.tree, backend.chain, s, Sys(State(), backend.objects), r, backend.faults == old(backend.faults))
      ensures WritesInOrder(cfg, backend.chain, s, Sys(State(), backend.objects))
    {
      hide WritesInOrder, NewIndexesWhole, FirstInOrder, InOrder, Backend.Valid, IsChain, WellFormed, InitStep, Segment,
        Keep,
        PublishStep, SpanUploaded, Counted, FirstUnindexed, Probes.UploadStart, InitialBlocks, PartlyRead, AfterInit,
        Config.ManagedStart, Config.RangeSize, RefusesInit, Grew;
      backend.ShowsChain();
      ghost var m := Sys(State(), backend.objects);
      var indexes := PublishStableIndexes(localTip, end);
      ghost var t := Sys(State(), backend.objects);
      InitPublished(cfg, backend.tree, backend.chain, s, m, t, end, indexes.Success?);
      AllBlocksFirst(cfg, backend.tree, backend.chain, s, m.objects, t.objects);
      FollowerDoesNotMatter(cfg, backend.chain, s, t.objects);
      if indexes.Failure? {
        return Failure(indexes.error);
      }
      CountedMore(blocks, indexes.value, s.objects, m.objects, t.objects);
      var stats := Stats(blocks.uploadedBlocks + indexes.value.uploadedBlocks, blocks.publishedIndexes + indexes.value.publishedIndexes);
      var refresh := RefreshRecentHashes(CacheStart(cfg, nextIndexStart, end), end);
      if refresh.Failure? {
        InitRefreshing(cfg, backend.tree, backend.chain, s, t, State());
        return Failure(refresh.error);
      }
      KeepWhole(t.f.recent, backend.chain, CacheStart(cfg, nextIndexStart, end), end);
      lastTip := end;
      initialized := true;
      InitDone(cfg, backend.tree, backend.chain, s, Sys(State(), backend.objects), end, stats);
      return Success(stats);
    }

    /** A call after the first one: bring the blocks up to date, then publish. */
    method Follow(localTip: nat, end: nat) returns (r: Result<Stats, Error>)
      requires backend.Valid() && cfg.Valid() && Inv(cfg, backend.tree, State()) && initialized
      requires localTip == |backend.chain| - 1 && end == cfg.EndHeight(localTip) && cfg.fromHeight <= end
      modifies this, backend`faults, backend`objects
      ensures backend.faults >= old(backend.faults) && (r == Failure(Fault) <==> backend.faults > old(backend.faults))
      ensures Called(cfg, backend.tree, backend.chain, old(Sys(State(), backend.objects)), Sys(State(), backend.objects), r)
      ensures NewIndexesWhole(cfg, backend.chain, old(backend.objects), backend.objects)
    {
      hide NewIndexesWhole, Grew, Backend.Valid, IsChain, WellFormed, Inv, CallStep, IncrementStep, PublishStep, Counted,
        Comparable, Segment,
        AfterIncrement,
        Incremented, Refuses;
      backend.ShowsChain();
      ghost var s := Sys(State(), backend.objects);
      ghost var tree, chain := backend.tree, backend.chain;
      NothingDone(cfg, tree, chain, s);
      ComparableUnlessRefused(cfg, tree, s.f, chain);
      StartsManaged(cfg, tree, s.f);
      NoNewIndex(cfg, chain, s.objects, s.objects);
      var visible := EnsurePublishedBoundaryVisible(end);
      if visible.Failure? {
        return Failure(visible.error);
      }
      var uploaded := UploadIncrement(end);
      ghost var m := Sys(State(), backend.objects);
      IncrementHasNoIndex(cfg, tree, chain, s, m, uploaded, backend.faults == old(backend.faults));
      IncrementCall(cfg, tree, chain, s, m, uploaded, backend.faults == old(backend.faults));
      if uploaded.Failure? {
        return Failure(uploaded.error);
      }
      var indexes := PublishStableIndexes(localTip, end);
      PublishCall(cfg, tree, chain, s, m, Sys(State(), backend.objects), indexes.Success?);
      NewIndexesMore(cfg, chain, s.objects, m.objects, backend.objects);
      if indexes.Failure? {
        return Failure(indexes.error);
      }
      var stats := Stats(uploaded.value + indexes.value.uploadedBlocks, indexes.value.publishedIndexes);
      CountedMore(Stats(uploaded.value, 0), indexes.value, s.objects, m.objects, backend.objects);
      CallDone(cfg, tree, chain, s, Sys(State(), backend.objects), stats);
      return Success(stats);
    }

    /** One call of follow mode. */
    method UploadOnce() returns (r: Result<FollowResult, Error>)
      requires backend.Valid() && cfg.Valid() && Inv(cfg, backend.tree, State())
      modifies this, backend`faults, backend`objects
      ensures r == Failure(Fault) <==> backend.faults > old(backend.faults)
      ensures CallStep(cfg, backend.tree, backend.chain, old(Sys(State(), backend.objects)), Sys(State(), backend.objects), r)
      ensures WritesInOrder(cfg, backend.chain, old(Sys(State(), backend.objects)), Sys(State(), backend.objects))
      ensures Inv(cfg, backend.tree, State())
    {
      hide WritesInOrder, CallStep, Inv, Backend.Valid, IsChain, WellFormed;
      r := UploadCall();
      backend.ShowsChain();
      Runs.InvKept(cfg, backend.tree, backend.chain, old(Sys(State(), backend.objects)), Sys(State(), backend.objects), r);
    }

    method UploadCall() returns (r: Result<FollowResult, Error>)
      requires backend.Valid() && cfg.Valid() && Inv(cfg, backend.tree, State())
      modifies this, backend`faults, backend`objects
      ensures r == Failure(Fault) <==> backend.faults > old(backend.faults)
      ensures CallStep(cfg, backend.tree, backend.chain, old(Sys(State(), backend.objects)), Sys(State(), backend.objects), r)
      ensures WritesInOrder(cfg, backend.chain, old(Sys(State(), backend.objects)), Sys(State(), backend.objects))
    {
      hide WritesInOrder, NewIndexesWhole, FirstInOrder, Backend.Valid, IsChain, WellFormed, Inv, CallStep, InitStep;
      backend.ShowsChain();
      ghost var s := Sys(State(), backend.objects);
      ghost var tree, chain := backend.tree, backend.chain;
      var result := FollowResult(0, lastTip, nextIndexStart, 0, 0, false);
      NothingDone(cfg, tree, chain, s);
      NothingWritten(cfg, tree, chain, s, s.f);
      var count := backend.GetBlockCount();
      if count.Failure? {
        return Failure(count.error);
      }
      var localTip := count.value;
      var end := cfg.EndHeight(localTip);
      result := result.(tip := end);
      if cfg.fromHeight > end {
        return Success(FinishResult(result));
      }
      var step;
      if !initialized {
        step := Initialize(localTip, end);
        InitCall(cfg, tree, chain, s, Sys(State(), backend.objects), step, backend.faults == old(backend.faults));
      } else {
        step := Follow(localTip, end);
        LaterCallsInOrder(cfg, chain, s, Sys(State(), backend.objects));
      }
      if step.Failure? {
        return Failure(step.error);
      }
      var stats := step.value;
      return Success(FinishResult(result.(uploadedBlocks := stats.uploadedBlocks, publishedIndexes := stats.publishedIndexes)));
    }

    /** Fills in where publishing got to, and whether there was nothing to do. */
    function FinishResult(result: FollowResult): FollowResult
      reads this
    {
      result.(nextIndexStart := nextIndexStart,
              waiting := !(result.tip != result.lastTip || result.uploadedBlocks > 0 || result.publishedIndexes > 0))
    }
  }

  datatype Stats = Stats(uploadedBlocks: nat, publishedIndexes: nat)

  /** The statistics account for every object that was created. */
  ghost predicate Counted(stats: Stats, before: Objects, after: Objects) {
    && stats.uploadedBlocks + stats.publishedIndexes == |after| - |before|
    && stats.publishedIndexes == |IndexKeys(after)| - |IndexKeys(before)|
  }

  ghost predicate RangeStep(cfg: Config, tree: Tree, chain: seq<Hash>, before: Objects, after: Objects, start: nat,
          clean: bool)
    requires IsChain(tree, chain) && start + cfg.RangeSize() <= |chain|
  {
    var goal := FollowerModel.PublishRange(cfg, tree, chain, before, start);
    Within(before, after, goal) && (clean ==> after == goal)
  }

  /** The state some way into publishing, between two ranges. */
  ghost predicate PublishSoFar(cfg: Config, tree: Tree, chain: seq<Hash>, s: Sys, t: Sys, end: nat)
    requires cfg.Valid() && IsChain(tree, chain) && end < |chain| <= MAX_U64
  {
    var start, n := s.f.nextIndexStart, t.f.nextIndexStart;
    && OnTheWay(cfg, start, n, |chain| - 1, end)
    && t.f == s.f.(nextIndexStart := n, recent := t.f.recent)
    && (s.f.recent == Segment(chain, CacheStart(cfg, start, end), end + 1) ==> t.f.recent == Segment(chain, CacheStart(cfg, n, end), end + 1))
    && (n > start ==> n <= end + 1)
    && t.objects == PublishObjects(cfg, tree, chain, s.objects, start, Min(n, |chain|))
  }

  /** All that the publishing loop keeps. */
  ghost predicate Going(cfg: Config, tree: Tree, chain: seq<Hash>, s: Sys, t: Sys, end: nat, stats: Stats)
    requires cfg.Valid() && IsChain(tree, chain) && end < |chain| <= MAX_U64
  {
    && PublishSoFar(cfg, tree, chain, s, t, end) && Counted(stats, s.objects, t.objects)
    && NewIndexesWhole(cfg, chain, s.objects, t.objects) && Grew(s.objects, t.objects)
  }

  /** What publishing stable ranges does to the follower and the store. */
  ghost predicate PublishStep(cfg: Config, tree: Tree, chain: seq<Hash>, s: Sys, t: Sys, end: nat, clean: bool)
    requires cfg.Valid() && IsChain(tree, chain) && end < |chain| <= MAX_U64
  {
    var start, n := s.f.nextIndexStart, t.f.nextIndexStart;
    var stop := PublishTo(cfg, start, |chain| - 1, end);
    && OnTheWay(cfg, start, n, |chain| - 1, end)
    && t.f == s.f.(nextIndexStart := n, recent := t.f.recent)
    && (s.f.recent == Segment(chain, CacheStart(cfg, start, end), end + 1) ==> t.f.recent == Segment(chain, CacheStart(cfg, n, end), end + 1))
    && (n > start ==> n <= end + 1)
    && Grew(PublishObjects(cfg, tree, chain, s.objects, start, Min(n, |chain|)), t.objects)
    && Grew(t.objects, PublishObjects(cfg, tree, chain, s.objects, start, Min(stop, |chain|)))
    && (clean ==> n == stop && t.objects == PublishObjects(cfg, tree, chain, s.objects, start, Min(stop, |chain|)))
  }

  lemma BelowTwice(recent: map<nat, Hash>, u: nat)
    ensures Below(Below(recent, u), u) == Below(recent, u)
  {
  }

  lemma StartsManaged(cfg: Config, tree: Tree, f: Follower)
    requires Inv(cfg, tree, f)
    ensures cfg.ManagedStart() <= f.nextIndexStart
  {
  }

  lemma NothingPublished(cfg: Config, tree: Tree, f: Follower)
    requires Inv(cfg, tree, f) && !Published(cfg, f.nextIndexStart)
    ensures f.nextIndexStart == cfg.ManagedStart()
  {
  }

  lemma SegmentNext(before: map<nat, Hash>, chain: seq<Hash>, from: nat, height: nat)
    requires from <= height < |chain|
    ensures before + Segment(chain, from, height + 1) == (before + Segment(chain, from, height))[height := chain[height]]
  {
  }

  lemma SegmentNone(before: map<nat, Hash>, chain: seq<Hash>, from: nat)
    requires from <= |chain|
    ensures before + Segment(chain, from, from) == before
  {
  }

  lemma KeepTwice(recent: map<nat, Hash>, lo: nat, hi: nat)
    ensures Keep(Keep(recent, lo, hi), lo, hi) == Keep(recent, lo, hi)
  {
  }

  lemma PartlyReadTo(before: map<nat, Hash>, chain: seq<Hash>, from: nat, last: nat, k: nat)
    requires from <= k <= last + 1 <= |chain|
    ensures PartlyRead(before, chain, from, last, before + Segment(chain, from, k))
  {
  }

  /** A cache that is right below u and is then read from u on is, once pruned, exactly the chain's segment. */
  lemma CacheSettles(recent: map<nat, Hash>, chain: seq<Hash>, floor: nat, u: nat, end: nat)
    requires floor <= u <= end + 1 <= |chain| && Below(recent, u) == Segment(chain, floor, u)
    ensures Keep(recent + Segment(chain, u, end + 1), floor, end + 1) == Segment(chain, floor, end + 1)
    ensures Keep(Segment(chain, floor, end + 1), floor, end + 1) == Segment(chain, floor, end + 1)
  {
    var cache := Keep(recent + Segment(chain, u, end + 1), floor, end + 1);
    forall h: nat | floor <= h < end + 1 ensures h in cache && cache[h] == chain[h] {
      if h < u {
        assert h in Segment(chain, floor, u);
        assert h in Below(recent, u);
      }
    }
  }

  /** What a part of a call that brings the blocks up to date does to the follower and the store. */
  ghost predicate IncrementStep(cfg: Config, tree: Tree, chain: seq<Hash>, s: Sys, t: Sys, r: Result<nat, Error>,
          clean: bool)
    requires IsChain(tree, chain) && Comparable(cfg, s.f, chain)
  {
    var end := cfg.EndHeight(|chain| - 1);
    if Refuses(cfg, s.f, chain, end) then t == s && (clean ==> r == Failure(ReorgTouchesPublishedIndex))
    else if clean then
      && r == Success(|t.objects| - |s.objects|)
      && t.objects == Incremented(cfg, tree, chain, s)
      && t.f == s.f.(lastTip := end, recent := Segment(chain, Floor(cfg, s.f.nextIndexStart), end + 1))
    else
      Within(s.objects, t.objects, Incremented(cfg, tree, chain, s)) && (t.f == s.f || Refreshing(cfg, tree, chain, s, t))
  }

  lemma StepUntouched(cfg: Config, tree: Tree, chain: seq<Hash>, s: Sys, r: Result<nat, Error>)
    requires IsChain(tree, chain) && Comparable(cfg, s.f, chain)
    ensures IncrementStep(cfg, tree, chain, s, s, r, false)
    ensures Refuses(cfg, s.f, chain, cfg.EndHeight(|chain| - 1)) ==>
              IncrementStep(cfg, tree, chain, s, s, Failure(ReorgTouchesPublishedIndex), true)
  {
    var end := cfg.EndHeight(|chain| - 1);
    AddBlocksGrows(tree, s.objects, chain, UploadFrom(cfg, s.f, chain, end), end + 1);
    hide IsChain, AddBlocks, UploadFrom;
  }

  lemma StepUploading(cfg: Config, tree: Tree, chain: seq<Hash>, s: Sys, objects: Objects, r: Result<nat, Error>)
    requires IsChain(tree, chain) && Comparable(cfg, s.f, chain) && !Refuses(cfg, s.f, chain, cfg.EndHeight(|chain| - 1))
    requires var end := cfg.EndHeight(|chain| - 1);
             SpanUploaded(tree, chain, s.objects, objects, UploadFrom(cfg, s.f, chain, end), end, false)
    ensures IncrementStep(cfg, tree, chain, s, s.(objects := objects), r, false)
  {
    hide IsChain, AddBlocks, UploadFrom, Within, Refuses;
  }

  lemma StepRefreshing(cfg: Config, tree: Tree, chain: seq<Hash>, s: Sys, objects: Objects, base: map<nat, Hash>,
                       recent: map<nat, Hash>, r: Result<nat, Error>)
    requires IsChain(tree, chain) && Comparable(cfg, s.f, chain) && !Refuses(cfg, s.f, chain, cfg.EndHeight(|chain| - 1))
    requires var end := cfg.EndHeight(|chain| - 1);
             var u := UploadFrom(cfg, s.f, chain, end);
             && u <= end && SpanUploaded(tree, chain, s.objects, objects, u, end, true)
             && (base == Below(s.f.recent, u) || (u == s.f.lastTip + 1 && base == s.f.recent))
             && PartlyRead(base, chain, u, end, recent)
    ensures IncrementStep(cfg, tree, chain, s, Sys(s.f.(recent := recent), objects), r, false)
  {
    hide IsChain, AddBlocks, UploadFrom, Within, Refuses, Below, Segment;
  }

  /** The end height is not below the cache's floor, so that is where the cache starts. */
  lemma FloorIsStart(cfg: Config, f: Follower, chain: seq<Hash>)
    requires Comparable(cfg, f, chain)
    ensures var end := cfg.EndHeight(|chain| - 1);
            CacheStart(cfg, f.nextIndexStart, end) == Floor(cfg, f.nextIndexStart) <= CheckHeight(f, end) <= end < |chain|
  {
    hide Config.ManagedStart;
  }

  /** The chain is not refused, the new branch starts at u, and its blocks are stored. */
  ghost predicate BranchUp(cfg: Config, tree: Tree, chain: seq<Hash>, s: Sys, objects: Objects, u: nat, end: nat) {
    && WellFormed(tree) && IsChain(tree, chain) && Inv(cfg, tree, s.f) && s.f.initialized && Comparable(cfg, s.f, chain)
    && end == cfg.EndHeight(|chain| - 1) && !Refuses(cfg, s.f, chain, end) && u == UploadFrom(cfg, s.f, chain, end)
    && (if u <= end then SpanUploaded(tree, chain, s.objects, objects, u, end, true) else objects == s.objects)
  }

  lemma BranchBounds(cfg: Config, tree: Tree, chain: seq<Hash>, s: Sys, objects: Objects, u: nat, end: nat)
    requires BranchUp(cfg, tree, chain, s, objects, u, end)
    ensures IsChain(tree, chain) && Comparable(cfg, s.f, chain)
    ensures end < |chain| && Floor(cfg, s.f.nextIndexStart) <= u <= end + 1
    ensures CacheStart(cfg, s.f.nextIndexStart, end) == Floor(cfg, s.f.nextIndexStart)
    ensures Below(s.f.recent, u) == Segment(chain, Floor(cfg, s.f.nextIndexStart), u)
  {
    hide WellFormed, IsChain, Inv, Comparable, Refuses, UploadFrom, SpanUploaded, Floor, CacheStart, Below, Segment, CheckHeight;
    ForkFacts(cfg, tree, s.f, chain);
    FloorIsStart(cfg, s.f, chain);
  }

  lemma BranchFaulted(cfg: Config, tree: Tree, chain: seq<Hash>, s: Sys, objects: Objects, u: nat, end: nat,
          recent: map<nat, Hash>)
    requires BranchUp(cfg, tree, chain, s, objects, u, end)
    requires u <= end < |chain| && PartlyRead(Below(s.f.recent, u), chain, u, end, recent)
    ensures IncrementStep(cfg, tree, chain, s, Sys(s.f.(recent := recent), objects), Failure(Fault), false)
  {
    hide WellFormed, IsChain, Inv, Comparable, Refuses, UploadFrom, SpanUploaded, Below, PartlyRead, IncrementStep;
    StepRefreshing(cfg, tree, chain, s, objects, Below(s.f.recent, u), recent, Failure(Fault));
  }

  /** Once the new branch has been read on top of what stayed, pruning leaves exactly the chain's segment. */
  lemma BranchSwitched(cfg: Config, tree: Tree, chain: seq<Hash>, s: Sys, objects: Objects, u: nat, end: nat,
          uploaded: nat, read: map<nat, Hash>, recent: map<nat, Hash>)
    requires BranchUp(cfg, tree, chain, s, objects, u, end) && |objects| - |s.objects| == uploaded
    requires end < |chain| && recent == Keep(read, CacheStart(cfg, s.f.nextIndexStart, end), end + 1)
    requires u > end ==> read == Below(s.f.recent, u)
    requires u <= end ==> read == Keep(Below(s.f.recent, u) + Segment(chain, u, end + 1),
                                       CacheStart(cfg, s.f.nextIndexStart, end), end + 1)
    ensures IncrementStep(cfg, tree, chain, s, Sys(s.f.(lastTip := end, recent := recent), objects), Success(uploaded), true)
  {
    hide *;
    BranchBounds(cfg, tree, chain, s, objects, u, end);
    BelowTwice(s.f.recent, u);
    CacheSettles(Below(s.f.recent, u), chain, Floor(cfg, s.f.nextIndexStart), u, end);
    if u > end {
      SegmentNone(read, chain, end + 1);
    }
    BranchDone(cfg, tree, chain, s, Sys(s.f.(lastTip := end, recent := recent), objects), u, end, uploaded);
  }

  lemma BranchDone(cfg: Config, tree: Tree, chain: seq<Hash>, s: Sys, t: Sys, u: nat, end: nat,
          uploaded: nat)
    requires BranchUp(cfg, tree, chain, s, t.objects, u, end) && u <= end + 1 <= |chain| && |t.objects| - |s.objects| == uploaded
    requires t.f == s.f.(lastTip := end, recent := Segment(chain, Floor(cfg, s.f.nextIndexStart), end + 1))
    ensures IncrementStep(cfg, tree, chain, s, t, Success(uploaded), true)
  {
    hide WellFormed, IsChain, Inv, Comparable, Refuses, UploadFrom, SpanUploaded, Segment, Floor, IncrementStep;
    StepDone(cfg, tree, chain, s, t, Success(uploaded));
  }

  lemma StepDone(cfg: Config, tree: Tree, chain: seq<Hash>, s: Sys, t: Sys, r: Result<nat, Error>)
    requires IsChain(tree, chain) && Comparable(cfg, s.f, chain) && !Refuses(cfg, s.f, chain, cfg.EndHeight(|chain| - 1))
    requires var end := cfg.EndHeight(|chain| - 1);
             var u := UploadFrom(cfg, s.f, chain, end);
             && u <= end + 1
             && (if u <= end then SpanUploaded(tree, chain, s.objects, t.objects, u, end, true) else t.objects == s.objects)
             && t.f == s.f.(lastTip := end, recent := Segment(chain, Floor(cfg, s.f.nextIndexStart), end + 1))
    requires r == Success(|t.objects| - |s.objects|)
    ensures IncrementStep(cfg, tree, chain, s, t, r, true)
  {
    hide IsChain, AddBlocks, UploadFrom, SpanUploaded, Refuses, Segment, Config.ManagedStart;
    var end := cfg.EndHeight(|chain| - 1);
    CleanUpload(tree, chain, s.objects, t.objects, UploadFrom(cfg, s.f, chain, end), end);
  }

  lemma CleanUpload(tree: Tree, chain: seq<Hash>, before: Objects, after: Objects, u: nat, end: nat)
    requires IsChain(tree, chain) && u <= end + 1 <= |chain|
    requires if u <= end then SpanUploaded(tree, chain, before, after, u, end, true) else after == before
    ensures after == AddBlocks(tree, before, chain, u, end + 1)
  {
    hide IsChain, AddBlocks, Within;
    if u == end + 1 {
      AddBlocksNone(tree, before, chain, u, end + 1);
    }
  }

  lemma ForkFacts(cfg: Config, tree: Tree, f: Follower, chain: seq<Hash>)
    requires WellFormed(tree) && IsChain(tree, chain) && Inv(cfg, tree, f) && f.initialized && Comparable(cfg, f, chain)
    requires !Refuses(cfg, f, chain, cfg.EndHeight(|chain| - 1))
    ensures var end := cfg.EndHeight(|chain| - 1);
            var u := UploadFrom(cfg, f, chain, end);
            var floor := Floor(cfg, f.nextIndexStart);
            && floor <= u <= CheckHeight(f, end) + 1 && (Published(cfg, f.nextIndexStart) ==> f.nextIndexStart <= u)
            && Below(f.recent, u) == Segment(chain, floor, u)
  {
    TrueFork(cfg, tree, f, chain);
  }

  /** When the checked height is the published boundary and disagrees, the call must refuse. */
  lemma BoundaryDiffers(cfg: Config, f: Follower, chain: seq<Hash>)
    requires Comparable(cfg, f, chain) && Published(cfg, f.nextIndexStart)
    requires var check := CheckHeight(f, cfg.EndHeight(|chain| - 1));
             check < f.nextIndexStart && (check in f.recent ==> f.recent[check] != chain[check])
    ensures Refuses(cfg, f, chain, cfg.EndHeight(|chain| - 1))
  {
  }

  /** When the checked height agrees, it is the fork, and there is nothing to refuse. */
  lemma MatchIsFork(cfg: Config, tree: Tree, f: Follower, chain: seq<Hash>)
    requires WellFormed(tree) && IsChain(tree, chain) && Inv(cfg, tree, f) && f.initialized && Comparable(cfg, f, chain)
    requires var check := CheckHeight(f, cfg.EndHeight(|chain| - 1)); check in f.recent && f.recent[check] == chain[check]
    ensures var end := cfg.EndHeight(|chain| - 1);
            !Refuses(cfg, f, chain, end) && UploadFrom(cfg, f, chain, end) == CheckHeight(f, end) + 1
  {
    RefusesIffNoAgreement(cfg, tree, f, chain);
    hide IsChain, WellFormed, Refuses, Inv;
  }

  // ----- publishing, step by step

  lemma NoNewIndex(cfg: Config, chain: seq<Hash>, before: Objects, after: Objects)
    requires forall st: nat :: Index(cfg.RangeSize(), st) in after ==> Index(cfg.RangeSize(), st) in before
    ensures NewIndexesWhole(cfg, chain, before, after)
  {
  }

  lemma BlocksAreNoIndexes(cfg: Config, tree: Tree, chain: seq<Hash>, before: Objects, after: Objects, lo: nat, hi: nat)
    requires IsChain(tree, chain) && hi <= |chain| && Grew(after, AddBlocks(tree, before, chain, lo, hi))
    ensures NewIndexesWhole(cfg, chain, before, after)
  {
    hide IsChain, Config.RangeSize;
    var full := AddBlocks(tree, before, chain, lo, hi);
    forall st: nat | Index(cfg.RangeSize(), st) in after ensures Index(cfg.RangeSize(), st) in before {
      assert Index(cfg.RangeSize(), st) in full;
    }
  }

  lemma SpanHasNoIndex(cfg: Config, tree: Tree, chain: seq<Hash>, before: Objects, after: Objects, from: nat, tip: nat)
    requires IsChain(tree, chain) && tip < |chain| && SpanUploaded(tree, chain, before, after, from, tip, false)
    ensures NewIndexesWhole(cfg, chain, before, after) && Grew(before, after)
  {
    hide IsChain, AddBlocks, NewIndexesWhole, Grew;
    BlocksAreNoIndexes(cfg, tree, chain, before, after, from, tip + 1);
  }

  lemma NewIndexesMore(cfg: Config, chain: seq<Hash>, a: Objects, b: Objects, c: Objects)
    requires NewIndexesWhole(cfg, chain, a, b) && NewIndexesWhole(cfg, chain, b, c) && Grew(b, c)
    ensures NewIndexesWhole(cfg, chain, a, c)
  {
    hide RangeBin, Config.RangeSize, RangeWhole;
    forall st: nat | Index(cfg.RangeSize(), st) in c && Index(cfg.RangeSize(), st) !in a
      ensures RangeWhole(c, chain, st, cfg.RangeSize())
    {
      if Index(cfg.RangeSize(), st) in b {
        WholeStays(b, c, chain, st, cfg.RangeSize());
      }
    }
  }

  lemma WholeStays(before: Objects, after: Objects, chain: seq<Hash>, st: nat, size: nat)
    requires RangeWhole(before, chain, st, size) && Grew(before, after)
    ensures RangeWhole(after, chain, st, size)
  {
    hide RangeBin;
    forall h: nat | st <= h < st + size ensures Stored(after, chain, h) {
      assert Stored(before, chain, h);
    }
  }

  /** The index of a range whose blocks have all been uploaded. */
  lemma IndexAfterBlocks(cfg: Config, tree: Tree, chain: seq<Hash>, before: Objects, filled: Objects, after: Objects,
          start: nat)
    requires IsChain(tree, chain) && start + cfg.RangeSize() <= |chain|
    requires SpanUploaded(tree, chain, before, filled, start, start + cfg.RangeSize() - 1, true)
    requires after == filled || after == PutNew(filled, Index(cfg.RangeSize(), start), RangeBin(chain, start, cfg.RangeSize()))
    ensures NewIndexesWhole(cfg, chain, before, after) && Grew(before, after)
  {
    hide IsChain, RangeBin, Config.RangeSize, AddBlocks;
    var size := cfg.RangeSize();
    AddBlocksGrows(tree, before, chain, start, start + size);
    BlocksAreNoIndexes(cfg, tree, chain, before, filled, start, start + size);
    NewIndexWhole(cfg, chain, filled, after, start);
    NewIndexesMore(cfg, chain, before, filled, after);
  }

  lemma NewIndexWhole(cfg: Config, chain: seq<Hash>, filled: Objects, after: Objects, start: nat)
    requires start + cfg.RangeSize() <= |chain| && forall h :: start <= h < start + cfg.RangeSize() ==> Stored(filled, chain, h)
    requires after == filled || after == PutNew(filled, Index(cfg.RangeSize(), start), RangeBin(chain, start, cfg.RangeSize()))
    ensures NewIndexesWhole(cfg, chain, filled, after) && Grew(filled, after)
  {
    hide RangeBin, Config.RangeSize;
    forall h: nat | start <= h < start + cfg.RangeSize() ensures Stored(after, chain, h) {
      assert Stored(filled, chain, h);
    }
  }

  lemma IncrementHasNoIndex(cfg: Config, tree: Tree, chain: seq<Hash>, s: Sys, m: Sys, r: Result<nat, Error>, clean: bool)
    requires IsChain(tree, chain) && Comparable(cfg, s.f, chain) && IncrementStep(cfg, tree, chain, s, m, r, clean)
    ensures NewIndexesWhole(cfg, chain, s.objects, m.objects) && Grew(s.objects, m.objects)
  {
    hide IsChain, AddBlocks, NewIndexesWhole, Grew, Refuses, Segment, Refreshing, UploadFrom;
    var end := cfg.EndHeight(|chain| - 1);
    NoNewIndex(cfg, chain, s.objects, s.objects);
    GrewReflexive(s.objects);
    GrewReflexive(m.objects);
    if m != s {
      AddBlocksGrows(tree, s.objects, chain, UploadFrom(cfg, s.f, chain, end), end + 1);
      BlocksAreNoIndexes(cfg, tree, chain, s.objects, m.objects, UploadFrom(cfg, s.f, chain, end), end + 1);
    }
  }

  lemma NothingWritten(cfg: Config, tree: Tree, chain: seq<Hash>, s: Sys, f: Follower)
    requires cfg.Valid() && IsChain(tree, chain)
    ensures WritesInOrder(cfg, chain, s, Sys(f, s.objects))
  {
    hide IsChain, Probes.UploadStart, FirstUnindexed, Config.RangeSize, Config.ManagedStart;
  }

  lemma FollowerDoesNotMatter(cfg: Config, chain: seq<Hash>, s: Sys, objects: Objects)
    requires cfg.Valid() && 0 < |chain|
    ensures forall f, g: Follower :: WritesInOrder(cfg, chain, s, Sys(f, objects)) ==> WritesInOrder(cfg, chain, s, Sys(g, objects))
  {
    hide NewIndexesWhole, FirstInOrder;
  }

  lemma LaterCallsInOrder(cfg: Config, chain: seq<Hash>, s: Sys, t: Sys)
    requires cfg.Valid() && 0 < |chain| && s.f.initialized && NewIndexesWhole(cfg, chain, s.objects, t.objects)
    ensures WritesInOrder(cfg, chain, s, t)
  {
    hide NewIndexesWhole, FirstInOrder;
  }

  lemma FirstBlocksInOrder(cfg: Config, tree: Tree, chain: seq<Hash>, s: Sys, t: Sys, end: nat)
    requires cfg.Valid() && IsChain(tree, chain) && |chain| <= MAX_U64 && end == cfg.EndHeight(|chain| - 1)
    requires t.f.nextIndexStart == FirstUnindexed(cfg, s.objects, cfg.ManagedStart(), end) <= end
    requires var probed := Probes.UploadStart(s.objects, chain, t.f.nextIndexStart, end, Probes.PROBE_STEP);
             && SpanUploaded(tree, chain, s.objects, t.objects, probed, end, false)
             && (cfg.Workers() <= 1 ==> InOrder(chain, s.objects, t.objects, probed, end))
    ensures WritesInOrder(cfg, chain, s, t)
  {
    hide IsChain, FirstUnindexed, Probes.UploadStart, SpanUploaded, InOrder, NewIndexesWhole, Config.ManagedStart;
    SpanHasNoIndex(cfg, tree, chain, s.objects, t.objects, Probes.UploadStart(s.objects, chain, t.f.nextIndexStart, end, Probes.PROBE_STEP), end);
  }

  /** Once the upload is complete, whatever else comes on top is in order. */
  lemma AllBlocksFirst(cfg: Config, tree: Tree, chain: seq<Hash>, s: Sys, blocks: Objects, after: Objects)
    requires cfg.Valid() && IsChain(tree, chain) && |chain| <= MAX_U64
    requires var end := cfg.EndHeight(|chain| - 1);
             blocks == InitialBlocks(cfg, tree, chain, s.objects, FirstUnindexed(cfg, s.objects, cfg.ManagedStart(), end), end)
    requires NewIndexesWhole(cfg, chain, blocks, after) && Grew(blocks, after)
    ensures WritesInOrder(cfg, chain, s, Sys(s.f, after))
  {
    hide IsChain, AddBlocks, FirstUnindexed, Probes.UploadStart, NewIndexesWhole, Config.ManagedStart, Grew, Stored;
    ChainIsThere(tree, chain);
    var end := cfg.EndHeight(|chain| - 1);
    var start := FirstUnindexed(cfg, s.objects, cfg.ManagedStart(), end);
    NoNewIndex(cfg, chain, s.objects, s.objects);
    GrewReflexive(blocks);
    if start <= end {
      var probed := Probes.UploadStart(s.objects, chain, start, end, Probes.PROBE_STEP);
      BlocksAreNoIndexes(cfg, tree, chain, s.objects, blocks, probed, end + 1);
      AddBlocksGrows(tree, s.objects, chain, probed, end + 1);
      forall h | probed <= h <= end ensures Stored(after, chain, h) {
        KeepsBlock(blocks, after, chain, h);
      }
    }
    NewIndexesMore(cfg, chain, s.objects, blocks, after);
  }

  lemma ChainIsThere(tree: Tree, chain: seq<Hash>)
    requires IsChain(tree, chain)
    ensures |chain| > 0
  {
  }

  lemma KeepsBlock(before: Objects, after: Objects, chain: seq<Hash>, h: nat)
    requires h < |chain| && Grew(before, after) && Stored(before, chain, h)
    ensures Stored(after, chain, h)
  {
  }

  lemma RangeBlocksStep(cfg: Config, tree: Tree, chain: seq<Hash>, before: Objects, cur: Objects, start: nat)
    requires IsChain(tree, chain) && start + cfg.RangeSize() <= |chain|
    requires SpanUploaded(tree, chain, before, cur, start, start + cfg.RangeSize() - 1, false)
    ensures RangeStep(cfg, tree, chain, before, cur, start, false)
  {
    hide AddBlocks, FollowerModel.PublishRange, IsChain, Grew, Config.RangeSize;
    Pub.PublishRangeGrows(cfg, tree, chain, before, start);
    var filled, goal := AddBlocks(tree, before, chain, start, start + cfg.RangeSize()), FollowerModel.PublishRange(cfg, tree, chain, before, start);
    GrewTransitive(cur, filled, goal);
  }

  lemma RangeIndexStep(cfg: Config, tree: Tree, chain: seq<Hash>, before: Objects, filled: Objects, start: nat)
    requires IsChain(tree, chain) && start + cfg.RangeSize() <= |chain|
    requires SpanUploaded(tree, chain, before, filled, start, start + cfg.RangeSize() - 1, true)
    ensures var k := Index(cfg.RangeSize(), start);
            var done := PutNew(filled, k, RangeBin(chain, start, cfg.RangeSize()));
            && RangeStep(cfg, tree, chain, before, filled, start, false)
            && RangeStep(cfg, tree, chain, before, done, start, false)
            && RangeStep(cfg, tree, chain, before, done, start, true)
            && |filled| >= |before|
            && Counted(Stats(|filled| - |before|, if k !in filled then 1 else 0), before, done)
  {
    hide AddBlocks, IsChain, RangeBin, IndexKeys, Grew, PutNew, Config.RangeSize;
    Pub.PublishRangeGrows(cfg, tree, chain, before, start);
    IndexesOfBlocks(tree, before, chain, start, start + cfg.RangeSize());
    CountIndex(filled, Index(cfg.RangeSize(), start), RangeBin(chain, start, cfg.RangeSize()));
    GrewCounts(before, filled);
    GrewReflexive(FollowerModel.PublishRange(cfg, tree, chain, before, start));
  }

  lemma GrewCounts(a: Objects, b: Objects)
    requires Grew(a, b)
    ensures |a| <= |b|
  {
    assert a.Keys <= b.Keys;
    SubsetCounts(a.Keys, b.Keys);
  }

  lemma {:induction false} SubsetCounts<T>(a: set<T>, b: set<T>)
    requires a <= b
    ensures |a| <= |b|
  {
    if x :| x in a {
      SubsetCounts(a - {x}, b - {x});
    }
  }

  lemma IndexesOfBlocks(tree: Tree, objects: Objects, chain: seq<Hash>, lo: nat, hi: nat)
    requires IsChain(tree, chain) && hi <= |chain|
    ensures IndexKeys(AddBlocks(tree, objects, chain, lo, hi)) == IndexKeys(objects)
  {
  }

  lemma CountIndex(objects: Objects, k: Key, data: Bytes)
    requires k.Index?
    ensures |PutNew(objects, k, data)| == |objects| + if k in objects then 0 else 1
    ensures |IndexKeys(PutNew(objects, k, data))| == |IndexKeys(objects)| + if k in objects then 0 else 1
  {
    PutNewGrowth(objects, k, data);
    if k !in objects {
      assert IndexKeys(PutNew(objects, k, data)) == IndexKeys(objects) + {k};
    }
  }

  lemma CountedMore(a: Stats, b: Stats, x: Objects, y: Objects, z: Objects)
    requires Counted(a, x, y) && Counted(b, y, z)
    ensures Counted(Stats(a.uploadedBlocks + b.uploadedBlocks, a.publishedIndexes + b.publishedIndexes), x, z)
  {
  }

  lemma PublishStart(cfg: Config, tree: Tree, chain: seq<Hash>, s: Sys, end: nat)
    requires cfg.Valid() && IsChain(tree, chain) && end < |chain| <= MAX_U64
    ensures Going(cfg, tree, chain, s, s, end, Stats(0, 0)) && Counted(Stats(0, 0), s.objects, s.objects)
    ensures NewIndexesWhole(cfg, chain, s.objects, s.objects) && Grew(s.objects, s.objects)
    ensures |chain| - 1 < cfg.stableDelay ==> PublishStep(cfg, tree, chain, s, s, end, true)
  {
    GrewReflexive(s.objects);
    hide Grew, IsChain, Segment, FollowerModel.PublishRange;
  }

  lemma PublishGoesOn(cfg: Config, tree: Tree, chain: seq<Hash>, s: Sys, t: Sys, end: nat, stats: Stats)
    requires cfg.Valid() && IsChain(tree, chain) && end < |chain| <= MAX_U64
    requires Going(cfg, tree, chain, s, t, end, stats)
    requires t.f.nextIndexStart <= end && cfg.Ready(t.f.nextIndexStart, |chain| - 1, end)
    ensures t.f.nextIndexStart + cfg.RangeSize() <= |chain|
  {
    hide Going, IsChain;
  }

  /** Inside a range's turn, and after it. */
  lemma PublishMidRange(cfg: Config, tree: Tree, chain: seq<Hash>, s: Sys, t: Sys, objects: Objects, end: nat, stats: Stats,
          range: Result<Stats, Error>)
    requires cfg.Valid() && IsChain(tree, chain) && end < |chain| <= MAX_U64
    requires Going(cfg, tree, chain, s, t, end, stats)
    requires t.f.nextIndexStart <= end && cfg.Ready(t.f.nextIndexStart, |chain| - 1, end)
    requires RangeStep(cfg, tree, chain, t.objects, objects, t.f.nextIndexStart, range.Success?)
    requires NewIndexesWhole(cfg, chain, t.objects, objects) && Grew(t.objects, objects)
    requires range.Success? ==> Counted(range.value, t.objects, objects)
    requires cfg.ManagedStart() <= s.f.nextIndexStart
    ensures PublishStep(cfg, tree, chain, s, t.(objects := objects), end, false)
    ensures NewIndexesWhole(cfg, chain, s.objects, objects) && Grew(s.objects, objects)
    ensures var n := t.f.nextIndexStart;
            var next := n + cfg.RangeSize();
            var recent := Keep(t.f.recent[next - 1 := chain[next - 1]], CacheStart(cfg, next, end), end + 1);
            && NextRangeStart(n, cfg.RangeSize()) == Some(next) && EndOfRange(n, cfg.RangeSize()) == next - 1
            && (range.Success? ==>
                  Going(cfg, tree, chain, s, Sys(t.f.(nextIndexStart := next, recent := recent), objects), end,
                        Stats(stats.uploadedBlocks + range.value.uploadedBlocks, stats.publishedIndexes + range.value.publishedIndexes)))
  {
    hide IsChain, Segment, Keep, PublishSoFar, PublishStep, Counted, NewIndexesWhole, Grew, RangeStep;
    RangeMidway(cfg, tree, chain, s, t, objects, end, range.Success?);
    NewIndexesMore(cfg, chain, s.objects, t.objects, objects);
    GrewTransitive(s.objects, t.objects, objects);
    if range.Success? {
      CountedMore(stats, range.value, s.objects, t.objects, objects);
    }
  }

  lemma RangeMidway(cfg: Config, tree: Tree, chain: seq<Hash>, s: Sys, t: Sys, objects: Objects, end: nat, clean: bool)
    requires cfg.Valid() && IsChain(tree, chain) && end < |chain| <= MAX_U64
    requires PublishSoFar(cfg, tree, chain, s, t, end)
    requires t.f.nextIndexStart <= end && cfg.Ready(t.f.nextIndexStart, |chain| - 1, end)
    requires RangeStep(cfg, tree, chain, t.objects, objects, t.f.nextIndexStart, clean)
    requires cfg.ManagedStart() <= s.f.nextIndexStart
    ensures PublishStep(cfg, tree, chain, s, t.(objects := objects), end, false)
    ensures var n := t.f.nextIndexStart;
            var next := n + cfg.RangeSize();
            var recent := Keep(t.f.recent[next - 1 := chain[next - 1]], CacheStart(cfg, next, end), end + 1);
            && NextRangeStart(n, cfg.RangeSize()) == Some(next) && EndOfRange(n, cfg.RangeSize()) == next - 1
            && (clean ==> PublishSoFar(cfg, tree, chain, s, Sys(t.f.(nextIndexStart := next, recent := recent), objects), end))
  {
    hide IsChain, Segment, Keep, PublishObjects, PublishTo, FollowerModel.PublishRange, Grew;
    var start, n := s.f.nextIndexStart, t.f.nextIndexStart;
    var next, stop := n + cfg.RangeSize(), PublishTo(cfg, start, |chain| - 1, end);
    Pub.PublishNext(cfg, tree, chain, s.objects, start, n, end);
    Pub.PublishedSoFar(cfg, tree, chain, s.objects, start, next, end);
    GrewTransitive(objects, PublishObjects(cfg, tree, chain, s.objects, start, next),
                   PublishObjects(cfg, tree, chain, s.objects, start, Min(stop, |chain|)));
    BoundaryKept(chain, CacheStart(cfg, n, end), next - 1, end);
  }

  /** The boundary's hash is in the cache already; pruning then drops what lies below it. */
  lemma BoundaryKept(chain: seq<Hash>, lo: nat, b: nat, end: nat)
    requires lo <= b <= end < |chain|
    ensures Keep(Segment(chain, lo, end + 1)[b := chain[b]], b, end + 1) == Segment(chain, b, end + 1)
  {
  }

  lemma PublishEnds(cfg: Config, tree: Tree, chain: seq<Hash>, s: Sys, t: Sys, end: nat, stats: Stats)
    requires cfg.Valid() && IsChain(tree, chain) && end < |chain| <= MAX_U64
    requires Going(cfg, tree, chain, s, t, end, stats)
    requires !(t.f.nextIndexStart <= end && cfg.Ready(t.f.nextIndexStart, |chain| - 1, end))
    ensures PublishStep(cfg, tree, chain, s, t, end, true)
    ensures Counted(stats, s.objects, t.objects) && NewIndexesWhole(cfg, chain, s.objects, t.objects) && Grew(s.objects, t.objects)
  {
    hide Grew, IsChain, Segment, PublishObjects, Counted, NewIndexesWhole;
    GrewReflexive(t.objects);
  }

  // ----- the first call, step by step

  /** What Initialize does to the follower and the store. */
  ghost predicate InitStep(cfg: Config, tree: Tree, chain: seq<Hash>, s: Sys, t: Sys, r: Result<Stats, Error>, clean: bool)
    requires cfg.Valid() && IsChain(tree, chain) && |chain| <= MAX_U64
  {
    var end := cfg.EndHeight(|chain| - 1);
    var start := FirstUnindexed(cfg, s.objects, cfg.ManagedStart(), end);
    if !clean then
      && !t.f.initialized && t.f.lastTip == s.f.lastTip
      && t.f.nextIndexStart >= cfg.ManagedStart() && t.f.nextIndexStart % cfg.RangeSize() == 0
      && Within(s.objects, t.objects, AfterInit(cfg, tree, chain, s.objects).objects)
    else if RefusesInit(cfg, s.objects, end) then
      r == Failure(ReorgTouchesPublishedIndex) && t == Sys(Follower(false, s.f.lastTip, start, map[]), s.objects)
    else
      r.Success? && t == AfterInit(cfg, tree, chain, s.objects) && Counted(r.value, s.objects, t.objects)
  }

  /** The follower in the middle of its first call. */
  ghost predicate Starting(cfg: Config, s: Sys, f: Follower) {
    && !s.f.initialized && f == s.f.(nextIndexStart := f.nextIndexStart, recent := f.recent)
    && f.nextIndexStart >= cfg.ManagedStart() && f.nextIndexStart % cfg.RangeSize() == 0
  }

  lemma InitGoalGrows(cfg: Config, tree: Tree, chain: seq<Hash>, objects: Objects, start: nat, end: nat)
    requires cfg.Valid() && IsChain(tree, chain) && end < |chain| <= MAX_U64
    ensures var blocks := InitialBlocks(cfg, tree, chain, objects, start, end);
            Grew(objects, blocks) && Grew(objects, Settled(cfg, tree, chain, blocks, start, end).objects)
            && Grew(blocks, Settled(cfg, tree, chain, blocks, start, end).objects)
  {
    hide IsChain, AddBlocks, Probes.UploadStart, Grew, PublishObjects, Segment;
    var blocks := InitialBlocks(cfg, tree, chain, objects, start, end);
    GrewReflexive(objects);
    if start <= end {
      AddBlocksGrows(tree, objects, chain, Probes.UploadStart(objects, chain, start, end, Probes.PROBE_STEP), end + 1);
    }
    Pub.PublishGrows(cfg, tree, chain, blocks, start, Min(PublishTo(cfg, start, |chain| - 1, end), |chain|));
    GrewTransitive(objects, blocks, Settled(cfg, tree, chain, blocks, start, end).objects);
  }

  lemma InitSearching(cfg: Config, tree: Tree, chain: seq<Hash>, s: Sys, f: Follower, end: nat)
    requires cfg.Valid() && IsChain(tree, chain) && |chain| <= MAX_U64 && end == cfg.EndHeight(|chain| - 1)
    requires Starting(cfg, s, f)
    ensures InitStep(cfg, tree, chain, s, Sys(f, s.objects), Failure(Fault), false)
    ensures f.nextIndexStart == FirstUnindexed(cfg, s.objects, cfg.ManagedStart(), end) && f.recent == map[]
            && Published(cfg, f.nextIndexStart) && end < f.nextIndexStart - 1 ==>
              RefusesInit(cfg, s.objects, end) && InitStep(cfg, tree, chain, s, Sys(f, s.objects), Failure(ReorgTouchesPublishedIndex), true)
  {
    hide IsChain, FirstUnindexed, InitialBlocks, Settled, Counted, Grew;
    InitGoalGrows(cfg, tree, chain, s.objects, FirstUnindexed(cfg, s.objects, cfg.ManagedStart(), end), end);
    GrewReflexive(s.objects);
  }

  lemma InitUploading(cfg: Config, tree: Tree, chain: seq<Hash>, s: Sys, t: Sys, end: nat)
    requires cfg.Valid() && IsChain(tree, chain) && |chain| <= MAX_U64 && end == cfg.EndHeight(|chain| - 1)
    requires Starting(cfg, s, t.f) && t.f.nextIndexStart == FirstUnindexed(cfg, s.objects, cfg.ManagedStart(), end) <= end
    requires SpanUploaded(tree, chain, s.objects, t.objects, Probes.UploadStart(s.objects, chain, t.f.nextIndexStart, end, Probes.PROBE_STEP), end, false)
    ensures InitStep(cfg, tree, chain, s, t, Failure(Fault), false)
  {
    hide IsChain, FirstUnindexed, AddBlocks, Probes.UploadStart, Settled, Counted, Grew;
    var blocks := InitialBlocks(cfg, tree, chain, s.objects, t.f.nextIndexStart, end);
    InitGoalGrows(cfg, tree, chain, s.objects, t.f.nextIndexStart, end);
    GrewTransitive(t.objects, blocks, Settled(cfg, tree, chain, blocks, t.f.nextIndexStart, end).objects);
  }

  lemma InitUploaded(cfg: Config, tree: Tree, chain: seq<Hash>, s: Sys, m: Sys, end: nat, stats: Stats)
    requires cfg.Valid() && IsChain(tree, chain) && |chain| <= MAX_U64 && end == cfg.EndHeight(|chain| - 1)
    requires var start := m.f.nextIndexStart;
             if start <= end then
               && SpanUploaded(tree, chain, s.objects, m.objects, Probes.UploadStart(s.objects, chain, start, end, Probes.PROBE_STEP), end, true)
               && |m.objects| >= |s.objects| && stats == Stats(|m.objects| - |s.objects|, 0)
             else m.objects == s.objects && stats == Stats(0, 0)
    ensures m.objects == InitialBlocks(cfg, tree, chain, s.objects, m.f.nextIndexStart, end)
    ensures Counted(stats, s.objects, m.objects)
  {
    hide IsChain, AddBlocks, Probes.UploadStart, IndexKeys, Within;
    var start := m.f.nextIndexStart;
    if start <= end {
      IndexesOfBlocks(tree, s.objects, chain, Probes.UploadStart(s.objects, chain, start, end, Probes.PROBE_STEP), end + 1);
    }
  }

  lemma InitPublished(cfg: Config, tree: Tree, chain: seq<Hash>, s: Sys, m: Sys, t: Sys, end: nat, clean: bool)
    requires cfg.Valid() && IsChain(tree, chain) && |chain| <= MAX_U64 && end == cfg.EndHeight(|chain| - 1)
    requires Starting(cfg, s, m.f) && m.f.nextIndexStart == FirstUnindexed(cfg, s.objects, cfg.ManagedStart(), end)
    requires m.objects == InitialBlocks(cfg, tree, chain, s.objects, m.f.nextIndexStart, end)
    requires PublishStep(cfg, tree, chain, m, t, end, clean)
    ensures InitStep(cfg, tree, chain, s, t, Failure(Fault), false)
    ensures clean ==> t.objects == AfterInit(cfg, tree, chain, s.objects).objects
    ensures clean ==> t.f.nextIndexStart == AfterInit(cfg, tree, chain, s.objects).f.nextIndexStart
  {
    hide IsChain, FirstUnindexed, InitialBlocks, PublishObjects, Segment, Counted, Grew;
    var start, n := m.f.nextIndexStart, t.f.nextIndexStart;
    InitGoalGrows(cfg, tree, chain, s.objects, start, end);
    Pub.PublishGrows(cfg, tree, chain, m.objects, start, Min(n, |chain|));
    GrewTransitive(m.objects, PublishObjects(cfg, tree, chain, m.objects, start, Min(n, |chain|)), t.objects);
    GrewTransitive(s.objects, m.objects, t.objects);
  }

  lemma InitRefreshing(cfg: Config, tree: Tree, chain: seq<Hash>, s: Sys, t: Sys, f: Follower)
    requires cfg.Valid() && IsChain(tree, chain) && |chain| <= MAX_U64
    requires InitStep(cfg, tree, chain, s, t, Failure(Fault), false) && f == t.f.(recent := f.recent)
    ensures InitStep(cfg, tree, chain, s, Sys(f, t.objects), Failure(Fault), false)
  {
    hide IsChain, AfterInit, Within, Counted;
  }

  lemma KeepWhole(recent: map<nat, Hash>, chain: seq<Hash>, lo: nat, end: nat)
    requires lo <= end < |chain|
    ensures Keep(recent + Segment(chain, lo, end + 1), lo, end + 1) == Segment(chain, lo, end + 1)
  {
  }

  lemma InitDone(cfg: Config, tree: Tree, chain: seq<Hash>, s: Sys, t: Sys, end: nat, stats: Stats)
    requires cfg.Valid() && IsChain(tree, chain) && |chain| <= MAX_U64 && end == cfg.EndHeight(|chain| - 1)
    requires !RefusesInit(cfg, s.objects, end) && Counted(stats, s.objects, t.objects)
    requires var goal := AfterInit(cfg, tree, chain, s.objects);
             t.objects == goal.objects && t.f.nextIndexStart == goal.f.nextIndexStart
    requires t.f == Follower(true, end, t.f.nextIndexStart, Segment(chain, CacheStart(cfg, t.f.nextIndexStart, end), end + 1))
    ensures InitStep(cfg, tree, chain, s, t, Success(stats), true)
  {
    hide IsChain, FirstUnindexed, InitialBlocks, PublishObjects, Segment, Counted, Within;
  }

  // ----- whole calls

  function Report(s: Sys, t: Sys, end: nat, stats: Stats): FollowResult {
    FollowResult(end, s.f.lastTip, t.f.nextIndexStart, stats.uploadedBlocks, stats.publishedIndexes,
                 !(end != s.f.lastTip || stats.uploadedBlocks > 0 || stats.publishedIndexes > 0))
  }

  ghost predicate Called(cfg: Config, tree: Tree, chain: seq<Hash>, s: Sys, t: Sys, r: Result<Stats, Error>)
    requires cfg.Valid() && IsChain(tree, chain) && |chain| <= MAX_U64
  {
    match r
    case Failure(e) => CallStep(cfg, tree, chain, s, t, Failure(e))
    case Success(stats) => CallStep(cfg, tree, chain, s, t, Success(Report(s, t, cfg.EndHeight(|chain| - 1), stats)))
  }

  lemma ReportIsRight(cfg: Config, s: Sys, t: Sys, end: nat, stats: Stats)
    requires Counted(stats, s.objects, t.objects)
    ensures Reports(cfg, s, t, end, Report(s, t, end, stats))
  {
    hide IndexKeys;
  }

  lemma NothingDone(cfg: Config, tree: Tree, chain: seq<Hash>, s: Sys)
    requires cfg.Valid() && IsChain(tree, chain) && |chain| <= MAX_U64
    ensures CallStep(cfg, tree, chain, s, s, Failure(Fault))
    ensures var end := cfg.EndHeight(|chain| - 1);
            && (cfg.fromHeight > end ==> CallStep(cfg, tree, chain, s, s, Success(Report(s, s, end, Stats(0, 0)))))
            && (cfg.fromHeight <= end && s.f.initialized && Published(cfg, s.f.nextIndexStart) && end < s.f.nextIndexStart - 1 ==>
                  CallStep(cfg, tree, chain, s, s, Failure(ReorgTouchesPublishedIndex)))
  {
    var end := cfg.EndHeight(|chain| - 1);
    hide IsChain, AfterIncrement, AfterInit, Comparable, Reports, Refreshing, FollowerModel.Publishing, Incremented, Grew;
    ReportIsRight(cfg, s, s, end, Stats(0, 0));
    GrewReflexive(s.objects);
    if Comparable(cfg, s.f, chain) {
      IncrementGoalGrows(cfg, tree, chain, s);
    }
  }

  lemma IncrementGoalGrows(cfg: Config, tree: Tree, chain: seq<Hash>, s: Sys)
    requires cfg.Valid() && IsChain(tree, chain) && |chain| <= MAX_U64 && Comparable(cfg, s.f, chain)
    ensures Grew(s.objects, Incremented(cfg, tree, chain, s))
    ensures Grew(Incremented(cfg, tree, chain, s), AfterIncrement(cfg, tree, chain, s).objects)
    ensures Grew(s.objects, AfterIncrement(cfg, tree, chain, s).objects)
  {
    hide IsChain, AddBlocks, Grew, PublishObjects, Segment, UploadFrom;
    var end := cfg.EndHeight(|chain| - 1);
    var blocks := Incremented(cfg, tree, chain, s);
    AddBlocksGrows(tree, s.objects, chain, UploadFrom(cfg, s.f, chain, end), end + 1);
    Pub.PublishGrows(cfg, tree, chain, blocks, s.f.nextIndexStart, Min(PublishTo(cfg, s.f.nextIndexStart, |chain| - 1, end), |chain|));
    GrewTransitive(s.objects, blocks, AfterIncrement(cfg, tree, chain, s).objects);
  }

  lemma InitCall(cfg: Config, tree: Tree, chain: seq<Hash>, s: Sys, t: Sys, r: Result<Stats, Error>, clean: bool)
    requires cfg.Valid() && IsChain(tree, chain) && |chain| <= MAX_U64
    requires !s.f.initialized && cfg.fromHeight <= cfg.EndHeight(|chain| - 1)
    requires InitStep(cfg, tree, chain, s, t, r, clean) && (!clean ==> r == Failure(Fault))
    ensures Called(cfg, tree, chain, s, t, r)
    ensures clean && r.Failure? ==> r.error != Fault
  {
    hide IsChain, AfterIncrement, AfterInit, Comparable, Reports, Counted, FirstUnindexed, Within;
    if clean && r.Success? {
      ReportIsRight(cfg, s, t, cfg.EndHeight(|chain| - 1), r.value);
    }
  }

  lemma IncrementCall(cfg: Config, tree: Tree, chain: seq<Hash>, s: Sys, m: Sys, r: Result<nat, Error>, clean: bool)
    requires cfg.Valid() && IsChain(tree, chain) && |chain| <= MAX_U64 && Comparable(cfg, s.f, chain)
    requires s.f.initialized && cfg.fromHeight <= cfg.EndHeight(|chain| - 1)
    requires IncrementStep(cfg, tree, chain, s, m, r, clean) && (!clean ==> r == Failure(Fault))
    ensures r.Failure? ==> CallStep(cfg, tree, chain, s, m, Failure(r.error)) && (clean ==> r.error != Fault)
    ensures var end := cfg.EndHeight(|chain| - 1);
            clean && r.Success? ==>
              && !Refuses(cfg, s.f, chain, end)
              && Counted(Stats(r.value, 0), s.objects, m.objects)
              && m.objects == Incremented(cfg, tree, chain, s)
              && m.f == s.f.(lastTip := end, recent := Segment(chain, CacheStart(cfg, s.f.nextIndexStart, end), end + 1))
  {
    hide IsChain, AddBlocks, Grew, AfterIncrement, AfterInit, Refuses, Segment, Refreshing, FollowerModel.Publishing,
      UploadFrom, IndexKeys;
    var end := cfg.EndHeight(|chain| - 1);
    IndexesOfBlocks(tree, s.objects, chain, UploadFrom(cfg, s.f, chain, end), end + 1);
    IncrementGoalGrows(cfg, tree, chain, s);
    if !clean && !Refuses(cfg, s.f, chain, end) {
      GrewTransitive(m.objects, Incremented(cfg, tree, chain, s), AfterIncrement(cfg, tree, chain, s).objects);
    }
  }

  lemma PublishCall(cfg: Config, tree: Tree, chain: seq<Hash>, s: Sys, m: Sys, t: Sys, clean: bool)
    requires cfg.Valid() && IsChain(tree, chain) && |chain| <= MAX_U64 && Comparable(cfg, s.f, chain)
    requires s.f.initialized && cfg.fromHeight <= cfg.EndHeight(|chain| - 1)
    requires var end := cfg.EndHeight(|chain| - 1);
             && !Refuses(cfg, s.f, chain, end)
             && m.objects == Incremented(cfg, tree, chain, s)
             && m.f == s.f.(lastTip := end, recent := Segment(chain, CacheStart(cfg, s.f.nextIndexStart, end), end + 1))
             && PublishStep(cfg, tree, chain, m, t, end, clean)
    ensures !clean ==> CallStep(cfg, tree, chain, s, t, Failure(Fault))
    ensures clean ==> t == AfterIncrement(cfg, tree, chain, s)
  {
    hide IsChain, Incremented, Grew, AfterInit, Refuses, Segment, Refreshing, UploadFrom, PublishObjects;
    var n := t.f.nextIndexStart;
    IncrementGoalGrows(cfg, tree, chain, s);
    Pub.PublishGrows(cfg, tree, chain, m.objects, s.f.nextIndexStart, Min(n, |chain|));
    GrewTransitive(m.objects, PublishObjects(cfg, tree, chain, m.objects, s.f.nextIndexStart, Min(n, |chain|)), t.objects);
    GrewTransitive(s.objects, m.objects, t.objects);
  }

  lemma CallDone(cfg: Config, tree: Tree, chain: seq<Hash>, s: Sys, t: Sys, stats: Stats)
    requires cfg.Valid() && IsChain(tree, chain) && |chain| <= MAX_U64 && Comparable(cfg, s.f, chain)
    requires s.f.initialized && cfg.fromHeight <= cfg.EndHeight(|chain| - 1)
    requires !Refuses(cfg, s.f, chain, cfg.EndHeight(|chain| - 1))
    requires t == AfterIncrement(cfg, tree, chain, s) && Counted(stats, s.objects, t.objects)
    ensures CallStep(cfg, tree, chain, s, t, Success(Report(s, t, cfg.EndHeight(|chain| - 1), stats)))
  {
    hide IsChain, AfterIncrement, AfterInit, Comparable, Reports, Refuses, Counted;
    ReportIsRight(cfg, s, t, cfg.EndHeight(|chain| - 1), stats);
  }
}
