/** The one-shot uploader: one walk over the ranges from the managed start to the end height. */
module OneShot {
  import opened Prelude
  import opened ObjectKeys
  import opened BlockTree
  import opened Services
  import opened Ranges
  import Probes

  /** The last height of the range that is to be uploaded now. */
  function LastOf(cfg: Config, start: nat, end: nat): (last: nat)
    requires cfg.Valid() && start <= end < MAX_U64
    ensures start <= last <= end
  {
    Min(EndOfRange(start, cfg.RangeSize()), end)
  }

  /** Where the probes send the uploader in the range from start on. */
  function ProbedStart(cfg: Config, chain: seq<Hash>, objects: Objects, start: nat, end: nat): nat
    requires cfg.Valid() && start <= end < |chain| <= MAX_U64
  {
    Probes.UploadStart(objects, chain, start, LastOf(cfg, start, end), Probes.PROBE_STEP)
  }

  /** The store once the range's blocks are uploaded from the probed start on. */
  ghost function RangeBlocks(cfg: Config, tree: Tree, chain: seq<Hash>, objects: Objects, start: nat, end: nat): Objects
    requires cfg.Valid() && IsChain(tree, chain) && start <= end < |chain| <= MAX_U64
  {
    AddBlocks(tree, objects, chain, ProbedStart(cfg, chain, objects, start, end), LastOf(cfg, start, end) + 1)
  }

  /** What one range's turn does to the store: nothing where the index is there; otherwise the blocks, and then the
      index if the range is ready for it. */
  ghost function AfterRange(cfg: Config, tree: Tree, chain: seq<Hash>, objects: Objects, start: nat, end: nat): Objects
    requires cfg.Valid() && IsChain(tree, chain) && start <= end < |chain| <= MAX_U64
  {
    var index, filled := Index(cfg.RangeSize(), start), RangeBlocks(cfg, tree, chain, objects, start, end);
    if index in objects then objects
    else if cfg.Ready(start, |chain| - 1, end) then PutNew(filled, index, RangeBin(chain, start, cfg.RangeSize()))
    else filled
  }

  /** What the walk from start does to the store. */
  ghost function AfterWalk(cfg: Config, tree: Tree, chain: seq<Hash>, objects: Objects, start: nat, end: nat): Objects
    requires cfg.Valid() && IsChain(tree, chain) && end < |chain| <= MAX_U64
    decreases end + 1 - start
  {
    if start > end then objects
    else
      var after := AfterRange(cfg, tree, chain, objects, start, end);
      match NextRangeStart(start, cfg.RangeSize())
      case None => after
      case Some(next) => AfterWalk(cfg, tree, chain, after, next, end)
  }

  /** What a whole call does to the store. */
  ghost function AfterCall(cfg: Config, tree: Tree, chain: seq<Hash>, objects: Objects): Objects
    requires cfg.Valid() && IsChain(tree, chain) && |chain| <= MAX_U64
  {
    var end := cfg.EndHeight(|chain| - 1);
    if cfg.fromHeight > end then objects else AfterWalk(cfg, tree, chain, objects, cfg.ManagedStart(), end)
  }

  method UploadOnce(b: Backend, cfg: Config) returns (r: Result<(), Error>)
    requires b.Valid() && cfg.Valid()
    modifies b`faults, b`objects
    ensures Answers(r, Success(()), old(b.faults), b.faults)
    ensures b.faults == old(b.faults) ==> b.objects == AfterCall(cfg, b.tree, b.chain, old(b.objects))
    ensures Within(old(b.objects), b.objects, AfterCall(cfg, b.tree, b.chain, old(b.objects)))
  {
    hide WellFormed, IsChain, Stored, AddBlocks, AfterWalk, AfterRange, Within, Grew, Backend.Valid;
    b.ShowsChain();
    CallGrows(cfg, b.tree, b.chain, b.objects);
    WithinSelf(b.objects, AfterCall(cfg, b.tree, b.chain, b.objects));
    var count := b.GetBlockCount();
    if count.Failure? {
      return Failure(count.error);
    }
    var tip := count.value;
    var end := cfg.EndHeight(tip);
    if cfg.fromHeight > end {
      return Success(());
    }
    r := Walk(b, cfg, tip, end);
  }

  lemma WithinSelf(a: Objects, full: Objects)
    requires Grew(a, full)
    ensures Within(a, a, full) && Within(a, full, full)
  {
  }

  method Walk(b: Backend, cfg: Config, tip: nat, end: nat) returns (r: Result<(), Error>)
    requires b.Valid() && cfg.Valid() && tip == |b.chain| - 1 && end <= tip
    modifies b`faults, b`objects
    ensures Answers(r, Success(()), old(b.faults), b.faults)
    ensures b.faults == old(b.faults) ==> b.objects == AfterWalk(cfg, b.tree, b.chain, old(b.objects), cfg.ManagedStart(), end)
    ensures Within(old(b.objects), b.objects, AfterWalk(cfg, b.tree, b.chain, old(b.objects), cfg.ManagedStart(), end))
  {
    hide WellFormed, IsChain, Stored, AddBlocks, AfterRange, AfterWalk, Backend.Valid;
    b.ShowsChain();
    ghost var goal := AfterWalk(cfg, b.tree, b.chain, b.objects, cfg.ManagedStart(), end);
    WalkGrows(cfg, b.tree, b.chain, b.objects, cfg.ManagedStart(), end);
    var start := cfg.ManagedStart();
    while start <= end
      invariant b.faults == old(b.faults) && Grew(old(b.objects), b.objects) && Grew(b.objects, goal)
      invariant AfterWalk(cfg, b.tree, b.chain, b.objects, start, end) == goal
      decreases end + 1 - start
    {
      WalkStep(cfg, b.tree, b.chain, b.objects, start, end);
      label before:
      r := OneRange(b, cfg, start, tip, end);
      if r.Failure? {
        return;
      }
      var next := NextRangeStart(start, cfg.RangeSize());
      if next.None? {
        return Success(());
      }
      start := next.value;
    }
    WalkOver(cfg, b.tree, b.chain, b.objects, start, end);
    return Success(());
  }

  lemma WalkOver(cfg: Config, tree: Tree, chain: seq<Hash>, objects: Objects, start: nat, end: nat)
    requires cfg.Valid() && IsChain(tree, chain) && end < |chain| <= MAX_U64 && start > end
    ensures AfterWalk(cfg, tree, chain, objects, start, end) == objects
  {
  }

  lemma WalkStep(cfg: Config, tree: Tree, chain: seq<Hash>, objects: Objects, start: nat, end: nat)
    requires cfg.Valid() && IsChain(tree, chain) && start <= end < |chain| <= MAX_U64
    ensures var after := AfterRange(cfg, tree, chain, objects, start, end);
            && Grew(objects, after) && Grew(after, AfterWalk(cfg, tree, chain, objects, start, end))
            && AfterWalk(cfg, tree, chain, objects, start, end)
               == match NextRangeStart(start, cfg.RangeSize())
                  case None => after
                  case Some(next) => AfterWalk(cfg, tree, chain, after, next, end)
  {
    RangeGrows(cfg, tree, chain, objects, start, end);
    match NextRangeStart(start, cfg.RangeSize())
    case None =>
    case Some(next) => WalkGrows(cfg, tree, chain, AfterRange(cfg, tree, chain, objects, start, end), next, end);
  }

  lemma RangeGrows(cfg: Config, tree: Tree, chain: seq<Hash>, objects: Objects, start: nat, end: nat)
    requires cfg.Valid() && IsChain(tree, chain) && start <= end < |chain| <= MAX_U64
    ensures Grew(objects, AfterRange(cfg, tree, chain, objects, start, end))
  {
    AddBlocksGrows(tree, objects, chain, ProbedStart(cfg, chain, objects, start, end), LastOf(cfg, start, end) + 1);
    hide AddBlocks, ProbedStart, IsChain;
  }

  lemma {:induction false} WalkGrows(cfg: Config, tree: Tree, chain: seq<Hash>, objects: Objects, start: nat, end: nat)
    requires cfg.Valid() && IsChain(tree, chain) && end < |chain| <= MAX_U64
    ensures Grew(objects, AfterWalk(cfg, tree, chain, objects, start, end))
    decreases end + 1 - start
  {
    if start <= end {
      RangeGrows(cfg, tree, chain, objects, start, end);
      match NextRangeStart(start, cfg.RangeSize())
      case None =>
      case Some(next) => WalkGrows(cfg, tree, chain, AfterRange(cfg, tree, chain, objects, start, end), next, end);
    }
    hide AfterRange;
  }

  lemma CallGrows(cfg: Config, tree: Tree, chain: seq<Hash>, objects: Objects)
    requires cfg.Valid() && IsChain(tree, chain) && |chain| <= MAX_U64
    ensures Grew(objects, AfterCall(cfg, tree, chain, objects))
  {
    var end := cfg.EndHeight(|chain| - 1);
    if cfg.fromHeight <= end {
      WalkGrows(cfg, tree, chain, objects, cfg.ManagedStart(), end);
    }
    hide AfterWalk;
  }

  method OneRange(b: Backend, cfg: Config, start: nat, tip: nat, end: nat) returns (r: Result<(), Error>)
    requires b.Valid() && cfg.Valid() && tip == |b.chain| - 1 && start <= end <= tip
    modifies b`faults, b`objects
    ensures Answers(r, Success(()), old(b.faults), b.faults)
    ensures b.faults == old(b.faults) ==> b.objects == AfterRange(cfg, b.tree, b.chain, old(b.objects), start, end)
    ensures Within(old(b.objects), b.objects, AfterRange(cfg, b.tree, b.chain, old(b.objects), start, end))
  {
    hide WellFormed, IsChain, SpanUploaded, Probes.UploadStart, AfterRange, Within, PutNew, RangeBin, Backend.Valid;
    b.ShowsChain();
    var rangeSize := cfg.RangeSize();
    var rangeEnd := EndOfRange(start, rangeSize);
    var last := if rangeEnd > end then end else rangeEnd;
    RangeUntouched(cfg, b.tree, b.chain, b.objects, start, end);
    var exists_ := b.ObjectExists(Index(rangeSize, start));
    if exists_.Failure? {
      return Failure(exists_.error);
    }
    if exists_.value {
      return Success(());
    }
    var blocks := Probes.UploadBlocks(b, start, last, cfg.Workers());
    RangeFilled(cfg, b.tree, b.chain, old(b.objects), b.objects, start, end, b.faults == old(b.faults));
    if blocks.Failure? {
      return Failure(blocks.error);
    }
    if rangeEnd <= end && tip >= cfg.stableDelay && rangeEnd <= tip - cfg.stableDelay {
      var index := UploadRangeIndexIfMissing(b, start, rangeSize);
      if index.Failure? {
        return Failure(index.error);
      }
    }
    return Success(());
  }

  lemma RangeUntouched(cfg: Config, tree: Tree, chain: seq<Hash>, objects: Objects, start: nat, end: nat)
    requires cfg.Valid() && IsChain(tree, chain) && start <= end < |chain| <= MAX_U64
    ensures Within(objects, objects, AfterRange(cfg, tree, chain, objects, start, end))
    ensures Index(cfg.RangeSize(), start) in objects ==> AfterRange(cfg, tree, chain, objects, start, end) == objects
  {
    RangeGrows(cfg, tree, chain, objects, start, end);
    hide IsChain, RangeBlocks;
  }

  /** The stages of a range's turn: its blocks, then its index if it is ready. */
  lemma RangeFilled(cfg: Config, tree: Tree, chain: seq<Hash>, before: Objects, cur: Objects, start: nat, end: nat,
          clean: bool)
    requires cfg.Valid() && IsChain(tree, chain) && start <= end < |chain| <= MAX_U64
    requires Index(cfg.RangeSize(), start) !in before
    requires SpanUploaded(tree, chain, before, cur, ProbedStart(cfg, chain, before, start, end), LastOf(cfg, start, end), clean)
    ensures var goal := AfterRange(cfg, tree, chain, before, start, end);
            && Within(before, cur, goal)
            && (clean && !cfg.Ready(start, |chain| - 1, end) ==> cur == goal)
            && (clean && cfg.Ready(start, |chain| - 1, end) ==>
                  Within(before, goal, goal) && goal == PutNew(cur, Index(cfg.RangeSize(), start), RangeBin(chain, start, cfg.RangeSize())))
  {
    hide *;
    var goal, filled := AfterRange(cfg, tree, chain, before, start, end), RangeBlocks(cfg, tree, chain, before, start, end);
    SpanIsRange(cfg, tree, chain, before, cur, start, end, clean);
    RangeGrows(cfg, tree, chain, before, start, end);
    RangeShape(cfg, tree, chain, before, start, end);
    WithinMore(before, cur, filled, goal);
    WithinSelf(before, goal);
  }

  lemma RangeShape(cfg: Config, tree: Tree, chain: seq<Hash>, before: Objects, start: nat, end: nat)
    requires cfg.Valid() && IsChain(tree, chain) && start <= end < |chain| <= MAX_U64
    requires Index(cfg.RangeSize(), start) !in before
    ensures var goal, filled := AfterRange(cfg, tree, chain, before, start, end), RangeBlocks(cfg, tree, chain, before, start, end);
            && (cfg.Ready(start, |chain| - 1, end) ==>
                  start + cfg.RangeSize() <= |chain| && goal == PutNew(filled, Index(cfg.RangeSize(), start), RangeBin(chain, start, cfg.RangeSize())))
            && (!cfg.Ready(start, |chain| - 1, end) ==> goal == filled)
            && Grew(filled, goal)
            && (forall h :: 0 <= h < |chain| ==> (Stored(goal, chain, h) <==> Stored(filled, chain, h)))
  {
    hide RangeBlocks, IsChain, RangeBin;
  }

  lemma SpanIsRange(cfg: Config, tree: Tree, chain: seq<Hash>, before: Objects, cur: Objects, start: nat, end: nat,
          clean: bool)
    requires cfg.Valid() && IsChain(tree, chain) && start <= end < |chain| <= MAX_U64
    requires SpanUploaded(tree, chain, before, cur, ProbedStart(cfg, chain, before, start, end), LastOf(cfg, start, end), clean)
    ensures var filled := RangeBlocks(cfg, tree, chain, before, start, end);
            Within(before, cur, filled) && (clean ==> cur == filled)
  {
    hide AddBlocks, Within, ProbedStart, IsChain;
  }

  lemma WithinMore(a: Objects, b: Objects, c: Objects, d: Objects)
    requires Within(a, b, c) && Grew(c, d)
    ensures Within(a, b, d)
  {
  }

  // ----- a second call on an unchanged chain

  /** The walk from start on touches no block and no index below start. */
  lemma {:induction false} WalkStaysAbove(cfg: Config, tree: Tree, chain: seq<Hash>, objects: Objects, start: nat,
          end: nat, h: nat)
    requires cfg.Valid() && IsChain(tree, chain) && end < |chain| <= MAX_U64 && h < start && h < |chain|
    ensures var after := AfterWalk(cfg, tree, chain, objects, start, end);
            && (Stored(after, chain, h) <==> Stored(objects, chain, h))
            && (Index(cfg.RangeSize(), h) in after <==> Index(cfg.RangeSize(), h) in objects)
    decreases end + 1 - start
  {
    if start <= end {
      RangeStaysAbove(cfg, tree, chain, objects, start, end, h);
      match NextRangeStart(start, cfg.RangeSize())
      case None =>
      case Some(next) => WalkStaysAbove(cfg, tree, chain, AfterRange(cfg, tree, chain, objects, start, end), next, end, h);
    }
    hide AfterRange;
  }

  lemma RangeStaysAbove(cfg: Config, tree: Tree, chain: seq<Hash>, objects: Objects, start: nat, end: nat, h: nat)
    requires cfg.Valid() && IsChain(tree, chain) && start <= end < |chain| <= MAX_U64 && h < start
    ensures var after := AfterRange(cfg, tree, chain, objects, start, end);
            && (Stored(after, chain, h) <==> Stored(objects, chain, h))
            && (Index(cfg.RangeSize(), h) in after <==> Index(cfg.RangeSize(), h) in objects)
  {
    var last := LastOf(cfg, start, end);
    Probes.UploadStartInSpan(objects, chain, start, last, Probes.PROBE_STEP);
    BlockKeyFresh(tree, chain, ProbedStart(cfg, chain, objects, start, end), last + 1, h);
    hide Probes.UploadStart, RangeBin, IsChain;
  }

  /** On an unchanged chain a second call changes nothing, for every store the first one may have started from, with
      gaps or without, every range size, stable delay and number of workers. */
  lemma SecondCallWritesNothing(cfg: Config, tree: Tree, chain: seq<Hash>, objects: Objects)
    requires cfg.Valid() && IsChain(tree, chain) && |chain| <= MAX_U64
    ensures var once := AfterCall(cfg, tree, chain, objects); AfterCall(cfg, tree, chain, once) == once
  {
    var end := cfg.EndHeight(|chain| - 1);
    if cfg.fromHeight <= end {
      SecondWalk(cfg, tree, chain, objects, cfg.ManagedStart(), end);
    }
  }

  lemma {:induction false} SecondWalk(cfg: Config, tree: Tree, chain: seq<Hash>, objects: Objects, start: nat, end: nat)
    requires cfg.Valid() && IsChain(tree, chain) && end < |chain| <= MAX_U64
    ensures var once := AfterWalk(cfg, tree, chain, objects, start, end);
            AfterWalk(cfg, tree, chain, once, start, end) == once
    decreases end + 1 - start
  {
    hide IsChain, AfterRange;
    if start <= end {
      var one := AfterRange(cfg, tree, chain, objects, start, end);
      var all := AfterWalk(cfg, tree, chain, objects, start, end);
      match NextRangeStart(start, cfg.RangeSize())
      case None =>
        SecondRange(cfg, tree, chain, objects, one, start, end);
      case Some(next) =>
        forall h | start <= h < next && h < |chain|
          ensures Stored(all, chain, h) <==> Stored(one, chain, h)
          ensures Index(cfg.RangeSize(), h) in all <==> Index(cfg.RangeSize(), h) in one
        {
          WalkStaysAbove(cfg, tree, chain, one, next, end, h);
        }
        SecondRange(cfg, tree, chain, objects, all, start, end);
        SecondWalk(cfg, tree, chain, one, next, end);
    }
  }

  /** A range's second turn, on any store that agrees with the outcome of the first one about that range. */
  lemma SecondRange(cfg: Config, tree: Tree, chain: seq<Hash>, objects: Objects, now: Objects, start: nat, end: nat)
    requires cfg.Valid() && IsChain(tree, chain) && start <= end < |chain| <= MAX_U64
    requires var one := AfterRange(cfg, tree, chain, objects, start, end);
             && (forall h :: start <= h <= LastOf(cfg, start, end) ==> (Stored(now, chain, h) <==> Stored(one, chain, h)))
             && (Index(cfg.RangeSize(), start) in now <==> Index(cfg.RangeSize(), start) in one)
    ensures AfterRange(cfg, tree, chain, now, start, end) == now
  {
    hide *;
    RangeUntouched(cfg, tree, chain, now, start, end);
    if Index(cfg.RangeSize(), start) !in now {
      var filled := RangeBlocks(cfg, tree, chain, objects, start, end);
      RangeUnready(cfg, tree, chain, objects, start, end);
      SecondBlocks(cfg, tree, chain, objects, now, start, end);
      RangeUnreadyAgain(cfg, tree, chain, now, start, end);
    }
  }

  /** A range whose turn left no index was not ready, and its turn left its blocks. */
  lemma RangeUnready(cfg: Config, tree: Tree, chain: seq<Hash>, objects: Objects, start: nat, end: nat)
    requires cfg.Valid() && IsChain(tree, chain) && start <= end < |chain| <= MAX_U64
    requires Index(cfg.RangeSize(), start) !in AfterRange(cfg, tree, chain, objects, start, end)
    ensures !cfg.Ready(start, |chain| - 1, end)
    ensures AfterRange(cfg, tree, chain, objects, start, end) == RangeBlocks(cfg, tree, chain, objects, start, end)
  {
    hide RangeBlocks, IsChain, RangeBin;
  }

  lemma RangeUnreadyAgain(cfg: Config, tree: Tree, chain: seq<Hash>, now: Objects, start: nat, end: nat)
    requires cfg.Valid() && IsChain(tree, chain) && start <= end < |chain| <= MAX_U64
    requires Index(cfg.RangeSize(), start) !in now && !cfg.Ready(start, |chain| - 1, end)
    requires RangeBlocks(cfg, tree, chain, now, start, end) == now
    ensures AfterRange(cfg, tree, chain, now, start, end) == now
  {
    hide RangeBlocks, IsChain, RangeBin;
  }

  lemma SecondBlocks(cfg: Config, tree: Tree, chain: seq<Hash>, objects: Objects, now: Objects, start: nat, end: nat)
    requires cfg.Valid() && IsChain(tree, chain) && start <= end < |chain| <= MAX_U64
    requires var filled := RangeBlocks(cfg, tree, chain, objects, start, end);
             forall h :: start <= h <= LastOf(cfg, start, end) ==> (Stored(now, chain, h) <==> Stored(filled, chain, h))
    ensures RangeBlocks(cfg, tree, chain, now, start, end) == now
  {
    hide IsChain, Probes.UploadStart, AddBlocks, Stored;
    var last, filled := LastOf(cfg, start, end), RangeBlocks(cfg, tree, chain, objects, start, end);
    var from, again := ProbedStart(cfg, chain, objects, start, end), ProbedStart(cfg, chain, now, start, end);
    Probes.UploadStartInSpan(objects, chain, start, last, Probes.PROBE_STEP);
    Probes.SecondStart(tree, objects, chain, start, last, Probes.PROBE_STEP);
    SameStart(filled, now, chain, start, last);
    assert start <= from <= again;
    AddBlocksGrows(tree, objects, chain, from, last + 1);
    assert forall h :: from <= h <= last ==> Stored(now, chain, h);
    AddBlocksNone(tree, now, chain, again, last + 1);
  }

  lemma SameStart(a: Objects, b: Objects, chain: seq<Hash>, from: nat, tip: nat)
    requires from <= tip < |chain| && forall h :: from <= h <= tip ==> (Stored(a, chain, h) <==> Stored(b, chain, h))
    ensures Probes.UploadStart(a, chain, from, tip, Probes.PROBE_STEP) == Probes.UploadStart(b, chain, from, tip, Probes.PROBE_STEP)
  {
    SameFirstMissing(a, b, chain, from, tip, Probes.PROBE_STEP);
  }

  lemma {:induction false} SameFirstMissing(a: Objects, b: Objects, chain: seq<Hash>, p: nat, tip: nat, step: nat)
    requires p <= tip < |chain| && step > 0 && forall h :: p <= h <= tip ==> (Stored(a, chain, h) <==> Stored(b, chain, h))
    ensures Probes.FirstMissing(a, chain, p, tip, step) == Probes.FirstMissing(b, chain, p, tip, step)
    decreases tip - p
  {
    if tip - p >= step {
      SameFirstMissing(a, b, chain, p + step, tip, step);
    }
  }

  // ----- what an index of the one-shot uploader vouches for

  /** A range that gets its index in this turn has all of its blocks stored if and only if none was missing below the
      probed start: the probes, and not a walk over the range, decide what the index vouches for. */
  lemma NewIndexCompleteIff(cfg: Config, tree: Tree, chain: seq<Hash>, objects: Objects, start: nat, end: nat)
    requires cfg.Valid() && IsChain(tree, chain) && start <= end < |chain| <= MAX_U64
    requires Index(cfg.RangeSize(), start) !in objects && cfg.Ready(start, |chain| - 1, end)
    ensures var last := start + cfg.RangeSize() - 1;
            var after := AfterRange(cfg, tree, chain, objects, start, end);
            && Index(cfg.RangeSize(), start) in after && last <= end
            && ((forall h :: start <= h <= last ==> Stored(after, chain, h))
                <==> (forall h :: start <= h < Probes.UploadStart(objects, chain, start, last, Probes.PROBE_STEP) ==> Stored(objects, chain, h)))
  {
    var last := start + cfg.RangeSize() - 1;
    assert LastOf(cfg, start, end) == last;
    RangeShape(cfg, tree, chain, objects, start, end);
    Probes.CompleteIff(tree, objects, chain, start, last, Probes.PROBE_STEP);
    assert RangeBlocks(cfg, tree, chain, objects, start, end)
        == AddBlocks(tree, objects, chain, Probes.UploadStart(objects, chain, start, last, Probes.PROBE_STEP), last + 1);
    hide IsChain, AddBlocks, Probes.UploadStart, RangeBin, AfterRange, RangeBlocks, Stored;
  }

  /** And with a gap it can vouch for a block that nobody stored: on every chain of more than 101 blocks, one range over
      the whole chain and no stable delay, there is a store from which a clean call publishes the range without block 1. */
  lemma IndexOverGap(tree: Tree, chain: seq<Hash>) returns (cfg: Config, objects: Objects)
    requires IsChain(tree, chain) && Probes.PROBE_STEP + 1 < |chain| <= MAX_U64
    ensures cfg.Valid()
    ensures var after := AfterCall(cfg, tree, chain, objects);
            Index(cfg.RangeSize(), 0) in after && !Stored(after, chain, 1)
  {
    hide IsChain, AddBlocks, Probes.UploadStart, Probes.AllButOne, RangeBin;
    objects := Probes.AllButOne(tree, chain);
    Probes.AllButOneHas(tree, chain);
    Probes.GapIsLeft(tree, chain);
    cfg := Config(0, None, |chain|, 0, 1);
    var tip := |chain| - 1;
    assert cfg.ManagedStart() == 0 && cfg.EndHeight(tip) == tip && cfg.Ready(0, tip, tip) && LastOf(cfg, 0, tip) == tip;
    RangeShape(cfg, tree, chain, objects, 0, tip);
    WalkStep(cfg, tree, chain, objects, 0, tip);
    if NextRangeStart(0, cfg.RangeSize()).Some? {
      WalkOver(cfg, tree, chain, AfterRange(cfg, tree, chain, objects, 0, tip), |chain|, tip);
    }
  }
}
