/** What a whole call of the one-shot uploader leaves in the store: every block and every index, one by one. */
module OneShotStore {
  import opened Prelude
  import opened ObjectKeys
  import opened BlockTree
  import opened Services
  import opened Ranges
  import opened OneShot
  import Probes
  import RangeIndex

  /** The walk reaches each height of each range: the range's index, and its blocks up to the end height from the probed start. */
  lemma {:induction false} WalkStores(cfg: Config, tree: Tree, chain: seq<Hash>, objects: Objects, start: nat, end: nat,
          st: nat, h: nat)
    requires cfg.Valid() && IsChain(tree, chain) && end < |chain| <= MAX_U64
    requires start <= st <= h <= end && h < st + cfg.RangeSize() && start % cfg.RangeSize() == st % cfg.RangeSize()
    ensures var after := AfterWalk(cfg, tree, chain, objects, start, end);
            && (Stored(after, chain, h) <==> Stored(objects, chain, h) || Uploads(cfg, chain, objects, st, end, h))
            && (Index(cfg.RangeSize(), st) in after
                <==> Index(cfg.RangeSize(), st) in objects || Stable(st + cfg.RangeSize() - 1, cfg, |chain| - 1, end))
    decreases end + 1 - start
  {
    hide IsChain, AfterRange, AfterWalk, Stored, Uploads, Stable, Config.RangeSize;
    var one := AfterRange(cfg, tree, chain, objects, start, end);
    WalkStep(cfg, tree, chain, objects, start, end);
    if start == st {
      RangeStores(cfg, tree, chain, objects, st, end, h);
      RestStaysAbove(cfg, tree, chain, one, start, end, h);
      RestStaysAbove(cfg, tree, chain, one, start, end, st);
    } else {
      AlignedGap(start, st, cfg.RangeSize());
      NextWithin(start, cfg.RangeSize(), st);
      RangeIndex.NextMultiple(start, cfg.RangeSize());
      RangeStaysBelow(cfg, tree, chain, objects, start, end, st, h);
      WalkStores(cfg, tree, chain, one, start + cfg.RangeSize(), end, st, h);
    }
  }

  /** The height is at or above the start to which the probes of its range send the uploader, and the range has no index. */
  ghost predicate Uploads(cfg: Config, chain: seq<Hash>, objects: Objects, st: nat, end: nat, h: nat)
    requires st <= end < |chain|
  {
    && Index(cfg.RangeSize(), st) !in objects
    && Probes.UploadStart(objects, chain, st, Min(st + cfg.RangeSize() - 1, end), 100) <= h
  }

  /** A range that ends at `last` is complete and deep enough. */
  ghost predicate Stable(last: nat, cfg: Config, tip: nat, end: nat) {
    last <= end && last + cfg.stableDelay <= tip
  }

  lemma NextWithin(start: nat, size: nat, st: nat)
    requires start + size <= st < MAX_U64
    ensures NextRangeStart(start, size) == Some(start + size)
  {
  }

  lemma NextIsNext(start: nat, size: nat)
    requires 0 < size <= MAX_U64
    ensures NextRangeStart(start, size).Some? ==> NextRangeStart(start, size).value == start + size
  {
  }

  /** What comes after a range's turn leaves the range alone. */
  lemma RestStaysAbove(cfg: Config, tree: Tree, chain: seq<Hash>, one: Objects, start: nat, end: nat, h: nat)
    requires cfg.Valid() && IsChain(tree, chain) && end < |chain| <= MAX_U64 && h < start + cfg.RangeSize() && h < |chain|
    ensures match NextRangeStart(start, cfg.RangeSize())
            case None => true
            case Some(next) =>
              var after := AfterWalk(cfg, tree, chain, one, next, end);
              && (Stored(after, chain, h) <==> Stored(one, chain, h))
              && (Index(cfg.RangeSize(), h) in after <==> Index(cfg.RangeSize(), h) in one)
  {
    hide IsChain, AfterWalk, Stored, NextRangeStart;
    NextIsNext(start, cfg.RangeSize());
    match NextRangeStart(start, cfg.RangeSize())
    case None =>
    case Some(next) => WalkStaysAbove(cfg, tree, chain, one, next, end, h);
  }

  /** A range's own turn. */
  lemma RangeStores(cfg: Config, tree: Tree, chain: seq<Hash>, objects: Objects, st: nat, end: nat, h: nat)
    requires cfg.Valid() && IsChain(tree, chain) && st <= h <= end < |chain| <= MAX_U64 && h < st + cfg.RangeSize()
    ensures var one := AfterRange(cfg, tree, chain, objects, st, end);
            && (Stored(one, chain, h) <==> Stored(objects, chain, h) || Uploads(cfg, chain, objects, st, end, h))
            && (Index(cfg.RangeSize(), st) in one
                <==> Index(cfg.RangeSize(), st) in objects || Stable(st + cfg.RangeSize() - 1, cfg, |chain| - 1, end))
  {
    hide IsChain, Probes.UploadStart, AddBlocks, RangeBin;
    var last := LastOf(cfg, st, end);
    var from := ProbedStart(cfg, chain, objects, st, end);
    AddedOrThere(tree, objects, chain, from, last + 1, h);
    IndexesStay(tree, objects, chain, from, last + 1, Index(cfg.RangeSize(), st));
  }

  /** A range's turn does nothing to the ranges above it. */
  lemma RangeStaysBelow(cfg: Config, tree: Tree, chain: seq<Hash>, objects: Objects, start: nat, end: nat, st: nat, h: nat)
    requires cfg.Valid() && IsChain(tree, chain) && start <= end < |chain| <= MAX_U64
    requires start + cfg.RangeSize() <= st <= h <= end && h < st + cfg.RangeSize()
    ensures var one := AfterRange(cfg, tree, chain, objects, start, end);
            && (Stored(one, chain, h) <==> Stored(objects, chain, h))
            && (Index(cfg.RangeSize(), st) in one <==> Index(cfg.RangeSize(), st) in objects)
            && (Uploads(cfg, chain, one, st, end, h) <==> Uploads(cfg, chain, objects, st, end, h))
  {
    hide IsChain, AfterRange, Stored, Probes.UploadStart;
    var one, last := AfterRange(cfg, tree, chain, objects, start, end), Min(st + cfg.RangeSize() - 1, end);
    forall g | st <= g <= last ensures Stored(one, chain, g) <==> Stored(objects, chain, g) {
      TurnStaysBelow(cfg, tree, chain, objects, start, end, g);
    }
    TurnStaysBelow(cfg, tree, chain, objects, start, end, st);
    SameStart(one, objects, chain, st, last);
  }

  lemma TurnStaysBelow(cfg: Config, tree: Tree, chain: seq<Hash>, objects: Objects, start: nat, end: nat, g: nat)
    requires cfg.Valid() && IsChain(tree, chain) && start <= end < |chain| <= MAX_U64
    requires start + cfg.RangeSize() <= g < |chain|
    ensures var one := AfterRange(cfg, tree, chain, objects, start, end);
            && (Stored(one, chain, g) <==> Stored(objects, chain, g))
            && (Index(cfg.RangeSize(), g) in one <==> Index(cfg.RangeSize(), g) in objects)
  {
    hide IsChain, Probes.UploadStart, AddBlocks, RangeBin;
    var last, from := LastOf(cfg, start, end), ProbedStart(cfg, chain, objects, start, end);
    AddedOrThere(tree, objects, chain, from, last + 1, g);
    IndexesStay(tree, objects, chain, from, last + 1, Index(cfg.RangeSize(), g));
    IndexesStay(tree, objects, chain, from, last + 1, Index(cfg.RangeSize(), start));
  }

  /** Above the end height nothing is uploaded. */
  lemma {:induction false} WalkStaysWithin(cfg: Config, tree: Tree, chain: seq<Hash>, objects: Objects, start: nat, end: nat,
          h: nat)
    requires cfg.Valid() && IsChain(tree, chain) && end < h < |chain| <= MAX_U64
    ensures Stored(AfterWalk(cfg, tree, chain, objects, start, end), chain, h) <==> Stored(objects, chain, h)
    decreases end + 1 - start
  {
    hide IsChain, AfterRange, Stored;
    if start <= end {
      TurnStaysWithin(cfg, tree, chain, objects, start, end, h);
      match NextRangeStart(start, cfg.RangeSize())
      case None =>
      case Some(next) => WalkStaysWithin(cfg, tree, chain, AfterRange(cfg, tree, chain, objects, start, end), next, end, h);
    }
  }

  lemma TurnStaysWithin(cfg: Config, tree: Tree, chain: seq<Hash>, objects: Objects, start: nat, end: nat, h: nat)
    requires cfg.Valid() && IsChain(tree, chain) && start <= end < h < |chain| <= MAX_U64
    ensures Stored(AfterRange(cfg, tree, chain, objects, start, end), chain, h) <==> Stored(objects, chain, h)
  {
    hide IsChain, Probes.UploadStart, AddBlocks, RangeBin;
    AddedOrThere(tree, objects, chain, ProbedStart(cfg, chain, objects, start, end), LastOf(cfg, start, end) + 1, h);
  }

  /** A clean call, block by block: a block of the chain is stored afterwards if and only if it was stored before, or its
      height lies between the managed start and the end height, its range had no index, and it is not below the start to
      which that range's probes send the uploader, ranges that are not ready included. */
  lemma CallStoresBlocks(cfg: Config, tree: Tree, chain: seq<Hash>, objects: Objects, size: nat, end: nat, st: nat, h: nat)
    requires cfg.Valid() && IsChain(tree, chain) && |chain| <= MAX_U64 && ComesTo(cfg, |chain| - 1, size, end)
    requires h < |chain| && st <= h < st + size && st % size == 0
    ensures Stored(AfterCall(cfg, tree, chain, objects), chain, h) <==>
            || Stored(objects, chain, h)
            || (&& cfg.fromHeight <= end && cfg.ManagedStart() <= h <= end
                && Index(size, st) !in objects
                && Probes.UploadStart(objects, chain, st, Min(st + size - 1, end), 100) <= h)
  {
    hide IsChain, AfterWalk, Stored, Probes.UploadStart, Config.ManagedStart, Config.EndHeight, Config.RangeSize;
    SettingsCome(cfg, |chain| - 1, size, end);
    var m := cfg.ManagedStart();
    if cfg.fromHeight <= end {
      if h < m {
        WalkStaysAbove(cfg, tree, chain, objects, m, end, h);
      } else if h > end {
        WalkStaysWithin(cfg, tree, chain, objects, m, end, h);
      } else {
        StartsAbove(m, st, h, size);
        WalkStores(cfg, tree, chain, objects, m, end, st, h);
      }
    }
  }

  lemma StartsAbove(m: nat, st: nat, h: nat, size: nat)
    requires size > 0 && m % size == 0 && st % size == 0 && m <= h < st + size
    ensures m <= st
  {
    if st < m {
      AlignedGap(st, m, size);
    }
  }

  /** And index by index: a range has an index afterwards if and only if it had one before, or it starts at or above the managed
      start, ends at or below the end height, and its last block is at least stableDelay deep. */
  lemma CallStoresIndexes(cfg: Config, tree: Tree, chain: seq<Hash>, objects: Objects, size: nat, end: nat, st: nat)
    requires cfg.Valid() && IsChain(tree, chain) && |chain| <= MAX_U64 && ComesTo(cfg, |chain| - 1, size, end)
    requires st % size == 0
    ensures Index(size, st) in AfterCall(cfg, tree, chain, objects) <==>
            || Index(size, st) in objects
            || (cfg.fromHeight <= end && cfg.ManagedStart() <= st && st + size - 1 <= end && st + size - 1 + cfg.stableDelay <= |chain| - 1)
  {
    hide IsChain, AfterWalk, Config.ManagedStart, Config.EndHeight, Config.RangeSize;
    SettingsCome(cfg, |chain| - 1, size, end);
    var m := cfg.ManagedStart();
    if cfg.fromHeight <= end {
      if st > end {
        NoIndexAbove(cfg, tree, chain, objects, m, end, Index(size, st));
      } else if st < m {
        WalkStaysAbove(cfg, tree, chain, objects, m, end, st);
      } else {
        WalkStores(cfg, tree, chain, objects, m, end, st, st);
      }
    }
  }

  /** No index is created for a range above the end height, nor for ranges of another size. */
  lemma {:induction false} NoIndexAbove(cfg: Config, tree: Tree, chain: seq<Hash>, objects: Objects, start: nat, end: nat,
          k: Key)
    requires cfg.Valid() && IsChain(tree, chain) && end < |chain| <= MAX_U64
    requires k.Index? && (k.rangeSize == cfg.RangeSize() ==> k.start > end)
    ensures k in AfterWalk(cfg, tree, chain, objects, start, end) <==> k in objects
    decreases end + 1 - start
  {
    hide IsChain, AfterRange;
    if start <= end {
      TurnAddsOneIndex(cfg, tree, chain, objects, start, end, k);
      match NextRangeStart(start, cfg.RangeSize())
      case None =>
      case Some(next) => NoIndexAbove(cfg, tree, chain, AfterRange(cfg, tree, chain, objects, start, end), next, end, k);
    }
  }

  lemma TurnAddsOneIndex(cfg: Config, tree: Tree, chain: seq<Hash>, objects: Objects, start: nat, end: nat, k: Key)
    requires cfg.Valid() && IsChain(tree, chain) && start <= end < |chain| <= MAX_U64
    requires k.Index? && k != Index(cfg.RangeSize(), start)
    ensures k in AfterRange(cfg, tree, chain, objects, start, end) <==> k in objects
  {
    hide IsChain, Probes.UploadStart, AddBlocks, RangeBin;
    IndexesStay(tree, objects, chain, ProbedStart(cfg, chain, objects, start, end), LastOf(cfg, start, end) + 1, k);
  }

  /** And nothing else: what is new is a block of those heights as the tree has it, or an index of such a range as the chain
      has it. */
  lemma {:induction false} WalkAdds(cfg: Config, tree: Tree, chain: seq<Hash>, objects: Objects, start: nat, end: nat, k: Key)
    requires cfg.Valid() && IsChain(tree, chain) && end < |chain| <= MAX_U64
    requires k !in objects && k in AfterWalk(cfg, tree, chain, objects, start, end)
    ensures New(cfg, tree, chain, start, end, k, AfterWalk(cfg, tree, chain, objects, start, end)[k])
    decreases end + 1 - start
  {
    hide IsChain, AfterRange, NextRangeStart, Config.RangeSize;
    if start <= end {
      var one := AfterRange(cfg, tree, chain, objects, start, end);
      NextIsNext(start, cfg.RangeSize());
      if k in one {
        TurnAdds(cfg, tree, chain, objects, start, end, k);
        WalkStep(cfg, tree, chain, objects, start, end);
      } else {
        match NextRangeStart(start, cfg.RangeSize())
        case None =>
        case Some(next) =>
          WalkAdds(cfg, tree, chain, one, next, end, k);
          RangeIndex.NextMultiple(start, cfg.RangeSize());
          NewHigher(cfg, tree, chain, start, end, k, AfterWalk(cfg, tree, chain, one, next, end)[k]);
      }
    }
  }

  ghost predicate New(cfg: Config, tree: Tree, chain: seq<Hash>, start: nat, end: nat, k: Key, data: Bytes)
    requires IsChain(tree, chain) && end < |chain|
  {
    match k
    case Block(hash) => exists h :: start <= h <= end && hash == chain[h] && data == tree[hash].raw
    case Index(size, st) =>
      && size == cfg.RangeSize() && start <= st && st % size == start % size && st + size <= end + 1
      && data == RangeBin(chain, st, size)
  }

  lemma NewHigher(cfg: Config, tree: Tree, chain: seq<Hash>, start: nat, end: nat, k: Key, data: Bytes)
    requires IsChain(tree, chain) && end < |chain| && New(cfg, tree, chain, start + cfg.RangeSize(), end, k, data)
    requires (start + cfg.RangeSize()) % cfg.RangeSize() == start % cfg.RangeSize()
    ensures New(cfg, tree, chain, start, end, k, data)
  {
    hide IsChain, RangeBin;
  }

  lemma TurnAdds(cfg: Config, tree: Tree, chain: seq<Hash>, objects: Objects, start: nat, end: nat, k: Key)
    requires cfg.Valid() && IsChain(tree, chain) && start <= end < |chain| <= MAX_U64
    requires k !in objects && k in AfterRange(cfg, tree, chain, objects, start, end)
    ensures New(cfg, tree, chain, start, end, k, AfterRange(cfg, tree, chain, objects, start, end)[k])
  {
    hide RangeBin, Probes.UploadStart;
    Probes.UploadStartInSpan(objects, chain, start, LastOf(cfg, start, end), Probes.PROBE_STEP);
    if k.Index? {
      IndexesStay(tree, objects, chain, ProbedStart(cfg, chain, objects, start, end), LastOf(cfg, start, end) + 1, k);
    }
  }

  lemma CallAddsOnly(cfg: Config, tree: Tree, chain: seq<Hash>, objects: Objects, size: nat, end: nat, k: Key)
    requires cfg.Valid() && IsChain(tree, chain) && |chain| <= MAX_U64 && ComesTo(cfg, |chain| - 1, size, end)
    requires k !in objects && k in AfterCall(cfg, tree, chain, objects)
    ensures var data := AfterCall(cfg, tree, chain, objects)[k];
            match k
            case Block(hash) => exists h :: cfg.ManagedStart() <= h <= end < |chain| && hash == chain[h] && data == tree[hash].raw
            case Index(size', st) =>
              && size' == size && cfg.ManagedStart() <= st && st % size == 0 && st + size <= end + 1 <= |chain|
              && data == RangeBin(chain, st, size)
  {
    hide IsChain, AfterWalk, RangeBin;
    SettingsCome(cfg, |chain| - 1, size, end);
    WalkAdds(cfg, tree, chain, objects, cfg.ManagedStart(), end, k);
  }

  /** So from a store without gaps and without indexes of managed ranges a clean call leaves every block from the managed
      start to the end height stored. */
  lemma NoGapsAllStored(cfg: Config, tree: Tree, chain: seq<Hash>, objects: Objects, size: nat, end: nat, h: nat)
    requires cfg.Valid() && IsChain(tree, chain) && |chain| <= MAX_U64 && ComesTo(cfg, |chain| - 1, size, end)
    requires end < |chain| && Probes.NoGaps(objects, chain, cfg.ManagedStart(), end)
    requires forall st: nat :: st >= cfg.ManagedStart() ==> Index(size, st) !in objects
    requires cfg.fromHeight <= end && cfg.ManagedStart() <= h <= end
    ensures Stored(AfterCall(cfg, tree, chain, objects), chain, h)
  {
    hide IsChain, AfterCall, Probes.UploadStart, Probes.ProbesVouch, Config.ManagedStart, Config.RangeSize, Config.EndHeight;
    SettingsCome(cfg, |chain| - 1, size, end);
    RangeIndex.StartHeightCovers(h, size);
    var st := RangeIndex.StartHeight(h, size).value;
    StartsAbove(cfg.ManagedStart(), st, h, size);
    var last := Min(st + size - 1, end);
    CallStoresBlocks(cfg, tree, chain, objects, size, end, st, h);
    Probes.NoGapsVouch(objects, chain, st, st, last, 100);
    Probes.VouchedStart(objects, chain, st, last, 100);
  }
}
