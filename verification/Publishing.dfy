/** Publishing stable ranges, seen as a fold over the ranges: where it stops and what it leaves in the store. */
module Publishing {
  import opened Prelude
  import opened ObjectKeys
  import opened BlockTree
  import opened Services
  import opened Ranges
  import opened FollowerModel
  import RangeIndex

  /** The ranges that are published lie within the end height and are stableDelay blocks deep, and the first one that is not
      published does not fit that: its last height is above the end height, or less than stableDelay blocks deep. */
  lemma {:induction false} PublishToMeans(cfg: Config, start: nat, tip: nat, end: nat)
    requires cfg.Valid() && end < MAX_U64
    ensures var stop := PublishTo(cfg, start, tip, end);
            && stop % cfg.RangeSize() == start % cfg.RangeSize()
            && (stop + cfg.RangeSize() - 1 > end || tip < cfg.stableDelay || stop + cfg.RangeSize() - 1 > tip - cfg.stableDelay)
            && (stop > start ==> stop - 1 <= end && tip >= cfg.stableDelay && stop - 1 <= tip - cfg.stableDelay)
    decreases end + 1 - start
  {
    if start <= end && cfg.Ready(start, tip, end) {
      PublishToMeans(cfg, start + cfg.RangeSize(), tip, end);
      RangeIndex.NextMultiple(start, cfg.RangeSize());
    }
  }

  lemma PublishToReached(cfg: Config, n: nat, tip: nat, end: nat)
    requires cfg.Valid() && end < MAX_U64
    ensures n <= PublishTo(cfg, n, tip, end)
  {
  }

  lemma PublishRangeGrows(cfg: Config, tree: Tree, chain: seq<Hash>, objects: Objects, start: nat)
    requires IsChain(tree, chain) && start + cfg.RangeSize() <= |chain|
    ensures Grew(objects, AddBlocks(tree, objects, chain, start, start + cfg.RangeSize()))
    ensures Grew(AddBlocks(tree, objects, chain, start, start + cfg.RangeSize()), PublishRange(cfg, tree, chain, objects, start))
    ensures Grew(objects, PublishRange(cfg, tree, chain, objects, start))
    ensures Index(cfg.RangeSize(), start) in PublishRange(cfg, tree, chain, objects, start)
  {
    AddBlocksGrows(tree, objects, chain, start, start + cfg.RangeSize());
    hide AddBlocks, IsChain, RangeBin;
  }

  lemma {:induction false} PublishGrows(cfg: Config, tree: Tree, chain: seq<Hash>, objects: Objects, start: nat, stop: nat)
    requires IsChain(tree, chain) && stop <= |chain|
    ensures Grew(objects, PublishObjects(cfg, tree, chain, objects, start, stop))
    decreases stop - start
  {
    hide PublishRange, IsChain, Grew;
    GrewReflexive(objects);
    if start + cfg.RangeSize() <= stop {
      var one := PublishRange(cfg, tree, chain, objects, start);
      PublishRangeGrows(cfg, tree, chain, objects, start);
      PublishGrows(cfg, tree, chain, one, start + cfg.RangeSize(), stop);
      GrewTransitive(objects, one, PublishObjects(cfg, tree, chain, one, start + cfg.RangeSize(), stop));
    }
  }

  /** Going on from n is the same as going all the way from start. */
  lemma {:induction false} PublishSplit(cfg: Config, tree: Tree, chain: seq<Hash>, objects: Objects, start: nat,
          n: nat, stop: nat)
    requires IsChain(tree, chain) && start <= n <= stop <= |chain| && start % cfg.RangeSize() == n % cfg.RangeSize()
    ensures PublishObjects(cfg, tree, chain, objects, start, stop)
         == PublishObjects(cfg, tree, chain, PublishObjects(cfg, tree, chain, objects, start, n), n, stop)
    decreases n - start
  {
    hide PublishRange, IsChain;
    if start < n {
      AlignedGap(start, n, cfg.RangeSize());
      RangeIndex.NextMultiple(start, cfg.RangeSize());
      PublishSplit(cfg, tree, chain, PublishRange(cfg, tree, chain, objects, start), start + cfg.RangeSize(), n, stop);
    }
  }

  /** One more range: it fits, it is on the way, and it extends what was published so far. */
  lemma PublishNext(cfg: Config, tree: Tree, chain: seq<Hash>, objects: Objects, start: nat, n: nat, end: nat)
    requires cfg.Valid() && IsChain(tree, chain) && end < |chain| <= MAX_U64
    requires OnTheWay(cfg, start, n, |chain| - 1, end) && n <= end && cfg.Ready(n, |chain| - 1, end)
    ensures var next := n + cfg.RangeSize();
            && next <= end + 1 && EndOfRange(n, cfg.RangeSize()) == next - 1 && NextRangeStart(n, cfg.RangeSize()) == Some(next)
            && OnTheWay(cfg, start, next, |chain| - 1, end)
            && PublishObjects(cfg, tree, chain, objects, start, next)
               == PublishRange(cfg, tree, chain, PublishObjects(cfg, tree, chain, objects, start, n), n)
  {
    hide PublishRange, IsChain;
    var next := n + cfg.RangeSize();
    RangeIndex.NextMultiple(n, cfg.RangeSize());
    PublishSplit(cfg, tree, chain, objects, start, n, next);
    PublishOne(cfg, tree, chain, PublishObjects(cfg, tree, chain, objects, start, n), n);
    hide PublishObjects;
  }

  lemma PublishOne(cfg: Config, tree: Tree, chain: seq<Hash>, objects: Objects, n: nat)
    requires IsChain(tree, chain) && n + cfg.RangeSize() <= |chain|
    ensures PublishObjects(cfg, tree, chain, objects, n, n + cfg.RangeSize()) == PublishRange(cfg, tree, chain, objects, n)
  {
    hide PublishRange, IsChain;
  }

  /** What is published by n is part of what is published in the end. */
  lemma PublishedSoFar(cfg: Config, tree: Tree, chain: seq<Hash>, objects: Objects, start: nat, n: nat, end: nat)
    requires cfg.Valid() && IsChain(tree, chain) && end < |chain| <= MAX_U64 && n <= |chain|
    requires OnTheWay(cfg, start, n, |chain| - 1, end)
    ensures var stop := PublishTo(cfg, start, |chain| - 1, end);
            && n <= stop
            && Grew(PublishObjects(cfg, tree, chain, objects, start, n), PublishObjects(cfg, tree, chain, objects, start, Min(stop, |chain|)))
  {
    var stop := Min(PublishTo(cfg, start, |chain| - 1, end), |chain|);
    PublishSplit(cfg, tree, chain, objects, start, n, stop);
    PublishGrows(cfg, tree, chain, PublishObjects(cfg, tree, chain, objects, start, n), n, stop);
    hide PublishObjects, IsChain;
  }

  /** Every block and every index of the published ranges is in the store, a new index answers with the chain's hashes,
      and nothing else was added. */
  lemma {:induction false} PublishedMeans(cfg: Config, tree: Tree, chain: seq<Hash>, objects: Objects, start: nat,
          stop: nat, h: nat)
    requires IsChain(tree, chain) && start <= stop <= |chain| && start % cfg.RangeSize() == stop % cfg.RangeSize()
    ensures var after := PublishObjects(cfg, tree, chain, objects, start, stop);
            && (start <= h < stop ==> Stored(after, chain, h))
            && (start <= h < stop && h % cfg.RangeSize() == start % cfg.RangeSize() ==>
                  && Index(cfg.RangeSize(), h) in after && h + cfg.RangeSize() <= stop
                  && (Index(cfg.RangeSize(), h) !in objects ==> after[Index(cfg.RangeSize(), h)] == RangeBin(chain, h, cfg.RangeSize())))
            && (Index(cfg.RangeSize(), h) in after && Index(cfg.RangeSize(), h) !in objects ==>
                  start <= h < stop && h % cfg.RangeSize() == start % cfg.RangeSize())
            && (stop <= h < |chain| ==> (Stored(after, chain, h) <==> Stored(objects, chain, h)))
    decreases stop - start
  {
    hide PublishRange, IsChain, RangeBin;
    if start < stop {
      var rangeSize := cfg.RangeSize();
      AlignedGap(start, stop, rangeSize);
      RangeIndex.NextMultiple(start, rangeSize);
      var one := PublishRange(cfg, tree, chain, objects, start);
      PublishedMeans(cfg, tree, chain, one, start + rangeSize, stop, h);
      PublishGrows(cfg, tree, chain, one, start + rangeSize, stop);
      OneRangeMeans(cfg, tree, chain, objects, start, h);
      if start < h < stop && h % rangeSize == start % rangeSize {
        AlignedGap(start, h, rangeSize);
        AlignedGap(h, stop, rangeSize);
      }
    }
  }

  /** What lies below the first range is not touched. */
  lemma {:induction false} PublishedBelow(cfg: Config, tree: Tree, chain: seq<Hash>, objects: Objects, start: nat,
          stop: nat, h: nat)
    requires IsChain(tree, chain) && stop <= |chain| && h < start && h < |chain|
    ensures Stored(PublishObjects(cfg, tree, chain, objects, start, stop), chain, h) <==> Stored(objects, chain, h)
    decreases stop - start
  {
    hide PublishRange, IsChain, Stored, Config.RangeSize;
    if start + cfg.RangeSize() <= stop {
      OneRangeBelow(cfg, tree, chain, objects, start, h);
      PublishedBelow(cfg, tree, chain, PublishRange(cfg, tree, chain, objects, start), start + cfg.RangeSize(), stop, h);
    }
  }

  lemma OneRangeBelow(cfg: Config, tree: Tree, chain: seq<Hash>, objects: Objects, start: nat, h: nat)
    requires IsChain(tree, chain) && start + cfg.RangeSize() <= |chain| && h < start
    ensures Stored(PublishRange(cfg, tree, chain, objects, start), chain, h) <==> Stored(objects, chain, h)
  {
    hide IsChain, RangeBin, Config.RangeSize;
    BlockKeyFresh(tree, chain, start, start + cfg.RangeSize(), h);
  }

  lemma OneRangeMeans(cfg: Config, tree: Tree, chain: seq<Hash>, objects: Objects, start: nat, h: nat)
    requires IsChain(tree, chain) && start + cfg.RangeSize() <= |chain|
    ensures var after := PublishRange(cfg, tree, chain, objects, start);
            && (start <= h < start + cfg.RangeSize() ==> Stored(after, chain, h))
            && Index(cfg.RangeSize(), start) in after
            && (Index(cfg.RangeSize(), start) !in objects ==> after[Index(cfg.RangeSize(), start)] == RangeBin(chain, start, cfg.RangeSize()))
            && (h != start ==> (Index(cfg.RangeSize(), h) in after <==> Index(cfg.RangeSize(), h) in objects))
            && (start + cfg.RangeSize() <= h < |chain| ==> (Stored(after, chain, h) <==> Stored(objects, chain, h)))
  {
    hide IsChain, RangeBin, Config.RangeSize;
    if start + cfg.RangeSize() <= h < |chain| {
      BlockKeyFresh(tree, chain, start, start + cfg.RangeSize(), h);
    }
    AddBlocksGrows(tree, objects, chain, start, start + cfg.RangeSize());
  }
}
