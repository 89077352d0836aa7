/** From node to node: what a follower has put in the bucket, a bootstrapping submitter hands to its own node. */
module EndToEnd {
  import opened Prelude
  import opened ObjectKeys
  import opened BlockTree
  import opened Services
  import opened Ranges
  import opened FollowerModel
  import opened FollowerRuns
  import opened Resolution
  import BlockHash
  import FollowerIndexes
  import IndexCache
  import Pipeline
  import Out = PipelineOutcome
  import RangeIndex

  // ----- the store holds the tree's own blocks

  ghost predicate Faithful(tree: Tree, objects: Objects) {
    forall x :: x in tree && Block(x) in objects ==> objects[Block(x)] == tree[x].raw
  }

  lemma AddBlocksFaithful(tree: Tree, objects: Objects, chain: seq<Hash>, lo: nat, hi: nat)
    requires IsChain(tree, chain) && hi <= |chain| && Faithful(tree, objects)
    ensures Faithful(tree, AddBlocks(tree, objects, chain, lo, hi))
  {
  }

  lemma PutIndexFaithful(tree: Tree, objects: Objects, rangeSize: nat, start: nat, bin: Bytes)
    requires Faithful(tree, objects)
    ensures Faithful(tree, PutNew(objects, Index(rangeSize, start), bin))
  {
  }

  lemma {:induction false} PublishFaithful(cfg: Config, tree: Tree, chain: seq<Hash>, objects: Objects, start: nat,
          stop: nat)
    requires IsChain(tree, chain) && stop <= |chain| && Faithful(tree, objects)
    ensures Faithful(tree, PublishObjects(cfg, tree, chain, objects, start, stop))
    decreases stop - start
  {
    hide IsChain, Config.RangeSize, AddBlocks, PutNew, Faithful;
    var size := cfg.RangeSize();
    if start + size <= stop {
      AddBlocksFaithful(tree, objects, chain, start, start + size);
      PutIndexFaithful(tree, AddBlocks(tree, objects, chain, start, start + size), size, start, RangeBin(chain, start, size));
      PublishFaithful(cfg, tree, chain, PublishRange(cfg, tree, chain, objects, start), start + size, stop);
    }
  }

  lemma PartFaithful(tree: Tree, before: Objects, after: Objects, full: Objects)
    requires Within(before, after, full) && Faithful(tree, full)
    ensures Faithful(tree, after)
  {
    forall x | x in tree && Block(x) in after ensures after[Block(x)] == tree[x].raw {
      assert full[Block(x)] == after[Block(x)];
    }
  }

  lemma IncrementFaithful(cfg: Config, tree: Tree, chain: seq<Hash>, s: Sys)
    requires cfg.Valid() && IsChain(tree, chain) && |chain| <= MAX_U64 && Comparable(cfg, s.f, chain)
    requires Faithful(tree, s.objects)
    ensures Faithful(tree, AfterIncrement(cfg, tree, chain, s).objects)
  {
    hide IsChain, Faithful, Config.RangeSize, AddBlocks, PublishObjects, UploadFrom, PublishTo, Segment;
    var end := cfg.EndHeight(|chain| - 1);
    AddBlocksFaithful(tree, s.objects, chain, UploadFrom(cfg, s.f, chain, end), end + 1);
    PublishFaithful(cfg, tree, chain, Incremented(cfg, tree, chain, s), s.f.nextIndexStart,
                    Min(PublishTo(cfg, s.f.nextIndexStart, |chain| - 1, end), |chain|));
  }

  lemma ChainIsNotEmpty(tree: Tree, chain: seq<Hash>)
    requires IsChain(tree, chain)
    ensures |chain| > 0
  {
  }

  lemma InitFaithful(cfg: Config, tree: Tree, chain: seq<Hash>, objects: Objects)
    requires cfg.Valid() && IsChain(tree, chain) && |chain| <= MAX_U64 && Faithful(tree, objects)
    ensures Faithful(tree, AfterInit(cfg, tree, chain, objects).objects)
  {
    hide IsChain, Faithful, Config.RangeSize, Config.ManagedStart, AddBlocks, PublishObjects, PublishTo, Segment,
      FirstUnindexed,
      FollowerModel.Probes.UploadStart;
    ChainIsNotEmpty(tree, chain);
    var end := cfg.EndHeight(|chain| - 1);
    var start := FirstUnindexed(cfg, objects, cfg.ManagedStart(), end);
    if start <= end {
      AddBlocksFaithful(tree, objects, chain,
                        FollowerModel.Probes.UploadStart(objects, chain, start, end, FollowerModel.Probes.PROBE_STEP), end + 1);
    }
    PublishFaithful(cfg, tree, chain, InitialBlocks(cfg, tree, chain, objects, start, end), start,
                    Min(PublishTo(cfg, start, |chain| - 1, end), |chain|));
  }

  /** No call, faulty or not, ever stores anything but the tree's block under a block's name. */
  lemma FaithfulKept(cfg: Config, tree: Tree, chain: seq<Hash>, s: Sys, t: Sys, r: Result<FollowResult, Error>)
    requires cfg.Valid() && IsChain(tree, chain) && |chain| <= MAX_U64
    requires CallStep(cfg, tree, chain, s, t, r) && Faithful(tree, s.objects)
    ensures Faithful(tree, t.objects)
  {
    hide IsChain, Faithful, AfterIncrement, AfterInit, Refuses, RefusesInit, Reports, Refreshing,
      FollowerModel.Publishing, Within, Comparable,
      FirstUnindexed;
    if t.objects != s.objects {
      if s.f.initialized {
        IncrementFaithful(cfg, tree, chain, s);
        if r.Failure? {
          PartFaithful(tree, s.objects, t.objects, AfterIncrement(cfg, tree, chain, s).objects);
        }
      } else {
        InitFaithful(cfg, tree, chain, s.objects);
        if r.Failure? {
          PartFaithful(tree, s.objects, t.objects, AfterInit(cfg, tree, chain, s.objects).objects);
        }
      }
    }
  }

  lemma {:induction false} RunsStayFaithful(cfg: Config, tree: Tree, states: seq<Sys>, events: seq<Event>, i: nat)
    requires IsRun(cfg, tree, states, events) && i < |states| && Faithful(tree, states[0].objects)
    ensures Faithful(tree, states[i].objects)
    decreases i
  {
    hide CallStep, IsChain, WellFormed, Faithful;
    if i > 0 {
      RunsStayFaithful(cfg, tree, states, events, i - 1);
      var e := events[i - 1];
      FaithfulKept(cfg, tree, e.chain, states[i - 1], states[i], e.result);
    }
  }

  // ----- the public bucket

  /** The bucket answers, under each key's name, with the object stored under that key. */
  ghost predicate Serves(bucket: IndexCache.Bucket, objects: Objects) {
    forall k :: bucket(Name(k)) == if k in objects then Success(objects[k]) else Failure(IndexCache.NotFound)
  }

  /** Every store can be served, since no two keys share a name. */
  ghost function Public(objects: Objects): (bucket: IndexCache.Bucket)
    ensures Serves(bucket, objects)
  {
    var bucket := name => if exists k :: k in objects && Name(k) == name
                          then (var k :| k in objects && Name(k) == name; Success(objects[k]))
                          else Failure(IndexCache.NotFound);
    assert Serves(bucket, objects) by {
      hide Name;
      forall k ensures bucket(Name(k)) == if k in objects then Success(objects[k]) else Failure(IndexCache.NotFound) {
        forall k' | k' in objects && Name(k') == Name(k) ensures k' == k {
          NameInjective(k', k);
        }
      }
    }
    bucket
  }

  // ----- the mirror

  /** The view of a submitter that reads the bucket of this store. */
  ghost predicate Reads(v: View, cfg: Config, objects: Objects) {
    v.bootstrap && v.rangeSize == cfg.RangeSize() && Serves(v.bucket, objects)
  }

  /** Raw blocks hash to the hashes the node gave for them. */
  ghost predicate HashesRight(sha: BlockHash.Sha256, tree: Tree, chain: seq<Hash>, n: nat) {
    n <= |chain| && forall h :: 0 <= h < n ==> chain[h] in tree && BlockHash.HashOf(sha, tree[chain[h]].raw) == Some(chain[h])
  }

  /** At a published height the submitter finds the chain's hash and the chain's block. */
  lemma PublishedHeight(cfg: Config, tree: Tree, objects: Objects, chain: seq<Hash>, n: nat, v: View, h: nat)
    requires WellFormed(tree) && IsChain(tree, chain) && FollowerIndexes.PublishedAs(cfg, objects, chain, n)
    requires cfg.ManagedStart() <= h < n && n % cfg.RangeSize() == 0
    requires Reads(v, cfg, objects) && Faithful(tree, objects) && HashesRight(v.sha, tree, chain, n)
    ensures Resolve(v, h) == Hash(chain[h])
    ensures Fetched(v, chain[h]) == Success(tree[chain[h]].raw)
  {
    hide IsChain, RangeIndex.HashAt, Name, Config.ManagedStart, Config.RangeSize;
    FollowerIndexes.PublishedAnswers(cfg, tree, objects, chain, n, h);
    var st := RangeIndex.StartHeight(h, cfg.RangeSize()).value;
    assert v.bucket(Name(Index(cfg.RangeSize(), st))) == Success(objects[Index(cfg.RangeSize(), st)]);
    assert Stored(objects, chain, h);
    BlockKeyOfHash(chain[h]);
    assert v.bucket(Name(Block(chain[h]))) == Success(objects[Block(chain[h])]);
  }

  /** At the next range's start there is nothing yet. */
  lemma NextHeight(cfg: Config, objects: Objects, n: nat, v: View)
    requires FollowerIndexes.NoOtherIndex(cfg, objects, n) && n % cfg.RangeSize() == 0
    requires Reads(v, cfg, objects) && v.headers < n
    ensures Resolve(v, n) == Wait(true)
  {
    hide Name, Config.ManagedStart, Config.RangeSize;
    RangeIndex.StartHeightOfMember(n, n, cfg.RangeSize());
    assert Index(cfg.RangeSize(), n) !in objects;
    assert v.bucket(Name(Index(cfg.RangeSize(), n))) == Failure(IndexCache.NotFound);
  }

  /** The node has every block once it was given it. */
  ghost predicate Accepting(p: Pipeline.Plan) {
    forall log, block :: Out.Counts(p.node(log, block), block.height)
  }

  lemma {:induction false} NothingStopsIt(p: Pipeline.Plan, stop: nat, c: nat, log: seq<Pipeline.Submission>)
    requires StopsAt(p.view, p.first, stop) && 0 < p.first <= c <= stop && Resolve(p.view, stop).Wait? && Accepting(p)
    requires forall h :: p.first <= h < stop ==> Resolve(p.view, h).Hash? && Fetched(p.view, Resolve(p.view, h).hash).Success?
    ensures Pipeline.Ahead(p, stop, p.window, c, log).1.error.None?
    decreases stop - c
  {
    hide Resolve, Fetched, StopsAt, Pipeline.Taken, Out.Counts;
    if c < stop {
      var block := Pipeline.Submission(c, Fetched(p.view, Resolve(p.view, c).hash).value);
      assert Out.Counts(p.node(log, block), block.height);
      Out.TakenCounts(p.node(log, block), c);
      NothingStopsIt(p, stop, c + 1, log + [block]);
    }
  }

  /** The chain's raw blocks at heights lo up to, not including, hi. */
  ghost function BlocksOf(tree: Tree, chain: seq<Hash>, lo: nat, hi: nat): seq<Pipeline.Submission>
    requires lo <= hi <= |chain| && IsChain(tree, chain)
  {
    seq(hi - lo, i requires 0 <= i < hi - lo => Pipeline.Submission(lo + i, tree[chain[lo + i]].raw))
  }

  /** What a submitter does over a bucket in which the ranges below n are published as the chain has them. */
  lemma MirrorOfStore(cfg: Config, tree: Tree, objects: Objects, chain: seq<Hash>, n: nat, p: Pipeline.Plan)
    requires WellFormed(tree) && IsChain(tree, chain) && cfg.ManagedStart() == 0 && n % cfg.RangeSize() == 0
    requires FollowerIndexes.PublishedAs(cfg, objects, chain, n) && FollowerIndexes.NoOtherIndex(cfg, objects, n)
    requires Faithful(tree, objects) && HashesRight(p.view.sha, tree, chain, n)
    requires Pipeline.ValidPlan(p) && p.first <= n && p.view.headers < n && Reads(p.view, cfg, objects) && Accepting(p)
    ensures StopsAt(p.view, p.first, n)
    ensures Pipeline.Ahead(p, n, p.window, p.first, [])
         == (BlocksOf(tree, chain, p.first, n), Pipeline.Outcome(Pipeline.Report(n - p.first, n - 1, n, true, true), None))
  {
    hide WellFormed, IsChain, FollowerIndexes.PublishedAs, FollowerIndexes.NoOtherIndex, Faithful, Reads, Accepting,
      Config.ManagedStart, Config.RangeSize, Resolve, Fetched, Pipeline.Ahead;
    NextHeight(cfg, objects, n, p.view);
    forall h | p.first <= h < n
      ensures Resolve(p.view, h) == Hash(chain[h]) && Fetched(p.view, chain[h]) == Success(tree[chain[h]].raw)
    {
      PublishedHeight(cfg, tree, objects, chain, n, p.view, h);
    }
    NothingStopsIt(p, n, p.first, []);
    Out.AheadMeans(p, n, p.window, p.first, []);
    var log := Pipeline.Ahead(p, n, p.window, p.first, []).0;
    assert forall i :: 0 <= i < |log| ==> Out.RightBlock(p, p.first + i, log[i]);
    assert log == BlocksOf(tree, chain, p.first, n);
  }

  /** Take a run of a follower from managed start 0 and a store without indexes, in which no request faulted and whose last
      call succeeded on some chain. Let a submitter with bootstrapping, over that store and over a node that accepts what it
      is given and has less than nextIndexStart of blocks and headers, run to its end under any interleaving. Then its node
      has been given exactly the chain's raw blocks from the one above its own up to nextIndexStart - 1, in order, and the
      submitter waits for headers and for the index at nextIndexStart. */
  lemma Mirror(cfg: Config, tree: Tree, states: seq<Sys>, events: seq<Event>, p: Pipeline.Plan, moves: seq<Pipeline.Move>)
    requires IsRun(cfg, tree, states, events) && |events| > 0 && Settles(cfg, events[|events| - 1])
    requires states[0].f == Follower(false, 0, cfg.ManagedStart(), map[]) && cfg.ManagedStart() == 0
    requires forall st: nat :: Index(cfg.RangeSize(), st) !in states[0].objects
    requires forall j :: 0 <= j < |events| ==> events[j].result != Failure(Fault)
    requires Faithful(tree, states[0].objects)
    requires var n, chain := states[|events|].f.nextIndexStart, events[|events| - 1].chain;
             && HashesRight(p.view.sha, tree, chain, n)
             && Pipeline.ValidPlan(p) && p.first <= n && p.view.headers < n && Accepting(p)
    requires Reads(p.view, cfg, states[|events|].objects)
    requires Pipeline.IsRun(p, Pipeline.Start(p), moves)
    requires var s := Pipeline.RunEnd(p, Pipeline.Start(p), moves); s.phase.Returned? && !s.outer
    ensures var n, chain := states[|events|].f.nextIndexStart, events[|events| - 1].chain;
            var s := Pipeline.RunEnd(p, Pipeline.Start(p), moves);
            && IsChain(tree, chain) && n <= |chain|
            && s.log == BlocksOf(tree, chain, p.first, n)
            && s.phase.outcome == Pipeline.Outcome(Pipeline.Report(n - p.first, n - 1, n, true, true), None)
  {
    hide WellFormed, CallStep, FollowerIndexes.PublishedAs, FollowerIndexes.NoOtherIndex, FollowerIndexes.OnBoundary,
      Faithful, Reads, Accepting, HashesRight,
      Resolve, Pipeline.Ahead, Pipeline.RunEnd, Pipeline.IsRun, Pipeline.Start, StopsAt, FollowerModel.Published, IsChain;
    var last := |events|;
    var n, chain := states[last].f.nextIndexStart, events[last - 1].chain;
    FollowerIndexes.RunsPublishTheChain(cfg, tree, states, events, last);
    FreshFollower(cfg, tree);
    RunsKeepTheCache(cfg, tree, states, events, last);
    InvAligned(cfg, tree, states[last].f);
    RunsStayFaithful(cfg, tree, states, events, last);
    PublishedWithin(cfg, states[last].objects, chain, n);
    MirrorOfStore(cfg, tree, states[last].objects, chain, n, p);
    Out.OutcomeIsAhead(p, n, moves);
  }

  lemma PublishedWithin(cfg: Config, objects: Objects, chain: seq<Hash>, n: nat)
    requires FollowerIndexes.PublishedAs(cfg, objects, chain, n)
    ensures n <= |chain|
  {
  }
}
