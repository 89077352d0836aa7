/** How a tail can come to have a hole. A first call does not see a block that is missing between two probes; and the
    follower can make such a hole itself, when the pool of a first call fails at one block that no probe looks at after
    the blocks above it have landed. */
module TailHole {
  import opened Prelude
  import opened ObjectKeys
  import opened BlockTree
  import opened Services
  import opened Ranges
  import opened FollowerModel
  import opened FollowerRuns
  import opened FollowerTail
  import Faults = FollowerFaults
  import Indexes = FollowerIndexes
  import Pool = UploadPool
  import Probes
  import Upload = UploadFollower
  import Uploads

  /** Two workers, from height 0, and nothing ever deep enough to publish. */
  const CONFIG: Config := Config(0, None, 1, MAX_U64, 2)
  const FRESH: Follower := Follower(false, 0, 0, map[])

  lemma Settings(tip: nat)
    requires tip < MAX_U64
    ensures CONFIG.Valid() && CONFIG.RangeSize() == 1 && CONFIG.ManagedStart() == 0 && CONFIG.EndHeight(tip) == tip
    ensures CONFIG.Workers() == 2 && PublishTo(CONFIG, 0, tip, tip) == 0
  {
  }

  lemma NothingIndexed(objects: Objects, end: nat)
    requires forall k :: k in objects ==> k.Block?
    ensures CONFIG.Valid() && FirstUnindexed(CONFIG, objects, 0, end) == 0
  {
    hide Config.RangeSize;
  }

  /** On every chain of more than 101 blocks, a first call on the store that lacks block 1 alone leaves it out. */
  lemma BrokenTail(tree: Tree, chain: seq<Hash>)
    requires IsChain(tree, chain) && Probes.PROBE_STEP + 1 < |chain| <= MAX_U64
    ensures CONFIG.Valid() && !TailStored(chain, AfterInit(CONFIG, tree, chain, Probes.AllButOne(tree, chain)))
  {
    hide IsChain, AfterInit, Probes.AllButOne, FirstUnindexed, Probes.UploadStart, PublishTo, TailStored, AddBlocks,
      Config.ManagedStart;
    var tip, objects := |chain| - 1, Probes.AllButOne(tree, chain);
    Settings(tip);
    Probes.AllButOneHas(tree, chain);
    Probes.GapIsLeft(tree, chain);
    NothingIndexed(objects, tip);
    InitTailIff(CONFIG, tree, chain, objects);
    assert !Stored(objects, chain, 1);
  }

  // ----- the follower's own hole

  lemma FaultLeaves(tree: Tree, chain: seq<Hash>)
    requires IsChain(tree, chain) && 1 < |chain| <= MAX_U64
    ensures CONFIG.Valid()
    ensures CallStep(CONFIG, tree, chain, Sys(FRESH, map[]), Sys(FRESH, Probes.AllButOne(tree, chain)), Failure(Fault))
    ensures WritesInOrder(CONFIG, chain, Sys(FRESH, map[]), Sys(FRESH, Probes.AllButOne(tree, chain)))
  {
    hide IsChain, AfterInit, AddBlocks, Probes.AllButOne, FirstUnindexed, FirstInOrder, RangeWhole;
    Settings(|chain| - 1);
    Probes.AllButOneHas(tree, chain);
    EmptyStart(tree, chain);
  }

  lemma EmptyStart(tree: Tree, chain: seq<Hash>)
    requires IsChain(tree, chain) && 1 < |chain| <= MAX_U64
    ensures CONFIG.Valid() && AfterInit(CONFIG, tree, chain, map[]).objects == AddBlocks(tree, map[], chain, 0, |chain|)
  {
    hide IsChain, AfterInit, AddBlocks, FirstUnindexed, Probes.UploadStart, PublishTo, Config.ManagedStart, Stored;
    Settings(|chain| - 1);
    NothingIndexed(map[], |chain| - 1);
    Unpublished(tree, chain, map[]);
    NothingStored(chain);
  }

  /** Without a range to publish a first call only uploads. */
  lemma Unpublished(tree: Tree, chain: seq<Hash>, objects: Objects)
    requires IsChain(tree, chain) && 1 < |chain| <= MAX_U64 && forall k :: k in objects ==> k.Block?
    ensures CONFIG.Valid()
    ensures var t := AfterInit(CONFIG, tree, chain, objects);
            && t.f.nextIndexStart == 0 && t.f.lastTip == |chain| - 1 && t.f.initialized
            && t.objects == AddBlocks(tree, objects, chain, Probes.UploadStart(objects, chain, 0, |chain| - 1, Probes.PROBE_STEP), |chain|)
  {
    hide IsChain, AddBlocks, FirstUnindexed, Probes.UploadStart, PublishTo, Config.ManagedStart, Segment;
    Settings(|chain| - 1);
    NothingIndexed(objects, |chain| - 1);
  }

  lemma NothingStored(chain: seq<Hash>)
    requires 1 < |chain|
    ensures Probes.UploadStart(map[], chain, 0, |chain| - 1, Probes.PROBE_STEP) == 0
  {
    assert !Stored(map[], chain, 0);
  }

  lemma Accounts(tree: Tree, chain: seq<Hash>, before: Objects, after: Objects, lo: nat) returns (r: FollowResult)
    requires IsChain(tree, chain) && 1 < |chain| && after == AddBlocks(tree, before, chain, lo, |chain|)
    ensures r.tip == |chain| - 1
    ensures forall f: Follower, g: Follower :: f.lastTip == 0 && g.nextIndexStart == 0 ==>
              Reports(CONFIG, Sys(f, before), Sys(g, after), |chain| - 1, r)
  {
    hide IsChain, AddBlocks, IndexKeys;
    AddBlocksGrows(tree, before, chain, lo, |chain|);
    Upload.GrewCounts(before, after);
    Upload.IndexesOfBlocks(tree, before, chain, lo, |chain|);
    r := FollowResult(|chain| - 1, 0, 0, |after| - |before|, 0, false);
  }

  /** From an empty bucket, on one unchanging chain of more than 101 blocks: a first call that faults, then one that succeeds
      and leaves a block of the tail out for good. */
  lemma SelfMadeHole(tree: Tree, chain: seq<Hash>) returns (states: seq<Sys>, events: seq<Event>)
    requires WellFormed(tree) && IsChain(tree, chain) && Probes.PROBE_STEP + 1 < |chain| <= MAX_U64
    ensures Faults.FreshRun(CONFIG, tree, states, events) && |events| == 2 && states[0].objects == map[]
    ensures events[0] == Event(chain, Failure(Fault)) && events[1].chain == chain && Settles(CONFIG, events[1])
    ensures !TailStored(chain, states[2])
  {
    hide IsChain, WellFormed, AfterInit, Probes.AllButOne, FirstUnindexed, Probes.UploadStart, PublishTo, TailStored,
      AddBlocks,
      WritesInOrder, FaultStep, Reports, Config.ManagedStart, RefusesInit;
    var tip, holey := |chain| - 1, Probes.AllButOne(tree, chain);
    Settings(tip);
    Probes.AllButOneHas(tree, chain);
    FaultLeaves(tree, chain);
    BrokenTail(tree, chain);
    Unpublished(tree, chain, holey);
    NotRefused(holey, tip);
    RetryInOrder(tree, chain, holey);
    var done := AfterInit(CONFIG, tree, chain, holey);
    var r := Accounts(tree, chain, holey, done.objects, Probes.UploadStart(holey, chain, 0, tip, Probes.PROBE_STEP));
    states := [Sys(FRESH, map[]), Sys(FRESH, holey), done];
    events := [Event(chain, Failure(Fault)), Event(chain, Success(r))];
    assert Reports(CONFIG, Sys(FRESH, holey), Sys(done.f, done.objects), tip, r);
  }

  lemma NotRefused(objects: Objects, tip: nat)
    requires forall k :: k in objects ==> k.Block?
    ensures CONFIG.Valid() && !RefusesInit(CONFIG, objects, tip)
  {
    hide FirstUnindexed;
    NothingIndexed(objects, tip);
  }

  lemma RetryInOrder(tree: Tree, chain: seq<Hash>, before: Objects)
    requires IsChain(tree, chain) && 1 < |chain| <= MAX_U64 && forall k :: k in before ==> k.Block?
    ensures CONFIG.Valid() && WritesInOrder(CONFIG, chain, Sys(FRESH, before), AfterInit(CONFIG, tree, chain, before))
  {
    hide IsChain, AfterInit, FirstUnindexed, Probes.UploadStart, PublishTo, FirstInOrder, RangeWhole, Config.ManagedStart;
    Settings(|chain| - 1);
    Unpublished(tree, chain, before);
  }

  // ----- the pool really can leave that hole

  lemma Prepend(j: Pool.Job, s: Pool.Pool, m: Pool.Move, rest: seq<Pool.Move>)
    requires Pool.Enabled(j, s, m) && Pool.IsRun(j, Pool.Apply(j, s, m), rest)
    ensures Pool.IsRun(j, s, [m] + rest)
    ensures Pool.RunEnd(j, s, [m] + rest) == Pool.RunEnd(j, Pool.Apply(j, s, m), rest)
  {
    hide Pool.Enabled, Pool.Apply;
    assert ([m] + rest)[1..] == rest;
  }

  /** Worker 1 is still asking for block 1; worker 0 has stored everything else below n. */
  ghost predicate Waiting(j: Pool.Job, s: Pool.Pool, n: nat)
    requires Pool.ValidJob(j) && n <= j.tip + 1
  {
    && s.workers == [Pool.Idle, Pool.Head(1)] && s.next == n
    && s.phase == (if n == j.tip + 1 then Pool.Closed(false) else Pool.Sending)
    && s.errs.None? && !s.cancelled && !s.outer
    && s.objects == AddBlocks(j.tree, AddBlocks(j.tree, map[], j.chain, 0, 1), j.chain, 2, n)
  }

  ghost predicate OwnFailure(s: Pool.Pool, objects: Objects) {
    s.phase == Pool.Returned(Failure(Pool.Worker(Pool.Own))) && !s.outer && s.objects == objects
  }

  ghost predicate HoleJob(j: Pool.Job) {
    Pool.ValidJob(j) && j.before == map[] && j.from == 0 && j.tip == |j.chain| - 1 && |j.chain| > 2
  }

  /** Worker 0 takes height n, finds it missing and stores it. */
  lemma OneBlock(j: Pool.Job, s: Pool.Pool, n: nat) returns (t: Pool.Pool)
    requires HoleJob(j) && 2 <= n <= j.tip && Waiting(j, s, n)
    ensures Waiting(j, t, n + 1)
    ensures forall rest :: Pool.IsRun(j, t, rest) ==>
              var all := [Pool.Dispatch(0)] + ([Pool.HeadMissing(0)] + ([Pool.PutDone(0)] + rest));
              Pool.IsRun(j, s, all) && Pool.RunEnd(j, s, all) == Pool.RunEnd(j, t, rest)
  {
    hide IsChain, AddBlocks, Pool.IsRun, Pool.RunEnd;
    var first := AddBlocks(j.tree, map[], j.chain, 0, 1);
    Uploads.ChainHolds(j.tree, j.chain, n);
    AddBlocksNext(j.tree, first, j.chain, 2, n);
    NotFirst(j, n);
    var s1 := Pool.Apply(j, s, Pool.Dispatch(0));
    var s2 := Pool.Apply(j, s1, Pool.HeadMissing(0));
    t := Pool.Apply(j, s2, Pool.PutDone(0));
    forall rest | Pool.IsRun(j, t, rest)
      ensures var all := [Pool.Dispatch(0)] + ([Pool.HeadMissing(0)] + ([Pool.PutDone(0)] + rest));
              Pool.IsRun(j, s, all) && Pool.RunEnd(j, s, all) == Pool.RunEnd(j, t, rest)
    {
      Prepend(j, s2, Pool.PutDone(0), rest);
      Prepend(j, s1, Pool.HeadMissing(0), [Pool.PutDone(0)] + rest);
      Prepend(j, s, Pool.Dispatch(0), [Pool.HeadMissing(0)] + ([Pool.PutDone(0)] + rest));
    }
  }

  lemma NotFirst(j: Pool.Job, n: nat)
    requires HoleJob(j) && 1 <= n <= j.tip
    ensures !Stored(AddBlocks(j.tree, map[], j.chain, 0, 1), j.chain, n)
  {
    BlockKeyFresh(j.tree, j.chain, 0, 1, n);
  }

  /** Everything else is stored; now worker 1 fails at block 1, takes the error slot, and the call returns its error. */
  lemma LastFails(j: Pool.Job, s: Pool.Pool) returns (moves: seq<Pool.Move>)
    requires HoleJob(j) && Waiting(j, s, j.tip + 1)
    ensures Pool.IsRun(j, s, moves) && OwnFailure(Pool.RunEnd(j, s, moves), s.objects)
  {
    hide IsChain, AddBlocks, Pool.IsRun, Pool.RunEnd;
    Uploads.ChainHolds(j.tree, j.chain, 1);
    var s1 := Pool.Apply(j, s, Pool.Fail(1, Pool.Own, false));
    var s2 := Pool.Apply(j, s1, Pool.Report(1));
    var s3 := Pool.Apply(j, s2, Pool.Cancel(1));
    var s4 := Pool.Apply(j, s3, Pool.Leave(0));
    var s5 := Pool.Apply(j, s4, Pool.Return);
    NoMoves(j, s5);
    Prepend(j, s4, Pool.Return, []);
    Prepend(j, s3, Pool.Leave(0), [Pool.Return] + []);
    Prepend(j, s2, Pool.Cancel(1), [Pool.Leave(0)] + ([Pool.Return] + []));
    Prepend(j, s1, Pool.Report(1), [Pool.Cancel(1)] + ([Pool.Leave(0)] + ([Pool.Return] + [])));
    moves := [Pool.Fail(1, Pool.Own, false)] + ([Pool.Report(1)] + ([Pool.Cancel(1)] + ([Pool.Leave(0)] + ([Pool.Return] + []))));
    Prepend(j, s, Pool.Fail(1, Pool.Own, false), [Pool.Report(1)] + ([Pool.Cancel(1)] + ([Pool.Leave(0)] + ([Pool.Return] + []))));
  }

  lemma NoMoves(j: Pool.Job, s: Pool.Pool)
    ensures Pool.IsRun(j, s, []) && Pool.RunEnd(j, s, []) == s
  {
  }

  lemma {:induction false} FillRest(j: Pool.Job, s: Pool.Pool, n: nat) returns (moves: seq<Pool.Move>)
    requires HoleJob(j) && 2 <= n <= j.tip + 1 && Waiting(j, s, n)
    ensures Pool.IsRun(j, s, moves) && OwnFailure(Pool.RunEnd(j, s, moves), Probes.AllButOne(j.tree, j.chain))
    decreases j.tip + 1 - n
  {
    hide IsChain, AddBlocks, Pool.IsRun, Pool.RunEnd;
    if n == j.tip + 1 {
      moves := LastFails(j, s);
    } else {
      var t := OneBlock(j, s, n);
      var rest := FillRest(j, t, n + 1);
      moves := [Pool.Dispatch(0)] + ([Pool.HeadMissing(0)] + ([Pool.PutDone(0)] + rest));
    }
  }

  /** Block 0 is stored, and worker 1 has been given block 1. */
  lemma Begins(j: Pool.Job) returns (t: Pool.Pool)
    requires HoleJob(j)
    ensures Waiting(j, t, 2)
    ensures forall rest :: Pool.IsRun(j, t, rest) ==>
              var all := [Pool.Dispatch(0)] + ([Pool.HeadMissing(0)] + ([Pool.PutDone(0)] + ([Pool.Dispatch(1)] + rest)));
              Pool.IsRun(j, Pool.Start(j, 2), all) && Pool.RunEnd(j, Pool.Start(j, 2), all) == Pool.RunEnd(j, t, rest)
  {
    hide IsChain, AddBlocks, Pool.IsRun, Pool.RunEnd;
    Uploads.ChainHolds(j.tree, j.chain, 0);
    AddBlocksNext(j.tree, map[], j.chain, 0, 0);
    AddBlocksNone(j.tree, map[], j.chain, 0, 0);
    AddBlocksNone(j.tree, AddBlocks(j.tree, map[], j.chain, 0, 1), j.chain, 2, 2);
    var s := Pool.Start(j, 2);
    var s1 := Pool.Apply(j, s, Pool.Dispatch(0));
    var s2 := Pool.Apply(j, s1, Pool.HeadMissing(0));
    var s3 := Pool.Apply(j, s2, Pool.PutDone(0));
    t := Pool.Apply(j, s3, Pool.Dispatch(1));
    forall rest | Pool.IsRun(j, t, rest)
      ensures var all := [Pool.Dispatch(0)] + ([Pool.HeadMissing(0)] + ([Pool.PutDone(0)] + ([Pool.Dispatch(1)] + rest)));
              Pool.IsRun(j, s, all) && Pool.RunEnd(j, s, all) == Pool.RunEnd(j, t, rest)
    {
      Prepend(j, s3, Pool.Dispatch(1), rest);
      Prepend(j, s2, Pool.PutDone(0), [Pool.Dispatch(1)] + rest);
      Prepend(j, s1, Pool.HeadMissing(0), [Pool.PutDone(0)] + ([Pool.Dispatch(1)] + rest));
      Prepend(j, s, Pool.Dispatch(0), [Pool.HeadMissing(0)] + ([Pool.PutDone(0)] + ([Pool.Dispatch(1)] + rest)));
    }
  }

  /** An interleaving of two workers, without a cancellation by the caller, in which uploading a whole chain from an empty
      bucket fails by a worker's own error and leaves exactly the hole above. */
  lemma PoolLeavesHole(j: Pool.Job) returns (moves: seq<Pool.Move>)
    requires HoleJob(j)
    ensures Pool.IsRun(j, Pool.Start(j, 2), moves)
    ensures OwnFailure(Pool.RunEnd(j, Pool.Start(j, 2), moves), Probes.AllButOne(j.tree, j.chain))
  {
    hide *;
    BigEnough(j);
    var t := Begins(j);
    var rest := FillRest(j, t, 2);
    moves := [Pool.Dispatch(0)] + ([Pool.HeadMissing(0)] + ([Pool.PutDone(0)] + ([Pool.Dispatch(1)] + rest)));
  }

  lemma BigEnough(j: Pool.Job)
    requires HoleJob(j)
    ensures Pool.ValidJob(j) && 2 <= j.tip + 1 == |j.chain| && IsChain(j.tree, j.chain)
  {
  }
}
