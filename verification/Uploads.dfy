/** Uploading blocks: one height, then a span of heights, one at a time or through the worker pool. */
module Uploads {
  import opened Prelude
  import opened ObjectKeys
  import opened BlockTree
  import opened Services
  import Hex
  import Pool = UploadPool

  /** Whether the block at height is stored, and its hash. */
  method GetUploadBlockState(b: Backend, height: nat) returns (r: Result<(Hash, bool), Error>)
    requires b.Valid() && height < |b.chain|
    modifies b`faults
    ensures Answers(r, Success((b.chain[height], Stored(b.objects, b.chain, height))), old(b.faults), b.faults)
  {
    var hash := b.GetBlockHash(height);
    if hash.Failure? {
      return Failure(hash.error);
    }
    BlockKeyOfHash(hash.value);
    var exists_ := b.BlockExists(hash.value);
    if exists_.Failure? {
      return Failure(exists_.error);
    }
    return Success((hash.value, exists_.value));
  }

  /** Stores the block at height unless it is stored, and says whether it had to. */
  method UploadBlock(b: Backend, height: nat) returns (r: Result<bool, Error>)
    requires b.Valid() && height < |b.chain|
    modifies b`faults, b`objects
    ensures Answers(r, Success(!Stored(old(b.objects), b.chain, height)), old(b.faults), b.faults)
    ensures var full := PutNew(old(b.objects), Block(b.chain[height]), b.tree[b.chain[height]].raw);
            (b.faults == old(b.faults) ==> b.objects == full) && (b.objects == old(b.objects) || b.objects == full)
  {
    var state := GetUploadBlockState(b, height);
    if state.Failure? {
      return Failure(state.error);
    }
    var (hash, exists_) := state.value;
    if exists_ {
      return Success(false);
    }
    var rawHex := b.GetBlockRawHex(hash);
    if rawHex.Failure? {
      return Failure(rawHex.error);
    }
    Hex.DecodeEncode(b.tree[hash].raw);
    BlockKeyOfHash(hash);
    var raw := Hex.Decode(rawHex.value);
    if raw.None? {
      return Failure(BadKey);
    }
    var put := b.UploadBlock(hash, raw.value);
    if put.Failure? {
      return Failure(put.error);
    }
    return Success(true);
  }

  /** Uploads every height from `from` to tip: afterwards all of them are stored, and the count is the store's growth. */
  method UploadBlocksFrom(b: Backend, from: nat, tip: nat, workers: nat) returns (r: Result<nat, Error>)
    requires b.Valid() && from <= tip < |b.chain|
    modifies b`faults, b`objects
    ensures Answers(r, Success(|b.objects| - |old(b.objects)|), old(b.faults), b.faults)
    ensures SpanUploaded(b.tree, b.chain, old(b.objects), b.objects, from, tip, b.faults == old(b.faults))
    ensures workers <= 1 ==> InOrder(b.chain, old(b.objects), b.objects, from, tip)
  {
    hide *;
    if workers <= 1 {
      r := OneByOne(b, from, tip);
    } else {
      r := ThroughPool(b, from, tip, workers);
    }
  }

  method OneByOne(b: Backend, from: nat, tip: nat) returns (r: Result<nat, Error>)
    requires b.Valid() && from <= tip < |b.chain|
    modifies b`faults, b`objects
    ensures Answers(r, Success(|b.objects| - |old(b.objects)|), old(b.faults), b.faults)
    ensures SpanUploaded(b.tree, b.chain, old(b.objects), b.objects, from, tip, b.faults == old(b.faults))
    ensures InOrder(b.chain, old(b.objects), b.objects, from, tip)
  {
    var uploaded, height := 0, from;
    hide AddBlocks, SpanUploaded, IsChain, WellFormed, Stored, PutNew, Backend.Valid, InOrder;
    b.ShowsChain();
    NextBlock(b.tree, b.objects, b.chain, from, from, tip);
    while true
      invariant from <= height <= tip
      invariant b.faults == old(b.faults)
      invariant b.objects == AddBlocks(b.tree, old(b.objects), b.chain, from, height)
      invariant uploaded == |b.objects| - |old(b.objects)|
      decreases tip - height
    {
      NextBlock(b.tree, old(b.objects), b.chain, from, height, tip);
      var did := UploadBlock(b, height);
      if did.Failure? {
        return Failure(did.error);
      }
      if did.value {
        uploaded := uploaded + 1;
      }
      if height == tip {
        return Success(uploaded);
      }
      height := height + 1;
    }
  }

  /** One more height of a span: where it leads, how much the store grows, and that it stays within the span. */
  lemma NextBlock(tree: Tree, before: Objects, chain: seq<Hash>, from: nat, height: nat, tip: nat)
    requires IsChain(tree, chain) && from <= height <= tip < |chain|
    ensures var cur := AddBlocks(tree, before, chain, from, height);
            var next := PutNew(cur, Block(chain[height]), tree[chain[height]].raw);
            && next == AddBlocks(tree, before, chain, from, height + 1)
            && (height == from ==> cur == before)
            && |next| == |cur| + (if Stored(cur, chain, height) then 0 else 1)
            && SpanUploaded(tree, chain, before, cur, from, tip, false)
            && SpanUploaded(tree, chain, before, next, from, tip, false)
            && SpanUploaded(tree, chain, before, next, from, tip, height == tip)
            && InOrder(chain, before, cur, from, tip) && InOrder(chain, before, next, from, tip)
  {
    hide AddBlocks, SpanUploaded, PutNew, IsChain, InOrder;
    ChainHolds(tree, chain, height);
    AddBlocksInOrder(tree, before, chain, from, height, tip);
    AddBlocksInOrder(tree, before, chain, from, height + 1, tip);
    AddBlocksNext(tree, before, chain, from, height);
    PutNewGrowth(AddBlocks(tree, before, chain, from, height), Block(chain[height]), tree[chain[height]].raw);
    PartlyUploaded(tree, chain, before, from, height, tip);
    PartlyUploaded(tree, chain, before, from, height + 1, tip);
    if height == from {
      AddBlocksNone(tree, before, chain, from, from);
    }
  }

  lemma PartlyUploaded(tree: Tree, chain: seq<Hash>, before: Objects, from: nat, height: nat, tip: nat)
    requires IsChain(tree, chain) && height <= tip + 1 <= |chain|
    ensures SpanUploaded(tree, chain, before, AddBlocks(tree, before, chain, from, height), from, tip, height == tip + 1)
    ensures SpanUploaded(tree, chain, before, AddBlocks(tree, before, chain, from, height), from, tip, false)
  {
    hide AddBlocks, Within, IsChain;
    AddBlocksWithin(tree, before, chain, from, height, tip + 1);
  }

  lemma ChainHolds(tree: Tree, chain: seq<Hash>, h: nat)
    requires IsChain(tree, chain) && h < |chain|
    ensures chain[h] in tree
  {
  }

  /** The pool under an arbitrary scheduler: whichever enabled step is taken next, the call returns and keeps its promise. */
  method ThroughPool(b: Backend, from: nat, tip: nat, workers: nat) returns (r: Result<nat, Error>)
    requires b.Valid() && from <= tip < |b.chain| && workers > 0
    modifies b`faults, b`objects
    ensures Answers(r, Success(|b.objects| - |old(b.objects)|), old(b.faults), b.faults)
    ensures SpanUploaded(b.tree, b.chain, old(b.objects), b.objects, from, tip, b.faults == old(b.faults))
  {
    hide Backend.Valid, Pool.ValidJob, Pool.Inv, SpanUploaded, IsChain, WellFormed;
    b.ShowsChain();
    var j := Pool.Job(b.tree, b.chain, from, tip, b.objects);
    JobIsValid(j);
    var s := RunPool(j, workers);
    b.objects := s.objects;
    match s.phase.result
    case Success(n) =>
      r := Success(n);
    case Failure(e) =>
      b.faults := b.faults + 1;
      r := Failure(Fault);
  }

  lemma JobIsValid(j: Pool.Job)
    requires IsChain(j.tree, j.chain) && j.from <= j.tip < |j.chain|
    ensures Pool.ValidJob(j)
  {
  }

  method RunPool(j: Pool.Job, workers: nat) returns (s: Pool.Pool)
    requires Pool.ValidJob(j) && workers > 0
    ensures Pool.Inv(j, s) && s.phase.Returned?
    ensures SpanUploaded(j.tree, j.chain, j.before, s.objects, j.from, j.tip, s.phase.result.Success?)
    ensures s.phase.result.Success? ==> s.phase.result.value == |s.objects| - |j.before|
  {
    s := Pool.Start(j, workers);
    Pool.StartInv(j, workers);
    assert |s.workers| == workers;
    hide *;
    while !s.phase.Returned?
      invariant Pool.Inv(j, s) && |s.workers| == workers
      decreases Pool.Measure(j, s)
    {
      ghost var possible := Pool.Progress(j, s);
      var m: Pool.Move :| Pool.Enabled(j, s, m);
      Pool.InvKept(j, s, m);
      Pool.MeasureDrops(j, s, m);
      Pool.OneWorkerMoves(j, s, m);
      s := Pool.Apply(j, s, m);
    }
    Pool.OutcomeMeans(j, s);
  }
}
