/** The two services an uploader talks to: a node that shows one chain, and a create-once object store.
    Any call may fault; every fault is counted, so that a caller's error can be traced to one. */
module Services {
  import opened Prelude
  import opened ObjectKeys
  import opened BlockTree
  import Hex

  type Objects = map<Key, Bytes>

  datatype Error =
    | Fault                          // the RPC, the store or the caller's context failed
    | OutOfRange                     // no block at that height
    | BadKey                         // text that names no object
    | BadIndex                       // hashes that do not pack into a range bin
    | ReorgTouchesPublishedIndex

  /** A conditional create: an object that is already there stays as it is. */
  function PutNew(objects: Objects, k: Key, data: Bytes): Objects {
    if k in objects then objects else objects[k := data]
  }

  lemma PutNewGrowth(objects: Objects, k: Key, data: Bytes)
    ensures |PutNew(objects, k, data)| == |objects| + if k in objects then 0 else 1
    ensures Grew(objects, PutNew(objects, k, data))
  {
  }

  /** The keys of the blocks of chain at heights lo up to, not including, hi. */
  function BlockKeys(chain: seq<Hash>, lo: nat, hi: nat): set<Key>
    requires hi <= |chain|
  {
    set h | lo <= h < hi :: Block(chain[h])
  }

  /** The store once the blocks of [lo, hi) are in it; what was there before is kept. */
  ghost function AddBlocks(tree: Tree, objects: Objects, chain: seq<Hash>, lo: nat, hi: nat): Objects
    requires IsChain(tree, chain) && hi <= |chain|
  {
    map k | k in objects.Keys + BlockKeys(chain, lo, hi) :: if k in objects then objects[k] else tree[k.hash].raw
  }

  predicate Stored(objects: Objects, chain: seq<Hash>, h: nat)
    requires h < |chain|
  {
    Block(chain[h]) in objects
  }

  /** Nothing in the store was changed or removed. */
  ghost predicate Grew(before: Objects, after: Objects) {
    forall k :: k in before ==> k in after && after[k] == before[k]
  }

  lemma GrewReflexive(a: Objects)
    ensures Grew(a, a)
  {
  }

  lemma GrewTransitive(a: Objects, b: Objects, c: Objects)
    requires Grew(a, b) && Grew(b, c)
    ensures Grew(a, c)
  {
  }

  /** From before towards full: nothing changed on the way, and nothing outside full was added. */
  ghost predicate Within(before: Objects, after: Objects, full: Objects) {
    Grew(before, after) && Grew(after, full)
  }

  lemma AddBlocksGrows(tree: Tree, objects: Objects, chain: seq<Hash>, lo: nat, hi: nat)
    requires IsChain(tree, chain) && hi <= |chain|
    ensures Grew(objects, AddBlocks(tree, objects, chain, lo, hi))
    ensures forall h :: lo <= h < hi ==> Stored(AddBlocks(tree, objects, chain, lo, hi), chain, h)
  {
  }

  lemma AddBlocksNext(tree: Tree, objects: Objects, chain: seq<Hash>, lo: nat, h: nat)
    requires IsChain(tree, chain) && lo <= h < |chain|
    ensures AddBlocks(tree, objects, chain, lo, h + 1)
         == PutNew(AddBlocks(tree, objects, chain, lo, h), Block(chain[h]), tree[chain[h]].raw)
    ensures Stored(AddBlocks(tree, objects, chain, lo, h), chain, h) <==> Stored(objects, chain, h)
  {
    BlockKeysNext(chain, lo, h);
    BlockKeyFresh(tree, chain, lo, h, h);
  }

  /** Stores filled up to one height lie between the store before and the store filled up to a later one. */
  lemma AddBlocksWithin(tree: Tree, objects: Objects, chain: seq<Hash>, lo: nat, mid: nat, hi: nat)
    requires IsChain(tree, chain) && mid <= hi <= |chain|
    ensures Within(objects, AddBlocks(tree, objects, chain, lo, mid), AddBlocks(tree, objects, chain, lo, hi))
  {
    forall k | k in BlockKeys(chain, lo, mid) ensures k in BlockKeys(chain, lo, hi) {
      var h :| lo <= h < mid && k == Block(chain[h]);
    }
  }

  /** What uploading [from, tip] does to the store: all of its blocks are in it after a clean call, and a faulty one
      leaves something in between. */
  ghost predicate SpanUploaded(tree: Tree, chain: seq<Hash>, before: Objects, after: Objects, from: nat, tip: nat,
          clean: bool)
    requires IsChain(tree, chain) && tip < |chain|
  {
    var full := AddBlocks(tree, before, chain, from, tip + 1);
    Within(before, after, full) && (clean ==> after == full)
  }

  /** Blocks of [from, tip] were created from the bottom up: below each new one everything from `from` on is there. */
  ghost predicate InOrder(chain: seq<Hash>, before: Objects, after: Objects, from: nat, tip: nat)
    requires tip < |chain|
  {
    forall h, k :: from <= h < k <= tip && Stored(after, chain, k) && !Stored(before, chain, k) ==> Stored(after, chain, h)
  }

  lemma AddBlocksInOrder(tree: Tree, before: Objects, chain: seq<Hash>, from: nat, mid: nat, tip: nat)
    requires IsChain(tree, chain) && mid <= tip + 1 <= |chain|
    ensures InOrder(chain, before, AddBlocks(tree, before, chain, from, mid), from, tip)
  {
    var after := AddBlocks(tree, before, chain, from, mid);
    AddBlocksGrows(tree, before, chain, from, mid);
    forall h, k | from <= h < k <= tip && Stored(after, chain, k) && !Stored(before, chain, k)
      ensures Stored(after, chain, h)
    {
      if k >= mid {
        BlockKeyFresh(tree, chain, from, mid, k);
      }
    }
  }

  lemma BlockKeysNext(chain: seq<Hash>, lo: nat, h: nat)
    requires lo <= h < |chain|
    ensures BlockKeys(chain, lo, h + 1) == BlockKeys(chain, lo, h) + {Block(chain[h])}
  {
    forall k | k in BlockKeys(chain, lo, h + 1) ensures k in BlockKeys(chain, lo, h) + {Block(chain[h])} {
      var i :| lo <= i < h + 1 && k == Block(chain[i]);
    }
  }

  /** A chain holds each block once, so a block outside [lo, hi) is none of those inside. */
  lemma BlockKeyFresh(tree: Tree, chain: seq<Hash>, lo: nat, hi: nat, h: nat)
    requires IsChain(tree, chain) && hi <= |chain| && h < |chain| && !(lo <= h < hi)
    ensures Block(chain[h]) !in BlockKeys(chain, lo, hi)
  {
  }

  /** Block by block, what adding a span does; and it adds no index. */
  lemma AddedOrThere(tree: Tree, objects: Objects, chain: seq<Hash>, lo: nat, hi: nat, h: nat)
    requires IsChain(tree, chain) && hi <= |chain| && h < |chain|
    ensures Stored(AddBlocks(tree, objects, chain, lo, hi), chain, h) <==> Stored(objects, chain, h) || lo <= h < hi
  {
    if lo <= h < hi {
      AddBlocksGrows(tree, objects, chain, lo, hi);
    } else {
      BlockKeyFresh(tree, chain, lo, hi, h);
    }
  }

  lemma IndexesStay(tree: Tree, objects: Objects, chain: seq<Hash>, lo: nat, hi: nat, k: Key)
    requires IsChain(tree, chain) && hi <= |chain| && k.Index?
    ensures k in AddBlocks(tree, objects, chain, lo, hi) <==> k in objects
  {
  }

  lemma AddBlocksNone(tree: Tree, objects: Objects, chain: seq<Hash>, lo: nat, hi: nat)
    requires IsChain(tree, chain) && hi <= |chain|
    requires forall h :: lo <= h < hi ==> Stored(objects, chain, h)
    ensures AddBlocks(tree, objects, chain, lo, hi) == objects
  {
    forall k | k in BlockKeys(chain, lo, hi) ensures k in objects {
      var h :| lo <= h < hi && k == Block(chain[h]);
      assert Stored(objects, chain, h);
    }
  }

  /** Either no fault happened and the answer is the wanted one, or faults did and the answer says so. */
  ghost predicate Answers<T>(r: Result<T, Error>, want: Result<T, Error>, faultsBefore: nat, faultsAfter: nat) {
    if faultsAfter == faultsBefore then r == want else faultsAfter > faultsBefore && r == Failure(Fault)
  }

  class Backend {
    const tree: Tree
    var chain: seq<Hash>
    var objects: Objects
    var faults: nat

    /** The node shows one chain of the tree, and its tip is below the top of uint64. */
    ghost predicate Valid()
      reads this`chain
    {
      WellFormed(tree) && IsChain(tree, chain) && |chain| <= MAX_U64
    }

    lemma ShowsChain()
      requires Valid()
      ensures WellFormed(tree) && IsChain(tree, chain) && |chain| <= MAX_U64
    {
    }

    constructor (tree: Tree, chain: seq<Hash>, objects: Objects)
      requires WellFormed(tree) && IsChain(tree, chain) && |chain| <= MAX_U64
      ensures Valid() && this.tree == tree && this.chain == chain && this.objects == objects && faults == 0
    {
      this.tree, this.chain, this.objects, faults := tree, chain, objects, 0;
    }

    /** The node moves to another chain of the same tree, between calls. */
    method Reorganise(next: seq<Hash>)
      requires Valid() && IsChain(tree, next) && |next| <= MAX_U64
      modifies this`chain
      ensures Valid() && chain == next
    {
      chain := next;
    }

    method GetBlockCount() returns (r: Result<nat, Error>)
      requires Valid()
      modifies this`faults
      ensures Answers(r, Success(|chain| - 1), old(faults), faults)
    {
      if * {
        faults := faults + 1;
        return Failure(Fault);
      }
      return Success(|chain| - 1);
    }

    method GetBlockHash(height: nat) returns (r: Result<Hash, Error>)
      modifies this`faults
      ensures Answers(r, if height < |chain| then Success(chain[height]) else Failure(OutOfRange), old(faults), faults)
    {
      if * {
        faults := faults + 1;
        return Failure(Fault);
      }
      return if height < |chain| then Success(chain[height]) else Failure(OutOfRange);
    }

    method GetBlockRawHex(hash: Hash) returns (r: Result<string, Error>)
      modifies this`faults
      ensures Answers(r, if hash in tree then Success(Hex.Encode(tree[hash].raw)) else Failure(OutOfRange), old(faults), faults)
    {
      if * {
        faults := faults + 1;
        return Failure(Fault);
      }
      return if hash in tree then Success(Hex.Encode(tree[hash].raw)) else Failure(OutOfRange);
    }

    method ObjectExists(k: Key) returns (r: Result<bool, Error>)
      modifies this`faults
      ensures Answers(r, Success(k in objects), old(faults), faults)
    {
      if * {
        faults := faults + 1;
        return Failure(Fault);
      }
      return Success(k in objects);
    }

    method BlockExists(hash: Hash) returns (r: Result<bool, Error>)
      modifies this`faults
      ensures Answers(r,
                      match BlockKey(hash) { case None => Failure(BadKey) case Some(k) => Success(k in objects) },
                      old(faults), faults)
    {
      var k := BlockKey(hash);
      if k.None? {
        return Failure(BadKey);
      }
      r := ObjectExists(k.value);
    }

    /** Creates the object unless it is there; a faulty request may have landed all the same. */
    method PutObject(k: Key, data: Bytes) returns (r: Result<(), Error>)
      modifies this`faults, this`objects
      ensures Answers(r, Success(()), old(faults), faults)
      ensures faults == old(faults) ==> objects == PutNew(old(objects), k, data)
      ensures objects == old(objects) || objects == PutNew(old(objects), k, data)
    {
      if * {
        faults := faults + 1;
        if * {
          objects := PutNew(objects, k, data);
        }
        return Failure(Fault);
      }
      objects := PutNew(objects, k, data);
      return Success(());
    }

    method UploadBlock(hash: Hash, data: Bytes) returns (r: Result<(), Error>)
      modifies this`faults, this`objects
      ensures BlockKey(hash).None? ==> r == Failure(BadKey) && faults == old(faults) && objects == old(objects)
      ensures BlockKey(hash).Some? ==>
                && Answers(r, Success(()), old(faults), faults)
                && (faults == old(faults) ==> objects == PutNew(old(objects), BlockKey(hash).value, data))
                && (objects == old(objects) || objects == PutNew(old(objects), BlockKey(hash).value, data))
    {
      var k := BlockKey(hash);
      if k.None? {
        return Failure(BadKey);
      }
      r := PutObject(k.value, data);
    }
  }
}
