/** A plan on which resolving ahead costs blocks: heights 1 and 2 can be had, height 3 cannot be resolved, and with a window
    of 3 the pipeline finds that out before it has submitted anything. */
module LookAhead {
  import opened Prelude
  import opened ObjectKeys
  import opened Resolution
  import opened Pipeline
  import opened PipelineOutcome
  import BlockHash
  import HeaderWalk
  import Hex
  import IndexCache
  import RangeIndex

  /** Blocks that differ in their first byte, under a digest that sees only that. */
  function Raw(b: Byte): Bytes {
    seq(80, _ => b)
  }

  function FirstByte(data: Bytes): Digest {
    seq(32, _ => if |data| > 0 then data[0] else 0)
  }

  function HashFor(b: Byte): string {
    Hex.Encode(seq(32, _ => b))
  }

  lemma HashForIs(b: Byte)
    ensures BlockHash.HashOf(FirstByte, Raw(b)) == Some(HashFor(b))
    ensures Hex.IsHash(HashFor(b)) && BlockKey(HashFor(b)) == Some(Block(HashFor(b))) && TrimSpace(HashFor(b)) != ""
  {
    hide BlockKey, TrimSpace, Hex.IsHash, Hex.Encode;
    Hex.EncodeIsHash(seq(32, _ => b));
    BlockKeyOfHash(HashFor(b));
    var twice := FirstByte(FirstByte(Raw(b)[..BlockHash.HEADER_SIZE]));
    assert BlockHash.Reversed(twice) == seq(32, _ => b);
  }

  lemma HashesDiffer()
    ensures HashFor(1) != HashFor(2)
  {
    hide Hex.Encode, Hex.Decode;
    var ones: Bytes, twos: Bytes := seq(32, _ => 1), seq(32, _ => 2);
    assert ones[0] != twos[0];
    Hex.DecodeEncode(ones);
    Hex.DecodeEncode(twos);
  }

  /** A bucket with the two blocks and no index. */
  function Bucket(name: string): Result<Bytes, IndexCache.FetchError> {
    if name == Name(Block(HashFor(1))) then Success(Raw(1))
    else if name == Name(Block(HashFor(2))) then Success(Raw(2))
    else Failure(IndexCache.NotFound)
  }

  function ByHash(hash: string): Option<HeaderWalk.Header> {
    if hash == HashFor(2) then Some(HeaderWalk.Header(hash, 2, HashFor(1)))
    else if hash == HashFor(1) then Some(HeaderWalk.Header(hash, 1, ""))
    else None
  }

  function Tip(): HeaderWalk.Tip {
    HeaderWalk.Tip(2, HashFor(2), "active")
  }

  /** Its node says that it has headers up to height 3, but shows no tip above height 2. */
  function ThePlan(): Plan {
    Plan(View(3, false, 1, 10, Bucket, Some([Tip()]), ByHash, FirstByte), (_, _) => Accepted, 1, 3, 1)
  }

  lemma NoIndex(h: nat)
    ensures IndexCache.Direct(Bucket, h, 1) == Failure(IndexCache.Missing)
  {
    hide Name, Hex.Encode, RangeIndex.HashAt;
    forall b: Byte ensures Name(Index(1, h)) != Name(Block(HashFor(b))) {
      if Name(Index(1, h)) == Name(Block(HashFor(b))) {
        NameInjective(Index(1, h), Block(HashFor(b)));
      }
    }
    assert h / 1 * 1 == h;
    assert Bucket(Name(Index(1, h))) == Failure(IndexCache.NotFound);
  }

  lemma BestTip(target: nat)
    ensures HeaderWalk.Best([Tip()], target) == if target <= 2 then Some(Tip()) else None
  {
    hide Hex.Encode, TrimSpace;
    HashForIs(2);
    assert [Tip()][..0] == [];
  }

  lemma Heights()
    ensures var v := ThePlan().view;
            && Resolve(v, 1) == Hash(HashFor(1)) && Resolve(v, 2) == Hash(HashFor(2))
            && Resolve(v, 3) == Broken(Walk(HeaderWalk.NoTipReaches))
  {
    hide Hex.Encode, HeaderWalk.Best, IndexCache.Direct;
    var v := ThePlan().view;
    HashesDiffer();
    HashNotEmpty(1);
    HashNotEmpty(2);
    for h := 1 to 4
      invariant forall k :: 1 <= k < h ==> Resolve(v, k) == ByHeaders(v, k)
    {
      NoIndex(h);
    }
    BestTip(1);
    BestTip(2);
    BestTip(3);
    assert HeaderWalk.Walk(ByHash, HashFor(2), 2, 11) == Success(HashFor(2));
    assert HeaderWalk.Walk(ByHash, HashFor(1), 1, 10) == Success(HashFor(1));
    assert HeaderWalk.Walk(ByHash, HashFor(2), 1, 11) == Success(HashFor(1));
  }

  lemma HashNotEmpty(b: Byte)
    ensures HashFor(b) != ""
  {
  }

  lemma BlocksThere(b: Byte)
    requires b == 1 || b == 2
    ensures Fetched(ThePlan().view, HashFor(b)) == Success(Raw(b))
  {
    hide Hex.Encode, Name, BlockKey, BlockHash.HashOf;
    HashForIs(b);
    if b == 2 {
      HashesDiffer();
      if Name(Block(HashFor(1))) == Name(Block(HashFor(2))) {
        NameInjective(Block(HashFor(1)), Block(HashFor(2)));
      }
    }
  }

  /** The pipeline submits nothing; one height at a time, both blocks are submitted. */
  lemma LookingAheadLosesBlocks()
    ensures ValidPlan(ThePlan()) && StopsAt(ThePlan().view, 1, 3)
    ensures !Blocked(ThePlan(), 1, [], 3)
    ensures Ahead(ThePlan(), 3, 3, 1, []).0 == []
    ensures Sequential(ThePlan(), 3, 1, []).0 == [Submission(1, Raw(1)), Submission(2, Raw(2))]
  {
    hide Resolve, Fetched;
    Heights();
    BlocksThere(1);
    BlocksThere(2);
    var p, first := ThePlan(), Submission(1, Raw(1));
    assert Sequential(p, 3, 3, [first, Submission(2, Raw(2))]).0 == [first, Submission(2, Raw(2))];
    assert [first] + [Submission(2, Raw(2))] == [first, Submission(2, Raw(2))];
    assert Sequential(p, 3, 2, [first]).0 == [first, Submission(2, Raw(2))];
    assert [] + [first] == [first];
  }
}
