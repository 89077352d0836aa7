/** Range arithmetic of the uploader, with the guards that keep it inside uint64. */
module Ranges {
  import opened Prelude
  import opened ObjectKeys
  import opened BlockTree
  import opened Services
  import Hex
  import RangeIndex

  /** The uploader's settings. */
  datatype Config = Config(
    fromHeight: nat,
    toHeight: Option<nat>,
    rangeSize: nat,
    stableDelay: nat,
    uploadWorkers: nat)
  {
    /** Zero asks for the default. */
    function RangeSize(): (r: nat)
      ensures r > 0 && (Valid() ==> r <= MAX_U64)
    {
      if rangeSize == 0 then RangeIndex.DEFAULT_RANGE_SIZE else rangeSize
    }

    function Workers(): nat {
      if uploadWorkers == 0 then DEFAULT_UPLOAD_WORKERS else uploadWorkers
    }

    /** The height uploading ends at. */
    function EndHeight(tip: nat): nat {
      if toHeight.Some? && toHeight.value < tip then toHeight.value else tip
    }

    /** The start of the range that holds fromHeight. */
    function ManagedStart(): (start: nat)
      ensures start <= fromHeight < start + RangeSize() && start % RangeSize() == 0
    {
      RangeIndex.StartHeightCovers(fromHeight, RangeSize());
      fromHeight / RangeSize() * RangeSize()
    }

    /** Settings are uint64 values. */
    predicate Valid() {
      rangeSize <= MAX_U64
    }

    /** The range from start on is complete below end and stableDelay blocks deep. */
    predicate Ready(start: nat, tip: nat, end: nat)
      requires Valid()
    {
      tip >= stableDelay && EndOfRange(start, RangeSize()) <= end && EndOfRange(start, RangeSize()) <= tip - stableDelay
    }
  }

  const DEFAULT_UPLOAD_WORKERS: nat := 4

  /** What the settings come to over a tip: the size of a range, and the last height that is uploaded. */
  ghost predicate ComesTo(cfg: Config, tip: nat, size: nat, end: nat) {
    && size == (if cfg.rangeSize == 0 then 2500 else cfg.rangeSize)
    && end == (match cfg.toHeight case None => tip case Some(limit) => Min(limit, tip))
  }

  lemma SettingsCome(cfg: Config, tip: nat, size: nat, end: nat)
    requires ComesTo(cfg, tip, size, end)
    ensures cfg.RangeSize() == size > 0 && cfg.EndHeight(tip) == end <= tip
    ensures cfg.Workers() == if cfg.uploadWorkers == 0 then 4 else cfg.uploadWorkers
  {
  }

  function EndOfRange(start: nat, rangeSize: nat): nat
    requires 0 < rangeSize <= MAX_U64
  {
    if start > MAX_U64 - rangeSize + 1 then MAX_U64 else start + rangeSize - 1
  }

  function NextRangeStart(start: nat, rangeSize: nat): Option<nat>
    requires rangeSize <= MAX_U64
  {
    if start > MAX_U64 - rangeSize then None else Some(start + rangeSize)
  }

  /** For every range in uint64 the guarded helpers stay in uint64, and they are exact wherever the range fits. */
  lemma GuardsHold(start: nat, rangeSize: nat)
    requires start <= MAX_U64 && 0 < rangeSize <= MAX_U64
    ensures start <= EndOfRange(start, rangeSize) <= MAX_U64
    ensures EndOfRange(start, rangeSize) == Min(start + rangeSize - 1, MAX_U64)
    ensures NextRangeStart(start, rangeSize).Some? <==> start + rangeSize <= MAX_U64
    ensures EndOfRange(start, rangeSize) < MAX_U64 ==> NextRangeStart(start, rangeSize) == Some(EndOfRange(start, rangeSize) + 1)
  {
  }

  /** The bin of the range that starts at start. */
  function RangeBin(chain: seq<Hash>, start: nat, rangeSize: nat): Bytes
    requires start + rangeSize <= |chain|
  {
    if RangeIndex.Decodable(chain[start..start + rangeSize]) then RangeIndex.Packed(chain[start..start + rangeSize]) else []
  }

  /** A published bin answers with the chain's own hash at every height of its range. */
  lemma RangeBinAnswers(tree: Tree, chain: seq<Hash>, start: nat, rangeSize: nat, h: nat)
    requires WellFormed(tree) && IsChain(tree, chain)
    requires start <= h < start + rangeSize <= |chain|
    ensures RangeIndex.Decodable(chain[start..start + rangeSize])
    ensures RangeIndex.HashAt(RangeBin(chain, start, rangeSize), start, h, rangeSize) == Success(chain[h])
  {
    var hashes := chain[start..start + rangeSize];
    forall i | 0 <= i < |hashes| ensures Hex.IsHash(hashes[i]) {
      assert hashes[i] == chain[start + i];
    }
    RangeIndex.HashAtPackedExact(hashes, start, h);
  }

  lemma BinOfRange(tree: Tree, chain: seq<Hash>, start: nat, rangeSize: nat)
    requires WellFormed(tree) && IsChain(tree, chain) && rangeSize > 0 && start + rangeSize <= |chain|
    ensures RangeIndex.Decodable(chain[start..start + rangeSize])
    ensures RangeBin(chain, start, rangeSize) == RangeIndex.Packed(chain[start..start + rangeSize])
  {
    hide IsChain, WellFormed, RangeIndex.HashAt, RangeIndex.Decodable, RangeIndex.Packed;
    RangeBinAnswers(tree, chain, start, rangeSize, start);
  }

  /** Two starts with the same alignment are at least one range apart. */
  lemma AlignedGap(a: nat, b: nat, rangeSize: nat)
    requires rangeSize > 0 && a % rangeSize == b % rangeSize && a < b
    ensures a + rangeSize <= b
  {
    var x, y, m := a / rangeSize, b / rangeSize, a % rangeSize;
    assert a == x * rangeSize + m && b == y * rangeSize + m;
    if y <= x {
      RangeIndex.TimesMonotone(y, x, rangeSize);
      assert false;
    }
    RangeIndex.TimesMonotone(x + 1, y, rangeSize);
  }

  /** Uploads the index of one range unless it is there; says whether it had to. */
  method UploadRangeIndexIfMissing(b: Backend, start: nat, rangeSize: nat) returns (r: Result<bool, Error>)
    requires b.Valid() && rangeSize > 0 && start + rangeSize <= |b.chain|
    modifies b`faults, b`objects
    ensures Answers(r, Success(Index(rangeSize, start) !in old(b.objects)), old(b.faults), b.faults)
    ensures var full := PutNew(old(b.objects), Index(rangeSize, start), RangeBin(b.chain, start, rangeSize));
            (b.faults == old(b.faults) ==> b.objects == full) && (b.objects == old(b.objects) || b.objects == full)
  {
    var exists_ := b.ObjectExists(Index(rangeSize, start));
    if exists_.Failure? {
      return Failure(exists_.error);
    }
    if exists_.value {
      return Success(false);
    }
    var up := UploadRangeIndex(b, start, rangeSize);
    if up.Failure? {
      return Failure(up.error);
    }
    return Success(true);
  }

  /** Reads the hashes of one range from the node, packs them and stores the bin. */
  method UploadRangeIndex(b: Backend, start: nat, rangeSize: nat) returns (r: Result<(), Error>)
    requires b.Valid() && rangeSize > 0 && start + rangeSize <= |b.chain|
    modifies b`faults, b`objects
    ensures Answers(r, Success(()), old(b.faults), b.faults)
    ensures var full := PutNew(old(b.objects), Index(rangeSize, start), RangeBin(b.chain, start, rangeSize));
            (b.faults == old(b.faults) ==> b.objects == full) && (b.objects == old(b.objects) || b.objects == full)
  {
    hide Backend.Valid, IsChain, WellFormed, RangeBin, RangeIndex.Decodable, RangeIndex.Packed, RangeIndex.HashAt;
    b.ShowsChain();
    BinOfRange(b.tree, b.chain, start, rangeSize);
    var hashes := [];
    for height := start to start + rangeSize
      invariant b.faults == old(b.faults) && b.objects == old(b.objects)
      invariant hashes == b.chain[start..height]
    {
      var hash := b.GetBlockHash(height);
      if hash.Failure? {
        return Failure(hash.error);
      }
      hashes := hashes + [hash.value];
    }
    var bin := RangeIndex.Encode(hashes, rangeSize);
    if bin.Failure? {
      return Failure(BadIndex);
    }
    r := b.PutObject(Index(rangeSize, start), bin.value);
  }
}
