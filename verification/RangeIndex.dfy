/** The range-index codec: rangeSize block hashes packed as 32 bytes each. */
module RangeIndex {
  import opened Prelude
  import Hex

  const HASH_SIZE: nat := 32
  const DEFAULT_RANGE_SIZE: nat := 2500

  datatype Error =
    | ZeroRangeSize
    | WrongCount
    | BadHash(index: nat)
    | OutsideRange
    | WrongLength

  /** First height of the range that holds height. */
  function StartHeight(height: nat, rangeSize: nat): Result<nat, Error> {
    if rangeSize == 0 then Failure(ZeroRangeSize) else Success(height / rangeSize * rangeSize)
  }

  /** A hash decodes to exactly 32 bytes, or not at all. */
  function DecodeHashHex(hash: string): Option<Bytes> {
    match Hex.Decode(hash)
    case None => None
    case Some(raw) => if |raw| == HASH_SIZE then Some(raw) else None
  }

  predicate Decodable(hashes: seq<string>) {
    forall i :: 0 <= i < |hashes| ==> DecodeHashHex(hashes[i]).Some?
  }

  /** The bin that holds the given hashes: byte k is byte k%32 of hash k/32. */
  function Packed(hashes: seq<string>): (bin: Bytes)
    requires Decodable(hashes)
    ensures |bin| == HASH_SIZE * |hashes|
  {
    seq(HASH_SIZE * |hashes|, k requires 0 <= k < HASH_SIZE * |hashes| => DecodeHashHex(hashes[k / HASH_SIZE]).value[k % HASH_SIZE])
  }

  /** Packs exactly rangeSize hashes; a failure names the first hash that does not decode. */
  method Encode(hashes: seq<string>, rangeSize: nat) returns (r: Result<Bytes, Error>)
    ensures rangeSize == 0 ==> r == Failure(ZeroRangeSize)
    ensures rangeSize > 0 && |hashes| != rangeSize ==> r == Failure(WrongCount)
    ensures rangeSize > 0 && |hashes| == rangeSize && Decodable(hashes) ==> r == Success(Packed(hashes))
    ensures rangeSize > 0 && |hashes| == rangeSize && !Decodable(hashes) ==>
              r.Failure? && r.error.BadHash? && r.error.index < |hashes|
              && DecodeHashHex(hashes[r.error.index]).None? && Decodable(hashes[..r.error.index])
  {
    if rangeSize == 0 {
      return Failure(ZeroRangeSize);
    }
    if |hashes| != rangeSize {
      return Failure(WrongCount);
    }
    var out: Bytes := [];
    for i := 0 to |hashes|
      invariant Decodable(hashes[..i])
      invariant out == Packed(hashes[..i])
    {
      var raw := DecodeHashHex(hashes[i]);
      if raw.None? {
        assert !Decodable(hashes);
        return Failure(BadHash(i));
      }
      PackedAppend(hashes[..i], hashes[i]);
      assert hashes[..i] + [hashes[i]] == hashes[..i + 1];
      out := out + raw.value;
    }
    assert hashes[..|hashes|] == hashes;
    return Success(out);
  }

  lemma PackedAppend(hashes: seq<string>, hash: string)
    requires Decodable(hashes) && DecodeHashHex(hash).Some?
    ensures Decodable(hashes + [hash])
    ensures Packed(hashes + [hash]) == Packed(hashes) + DecodeHashHex(hash).value
  {
    var all, raw := hashes + [hash], DecodeHashHex(hash).value;
    forall k | 0 <= k < |Packed(all)| ensures Packed(all)[k] == (Packed(hashes) + raw)[k] {
      if k < HASH_SIZE * |hashes| {
        assert all[k / HASH_SIZE] == hashes[k / HASH_SIZE];
      } else {
        assert k / HASH_SIZE == |hashes| && k % HASH_SIZE == k - HASH_SIZE * |hashes|;
      }
    }
  }

  /** Reads one hash out of a bin. */
  function HashAt(bin: Bytes, startHeight: nat, height: nat, rangeSize: nat): Result<string, Error> {
    if rangeSize == 0 then Failure(ZeroRangeSize)
    else if height < startHeight || height - startHeight >= rangeSize then Failure(OutsideRange)
    else if |bin| != rangeSize * HASH_SIZE then Failure(WrongLength)
    else
      var offset := (height - startHeight) * HASH_SIZE;
      Success(Hex.Encode(bin[offset..offset + HASH_SIZE]))
  }

  /** What a bin answers for each height of its range is the lower-case form of the hash packed there. */
  lemma HashAtPacked(hashes: seq<string>, start: nat, i: nat)
    requires Decodable(hashes) && i < |hashes|
    ensures HashAt(Packed(hashes), start, start + i, |hashes|) == Success(Hex.Lower(hashes[i]))
  {
    hide Hex.Encode, Hex.Decode, Hex.Lower;
    var raw := DecodeHashHex(hashes[i]).value;
    var slice := Packed(hashes)[i * HASH_SIZE..i * HASH_SIZE + HASH_SIZE];
    forall k | 0 <= k < HASH_SIZE ensures slice[k] == raw[k] {
      assert slice[k] == Packed(hashes)[i * HASH_SIZE + k];
      assert (i * HASH_SIZE + k) / HASH_SIZE == i && (i * HASH_SIZE + k) % HASH_SIZE == k;
    }
    assert slice == raw;
    Hex.EncodeDecode(hashes[i]);
  }

  /** The hashes a bin answers with, in height order. */
  function Unpacked(bin: Bytes, start: nat, rangeSize: nat): (hashes: seq<string>)
    requires rangeSize > 0 && |bin| == rangeSize * HASH_SIZE
    ensures |hashes| == rangeSize
  {
    seq(rangeSize, i requires 0 <= i < rangeSize => HashAt(bin, start, start + i, rangeSize).value)
  }

  /** Every bin of the right length packs again, byte for byte, from its own answers. */
  lemma PackedUnpacked(bin: Bytes, start: nat, rangeSize: nat)
    requires rangeSize > 0 && |bin| == rangeSize * HASH_SIZE
    ensures Decodable(Unpacked(bin, start, rangeSize))
    ensures Packed(Unpacked(bin, start, rangeSize)) == bin
  {
    hide Hex.Encode, Hex.Decode, Unpacked;
    var hashes := Unpacked(bin, start, rangeSize);
    forall i | 0 <= i < rangeSize
      ensures DecodeHashHex(hashes[i]) == Some(bin[i * HASH_SIZE..i * HASH_SIZE + HASH_SIZE])
    {
      UnpackedAt(bin, start, rangeSize, i);
      Hex.DecodeEncode(bin[i * HASH_SIZE..i * HASH_SIZE + HASH_SIZE]);
    }
    SlicesPack(hashes, bin);
  }

  lemma UnpackedAt(bin: Bytes, start: nat, rangeSize: nat, i: nat)
    requires |bin| == rangeSize * HASH_SIZE && i < rangeSize
    ensures i * HASH_SIZE + HASH_SIZE <= |bin|
    ensures Unpacked(bin, start, rangeSize)[i] == Hex.Encode(bin[i * HASH_SIZE..i * HASH_SIZE + HASH_SIZE])
  {
    hide Hex.Encode;
    var height := start + i;
    assert height - start == i;
    assert HashAt(bin, start, height, rangeSize) == Success(Hex.Encode(bin[i * HASH_SIZE..i * HASH_SIZE + HASH_SIZE]));
  }

  /** Hashes that decode to the slices of a bin pack to the bin. */
  lemma SlicesPack(hashes: seq<string>, bin: Bytes)
    requires |bin| == |hashes| * HASH_SIZE
    requires forall i :: 0 <= i < |hashes| ==>
               i * HASH_SIZE + HASH_SIZE <= |bin| && DecodeHashHex(hashes[i]) == Some(bin[i * HASH_SIZE..i * HASH_SIZE + HASH_SIZE])
    ensures Decodable(hashes) && Packed(hashes) == bin
  {
    hide DecodeHashHex;
    forall k | 0 <= k < |bin| ensures Packed(hashes)[k] == bin[k] {
      var i, m := k / HASH_SIZE, k % HASH_SIZE;
      assert k == i * HASH_SIZE + m && i < |hashes|;
      assert DecodeHashHex(hashes[i]) == Some(bin[i * HASH_SIZE..i * HASH_SIZE + HASH_SIZE]);
    }
  }

  /** A bin built from hashes in RPC form answers with exactly those hashes, at every height of its range. */
  lemma HashAtPackedExact(hashes: seq<string>, start: nat, height: nat)
    requires forall i :: 0 <= i < |hashes| ==> Hex.IsHash(hashes[i])
    requires start <= height < start + |hashes|
    ensures Decodable(hashes)
    ensures HashAt(Packed(hashes), start, height, |hashes|) == Success(hashes[height - start])
  {
    forall i | 0 <= i < |hashes| ensures DecodeHashHex(hashes[i]).Some? {
      Hex.LowerOfHash(hashes[i]);
    }
    Hex.LowerOfHash(hashes[height - start]);
    HashAtPacked(hashes, start, height - start);
  }

  /** A range starts at or below each height it holds, less than rangeSize below it, on a multiple of rangeSize. */
  lemma StartHeightCovers(height: nat, rangeSize: nat)
    requires rangeSize > 0
    ensures var s := StartHeight(height, rangeSize).value;
            s <= height < s + rangeSize && s % rangeSize == 0
  {
    var q := height / rangeSize;
    assert height == q * rangeSize + height % rangeSize;
    DivModUnique(q * rangeSize, rangeSize, q, 0);
  }

  /** Stepping by one range keeps the alignment. */
  lemma NextMultiple(start: nat, rangeSize: nat)
    requires rangeSize > 0
    ensures (start + rangeSize) % rangeSize == start % rangeSize
  {
    var q, m := start / rangeSize, start % rangeSize;
    assert start + rangeSize == (q + 1) * rangeSize + m;
    DivModUnique(start + rangeSize, rangeSize, q + 1, m);
  }

  lemma DivModUnique(x: nat, d: nat, q: nat, m: nat)
    requires d > 0 && m < d && x == q * d + m
    ensures x / d == q && x % d == m
  {
    var q', m' := x / d, x % d;
    assert x == q' * d + m';
    if q' < q {
      TimesMonotone(q' + 1, q, d);
      assert false;
    }
    if q < q' {
      TimesMonotone(q + 1, q', d);
      assert false;
    }
  }

  lemma TimesMonotone(a: int, b: int, d: nat)
    requires a <= b
    ensures a * d <= b * d
  {
  }

  /** The range that starts at an aligned height is the range of each height in it. */
  lemma StartHeightOfMember(start: nat, height: nat, rangeSize: nat)
    requires rangeSize > 0 && start % rangeSize == 0 && start <= height < start + rangeSize
    ensures StartHeight(height, rangeSize) == Success(start)
  {
    var q := start / rangeSize;
    assert start == q * rangeSize;
    DivModUnique(height, rangeSize, q, height - start);
  }
}
