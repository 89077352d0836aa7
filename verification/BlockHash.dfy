/** The display-order hash of a raw block. SHA-256 itself is a parameter. */
module BlockHash {
  import opened Prelude
  import Hex

  const HEADER_SIZE: nat := 80

  type Sha256 = Bytes -> Digest

  function Reversed(s: Bytes): (r: Bytes)
    ensures |r| == |s|
  {
    seq(|s|, k requires 0 <= k < |s| => s[|s| - 1 - k])
  }

  /** What FromRawBlock answers; None when the block is shorter than its header. */
  function HashOf(sha: Sha256, raw: Bytes): Option<string> {
    if |raw| < HEADER_SIZE then None
    else Some(Hex.Encode(Reversed(sha(sha(raw[..HEADER_SIZE])))))
  }

  /** Hashes the header twice and turns the digest around in place, from both ends towards the middle. */
  method FromRawBlock(sha: Sha256, raw: Bytes) returns (r: Option<string>)
    ensures r == HashOf(sha, raw)
    ensures r.Some? <==> |raw| >= HEADER_SIZE
    ensures r.Some? ==> Hex.IsHash(r.value)
  {
    if |raw| < HEADER_SIZE {
      return None;
    }
    var second := sha(sha(raw[..HEADER_SIZE]));
    var hash := new Byte[32](k requires 0 <= k < 32 => second[k]);
    ReverseInPlace(hash);
    Hex.EncodeIsHash(hash[..]);
    assert hash[..] == Reversed(second);
    return Some(Hex.Encode(hash[..]));
  }

  method ReverseInPlace(hash: array<Byte>)
    modifies hash
    ensures hash[..] == Reversed(old(hash[..]))
  {
    var i, j := 0, hash.Length - 1;
    while i < j
      invariant 0 <= i <= j + 2 && j == hash.Length - 1 - i
      invariant forall k :: 0 <= k < i ==> hash[k] == old(hash[hash.Length - 1 - k])
      invariant forall k :: 0 <= k < i ==> hash[hash.Length - 1 - k] == old(hash[k])
      invariant forall k :: i <= k <= j ==> hash[k] == old(hash[k])
    {
      hash[i], hash[j] := hash[j], hash[i];
      i, j := i + 1, j - 1;
    }
    forall k | 0 <= k < hash.Length ensures hash[k] == old(hash[hash.Length - 1 - k]) {
      if k > j {
        var m := hash.Length - 1 - k;
        assert hash[hash.Length - 1 - m] == old(hash[m]) || (i <= k <= j);
      }
    }
  }

  /** Turning a digest around twice gives it back, so two digests with one display form are one digest. */
  lemma ReversedTwice(s: Bytes)
    ensures Reversed(Reversed(s)) == s
  {
    forall k | 0 <= k < |s| ensures Reversed(Reversed(s))[k] == s[k] {
      assert Reversed(Reversed(s))[k] == Reversed(s)[|s| - 1 - k];
    }
  }

  /** A block's display hash decodes to its digest turned around: nothing of the digest is lost. */
  lemma HashDecodes(sha: Sha256, raw: Bytes)
    requires |raw| >= HEADER_SIZE
    ensures Hex.IsHash(HashOf(sha, raw).value)
    ensures Hex.Decode(HashOf(sha, raw).value).Some?
    ensures Reversed(Hex.Decode(HashOf(sha, raw).value).value) == sha(sha(raw[..HEADER_SIZE]))
  {
    var d := sha(sha(raw[..HEADER_SIZE]));
    Hex.EncodeIsHash(Reversed(d));
    Hex.DecodeEncode(Reversed(d));
    ReversedTwice(d);
  }
}
