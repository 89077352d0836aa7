/** Looking up a block hash in the published range indexes: directly, and through the submitter's cache of one index
    and of the keys that were not found. */
module IndexCache {
  import opened Prelude
  import opened ObjectKeys
  import RangeIndex

  datatype FetchError = NotFound | Broken

  /** The public bucket: what a download of each key answers. */
  type Bucket = string -> Result<Bytes, FetchError>

  datatype LookupError = Missing | Unavailable | Unreadable(reason: RangeIndex.Error)

  /** resolveTargetHashFromRangeIndex: one download, one read. */
  function Direct(bucket: Bucket, height: nat, rangeSize: nat): Result<string, LookupError> {
    match ObjectKeyForHeight(height, rangeSize)
    case Failure(e) => Failure(Unreadable(e))
    case Success((key, start)) =>
      match bucket(key)
      case Failure(NotFound) => Failure(Missing)
      case Failure(Broken) => Failure(Unavailable)
      case Success(bin) => Read(bin, start, height, rangeSize)
  }

  function Read(bin: Bytes, start: nat, height: nat, rangeSize: nat): Result<string, LookupError> {
    match RangeIndex.HashAt(bin, start, height, rangeSize)
    case Failure(e) => Failure(Unreadable(e))
    case Success(hash) => Success(hash)
  }

  /** What a direct lookup tells, by what the bucket answers for the index of the height's range: a missing index, one that
      cannot be had, one of the wrong length, and otherwise the 32 bytes at the height's place. */
  lemma DirectMeans(bucket: Bucket, height: nat, rangeSize: nat, st: nat)
    requires rangeSize > 0 && st % rangeSize == 0 && st <= height < st + rangeSize
    ensures var answer, r := bucket(Name(Index(rangeSize, st))), Direct(bucket, height, rangeSize);
            && (r == Failure(Missing) <==> answer == Failure(NotFound))
            && (r == Failure(Unavailable) <==> answer == Failure(Broken))
            && (r.Failure? && r.error.Unreadable? <==> answer.Success? && |answer.value| != rangeSize * 32)
            && (r.Success? <==> answer.Success? && |answer.value| == rangeSize * 32)
            && (r.Success? ==>
                  && 0 <= (height - st) * 32 && (height - st) * 32 + 32 <= |answer.value|
                  && RangeIndex.DecodeHashHex(r.value) == Some(answer.value[(height - st) * 32..(height - st) * 32 + 32]))
  {
    hide Name, RangeIndex.Hex.Encode, RangeIndex.Hex.Decode;
    RangeIndex.StartHeightOfMember(st, height, rangeSize);
    match bucket(Name(Index(rangeSize, st)))
    case Failure(_) =>
    case Success(bin) =>
      if |bin| == rangeSize * 32 {
        RangeIndex.TimesMonotone(height - st + 1, rangeSize, 32);
        RangeIndex.Hex.DecodeEncode(bin[(height - st) * 32..(height - st) * 32 + 32]);
      }
  }

  /** The cache's fields; downloads counts what it cost. */
  datatype Cache = Cache(key: string, start: nat, bin: Bytes, missing: set<string>, downloads: nat)

  const EMPTY: Cache := Cache("", 0, [], {}, 0)

  /** One lookup through the cache. */
  function Lookup(bucket: Bucket, rangeSize: nat, c: Cache, height: nat): (Cache, Result<string, LookupError>) {
    match ObjectKeyForHeight(height, rangeSize)
    case Failure(e) => (c, Failure(Unreadable(e)))
    case Success((key, start)) =>
      if key in c.missing then (c, Failure(Missing))
      else if c.key == key then (c, Read(c.bin, c.start, height, rangeSize))
      else
        var asked := c.(downloads := c.downloads + 1);
        match bucket(key)
        case Failure(NotFound) => (asked.(missing := c.missing + {key}), Failure(Missing))
        case Failure(Broken) => (asked, Failure(Unavailable))
        case Success(bin) => (asked.(key := key, start := start, bin := bin), Read(bin, start, height, rangeSize))
  }

  class SubmitRangeIndexCache {
    const rangeSize: nat
    var key: string
    var start: nat
    var bin: Bytes
    var missing: set<string>
    ghost var downloads: nat

    ghost function State(): Cache
      reads this
    {
      Cache(key, start, bin, missing, downloads)
    }

    constructor (rangeSize: nat)
      ensures this.rangeSize == rangeSize && State() == EMPTY
    {
      this.rangeSize, key, start, bin, missing, downloads := rangeSize, "", 0, [], {}, 0;
    }

    method HashAt(bucket: Bucket, height: nat) returns (r: Result<string, LookupError>)
      modifies this
      ensures (State(), r) == Lookup(bucket, rangeSize, old(State()), height)
    {
      hide Name, RangeIndex.HashAt, RangeIndex.StartHeight;
      var found := ObjectKeyForHeight(height, rangeSize);
      if found.Failure? {
        return Failure(Unreadable(found.error));
      }
      var (wanted, startHeight) := found.value;
      if wanted in missing {
        return Failure(Missing);
      }
      if key != wanted {
        downloads := downloads + 1;
        var answer := bucket(wanted);
        if answer == Failure(NotFound) {
          missing := missing + {wanted};
          return Failure(Missing);
        }
        if answer.Failure? {
          return Failure(Unavailable);
        }
        key := wanted;
        start := startHeight;
        bin := answer.value;
      }
      return Read(bin, start, height, rangeSize);
    }
  }

  // ----- over a fixed bucket

  /** What the cached entry and the negative entries say is so in the bucket. */
  ghost predicate Holds(bucket: Bucket, rangeSize: nat, c: Cache) {
    Right(bucket, rangeSize, c) && forall k :: k in c.missing ==> bucket(k) == Failure(NotFound)
  }

  ghost predicate Right(bucket: Bucket, rangeSize: nat, c: Cache) {
    c.key != "" ==> c.key == Name(Index(rangeSize, c.start)) && bucket(c.key) == Success(c.bin)
  }

  /** The cached object is the one asked for, and not one whose name happens to look alike. */
  lemma HitIsRight(rangeSize: nat, c: Cache, start: nat)
    requires c.key == Name(Index(rangeSize, start)) && c.key == Name(Index(rangeSize, c.start))
    ensures c.start == start
  {
    NameInjective(Index(rangeSize, start), Index(rangeSize, c.start));
  }

  lemma NamesAreNotEmpty(k: Key)
    ensures Name(k) != ""
  {
  }

  /** On a fixed bucket a lookup through the cache answers what a direct one does. */
  lemma LookupIsDirect(bucket: Bucket, rangeSize: nat, c: Cache, height: nat)
    requires Holds(bucket, rangeSize, c)
    ensures Lookup(bucket, rangeSize, c, height).1 == Direct(bucket, height, rangeSize)
    ensures Holds(bucket, rangeSize, Lookup(bucket, rangeSize, c, height).0)
  {
    hide Name, RangeIndex.HashAt;
    match ObjectKeyForHeight(height, rangeSize)
    case Failure(_) =>
    case Success((key, start)) =>
      NamesAreNotEmpty(Index(rangeSize, start));
      if c.key == key {
        HitIsRight(rangeSize, c, start);
      }
  }

  /** A whole sequence of lookups: the answers, and the cache afterwards. */
  function LookupAll(bucket: Bucket, rangeSize: nat, c: Cache, heights: seq<nat>): (Cache, seq<Result<string, LookupError>>)
    decreases |heights|
  {
    if heights == [] then (c, [])
    else
      var (c1, rest) := LookupAll(bucket, rangeSize, c, heights[..|heights| - 1]);
      var (c2, last) := Lookup(bucket, rangeSize, c1, heights[|heights| - 1]);
      (c2, rest + [last])
  }

  /** For every sequence of heights the cache is invisible. */
  lemma {:induction false} CacheIsInvisible(bucket: Bucket, rangeSize: nat, c: Cache, heights: seq<nat>)
    requires Holds(bucket, rangeSize, c)
    ensures var (after, answers) := LookupAll(bucket, rangeSize, c, heights);
            && Holds(bucket, rangeSize, after) && |answers| == |heights|
            && forall i :: 0 <= i < |heights| ==> answers[i] == Direct(bucket, heights[i], rangeSize)
    decreases |heights|
  {
    hide Holds, Direct, Lookup;
    if heights != [] {
      var front := heights[..|heights| - 1];
      CacheIsInvisible(bucket, rangeSize, c, front);
      LookupIsDirect(bucket, rangeSize, LookupAll(bucket, rangeSize, c, front).0, heights[|heights| - 1]);
      assert forall i :: 0 <= i < |front| ==> heights[i] == front[i];
    }
  }

  lemma EmptyHolds(bucket: Bucket, rangeSize: nat)
    ensures Holds(bucket, rangeSize, EMPTY)
  {
  }

  // ----- over a bucket that grows

  /** Later: what could be downloaded before can still be downloaded, unchanged. */
  ghost predicate Extends(before: Bucket, after: Bucket) {
    forall k :: before(k).Success? ==> after(k) == before(k)
  }

  /** A run of lookups, each on the bucket as it then is. */
  function LookupRun(buckets: seq<Bucket>, rangeSize: nat, c: Cache, heights: seq<nat>): (Cache, seq<Result<string,
          LookupError>>)
    requires |buckets| == |heights|
    decreases |heights|
  {
    if heights == [] then (c, [])
    else
      var n := |heights| - 1;
      var (c1, rest) := LookupRun(buckets[..n], rangeSize, c, heights[..n]);
      var (c2, last) := Lookup(buckets[n], rangeSize, c1, heights[n]);
      (c2, rest + [last])
  }

  /** While the bucket grows a negative entry may be out of date, but from any cache whose entry is right now, every hash the
      cache ever answers with is the one a direct lookup gives, then and in any later bucket. */
  lemma {:induction false} HashesStayRight(buckets: seq<Bucket>, rangeSize: nat, c: Cache, heights: seq<nat>,
          now: Bucket, last: Bucket)
    requires |buckets| == |heights|
    requires forall i, j :: 0 <= i <= j < |buckets| ==> Extends(buckets[i], buckets[j])
    requires forall i :: 0 <= i < |buckets| ==> Extends(now, buckets[i]) && Extends(buckets[i], last)
    requires Extends(now, last) && Right(now, rangeSize, c)
    ensures var (after, answers) := LookupRun(buckets, rangeSize, c, heights);
            && Right(last, rangeSize, after) && |answers| == |heights|
            && forall i :: 0 <= i < |heights| && answers[i].Success? ==> Direct(last, heights[i], rangeSize) == answers[i]
    decreases |heights|
  {
    hide Direct, Lookup, Extends, Right;
    if heights == [] {
      RightLater(now, last, rangeSize, c);
    } else {
      var n := |heights| - 1;
      HashesStayRight(buckets[..n], rangeSize, c, heights[..n], now, buckets[n]);
      HashesStayRight(buckets[..n], rangeSize, c, heights[..n], now, last);
      var c1 := LookupRun(buckets[..n], rangeSize, c, heights[..n]).0;
      LookupStaysRight(buckets[n], rangeSize, c1, heights[n], last);
      assert forall i :: 0 <= i < n ==> heights[i] == heights[..n][i];
    }
  }

  lemma RightLater(now: Bucket, last: Bucket, rangeSize: nat, c: Cache)
    requires Extends(now, last) && Right(now, rangeSize, c)
    ensures Right(last, rangeSize, c)
  {
  }

  /** A new cache has no entry, so it is right over every bucket. */
  lemma EmptyRight(bucket: Bucket, rangeSize: nat)
    ensures Right(bucket, rangeSize, EMPTY)
  {
  }

  lemma LookupStaysRight(bucket: Bucket, rangeSize: nat, c: Cache, height: nat, last: Bucket)
    requires Right(bucket, rangeSize, c) && Extends(bucket, last)
    ensures Right(last, rangeSize, Lookup(bucket, rangeSize, c, height).0)
    ensures var r := Lookup(bucket, rangeSize, c, height).1; r.Success? ==> Direct(last, height, rangeSize) == r
  {
    hide Name, RangeIndex.HashAt;
    match ObjectKeyForHeight(height, rangeSize)
    case Failure(_) =>
    case Success((key, start)) =>
      NamesAreNotEmpty(Index(rangeSize, start));
      if c.key == key {
        HitIsRight(rangeSize, c, start);
      }
  }

  // ----- cost

  /** The heights from a up to, not including, b. */
  function Span(a: nat, b: nat): (s: seq<nat>)
    requires a <= b
    ensures |s| == b - a
  {
    seq(b - a, i requires 0 <= i => a + i)
  }

  /** The cache knows about the range of height, one way or the other. */
  predicate Knows(rangeSize: nat, c: Cache, height: nat) {
    match ObjectKeyForHeight(height, rangeSize)
    case Failure(_) => true
    case Success((key, _)) => key in c.missing || c.key == key
  }

  lemma LookupCost(bucket: Bucket, rangeSize: nat, c: Cache, height: nat)
    requires match ObjectKeyForHeight(height, rangeSize)
             case Failure(_) => true
             case Success((key, _)) => bucket(key) != Failure(Broken)
    ensures var after := Lookup(bucket, rangeSize, c, height).0;
            && Knows(rangeSize, after, height)
            && after.downloads == c.downloads + if Knows(rangeSize, c, height) then 0 else 1
  {
    hide Name, RangeIndex.HashAt;
  }

  /** The next height is in the same range, or in the next one. */
  lemma NextRange(h: nat, rangeSize: nat)
    requires rangeSize > 0
    ensures (h + 1) / rangeSize == h / rangeSize || (h + 1) / rangeSize == h / rangeSize + 1
  {
    var q, m := h / rangeSize, h % rangeSize;
    assert h == q * rangeSize + m;
    if m + 1 < rangeSize {
      RangeIndex.DivModUnique(h + 1, rangeSize, q, m + 1);
    } else {
      assert h + 1 == (q + 1) * rangeSize;
      RangeIndex.DivModUnique(h + 1, rangeSize, q + 1, 0);
    }
  }

  /** Walking a run of consecutive heights costs at most one download for each range it touches, whatever was cached
      before and however the bucket changes on the way, as long as no download breaks. */
  lemma {:induction false} OneDownloadPerRange(buckets: seq<Bucket>, rangeSize: nat, c: Cache, a: nat, b: nat)
    requires rangeSize > 0 && a < b && |buckets| == b - a
    requires forall h: nat :: a <= h < b ==> buckets[h - a](ObjectKeyForHeight(h, rangeSize).value.0) != Failure(Broken)
    ensures var after := LookupRun(buckets, rangeSize, c, Span(a, b)).0;
            && after.downloads - c.downloads <= (b - 1) / rangeSize - a / rangeSize + 1
            && Knows(rangeSize, after, b - 1)
    decreases b
  {
    hide Name, Lookup, Knows;
    var n := b - 1 - a;
    var front := Span(a, b)[..n];
    var before := LookupRun(buckets[..n], rangeSize, c, front).0;
    LookupCost(buckets[n], rangeSize, before, b - 1);
    if b - 1 > a {
      assert front == Span(a, b - 1);
      OneDownloadPerRange(buckets[..n], rangeSize, c, a, b - 1);
      NextRange(b - 2, rangeSize);
      if (b - 1) / rangeSize == (b - 2) / rangeSize {
        SameRangeKnown(rangeSize, before, b - 2, b - 1);
      }
    }
  }

  lemma SameRangeKnown(rangeSize: nat, c: Cache, h: nat, h': nat)
    requires rangeSize > 0 && h / rangeSize == h' / rangeSize && Knows(rangeSize, c, h)
    ensures Knows(rangeSize, c, h')
  {
    hide Name;
  }
}
