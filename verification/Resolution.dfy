/** How the submitter turns a height into a hash, and a hash into a verified block, over one view of the node's headers
    and of the public bucket. */
module Resolution {
  import opened Prelude
  import opened ObjectKeys
  import BlockHash
  import HeaderWalk
  import IndexCache
  import RangeIndex

  datatype View = View(
    headers: nat,                              // the node's header height
    bootstrap: bool,
    rangeSize: nat,
    walkLimit: nat,
    bucket: IndexCache.Bucket,
    tips: Option<seq<HeaderWalk.Tip>>,
    byHash: HeaderWalk.Headers,
    sha: BlockHash.Sha256)

  datatype ResolveError = Lookup(index: IndexCache.LookupError) | Walk(walk: HeaderWalk.WalkError)

  /** Hash: the height's block. Wait: nothing to do there yet, because of headers, or also of a missing index. */
  datatype Resolved = Hash(hash: string) | Wait(index: bool) | Broken(error: ResolveError)

  function Resolve(v: View, height: nat): Resolved {
    if height > v.headers && !v.bootstrap then Wait(false)
    else match IndexCache.Direct(v.bucket, height, v.rangeSize)
      case Success(hash) => Hash(hash)
      case Failure(Missing) => if height > v.headers then Wait(true) else ByHeaders(v, height)
      case Failure(e) => Broken(Lookup(e))
  }

  function ByHeaders(v: View, height: nat): Resolved {
    match HeaderWalk.Recent(v.tips, v.byHash, height, v.walkLimit)
    case Success(hash) => Hash(hash)
    case Failure(e) => Broken(Walk(e))
  }

  /** What resolution says, by what the bucket answers for the index of the height's range. Above the headers the index is
      consulted only when bootstrapping. An index that cannot be had or has the wrong length is an error at every height; a
      missing one means to wait above the headers, and only at or below them do the headers decide. */
  lemma ResolveMeans(v: View, height: nat, st: nat)
    requires v.rangeSize > 0 && st % v.rangeSize == 0 && st <= height < st + v.rangeSize
    ensures var answer, r := v.bucket(Name(Index(v.rangeSize, st))), Resolve(v, height);
            && (r == Wait(false) <==> height > v.headers && !v.bootstrap)
            && (r == Wait(true) <==> height > v.headers && v.bootstrap && answer == Failure(IndexCache.NotFound))
            && (height <= v.headers || v.bootstrap ==>
                  && (answer == Failure(IndexCache.Broken) ==> r == Broken(Lookup(IndexCache.Unavailable)))
                  && (answer.Success? && |answer.value| != v.rangeSize * 32 ==>
                        r.Broken? && r.error.Lookup? && r.error.index.Unreadable?)
                  && (answer.Success? && |answer.value| == v.rangeSize * 32 ==>
                        && r.Hash?
                        && 0 <= (height - st) * 32 && (height - st) * 32 + 32 <= |answer.value|
                        && RangeIndex.DecodeHashHex(r.hash) == Some(answer.value[(height - st) * 32..(height - st) * 32 + 32])))
            && (height <= v.headers && answer == Failure(IndexCache.NotFound) ==>
                  match HeaderWalk.Recent(v.tips, v.byHash, height, v.walkLimit)
                  case Success(hash) => r == Hash(hash)
                  case Failure(e) => r == Broken(Walk(e)))
  {
    hide Name, IndexCache.Direct, HeaderWalk.Recent, RangeIndex.DecodeHashHex;
    IndexCache.DirectMeans(v.bucket, height, v.rangeSize, st);
  }

  /** Without a range size there is no index to consult, and that is an error wherever one would have been. */
  lemma ResolveWithoutRanges(v: View, height: nat)
    requires v.rangeSize == 0
    ensures if height > v.headers && !v.bootstrap then Resolve(v, height) == Wait(false)
            else Resolve(v, height) == Broken(Lookup(IndexCache.Unreadable(RangeIndex.ZeroRangeSize)))
  {
  }

  /** resolveHash: through the cache, whose presence does not show. */
  method ResolveHash(v: View, cache: IndexCache.SubmitRangeIndexCache, height: nat) returns (r: Resolved)
    requires cache.rangeSize == v.rangeSize && IndexCache.Holds(v.bucket, v.rangeSize, cache.State())
    modifies cache
    ensures r == Resolve(v, height)
    ensures IndexCache.Holds(v.bucket, v.rangeSize, cache.State())
  {
    hide IndexCache.Holds, IndexCache.Lookup, IndexCache.Direct, HeaderWalk.Recent, IndexCache.SubmitRangeIndexCache.State;
    if height > v.headers {
      if !v.bootstrap {
        return Wait(false);
      }
      IndexCache.LookupIsDirect(v.bucket, v.rangeSize, cache.State(), height);
      var hash := cache.HashAt(v.bucket, height);
      match hash
      case Failure(Missing) => return Wait(true);
      case Failure(e) => return Broken(Lookup(e));
      case Success(h) => return Hash(h);
    }
    IndexCache.LookupIsDirect(v.bucket, v.rangeSize, cache.State(), height);
    var hash := cache.HashAt(v.bucket, height);
    match hash
    case Success(h) => return Hash(h);
    case Failure(Missing) =>
      var walked := HeaderWalk.ResolveRecentHash(v.tips, v.byHash, height, v.walkLimit);
      match walked {
        case Success(h) => return Hash(h);
        case Failure(e) => return Broken(Walk(e));
      }
    case Failure(e) => return Broken(Lookup(e));
  }

  // ----- downloading

  /** Interrupted: the download's context was cancelled. */
  datatype DownloadError = Lost | TooShort | Mismatch | Interrupted

  datatype Job = Job(height: nat, hash: string)

  datatype Download = Download(height: nat, hash: string, raw: Result<Bytes, DownloadError>)

  function Fetched(v: View, hash: string): Result<Bytes, DownloadError> {
    match BlockKey(hash)
    case None => Failure(Lost)
    case Some(key) =>
      match v.bucket(Name(key))
      case Failure(_) => Failure(Lost)
      case Success(raw) =>
        match BlockHash.HashOf(v.sha, raw)
        case None => Failure(TooShort)
        case Some(got) => if got != hash then Failure(Mismatch) else Success(raw)
  }

  /** The object that the bucket holds under the block's name, if the hash names a block and the download succeeds. */
  function Offered(v: View, hash: string): Option<Bytes> {
    match BlockKey(hash)
    case None => None
    case Some(key) =>
      match v.bucket(Name(key))
      case Failure(_) => None
      case Success(raw) => Some(raw)
  }

  /** What the result of a download tells: the offered bytes pass exactly when their header hashes to the wanted hash, and
      each failure says what was wrong with the offer. */
  ghost predicate Verdict(v: View, hash: string, raw: Result<Bytes, DownloadError>) {
    var offer := Offered(v, hash);
    && (raw.Success? <==> offer.Some? && BlockHash.HashOf(v.sha, offer.value) == Some(hash))
    && (raw.Success? ==> raw.value == offer.value && BlockHash.Hex.IsHash(hash))
    && (raw == Failure(Lost) <==> offer.None?)
    && (raw == Failure(TooShort) <==> offer.Some? && |offer.value| < BlockHash.HEADER_SIZE)
    && (raw == Failure(Mismatch) <==>
          offer.Some? && |offer.value| >= BlockHash.HEADER_SIZE && BlockHash.HashOf(v.sha, offer.value) != Some(hash))
    && raw != Failure(Interrupted)
  }

  /** Nothing else is left open by the verdict: it settles the result. */
  lemma VerdictSettles(v: View, hash: string, raw: Result<Bytes, DownloadError>)
    ensures Verdict(v, hash, raw) <==> raw == Fetched(v, hash)
  {
    if Fetched(v, hash).Success? {
      FetchedIsVerified(v, hash);
    }
    hide Name, BlockKey, BlockHash.Hex.IsHash, BlockHash.Hex.Encode, BlockHash.Reversed;
  }

  method DownloadAndVerify(v: View, job: Job) returns (d: Download)
    ensures d.height == job.height && d.hash == job.hash
    ensures Verdict(v, job.hash, d.raw)
  {
    hide Verdict;
    VerdictSettles(v, job.hash, Fetched(v, job.hash));
    var key := BlockKey(job.hash);
    if key.None? {
      return Download(job.height, job.hash, Failure(Lost));
    }
    var raw := v.bucket(Name(key.value));
    if raw.Failure? {
      return Download(job.height, job.hash, Failure(Lost));
    }
    var got := BlockHash.FromRawBlock(v.sha, raw.value);
    if got.None? {
      return Download(job.height, job.hash, Failure(TooShort));
    }
    if got.value != job.hash {
      return Download(job.height, job.hash, Failure(Mismatch));
    }
    return Download(job.height, job.hash, Success(raw.value));
  }

  /** Only a block whose header hashes to the wanted hash is let through, and that hash is then in RPC form. */
  lemma FetchedIsVerified(v: View, hash: string)
    requires Fetched(v, hash).Success?
    ensures BlockHash.HashOf(v.sha, Fetched(v, hash).value) == Some(hash)
    ensures BlockHash.Hex.IsHash(hash)
  {
    BlockHash.HashDecodes(v.sha, Fetched(v, hash).value);
  }

  // ----- where resolution stops

  /** stop is the first height from first on that does not resolve to a hash. */
  ghost predicate StopsAt(v: View, first: nat, stop: nat) {
    first <= stop && !Resolve(v, stop).Hash? && forall h :: first <= h < stop ==> Resolve(v, h).Hash?
  }

  /** A stop exists as soon as any height does not resolve. */
  lemma {:induction false} SomeStop(v: View, first: nat, unresolved: nat) returns (stop: nat)
    requires first <= unresolved && !Resolve(v, unresolved).Hash?
    ensures StopsAt(v, first, stop) && stop <= unresolved
    decreases unresolved - first
  {
    hide Resolve;
    if Resolve(v, first).Hash? {
      stop := SomeStop(v, first + 1, unresolved);
    } else {
      stop := first;
    }
  }

  /** Without bootstrapping the stop is never beyond the first height above the headers. */
  lemma StopWithoutBootstrap(v: View, first: nat) returns (stop: nat)
    requires !v.bootstrap && first <= v.headers + 1
    ensures StopsAt(v, first, stop) && stop <= v.headers + 1
    ensures Resolve(v, stop).Wait? ==> stop == v.headers + 1
  {
    stop := SomeStop(v, first, v.headers + 1);
  }
}
