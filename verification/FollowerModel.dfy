/** What one call of the stateful uploader does, as a relation between the states before and after it. */
module FollowerModel {
  import opened Prelude
  import opened ObjectKeys
  import opened BlockTree
  import opened Services
  import opened Ranges
  import Probes

  /** The follower's fields. */
  datatype Follower = Follower(initialized: bool, lastTip: nat, nextIndexStart: nat, recent: map<nat, Hash>)

  /** A follower and the store it writes. */
  datatype Sys = Sys(f: Follower, objects: Objects)

  datatype FollowResult = FollowResult(
    tip: nat,
    lastTip: nat,
    nextIndexStart: nat,
    uploadedBlocks: nat,
    publishedIndexes: nat,
    waiting: bool)

  predicate Published(cfg: Config, nextIndexStart: nat) {
    nextIndexStart > cfg.ManagedStart()
  }

  /** The lowest height the cache has to know: the last published one, or the managed start. */
  function Floor(cfg: Config, nextIndexStart: nat): nat {
    if Published(cfg, nextIndexStart) then nextIndexStart - 1 else cfg.ManagedStart()
  }

  function CacheStart(cfg: Config, nextIndexStart: nat, end: nat): nat {
    Min(Floor(cfg, nextIndexStart), end)
  }

  /** The chain's hashes at heights lo up to, not including, hi. */
  function Segment(chain: seq<Hash>, lo: nat, hi: nat): map<nat, Hash>
    requires hi <= |chain|
  {
    map h: nat | lo <= h < hi :: chain[h]
  }

  /** The greatest height of [lo, hi] at which the cache agrees with the chain. */
  function LastAgree(recent: map<nat, Hash>, chain: seq<Hash>, lo: nat, hi: nat): (a: Option<nat>)
    requires lo <= hi < |chain|
    ensures a.Some? ==> lo <= a.value <= hi && a.value in recent && recent[a.value] == chain[a.value]
    ensures a.Some? ==> forall h :: a.value < h <= hi && h in recent ==> recent[h] != chain[h]
    ensures a.None? ==> forall h :: lo <= h <= hi && h in recent ==> recent[h] != chain[h]
    decreases hi
  {
    if hi in recent && recent[hi] == chain[hi] then Some(hi)
    else if hi == lo then None
    else LastAgree(recent, chain, lo, hi - 1)
  }

  /** Up to where an initialised follower compares the chain with its cache. */
  function CheckHeight(f: Follower, end: nat): nat {
    Min(end, f.lastTip)
  }

  /** The first height an initialised follower uploads: the one above the fork. */
  function UploadFrom(cfg: Config, f: Follower, chain: seq<Hash>, end: nat): nat
    requires Floor(cfg, f.nextIndexStart) <= CheckHeight(f, end) && end < |chain|
  {
    match LastAgree(f.recent, chain, Floor(cfg, f.nextIndexStart), CheckHeight(f, end))
    case None => cfg.ManagedStart()
    case Some(a) => a + 1
  }

  /** The call must refuse: something is published, and its last block is not on the chain up to end. */
  predicate Refuses(cfg: Config, f: Follower, chain: seq<Hash>, end: nat)
    requires end < |chain|
  {
    var n := f.nextIndexStart;
    Published(cfg, n) && (end < n - 1 || n - 1 !in f.recent || f.recent[n - 1] != chain[n - 1])
  }

  /** How far publishing gets. */
  function PublishTo(cfg: Config, start: nat, tip: nat, end: nat): (stop: nat)
    requires cfg.Valid() && end < MAX_U64
    ensures start <= stop && (stop > start ==> stop <= end + 1)
    decreases end + 1 - start
  {
    if start <= end && cfg.Ready(start, tip, end) then PublishTo(cfg, start + cfg.RangeSize(), tip, end) else start
  }

  /** One range's turn: all of its blocks, then its index. */
  ghost function PublishRange(cfg: Config, tree: Tree, chain: seq<Hash>, objects: Objects, start: nat): Objects
    requires IsChain(tree, chain) && start + cfg.RangeSize() <= |chain|
  {
    PutNew(AddBlocks(tree, objects, chain, start, start + cfg.RangeSize()),
           Index(cfg.RangeSize(), start), RangeBin(chain, start, cfg.RangeSize()))
  }

  ghost function PublishObjects(cfg: Config, tree: Tree, chain: seq<Hash>, objects: Objects, start: nat, stop: nat): Objects
    requires IsChain(tree, chain) && stop <= |chain|
    decreases stop - start
  {
    if start + cfg.RangeSize() <= stop
    then PublishObjects(cfg, tree, chain, PublishRange(cfg, tree, chain, objects, start), start + cfg.RangeSize(), stop)
    else objects
  }

  /** The state after publishing, from a store that holds every block up to end. */
  ghost function Settled(cfg: Config, tree: Tree, chain: seq<Hash>, objects: Objects, start: nat, end: nat): Sys
    requires cfg.Valid() && IsChain(tree, chain) && end < |chain| <= MAX_U64
  {
    var stop := PublishTo(cfg, start, |chain| - 1, end);
    Sys(Follower(true, end, stop, Segment(chain, CacheStart(cfg, stop, end), end + 1)),
        PublishObjects(cfg, tree, chain, objects, start, Min(stop, |chain|)))
  }

  /** The blocks of an increment: from the fork to the end. */
  ghost function Incremented(cfg: Config, tree: Tree, chain: seq<Hash>, s: Sys): Objects
    requires IsChain(tree, chain) && Comparable(cfg, s.f, chain)
  {
    var end := cfg.EndHeight(|chain| - 1);
    AddBlocks(tree, s.objects, chain, UploadFrom(cfg, s.f, chain, end), end + 1)
  }

  /** The chain reaches the lowest height the cache knows. */
  predicate Comparable(cfg: Config, f: Follower, chain: seq<Hash>)
  {
    |chain| > 0 && Floor(cfg, f.nextIndexStart) <= CheckHeight(f, cfg.EndHeight(|chain| - 1))
  }

  /** A clean call of an initialised follower that does not refuse. */
  ghost function AfterIncrement(cfg: Config, tree: Tree, chain: seq<Hash>, s: Sys): Sys
    requires cfg.Valid() && IsChain(tree, chain) && |chain| <= MAX_U64 && Comparable(cfg, s.f, chain)
  {
    Settled(cfg, tree, chain, Incremented(cfg, tree, chain, s), s.f.nextIndexStart, cfg.EndHeight(|chain| - 1))
  }

  /** The first range from start on that has no index. */
  function FirstUnindexed(cfg: Config, objects: Objects, start: nat, end: nat): (n: nat)
    requires cfg.Valid()
    ensures start <= n
    decreases end + 1 - start
  {
    if start <= end && Index(cfg.RangeSize(), start) in objects
    then match NextRangeStart(start, cfg.RangeSize())
      case None => start
      case Some(next) => FirstUnindexed(cfg, objects, next, end)
    else start
  }

  ghost function InitialBlocks(cfg: Config, tree: Tree, chain: seq<Hash>, objects: Objects, start: nat, end: nat): Objects
    requires IsChain(tree, chain) && end < |chain|
  {
    if start > end then objects
    else AddBlocks(tree, objects, chain, Probes.UploadStart(objects, chain, start, end, Probes.PROBE_STEP), end + 1)
  }

  /** A clean first call. */
  ghost function AfterInit(cfg: Config, tree: Tree, chain: seq<Hash>, objects: Objects): Sys
    requires cfg.Valid() && IsChain(tree, chain) && |chain| <= MAX_U64
  {
    var end := cfg.EndHeight(|chain| - 1);
    var start := FirstUnindexed(cfg, objects, cfg.ManagedStart(), end);
    Settled(cfg, tree, chain, InitialBlocks(cfg, tree, chain, objects, start, end), start, end)
  }

  /** A first call finds ranges published beyond what its chain shows. */
  predicate RefusesInit(cfg: Config, objects: Objects, end: nat)
    requires cfg.Valid()
  {
    var start := FirstUnindexed(cfg, objects, cfg.ManagedStart(), end);
    Published(cfg, start) && end < start - 1
  }

  // ----- one call

  /** The numbers of a result account for every object that was created. */
  predicate Reports(cfg: Config, s: Sys, t: Sys, end: nat, r: FollowResult) {
    && r.tip == end && r.lastTip == s.f.lastTip && r.nextIndexStart == t.f.nextIndexStart
    && r.uploadedBlocks + r.publishedIndexes == |t.objects| - |s.objects|
    && r.publishedIndexes == |IndexKeys(t.objects)| - |IndexKeys(s.objects)|
    && (r.waiting <==> r.tip == r.lastTip && r.uploadedBlocks == 0 && r.publishedIndexes == 0)
  }

  function IndexKeys(objects: Objects): set<Key> {
    set k | k in objects && k.Index?
  }

  /** The cache without its entries from height u on. */
  function Below(recent: map<nat, Hash>, u: nat): map<nat, Hash> {
    map h | h in recent && h < u :: recent[h]
  }

  /** A fault met while the cache was being refreshed: all blocks are up, the last tip has not moved. */
  ghost predicate Refreshing(cfg: Config, tree: Tree, chain: seq<Hash>, s: Sys, t: Sys)
    requires IsChain(tree, chain) && Comparable(cfg, s.f, chain)
  {
    var end := cfg.EndHeight(|chain| - 1);
    var u := UploadFrom(cfg, s.f, chain, end);
    && t.objects == Incremented(cfg, tree, chain, s)
    && exists k: nat :: u <= k <= end + 1
        && (t.f == s.f.(recent := Below(s.f.recent, u) + Segment(chain, u, k))
            || (u == s.f.lastTip + 1 && t.f == s.f.(recent := s.f.recent + Segment(chain, u, k))))
  }

  /** A fault met while ranges were being published: the increment is settled, some ranges are out. */
  ghost predicate Publishing(cfg: Config, tree: Tree, chain: seq<Hash>, s: Sys, t: Sys)
    requires cfg.Valid() && IsChain(tree, chain) && |chain| <= MAX_U64 && Comparable(cfg, s.f, chain)
  {
    var tip, n := |chain| - 1, t.f.nextIndexStart;
    var end := cfg.EndHeight(tip);
    && OnTheWay(cfg, s.f.nextIndexStart, n, tip, end)
    && t.f == Follower(true, end, n, Segment(chain, CacheStart(cfg, n, end), end + 1))
    && Grew(PublishObjects(cfg, tree, chain, Incremented(cfg, tree, chain, s), s.f.nextIndexStart, Min(n, |chain|)), t.objects)
  }

  /** Publishing from start comes through n. */
  ghost predicate OnTheWay(cfg: Config, start: nat, n: nat, tip: nat, end: nat)
    requires cfg.Valid() && end < MAX_U64
  {
    start <= n && n % cfg.RangeSize() == start % cfg.RangeSize() && PublishTo(cfg, n, tip, end) == PublishTo(cfg, start, tip, end)
  }

  /** What a call may leave behind when an RPC or store request faults. */
  ghost predicate FaultStep(cfg: Config, tree: Tree, chain: seq<Hash>, s: Sys, t: Sys)
    requires cfg.Valid() && IsChain(tree, chain) && |chain| <= MAX_U64
  {
    var end := cfg.EndHeight(|chain| - 1);
    if cfg.fromHeight > end then t == s
    else if !s.f.initialized then
      t == s
      || (&& !t.f.initialized && t.f.lastTip == s.f.lastTip
          && t.f.nextIndexStart >= cfg.ManagedStart() && t.f.nextIndexStart % cfg.RangeSize() == 0
          && Within(s.objects, t.objects, AfterInit(cfg, tree, chain, s.objects).objects))
    else if Refuses(cfg, s.f, chain, end) || !Comparable(cfg, s.f, chain) then t == s
    else
      && Within(s.objects, t.objects, AfterIncrement(cfg, tree, chain, s).objects)
      && (t.f == s.f || Refreshing(cfg, tree, chain, s, t) || Publishing(cfg, tree, chain, s, t))
  }

  /** One call of UploadOnce, from s to t with answer r, while the node shows chain. */
  ghost predicate CallStep(cfg: Config, tree: Tree, chain: seq<Hash>, s: Sys, t: Sys, r: Result<FollowResult, Error>)
    requires cfg.Valid() && IsChain(tree, chain) && |chain| <= MAX_U64
  {
    var end := cfg.EndHeight(|chain| - 1);
    match r
    case Failure(Fault) => FaultStep(cfg, tree, chain, s, t)
    case Failure(ReorgTouchesPublishedIndex) =>
      && cfg.fromHeight <= end
      && (if s.f.initialized then Refuses(cfg, s.f, chain, end) && t == s
          else
            && RefusesInit(cfg, s.objects, end)
            && t == Sys(Follower(false, s.f.lastTip, FirstUnindexed(cfg, s.objects, cfg.ManagedStart(), end), map[]), s.objects))
    case Failure(_) => false
    case Success(res) =>
      && Reports(cfg, s, t, end, res)
      && (if cfg.fromHeight > end then t == s
          else if s.f.initialized then
            !Refuses(cfg, s.f, chain, end) && Comparable(cfg, s.f, chain) && t == AfterIncrement(cfg, tree, chain, s)
          else !RefusesInit(cfg, s.objects, end) && t == AfterInit(cfg, tree, chain, s.objects))
  }

  // ----- the order in which one call writes

  /** The range from st on is published as the chain has it, and all of its blocks are stored. */
  ghost predicate RangeWhole(objects: Objects, chain: seq<Hash>, st: nat, size: nat) {
    && st + size <= |chain| && Index(size, st) in objects && objects[Index(size, st)] == RangeBin(chain, st, size)
    && forall h: nat :: st <= h < st + size ==> Stored(objects, chain, h)
  }

  /** An index that is new is the chain's, and its blocks are there. */
  ghost predicate NewIndexesWhole(cfg: Config, chain: seq<Hash>, before: Objects, after: Objects) {
    forall st: nat :: Index(cfg.RangeSize(), st) in after && Index(cfg.RangeSize(), st) !in before ==>
      RangeWhole(after, chain, st, cfg.RangeSize())
  }

  /** How a call writes, whether it faults or not: an index after its blocks; and with a single worker the blocks of a first
      call from the probed start upwards. */
  ghost predicate WritesInOrder(cfg: Config, chain: seq<Hash>, s: Sys, t: Sys)
    requires cfg.Valid() && 0 < |chain|
  {
    && NewIndexesWhole(cfg, chain, s.objects, t.objects)
    && (!s.f.initialized && cfg.Workers() <= 1 ==> FirstInOrder(cfg, chain, s.objects, t.objects))
  }

  ghost predicate FirstInOrder(cfg: Config, chain: seq<Hash>, before: Objects, after: Objects)
    requires cfg.Valid() && 0 < |chain|
  {
    var end := cfg.EndHeight(|chain| - 1);
    var start := FirstUnindexed(cfg, before, cfg.ManagedStart(), end);
    start <= end ==> InOrder(chain, before, after, Probes.UploadStart(before, chain, start, end, Probes.PROBE_STEP), end)
  }
}
