/** The follower's cache of recent hashes: what it always is, and what comparing it with a chain tells. */
module FollowerCache {
  import opened Prelude
  import opened BlockTree
  import opened Services
  import opened Ranges
  import opened FollowerModel
  import RangeIndex

  /** At or below the last tip the cache holds exactly the heights [Floor, k) of one chain. Above it a failed call may
      have left anything. */
  ghost predicate CacheOn(cfg: Config, f: Follower, c: seq<Hash>, k: nat) {
    && Floor(cfg, f.nextIndexStart) <= k <= |c| && k <= f.lastTip + 1
    && (Published(cfg, f.nextIndexStart) ==> k >= f.nextIndexStart)
    && (forall h: nat :: h <= f.lastTip ==> (h in f.recent <==> Floor(cfg, f.nextIndexStart) <= h < k))
    && (forall h: nat :: Floor(cfg, f.nextIndexStart) <= h < k ==> h in f.recent && f.recent[h] == c[h])
  }

  ghost predicate Cached(cfg: Config, tree: Tree, f: Follower) {
    exists c: seq<Hash>, k: nat :: IsChain(tree, c) && CacheOn(cfg, f, c, k)
  }

  /** What holds of a follower between any two calls. */
  ghost predicate Inv(cfg: Config, tree: Tree, f: Follower) {
    && cfg.ManagedStart() <= f.nextIndexStart && f.nextIndexStart % cfg.RangeSize() == 0
    && (f.initialized ==> Floor(cfg, f.nextIndexStart) <= f.lastTip && Cached(cfg, tree, f))
  }

  lemma ManagedStartAligned(cfg: Config)
    ensures cfg.ManagedStart() % cfg.RangeSize() == 0
    ensures cfg.ManagedStart() <= cfg.fromHeight < cfg.ManagedStart() + cfg.RangeSize()
  {
    RangeIndex.StartHeightCovers(cfg.fromHeight, cfg.RangeSize());
  }

  /** Only a published boundary can be out of the chain's sight. */
  lemma ComparableUnlessRefused(cfg: Config, tree: Tree, f: Follower, chain: seq<Hash>)
    requires Inv(cfg, tree, f) && f.initialized && |chain| > 0 && cfg.fromHeight <= cfg.EndHeight(|chain| - 1)
    ensures var end := cfg.EndHeight(|chain| - 1);
            && (Comparable(cfg, f, chain) <==> !(Published(cfg, f.nextIndexStart) && end < f.nextIndexStart - 1))
            && (!Comparable(cfg, f, chain) ==> Refuses(cfg, f, chain, end))
  {
    ManagedStartAligned(cfg);
    hide Cached;
  }

  lemma AgreeBelow(cfg: Config, tree: Tree, f: Follower, c: seq<Hash>, k: nat, chain: seq<Hash>, a: nat)
    requires WellFormed(tree) && IsChain(tree, c) && IsChain(tree, chain) && CacheOn(cfg, f, c, k)
    requires a < k && a < |chain| && c[a] == chain[a]
    ensures forall h :: Floor(cfg, f.nextIndexStart) <= h <= a ==> h in f.recent && f.recent[h] == chain[h]
  {
    SameHashSamePast(tree, c, chain, a);
    hide IsChain, WellFormed;
    forall h | Floor(cfg, f.nextIndexStart) <= h <= a ensures h in f.recent && f.recent[h] == chain[h] {
      assert c[h] == c[..a + 1][h] && chain[h] == chain[..a + 1][h];
    }
  }

  /** The call refuses exactly when the search would find no agreement although something is published. */
  lemma RefusesIffNoAgreement(cfg: Config, tree: Tree, f: Follower, chain: seq<Hash>)
    requires WellFormed(tree) && IsChain(tree, chain) && Inv(cfg, tree, f) && f.initialized && Comparable(cfg, f, chain)
    ensures var end := cfg.EndHeight(|chain| - 1);
            Refuses(cfg, f, chain, end)
            <==> Published(cfg, f.nextIndexStart)
                 && LastAgree(f.recent, chain, Floor(cfg, f.nextIndexStart), CheckHeight(f, end)).None?
  {
    var end := cfg.EndHeight(|chain| - 1);
    var floor := Floor(cfg, f.nextIndexStart);
    hide IsChain, WellFormed;
    var c, k: nat :| IsChain(tree, c) && CacheOn(cfg, f, c, k);
    match LastAgree(f.recent, chain, floor, CheckHeight(f, end))
    case None =>
    case Some(a) => AgreeBelow(cfg, tree, f, c, k, chain, a);
  }

  /** The search finds the true fork: below the first height to upload the cache is exactly the chain's own segment,
      and from there up to the checked height the two agree nowhere. */
  lemma TrueFork(cfg: Config, tree: Tree, f: Follower, chain: seq<Hash>)
    requires WellFormed(tree) && IsChain(tree, chain) && Inv(cfg, tree, f) && f.initialized && Comparable(cfg, f, chain)
    requires !Refuses(cfg, f, chain, cfg.EndHeight(|chain| - 1))
    ensures var end := cfg.EndHeight(|chain| - 1);
            var u := UploadFrom(cfg, f, chain, end);
            var floor := Floor(cfg, f.nextIndexStart);
            && floor <= u <= CheckHeight(f, end) + 1 && (Published(cfg, f.nextIndexStart) ==> f.nextIndexStart <= u)
            && Below(f.recent, u) == Segment(chain, floor, u)
            && (forall h :: u <= h <= CheckHeight(f, end) && h in f.recent ==> f.recent[h] != chain[h])
  {
    hide IsChain, WellFormed, Refuses;
    var end := cfg.EndHeight(|chain| - 1);
    var floor := Floor(cfg, f.nextIndexStart);
    RefusesIffNoAgreement(cfg, tree, f, chain);
    var c, k: nat :| IsChain(tree, c) && CacheOn(cfg, f, c, k);
    match LastAgree(f.recent, chain, floor, CheckHeight(f, end))
    case None =>
    case Some(a) =>
      AgreeBelow(cfg, tree, f, c, k, chain, a);
      hide LastAgree;
  }
}
