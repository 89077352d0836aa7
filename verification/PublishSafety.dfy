/** Several followers on one chain and one create-once store, each taking one store request at a time, in any order. */
module PublishSafety {
  import opened Prelude
  import opened ObjectKeys
  import opened BlockTree
  import opened Services
  import opened Ranges
  import RangeIndex

  /** The chain all nodes show a part of, the followers' settings, and the store they start from, which has no index. */
  datatype Scene = Scene(tree: Tree, chain: seq<Hash>, configs: seq<Config>, before: Objects)

  ghost predicate ValidScene(g: Scene) {
    && WellFormed(g.tree) && IsChain(g.tree, g.chain) && |g.chain| <= MAX_U64
    && (forall i :: 0 <= i < |g.configs| ==> g.configs[i].Valid())
    && (forall k :: k in g.before ==> k.Block?)
  }

  datatype Phase =
    | Resting
    | Calling(tip: nat)                       // inside a call that saw this tip
    | Ranging(tip: nat, done: set<nat>)       // going through the blocks of the next range
    | Indexing(tip: nat)                      // the range's index was not there: about to create it

  datatype Uploader = Uploader(initialized: bool, next: nat, phase: Phase)

  /** Who created an index, and the tip it had seen. */
  datatype Publication = Publication(who: nat, tip: nat)

  /** The state; publications is history. */
  datatype World = World(objects: Objects, uploaders: seq<Uploader>, publications: map<Key, Publication>)

  /** One store request of one follower, or its coming into and out of a call. Any request may fault: Leave is a call that
      fails at this point with the request not landed, or landed as a block before it; Publish without ok is an index that
      lands although its request faults, or whose follower faults before it notes it. */
  datatype Move =
    | Enter(i: nat, tip: nat)
    | Skip(i: nat)
    | Create(i: nat, h: nat)
    | Begin(i: nat)
    | Found(i: nat, h: nat)
    | Put(i: nat, h: nat)
    | HasIndex(i: nat)
    | NoIndex(i: nat)
    | Publish(i: nat, ok: bool)
    | Leave(i: nat, ok: bool)

  function Start(g: Scene): World
    requires ValidScene(g)
  {
    World(g.before, seq(|g.configs|, i requires 0 <= i < |g.configs| => Uploader(false, g.configs[i].ManagedStart(), Resting)), map[])
  }

  /** The end of the follower's next range. */
  function RangeStop(g: Scene, i: nat, u: Uploader): nat
    requires i < |g.configs|
  {
    u.next + g.configs[i].RangeSize()
  }

  predicate Fits(g: Scene, i: nat, u: Uploader) {
    i < |g.configs| && RangeStop(g, i, u) <= |g.chain|
  }

  function NextKey(g: Scene, i: nat, u: Uploader): Key
    requires i < |g.configs|
  {
    Index(g.configs[i].RangeSize(), u.next)
  }

  predicate Enabled(g: Scene, w: World, m: Move) {
    && m.i < |w.uploaders| == |g.configs|
    && var u, cfg := w.uploaders[m.i], g.configs[m.i];
       match m
       case Enter(_, tip) => u.phase.Resting? && tip < |g.chain| && cfg.fromHeight <= cfg.EndHeight(tip)
       case Skip(i) =>
         u.phase.Calling? && !u.initialized && u.next <= cfg.EndHeight(u.phase.tip) && NextKey(g, i, u) in w.objects
         && cfg.Valid() && NextRangeStart(u.next, cfg.RangeSize()).Some?
       case Create(_, h) => u.phase.Calling? && h <= cfg.EndHeight(u.phase.tip) && h < |g.chain| && g.chain[h] in g.tree
       case Begin(_) =>
         u.phase.Calling? && cfg.Valid()
         && u.next <= cfg.EndHeight(u.phase.tip) && cfg.Ready(u.next, u.phase.tip, cfg.EndHeight(u.phase.tip))
       case Found(i, h) =>
         u.phase.Ranging? && u.next <= h < RangeStop(g, i, u) && h < |g.chain| && Stored(w.objects, g.chain, h)
       case Put(i, h) => u.phase.Ranging? && u.next <= h < RangeStop(g, i, u) && h < |g.chain| && g.chain[h] in g.tree
       case HasIndex(i) => RangeDone(g, i, u) && NextKey(g, i, u) in w.objects
       case NoIndex(i) => RangeDone(g, i, u) && NextKey(g, i, u) !in w.objects
       case Publish(i, _) => u.phase.Indexing? && Fits(g, i, u)
       case Leave(_, ok) => !u.phase.Resting? && (ok ==> u.phase.Calling?)
  }

  /** Every block of the range was found or put. */
  predicate RangeDone(g: Scene, i: nat, u: Uploader)
    requires i < |g.configs|
  {
    u.phase.Ranging? && forall h :: u.next <= h < RangeStop(g, i, u) ==> h in u.phase.done
  }

  function WithBlock(g: Scene, objects: Objects, h: nat): Objects
    requires h < |g.chain| && g.chain[h] in g.tree
  {
    PutNew(objects, Block(g.chain[h]), g.tree[g.chain[h]].raw)
  }

  function Apply(g: Scene, w: World, m: Move): World
    requires Enabled(g, w, m)
  {
    var u := w.uploaders[m.i];
    match m
    case Enter(i, tip) =>
      w.(uploaders := w.uploaders[i := u.(phase := Calling(tip), next := if u.initialized then u.next else g.configs[i].ManagedStart())])
    case Skip(i) => w.(uploaders := w.uploaders[i := u.(next := RangeStop(g, i, u))])
    case Create(_, h) => w.(objects := WithBlock(g, w.objects, h))
    case Begin(i) => w.(uploaders := w.uploaders[i := u.(phase := Ranging(u.phase.tip, {}))])
    case Found(i, h) => w.(uploaders := w.uploaders[i := u.(phase := u.phase.(done := u.phase.done + {h}))])
    case Put(i, h) =>
      w.(objects := WithBlock(g, w.objects, h),
         uploaders := w.uploaders[i := u.(phase := u.phase.(done := u.phase.done + {h}))])
    case HasIndex(i) => w.(uploaders := w.uploaders[i := u.(phase := Calling(u.phase.tip), next := RangeStop(g, i, u))])
    case NoIndex(i) => w.(uploaders := w.uploaders[i := u.(phase := Indexing(u.phase.tip))])
    case Publish(i, ok) =>
      var k := NextKey(g, i, u);
      World(PutNew(w.objects, k, RangeBin(g.chain, u.next, g.configs[i].RangeSize())),
            w.uploaders[i := if ok then u.(phase := Calling(u.phase.tip), next := RangeStop(g, i, u)) else u.(phase := Resting)],
            if k in w.objects then w.publications else w.publications[k := Publication(i, u.phase.tip)])
    case Leave(i, ok) => w.(uploaders := w.uploaders[i := u.(phase := Resting, initialized := u.initialized || ok)])
  }

  // ----- what every step keeps

  ghost predicate AllStored(objects: Objects, chain: seq<Hash>, lo: nat, hi: nat) {
    hi <= |chain| && forall h :: lo <= h < hi ==> Stored(objects, chain, h)
  }

  /** An index is of a range of its creator's, which was complete below the creator's end height and stableDelay blocks
      below its tip; all blocks of the range are stored; and the index is the chain's. */
  ghost predicate RightlyPublished(g: Scene, objects: Objects, k: Key, p: Publication)
    requires k.Index? && k in objects
  {
    && p.who < |g.configs| && p.tip < |g.chain|
    && var cfg := g.configs[p.who];
       && cfg.Valid() && k.rangeSize == cfg.RangeSize()
       && k.start >= cfg.ManagedStart() && k.start % k.rangeSize == 0
       && k.start + k.rangeSize - 1 <= cfg.EndHeight(p.tip)
       && p.tip >= cfg.stableDelay && k.start + k.rangeSize - 1 <= p.tip - cfg.stableDelay
       && AllStored(objects, g.chain, k.start, k.start + k.rangeSize)
       && objects[k] == RangeBin(g.chain, k.start, k.rangeSize)
  }

  ghost predicate IndexesRight(g: Scene, objects: Objects, publications: map<Key, Publication>) {
    forall k :: k in objects && k.Index? ==> k in publications && RightlyPublished(g, objects, k, publications[k])
  }

  /** The range at hand is ready for publishing. */
  ghost predicate NextReady(g: Scene, i: nat, next: nat, tip: nat)
    requires i < |g.configs|
  {
    var cfg := g.configs[i];
    && tip < |g.chain| && cfg.Valid()
    && next + cfg.RangeSize() - 1 <= cfg.EndHeight(tip)
    && tip >= cfg.stableDelay && next + cfg.RangeSize() - 1 <= tip - cfg.stableDelay
  }

  /** What a follower relies on: its next range is aligned, the ranges it has passed are published, and what it has seen of
      the range at hand is so. */
  ghost predicate UploaderRight(g: Scene, objects: Objects, i: nat, u: Uploader)
    requires i < |g.configs|
  {
    var cfg := g.configs[i];
    && u.next >= cfg.ManagedStart() && u.next % cfg.RangeSize() == 0
    && (forall start: nat :: cfg.ManagedStart() <= start < u.next && start % cfg.RangeSize() == 0 ==>
          Index(cfg.RangeSize(), start) in objects)
    && match u.phase
       case Resting => true
       case Calling(tip) => tip < |g.chain|
       case Ranging(tip, done) => NextReady(g, i, u.next, tip) && forall h :: h in done ==> h < |g.chain| && Stored(objects, g.chain, h)
       case Indexing(tip) => NextReady(g, i, u.next, tip) && AllStored(objects, g.chain, u.next, RangeStop(g, i, u))
  }

  ghost predicate Inv(g: Scene, w: World) {
    && |w.uploaders| == |g.configs|
    && IndexesRight(g, w.objects, w.publications)
    && forall i :: 0 <= i < |w.uploaders| ==> UploaderRight(g, w.objects, i, w.uploaders[i])
  }

  lemma StartInv(g: Scene)
    requires ValidScene(g)
    ensures Inv(g, Start(g))
  {
    forall i | 0 <= i < |g.configs| ensures UploaderRight(g, g.before, i, Start(g).uploaders[i]) {
      assert g.configs[i].ManagedStart() % g.configs[i].RangeSize() == 0;
    }
    hide UploaderRight, Config.ManagedStart;
  }

  lemma AllStoredGrows(before: Objects, after: Objects, chain: seq<Hash>, lo: nat, hi: nat)
    requires AllStored(before, chain, lo, hi) && Grew(before, after)
    ensures AllStored(after, chain, lo, hi)
  {
    forall h | lo <= h < hi ensures Stored(after, chain, h) {
      assert Stored(before, chain, h);
    }
  }

  /** Nothing a growing store does can spoil what was right. */
  lemma StillRight(g: Scene, before: Objects, after: Objects, i: nat, u: Uploader)
    requires i < |g.configs| && UploaderRight(g, before, i, u) && Grew(before, after)
    ensures UploaderRight(g, after, i, u)
  {
    hide Config.ManagedStart, Config.RangeSize, NextReady, AllStored;
    if u.phase.Indexing? {
      AllStoredGrows(before, after, g.chain, u.next, RangeStop(g, i, u));
    }
  }

  lemma IndexesStillRight(g: Scene, before: Objects, after: Objects, publications: map<Key, Publication>)
    requires IndexesRight(g, before, publications) && Grew(before, after)
    requires forall k :: k in after && k !in before ==> k.Block?
    ensures IndexesRight(g, after, publications)
  {
    forall k | k in after && k.Index? ensures k in publications && RightlyPublished(g, after, k, publications[k]) {
      assert k in before && RightlyPublished(g, before, k, publications[k]);
      PublicationStaysRight(g, before, after, k, publications[k]);
    }
  }

  lemma PublicationStaysRight(g: Scene, before: Objects, after: Objects, k: Key, p: Publication)
    requires k.Index? && k in before && RightlyPublished(g, before, k, p) && Grew(before, after)
    ensures k in after && RightlyPublished(g, after, k, p)
  {
    hide RangeBin, Config.ManagedStart, Config.RangeSize, AllStored;
    AllStoredGrows(before, after, g.chain, k.start, k.start + k.rangeSize);
  }

  /** No step changes or removes an object. */
  lemma StoreGrows(g: Scene, w: World, m: Move)
    requires Enabled(g, w, m)
    ensures Grew(w.objects, Apply(g, w, m).objects)
    ensures !m.Publish? ==> forall k :: k in Apply(g, w, m).objects && k !in w.objects ==> k.Block?
    ensures !m.Publish? ==> Apply(g, w, m).publications == w.publications
  {
    hide RangeBin, Config.ManagedStart, Config.RangeSize, RangeDone;
  }

  lemma OneMoves(g: Scene, w: World, m: Move)
    requires Enabled(g, w, m)
    ensures var w' := Apply(g, w, m);
            && |w'.uploaders| == |w.uploaders|
            && forall j :: 0 <= j < |w.uploaders| && j != m.i ==> w'.uploaders[j] == w.uploaders[j]
  {
    hide RangeBin, Config.ManagedStart, Config.RangeSize, RangeDone;
  }

  /** Moving on past a range that is published. */
  lemma Advanced(g: Scene, objects: Objects, i: nat, u: Uploader, u': Uploader, tip: nat)
    requires i < |g.configs| && UploaderRight(g, objects, i, u) && NextKey(g, i, u) in objects
    requires tip < |g.chain| && u'.phase == Calling(tip) && u'.next == RangeStop(g, i, u)
    ensures UploaderRight(g, objects, i, u')
  {
    var size := g.configs[i].RangeSize();
    RangeIndex.NextMultiple(u.next, size);
    forall start: nat | u.next < start < u'.next && start % size == 0 ensures false {
      AlignedGap(u.next, start, size);
    }
    hide Config.ManagedStart, Config.RangeSize;
  }

  lemma ReadyMeans(g: Scene, i: nat, u: Uploader, tip: nat)
    requires i < |g.configs| && tip < |g.chain| <= MAX_U64 && g.configs[i].Valid()
    requires g.configs[i].Ready(u.next, tip, g.configs[i].EndHeight(tip))
    ensures NextReady(g, i, u.next, tip) && Fits(g, i, u)
  {
    hide Config.ManagedStart, Config.RangeSize;
  }

  lemma BlockCreated(g: Scene, objects: Objects, h: nat)
    requires h < |g.chain| && g.chain[h] in g.tree
    ensures Stored(WithBlock(g, objects, h), g.chain, h) && Grew(objects, WithBlock(g, objects, h))
  {
  }

  lemma NextFits(g: Scene, i: nat, u: Uploader, tip: nat)
    requires i < |g.configs| && NextReady(g, i, u.next, tip)
    ensures RangeStop(g, i, u) <= |g.chain|
  {
    hide Config.ManagedStart, Config.RangeSize;
  }

  /** Creating the index of a range whose blocks are all stored. */
  lemma PublishIsRight(g: Scene, w: World, i: nat, ok: bool)
    requires ValidScene(g) && Inv(g, w) && Enabled(g, w, Publish(i, ok))
    ensures var w' := Apply(g, w, Publish(i, ok)); IndexesRight(g, w'.objects, w'.publications)
  {
    hide UploaderRight, IndexesRight, RangeBin, Config.ManagedStart, Config.RangeSize;
    var u := w.uploaders[i];
    assert UploaderRight(g, w.objects, i, u);
    if NextKey(g, i, u) !in w.objects {
      NewIndexRight(g, w.objects, i, u, u.phase.tip);
      AddedIndex(g, w.objects, w.publications, NextKey(g, i, u), RangeBin(g.chain, u.next, g.configs[i].RangeSize()),
                 Publication(i, u.phase.tip));
    }
  }

  lemma NewIndexRight(g: Scene, objects: Objects, i: nat, u: Uploader, tip: nat)
    requires i < |g.configs| && UploaderRight(g, objects, i, u) && u.phase == Indexing(tip) && NextKey(g, i, u) !in objects
    requires Fits(g, i, u)
    ensures var k := NextKey(g, i, u);
            RightlyPublished(g, PutNew(objects, k, RangeBin(g.chain, u.next, g.configs[i].RangeSize())), k, Publication(i, tip))
  {
    hide RangeBin, Config.ManagedStart, Config.RangeSize, AllStored;
    var k := NextKey(g, i, u);
    AllStoredGrows(objects, PutNew(objects, k, RangeBin(g.chain, u.next, g.configs[i].RangeSize())), g.chain, u.next, RangeStop(g, i, u));
  }

  lemma AddedIndex(g: Scene, objects: Objects, publications: map<Key, Publication>, k: Key, data: Bytes, p: Publication)
    requires IndexesRight(g, objects, publications) && k.Index? && k !in objects
    requires RightlyPublished(g, PutNew(objects, k, data), k, p)
    ensures IndexesRight(g, PutNew(objects, k, data), publications[k := p])
  {
    hide RightlyPublished;
    var after := PutNew(objects, k, data);
    forall k' | k' in after && k'.Index? && k' != k ensures RightlyPublished(g, after, k', publications[k']) {
      PublicationStaysRight(g, objects, after, k', publications[k']);
    }
  }

  predicate Advances(m: Move) {
    m.Skip? || m.HasIndex? || (m.Publish? && m.ok)
  }

  lemma AdvanceRight(g: Scene, w: World, m: Move)
    requires Inv(g, w) && Enabled(g, w, m) && Advances(m)
    ensures var w' := Apply(g, w, m); UploaderRight(g, w'.objects, m.i, w'.uploaders[m.i])
  {
    hide UploaderRight, Config.ManagedStart, Config.RangeSize, IndexesRight, RangeBin, Config.EndHeight;
    var w', u := Apply(g, w, m), w.uploaders[m.i];
    StoreGrows(g, w, m);
    StillRight(g, w.objects, w'.objects, m.i, u);
    TipShown(g, w.objects, m.i, u);
    Advanced(g, w'.objects, m.i, u, w'.uploaders[m.i], u.phase.tip);
  }

  lemma TipShown(g: Scene, objects: Objects, i: nat, u: Uploader)
    requires i < |g.configs| && UploaderRight(g, objects, i, u) && !u.phase.Resting?
    ensures u.phase.tip < |g.chain|
    ensures !u.phase.Calling? ==> Fits(g, i, u)
  {
    hide Config.ManagedStart, Config.RangeSize;
  }

  /** The follower that moved still has it right. */
  lemma MoverRight(g: Scene, w: World, m: Move)
    requires ValidScene(g) && Inv(g, w) && Enabled(g, w, m)
    ensures var w' := Apply(g, w, m); UploaderRight(g, w'.objects, m.i, w'.uploaders[m.i])
  {
    if Advances(m) {
      AdvanceRight(g, w, m);
    } else {
      StoreGrows(g, w, m);
      StillRight(g, w.objects, Apply(g, w, m).objects, m.i, w.uploaders[m.i]);
      InCallRight(g, w, m);
    }
  }

  lemma InCallRight(g: Scene, w: World, m: Move)
    requires ValidScene(g) && Enabled(g, w, m) && !Advances(m)
    requires UploaderRight(g, Apply(g, w, m).objects, m.i, w.uploaders[m.i])
    ensures var w' := Apply(g, w, m); UploaderRight(g, w'.objects, m.i, w'.uploaders[m.i])
  {
    hide UploaderRight, Config.ManagedStart, Config.RangeSize, IndexesRight, RangeBin, Config.EndHeight, AllStored,
      NextReady;
    var w', u := Apply(g, w, m), w.uploaders[m.i];
    var u' := w'.uploaders[m.i];
    match m
    case Enter(i, tip) => EntersRight(g, w'.objects, i, u, u', tip);
    case Begin(i) => BeginsRight(g, w'.objects, i, u, u');
    case Found(i, h) => SeesRight(g, w'.objects, i, u, u', h);
    case Put(i, h) =>
      BlockCreated(g, w.objects, h);
      SeesRight(g, w'.objects, i, u, u', h);
    case NoIndex(i) => IndexingRight(g, w'.objects, i, u, u');
    case Create(_, _) =>
    case Publish(i, _) => RestsRight(g, w'.objects, i, u, u');
    case Leave(i, _) => RestsRight(g, w'.objects, i, u, u');
  }

  lemma EntersRight(g: Scene, objects: Objects, i: nat, u: Uploader, u': Uploader, tip: nat)
    requires i < |g.configs| && UploaderRight(g, objects, i, u) && tip < |g.chain| && u'.phase == Calling(tip)
    requires u'.next == if u.initialized then u.next else g.configs[i].ManagedStart()
    ensures UploaderRight(g, objects, i, u')
  {
    hide Config.ManagedStart, Config.RangeSize;
    ManagedIsAligned(g.configs[i]);
  }

  lemma BeginsRight(g: Scene, objects: Objects, i: nat, u: Uploader, u': Uploader)
    requires i < |g.configs| && UploaderRight(g, objects, i, u) && u.phase.Calling? && |g.chain| <= MAX_U64
    requires g.configs[i].Valid() && g.configs[i].Ready(u.next, u.phase.tip, g.configs[i].EndHeight(u.phase.tip))
    requires u'.next == u.next && u'.phase == Ranging(u.phase.tip, {})
    ensures UploaderRight(g, objects, i, u')
  {
    hide Config.ManagedStart, Config.RangeSize, NextReady;
    ReadyMeans(g, i, u, u.phase.tip);
  }

  lemma SeesRight(g: Scene, objects: Objects, i: nat, u: Uploader, u': Uploader, h: nat)
    requires i < |g.configs| && UploaderRight(g, objects, i, u) && u.phase.Ranging?
    requires h < |g.chain| && Stored(objects, g.chain, h)
    requires u'.next == u.next && u'.phase == Ranging(u.phase.tip, u.phase.done + {h})
    ensures UploaderRight(g, objects, i, u')
  {
    hide Config.ManagedStart, Config.RangeSize, NextReady;
  }

  lemma IndexingRight(g: Scene, objects: Objects, i: nat, u: Uploader, u': Uploader)
    requires i < |g.configs| && UploaderRight(g, objects, i, u) && RangeDone(g, i, u)
    requires u'.next == u.next && u'.phase == Indexing(u.phase.tip)
    ensures UploaderRight(g, objects, i, u')
  {
    hide Config.ManagedStart, Config.RangeSize, NextReady, AllStored, RangeDone;
    DoneIsRanging(g, i, u);
    NextFits(g, i, u, u.phase.tip);
    DoneIsStored(g, objects, i, u);
  }

  lemma DoneIsRanging(g: Scene, i: nat, u: Uploader)
    requires i < |g.configs| && RangeDone(g, i, u)
    ensures u.phase.Ranging?
  {
  }

  lemma RestsRight(g: Scene, objects: Objects, i: nat, u: Uploader, u': Uploader)
    requires i < |g.configs| && UploaderRight(g, objects, i, u) && u'.next == u.next && u'.phase.Resting?
    ensures UploaderRight(g, objects, i, u')
  {
    hide Config.ManagedStart, Config.RangeSize;
  }

  lemma DoneIsStored(g: Scene, objects: Objects, i: nat, u: Uploader)
    requires Fits(g, i, u) && UploaderRight(g, objects, i, u) && RangeDone(g, i, u)
    ensures AllStored(objects, g.chain, u.next, RangeStop(g, i, u))
  {
    hide Config.ManagedStart, Config.RangeSize, NextReady;
    forall h | u.next <= h < RangeStop(g, i, u) ensures Stored(objects, g.chain, h) {
      assert h in u.phase.done;
    }
  }

  lemma ManagedIsAligned(cfg: Config)
    ensures cfg.ManagedStart() % cfg.RangeSize() == 0
  {
  }

  lemma InvKept(g: Scene, w: World, m: Move)
    requires ValidScene(g) && Inv(g, w) && Enabled(g, w, m)
    ensures Inv(g, Apply(g, w, m))
  {
    hide IndexesRight, UploaderRight, Apply, Enabled;
    var w' := Apply(g, w, m);
    StoreGrows(g, w, m);
    OneMoves(g, w, m);
    MoverRight(g, w, m);
    forall i | 0 <= i < |w'.uploaders| ensures UploaderRight(g, w'.objects, i, w'.uploaders[i]) {
      if i != m.i {
        StillRight(g, w.objects, w'.objects, i, w.uploaders[i]);
      }
    }
    if m.Publish? {
      PublishIsRight(g, w, m.i, m.ok);
    } else {
      IndexesStillRight(g, w.objects, w'.objects, w.publications);
    }
  }

  // ----- whole runs

  ghost predicate IsRun(g: Scene, w: World, moves: seq<Move>)
    decreases |moves|
  {
    moves == [] || (Enabled(g, w, moves[0]) && IsRun(g, Apply(g, w, moves[0]), moves[1..]))
  }

  ghost function RunEnd(g: Scene, w: World, moves: seq<Move>): World
    requires IsRun(g, w, moves)
    decreases |moves|
  {
    if moves == [] then w else RunEnd(g, Apply(g, w, moves[0]), moves[1..])
  }

  lemma {:induction false} RunInv(g: Scene, w: World, moves: seq<Move>)
    requires ValidScene(g) && Inv(g, w) && IsRun(g, w, moves)
    ensures Inv(g, RunEnd(g, w, moves)) && Grew(w.objects, RunEnd(g, w, moves).objects)
    decreases |moves|
  {
    hide Inv, Apply, Enabled, Grew;
    if moves == [] {
      GrewReflexive(w.objects);
    } else {
      InvKept(g, w, moves[0]);
      StoreGrows(g, w, moves[0]);
      var next := Apply(g, w, moves[0]);
      RunInv(g, next, moves[1..]);
      GrewTransitive(w.objects, next.objects, RunEnd(g, next, moves[1..]).objects);
    }
  }

  /** In every reachable state each index is of a range that was ready for its creator, has all of its blocks in the store,
      and answers with the chain's hash at each height of the range; and every range that some follower has passed has one. */
  lemma PublishingIsSafe(g: Scene, moves: seq<Move>)
    requires ValidScene(g) && IsRun(g, Start(g), moves)
    ensures var w := RunEnd(g, Start(g), moves);
            && (forall k :: k in w.objects && k.Index? ==>
                  k in w.publications && RightlyPublished(g, w.objects, k, w.publications[k]))
            && |w.uploaders| == |g.configs|
            && (forall i, start: nat ::
                  (&& 0 <= i < |w.uploaders| && g.configs[i].ManagedStart() <= start < w.uploaders[i].next
                   && start % g.configs[i].RangeSize() == 0)
                  ==> Index(g.configs[i].RangeSize(), start) in w.objects)
  {
    StartInv(g);
    RunInv(g, Start(g), moves);
    var w := RunEnd(g, Start(g), moves);
    assert forall i :: 0 <= i < |w.uploaders| ==> UploaderRight(g, w.objects, i, w.uploaders[i]);
    hide ValidScene, IsRun, RightlyPublished, Config.ManagedStart, Config.RangeSize;
  }

  lemma PublishedAnswersRight(g: Scene, moves: seq<Move>, rangeSize: nat, start: nat, h: nat)
    requires ValidScene(g) && IsRun(g, Start(g), moves) && start <= h < start + rangeSize
    requires Index(rangeSize, start) in RunEnd(g, Start(g), moves).objects
    ensures start + rangeSize <= |g.chain|
    ensures var objects := RunEnd(g, Start(g), moves).objects;
            && RangeIndex.HashAt(objects[Index(rangeSize, start)], start, h, rangeSize) == Success(g.chain[h])
            && Stored(objects, g.chain, h)
  {
    hide ValidScene, IsRun, RangeBin, Config.ManagedStart, Config.RangeSize, Start;
    PublishingIsSafe(g, moves);
    SceneShows(g);
    RangeBinAnswers(g.tree, g.chain, start, rangeSize, h);
  }

  lemma SceneShows(g: Scene)
    requires ValidScene(g)
    ensures WellFormed(g.tree) && IsChain(g.tree, g.chain)
  {
  }

  /** Whatever is in the store at some point of a run is in it unchanged at every later point. */
  lemma ObjectsNeverChange(g: Scene, moves: seq<Move>, later: seq<Move>)
    requires ValidScene(g) && IsRun(g, Start(g), moves) && IsRun(g, RunEnd(g, Start(g), moves), later)
    ensures Grew(RunEnd(g, Start(g), moves).objects, RunEnd(g, RunEnd(g, Start(g), moves), later).objects)
  {
    hide *;
    StartInv(g);
    RunInv(g, Start(g), moves);
    RunInv(g, RunEnd(g, Start(g), moves), later);
  }
}
