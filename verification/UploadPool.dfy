/** The error-cancelling worker pool that uploads a span of heights, as a step relation over its goroutines.
    Heights travel over an unbuffered channel, the first error takes the single error slot, and only then does
    its worker cancel the context that the others share. */
module UploadPool {
  import opened Prelude
  import opened ObjectKeys
  import opened BlockTree
  import opened Services
  import Tally

  /** One call: the span, the chain it is read from, and the store before the call. */
  datatype Job = Job(tree: Tree, chain: seq<Hash>, from: nat, tip: nat, before: Objects)

  ghost predicate ValidJob(j: Job) {
    IsChain(j.tree, j.chain) && j.from <= j.tip < |j.chain|
  }

  /** Own: the upload failed by itself. Induced: it failed because the shared context was cancelled. */
  datatype Cause = Own | Induced

  datatype PoolError = Worker(cause: Cause) | ContextDone

  datatype Worker =
    | Idle
    | Head(height: nat)        // asking whether the block is stored
    | Put(height: nat)         // it is not: fetching and storing it
    | Failed(cause: Cause)     // about to offer the error
    | Cancelling               // took the error slot, about to cancel
    | Exited

  datatype Phase = Sending | Closed(aborted: bool) | Returned(result: Result<nat, PoolError>)

  /** The program state; the last five fields are history. */
  datatype Pool = Pool(
    phase: Phase,
    next: nat,
    workers: seq<Worker>,
    objects: Objects,
    uploaded: nat,
    errs: Option<Cause>,
    cancelled: bool,
    outer: bool,
    holder: map<nat, nat>,   // which worker holds a height
    processed: set<nat>,       // heights whose upload succeeded
    completions: nat,          // how many uploads succeeded
    lost: set<nat>,            // heights whose upload failed
    landed: set<nat>)          // heights whose object this call created

  datatype Move =
    | Dispatch(w: nat)
    | Abort
    | HeadFound(w: nat)
    | HeadMissing(w: nat)
    | PutDone(w: nat)
    | Fail(w: nat, cause: Cause, landing: bool)
    | Report(w: nat)
    | Cancel(w: nat)
    | Leave(w: nat)
    | Return
    | OuterCancel

  function Start(j: Job, workers: nat): Pool {
    Pool(Sending, j.from, seq(workers, _ => Idle), j.before, 0, None, false, false, map[], {}, 0, {}, {})
  }

  predicate AllExited(s: Pool) {
    forall w :: 0 <= w < |s.workers| ==> s.workers[w].Exited?
  }

  predicate Holds(s: Pool, w: nat) {
    w < |s.workers| && (s.workers[w].Head? || s.workers[w].Put?)
  }

  predicate InSpan(j: Job, h: nat) {
    j.from <= h <= j.tip && h < |j.chain| && j.chain[h] in j.tree
  }

  predicate Enabled(j: Job, s: Pool, m: Move) {
    match m
    case Dispatch(w) => s.phase.Sending? && w < |s.workers| && s.workers[w].Idle?
    case Abort => s.phase.Sending? && (s.cancelled || s.outer)
    case HeadFound(w) => w < |s.workers| && s.workers[w].Head? && InSpan(j, s.workers[w].height)
                         && Stored(s.objects, j.chain, s.workers[w].height)
    case HeadMissing(w) => w < |s.workers| && s.workers[w].Head? && InSpan(j, s.workers[w].height)
                           && !Stored(s.objects, j.chain, s.workers[w].height)
    case PutDone(w) => w < |s.workers| && s.workers[w].Put? && InSpan(j, s.workers[w].height)
    case Fail(w, cause, landing) => Holds(s, w) && InSpan(j, s.workers[w].height)
                                    && (cause.Induced? ==> s.cancelled || s.outer)
                                    && (landing ==> s.workers[w].Put?)
    case Report(w) => w < |s.workers| && s.workers[w].Failed?
    case Cancel(w) => w < |s.workers| && s.workers[w].Cancelling?
    case Leave(w) => w < |s.workers| && s.workers[w].Idle? && !s.phase.Sending?
    case Return => s.phase.Closed? && AllExited(s)
    case OuterCancel => !s.outer && !s.phase.Returned?
  }

  function Land(j: Job, s: Pool, h: nat): Pool
    requires InSpan(j, h)
  {
    s.(objects := PutNew(s.objects, Block(j.chain[h]), j.tree[j.chain[h]].raw),
       landed := if Stored(s.objects, j.chain, h) then s.landed else s.landed + {h})
  }

  /** A worker is done with its height, for better or worse. */
  function Release(s: Pool, w: nat, ok: bool, become: Worker): Pool
    requires Holds(s, w)
  {
    var h := s.workers[w].height;
    s.(workers := s.workers[w := become],
       holder := s.holder - {h},
       processed := if ok then s.processed + {h} else s.processed,
       completions := if ok then s.completions + 1 else s.completions,
       lost := if ok then s.lost else s.lost + {h})
  }

  function Apply(j: Job, s: Pool, m: Move): Pool
    requires Enabled(j, s, m)
  {
    match m
    case Dispatch(w) =>
      s.(workers := s.workers[w := Head(s.next)],
         holder := s.holder[s.next := w],
         next := s.next + 1,
         phase := if s.next == j.tip then Closed(false) else Sending)
    case Abort => s.(phase := Closed(true))
    case HeadFound(w) => Release(s, w, true, Idle)
    case HeadMissing(w) => s.(workers := s.workers[w := Put(s.workers[w].height)])
    case PutDone(w) =>
      var s1 := Land(j, s, s.workers[w].height);
      Release(s1, w, true, Idle).(uploaded := s.uploaded + 1)
    case Fail(w, cause, landing) =>
      Release(if landing then Land(j, s, s.workers[w].height) else s, w, false, Failed(cause))
    case Report(w) =>
      if s.errs.None? then s.(errs := Some(s.workers[w].cause), workers := s.workers[w := Cancelling])
      else s.(workers := s.workers[w := Exited])
    case Cancel(w) => s.(cancelled := true, workers := s.workers[w := Exited])
    case Leave(w) => s.(workers := s.workers[w := Exited])
    case Return =>
      s.(phase := Returned(
           if s.errs.Some? then Failure(Worker(s.errs.value))
           else if s.phase.aborted then Failure(ContextDone)
           else Success(s.uploaded)))
    case OuterCancel => s.(outer := true)
  }

  // ----- what every step keeps

  /** Every dispatched height is held by exactly one worker, processed, or lost, and never two of these. */
  ghost predicate Accounted(j: Job, s: Pool) {
    && j.from <= s.next <= j.tip + 1
    && (s.phase.Sending? ==> s.next <= j.tip)
    && (s.phase == Closed(false) ==> s.next == j.tip + 1)
    && (forall h :: j.from <= h < s.next <==> h in s.holder || h in s.processed || h in s.lost)
    && s.processed !! s.lost
    && (forall h :: h in s.holder ==> h !in s.processed && h !in s.lost)
    && (forall h :: h in s.holder ==> Holds(s, s.holder[h]) && s.workers[s.holder[h]].height == h)
    && (forall w: nat :: Holds(s, w) ==> s.workers[w].height in s.holder && s.holder[s.workers[w].height] == w)
    && |s.processed| == s.completions
  }

  function LandedKeys(j: Job, landed: set<nat>): set<Key> {
    set h | h in landed && InSpan(j, h) :: Block(j.chain[h])
  }

  /** The store before the call plus the blocks at some heights. */
  function WithLanded(j: Job, landed: set<nat>): Objects {
    map k | k in j.before.Keys + LandedKeys(j, landed) :: if k in j.before then j.before[k] else j.tree[k.hash].raw
  }

  /** The store is the store before the call plus the blocks this call created; a processed height is in it. */
  ghost predicate StoreAgrees(j: Job, objects: Objects, landed: set<nat>, processed: set<nat>, lost: set<nat>) {
    && (forall h :: h in processed || h in lost || h in landed ==> InSpan(j, h))
    && (forall h :: h in landed ==> (h in processed || h in lost) && !Stored(j.before, j.chain, h))
    && (forall h :: h in processed ==> h in landed || Stored(j.before, j.chain, h))
    && objects == WithLanded(j, landed)
  }

  /** Each created object is counted once in the growth, and once in the reported number if its upload succeeded. */
  ghost predicate CountsAgree(j: Job, s: Pool) {
    && |s.objects| == |j.before| + |s.landed|
    && s.uploaded == |s.landed * s.processed|
  }

  /** A worker only puts a block that was not in the store before the call. */
  ghost predicate PutsFresh(j: Job, workers: seq<Worker>) {
    forall w :: 0 <= w < |workers| && workers[w].Put? ==>
      InSpan(j, workers[w].height) && !Stored(j.before, j.chain, workers[w].height)
  }

  ghost predicate SomeFailed(s: Pool) {
    exists w :: 0 <= w < |s.workers| && s.workers[w].Failed?
  }

  ghost predicate SomeCancelling(s: Pool) {
    exists w :: 0 <= w < |s.workers| && s.workers[w].Cancelling?
  }

  /** Errors: the slot is filled before anything is cancelled, and a worker leaves early only after that. */
  ghost predicate ErrorsAgree(s: Pool) {
    && (s.lost != {} ==> s.errs.Some? || SomeFailed(s))
    && (s.cancelled ==> s.errs.Some?)
    && (forall w :: 0 <= w < |s.workers| && s.workers[w].Cancelling? ==> s.errs.Some?)
    && (s.errs.Some? ==> s.cancelled || SomeCancelling(s))
    && (s.phase.Sending? ==> forall w :: 0 <= w < |s.workers| && s.workers[w].Exited? ==> s.errs.Some?)
    && (!s.outer ==> s.errs != Some(Induced))
    && (!s.outer ==> forall w :: 0 <= w < |s.workers| && s.workers[w] == Failed(Induced) ==> s.errs.Some?)
    && (s.phase == Closed(true) ==> s.cancelled || s.outer)
  }

  /** A result says what happened: see PoolSuccess and PoolFailure. */
  ghost predicate ResultAgrees(j: Job, s: Pool) {
    s.phase.Returned? ==>
      && AllExited(s)
      && match s.phase.result
         case Success(n) => s.errs.None? && s.next == j.tip + 1 && n == s.uploaded
         case Failure(Worker(c)) => s.errs == Some(c)
         case Failure(ContextDone) => s.errs.None? && s.outer
  }

  ghost predicate Inv(j: Job, s: Pool) {
    && Accounted(j, s)
    && StoreAgrees(j, s.objects, s.landed, s.processed, s.lost)
    && CountsAgree(j, s)
    && PutsFresh(j, s.workers)
    && ErrorsAgree(s)
    && ResultAgrees(j, s)
  }

  lemma StartInv(j: Job, workers: nat)
    requires ValidJob(j)
    ensures Inv(j, Start(j, workers))
  {
  }

  ghost predicate SameHolders(s: Pool, t: Pool) {
    && |t.workers| == |s.workers|
    && (forall w: nat :: Holds(t, w) <==> Holds(s, w))
    && (forall w: nat :: Holds(t, w) ==> t.workers[w].height == s.workers[w].height)
  }

  lemma QuietAccounted(j: Job, s: Pool, t: Pool)
    requires Accounted(j, s) && SameHolders(s, t)
    requires t.holder == s.holder && t.processed == s.processed && t.completions == s.completions
    requires t.lost == s.lost && t.next == s.next
    requires (t.phase.Sending? ==> s.phase.Sending?) && (t.phase == Closed(false) ==> s.phase == Closed(false))
    ensures Accounted(j, t)
  {
  }

  lemma ReleaseAccounted(j: Job, s: Pool, w: nat, ok: bool, become: Worker)
    requires Accounted(j, s) && Holds(s, w) && !become.Head? && !become.Put?
    ensures Accounted(j, Release(s, w, ok, become))
  {
    var s', h := Release(s, w, ok, become), s.workers[w].height;
    assert h in s.holder && s.holder[h] == w;
    forall h' | h' in s'.holder ensures Holds(s', s'.holder[h']) && s'.workers[s'.holder[h']].height == h' {
      assert s.holder[h'] != w;
    }
  }

  lemma DispatchAccounted(j: Job, s: Pool, w: nat)
    requires Accounted(j, s) && Enabled(j, s, Dispatch(w))
    ensures Accounted(j, Apply(j, s, Dispatch(w)))
  {
  }

  predicate Quiet(m: Move) {
    m.Abort? || m.HeadMissing? || m.Report? || m.Cancel? || m.Leave? || m.Return? || m.OuterCancel?
  }

  lemma QuietMoves(j: Job, s: Pool, m: Move)
    requires Enabled(j, s, m) && Quiet(m)
    ensures SameHolders(s, Apply(j, s, m))
  {
  }

  lemma AccountedKept(j: Job, s: Pool, m: Move)
    requires Accounted(j, s) && Enabled(j, s, m)
    ensures Accounted(j, Apply(j, s, m))
  {
    hide Accounted, SameHolders;
    if Quiet(m) {
      QuietMoves(j, s, m);
      QuietAccounted(j, s, Apply(j, s, m));
    } else {
      match m
      case Dispatch(w) => DispatchAccounted(j, s, w);
      case HeadFound(w) => ReleaseAccounted(j, s, w, true, Idle);
      case PutDone(w) => FinishAccounted(j, s, w, true, true, Idle, Apply(j, s, m));
      case Fail(w, cause, landing) => FinishAccounted(j, s, w, landing, false, Failed(cause), Apply(j, s, m));
    }
  }

  lemma FinishAccounted(j: Job, s: Pool, w: nat, landing: bool, ok: bool, become: Worker, t: Pool)
    requires Accounted(j, s) && Holds(s, w) && InSpan(j, s.workers[w].height) && !become.Head? && !become.Put?
    requires t == Release(if landing then Land(j, s, s.workers[w].height) else s, w, ok, become).(uploaded := t.uploaded)
    ensures Accounted(j, t)
  {
    var s1 := if landing then Land(j, s, s.workers[w].height) else s;
    QuietAccounted(j, s, s1);
    ReleaseAccounted(j, s1, w, ok, become);
    QuietAccounted(j, Release(s1, w, ok, become), t);
  }

  lemma LandedKeysNext(j: Job, landed: set<nat>, h: nat)
    requires InSpan(j, h)
    ensures LandedKeys(j, landed + {h}) == LandedKeys(j, landed) + {Block(j.chain[h])}
  {
    forall k | k in LandedKeys(j, landed + {h}) ensures k in LandedKeys(j, landed) + {Block(j.chain[h])} {
      var i :| i in landed + {h} && InSpan(j, i) && k == Block(j.chain[i]);
    }
    assert h in landed + {h};
  }

  lemma LandedKeyFresh(j: Job, landed: set<nat>, h: nat)
    requires ValidJob(j) && InSpan(j, h) && h !in landed
    ensures Block(j.chain[h]) !in LandedKeys(j, landed)
  {
  }

  lemma WithLandedNext(j: Job, landed: set<nat>, h: nat)
    requires ValidJob(j) && InSpan(j, h) && h !in landed
    ensures Stored(WithLanded(j, landed), j.chain, h) <==> Stored(j.before, j.chain, h)
    ensures !Stored(j.before, j.chain, h) ==>
              WithLanded(j, landed + {h}) == PutNew(WithLanded(j, landed), Block(j.chain[h]), j.tree[j.chain[h]].raw)
  {
    LandedKeysNext(j, landed, h);
    LandedKeyFresh(j, landed, h);
  }

  lemma LandStore(j: Job, objects: Objects, landed: set<nat>, processed: set<nat>, lost: set<nat>, h: nat, ok: bool)
    requires ValidJob(j) && StoreAgrees(j, objects, landed, processed, lost)
    requires InSpan(j, h) && !Stored(j.before, j.chain, h) && h !in processed && h !in lost
    ensures h !in landed && !Stored(objects, j.chain, h)
    ensures StoreAgrees(j, PutNew(objects, Block(j.chain[h]), j.tree[j.chain[h]].raw), landed + {h},
                        if ok then processed + {h} else processed, if ok then lost else lost + {h})
  {
    WithLandedNext(j, landed, h);
    hide WithLanded;
  }

  lemma FoundStore(j: Job, objects: Objects, landed: set<nat>, processed: set<nat>, lost: set<nat>, h: nat, ok: bool)
    requires ValidJob(j) && StoreAgrees(j, objects, landed, processed, lost)
    requires InSpan(j, h) && h !in processed && h !in lost && (ok ==> Stored(objects, j.chain, h))
    ensures h !in landed
    ensures StoreAgrees(j, objects, landed, if ok then processed + {h} else processed, if ok then lost else lost + {h})
  {
    WithLandedNext(j, landed, h);
    hide WithLanded;
  }

  /** A height that a worker holds is neither processed nor lost. */
  lemma HeldIsOpen(j: Job, s: Pool, w: nat)
    requires Accounted(j, s) && Holds(s, w)
    ensures var h := s.workers[w].height; h !in s.processed && h !in s.lost
  {
    assert s.workers[w].height in s.holder;
  }

  lemma PutIsFresh(j: Job, workers: seq<Worker>, w: nat)
    requires PutsFresh(j, workers) && w < |workers| && workers[w].Put?
    ensures InSpan(j, workers[w].height) && !Stored(j.before, j.chain, workers[w].height)
  {
  }

  /** The step's effect on the store, the heights and the counter, for each way a worker can finish. */
  lemma FinishKept(j: Job, s: Pool, t: Pool, w: nat, landing: bool, ok: bool)
    requires ValidJob(j) && Accounted(j, s) && PutsFresh(j, s.workers) && Holds(s, w) && InSpan(j, s.workers[w].height)
    requires StoreAgrees(j, s.objects, s.landed, s.processed, s.lost) && CountsAgree(j, s)
    requires var h := s.workers[w].height;
             && (landing ==> s.workers[w].Put?)
             && (ok && !landing ==> Stored(s.objects, j.chain, h))
             && t.objects == (if landing then Land(j, s, h) else s).objects
             && t.landed == (if landing then Land(j, s, h) else s).landed
             && t.processed == (if ok then s.processed + {h} else s.processed)
             && t.lost == (if ok then s.lost else s.lost + {h})
             && t.uploaded == (if landing && ok then s.uploaded + 1 else s.uploaded)
    ensures StoreAgrees(j, t.objects, t.landed, t.processed, t.lost) && CountsAgree(j, t)
  {
    hide Accounted, StoreAgrees, WithLanded, ValidJob, PutsFresh, PutNew;
    var h := s.workers[w].height;
    HeldIsOpen(j, s, w);
    if landing {
      PutIsFresh(j, s.workers, w);
      LandStore(j, s.objects, s.landed, s.processed, s.lost, h, ok);
      CountLanded(s, t, Block(j.chain[h]), j.tree[j.chain[h]].raw, h, ok);
    } else {
      FoundStore(j, s.objects, s.landed, s.processed, s.lost, h, ok);
      assert s.landed * (s.processed + {h}) == s.landed * s.processed;
    }
  }

  lemma CountLanded(s: Pool, t: Pool, k: Key, data: Bytes, h: nat, ok: bool)
    requires h !in s.landed && h !in s.processed && k !in s.objects
    requires t.objects == PutNew(s.objects, k, data) && t.landed == s.landed + {h}
    requires t.processed == if ok then s.processed + {h} else s.processed
    ensures |t.objects| == |s.objects| + 1 && |t.landed| == |s.landed| + 1
    ensures |t.landed * t.processed| == |s.landed * s.processed| + if ok then 1 else 0
  {
    hide PutNew;
    PutNewGrowth(s.objects, k, data);
    assert (s.landed + {h}) * s.processed == s.landed * s.processed;
    assert (s.landed + {h}) * (s.processed + {h}) == s.landed * s.processed + {h};
  }

  /** The parts of the invariant that a worker's finishing concerns. */
  ghost predicate StoreInv(j: Job, s: Pool) {
    StoreAgrees(j, s.objects, s.landed, s.processed, s.lost) && CountsAgree(j, s)
  }

  lemma FoundKept(j: Job, s: Pool, w: nat)
    requires ValidJob(j) && Accounted(j, s) && PutsFresh(j, s.workers) && StoreInv(j, s) && Enabled(j, s, HeadFound(w))
    ensures StoreInv(j, Apply(j, s, HeadFound(w)))
  {
    hide StoreAgrees, CountsAgree, Accounted, PutsFresh, ValidJob, PutNew;
    FinishKept(j, s, Apply(j, s, HeadFound(w)), w, false, true);
  }

  lemma PutKept(j: Job, s: Pool, w: nat)
    requires ValidJob(j) && Accounted(j, s) && PutsFresh(j, s.workers) && StoreInv(j, s) && Enabled(j, s, PutDone(w))
    ensures StoreInv(j, Apply(j, s, PutDone(w)))
  {
    hide StoreAgrees, CountsAgree, Accounted, PutsFresh, ValidJob, PutNew;
    FinishKept(j, s, Apply(j, s, PutDone(w)), w, true, true);
  }

  lemma FailKept(j: Job, s: Pool, w: nat, cause: Cause, landing: bool)
    requires ValidJob(j) && Accounted(j, s) && PutsFresh(j, s.workers) && StoreInv(j, s)
    requires Enabled(j, s, Fail(w, cause, landing))
    ensures StoreInv(j, Apply(j, s, Fail(w, cause, landing)))
  {
    hide StoreAgrees, CountsAgree, Accounted, PutsFresh, ValidJob, PutNew;
    FinishKept(j, s, Apply(j, s, Fail(w, cause, landing)), w, landing, false);
  }

  lemma StoreKept(j: Job, s: Pool, m: Move)
    requires ValidJob(j) && Accounted(j, s) && PutsFresh(j, s.workers) && Enabled(j, s, m)
    requires StoreAgrees(j, s.objects, s.landed, s.processed, s.lost) && CountsAgree(j, s)
    ensures var t := Apply(j, s, m); StoreAgrees(j, t.objects, t.landed, t.processed, t.lost) && CountsAgree(j, t)
  {
    hide StoreAgrees, CountsAgree, Accounted, PutsFresh, ValidJob, Apply, Enabled;
    match m
    case HeadFound(w) => FoundKept(j, s, w);
    case PutDone(w) => PutKept(j, s, w);
    case Fail(w, cause, landing) => FailKept(j, s, w, cause, landing);
    case _ =>
      QuietStore(j, s, m);
      QuietCounts(j, s, Apply(j, s, m));
  }

  lemma QuietStore(j: Job, s: Pool, m: Move)
    requires Enabled(j, s, m) && !m.HeadFound? && !m.PutDone? && !m.Fail?
    ensures var t := Apply(j, s, m);
            && t.objects == s.objects && t.landed == s.landed && t.processed == s.processed && t.lost == s.lost
            && t.uploaded == s.uploaded
  {
    hide Stored;
  }

  lemma QuietCounts(j: Job, s: Pool, t: Pool)
    requires CountsAgree(j, s) && t.objects == s.objects && t.landed == s.landed && t.processed == s.processed
    requires t.uploaded == s.uploaded
    ensures CountsAgree(j, t)
  {
  }

  predicate OfWorker(m: Move) {
    !m.Abort? && !m.Return? && !m.OuterCancel?
  }

  /** A step changes one worker at most. */
  lemma OneWorkerMoves(j: Job, s: Pool, m: Move)
    requires Enabled(j, s, m)
    ensures var t := Apply(j, s, m);
            && |t.workers| == |s.workers|
            && (OfWorker(m) ==> m.w < |s.workers| && t.workers == s.workers[m.w := t.workers[m.w]])
            && (!OfWorker(m) ==> t.workers == s.workers)
  {
  }

  lemma FreshKept(j: Job, s: Pool, m: Move)
    requires s.objects == WithLanded(j, s.landed)
    requires PutsFresh(j, s.workers) && Enabled(j, s, m)
    ensures PutsFresh(j, Apply(j, s, m).workers)
  {
    hide WithLanded, Apply, Enabled;
    OneWorkerMoves(j, s, m);
    if OfWorker(m) {
      PutAfterHead(j, s, m);
    }
  }

  /** A worker starts putting only what HEAD did not find, and HEAD finds whatever was there before the call. */
  lemma PutAfterHead(j: Job, s: Pool, m: Move)
    requires s.objects == WithLanded(j, s.landed) && Enabled(j, s, m) && OfWorker(m)
    ensures m.w < |s.workers| == |Apply(j, s, m).workers|
    ensures var x := Apply(j, s, m).workers[m.w];
            x.Put? ==> InSpan(j, x.height) && !Stored(j.before, j.chain, x.height)
  {
    hide WithLanded, InSpan, Stored, PutNew, Apply, Enabled;
    OneWorkerMoves(j, s, m);
    OnlyAfterHead(j, s, m);
    var x := Apply(j, s, m).workers[m.w];
    if x.Put? {
      BeforeStays(j, s.landed, x.height);
    }
  }

  lemma OnlyAfterHead(j: Job, s: Pool, m: Move)
    requires Enabled(j, s, m) && OfWorker(m)
    ensures m.w < |s.workers| == |Apply(j, s, m).workers|
    ensures var x := Apply(j, s, m).workers[m.w];
            x.Put? ==> m.HeadMissing? && s.workers[m.w] == Head(x.height) && InSpan(j, x.height) && !Stored(s.objects, j.chain, x.height)
  {
    hide Stored, PutNew;
    match m
    case HeadMissing(_) =>
    case Fail(_, _, _) =>
    case Report(_) =>
    case _ =>
  }

  lemma BeforeStays(j: Job, landed: set<nat>, h: nat)
    requires InSpan(j, h) && !Stored(WithLanded(j, landed), j.chain, h)
    ensures !Stored(j.before, j.chain, h)
  {
  }

  ghost predicate SameErrors(s: Pool, t: Pool) {
    t.errs == s.errs && t.cancelled == s.cancelled && t.outer == s.outer
  }

  predicate Quietly(x: Worker) {
    x.Idle? || x.Head? || x.Put?
  }

  /** A worker that goes on, or leaves once nothing is sent any more. */
  lemma WorksOn(s: Pool, t: Pool, w: nat, x: Worker)
    requires ErrorsAgree(s) && SameErrors(s, t) && t.lost == s.lost
    requires t.phase == s.phase || (s.phase.Sending? && t.phase == Closed(false))
    requires w < |s.workers| && t.workers == s.workers[w := x] && Quietly(s.workers[w])
    requires Quietly(x) || (x.Exited? && !s.phase.Sending?)
    ensures ErrorsAgree(t)
  {
    assert forall v :: 0 <= v < |s.workers| && s.workers[v].Failed? ==> t.workers[v].Failed?;
    assert forall v :: 0 <= v < |s.workers| && s.workers[v].Cancelling? ==> t.workers[v].Cancelling?;
  }

  lemma FailsNow(s: Pool, t: Pool, w: nat, cause: Cause)
    requires ErrorsAgree(s) && SameErrors(s, t) && t.phase == s.phase
    requires w < |s.workers| && t.workers == s.workers[w := Failed(cause)] && Quietly(s.workers[w])
    requires cause.Induced? ==> s.cancelled || s.outer
    ensures ErrorsAgree(t)
  {
    assert t.workers[w].Failed?;
    assert forall v :: 0 <= v < |s.workers| && s.workers[v].Cancelling? ==> t.workers[v].Cancelling?;
  }

  lemma TakesSlot(s: Pool, t: Pool, w: nat)
    requires ErrorsAgree(s) && t.phase == s.phase && t.cancelled == s.cancelled && t.outer == s.outer && t.lost == s.lost
    requires w < |s.workers| && s.workers[w].Failed? && s.errs.None? && t.errs == Some(s.workers[w].cause)
    requires t.workers == s.workers[w := Cancelling]
    ensures ErrorsAgree(t)
  {
    assert t.workers[w].Cancelling?;
  }

  lemma LeavesAfterError(s: Pool, t: Pool, w: nat)
    requires ErrorsAgree(s) && t.phase == s.phase && t.errs == s.errs && t.outer == s.outer && t.lost == s.lost
    requires w < |s.workers| && s.errs.Some? && t.workers == s.workers[w := Exited]
    requires (t.cancelled == s.cancelled && s.workers[w].Failed?) || (t.cancelled && s.workers[w].Cancelling?)
    ensures ErrorsAgree(t)
  {
    assert s.workers[w].Failed? ==> forall v :: 0 <= v < |s.workers| && s.workers[v].Cancelling? ==> t.workers[v].Cancelling?;
  }

  lemma MainErrors(s: Pool, t: Pool)
    requires ErrorsAgree(s) && t.workers == s.workers && t.errs == s.errs && t.cancelled == s.cancelled && t.lost == s.lost
    requires s.outer ==> t.outer
    requires t.phase == s.phase || (t.phase == Closed(true) && (s.cancelled || s.outer)) || t.phase.Returned?
    ensures ErrorsAgree(t)
  {
  }

  lemma ErrorsKept(j: Job, s: Pool, m: Move)
    requires ErrorsAgree(s) && Enabled(j, s, m)
    ensures ErrorsAgree(Apply(j, s, m))
  {
    hide ErrorsAgree, PutNew, Stored, InSpan;
    var t := Apply(j, s, m);
    match m
    case Dispatch(w) => WorksOn(s, t, w, t.workers[w]);
    case HeadFound(w) => WorksOn(s, t, w, Idle);
    case HeadMissing(w) => WorksOn(s, t, w, t.workers[w]);
    case PutDone(w) => WorksOn(s, t, w, Idle);
    case Fail(w, cause, _) => FailsNow(s, t, w, cause);
    case Report(w) =>
      if s.errs.None? {
        TakesSlot(s, t, w);
      } else {
        LeavesAfterError(s, t, w);
      }
    case Cancel(w) =>
      SlotIsTaken(s, w);
      LeavesAfterError(s, t, w);
    case Leave(w) => WorksOn(s, t, w, Exited);
    case _ => MainErrors(s, t);
  }

  lemma SlotIsTaken(s: Pool, w: nat)
    requires ErrorsAgree(s) && w < |s.workers| && s.workers[w].Cancelling?
    ensures s.errs.Some?
  {
  }

  lemma ResultKept(j: Job, s: Pool, m: Move)
    requires ErrorsAgree(s) && ResultAgrees(j, s) && Enabled(j, s, m)
    requires s.phase == Closed(false) ==> s.next == j.tip + 1
    ensures ResultAgrees(j, Apply(j, s, m))
  {
  }

  lemma InvKept(j: Job, s: Pool, m: Move)
    requires ValidJob(j) && Inv(j, s) && Enabled(j, s, m)
    ensures Inv(j, Apply(j, s, m))
  {
    AccountedKept(j, s, m);
    StoreKept(j, s, m);
    FreshKept(j, s, m);
    ErrorsKept(j, s, m);
    ResultKept(j, s, m);
    hide Accounted, StoreAgrees, CountsAgree, PutsFresh, ErrorsAgree, ResultAgrees, Apply;
  }

  // ----- whole runs

  /** A run is any sequence of enabled moves. */
  ghost predicate IsRun(j: Job, s: Pool, moves: seq<Move>)
    decreases |moves|
  {
    moves == [] || (Enabled(j, s, moves[0]) && IsRun(j, Apply(j, s, moves[0]), moves[1..]))
  }

  ghost function RunEnd(j: Job, s: Pool, moves: seq<Move>): Pool
    requires IsRun(j, s, moves)
    decreases |moves|
  {
    if moves == [] then s else RunEnd(j, Apply(j, s, moves[0]), moves[1..])
  }

  lemma {:induction false} RunInv(j: Job, s: Pool, moves: seq<Move>)
    requires ValidJob(j) && Inv(j, s) && IsRun(j, s, moves)
    ensures Inv(j, RunEnd(j, s, moves))
    decreases |moves|
  {
    if moves != [] {
      InvKept(j, s, moves[0]);
      RunInv(j, Apply(j, s, moves[0]), moves[1..]);
    }
  }

  /** Whatever the interleaving: a nil error means that every height of the span was processed exactly once, that
      the store is the old one plus the span's blocks, and that the count is the growth of the store. */
  lemma PoolSuccess(j: Job, workers: nat, moves: seq<Move>, n: nat)
    requires ValidJob(j) && IsRun(j, Start(j, workers), moves)
    requires RunEnd(j, Start(j, workers), moves).phase == Returned(Success(n))
    ensures var s := RunEnd(j, Start(j, workers), moves);
            && (forall h :: h in s.processed <==> j.from <= h <= j.tip)
            && s.completions == |s.processed|
            && s.objects == AddBlocks(j.tree, j.before, j.chain, j.from, j.tip + 1)
            && n == |s.objects| - |j.before|
  {
    StartInv(j, workers);
    RunInv(j, Start(j, workers), moves);
    SuccessMeans(j, RunEnd(j, Start(j, workers), moves), n);
  }

  lemma SuccessMeans(j: Job, s: Pool, n: nat)
    requires ValidJob(j) && Inv(j, s) && s.phase == Returned(Success(n))
    ensures forall h :: h in s.processed <==> j.from <= h <= j.tip
    ensures s.completions == |s.processed|
    ensures s.objects == AddBlocks(j.tree, j.before, j.chain, j.from, j.tip + 1)
    ensures n == |s.objects| - |j.before|
  {
    hide AddBlocks, WithLanded, ValidJob, PutsFresh, Accounted, ErrorsAgree;
    AllDone(j, s);
    AllLanded(j, s.landed, s.processed);
    assert s.landed * s.processed == s.landed;
  }

  /** After a success no height is held any more, and none was lost. */
  lemma AllDone(j: Job, s: Pool)
    requires Accounted(j, s) && ErrorsAgree(s) && ResultAgrees(j, s) && s.phase.Returned? && s.phase.result.Success?
    ensures s.lost == {} && s.completions == |s.processed|
    ensures forall h :: h in s.processed <==> j.from <= h <= j.tip
  {
    assert forall h :: h in s.holder ==> Holds(s, s.holder[h]);
    assert s.holder == map[];
  }

  lemma AllLanded(j: Job, landed: set<nat>, processed: set<nat>)
    requires ValidJob(j)
    requires forall h :: h in processed <==> j.from <= h <= j.tip
    requires forall h :: h in landed ==> h in processed && !Stored(j.before, j.chain, h)
    requires forall h :: h in processed ==> h in landed || Stored(j.before, j.chain, h)
    ensures WithLanded(j, landed) == AddBlocks(j.tree, j.before, j.chain, j.from, j.tip + 1)
  {
    var keys := BlockKeys(j.chain, j.from, j.tip + 1);
    forall k | k in keys ensures k in j.before.Keys + LandedKeys(j, landed) {
      var h :| j.from <= h < j.tip + 1 && k == Block(j.chain[h]);
      assert h in processed;
      assert h in landed || Stored(j.before, j.chain, h);
    }
    assert j.before.Keys + LandedKeys(j, landed) == j.before.Keys + keys;
  }

  /** A failing call reports a worker's own error, never one that the pool's own cancellation induced, unless the
      caller cancelled; and it leaves nothing in the store but blocks of the span. */
  lemma PoolFailure(j: Job, workers: nat, moves: seq<Move>, e: PoolError)
    requires ValidJob(j) && IsRun(j, Start(j, workers), moves)
    requires RunEnd(j, Start(j, workers), moves).phase == Returned(Failure(e))
    ensures var s := RunEnd(j, Start(j, workers), moves);
            && (!s.outer ==> e == Worker(Own))
            && Between(j, s.objects)
  {
    StartInv(j, workers);
    RunInv(j, Start(j, workers), moves);
    var s := RunEnd(j, Start(j, workers), moves);
    FailureMeans(j, s, e);
  }

  lemma FailureMeans(j: Job, s: Pool, e: PoolError)
    requires ValidJob(j) && Inv(j, s) && s.phase == Returned(Failure(e))
    ensures (!s.outer ==> e == Worker(Own)) && Between(j, s.objects)
  {
    AlwaysBetween(j, s);
    hide Between, Accounted, StoreAgrees, CountsAgree, PutsFresh, ValidJob, AllExited;
    match e
    case ContextDone =>
    case Worker(c) => assert c.Own? || c.Induced?;
  }

  /** Between the store before the call and the store a success would leave. */
  ghost predicate Between(j: Job, objects: Objects)
    requires ValidJob(j)
  {
    Within(j.before, objects, AddBlocks(j.tree, j.before, j.chain, j.from, j.tip + 1))
  }

  lemma AlwaysBetween(j: Job, s: Pool)
    requires ValidJob(j) && Inv(j, s)
    ensures Between(j, s.objects)
  {
    LandedBetween(j, s.landed);
    assert s.objects == WithLanded(j, s.landed);
    hide Between, Accounted, CountsAgree, PutsFresh, ErrorsAgree, ResultAgrees;
  }

  lemma LandedBetween(j: Job, landed: set<nat>)
    requires ValidJob(j)
    ensures Between(j, WithLanded(j, landed))
  {
    hide IsChain;
    forall k | k in LandedKeys(j, landed) ensures k in BlockKeys(j.chain, j.from, j.tip + 1) {
      var h :| h in landed && InSpan(j, h) && k == Block(j.chain[h]);
    }
    hide LandedKeys, BlockKeys;
  }

  lemma OutcomeMeans(j: Job, s: Pool)
    requires ValidJob(j) && Inv(j, s) && s.phase.Returned?
    ensures SpanUploaded(j.tree, j.chain, j.before, s.objects, j.from, j.tip, s.phase.result.Success?)
    ensures s.phase.result.Success? ==> s.phase.result.value == |s.objects| - |j.before|
  {
    AlwaysBetween(j, s);
    if s.phase.result.Success? {
      SuccessMeans(j, s, s.phase.result.value);
    }
    BetweenMeans(j, s.objects, s.phase.result.Success?);
    hide *;
  }

  lemma BetweenMeans(j: Job, objects: Objects, clean: bool)
    requires ValidJob(j) && Between(j, objects)
    requires clean ==> objects == AddBlocks(j.tree, j.before, j.chain, j.from, j.tip + 1)
    ensures SpanUploaded(j.tree, j.chain, j.before, objects, j.from, j.tip, clean)
  {
    hide AddBlocks, Within, IsChain;
  }

  /** No goroutine outlives the call. */
  lemma NoWorkerOutlivesTheCall(j: Job, workers: nat, moves: seq<Move>)
    requires ValidJob(j) && IsRun(j, Start(j, workers), moves)
    ensures var s := RunEnd(j, Start(j, workers), moves); s.phase.Returned? ==> AllExited(s)
  {
    StartInv(j, workers);
    RunInv(j, Start(j, workers), moves);
  }

  // ----- progress and termination

  predicate IsFailureMove(m: Move) {
    m.Fail? || m.OuterCancel?
  }

  /** Until the call returns, some step is possible that is neither a failure nor a cancellation by the caller. In
      particular the dispatcher is not stuck when all workers have left. */
  lemma Progress(j: Job, s: Pool) returns (m: Move)
    requires ValidJob(j) && Inv(j, s) && |s.workers| > 0 && !s.phase.Returned?
    ensures Enabled(j, s, m) && !IsFailureMove(m)
  {
    hide StoreAgrees, CountsAgree, PutsFresh, Accounted, ResultAgrees, ValidJob, Stored, InSpan;
    if AllExited(s) {
      if s.phase.Sending? {
        assert s.workers[0].Exited?;
        assert s.cancelled;
        return Abort;
      }
      return Return;
    }
    var w: nat :| w < |s.workers| && !s.workers[w].Exited?;
    match s.workers[w]
    case Idle => m := if s.phase.Sending? then Dispatch(w) else Leave(w);
    case Head(h) =>
      HeldInSpan(j, s, w);
      m := if Stored(s.objects, j.chain, h) then HeadFound(w) else HeadMissing(w);
    case Put(h) =>
      HeldInSpan(j, s, w);
      m := PutDone(w);
    case Failed(_) => m := Report(w);
    case Cancelling => m := Cancel(w);
  }

  lemma HeldInSpan(j: Job, s: Pool, w: nat)
    requires ValidJob(j) && Accounted(j, s) && Holds(s, w)
    ensures InSpan(j, s.workers[w].height)
  {
    assert s.workers[w].height in s.holder;
  }

  function Weight(x: Worker): nat {
    match x
    case Head(_) => 6
    case Put(_) => 5
    case Idle => 4
    case Failed(_) => 3
    case Cancelling => 1
    case Exited => 0
  }

  /** Every step brings the call closer to its return. */
  function Measure(j: Job, s: Pool): int {
    (if s.phase.Sending? then 8 * (j.tip + 1 - s.next) + 2 else if s.phase.Closed? then 1 else 0)
    + Tally.Total(s.workers, Weight) + (if s.outer then 0 else 1)
  }

  lemma WeightDrops(j: Job, s: Pool, m: Move)
    requires Enabled(j, s, m) && OfWorker(m)
    ensures var t := Apply(j, s, m);
            var x, y := s.workers[m.w], t.workers[m.w];
            && t.outer == s.outer
            && (m.Dispatch? ==> Weight(y) == Weight(x) + 2 && s.phase.Sending? && t.next == s.next + 1
                                && t.phase == if s.next == j.tip then Closed(false) else Sending)
            && (!m.Dispatch? ==> Weight(y) < Weight(x) && t.phase == s.phase && t.next == s.next)
  {
  }

  lemma MeasureDrops(j: Job, s: Pool, m: Move)
    requires ValidJob(j) && Accounted(j, s) && Enabled(j, s, m)
    ensures Measure(j, Apply(j, s, m)) < Measure(j, s)
  {
    assert s.phase.Sending? ==> s.next <= j.tip;
    OneWorkerMoves(j, s, m);
    if OfWorker(m) {
      WeightDrops(j, s, m);
      Tally.TotalUpdate(s.workers, Weight, m.w, Apply(j, s, m).workers[m.w]);
      hide *;
    } else {
      hide Accounted, Tally.Total, Weight;
      assert m.Abort? || m.Return? || m.OuterCancel?;
    }
  }

  /** So no run takes more steps than the measure allows. */
  lemma {:induction false} RunsAreBounded(j: Job, s: Pool, moves: seq<Move>)
    requires ValidJob(j) && Inv(j, s) && IsRun(j, s, moves)
    ensures |moves| <= Measure(j, s)
    decreases |moves|
  {
    if moves == [] {
      assert s.phase.Sending? ==> s.next <= j.tip;
    } else {
      MeasureDrops(j, s, moves[0]);
      InvKept(j, s, moves[0]);
      RunsAreBounded(j, Apply(j, s, moves[0]), moves[1..]);
    }
  }

  /** From wherever a run has come to, it can go on to the return of the call without a further failure. */
  lemma {:induction false} EveryRunCanReturn(j: Job, s: Pool) returns (moves: seq<Move>)
    requires ValidJob(j) && Inv(j, s) && |s.workers| > 0
    ensures IsRun(j, s, moves) && RunEnd(j, s, moves).phase.Returned?
    ensures forall i :: 0 <= i < |moves| ==> !IsFailureMove(moves[i])
    decreases Measure(j, s)
  {
    MeasureIsNatural(j, s);
    hide Inv, Apply, Enabled, Measure, ValidJob, Accounted, IsFailureMove;
    if s.phase.Returned? {
      moves := [];
    } else {
      var m := Progress(j, s);
      InvKept(j, s, m);
      MeasureFalls(j, s, m);
      OneWorkerMoves(j, s, m);
      var rest := EveryRunCanReturn(j, Apply(j, s, m));
      moves := [m] + rest;
      assert moves[1..] == rest;
    }
  }

  lemma MeasureIsNatural(j: Job, s: Pool)
    requires Inv(j, s)
    ensures 0 <= Measure(j, s)
  {
    hide StoreAgrees, CountsAgree, PutsFresh, ErrorsAgree, ResultAgrees;
  }

  lemma MeasureFalls(j: Job, s: Pool, m: Move)
    requires ValidJob(j) && Inv(j, s) && Enabled(j, s, m)
    ensures Measure(j, Apply(j, s, m)) < Measure(j, s)
  {
    hide Apply, Enabled, Measure, StoreAgrees, CountsAgree, PutsFresh, ErrorsAgree, ResultAgrees;
    MeasureDrops(j, s, m);
  }
}
