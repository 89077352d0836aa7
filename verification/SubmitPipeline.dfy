/** The submit pipeline as the main goroutine writes it: its fields, the filling of the window, and the submit loop, with
    the workers taking any steps they can in between. */
module SubmitPipeline {
  import opened Prelude
  import opened Resolution
  import opened Pipeline
  import BlockHash
  import HeaderWalk
  import IndexCache
  import Out = PipelineOutcome
  import RangeIndex

  const DEFAULT_WORKERS: nat := 4
  const DEFAULT_WINDOW: nat := 16

  datatype SubmitConfig = SubmitConfig(rangeSize: nat, walkLimit: nat, bootstrap: bool, workers: nat, window: nat)

  function OrDefault(n: nat, default: nat): nat {
    if n == 0 then default else n
  }

  /** The run that SubmitPipeline sets up once the node has told its block and header heights: zero settings ask for the
      defaults, so that no setting leaves the pipeline without a window, a worker or a range size. */
  function PlanOf(cfg: SubmitConfig, blocks: nat, headers: nat, bucket: IndexCache.Bucket,
          tips: Option<seq<HeaderWalk.Tip>>,
                  byHash: HeaderWalk.Headers, sha: BlockHash.Sha256, node: Node): (p: Plan)
    ensures ValidPlan(p) && p.view.rangeSize > 0 && p.first == blocks + 1
    ensures p.view.headers == headers && p.view.bootstrap == cfg.bootstrap && p.view.walkLimit == cfg.walkLimit
    ensures p.view.rangeSize == if cfg.rangeSize == 0 then 2500 else cfg.rangeSize
    ensures p.window == if cfg.window == 0 then 16 else cfg.window
    ensures p.workers == if cfg.workers == 0 then 4 else cfg.workers
  {
    Plan(View(headers, cfg.bootstrap, OrDefault(cfg.rangeSize, RangeIndex.DEFAULT_RANGE_SIZE), cfg.walkLimit, bucket, tips, byHash, sha),
         node, blocks + 1, OrDefault(cfg.window, DEFAULT_WINDOW), OrDefault(cfg.workers, DEFAULT_WORKERS))
  }

  /** What the settings mean for a run. At any moment no more heights than the window are ready or pending, and there are as
      many workers as asked for. And without bootstrapping a clean run has given the node exactly the blocks from the one above
      its own up to its header height, and waits at the next one for headers only. */
  lemma SettingsHold(cfg: SubmitConfig, blocks: nat, headers: nat, bucket: IndexCache.Bucket,
          tips: Option<seq<HeaderWalk.Tip>>, byHash: HeaderWalk.Headers, sha: BlockHash.Sha256, node: Node, stop: nat,
          moves: seq<Move>)
    requires var p := PlanOf(cfg, blocks, headers, bucket, tips, byHash, sha, node);
             StopsAt(p.view, blocks + 1, stop) && IsRun(p, Start(p), moves)
    ensures var p := PlanOf(cfg, blocks, headers, bucket, tips, byHash, sha, node);
            var s, top := RunEnd(p, Start(p), moves), Max(blocks, headers);
            && |s.ready| + |s.pending| <= (if cfg.window == 0 then 16 else cfg.window)
            && |s.workers| == (if cfg.workers == 0 then 4 else cfg.workers)
            && (!cfg.bootstrap && s.phase.Returned? && !s.outer && s.phase.outcome.error.None? ==>
                  && |s.log| == top - blocks
                  && (forall i :: 0 <= i < |s.log| ==> s.log[i].height == blocks + 1 + i)
                  && s.phase.outcome.report == Report(top - blocks, top, top + 1, true, false))
  {
    hide PlanOf, Resolve, StopsAt, RunEnd, IsRun, Start, Out.CleanOutcome, Out.InOrder;
    var p := PlanOf(cfg, blocks, headers, bucket, tips, byHash, sha, node);
    WindowHolds(p, stop, moves);
    Out.CleanStop(p, stop, moves);
    var s := RunEnd(p, Start(p), moves);
    HeightsInOrder(p, s.log);
    if !cfg.bootstrap && s.phase.Returned? && !s.outer && s.phase.outcome.error.None? {
      Out.StopIsAhead(p, stop);
      WaitsForHeaders(p, stop, s.log, s.phase.outcome);
    }
  }

  lemma WaitsForHeaders(p: Plan, stop: nat, log: seq<Submission>, outcome: Outcome)
    requires ValidPlan(p) && StopsAt(p.view, p.first, stop) && !p.view.bootstrap && 0 < p.first <= stop
    requires Out.CleanOutcome(p, stop, log, outcome)
    ensures var top := Max(p.first - 1, p.view.headers);
            |log| == top + 1 - p.first && outcome.report == Report(top + 1 - p.first, top, top + 1, true, false)
  {
    hide IndexCache.Direct, HeaderWalk.Recent;
    assert Resolve(p.view, stop) == Wait(false) && stop > p.view.headers;
    if stop > p.first {
      assert Resolve(p.view, stop - 1).Hash?;
    }
  }

  lemma HeightsInOrder(p: Plan, log: seq<Submission>)
    requires Out.InOrder(p, log)
    ensures forall i :: 0 <= i < |log| ==> log[i].height == p.first + i
  {
    hide Resolve, Fetched;
    forall i | 0 <= i < |log| ensures log[i].height == p.first + i {
      assert Out.RightBlock(p, p.first + i, log[i]);
    }
  }

  // ----- a worker's steps, as updates of its own place and of the channels

  lemma TakeStep(p: Plan, stop: nat, s: State, w: nat)
    requires Inv(p, stop, s) && w < |s.workers| && s.workers[w].Idle? && |s.jobs| > 0
    ensures var t := s.(jobs := s.jobs[1..], workers := s.workers[w := Busy(s.jobs[0])]);
            Inv(p, stop, t) && 0 <= Measure(stop, t) < Measure(stop, s)
  {
    hide Inv, Resolve, Measure;
    Step(p, stop, s, Take(w));
  }

  lemma FinishStep(p: Plan, stop: nat, s: State, w: nat, d: Download)
    requires Inv(p, stop, s) && w < |s.workers| && s.workers[w].Busy?
    requires var job := s.workers[w].job; d.height == job.height && d.hash == job.hash && Verdict(p.view, job.hash, d.raw)
    ensures var t := s.(workers := s.workers[w := Holding(d)]);
            Inv(p, stop, t) && 0 <= Measure(stop, t) < Measure(stop, s)
  {
    hide Inv, Resolve, Measure, Verdict, Fetched;
    VerdictSettles(p.view, d.hash, d.raw);
    Step(p, stop, s, Finish(w, false));
  }

  lemma SendStep(p: Plan, stop: nat, s: State, w: nat)
    requires Inv(p, stop, s) && w < |s.workers| && s.workers[w].Holding?
    ensures |s.results| < p.window
    ensures var t := s.(results := s.results + [s.workers[w].result], workers := s.workers[w := Idle]);
            Inv(p, stop, t) && 0 <= Measure(stop, t) < Measure(stop, s)
  {
    hide Inv, Resolve, Measure;
    SendsNeverBlock(p, stop, s);
    Step(p, stop, s, Send(w));
  }

  // ----- the main goroutine's steps, as updates of its fields

  lemma Step(p: Plan, stop: nat, s: State, m: Move)
    requires Inv(p, stop, s) && Enabled(p, s, m)
    ensures Inv(p, stop, Apply(p, s, m)) && 0 <= Measure(stop, Apply(p, s, m)) < Measure(stop, s)
  {
    hide *;
    InvKept(p, stop, s, m);
    MeasureDrops(p, stop, s, m);
    MeasureIsNatural(p, stop, Apply(p, s, m));
  }

  lemma ScheduleStep(p: Plan, stop: nat, s: State, hash: string)
    requires Inv(p, stop, s) && MayFill(p, s) && Resolve(p.view, s.next) == Hash(hash)
    ensures var t := s.(jobs := s.jobs + [Job(s.next, hash)], pending := s.pending + {s.next}, next := s.next + 1);
            Inv(p, stop, t) && 0 <= Measure(stop, t) < Measure(stop, s)
  {
    hide Inv, Resolve, MayFill, Measure;
    SendsNeverBlock(p, stop, s);
    Step(p, stop, s, Schedule);
  }

  lemma WaitStep(p: Plan, stop: nat, s: State, index: bool)
    requires Inv(p, stop, s) && MayFill(p, s) && Resolve(p.view, s.next) == Wait(index)
    ensures var t := s.(stopped := true, waitHeaders := true, waitIndex := index, phase := Looping);
            Inv(p, stop, t) && 0 <= Measure(stop, t) < Measure(stop, s)
  {
    hide Inv, Resolve, MayFill, Measure;
    Step(p, stop, s, FillWait);
  }

  lemma ErrorStep(p: Plan, stop: nat, s: State, e: ResolveError)
    requires Inv(p, stop, s) && MayFill(p, s) && Resolve(p.view, s.next) == Broken(e)
    ensures Inv(p, stop, End(s, Some(NoHash(s.next, e))))
  {
    hide Inv, Resolve, MayFill, Measure;
    Step(p, stop, s, FillError);
  }

  lemma FilledStep(p: Plan, stop: nat, s: State)
    requires Inv(p, stop, s) && s.phase.Filling? && (s.stopped || Size(s) >= p.window)
    ensures Inv(p, stop, s.(phase := Looping)) && 0 <= Measure(stop, s.(phase := Looping)) < Measure(stop, s)
  {
    hide Inv, Resolve, Measure;
    Step(p, stop, s, FillDone);
  }

  /** The three ways a submit can go. */
  lemma NoBlockStep(p: Plan, stop: nat, s: State, e: DownloadError)
    requires Inv(p, stop, s) && s.phase.Looping? && s.current in s.ready && s.ready[s.current].raw == Failure(e)
    ensures Inv(p, stop, End(s.(ready := s.ready - {s.current}), Some(NoBlock(s.ready[s.current].height, e))))
  {
    hide Inv, Resolve, Measure;
    Step(p, stop, s, Submit);
  }

  lemma RefusedStep(p: Plan, stop: nat, s: State, block: Submission)
    requires Inv(p, stop, s) && s.phase.Looping? && s.current in s.ready
    requires var d := s.ready[s.current]; d.raw.Success? && block == Submission(d.height, d.raw.value)
    requires !Taken(p.node(s.log, block), block.height)
    ensures Inv(p, stop, End(s.(ready := s.ready - {s.current}, log := s.log + [block]),
                             Some(Refused(block.height, p.node(s.log, block)))))
  {
    hide Inv, Resolve, Measure, Taken;
    Step(p, stop, s, Submit);
  }

  lemma SubmittedStep(p: Plan, stop: nat, s: State, block: Submission)
    requires Inv(p, stop, s) && s.phase.Looping? && s.current in s.ready
    requires var d := s.ready[s.current]; d.raw.Success? && block == Submission(d.height, d.raw.value)
    requires Taken(p.node(s.log, block), block.height)
    ensures var t := s.(ready := s.ready - {s.current}, log := s.log + [block], current := s.current + 1, phase := Filling,
                        report := s.report.(submitted := s.report.submitted + 1, last := block.height, target := block.height + 1));
            Inv(p, stop, t) && 0 <= Measure(stop, t) < Measure(stop, s)
  {
    hide Inv, Resolve, Measure, Taken;
    Step(p, stop, s, Submit);
  }

  lemma StopStep(p: Plan, stop: nat, s: State)
    requires Inv(p, stop, s) && s.phase.Looping? && s.current !in s.ready && s.current !in s.pending && s.stopped
    ensures Inv(p, stop, End(s.(report := s.report.(target := s.current, waitHeaders := s.waitHeaders, waitIndex := s.waitIndex)), None))
  {
    hide Inv, Resolve, Measure;
    Step(p, stop, s, Stop);
  }

  lemma ReceiveStep(p: Plan, stop: nat, s: State)
    requires Inv(p, stop, s) && s.phase.Looping? && s.current !in s.ready && (s.current in s.pending || !s.stopped)
    requires |s.results| > 0
    ensures var d := s.results[0];
            var t := s.(results := s.results[1..], pending := s.pending - {d.height}, ready := s.ready[d.height := d]);
            Inv(p, stop, t) && 0 <= Measure(stop, t) < Measure(stop, s)
  {
    hide Inv, Resolve, Measure;
    Step(p, stop, s, Receive);
  }

  /** What a settled outcome is, and that the scheduling never goes beyond the stop. */
  lemma Settled(p: Plan, stop: nat, s: State)
    requires Inv(p, stop, s)
    ensures 0 < p.first <= stop && s.next <= stop
    ensures s.phase.Done? && !s.outer ==> (s.log, s.phase.outcome) == Ahead(p, stop, p.window, p.first, [])
  {
    hide Resolve, Window, Placed, Contents, Ahead;
  }

  lemma NothingReceived(p: Plan, s: State, m: Move)
    requires Enabled(p, s, m) && s.results == [] && (m.Receive? || m.Take? || m.Send? || (m.Finish? && !m.interrupted))
    ensures !m.Receive? && m.w < |s.workers| && !s.workers[m.w].Exited? && (s.workers[m.w].Idle? ==> |s.jobs| > 0)
  {
    hide Resolve;
  }

  lemma LeavesFirst(p: Plan, s: State, m: Move)
    requires Enabled(p, s, m) && !AllExited(s)
    ensures !m.Join?
  {
    hide Resolve;
  }

  lemma WindingKeepsDone(p: Plan, s: State, m: Move)
    requires Enabled(p, s, m) && s.phase.Done? && !m.Join?
    ensures Apply(p, s, m).phase == s.phase
  {
    hide Resolve, Fetched, Taken;
    match m
    case Finish(_, _) =>
    case _ =>
  }

  lemma SameExits(s: State, t: State)
    requires AllExited(s) && t.workers == s.workers
    ensures AllExited(t)
  {
  }

  class SubmitPipeline {
    const plan: Plan
    const indexCache: IndexCache.SubmitRangeIndexCache
    ghost const stop: nat
    var currentHeight: nat
    var nextSchedule: nat
    var ready: map<nat, Download>
    var pending: set<nat>
    var stoppedScheduling: bool
    var waitHeaders: bool
    var waitR2Index: bool
    var jobs: seq<Job>
    var results: seq<Download>
    var workers: seq<Worker>
    var submitted: seq<Submission>     // what the node was given

    /** The fields as a state of the step relation. */
    function At(phase: Phase, report: Report): State
      reads this
    {
      State(phase, currentHeight, nextSchedule, ready, pending, jobs, results, workers, stoppedScheduling, report,
            waitHeaders, waitR2Index, submitted, false, multiset{})
    }

    ghost predicate Good(phase: Phase, report: Report)
      reads this
    {
      Inv(plan, stop, At(phase, report))
    }

    ghost function Left(phase: Phase, report: Report): int
      reads this
    {
      Measure(stop, At(phase, report))
    }

    ghost predicate CacheHolds()
      reads indexCache
    {
      && indexCache.rangeSize == plan.view.rangeSize
      && IndexCache.Holds(plan.view.bucket, plan.view.rangeSize, indexCache.State())
    }

    constructor (plan: Plan, ghost stop: nat)
      requires ValidPlan(plan) && StopsAt(plan.view, plan.first, stop)
      ensures this.plan == plan && this.stop == stop
      ensures fresh(indexCache) && CacheHolds()
      ensures At(Filling, ReportAt(plan, plan.first)) == Start(plan)
    {
      this.plan, this.stop := plan, stop;
      indexCache := new IndexCache.SubmitRangeIndexCache(plan.view.rangeSize);
      currentHeight, nextSchedule := plan.first, plan.first;
      ready, pending, stoppedScheduling, waitHeaders, waitR2Index := map[], {}, false, false, false;
      jobs, results, workers, submitted := [], [], seq(plan.workers, _ => Idle), [];
      new;
      IndexCache.EmptyHolds(plan.view.bucket, plan.view.rangeSize);
    }

    /** The workers take any number of steps. */
    method WorkersStep(phase: Phase, report: Report)
      requires Good(phase, report)
      modifies this`jobs, this`results, this`workers
      ensures Good(phase, report) && Left(phase, report) <= old(Left(phase, report))
    {
      hide Inv, Measure, Enabled, Apply;
      while *
        invariant Good(phase, report) && Left(phase, report) <= old(Left(phase, report))
        decreases Left(phase, report)
      {
        var w :| 0 <= w <= |workers|;
        if w == |workers| || workers[w].Exited? || (workers[w].Idle? && jobs == []) {
          break;
        }
        OneWorkerStep(phase, report, w);
      }
    }

    /** One step of worker w: it takes a job, downloads and verifies, or hands over its result. */
    method OneWorkerStep(phase: Phase, report: Report, w: nat)
      requires Good(phase, report) && w < |workers| && (workers[w].Idle? ==> |jobs| > 0) && !workers[w].Exited?
      modifies this`jobs, this`results, this`workers
      ensures Good(phase, report) && 0 <= Left(phase, report) < old(Left(phase, report))
    {
      hide Inv, Measure, Verdict;
      ghost var s := At(phase, report);
      match workers[w]
      case Idle =>
        TakeStep(plan, stop, s, w);
        workers := workers[w := Busy(jobs[0])];
        jobs := jobs[1..];
      case Busy(job) =>
        var d := DownloadAndVerify(plan.view, job);
        FinishStep(plan, stop, s, w, d);
        workers := workers[w := Holding(d)];
      case Holding(result) =>
        SendStep(plan, stop, s, w);
        results := results + [result];
        workers := workers[w := Idle];
    }

    method ResolveNext() returns (r: Resolved)
      requires CacheHolds()
      modifies indexCache
      ensures CacheHolds() && r == Resolve(plan.view, nextSchedule)
    {
      hide Resolve, IndexCache.Holds, IndexCache.SubmitRangeIndexCache.State;
      r := ResolveHash(plan.view, indexCache, nextSchedule);
    }

    /** Sends the next height's job: the channel has room, so the send does not wait. */
    method Schedule(report: Report, hash: string)
      requires Good(Filling, report) && !stoppedScheduling && |ready| + |pending| < plan.window
      requires Resolve(plan.view, nextSchedule) == Hash(hash)
      modifies this`jobs, this`pending, this`nextSchedule
      ensures Good(Filling, report) && 0 <= Left(Filling, report) < old(Left(Filling, report))
      ensures |old(jobs)| < plan.window && jobs == old(jobs) + [Job(old(nextSchedule), hash)]
    {
      hide Inv, Measure, Resolve;
      ghost var s := At(Filling, report);
      SendsNeverBlock(plan, stop, s);
      ScheduleStep(plan, stop, s, hash);
      jobs := jobs + [Job(nextSchedule, hash)];
      pending := pending + {nextSchedule};
      nextSchedule := nextSchedule + 1;
    }

    method FillWindow(report: Report) returns (err: Option<RunError>)
      requires Good(Filling, report) && CacheHolds()
      modifies this`jobs, this`results, this`workers, this`nextSchedule, this`pending, this`stoppedScheduling,
               this`waitHeaders, this`waitR2Index, indexCache
      ensures CacheHolds()
      ensures err.None? ==> Good(Looping, report) && 0 <= Left(Looping, report) < old(Left(Filling, report))
      ensures err.Some? ==> Good(Done(Outcome(report, err)), report)
    {
      hide Inv, Measure, Resolve, CacheHolds;
      while !stoppedScheduling && |ready| + |pending| < plan.window
        invariant Good(Filling, report) && CacheHolds()
        invariant Left(Filling, report) <= old(Left(Filling, report))
        decreases Left(Filling, report)
      {
        WorkersStep(Filling, report);
        var resolved := ResolveNext();
        ghost var s := At(Filling, report);
        match resolved
        case Broken(e) =>
          ErrorStep(plan, stop, s, e);
          return Some(NoHash(nextSchedule, e));
        case Wait(index) =>
          WaitStep(plan, stop, s, index);
          stoppedScheduling, waitHeaders, waitR2Index := true, true, index;
          return None;
        case Hash(hash) =>
          Schedule(report, hash);
      }
      FilledStep(plan, stop, At(Filling, report));
      return None;
    }

    /** Waits for a result, while the workers take whatever steps they do. */
    method Await(report: Report)
      requires Good(Looping, report) && currentHeight !in ready && (currentHeight in pending || !stoppedScheduling)
      modifies this`jobs, this`results, this`workers
      ensures Good(Looping, report) && Left(Looping, report) <= old(Left(Looping, report)) && |results| > 0
    {
      hide Inv, Measure, Enabled, Apply;
      while |results| == 0
        invariant Good(Looping, report) && Left(Looping, report) <= old(Left(Looping, report))
        decreases Left(Looping, report)
      {
        ghost var s := At(Looping, report);
        ghost var possible := WaitingEnds(plan, stop, s);
        NothingReceived(plan, s, possible);
        var w: nat :| w < |workers| && !workers[w].Exited? && (workers[w].Idle? ==> |jobs| > 0);
        OneWorkerStep(Looping, report, w);
      }
    }

    /** The outcome is settled: cancel the downloads, close the job channel, and wait for every worker to leave. */
    method Shutdown(outcome: Outcome, report: Report)
      requires Good(Done(outcome), report)
      modifies this`jobs, this`results, this`workers
      ensures AllExited(At(Done(outcome), report))
    {
      hide Inv, Measure, Enabled, Apply, AllExited;
      var s := At(Done(outcome), report);
      while !AllExited(s)
        invariant Inv(plan, stop, s) && s.phase == Done(outcome)
        decreases Measure(stop, s)
      {
        ghost var possible := Winding(plan, s);
        LeavesFirst(plan, s, possible);
        var m: Move :| Enabled(plan, s, m) && !m.OuterCancel? && !m.Interrupt? && !m.Join?;
        Step(plan, stop, s, m);
        WindingKeepsDone(plan, s, m);
        s := Apply(plan, s, m);
      }
      jobs, results, workers := s.jobs, s.results, s.workers;
      SameExits(s, At(Done(outcome), report));
    }

    /** Submits the block at the current height, and refills the window behind it. */
    method SubmitReady(report: Report) returns (next: Report, err: Option<RunError>)
      requires Good(Looping, report) && CacheHolds() && currentHeight in ready
      modifies this, indexCache
      ensures CacheHolds()
      ensures err.None? ==> Good(Looping, next) && 0 <= Left(Looping, next) < old(Left(Looping, report))
      ensures err.Some? ==> Good(Done(Outcome(next, err)), next)
    {
      hide Inv, Measure, Resolve, Taken, CacheHolds;
      ghost var s := At(Looping, report);
      var d := ready[currentHeight];
      ready := ready - {currentHeight};
      if d.raw.Failure? {
        NoBlockStep(plan, stop, s, d.raw.error);
        return report, Some(NoBlock(d.height, d.raw.error));
      }
      var block := Submission(d.height, d.raw.value);
      var reply := plan.node(submitted, block);
      submitted := submitted + [block];
      if !Taken(reply, d.height) {
        RefusedStep(plan, stop, s, block);
        return report, Some(Refused(d.height, reply));
      }
      SubmittedStep(plan, stop, s, block);
      next := report.(submitted := report.submitted + 1, last := d.height, target := d.height + 1);
      currentHeight := currentHeight + 1;
      err := FillWindow(next);
    }

    /** The submit loop. Whatever the workers did in between, the node has been given, and the caller is told, what one
        goroutine resolving a window ahead would have. */
    method Run() returns (outcome: Outcome)
      requires ValidPlan(plan) && StopsAt(plan.view, plan.first, stop) && CacheHolds()
      requires At(Filling, ReportAt(plan, plan.first)) == Start(plan)
      modifies this, indexCache
      ensures plan.first <= stop && (submitted, outcome) == Ahead(plan, stop, plan.window, plan.first, [])
      ensures forall w :: 0 <= w < |workers| ==> workers[w].Exited?
    {
      hide Inv, Measure, Resolve, StopsAt, Ahead, Taken, CacheHolds;
      StartInv(plan, stop);
      var report := Report(0, currentHeight - 1, currentHeight, false, false);
      var err := FillWindow(report);
      if err.Some? {
        outcome := Outcome(report, err);
        outcome := Finished(outcome, report);
        return;
      }
      while true
        invariant Good(Looping, report) && CacheHolds()
        decreases Left(Looping, report)
      {
        ghost var s := At(Looping, report);
        if currentHeight in ready {
          report, err := SubmitReady(report);
          if err.Some? {
            outcome := Finished(Outcome(report, err), report);
            return;
          }
        } else if currentHeight !in pending && stoppedScheduling {
          StopStep(plan, stop, s);
          report := report.(target := currentHeight, waitHeaders := waitHeaders, waitIndex := waitR2Index);
          outcome := Finished(Outcome(report, None), report);
          return;
        } else {
          Await(report);
          ReceiveStep(plan, stop, At(Looping, report));
          var downloaded := results[0];
          results := results[1..];
          pending := pending - {downloaded.height};
          ready := ready[downloaded.height := downloaded];
        }
      }
    }

    method Finished(settled: Outcome, report: Report) returns (outcome: Outcome)
      requires Good(Done(settled), report)
      modifies this`jobs, this`results, this`workers
      ensures outcome == settled && 0 < plan.first <= stop
      ensures (submitted, outcome) == Ahead(plan, stop, plan.window, plan.first, [])
      ensures forall w :: 0 <= w < |workers| ==> workers[w].Exited?
    {
      hide Inv, Measure, Ahead;
      Settled(plan, stop, At(Done(settled), report));
      Shutdown(settled, report);
      return settled;
    }
  }
}
