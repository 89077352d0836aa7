/** The submit pipeline as a step relation: a main goroutine that schedules heights into a bounded window and submits
    blocks in height order, and workers that download and verify them, over two buffered channels. */
module Pipeline {
  import opened Prelude
  import opened Resolution
  import Tally

  /** What submitblock answers; Broke carries the node's block count asked for after an RPC error, if that was told. */
  datatype Reply = Accepted | AlreadyKnown | Rejected(text: string) | Broke(blocks: Option<nat>)

  datatype Submission = Submission(height: nat, raw: Bytes)

  /** The node's answer to a block, given everything that was submitted before. */
  type Node = (seq<Submission>, Submission) -> Reply

  datatype Plan = Plan(view: View, node: Node, first: nat, window: nat, workers: nat)

  predicate ValidPlan(p: Plan) {
    p.first > 0 && p.window > 0 && p.workers > 0
  }

  datatype Report = Report(submitted: nat, last: nat, target: nat, waitHeaders: bool, waitIndex: bool)

  datatype RunError =
    | NoHash(height: nat, resolve: ResolveError)
    | NoBlock(height: nat, download: DownloadError)
    | Refused(height: nat, reply: Reply)
    | Cancelled

  datatype Outcome = Outcome(report: Report, error: Option<RunError>)

  datatype Worker = Idle | Busy(job: Job) | Holding(result: Download) | Exited

  /** Done: the outcome is settled, the download context cancelled and the job channel closed; the workers are awaited. */
  datatype Phase = Filling | Looping | Done(outcome: Outcome) | Returned(outcome: Outcome)

  /** The program state; dropped is history: the heights whose downloads were thrown away after a cancellation. */
  datatype State = State(
    phase: Phase,
    current: nat,
    next: nat,
    ready: map<nat, Download>,
    pending: set<nat>,
    jobs: seq<Job>,
    results: seq<Download>,
    workers: seq<Worker>,
    stopped: bool,
    report: Report,
    waitHeaders: bool,
    waitIndex: bool,
    log: seq<Submission>,
    outer: bool,
    dropped: multiset<nat>)

  datatype Move =
    | Schedule
    | FillWait
    | FillError
    | FillDone
    | Submit
    | Stop
    | Receive
    | Interrupt(submitting: bool)
    | Join
    | Take(w: nat)
    | Finish(w: nat, interrupted: bool)
    | Send(w: nat)
    | Drop(w: nat)
    | Leave(w: nat)
    | OuterCancel

  function Start(p: Plan): State
    requires ValidPlan(p)
  {
    State(Filling, p.first, p.first, map[], {}, [], [], seq(p.workers, _ => Idle), false,
          ReportAt(p, p.first), false, false, [], false, multiset{})
  }

  /** The report once every height below c is submitted. */
  function ReportAt(p: Plan, c: nat): Report
    requires 0 < p.first <= c
  {
    Report(c - p.first, c - 1, c, false, false)
  }

  function Size(s: State): nat {
    |s.ready| + |s.pending|
  }

  /** The workers' context is done. */
  predicate Stopping(s: State) {
    s.outer || s.phase.Done? || s.phase.Returned?
  }

  predicate Active(s: State) {
    s.phase.Filling? || s.phase.Looping?
  }

  predicate AllExited(s: State) {
    forall w :: 0 <= w < |s.workers| ==> s.workers[w].Exited?
  }

  predicate MayFill(p: Plan, s: State) {
    s.phase.Filling? && !s.stopped && Size(s) < p.window
  }

  /** A send needs room in its channel's buffer. */
  predicate Enabled(p: Plan, s: State, m: Move) {
    match m
    case Schedule => MayFill(p, s) && Resolve(p.view, s.next).Hash? && |s.jobs| < p.window
    case FillWait => MayFill(p, s) && Resolve(p.view, s.next).Wait?
    case FillError => MayFill(p, s) && Resolve(p.view, s.next).Broken?
    case FillDone => s.phase.Filling? && (s.stopped || Size(s) >= p.window)
    case Submit => s.phase.Looping? && s.current in s.ready
    case Stop => s.phase.Looping? && s.current !in s.ready && s.current !in s.pending && s.stopped
    case Receive => s.phase.Looping? && s.current !in s.ready && (s.current in s.pending || !s.stopped) && |s.results| > 0
    case Interrupt(submitting) =>
      s.outer && Active(s)
      && (submitting ==> s.phase.Looping? && s.current in s.ready && s.ready[s.current].raw.Success?)
    case Join => s.phase.Done? && AllExited(s)
    case Take(w) => w < |s.workers| && s.workers[w].Idle? && |s.jobs| > 0
    case Finish(w, interrupted) => w < |s.workers| && s.workers[w].Busy? && (interrupted ==> Stopping(s))
    case Send(w) => w < |s.workers| && s.workers[w].Holding? && |s.results| < p.window
    case Drop(w) => w < |s.workers| && s.workers[w].Holding? && Stopping(s)
    case Leave(w) => w < |s.workers| && s.workers[w].Idle? && Stopping(s)
    case OuterCancel => !s.outer && Active(s)
  }

  function End(s: State, error: Option<RunError>): State {
    s.(phase := Done(Outcome(s.report, error)))
  }

  predicate Taken(reply: Reply, height: nat) {
    match reply
    case Accepted => true
    case AlreadyKnown => true
    case Rejected(_) => false
    case Broke(blocks) => blocks.Some? && blocks.value >= height
  }

  function ApplySubmit(p: Plan, s: State): State
    requires Enabled(p, s, Submit)
  {
    var d := s.ready[s.current];
    var s1 := s.(ready := s.ready - {s.current});
    match d.raw
    case Failure(e) => End(s1, Some(NoBlock(d.height, e)))
    case Success(raw) =>
      var block := Submission(d.height, raw);
      var reply := p.node(s.log, block);
      var s2 := s1.(log := s.log + [block]);
      if !Taken(reply, d.height) then End(s2, Some(Refused(d.height, reply)))
      else s2.(report := s.report.(submitted := s.report.submitted + 1, last := d.height, target := d.height + 1),
               current := s.current + 1,
               phase := Filling)
  }

  function Apply(p: Plan, s: State, m: Move): State
    requires Enabled(p, s, m)
  {
    match m
    case Schedule =>
      s.(jobs := s.jobs + [Job(s.next, Resolve(p.view, s.next).hash)], pending := s.pending + {s.next}, next := s.next + 1)
    case FillWait => s.(stopped := true, waitHeaders := true, waitIndex := Resolve(p.view, s.next).index, phase := Looping)
    case FillError => End(s, Some(NoHash(s.next, Resolve(p.view, s.next).error)))
    case FillDone => s.(phase := Looping)
    case Submit => ApplySubmit(p, s)
    case Stop =>
      End(s.(report := s.report.(target := s.current, waitHeaders := s.waitHeaders, waitIndex := s.waitIndex)), None)
    case Receive =>
      var d := s.results[0];
      s.(results := s.results[1..], pending := s.pending - {d.height}, ready := s.ready[d.height := d])
    case Interrupt(submitting) =>
      if submitting then
        var d := s.ready[s.current];
        End(s.(ready := s.ready - {s.current}, log := s.log + [Submission(d.height, d.raw.value)]), Some(Cancelled))
      else End(s, Some(Cancelled))
    case Join => s.(phase := Returned(s.phase.outcome))
    case Take(w) => s.(jobs := s.jobs[1..], workers := s.workers[w := Busy(s.jobs[0])])
    case Finish(w, interrupted) =>
      var job := s.workers[w].job;
      s.(workers := s.workers[w := Holding(
           Download(job.height, job.hash, if interrupted then Failure(Interrupted) else Fetched(p.view, job.hash)))])
    case Send(w) => s.(results := s.results + [s.workers[w].result], workers := s.workers[w := Idle])
    case Drop(w) =>
      s.(dropped := s.dropped + multiset{s.workers[w].result.height}, workers := s.workers[w := Exited])
    case Leave(w) => s.(workers := s.workers[w := Exited])
    case OuterCancel => s.(outer := true)
  }

  // ----- where each pending height is

  function JobHeights(jobs: seq<Job>): (hs: seq<nat>)
    ensures |hs| == |jobs|
  {
    seq(|jobs|, i requires 0 <= i < |jobs| => jobs[i].height)
  }

  function ResultHeights(results: seq<Download>): (hs: seq<nat>)
    ensures |hs| == |results|
  {
    seq(|results|, i requires 0 <= i < |results| => results[i].height)
  }

  function HeldBy(x: Worker): multiset<nat> {
    match x
    case Busy(job) => multiset{job.height}
    case Holding(result) => multiset{result.height}
    case _ => multiset{}
  }

  function Held(workers: seq<Worker>): multiset<nat> {
    if workers == [] then multiset{} else Held(workers[..|workers| - 1]) + HeldBy(workers[|workers| - 1])
  }

  lemma {:induction false} HeldUpdate(workers: seq<Worker>, w: nat, x: Worker)
    requires w < |workers|
    ensures forall h :: Held(workers[w := x])[h] + HeldBy(workers[w])[h] == Held(workers)[h] + HeldBy(x)[h]
    ensures |Held(workers[w := x])| + |HeldBy(workers[w])| == |Held(workers)| + |HeldBy(x)|
  {
    hide HeldBy;
    var n, updated := |workers| - 1, workers[w := x];
    assert Held(updated) == Held(updated[..n]) + HeldBy(updated[n]);
    if w == n {
      assert updated[..n] == workers[..n];
    } else {
      HeldUpdate(workers[..n], w, x);
      assert updated[..n] == workers[..n][w := x];
    }
  }

  lemma HeldSame(workers: seq<Worker>, w: nat, x: Worker)
    requires w < |workers| && HeldBy(x) == HeldBy(workers[w])
    ensures Held(workers[w := x]) == Held(workers)
  {
    hide Held, HeldBy;
    HeldUpdate(workers, w, x);
  }

  lemma HeldLoses(workers: seq<Worker>, w: nat, x: Worker)
    requires w < |workers| && HeldBy(x) == multiset{}
    ensures Held(workers) == Held(workers[w := x]) + HeldBy(workers[w])
  {
    hide Held, HeldBy;
    HeldUpdate(workers, w, x);
  }

  /** Each pending height is in exactly one place: the job queue, one worker, the result queue, or thrown away. */
  ghost predicate Placed(s: State) {
    multiset(s.pending) == multiset(JobHeights(s.jobs)) + Held(s.workers) + multiset(ResultHeights(s.results)) + s.dropped
  }

  /** ready and pending split [current, next) between them. */
  ghost predicate Partition(s: State) {
    && s.current <= s.next
    && s.ready.Keys !! s.pending
    && (forall h :: h in s.ready || h in s.pending <==> s.current <= h < s.next)
    && Size(s) == s.next - s.current
  }

  ghost predicate Window(p: Plan, s: State) {
    && (Active(s) ==> Partition(s))
    && Size(s) <= p.window
    && |s.workers| == p.workers
    && (s.dropped != multiset{} ==> Stopping(s))
    && (forall w :: 0 <= w < |s.workers| && s.workers[w].Exited? ==> Stopping(s))
  }

  predicate IsJob(p: Plan, job: Job) {
    Resolve(p.view, job.height) == Hash(job.hash)
  }

  /** A download is what the bucket holds for the height's hash, unless a cancellation cut it short. */
  predicate IsDownload(p: Plan, d: Download, stopping: bool) {
    IsJob(p, Job(d.height, d.hash)) && (d.raw == Fetched(p.view, d.hash) || (stopping && d.raw == Failure(Interrupted)))
  }

  predicate WorkerAgrees(p: Plan, x: Worker, stopping: bool) {
    match x
    case Busy(job) => IsJob(p, job)
    case Holding(result) => IsDownload(p, result, stopping)
    case _ => true
  }

  ghost predicate Contents(p: Plan, s: State) {
    && (forall i :: 0 <= i < |s.jobs| ==> IsJob(p, s.jobs[i]))
    && (forall w :: 0 <= w < |s.workers| ==> WorkerAgrees(p, s.workers[w], Stopping(s)))
    && (forall i :: 0 <= i < |s.results| ==> IsDownload(p, s.results[i], Stopping(s)))
    && (forall h :: h in s.ready ==> s.ready[h].height == h && IsDownload(p, s.ready[h], Stopping(s)))
  }

  /** How far scheduling has come, and what it knows of the height where it stops. */
  ghost predicate Control(p: Plan, stop: nat, s: State) {
    && 0 < p.first <= s.current <= stop && s.next <= stop
    && (s.stopped ==> s.next == stop && Resolve(p.view, stop) == Wait(s.waitIndex) && s.waitHeaders)
    && (!s.stopped ==> !s.waitHeaders && !s.waitIndex)
    && (s.phase.Looping? ==> s.stopped || Size(s) >= p.window)
    && (Active(s) ==> s.report == ReportAt(p, s.current))
  }

  // ----- the outcome, without any goroutines

  /** One height, once its hash is known: the block is submitted and the run goes on, or the run ends there. */
  datatype Tried = Went(log: seq<Submission>) | Ended(log: seq<Submission>, outcome: Outcome)

  function Try(p: Plan, c: nat, hash: string, log: seq<Submission>): Tried
    requires 0 < p.first <= c
  {
    match Fetched(p.view, hash)
    case Failure(e) => Ended(log, Outcome(ReportAt(p, c), Some(NoBlock(c, e))))
    case Success(raw) =>
      var block := Submission(c, raw);
      var reply := p.node(log, block);
      if Taken(reply, c) then Went(log + [block])
      else Ended(log + [block], Outcome(ReportAt(p, c), Some(Refused(c, reply))))
  }

  /** One goroutine that resolves look heights ahead: what is submitted, and how the run ends. */
  function Ahead(p: Plan, stop: nat, look: nat, c: nat, log: seq<Submission>): (seq<Submission>, Outcome)
    requires 0 < p.first <= c <= stop
    decreases stop - c
  {
    var atStop := Resolve(p.view, stop);
    if atStop.Broken? && c + look > stop then (log, Outcome(ReportAt(p, c), Some(NoHash(stop, atStop.error))))
    else if c == stop || !Resolve(p.view, c).Hash? then (log, Outcome(StopReport(p, c, atStop), None))
    else
      match Try(p, c, Resolve(p.view, c).hash, log)
      case Ended(log', outcome) => (log', outcome)
      case Went(log') => Ahead(p, stop, look, c + 1, log')
  }

  function StopReport(p: Plan, c: nat, at: Resolved): Report
    requires 0 < p.first <= c
  {
    ReportAt(p, c).(waitHeaders := at.Wait?, waitIndex := at.Wait? && at.index)
  }

  ghost predicate Promise(p: Plan, stop: nat, s: State)
    requires 0 < p.first <= s.current <= stop
  {
    var all := Ahead(p, stop, p.window, p.first, []);
    match s.phase
    case Done(outcome) => s.log <= all.0 && (!s.outer ==> (s.log, outcome) == all)
    case Returned(outcome) => s.log <= all.0 && (!s.outer ==> (s.log, outcome) == all)
    case _ => Ahead(p, stop, p.window, s.current, s.log) == all
  }

  ghost predicate Inv(p: Plan, stop: nat, s: State) {
    && ValidPlan(p) && StopsAt(p.view, p.first, stop)
    && Placed(s)
    && Window(p, s)
    && Contents(p, s)
    && Control(p, stop, s)
    && Promise(p, stop, s)
    && EndAgrees(s)
  }

  /** Nobody outlives the call, and a clean end leaves nothing behind. */
  ghost predicate EndAgrees(s: State) {
    && (s.phase.Returned? ==> AllExited(s))
    && (!Active(s) && s.phase.outcome.error.None? ==> s.ready == map[] && s.pending == {})
  }

  lemma StartInv(p: Plan, stop: nat)
    requires ValidPlan(p) && StopsAt(p.view, p.first, stop)
    ensures Inv(p, stop, Start(p))
  {
    hide Ahead, Resolve;
    NobodyHolds(Start(p).workers);
  }

  lemma {:induction false} NobodyHolds(workers: seq<Worker>)
    requires forall w :: 0 <= w < |workers| ==> workers[w].Idle?
    ensures Held(workers) == multiset{}
  {
    if workers != [] {
      NobodyHolds(workers[..|workers| - 1]);
    }
  }

  // ----- every step keeps it: where the pending heights are

  lemma Append(jobs: seq<Job>, job: Job)
    ensures multiset(JobHeights(jobs + [job])) == multiset(JobHeights(jobs)) + multiset{job.height}
  {
    assert JobHeights(jobs + [job]) == JobHeights(jobs) + [job.height];
  }

  lemma Pop(jobs: seq<Job>)
    requires |jobs| > 0
    ensures multiset(JobHeights(jobs)) == multiset{jobs[0].height} + multiset(JobHeights(jobs[1..]))
  {
    assert JobHeights(jobs) == [jobs[0].height] + JobHeights(jobs[1..]);
  }

  lemma AppendResult(results: seq<Download>, d: Download)
    ensures multiset(ResultHeights(results + [d])) == multiset(ResultHeights(results)) + multiset{d.height}
  {
    assert ResultHeights(results + [d]) == ResultHeights(results) + [d.height];
  }

  lemma PopResult(results: seq<Download>)
    requires |results| > 0
    ensures multiset(ResultHeights(results)) == multiset{results[0].height} + multiset(ResultHeights(results[1..]))
  {
    assert ResultHeights(results) == [results[0].height] + ResultHeights(results[1..]);
  }

  predicate MovesHeights(m: Move) {
    m.Schedule? || m.Receive? || m.Take? || m.Finish? || m.Send? || m.Drop? || m.Leave?
  }

  lemma SubmitFrame(p: Plan, s: State)
    requires Enabled(p, s, Submit)
    ensures var t := Apply(p, s, Submit);
            && t.pending == s.pending && t.jobs == s.jobs && t.workers == s.workers && t.results == s.results
            && t.dropped == s.dropped && t.next == s.next && t.ready == s.ready - {s.current} && t.outer == s.outer
            && (t.phase.Filling? || t.phase.Done?) && t.current == s.current + (if t.phase.Filling? then 1 else 0)
  {
    hide Resolve, Fetched, Taken;
    match s.ready[s.current].raw
    case Failure(_) =>
    case Success(_) =>
  }

  lemma InterruptFrame(p: Plan, s: State, submitting: bool)
    requires Enabled(p, s, Interrupt(submitting))
    ensures var t := Apply(p, s, Interrupt(submitting));
            && t.pending == s.pending && t.jobs == s.jobs && t.workers == s.workers && t.results == s.results
            && t.dropped == s.dropped && t.next == s.next && t.outer == s.outer && t.current == s.current
            && t.ready == (if submitting then s.ready - {s.current} else s.ready)
            && t.log == (if submitting then s.log + [Submission(s.ready[s.current].height, s.ready[s.current].raw.value)] else s.log)
            && t.phase == Done(Outcome(s.report, Some(Cancelled)))
  {
    hide Resolve;
  }

  lemma StaysPut(p: Plan, s: State, m: Move)
    requires Enabled(p, s, m) && !MovesHeights(m)
    ensures var t := Apply(p, s, m);
            && t.pending == s.pending && t.jobs == s.jobs && t.workers == s.workers && t.results == s.results
            && t.dropped == s.dropped && t.next == s.next
  {
    hide Apply, Enabled;
    match m
    case Submit => SubmitFrame(p, s);
    case Interrupt(submitting) => InterruptFrame(p, s, submitting);
    case _ => CalmFrame(p, s, m);
  }

  lemma CalmFrame(p: Plan, s: State, m: Move)
    requires Enabled(p, s, m) && (m.FillWait? || m.FillError? || m.FillDone? || m.Stop? || m.Join? || m.OuterCancel?)
    ensures var t := Apply(p, s, m);
            && t.pending == s.pending && t.jobs == s.jobs && t.workers == s.workers && t.results == s.results
            && t.dropped == s.dropped && t.next == s.next
  {
    hide Resolve;
    match m
    case Stop =>
    case _ =>
  }
  lemma SchedulePlaced(p: Plan, s: State)
    requires Enabled(p, s, Schedule) && Placed(s) && s.next !in s.pending
    ensures Placed(Apply(p, s, Schedule))
  {
    hide Resolve, JobHeights, ResultHeights, Held;
    Append(s.jobs, Job(s.next, Resolve(p.view, s.next).hash));
    assert multiset(s.pending + {s.next}) == multiset(s.pending) + multiset{s.next};
  }

  lemma ReceivePlaced(p: Plan, s: State)
    requires Enabled(p, s, Receive) && Placed(s)
    ensures Placed(Apply(p, s, Receive))
  {
    hide Resolve, JobHeights, ResultHeights, Held;
    PopResult(s.results);
    var h := s.results[0].height;
    assert h in multiset(s.pending);
    assert multiset(s.pending) == multiset(s.pending - {h}) + multiset{h};
    var rest := multiset(JobHeights(s.jobs)) + Held(s.workers) + multiset(ResultHeights(s.results[1..])) + s.dropped;
    forall k ensures multiset(s.pending - {h})[k] == rest[k] {
      assert multiset(s.pending)[k] == (rest + multiset{h})[k];
    }
  }

  lemma TakePlaced(p: Plan, s: State, w: nat)
    requires Enabled(p, s, Take(w)) && Placed(s)
    ensures Placed(Apply(p, s, Take(w)))
  {
    hide JobHeights, ResultHeights, Held;
    Pop(s.jobs);
    HeldUpdate(s.workers, w, Busy(s.jobs[0]));
  }

  lemma FinishPlaced(p: Plan, s: State, w: nat, interrupted: bool)
    requires Enabled(p, s, Finish(w, interrupted)) && Placed(s)
    ensures Placed(Apply(p, s, Finish(w, interrupted)))
  {
    hide Fetched, JobHeights, ResultHeights, Held;
    HeldSame(s.workers, w, Apply(p, s, Finish(w, interrupted)).workers[w]);
  }

  lemma SendPlaced(p: Plan, s: State, w: nat)
    requires Enabled(p, s, Send(w)) && Placed(s)
    ensures Placed(Apply(p, s, Send(w)))
  {
    hide JobHeights, ResultHeights, Held;
    AppendResult(s.results, s.workers[w].result);
    HeldUpdate(s.workers, w, Idle);
  }

  lemma DropPlaced(p: Plan, s: State, w: nat)
    requires Enabled(p, s, Drop(w)) && Placed(s)
    ensures Placed(Apply(p, s, Drop(w)))
  {
    hide JobHeights, ResultHeights, Held;
    HeldLoses(s.workers, w, Exited);
    var h := s.workers[w].result.height;
    assert s.dropped + multiset{h} == multiset{h} + s.dropped;
  }

  lemma LeavePlaced(p: Plan, s: State, w: nat)
    requires Enabled(p, s, Leave(w)) && Placed(s)
    ensures Placed(Apply(p, s, Leave(w)))
  {
    hide JobHeights, ResultHeights, Held;
    HeldSame(s.workers, w, Exited);
  }

  lemma PlacedKept(p: Plan, s: State, m: Move)
    requires Enabled(p, s, m) && Placed(s)
    requires m.Schedule? ==> s.next !in s.pending
    ensures Placed(Apply(p, s, m))
  {
    hide Enabled, Apply, Placed;
    match m
    case Schedule => SchedulePlaced(p, s);
    case Receive => ReceivePlaced(p, s);
    case Take(w) => TakePlaced(p, s, w);
    case Finish(w, interrupted) => FinishPlaced(p, s, w, interrupted);
    case Send(w) => SendPlaced(p, s, w);
    case Drop(w) => DropPlaced(p, s, w);
    case Leave(w) => LeavePlaced(p, s, w);
    case _ => StaysPlaced(p, s, m);
  }

  lemma StaysPlaced(p: Plan, s: State, m: Move)
    requires Enabled(p, s, m) && !MovesHeights(m) && Placed(s)
    ensures Placed(Apply(p, s, m))
  {
    hide Enabled, Apply;
    StaysPut(p, s, m);
  }

  // ----- the window

  /** What a step leaves of the window: it was there, or the step filled, emptied or moved one place of it. */
  lemma SameWindow(p: Plan, s: State, t: State)
    requires Window(p, s) && t.ready == s.ready && t.pending == s.pending && t.current == s.current && t.next == s.next
    requires Active(t) ==> Active(s)
    requires t.dropped == s.dropped || Stopping(t)
    requires Stopping(s) ==> Stopping(t)
    requires |t.workers| == |s.workers|
    requires forall w :: 0 <= w < |s.workers| && t.workers[w].Exited? ==> s.workers[w].Exited? || Stopping(t)
    ensures Window(p, t)
  {
  }

  lemma OneMore(ready: set<nat>, pending: set<nat>, current: nat, next: nat)
    requires current <= next && ready !! pending
    requires forall h :: h in ready || h in pending <==> current <= h < next
    ensures next !in pending && next !in ready && |pending + {next}| == |pending| + 1 && ready !! pending + {next}
    ensures forall h :: h in ready || h in pending + {next} <==> current <= h < next + 1
  {
  }

  lemma Scheduled(s: State, t: State)
    requires Partition(s) && t.ready == s.ready && t.pending == s.pending + {s.next}
    requires t.current == s.current && t.next == s.next + 1
    ensures s.next !in s.pending && Partition(t) && Size(t) == Size(s) + 1
  {
    assert forall h :: h in s.ready.Keys || h in s.pending <==> s.current <= h < s.next;
    OneMore(s.ready.Keys, s.pending, s.current, s.next);
  }

  lemma Received(s: State, t: State, h: nat, d: Download)
    requires Partition(s) && h in s.pending && t.ready == s.ready[h := d] && t.pending == s.pending - {h}
    requires t.current == s.current && t.next == s.next
    ensures Partition(t) && Size(t) == Size(s)
  {
    assert t.ready.Keys == s.ready.Keys + {h};
  }

  lemma Emptied(s: State, t: State)
    requires Partition(s) && s.current in s.ready && t.ready == s.ready - {s.current} && t.pending == s.pending
    requires t.next == s.next
    ensures Size(t) == Size(s) - 1
    ensures t.current == s.current + 1 ==> Partition(t)
  {
    assert t.ready.Keys == s.ready.Keys - {s.current};
  }

  /** A result that is received is of a pending height. */
  lemma ResultIsPending(s: State)
    requires Placed(s) && |s.results| > 0
    ensures s.results[0].height in s.pending
  {
    PopResult(s.results);
    hide JobHeights, ResultHeights, Held;
    assert s.results[0].height in multiset(s.pending);
  }

  lemma OneWorker(p: Plan, s: State, m: Move)
    requires Enabled(p, s, m)
    ensures var t := Apply(p, s, m);
            && |t.workers| == |s.workers|
            && (forall w :: 0 <= w < |s.workers| && t.workers[w].Exited? ==> s.workers[w].Exited? || Stopping(t))
            && (t.dropped == s.dropped || Stopping(t))
            && (Stopping(s) ==> Stopping(t))
  {
    hide Resolve, Fetched, Taken;
    match m
    case Submit =>
    case Interrupt(_) =>
    case _ =>
  }

  predicate Reshapes(m: Move) {
    m.Schedule? || m.Receive? || m.Submit? || m.Interrupt?
  }

  lemma KeepsShape(p: Plan, s: State, m: Move)
    requires Enabled(p, s, m) && !Reshapes(m)
    ensures var t := Apply(p, s, m);
            && t.ready == s.ready && t.pending == s.pending && t.current == s.current && t.next == s.next
            && (Active(t) ==> Active(s))
  {
    hide Resolve, Fetched, Taken;
    match m
    case Stop =>
    case Finish(_, _) =>
    case _ =>
  }

  ghost predicate SameWorkers(s: State, t: State) {
    t.workers == s.workers && t.dropped == s.dropped && (Stopping(s) ==> Stopping(t))
  }

  lemma ScheduleWindow(p: Plan, s: State, t: State)
    requires Window(p, s) && SameWorkers(s, t) && Active(s) && Size(s) < p.window
    requires t.ready == s.ready && t.pending == s.pending + {s.next} && t.current == s.current && t.next == s.next + 1
    ensures Window(p, t)
  {
    Scheduled(s, t);
    hide Partition;
  }

  lemma ReceiveWindow(p: Plan, s: State, t: State)
    requires Window(p, s) && SameWorkers(s, t) && Active(s) && |s.results| > 0
    requires var d := s.results[0];
             && d.height in s.pending && t.ready == s.ready[d.height := d] && t.pending == s.pending - {d.height}
    requires t.current == s.current && t.next == s.next
    ensures Window(p, t)
  {
    Received(s, t, s.results[0].height, s.results[0]);
    hide Partition;
  }

  lemma SubmitWindow(p: Plan, s: State, t: State)
    requires Window(p, s) && SameWorkers(s, t) && Active(s) && s.current in s.ready
    requires t.ready == s.ready - {s.current} && t.pending == s.pending && t.next == s.next
    requires Active(t) ==> t.current == s.current + 1
    ensures Window(p, t)
  {
    Emptied(s, t);
    hide Partition;
  }

  lemma SubmitKeepsWindow(p: Plan, s: State)
    requires Enabled(p, s, Submit) && Window(p, s)
    ensures Window(p, Apply(p, s, Submit))
  {
    hide Resolve, Fetched, Taken, Partition, Window, Apply;
    SubmitFrame(p, s);
    SubmitWindow(p, s, Apply(p, s, Submit));
  }
  lemma ReceiveKeepsWindow(p: Plan, s: State)
    requires Enabled(p, s, Receive) && Window(p, s) && Placed(s)
    ensures Window(p, Apply(p, s, Receive))
  {
    hide Resolve, Fetched, Taken, Partition, Window, Placed;
    ResultIsPending(s);
    ReceiveWindow(p, s, Apply(p, s, Receive));
  }

  lemma InterruptKeepsWindow(p: Plan, s: State, submitting: bool)
    requires Enabled(p, s, Interrupt(submitting)) && Window(p, s)
    ensures Window(p, Apply(p, s, Interrupt(submitting)))
  {
    hide Resolve, Fetched, Taken, Partition, Window, Apply;
    InterruptFrame(p, s, submitting);
    if submitting {
      SubmitWindow(p, s, Apply(p, s, Interrupt(submitting)));
    } else {
      SameWindow(p, s, Apply(p, s, Interrupt(submitting)));
    }
  }

  lemma ScheduleKeepsWindow(p: Plan, s: State)
    requires Enabled(p, s, Schedule) && Window(p, s)
    ensures Window(p, Apply(p, s, Schedule))
  {
    hide Resolve, Fetched, Taken, Partition, Window;
    ScheduleWindow(p, s, Apply(p, s, Schedule));
  }

  lemma WindowKept(p: Plan, s: State, m: Move)
    requires Enabled(p, s, m) && Window(p, s) && Placed(s)
    ensures Window(p, Apply(p, s, m))
  {
    OneWorker(p, s, m);
    if !Reshapes(m) {
      KeepsShape(p, s, m);
    }
    hide Apply, Enabled, Partition, Placed, Window;
    match m
    case Schedule => ScheduleKeepsWindow(p, s);
    case Receive => ReceiveKeepsWindow(p, s);
    case Submit => SubmitKeepsWindow(p, s);
    case Interrupt(submitting) => InterruptKeepsWindow(p, s, submitting);
    case _ => SameWindow(p, s, Apply(p, s, m));
  }

  // ----- what travels, and how far scheduling has come

  predicate HandlesData(m: Move) {
    m.Schedule? || m.Receive? || m.Take? || m.Finish? || m.Send? || m.Submit? || m.Interrupt?
  }

  lemma HandsOver(p: Plan, s: State, m: Move)
    requires Enabled(p, s, m) && !HandlesData(m)
    ensures var t := Apply(p, s, m);
            && t.ready == s.ready && t.jobs == s.jobs && t.results == s.results && |t.workers| == |s.workers|
            && (forall w :: 0 <= w < |s.workers| ==> t.workers[w] == s.workers[w] || t.workers[w].Exited?)
            && (Stopping(s) ==> Stopping(t))
  {
    hide Resolve, Fetched, Taken;
    match m
    case Stop =>
    case Finish(_, _) =>
    case _ =>
  }

  lemma SameContents(p: Plan, s: State, t: State)
    requires Contents(p, s) && t.jobs == s.jobs && t.results == s.results && |t.workers| == |s.workers|
    requires forall w :: 0 <= w < |s.workers| ==> t.workers[w] == s.workers[w] || t.workers[w].Exited?
    requires Stopping(s) ==> Stopping(t)
    requires forall h :: h in t.ready ==> h in s.ready && t.ready[h] == s.ready[h]
    ensures Contents(p, t)
  {
    hide Resolve, Fetched, Stopping;
  }

  lemma WorkerContents(p: Plan, s: State, t: State, w: nat)
    requires Contents(p, s) && t.ready == s.ready && Stopping(s) == Stopping(t)
    requires w < |s.workers| == |t.workers| && t.workers == s.workers[w := t.workers[w]]
    requires WorkerAgrees(p, t.workers[w], Stopping(s))
    requires t.jobs == s.jobs || (|s.jobs| > 0 && t.jobs == s.jobs[1..])
    requires t.results == s.results || (s.workers[w].Holding? && t.results == s.results + [s.workers[w].result])
    ensures Contents(p, t)
  {
    hide IsJob, Fetched, Stopping;
    assert s.workers[w].Holding? ==> IsDownload(p, s.workers[w].result, Stopping(s));
    hide IsDownload, WorkerAgrees;
  }

  lemma ReceiveContents(p: Plan, s: State)
    requires Contents(p, s) && Enabled(p, s, Receive)
    ensures Contents(p, Apply(p, s, Receive))
  {
    hide IsJob, IsDownload, WorkerAgrees;
  }

  lemma ScheduleContents(p: Plan, s: State)
    requires Contents(p, s) && Enabled(p, s, Schedule)
    ensures Contents(p, Apply(p, s, Schedule))
  {
    var t := Apply(p, s, Schedule);
    assert IsJob(p, t.jobs[|s.jobs|]);
    hide Resolve, IsJob, IsDownload, WorkerAgrees;
  }

  lemma ShrinkContents(p: Plan, s: State, m: Move)
    requires Contents(p, s) && Enabled(p, s, m) && (m.Submit? || m.Interrupt?)
    ensures Contents(p, Apply(p, s, m))
  {
    hide Contents, Resolve, Apply;
    match m {
      case Submit => SubmitFrame(p, s);
      case Interrupt(submitting) => InterruptFrame(p, s, submitting);
    }
    SameContents(p, s, Apply(p, s, m));
  }
  lemma ContentsKept(p: Plan, s: State, m: Move)
    requires Enabled(p, s, m) && Contents(p, s)
    ensures Contents(p, Apply(p, s, m))
  {
    if !HandlesData(m) {
      HandsOver(p, s, m);
      hide Apply, Enabled, Contents;
      SameContents(p, s, Apply(p, s, m));
    } else {
      hide Resolve, Fetched, Taken;
      match m
      case Schedule => ScheduleContents(p, s);
      case Receive => ReceiveContents(p, s);
      case Submit => ShrinkContents(p, s, m);
      case Interrupt(_) => ShrinkContents(p, s, m);
      case _ => WorkerMoveContents(p, s, m);
    }
  }

  lemma WorkerMoveContents(p: Plan, s: State, m: Move)
    requires Enabled(p, s, m) && Contents(p, s) && (m.Take? || m.Finish? || m.Send?)
    ensures Contents(p, Apply(p, s, m))
  {
    var t := Apply(p, s, m);
    assert WorkerAgrees(p, s.workers[m.w], Stopping(s));
    assert m.Take? ==> IsJob(p, s.jobs[0]);
    assert WorkerAgrees(p, t.workers[m.w], Stopping(s));
    hide Resolve, Fetched, WorkerAgrees, Contents;
    WorkerContents(p, s, t, m.w);
  }

  /** Scheduling goes on exactly up to the stop. */
  lemma NextBeforeStop(p: Plan, stop: nat, s: State)
    requires StopsAt(p.view, p.first, stop) && p.first <= s.next <= stop
    ensures Resolve(p.view, s.next).Hash? <==> s.next < stop
  {
    hide Resolve;
  }

  lemma ScheduleControl(p: Plan, stop: nat, s: State)
    requires StopsAt(p.view, p.first, stop) && Enabled(p, s, Schedule) && Control(p, stop, s) && Window(p, s)
    ensures Control(p, stop, Apply(p, s, Schedule))
  {
    hide StopsAt, Resolve, Window, Size;
    FillReach(p, s);
    NextBeforeStop(p, stop, s);
  }

  lemma WaitControl(p: Plan, stop: nat, s: State)
    requires StopsAt(p.view, p.first, stop) && Enabled(p, s, FillWait) && Control(p, stop, s) && Window(p, s)
    ensures Control(p, stop, Apply(p, s, FillWait))
  {
    hide StopsAt, Resolve, Window, Size;
    FillReach(p, s);
    NextBeforeStop(p, stop, s);
  }

  lemma ReceiveControl(p: Plan, stop: nat, s: State)
    requires Enabled(p, s, Receive) && Control(p, stop, s) && Window(p, s) && Window(p, Apply(p, s, Receive))
    ensures Control(p, stop, Apply(p, s, Receive))
  {
    hide Resolve, Window;
    SameSize(p, s, Apply(p, s, Receive));
  }

  lemma SameSize(p: Plan, s: State, t: State)
    requires Active(s) && Active(t) && Window(p, s) && Window(p, t) && t.current == s.current && t.next == s.next
    ensures Size(t) == Size(s)
  {
  }

  lemma OtherControl(p: Plan, stop: nat, s: State, m: Move)
    requires Enabled(p, s, m) && Control(p, stop, s) && !m.Schedule? && !m.FillWait? && !m.Receive? && !m.Submit?
    ensures Control(p, stop, Apply(p, s, m))
  {
    hide Resolve, Fetched, Taken;
    match m
    case Stop =>
    case Interrupt(_) =>
    case Finish(_, _) =>
    case _ =>
  }

  lemma ControlKept(p: Plan, stop: nat, s: State, m: Move)
    requires StopsAt(p.view, p.first, stop) && Enabled(p, s, m) && Control(p, stop, s)
    requires Window(p, s) && Window(p, Apply(p, s, m)) && Contents(p, s)
    ensures Control(p, stop, Apply(p, s, m))
  {
    hide StopsAt, Contents, Window, Control, Apply, Enabled;
    match m
    case Submit => SubmitControl(p, stop, s);
    case Receive => ReceiveControl(p, stop, s);
    case Schedule => ScheduleControl(p, stop, s);
    case FillWait => WaitControl(p, stop, s);
    case _ => OtherControl(p, stop, s, m);
  }

  /** What a submit does besides talking to the node. */
  lemma SubmitShape(p: Plan, s: State)
    requires Enabled(p, s, Submit)
    ensures var t := Apply(p, s, Submit);
            && t.next == s.next && t.stopped == s.stopped && t.waitHeaders == s.waitHeaders && t.waitIndex == s.waitIndex
            && t.outer == s.outer && (t.phase.Filling? || t.phase.Done?)
            && t.current == s.current + (if t.phase.Filling? then 1 else 0)
            && (t.phase.Filling? ==>
                  var h := s.ready[s.current].height;
                  t.report == s.report.(submitted := s.report.submitted + 1, last := h, target := h + 1))
  {
    hide Resolve, Fetched, Taken;
  }

  /** The block about to be submitted is the current height's. */
  lemma CurrentBlock(p: Plan, s: State)
    requires s.phase.Looping? && s.current in s.ready && Window(p, s) && Contents(p, s)
    ensures s.current < s.next
    ensures var d := s.ready[s.current]; d.height == s.current && IsDownload(p, d, Stopping(s))
  {
    hide IsDownload, WorkerAgrees, IsJob;
  }

  lemma SubmitControl(p: Plan, stop: nat, s: State)
    requires Enabled(p, s, Submit) && Control(p, stop, s) && Window(p, s) && Contents(p, s)
    ensures Control(p, stop, Apply(p, s, Submit))
  {
    hide Resolve, Fetched, Taken, Contents, Window, Apply, Size, IsDownload;
    CurrentBlock(p, s);
    SubmitShape(p, s);
  }

  // ----- the promise

  lemma {:induction false} AheadExtends(p: Plan, stop: nat, look: nat, c: nat, log: seq<Submission>)
    requires 0 < p.first <= c <= stop
    ensures log <= Ahead(p, stop, look, c, log).0
    decreases stop - c
  {
    hide Resolve, Try;
    if c < stop && Resolve(p.view, c).Hash? {
      TryExtends(p, c, Resolve(p.view, c).hash, log);
      match Try(p, c, Resolve(p.view, c).hash, log)
      case Ended(_, _) =>
      case Went(log') => AheadExtends(p, stop, look, c + 1, log');
    }
  }

  lemma TryExtends(p: Plan, c: nat, hash: string, log: seq<Submission>)
    requires 0 < p.first <= c
    ensures log <= Try(p, c, hash, log).log
  {
    hide Fetched, Taken;
  }

  /** One height of the one-goroutine run: not yet at its end, and with the block in hand. */
  lemma AheadStep(p: Plan, stop: nat, look: nat, c: nat, log: seq<Submission>, d: Download)
    requires 0 < p.first <= c < stop && IsJob(p, Job(c, d.hash)) && d.height == c && d.raw == Fetched(p.view, d.hash)
    requires Resolve(p.view, stop).Broken? ==> c + look <= stop
    ensures var all := Ahead(p, stop, look, c, log);
            match d.raw
            case Failure(e) => all == (log, Outcome(ReportAt(p, c), Some(NoBlock(c, e))))
            case Success(raw) =>
              var block := Submission(c, raw);
              var reply := p.node(log, block);
              && log + [block] <= all.0
              && all == if Taken(reply, c) then Ahead(p, stop, look, c + 1, log + [block])
                        else (log + [block], Outcome(ReportAt(p, c), Some(Refused(c, reply))))
  {
    hide Resolve, Fetched, Taken;
    if d.raw.Success? {
      AheadExtends(p, stop, look, c + 1, log + [Submission(c, d.raw.value)]);
    }
  }

  /** While the main loop is past filling, the one-goroutine run does not end at this height for want of the stop's hash. */
  lemma FilledFarEnough(p: Plan, stop: nat, s: State)
    requires s.phase.Looping? && Window(p, s) && Control(p, stop, s)
    ensures Resolve(p.view, stop).Broken? ==> s.current + p.window <= stop
    ensures s.current in s.ready ==> s.current < stop
    ensures s.current !in s.ready && s.current !in s.pending && s.stopped ==> s.current == s.next == stop
  {
    hide Resolve;
  }

  /** What a submit answers. */
  lemma SubmitAnswer(p: Plan, s: State)
    requires Enabled(p, s, Submit)
    ensures var d, t := s.ready[s.current], Apply(p, s, Submit);
            match d.raw
            case Failure(e) => t.log == s.log && t.phase == Done(Outcome(s.report, Some(NoBlock(d.height, e))))
            case Success(raw) =>
              var block := Submission(d.height, raw);
              var reply := p.node(s.log, block);
              && t.log == s.log + [block]
              && if Taken(reply, d.height) then t.phase == Filling && t.current == s.current + 1
                 else t.phase == Done(Outcome(s.report, Some(Refused(d.height, reply))))
  {
    hide Resolve, Fetched, Taken;
  }

  lemma SubmitPromise(p: Plan, stop: nat, s: State)
    requires Enabled(p, s, Submit) && Window(p, s) && Contents(p, s) && Control(p, stop, s)
    requires Control(p, stop, Apply(p, s, Submit))
    requires Promise(p, stop, s)
    ensures Promise(p, stop, Apply(p, s, Submit))
  {
    hide Window, Contents, Ahead, Resolve, Fetched, Taken, IsJob, Apply;
    FilledFarEnough(p, stop, s);
    CurrentBlock(p, s);
    SubmitAnswer(p, s);
    SubmitShape(p, s);
    var d := s.ready[s.current];
    AheadExtends(p, stop, p.window, s.current, s.log);
    if d.raw == Fetched(p.view, d.hash) {
      JobOf(p, d);
      AheadStep(p, stop, p.window, s.current, s.log, d);
    }
  }

  lemma JobOf(p: Plan, d: Download)
    requires IsJob(p, Job(d.height, d.hash))
    ensures Resolve(p.view, d.height).Hash?
  {
  }

  lemma StopPromise(p: Plan, stop: nat, s: State)
    requires Enabled(p, s, Stop) && Window(p, s) && Control(p, stop, s) && Promise(p, stop, s)
    ensures Promise(p, stop, Apply(p, s, Stop))
  {
    hide Window, Resolve, Fetched, Taken;
    FilledFarEnough(p, stop, s);
  }

  lemma FillErrorPromise(p: Plan, stop: nat, s: State)
    requires Enabled(p, s, FillError) && Window(p, s) && Control(p, stop, s) && Promise(p, stop, s)
    requires StopsAt(p.view, p.first, stop)
    ensures Promise(p, stop, Apply(p, s, FillError))
  {
    hide Resolve, Fetched, Taken, StopsAt, Window;
    FillReach(p, s);
    NextBeforeStop(p, stop, s);
  }

  lemma FillReach(p: Plan, s: State)
    requires MayFill(p, s) && Window(p, s)
    ensures s.next - s.current < p.window && s.next !in s.pending && s.current <= s.next
  {
  }

  lemma InterruptPromise(p: Plan, stop: nat, s: State, submitting: bool)
    requires Enabled(p, s, Interrupt(submitting)) && Window(p, s) && Contents(p, s) && Control(p, stop, s)
    requires Promise(p, stop, s)
    ensures Promise(p, stop, Apply(p, s, Interrupt(submitting)))
  {
    hide Window, Contents, Ahead, Resolve, Fetched, Taken, IsJob, Apply;
    InterruptFrame(p, s, submitting);
    AheadExtends(p, stop, p.window, s.current, s.log);
    if submitting {
      FilledFarEnough(p, stop, s);
      CurrentBlock(p, s);
      var d := s.ready[s.current];
      JobOf(p, d);
      AheadStep(p, stop, p.window, s.current, s.log, d);
    }
  }

  predicate Decides(m: Move) {
    m.Submit? || m.Stop? || m.FillError? || m.Interrupt?
  }

  lemma UndecidedPromise(p: Plan, stop: nat, s: State, m: Move)
    requires Enabled(p, s, m) && !Decides(m) && 0 < p.first <= s.current <= stop && Promise(p, stop, s)
    ensures Apply(p, s, m).current == s.current && Promise(p, stop, Apply(p, s, m))
  {
    hide Ahead, Resolve, Fetched, Taken;
    match m
    case Stop =>
    case Finish(_, _) =>
    case _ =>
  }

  lemma PromiseKept(p: Plan, stop: nat, s: State, m: Move)
    requires Enabled(p, s, m) && StopsAt(p.view, p.first, stop)
    requires Window(p, s) && Contents(p, s) && Control(p, stop, s) && Promise(p, stop, s)
    requires Control(p, stop, Apply(p, s, m))
    ensures Promise(p, stop, Apply(p, s, m))
  {
    hide Apply, Enabled, Window, Contents, Promise, StopsAt;
    match m
    case Submit => SubmitPromise(p, stop, s);
    case Stop => StopPromise(p, stop, s);
    case FillError => FillErrorPromise(p, stop, s);
    case Interrupt(submitting) => InterruptPromise(p, stop, s, submitting);
    case _ => UndecidedPromise(p, stop, s, m);
  }

  lemma ReturnKept(p: Plan, s: State, m: Move)
    requires Enabled(p, s, m) && (s.phase.Returned? ==> AllExited(s))
    ensures Apply(p, s, m).phase.Returned? ==> AllExited(Apply(p, s, m))
  {
    hide Resolve, Fetched, Taken;
    match m
    case Stop =>
    case Finish(_, _) =>
    case _ =>
  }

  lemma CleanKept(p: Plan, stop: nat, s: State, m: Move)
    requires Enabled(p, s, m) && Window(p, s) && Control(p, stop, s)
    requires !Active(s) && s.phase.outcome.error.None? ==> s.ready == map[] && s.pending == {}
    ensures var t := Apply(p, s, m);
            !Active(t) && t.phase.outcome.error.None? ==> t.ready == map[] && t.pending == {}
  {
    hide Resolve, Fetched, Taken, Window, Control, AllExited;
    match m
    case Stop =>
      FilledFarEnough(p, stop, s);
      NothingLeft(p, s);
    case Submit => SubmitAnswer(p, s);
    case _ =>
  }

  lemma EndKept(p: Plan, stop: nat, s: State, m: Move)
    requires Enabled(p, s, m) && EndAgrees(s) && Window(p, s) && Control(p, stop, s)
    ensures EndAgrees(Apply(p, s, m))
  {
    hide Apply, Enabled, Window, Control, AllExited;
    ReturnKept(p, s, m);
    CleanKept(p, stop, s, m);
  }

  lemma NothingLeft(p: Plan, s: State)
    requires Active(s) && Window(p, s) && s.current == s.next
    ensures s.ready == map[] && s.pending == {}
  {
  }

  lemma InvKept(p: Plan, stop: nat, s: State, m: Move)
    requires Inv(p, stop, s) && Enabled(p, s, m)
    ensures Inv(p, stop, Apply(p, s, m))
  {
    hide Apply, Enabled, Window, Placed, Contents, Control, Promise, StopsAt, EndAgrees;
    if m.Schedule? {
      ScheduleFresh(p, s);
    }
    PlacedKept(p, s, m);
    WindowKept(p, s, m);
    ContentsKept(p, s, m);
    ControlKept(p, stop, s, m);
    PromiseKept(p, stop, s, m);
    EndKept(p, stop, s, m);
  }

  lemma ScheduleFresh(p: Plan, s: State)
    requires Enabled(p, s, Schedule) && Window(p, s)
    ensures s.next !in s.pending
  {
    FillReach(p, s);
  }

  // ----- whole runs

  /** A run is any sequence of enabled moves. */
  ghost predicate IsRun(p: Plan, s: State, moves: seq<Move>)
    decreases |moves|
  {
    moves == [] || (Enabled(p, s, moves[0]) && IsRun(p, Apply(p, s, moves[0]), moves[1..]))
  }

  ghost function RunEnd(p: Plan, s: State, moves: seq<Move>): State
    requires IsRun(p, s, moves)
    decreases |moves|
  {
    if moves == [] then s else RunEnd(p, Apply(p, s, moves[0]), moves[1..])
  }

  lemma {:induction false} RunInv(p: Plan, stop: nat, s: State, moves: seq<Move>)
    requires Inv(p, stop, s) && IsRun(p, s, moves)
    ensures Inv(p, stop, RunEnd(p, s, moves))
    decreases |moves|
  {
    hide Inv, Apply, Enabled;
    if moves != [] {
      InvKept(p, stop, s, moves[0]);
      RunInv(p, stop, Apply(p, s, moves[0]), moves[1..]);
    }
  }

  /** Every reachable state: the window holds the next heights once each, ready or pending; a pending height is in exactly
      one place; and both channels have room for whatever is about to be sent. */
  lemma WindowHolds(p: Plan, stop: nat, moves: seq<Move>)
    requires ValidPlan(p) && StopsAt(p.view, p.first, stop) && IsRun(p, Start(p), moves)
    ensures var s := RunEnd(p, Start(p), moves);
            && (Active(s) ==> Partition(s))
            && Size(s) <= p.window && |s.workers| == p.workers
            && Placed(s)
            && (MayFill(p, s) ==> |s.jobs| < p.window)
            && (forall w :: 0 <= w < |s.workers| && s.workers[w].Holding? ==> |s.results| < p.window)
  {
    hide Resolve, Contents, Control, Promise, StopsAt, Placed, Partition;
    StartInv(p, stop);
    RunInv(p, stop, Start(p), moves);
    SendsNeverBlock(p, stop, RunEnd(p, Start(p), moves));
  }

  /** The places a pending height can be in hold as many heights as are pending. */
  lemma Counts(s: State)
    requires Placed(s)
    ensures |s.jobs| + |Held(s.workers)| + |s.results| + |s.dropped| == |s.pending|
  {
    hide Held;
    assert |multiset(s.pending)| == |s.pending|;
    assert |multiset(JobHeights(s.jobs))| == |s.jobs| && |multiset(ResultHeights(s.results))| == |s.results|;
  }

  lemma {:induction false} HeldContains(workers: seq<Worker>, w: nat)
    requires w < |workers|
    ensures |Held(workers)| >= |HeldBy(workers[w])|
  {
    if w < |workers| - 1 {
      HeldContains(workers[..|workers| - 1], w);
    }
  }

  lemma SendsNeverBlock(p: Plan, stop: nat, s: State)
    requires Inv(p, stop, s)
    ensures MayFill(p, s) ==> |s.jobs| < p.window
    ensures forall w :: 0 <= w < |s.workers| && s.workers[w].Holding? ==> |s.results| < p.window
  {
    hide Contents, Control, Promise, StopsAt, Placed, Partition, Held, EndAgrees;
    Counts(s);
    forall w | 0 <= w < |s.workers| && s.workers[w].Holding? ensures |s.results| < p.window {
      HeldContains(s.workers, w);
      assert |HeldBy(s.workers[w])| == 1;
    }
  }

  lemma {:induction false} SomebodyHolds(workers: seq<Worker>) returns (w: nat)
    requires |Held(workers)| > 0
    ensures w < |workers| && (workers[w].Busy? || workers[w].Holding?)
  {
    var n := |workers| - 1;
    if workers[n].Busy? || workers[n].Holding? {
      w := n;
    } else {
      w := SomebodyHolds(workers[..n]);
    }
  }

  /** While the main loop waits, the current height is on its way, and some worker can step or a result is there. */
  lemma WaitingEnds(p: Plan, stop: nat, s: State) returns (m: Move)
    requires Inv(p, stop, s) && s.phase.Looping? && !s.outer && s.current !in s.ready
    requires s.current in s.pending || !s.stopped
    ensures s.current in s.pending
    ensures Enabled(p, s, m) && (m.Receive? || m.Take? || m.Send? || (m.Finish? && !m.interrupted))
  {
    hide Resolve, Contents, Promise, StopsAt, Placed, Held, EndAgrees, Fetched;
    assert s.current in s.pending;
    Counts(s);
    if |s.results| > 0 {
      return Receive;
    }
    if |Held(s.workers)| > 0 {
      var w := SomebodyHolds(s.workers);
      return if s.workers[w].Busy? then Finish(w, false) else Send(w);
    }
    assert |s.pending| > 0;
    NobodyHoldsAt(s.workers, 0);
    return Take(0);
  }

  lemma NobodyHoldsAt(workers: seq<Worker>, w: nat)
    requires w < |workers| && |Held(workers)| == 0
    ensures !workers[w].Busy? && !workers[w].Holding?
  {
    HeldContains(workers, w);
  }

  /** Until the call returns some step is possible, and without a cancellation by the caller one that is no cancellation. */
  lemma Progress(p: Plan, stop: nat, s: State) returns (m: Move)
    requires Inv(p, stop, s) && !s.phase.Returned?
    ensures Enabled(p, s, m) && !m.OuterCancel? && (!s.outer ==> !m.Interrupt?) && (m.Finish? ==> !m.interrupted)
  {
    hide Resolve, Inv, AllExited, Active;
    match s.phase
    case Filling =>
      SendsNeverBlock(p, stop, s);
      m := if !MayFill(p, s) then FillDone
           else match Resolve(p.view, s.next) case Hash(_) => Schedule case Wait(_) => FillWait case Broken(_) => FillError;
    case Looping =>
      if s.current in s.ready {
        m := Submit;
      } else if s.current !in s.pending && s.stopped {
        m := Stop;
      } else if s.outer {
        m := Interrupt(false);
        LoopingIsActive(s);
      } else {
        m := WaitingEnds(p, stop, s);
      }
    case Done(_) => m := Winding(p, s);
  }

  lemma LoopingIsActive(s: State)
    requires s.phase.Looping?
    ensures Active(s)
  {
  }

  /** Once the outcome is settled every worker leaves, and then the call returns. */
  lemma Winding(p: Plan, s: State) returns (m: Move)
    requires s.phase.Done?
    ensures Enabled(p, s, m) && !m.OuterCancel? && !m.Interrupt? && (m.Finish? ==> !m.interrupted)
  {
    hide Resolve;
    if AllExited(s) {
      m := Join;
    } else {
      var w: nat :| w < |s.workers| && !s.workers[w].Exited?;
      m := if s.workers[w].Idle? then Leave(w) else if s.workers[w].Busy? then Finish(w, false) else Drop(w);
    }
  }

  // ----- termination

  function Weight(x: Worker): nat {
    match x
    case Busy(_) => 6
    case Holding(_) => 5
    case Idle => 1
    case Exited => 0
  }

  /** Each height costs 7 while unscheduled, 6 queued, 6 or 5 with a worker (who costs 1 idle), 3 as a queued result,
      2 when ready, and nothing once submitted. */
  function Measure(stop: nat, s: State): int {
    7 * (stop - s.next) + 6 * |s.jobs| + 3 * |s.results| + 2 * |s.ready| + Tally.Total(s.workers, Weight)
    + (match s.phase case Filling => 3 case Looping => 2 case Done(_) => 1 case Returned(_) => 0)
    + (if s.outer then 0 else 1)
  }

  lemma WorkerStep(p: Plan, s: State, m: Move)
    requires Enabled(p, s, m) && (m.Take? || m.Finish? || m.Send? || m.Drop? || m.Leave?)
    ensures var t := Apply(p, s, m);
            && t.next == s.next && t.ready == s.ready && t.phase == s.phase && t.outer == s.outer
            && m.w < |s.workers| && t.workers == s.workers[m.w := t.workers[m.w]]
            && 6 * |t.jobs| + 3 * |t.results| + Weight(t.workers[m.w]) < 6 * |s.jobs| + 3 * |s.results| + Weight(s.workers[m.w])
  {
    hide Resolve, Fetched;
  }

  lemma MainStep(p: Plan, s: State, m: Move)
    requires Enabled(p, s, m) && !(m.Take? || m.Finish? || m.Send? || m.Drop? || m.Leave?)
    requires m.Receive? ==> s.results[0].height !in s.ready
    ensures var t := Apply(p, s, m); t.workers == s.workers && Measure(0, t) < Measure(0, s)
  {
    hide Resolve, Fetched, Taken, Tally.Total;
    match m
    case Submit => SubmitStep(p, s);
    case Interrupt(submitting) => InterruptStep(p, s, submitting);
    case Receive => assert (s.ready[s.results[0].height := s.results[0]]).Keys == s.ready.Keys + {s.results[0].height};
    case Schedule =>
    case _ => CalmStep(p, s, m);
  }

  lemma SubmitStep(p: Plan, s: State)
    requires Enabled(p, s, Submit)
    ensures var t := Apply(p, s, Submit); t.workers == s.workers && Measure(0, t) < Measure(0, s)
  {
    hide Resolve, Fetched, Taken, Tally.Total;
    SubmitShape(p, s);
    SubmitFrame(p, s);
    hide Apply;
    assert (s.ready - {s.current}).Keys == s.ready.Keys - {s.current};
  }

  lemma InterruptStep(p: Plan, s: State, submitting: bool)
    requires Enabled(p, s, Interrupt(submitting))
    ensures var t := Apply(p, s, Interrupt(submitting)); t.workers == s.workers && Measure(0, t) < Measure(0, s)
  {
    hide Resolve, Fetched, Taken, Tally.Total;
    assert submitting ==> (s.ready - {s.current}).Keys == s.ready.Keys - {s.current};
  }

  lemma CalmStep(p: Plan, s: State, m: Move)
    requires Enabled(p, s, m) && (m.FillWait? || m.FillError? || m.FillDone? || m.Stop? || m.Join? || m.OuterCancel?)
    ensures var t := Apply(p, s, m); t.workers == s.workers && Measure(0, t) < Measure(0, s)
  {
    hide Resolve, Tally.Total;
  }

  /** Every step brings the call closer to its return. */
  lemma MeasureDrops(p: Plan, stop: nat, s: State, m: Move)
    requires Inv(p, stop, s) && Enabled(p, s, m)
    ensures Measure(stop, Apply(p, s, m)) < Measure(stop, s)
  {
    hide Apply, Window, Placed, Contents, Control, Promise, StopsAt, EndAgrees, Resolve, Tally.Total, Weight;
    if m.Take? || m.Finish? || m.Send? || m.Drop? || m.Leave? {
      WorkerStep(p, s, m);
      Tally.TotalUpdate(s.workers, Weight, m.w, Apply(p, s, m).workers[m.w]);
    } else {
      if m.Receive? {
        ReceivedIsNew(p, s);
      }
      MainStep(p, s, m);
    }
  }

  lemma ReceivedIsNew(p: Plan, s: State)
    requires Window(p, s) && Placed(s) && Active(s) && |s.results| > 0
    ensures s.results[0].height !in s.ready
  {
    hide Placed;
    ResultIsPending(s);
  }
  /** So no run takes more steps than the measure of the start allows: 7 a height, one a worker, and 4. */
  lemma {:induction false} RunsAreBounded(p: Plan, stop: nat, s: State, moves: seq<Move>)
    requires Inv(p, stop, s) && IsRun(p, s, moves)
    ensures |moves| <= Measure(stop, s)
    decreases |moves|
  {
    hide Apply, Enabled;
    if moves != [] {
      MeasureDrops(p, stop, s, moves[0]);
      InvKept(p, stop, s, moves[0]);
      RunsAreBounded(p, stop, Apply(p, s, moves[0]), moves[1..]);
    }
  }

  lemma OnlyTheCallerCancels(p: Plan, s: State, m: Move)
    requires Enabled(p, s, m) && !m.OuterCancel?
    ensures Apply(p, s, m).outer == s.outer
  {
    hide Resolve, Fetched, Taken;
    match m
    case Stop =>
    case Finish(_, _) =>
    case _ =>
  }

  /** From wherever a run has come to, it can go on to the return of the call, without a cancellation by the caller. */
  lemma {:induction false} EveryRunCanReturn(p: Plan, stop: nat, s: State) returns (moves: seq<Move>)
    requires Inv(p, stop, s)
    ensures IsRun(p, s, moves)
    ensures RunEnd(p, s, moves).phase.Returned? && RunEnd(p, s, moves).outer == s.outer
    decreases Measure(stop, s)
  {
    MeasureIsNatural(p, stop, s);
    hide Inv, Apply, Enabled, Measure;
    if s.phase.Returned? {
      moves := [];
    } else {
      var m := Progress(p, stop, s);
      InvKept(p, stop, s, m);
      MeasureDrops(p, stop, s, m);
      OnlyTheCallerCancels(p, s, m);
      var rest := EveryRunCanReturn(p, stop, Apply(p, s, m));
      moves := [m] + rest;
      assert moves[1..] == rest;
    }
  }

  lemma MeasureIsNatural(p: Plan, stop: nat, s: State)
    requires Inv(p, stop, s)
    ensures 0 <= Measure(stop, s)
  {
    hide Placed, Window, Contents, Promise, StopsAt, EndAgrees;
  }
}
