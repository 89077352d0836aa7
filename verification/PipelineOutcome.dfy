/** What the pipeline's outcome is, whatever the interleaving: that of one goroutine resolving a window ahead, and through
    it, up to that resolving ahead, that of the loop that handles one height at a time. */
module PipelineOutcome {
  import opened Prelude
  import opened Resolution
  import opened Pipeline

  /** Without a cancellation by the caller, every interleaving submits the same blocks and returns the same outcome, and no
      worker outlives the call. */
  lemma OutcomeIsAhead(p: Plan, stop: nat, moves: seq<Move>)
    requires ValidPlan(p) && StopsAt(p.view, p.first, stop) && IsRun(p, Start(p), moves)
    ensures var s := RunEnd(p, Start(p), moves);
            s.phase.Returned? && !s.outer ==>
              (s.log, s.phase.outcome) == Ahead(p, stop, p.window, p.first, []) && AllExited(s)
  {
    hide Resolve, Contents, Placed, Window, StopsAt, Ahead;
    StartInv(p, stop);
    RunInv(p, stop, Start(p), moves);
  }

  lemma ScheduleIndependence(p: Plan, stop: nat, moves: seq<Move>, others: seq<Move>)
    requires ValidPlan(p) && StopsAt(p.view, p.first, stop)
    requires IsRun(p, Start(p), moves) && IsRun(p, Start(p), others)
    requires var s := RunEnd(p, Start(p), moves); s.phase.Returned? && !s.outer
    requires var s := RunEnd(p, Start(p), others); s.phase.Returned? && !s.outer
    ensures var s, t := RunEnd(p, Start(p), moves), RunEnd(p, Start(p), others);
            s.log == t.log && s.phase.outcome == t.phase.outcome
  {
    hide RunEnd, IsRun, Start, StopsAt, Ahead;
    OutcomeIsAhead(p, stop, moves);
    OutcomeIsAhead(p, stop, others);
  }

  /** At any moment of any run, cancelled or not, what was submitted is a prefix of what the undisturbed run submits. */
  lemma SubmissionsArePrefix(p: Plan, stop: nat, moves: seq<Move>)
    requires ValidPlan(p) && StopsAt(p.view, p.first, stop) && IsRun(p, Start(p), moves)
    ensures RunEnd(p, Start(p), moves).log <= Ahead(p, stop, p.window, p.first, []).0
  {
    hide Resolve, Contents, Placed, Window, StopsAt, Ahead;
    StartInv(p, stop);
    RunInv(p, stop, Start(p), moves);
    var s := RunEnd(p, Start(p), moves);
    if Active(s) {
      AheadExtends(p, stop, p.window, s.current, s.log);
    }
  }

  // ----- one height at a time

  /** Resolve, download, verify and submit one height, then the next. */
  function Sequential(p: Plan, stop: nat, c: nat, log: seq<Submission>): (seq<Submission>, Outcome)
    requires 0 < p.first <= c <= stop
    decreases stop - c
  {
    match Resolve(p.view, c)
    case Broken(e) => (log, Outcome(ReportAt(p, c), Some(NoHash(c, e))))
    case Wait(index) => (log, Outcome(ReportAt(p, c).(waitHeaders := true, waitIndex := index), None))
    case Hash(hash) =>
      match Try(p, c, hash, log)
      case Ended(log', outcome) => (log', outcome)
      case Went(log') => if c == stop then (log', Outcome(ReportAt(p, c), None)) else Sequential(p, stop, c + 1, log')
  }

  /** The height below which resolving ahead makes no difference: from there on the stop is in the window. */
  function LookReaches(look: nat, c: nat, stop: nat): nat
    requires look > 0 && c <= stop
  {
    Max(c, if stop + 1 >= look then stop + 1 - look else 0)
  }

  /** The same, told by where the one-at-a-time run ends. */
  lemma {:induction false} AheadByTarget(p: Plan, stop: nat, look: nat, c: nat, log: seq<Submission>)
    requires StopsAt(p.view, p.first, stop) && 0 < p.first <= c <= stop && look > 0
    ensures var ahead, plain := Ahead(p, stop, look, c, log), Sequential(p, stop, c, log);
            && ahead.0 <= plain.0
            && c <= plain.1.report.target <= stop
            && (ahead == plain <==>
                  Resolve(p.view, stop).Wait? || plain.1.report.target < LookReaches(look, c, stop)
                  || LookReaches(look, c, stop) == stop)
    decreases stop - c
  {
    hide StopsAt, Resolve, Try, ReportAt;
    StopOrHash(p, stop, c);
    StopOrHash(p, stop, stop);
    SequentialExtends(p, stop, c, log);
    ReportTarget(p, c);
    if c < stop {
      TryTarget(p, c, Resolve(p.view, c).hash, log);
      match Try(p, c, Resolve(p.view, c).hash, log)
      case Ended(_, _) =>
      case Went(log') => AheadByTarget(p, stop, look, c + 1, log');
    }
  }

  lemma ReportTarget(p: Plan, c: nat)
    requires 0 < p.first <= c
    ensures ReportAt(p, c).target == c
  {
  }

  lemma TryTarget(p: Plan, c: nat, hash: string, log: seq<Submission>)
    requires 0 < p.first <= c
    ensures var t := Try(p, c, hash, log);
            t.Ended? ==> t.outcome.report.target == c && t.outcome.error.Some? && !t.outcome.error.value.NoHash?
  {
    hide Fetched, Taken;
  }

  /** The verified block at a height; nothing when there is none. */
  function BlockAt(p: Plan, h: nat): Bytes {
    if Resolve(p.view, h).Hash? && Fetched(p.view, Resolve(p.view, h).hash).Success?
    then Fetched(p.view, Resolve(p.view, h).hash).value else []
  }

  /** The blocks at heights c up to, not including, h. */
  function Blocks(p: Plan, c: nat, h: nat): seq<Submission>
    requires c <= h
  {
    seq(h - c, i requires 0 <= i < h - c => Submission(c + i, BlockAt(p, c + i)))
  }

  /** Height h cannot be passed: its block cannot be had, or the node does not take it after the log and the blocks from c on. */
  predicate Obstacle(p: Plan, c: nat, log: seq<Submission>, h: nat)
    requires c <= h
  {
    || !Resolve(p.view, h).Hash?
    || Fetched(p.view, Resolve(p.view, h).hash).Failure?
    || !Taken(p.node(log + Blocks(p, c, h), Submission(h, BlockAt(p, h))), h)
  }

  ghost predicate Blocked(p: Plan, c: nat, log: seq<Submission>, limit: nat) {
    exists h :: c <= h < limit && Obstacle(p, c, log, h)
  }

  lemma ObstacleNext(p: Plan, c: nat, log: seq<Submission>, h: nat)
    requires c < h
    ensures Obstacle(p, c + 1, log + [Submission(c, BlockAt(p, c))], h) <==> Obstacle(p, c, log, h)
  {
    hide Resolve, Fetched, Taken, BlockAt;
    assert log + [Submission(c, BlockAt(p, c))] + Blocks(p, c + 1, h) == log + Blocks(p, c, h);
  }

  lemma BlockedNext(p: Plan, c: nat, log: seq<Submission>, limit: nat)
    requires c < limit
    ensures Blocked(p, c, log, limit)
            <==> Obstacle(p, c, log, c) || Blocked(p, c + 1, log + [Submission(c, BlockAt(p, c))], limit)
  {
    hide Obstacle, BlockAt;
    var next, log' := c + 1, log + [Submission(c, BlockAt(p, c))];
    if Blocked(p, c, log, limit) {
      var h :| c <= h < limit && Obstacle(p, c, log, h);
      if h > c {
        ObstacleNext(p, c, log, h);
      }
    }
    if Blocked(p, next, log', limit) {
      var h :| next <= h < limit && Obstacle(p, next, log', h);
      ObstacleNext(p, c, log, h);
    }
  }

  lemma NotBlockedBelow(p: Plan, c: nat, log: seq<Submission>)
    ensures !Blocked(p, c, log, c)
  {
  }

  lemma ObstacleHere(p: Plan, c: nat, log: seq<Submission>)
    requires 0 < p.first <= c && Resolve(p.view, c).Hash?
    ensures var t := Try(p, c, Resolve(p.view, c).hash, log);
            && (Obstacle(p, c, log, c) <==> t.Ended?)
            && (t.Went? ==> t.log == log + [Submission(c, BlockAt(p, c))])
  {
    hide Resolve, Fetched, Taken;
    assert log + Blocks(p, c, c) == log;
  }

  /** The one-at-a-time run ends below a height exactly when one of the heights below it cannot be passed. */
  lemma {:induction false} EndsAtObstacle(p: Plan, stop: nat, c: nat, log: seq<Submission>, limit: nat)
    requires StopsAt(p.view, p.first, stop) && 0 < p.first <= c <= limit <= stop
    ensures Sequential(p, stop, c, log).1.report.target < limit <==> Blocked(p, c, log, limit)
    decreases stop - c
  {
    hide StopsAt, Resolve, Try, ReportAt, Obstacle, Blocked, BlockAt;
    StopOrHash(p, stop, c);
    AheadByTarget(p, stop, 1, c, log);
    NotBlockedBelow(p, c, log);
    if c < limit {
      ObstacleHere(p, c, log);
      BlockedNext(p, c, log, limit);
      TryTarget(p, c, Resolve(p.view, c).hash, log);
      match Try(p, c, Resolve(p.view, c).hash, log)
      case Ended(_, _) =>
      case Went(log') =>
        EndsAtObstacle(p, stop, c + 1, log', limit);
    }
  }

  /** Resolving ahead submits a prefix of what one height at a time does, and the two runs are the same, outcome and all,
      exactly when the stop is a wait, or some height before the stop comes into the window cannot be passed, or the window
      never reached beyond the height at hand. */
  lemma AheadOfSequential(p: Plan, stop: nat, look: nat, c: nat, log: seq<Submission>)
    requires StopsAt(p.view, p.first, stop) && 0 < p.first <= c <= stop && look > 0
    ensures var ahead, plain := Ahead(p, stop, look, c, log), Sequential(p, stop, c, log);
            && ahead.0 <= plain.0
            && (ahead == plain <==>
                  Resolve(p.view, stop).Wait? || Blocked(p, c, log, LookReaches(look, c, stop)) || LookReaches(look, c, stop) == stop)
  {
    hide StopsAt, Resolve, Ahead, Sequential, Blocked;
    AheadByTarget(p, stop, look, c, log);
    EndsAtObstacle(p, stop, c, log, LookReaches(look, c, stop));
  }

  /** Where they differ the pipeline gives up as soon as the stop comes into the window, having submitted what lies below. */
  lemma {:induction false} AheadGivesUp(p: Plan, stop: nat, look: nat, c: nat, log: seq<Submission>)
    requires StopsAt(p.view, p.first, stop) && 0 < p.first <= c <= stop && look > 0
    requires Resolve(p.view, stop).Broken? && !Blocked(p, c, log, LookReaches(look, c, stop))
    ensures var reach := LookReaches(look, c, stop);
            Ahead(p, stop, look, c, log)
            == (log + Blocks(p, c, reach), Outcome(ReportAt(p, reach), Some(NoHash(stop, Resolve(p.view, stop).error))))
    decreases stop - c
  {
    hide StopsAt, Resolve, Try, ReportAt, Obstacle, BlockAt, Blocked;
    StopOrHash(p, stop, c);
    var reach := LookReaches(look, c, stop);
    if c < reach {
      ObstacleHere(p, c, log);
      var log' := Try(p, c, Resolve(p.view, c).hash, log).log;
      BlockedNext(p, c, log, reach);
      AheadGivesUp(p, stop, look, c + 1, log');
      assert log' + Blocks(p, c + 1, reach) == log + Blocks(p, c, reach);
    } else {
      assert log + Blocks(p, c, c) == log;
    }
  }

  lemma StopOrHash(p: Plan, stop: nat, c: nat)
    requires StopsAt(p.view, p.first, stop) && p.first <= c <= stop
    ensures Resolve(p.view, c).Hash? <==> c < stop
  {
  }

  lemma {:induction false} SequentialExtends(p: Plan, stop: nat, c: nat, log: seq<Submission>)
    requires 0 < p.first <= c <= stop
    ensures log <= Sequential(p, stop, c, log).0
    decreases stop - c
  {
    hide Resolve, Try;
    if Resolve(p.view, c).Hash? {
      TryExtends(p, c, Resolve(p.view, c).hash, log);
      match Try(p, c, Resolve(p.view, c).hash, log)
      case Ended(_, _) =>
      case Went(log') =>
        if c < stop {
          SequentialExtends(p, stop, c + 1, log');
        }
    }
  }

  /** For every interleaving: a prefix of the one-at-a-time run, and all of it when resolution stops for a wait. */
  lemma PipelineRefinesSequential(p: Plan, stop: nat, moves: seq<Move>)
    requires ValidPlan(p) && StopsAt(p.view, p.first, stop) && IsRun(p, Start(p), moves)
    ensures var s, plain := RunEnd(p, Start(p), moves), Sequential(p, stop, p.first, []);
            && s.log <= plain.0
            && (s.phase.Returned? && !s.outer && Resolve(p.view, stop).Wait? ==> (s.log, s.phase.outcome) == plain)
  {
    hide StopsAt, Ahead, Sequential, Resolve, RunEnd, IsRun, Start;
    StopIsAhead(p, stop);
    SubmissionsArePrefix(p, stop, moves);
    OutcomeIsAhead(p, stop, moves);
    AheadOfSequential(p, stop, p.window, p.first, []);
  }

  // ----- what an outcome says

  /** Whatever is submitted are the heights from the first on, in order, each with the verified block of its hash. */
  ghost predicate InOrder(p: Plan, log: seq<Submission>) {
    forall i :: 0 <= i < |log| ==> RightBlock(p, p.first + i, log[i])
  }

  ghost predicate RightBlock(p: Plan, h: nat, block: Submission) {
    block.height == h && Resolve(p.view, h).Hash? && Fetched(p.view, Resolve(p.view, h).hash) == Success(block.raw)
  }

  /** A clean outcome means that every height up to the stop was submitted and that the stop is a wait, which it reports. */
  ghost predicate CleanOutcome(p: Plan, stop: nat, log: seq<Submission>, outcome: Outcome)
    requires 0 < p.first <= stop
  {
    && |log| == stop - p.first
    && Resolve(p.view, stop).Wait?
    && outcome.report == Report(stop - p.first, stop - 1, stop, true, Resolve(p.view, stop).index)
  }

  lemma {:induction false} AheadMeans(p: Plan, stop: nat, look: nat, c: nat, log: seq<Submission>)
    requires StopsAt(p.view, p.first, stop) && 0 < p.first <= c <= stop && look > 0
    requires InOrder(p, log) && |log| == c - p.first
    ensures var all := Ahead(p, stop, look, c, log);
            && InOrder(p, all.0)
            && (all.1.error.None? ==> CleanOutcome(p, stop, all.0, all.1))
    decreases stop - c
  {
    hide StopsAt, Resolve, Try, InOrder;
    StopOrHash(p, stop, c);
    StopOrHash(p, stop, stop);
    if c < stop {
      TryMeans(p, c, log);
      match Try(p, c, Resolve(p.view, c).hash, log)
      case Ended(_, _) =>
      case Went(log') => AheadMeans(p, stop, look, c + 1, log');
    }
  }

  lemma TryMeans(p: Plan, c: nat, log: seq<Submission>)
    requires 0 < p.first <= c && Resolve(p.view, c).Hash? && InOrder(p, log) && |log| == c - p.first
    ensures var t := Try(p, c, Resolve(p.view, c).hash, log);
            && InOrder(p, t.log)
            && (t.Went? ==> |t.log| == |log| + 1)
            && (t.Ended? ==> t.outcome.error.Some?)
  {
    hide Resolve, Fetched, Taken;
  }

  // ----- which replies go on, and what each error says

  /** The node has the block: it took it, it knew it, or its connection broke but its block count has reached the height. */
  predicate Counts(reply: Reply, height: nat) {
    || reply == Accepted
    || reply == AlreadyKnown
    || (reply.Broke? && reply.blocks.Some? && reply.blocks.value >= height)
  }

  /** Each of the submissions counts, as the node answered it after those before it. */
  ghost predicate AllCount(p: Plan, log: seq<Submission>) {
    forall i :: 0 <= i < |log| ==> Counts(p.node(log[..i], log[i]), log[i].height)
  }

  /** What a result says of the submissions: the report counts those that the node took; and an error names the height it
      stopped at and what happened there. A refused block is the last one that was submitted. */
  ghost predicate Tells(p: Plan, stop: nat, log: seq<Submission>, outcome: Outcome) {
    var report, n := outcome.report, |log|;
    && report.last + 1 == p.first + report.submitted && report.target == report.last + 1
    && (outcome.error.Some? ==> !report.waitHeaders && !report.waitIndex)
    && match outcome.error
       case None => AllCount(p, log) && report.submitted == n
       case Some(Refused(h, reply)) =>
         && n > 0 && log[n - 1].height == h == report.target && report.submitted == n - 1
         && AllCount(p, log[..n - 1]) && reply == p.node(log[..n - 1], log[n - 1])
         && (reply.Rejected? || (reply.Broke? && (reply.blocks.None? || reply.blocks.value < h)))
       case Some(NoBlock(h, e)) =>
         && AllCount(p, log) && report.submitted == n && h == report.target
         && Resolve(p.view, h).Hash? && Verdict(p.view, Resolve(p.view, h).hash, Failure(e))
       case Some(NoHash(h, e)) =>
         AllCount(p, log) && report.submitted == n && h == stop && Resolve(p.view, h) == Broken(e)
       case Some(Cancelled) => false
  }

  lemma {:induction false} AheadTells(p: Plan, stop: nat, look: nat, c: nat, log: seq<Submission>)
    requires StopsAt(p.view, p.first, stop) && 0 < p.first <= c <= stop && look > 0
    requires AllCount(p, log) && |log| == c - p.first
    ensures Tells(p, stop, Ahead(p, stop, look, c, log).0, Ahead(p, stop, look, c, log).1)
    decreases stop - c
  {
    hide StopsAt, Resolve, Try, AllCount, Verdict;
    StopOrHash(p, stop, c);
    StopOrHash(p, stop, stop);
    if c < stop {
      TryTells(p, stop, c, log);
      match Try(p, c, Resolve(p.view, c).hash, log)
      case Ended(_, _) =>
      case Went(log') => AheadTells(p, stop, look, c + 1, log');
    }
  }

  lemma TryTells(p: Plan, stop: nat, c: nat, log: seq<Submission>)
    requires 0 < p.first <= c && Resolve(p.view, c).Hash? && AllCount(p, log) && |log| == c - p.first
    ensures var t := Try(p, c, Resolve(p.view, c).hash, log);
            && (t.Went? ==> AllCount(p, t.log) && |t.log| == |log| + 1)
            && (t.Ended? ==> Tells(p, stop, t.log, t.outcome))
  {
    hide Resolve, Fetched, Verdict, AllCount, Taken, Counts;
    var hash := Resolve(p.view, c).hash;
    VerdictSettles(p.view, hash, Fetched(p.view, hash));
    match Fetched(p.view, hash)
    case Failure(e) =>
    case Success(raw) =>
      var block := Submission(c, raw);
      TakenCounts(p.node(log, block), c);
      assert (log + [block])[..|log|] == log;
      if Taken(p.node(log, block), c) {
        OneMoreCounts(p, log, block);
      }
  }

  lemma TakenCounts(reply: Reply, height: nat)
    ensures Taken(reply, height) <==> Counts(reply, height)
    ensures !Taken(reply, height) <==> reply.Rejected? || (reply.Broke? && (reply.blocks.None? || reply.blocks.value < height))
  {
  }

  lemma OneMoreCounts(p: Plan, log: seq<Submission>, block: Submission)
    requires AllCount(p, log) && Counts(p.node(log, block), block.height)
    ensures AllCount(p, log + [block])
  {
    hide Counts;
    var more := log + [block];
    forall i | 0 <= i < |more| ensures Counts(p.node(more[..i], more[i]), more[i].height) {
      assert more[..i] == log[..i];
      assert i == |log| ==> log[..i] == log;
    }
  }

  lemma FewerCount(p: Plan, log: seq<Submission>, n: nat)
    requires AllCount(p, log) && n <= |log|
    ensures AllCount(p, log[..n])
  {
    hide Counts;
    forall i | 0 <= i < n ensures Counts(p.node(log[..n][..i], log[..n][i]), log[..n][i].height) {
      assert log[..n][..i] == log[..i];
    }
  }

  /** Over every run and at any moment, no block is submitted after one that the node did not take; and an uncancelled run
      returns a result that tells what happened, in the node's own replies and the bucket's own objects. */
  lemma OutcomeTells(p: Plan, stop: nat, moves: seq<Move>)
    requires ValidPlan(p) && StopsAt(p.view, p.first, stop) && IsRun(p, Start(p), moves)
    ensures var s := RunEnd(p, Start(p), moves);
            && (|s.log| > 0 ==> AllCount(p, s.log[..|s.log| - 1]))
            && (s.phase.Returned? && !s.outer ==> Tells(p, stop, s.log, s.phase.outcome))
  {
    hide StopsAt, Ahead, Resolve, RunEnd, IsRun, Start, Tells, AllCount;
    StopIsAhead(p, stop);
    NothingCounts(p);
    AheadTells(p, stop, p.window, p.first, []);
    SubmissionsArePrefix(p, stop, moves);
    OutcomeIsAhead(p, stop, moves);
    var s, all := RunEnd(p, Start(p), moves), Ahead(p, stop, p.window, p.first, []);
    if |s.log| > 0 {
      TellsFront(p, stop, all.0, all.1);
      FewerCount(p, all.0[..|all.0| - 1], |s.log| - 1);
      assert all.0[..|all.0| - 1][..|s.log| - 1] == s.log[..|s.log| - 1];
    }
  }

  lemma NothingCounts(p: Plan)
    ensures AllCount(p, [])
  {
  }

  lemma TellsFront(p: Plan, stop: nat, log: seq<Submission>, outcome: Outcome)
    requires Tells(p, stop, log, outcome) && |log| > 0
    ensures AllCount(p, log[..|log| - 1])
  {
    hide AllCount, Verdict, Resolve;
    if AllCount(p, log) {
      FewerCount(p, log, |log| - 1);
    }
  }

  lemma StopIsAhead(p: Plan, stop: nat)
    requires StopsAt(p.view, p.first, stop)
    ensures p.first <= stop
  {
  }

  /** Every run, at any moment, has submitted the right blocks in height order; a clean return has submitted all of them up
      to the first height that says wait, left nothing ready or pending, and says what it waits for. */
  lemma CleanStop(p: Plan, stop: nat, moves: seq<Move>)
    requires ValidPlan(p) && StopsAt(p.view, p.first, stop) && IsRun(p, Start(p), moves)
    ensures var s := RunEnd(p, Start(p), moves);
            && InOrder(p, s.log)
            && (s.phase.Returned? && !s.outer && s.phase.outcome.error.None? ==>
                  CleanOutcome(p, stop, s.log, s.phase.outcome) && s.ready == map[] && s.pending == {})
  {
    hide StopsAt, Ahead, Resolve, Start, CleanOutcome, RightBlock;
    StopIsAhead(p, stop);
    SubmissionsArePrefix(p, stop, moves);
    OutcomeIsAhead(p, stop, moves);
    AheadMeans(p, stop, p.window, p.first, []);
    CleanLeavesNothing(p, stop, moves);
    var s, all := RunEnd(p, Start(p), moves), Ahead(p, stop, p.window, p.first, []).0;
    assert forall i :: 0 <= i < |s.log| ==> s.log[i] == all[i];
  }

  lemma CleanLeavesNothing(p: Plan, stop: nat, moves: seq<Move>)
    requires ValidPlan(p) && StopsAt(p.view, p.first, stop) && IsRun(p, Start(p), moves)
    ensures var s := RunEnd(p, Start(p), moves);
            s.phase.Returned? && s.phase.outcome.error.None? ==> s.ready == map[] && s.pending == {}
  {
    hide Window, Placed, Contents, Control, Promise, StopsAt, Start;
    StartInv(p, stop);
    RunInv(p, stop, Start(p), moves);
  }
}
