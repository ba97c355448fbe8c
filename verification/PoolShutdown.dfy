/** Cancellation: how a cancelled call ends, and what is left of the pool when the application has ended. */
module PoolShutdown {
  import opened Prelude
  import opened Chain
  import opened Pool
  import opened PoolSafety
  import PoolProgress
  import Join = FetchJoin
  import RL = RateLimiter

  // ---------- a cancelled call on its own ----------

  /** A step that call r takes without any other goroutine: its merged context, its scheduling select, its
      receiving select and what follows. */
  predicate OwnLabel(l: Label, r: nat) {
    l == Merge(r) || l == Withdraw(r) || (l.Serve? && l.r == r)
  }

  predicate OwnRun(run: seq<Label>, r: nat) {
    forall k :: 0 <= k < |run| ==> OwnLabel(run[k], r)
  }

  /** Call r leads the pool from s to t on its own. */
  ghost predicate ReachesAlone(cfg: Config, s: State, r: nat, t: State) {
    exists run :: OwnRun(run, r) && Executes(cfg, s, run) && After(cfg, s, run) == t
  }

  lemma AloneSelf(cfg: Config, s: State, r: nat)
    ensures ReachesAlone(cfg, s, r, s)
  {
    assert OwnRun([], r) && Executes(cfg, s, []) && After(cfg, s, []) == s;
  }

  lemma AloneNext(cfg: Config, s: State, r: nat, t: State, l: Label)
    requires ReachesAlone(cfg, s, r, t) && OwnLabel(l, r) && Enabled(cfg, t, l)
    ensures ReachesAlone(cfg, s, r, Next(cfg, t, l))
  {
    var run :| OwnRun(run, r) && Executes(cfg, s, run) && After(cfg, s, run) == t;
    RunSnoc(cfg, s, run, l);
    assert OwnRun(run + [l], r);
  }

  ghost predicate EndedWith(s: State, r: nat, out: Outcome) {
    r < |s.reqs| && s.reqs[r].phase == Returned(out)
  }

  ghost predicate CanEndAlone(cfg: Config, s: State, r: nat, out: Outcome) {
    exists t :: ReachesAlone(cfg, s, r, t) && EndedWith(t, r, out)
  }

  /** The call has a hash to schedule, or has given up scheduling. */
  predicate MayWithdraw(q: Request) {
    match q.phase
    case Scheduling(n) => n < |q.tasks|
    case Leaving(out) => out.Withdrawn?
    case Returned(out) => out.Withdrawn?
    case _ => false
  }

  /** All hashes are scheduled and one is still to be received, or the call has given up receiving. */
  predicate MaySeeCancel(q: Request) {
    match q.phase
    case Scheduling(n) => n >= |q.tasks| && q.tasks != []
    case Receiving(n) => n < |q.tasks|
    case Storing(n) => n + 1 < |q.tasks|
    case Leaving(out) => out.Cancelled?
    case Returned(out) => out.Cancelled?
  }

  /** The merged context of a cancelled call ends. */
  lemma MergedAlone(cfg: Config, s: State, r: nat) returns (t: State)
    requires r < |s.reqs| && (s.appDone || s.reqs[r].reqDone)
    ensures ReachesAlone(cfg, s, r, t) && r < |t.reqs| && t.reqs[r] == s.reqs[r].(mux := true)
  {
    AloneSelf(cfg, s, r);
    t := s;
    if !s.reqs[r].mux {
      AloneNext(cfg, s, r, s, Merge(r));
      t := Next(cfg, s, Merge(r));
    }
  }

  lemma LeaveAlone(cfg: Config, s: State, r: nat, t: State, out: Outcome)
    requires ReachesAlone(cfg, s, r, t) && r < |t.reqs|
    requires t.reqs[r].phase == Leaving(out) || t.reqs[r].phase == Returned(out)
    ensures CanEndAlone(cfg, s, r, out)
  {
    if t.reqs[r].phase.Leaving? {
      AloneNext(cfg, s, r, t, Serve(r, Return));
      assert EndedWith(Next(cfg, t, Serve(r, Return)), r, out);
    } else {
      assert EndedWith(t, r, out);
    }
  }

  lemma WithdrawAlone(cfg: Config, s: State, r: nat)
    requires r < |s.reqs| && (s.appDone || s.reqs[r].reqDone) && MayWithdraw(s.reqs[r])
    ensures CanEndAlone(cfg, s, r, Withdrawn)
  {
    var t := MergedAlone(cfg, s, r);
    if t.reqs[r].phase.Scheduling? {
      AloneNext(cfg, s, r, t, Withdraw(r));
      t := Next(cfg, t, Withdraw(r));
    }
    LeaveAlone(cfg, s, r, t, Withdrawn);
  }

  lemma SeeCancelAlone(cfg: Config, s: State, r: nat)
    requires r < |s.reqs| && (s.appDone || s.reqs[r].reqDone) && MaySeeCancel(s.reqs[r])
    ensures CanEndAlone(cfg, s, r, Cancelled)
  {
    var t := MergedAlone(cfg, s, r);
    if t.reqs[r].phase.Scheduling? {
      AloneNext(cfg, s, r, t, Serve(r, AllScheduled));
      t := Next(cfg, t, Serve(r, AllScheduled));
    } else if t.reqs[r].phase.Storing? {
      AloneNext(cfg, s, r, t, Serve(r, Stored));
      t := Next(cfg, t, Serve(r, Stored));
    }
    if t.reqs[r].phase.Receiving? {
      AloneNext(cfg, s, r, t, Serve(r, SeeCancel));
      t := Next(cfg, t, Serve(r, SeeCancel));
    }
    LeaveAlone(cfg, s, r, t, Cancelled);
  }

  /** A call that cannot get there does not get there by its own steps. */
  lemma OwnStepStays(cfg: Config, s: State, r: nat, l: Label)
    requires r < |s.reqs| && OwnLabel(l, r) && Enabled(cfg, s, l)
    ensures var t := Next(cfg, s, l);
            && r < |t.reqs| && (!MayWithdraw(s.reqs[r]) ==> !MayWithdraw(t.reqs[r]))
            && (!MaySeeCancel(s.reqs[r]) && !MayWithdraw(s.reqs[r]) ==> !MaySeeCancel(t.reqs[r]))
            && (MayWithdraw(s.reqs[r]) ==> !MaySeeCancel(t.reqs[r]))
  {
  }

  lemma {:induction false} OwnRunStays(cfg: Config, s: State, r: nat, run: seq<Label>)
    requires r < |s.reqs| && OwnRun(run, r) && Executes(cfg, s, run)
    ensures var t := After(cfg, s, run);
            && r < |t.reqs| && (!MayWithdraw(s.reqs[r]) ==> !EndedWith(t, r, Withdrawn))
            && (!MaySeeCancel(s.reqs[r]) ==> !EndedWith(t, r, Cancelled))
    decreases |run|
  {
    if run != [] {
      assert OwnLabel(run[0], r) && OwnRun(run[1..], r);
      OwnStepStays(cfg, s, r, run[0]);
      OwnRunStays(cfg, Next(cfg, s, run[0]), r, run[1..]);
    }
  }

  /** Cancellation reaches the call, by the application or by its own request: without the help of the pool
      it can withdraw exactly while it has hashes to schedule, and end as cancelled exactly when all are
      scheduled and one is still to be received. */
  lemma CancellationArrives(cfg: Config, s: State, r: nat)
    requires r < |s.reqs| && (s.appDone || s.reqs[r].reqDone)
    ensures CanEndAlone(cfg, s, r, Withdrawn) <==> MayWithdraw(s.reqs[r])
    ensures CanEndAlone(cfg, s, r, Cancelled) <==> MaySeeCancel(s.reqs[r])
  {
    if MayWithdraw(s.reqs[r]) {
      WithdrawAlone(cfg, s, r);
    }
    if MaySeeCancel(s.reqs[r]) {
      SeeCancelAlone(cfg, s, r);
    }
    forall out: Outcome, t: State
      | (out.Withdrawn? || out.Cancelled?) && ReachesAlone(cfg, s, r, t) && EndedWith(t, r, out)
      ensures if out.Withdrawn? then MayWithdraw(s.reqs[r]) else MaySeeCancel(s.reqs[r])
    {
      var run :| OwnRun(run, r) && Executes(cfg, s, run) && After(cfg, s, run) == t;
      OwnRunStays(cfg, s, r, run);
    }
  }

  /** The receiving select may choose either of two ready cases: a cancelled call that is offered its last
      record can still be answered, and can be cancelled. */
  lemma AnswerOrCancel(cfg: Config, s: State, r: nat) returns (t: State)
    requires Inv(cfg, s) && Awaits(s, r) && (s.appDone || s.reqs[r].reqDone)
    requires s.reqs[r].phase.next + 1 == |s.reqs[r].tasks|
    requires Awaited(s, r).stage.Sending? && Awaited(s, r).stage.res.err.None?
    ensures CanEndAlone(cfg, s, r, Cancelled)
    ensures Reaches(cfg, s, t) && EndedWith(t, r, Success)
  {
    SeeCancelAlone(cfg, s, r);
    var u := MergedAlone(cfg, s, r);
    var run :| OwnRun(run, r) && Executes(cfg, s, run) && After(cfg, s, run) == u;
    assert Reaches(cfg, s, u);
    assert TaskOk(cfg.node, Awaited(s, r), s.reqs[r].mux);
    ReachesNext(cfg, s, u, Deliver(r));
    t := LastStored(cfg, s, Next(cfg, u, Deliver(r)), r);
  }

  lemma LastStored(cfg: Config, s0: State, s: State, r: nat) returns (t: State)
    requires Reaches(cfg, s0, s) && r < |s.reqs|
    requires s.reqs[r].phase.Storing? && s.reqs[r].phase.next + 1 == |s.reqs[r].tasks|
    ensures Reaches(cfg, s0, t) && EndedWith(t, r, Success)
  {
    ReachesNext(cfg, s0, s, Serve(r, Stored));
    var a := Next(cfg, s, Serve(r, Stored));
    ReachesNext(cfg, s0, a, Serve(r, Complete));
    var b := Next(cfg, a, Serve(r, Complete));
    ReachesNext(cfg, s0, b, Serve(r, Return));
    t := Next(cfg, b, Serve(r, Return));
  }

  // ---------- what cancellation can no longer touch ----------

  /** Nothing is left to schedule or to receive, and the call has not been interrupted. */
  predicate Safe(q: Request) {
    !MayWithdraw(q) && !MaySeeCancel(q)
  }

  /** A step that moves the phase of call r. */
  predicate MovesCall(l: Label, r: nat) {
    (l.Offer? || l.Withdraw? || l.Deliver? || l.Serve?) && l.r == r
  }

  lemma OtherPhaseStays(cfg: Config, s: State, l: Label, r: nat)
    requires r < |s.reqs| && Enabled(cfg, s, l) && !MovesCall(l, r)
    ensures var t := Next(cfg, s, l);
            r < |t.reqs| && t.reqs[r].phase == s.reqs[r].phase && |t.reqs[r].tasks| == |s.reqs[r].tasks|
  {
  }

  lemma StepStaysSafe(cfg: Config, s: State, l: Label, r: nat)
    requires r < |s.reqs| && Safe(s.reqs[r]) && Enabled(cfg, s, l)
    ensures r < |Next(cfg, s, l).reqs| && Safe(Next(cfg, s, l).reqs[r])
  {
    if !MovesCall(l, r) {
      OtherPhaseStays(cfg, s, l, r);
    } else if l.Serve? {
      ServedStaysSafe(s.reqs[r], l.v);
    }
  }

  lemma ServedStaysSafe(q: Request, v: ServiceStep)
    requires Safe(q) && ServiceCan(q, v)
    ensures Safe(Served(q, v))
  {
  }

  /** A call that has received everything is not interrupted by any later cancellation, in any run. */
  lemma {:induction false} ReceivedIsSafe(cfg: Config, s: State, run: seq<Label>, r: nat)
    requires r < |s.reqs| && Safe(s.reqs[r]) && Executes(cfg, s, run)
    ensures !EndedWith(After(cfg, s, run), r, Withdrawn) && !EndedWith(After(cfg, s, run), r, Cancelled)
    decreases |run|
  {
    if run != [] {
      StepStaysSafe(cfg, s, run[0], r);
      ReceivedIsSafe(cfg, Next(cfg, s, run[0]), run[1..], r);
    }
  }

  // ---------- what rests when the application has ended ----------

  /** A goroutine of the task's fetch polls the limiter, or is gone; one at least polls. */
  ghost predicate Polling(t: Task) {
    && t.stage.Fetching?
    && (t.stage.join.tx.Waiting? || t.stage.join.tx.Gone?) && (t.stage.join.rc.Waiting? || t.stage.join.rc.Gone?)
    && (t.stage.join.tx.Waiting? || t.stage.join.rc.Waiting?)
  }

  /** The bucket is empty and nothing refills it. */
  predicate RunDry(s: State) {
    s.bucket.credits == 0 && !s.bucket.refilling
  }

  ghost predicate CanStep(cfg: Config, s: State) {
    PoolProgress.CanStep(cfg, s)
  }

  lemma MergedOrMoves(cfg: Config, s: State, r: nat)
    requires s.appDone && r < |s.reqs|
    ensures s.reqs[r].mux || CanStep(cfg, s)
  {
    if !s.reqs[r].mux {
      assert PoolProgress.Undisturbed(Merge(r)) && Enabled(cfg, s, Merge(r));
    }
  }

  lemma CallReturnedOrMoves(cfg: Config, s: State, r: nat)
    requires s.appDone && r < |s.reqs|
    ensures s.reqs[r].phase.Returned? || CanStep(cfg, s)
  {
    MergedOrMoves(cfg, s, r);
    var q := s.reqs[r];
    if q.mux {
      match q.phase
      case Scheduling(n) =>
        assert Enabled(cfg, s, if n < |q.tasks| then Withdraw(r) else Serve(r, AllScheduled));
      case Receiving(n) =>
        assert Enabled(cfg, s, Serve(r, if n < |q.tasks| then SeeCancel else Complete));
      case Storing(_) => assert Enabled(cfg, s, Serve(r, Stored));
      case Leaving(_) => assert Enabled(cfg, s, Serve(r, Return));
      case Returned(_) =>
    }
  }

  lemma DispatcherEndedOrMoves(cfg: Config, s: State)
    requires Inv(cfg, s) && s.appDone
    ensures s.disp.Exited? || CanStep(cfg, s)
  {
    match s.disp
    case Idle => assert Enabled(cfg, s, Stop);
    case Looping => assert Enabled(cfg, s, Loop);
    case Busy(r, i) =>
      MergedOrMoves(cfg, s, r);
      var t := TaskAt(s, r, i);
      assert AtDispatcher(t.stage);
      if s.reqs[r].mux {
        assert Enabled(cfg, s, Dispatch(if t.stage.Held? then Abort
                                        else if t.stage.HeldAborting? then DropSend else CloseHeld));
      }
    case Exited =>
  }

  lemma RefillsEndedOrMoves(cfg: Config, s: State)
    requires s.appDone
    ensures !s.bucket.refilling || CanStep(cfg, s)
  {
    if s.bucket.refilling {
      assert Enabled(cfg, s, Tick(true));
    }
  }

  /** A step of the fetch that needs no credit, or finds one. */
  lemma FetchGoesOn(cfg: Config, s: State, r: nat, i: nat, st: Join.Step)
    requires HasTask(s, r, i) && TaskAt(s, r, i).stage.Fetching? && !st.Fail?
    requires Join.Enabled(TaskAt(s, r, i).stage.join, s.reqs[r].mux, st) && (st.Grant? ==> s.bucket.credits > 0)
    ensures CanStep(cfg, s)
  {
    assert PoolProgress.Undisturbed(Work(r, i, Fetch(st))) && Enabled(cfg, s, Work(r, i, Fetch(st)));
  }

  /** One goroutine of a fetch. */
  lemma SideRestsOrMoves(cfg: Config, s: State, r: nat, i: nat, side: Join.Side)
    requires Inv(cfg, s) && HasTask(s, r, i) && TaskAt(s, r, i).stage.Fetching?
    ensures var f := Join.At(TaskAt(s, r, i).stage.join, side);
            f.Gone? || (f.Waiting? && s.bucket.credits == 0) || CanStep(cfg, s)
  {
    var t := TaskAt(s, r, i);
    assert TaskOk(cfg.node, t, s.reqs[r].mux);
    match Join.At(t.stage.join, side)
    case Waiting =>
      if s.bucket.credits > 0 {
        FetchGoesOn(cfg, s, r, i, Join.Grant(side));
      }
    case Calling => FetchGoesOn(cfg, s, r, i, Join.Answer(side));
    case Reporting(_) =>
      Join.SendNeverBlocks(cfg.node, t.hash, t.stage.join, s.reqs[r].mux, side);
      FetchGoesOn(cfg, s, r, i, Join.Report(side));
    case Exiting(_, _) => FetchGoesOn(cfg, s, r, i, Join.Exit(side));
    case Gone(_, _) =>
  }

  lemma FetchPollsOrMoves(cfg: Config, s: State, r: nat, i: nat)
    requires Inv(cfg, s) && s.appDone && HasTask(s, r, i) && TaskAt(s, r, i).stage.Fetching?
    ensures (Polling(TaskAt(s, r, i)) && RunDry(s)) || CanStep(cfg, s)
  {
    var t := TaskAt(s, r, i);
    var j := t.stage.join;
    assert TaskOk(cfg.node, t, s.reqs[r].mux);
    SideRestsOrMoves(cfg, s, r, i, Join.Details);
    SideRestsOrMoves(cfg, s, r, i, Join.Receipts);
    RefillsEndedOrMoves(cfg, s);
    if j.tx.Gone? && j.rc.Gone? {
      if j.ended {
        assert Enabled(cfg, s, Work(r, i, Evaluate));
      } else {
        FetchGoesOn(cfg, s, r, i,
                    if !j.closed then Join.CloseErrs else if j.buf != [] then Join.Take else Join.EndRange);
      }
    }
  }

  /** What a task is when nothing moves. */
  ghost predicate AtRest(s: State, t: Task) {
    t.stage.NotSent? || t.stage.Finished? || (Polling(t) && RunDry(s))
  }

  lemma TaskRestsOrMoves(cfg: Config, s: State, r: nat, i: nat)
    requires Inv(cfg, s) && s.appDone && HasTask(s, r, i)
    ensures AtRest(s, TaskAt(s, r, i)) || CanStep(cfg, s)
  {
    var t := TaskAt(s, r, i);
    DispatcherEndedOrMoves(cfg, s);
    MergedOrMoves(cfg, s, r);
    assert AtDispatcher(t.stage) <==> s.disp == Busy(r, i);
    match t.stage
    case Fetching(_) => FetchPollsOrMoves(cfg, s, r, i);
    case Sending(_) =>
      if s.reqs[r].mux {
        assert Enabled(cfg, s, Work(r, i, GiveUp));
      }
    case Aborting(_) => assert Enabled(cfg, s, Work(r, i, SkipSend));
    case Closing => assert Enabled(cfg, s, Work(r, i, CloseResult));
    case Releasing =>
      SumCovers(s.reqs[r].tasks, i, Live);
      SumCovers(s.reqs, r, LiveIn);
      assert Enabled(cfg, s, Work(r, i, Release));
    case _ =>
  }

  /** Once the application has ended, every run is bounded (PoolProgress.RunsAreBounded), and when nothing
      moves any more all calls have returned, the dispatcher has ended, the refills have ended, and every task
      is finished or was never handed over, but for fetches that poll an empty bucket. */
  lemma ShutdownRests(cfg: Config, maxCredits: nat, missing: seq<seq<string>>, run: seq<Label>, s: State)
    requires Reached(cfg, maxCredits, missing, run, s) && s.appDone && !CanStep(cfg, s)
    ensures forall r :: 0 <= r < |s.reqs| ==> s.reqs[r].phase.Returned?
    ensures s.disp.Exited? && !s.bucket.refilling
    ensures forall r: nat, i: nat :: HasTask(s, r, i) ==> AtRest(s, TaskAt(s, r, i))
  {
    ReachedInv(cfg, maxCredits, missing, run, s);
    forall r | 0 <= r < |s.reqs| ensures s.reqs[r].phase.Returned? {
      CallReturnedOrMoves(cfg, s, r);
    }
    DispatcherEndedOrMoves(cfg, s);
    RefillsEndedOrMoves(cfg, s);
    forall r: nat, i: nat | HasTask(s, r, i) ensures AtRest(s, TaskAt(s, r, i)) {
      TaskRestsOrMoves(cfg, s, r, i);
    }
  }

  // ---------- fetches that poll for ever ----------

  ghost predicate Polls(s: State, r: nat, i: nat, side: Join.Side) {
    HasTask(s, r, i) && TaskAt(s, r, i).stage.Fetching? && Join.At(TaskAt(s, r, i).stage.join, side).Waiting?
  }

  lemma StepStaysDry(cfg: Config, s: State, l: Label)
    requires Enabled(cfg, s, l) && RunDry(s)
    ensures RunDry(Next(cfg, s, l)) && !(l.Work? && IsGrant(l.w))
  {
  }

  lemma JoinStillPolls(node: Node, hash: string, j: Join.Join, mux: bool, st: Join.Step, side: Join.Side)
    requires Join.Enabled(j, mux, st) && Join.At(j, side).Waiting? && !st.Grant?
    ensures Join.At(Join.Next(node, hash, j, st), side).Waiting?
  {
  }

  lemma WorkStillPolls(node: Node, t: Task, mux: bool, w: WorkerStep, side: Join.Side)
    requires t.stage.Fetching? && Join.Inv(node, t.hash, t.stage.join, mux) && WorkerCan(t, mux, w) && !IsGrant(w)
    requires Join.At(t.stage.join, side).Waiting?
    ensures Worked(node, t, mux, w).stage.Fetching?
    ensures Join.At(Worked(node, t, mux, w).stage.join, side).Waiting?
  {
    if w.Fetch? {
      JoinStillPolls(node, t.hash, t.stage.join, mux, w.st, side);
    }
  }

  lemma StepStillPolls(cfg: Config, s: State, l: Label, r: nat, i: nat, side: Join.Side)
    requires Inv(cfg, s) && Enabled(cfg, s, l) && RunDry(s) && Polls(s, r, i, side)
    ensures Polls(Next(cfg, s, l), r, i, side)
  {
    var t := TaskAt(s, r, i);
    assert TaskOk(cfg.node, t, s.reqs[r].mux);
    StepStaysDry(cfg, s, l);
    if l.Work? && l.r == r && l.i == i {
      WorkStillPolls(cfg.node, t, s.reqs[r].mux, l.w, side);
    } else {
      OtherTaskStays(cfg, s, l, r, i);
    }
  }

  /** Only its own worker moves a task that is fetched. */
  lemma OtherTaskStays(cfg: Config, s: State, l: Label, r: nat, i: nat)
    requires Inv(cfg, s) && Enabled(cfg, s, l) && HasTask(s, r, i) && TaskAt(s, r, i).stage.Fetching?
    requires !(l.Work? && l.r == r && l.i == i)
    ensures HasTask(Next(cfg, s, l), r, i) && TaskAt(Next(cfg, s, l), r, i).stage == TaskAt(s, r, i).stage
  {
    if MovesCall(l, r) {
      assert RequestOk(cfg.node, s.appDone, s.reqs[r]);
      CallKeepsFetch(cfg, s, l, r, i);
    } else {
      PoolKeepsFetch(cfg, s, l, r, i);
    }
  }

  lemma CallKeepsFetch(cfg: Config, s: State, l: Label, r: nat, i: nat)
    requires r < |s.reqs| && RequestOk(cfg.node, s.appDone, s.reqs[r]) && Enabled(cfg, s, l) && MovesCall(l, r)
    requires HasTask(s, r, i) && TaskAt(s, r, i).stage.Fetching?
    ensures HasTask(Next(cfg, s, l), r, i) && TaskAt(Next(cfg, s, l), r, i).stage == TaskAt(s, r, i).stage
  {
  }

  lemma PoolKeepsFetch(cfg: Config, s: State, l: Label, r: nat, i: nat)
    requires Enabled(cfg, s, l) && !MovesCall(l, r) && !(l.Work? && l.r == r && l.i == i)
    requires HasTask(s, r, i) && TaskAt(s, r, i).stage.Fetching?
    ensures HasTask(Next(cfg, s, l), r, i) && TaskAt(Next(cfg, s, l), r, i).stage == TaskAt(s, r, i).stage
  {
  }

  /** A goroutine that polls a dry bucket polls it for ever: its worker never ends. */
  lemma {:induction false} DryPollNeverEnds(cfg: Config, s: State, run: seq<Label>, r: nat, i: nat, side: Join.Side)
    requires Inv(cfg, s) && Executes(cfg, s, run) && RunDry(s) && Polls(s, r, i, side)
    ensures Polls(After(cfg, s, run), r, i, side)
    decreases |run|
  {
    if run != [] {
      StepStillPolls(cfg, s, run[0], r, i, side);
      StepStaysDry(cfg, s, run[0]);
      StepKeepsInv(cfg, s, run[0]);
      DryPollNeverEnds(cfg, Next(cfg, s, run[0]), run[1..], r, i, side);
    }
  }
}
