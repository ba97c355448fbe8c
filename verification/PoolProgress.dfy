/** Termination, deadlock freedom and draining of the pool. */
module PoolProgress {
  import opened Prelude
  import opened Chain
  import opened Pool
  import opened PoolSafety
  import Join = FetchJoin

  // ---------- a measure that every step lowers ----------

  function StageWork(g: Stage): nat {
    match g
    case NotSent => 40
    case Held => 39
    case HeldAborting => 3
    case HeldClosing => 2
    case Fetching(j) => 20 + Join.Work(j)
    case Sending(_) => 6
    case Aborting(_) => 5
    case Closing => 3
    case Releasing => 2
    case Finished => 0
  }

  function TaskWork(t: Task): nat {
    StageWork(t.stage)
  }

  function Rest(n: nat, len: nat): nat {
    if n <= len then len - n else 0
  }

  function PhaseWork(p: Phase, len: nat): nat {
    match p
    case Scheduling(n) => 2 * len + 3 + Rest(n, len)
    case Receiving(n) => 2 * Rest(n, len) + 2
    case Storing(n) => 2 * Rest(n, len) + 1
    case Leaving(_) => 1
    case Returned(_) => 0
  }

  function Pending(flag: bool): nat {
    if flag then 0 else 1
  }

  function RequestWork(q: Request): nat {
    PhaseWork(q.phase, |q.tasks|) + Pending(q.reqDone) + Pending(q.mux) + Sum(q.tasks, TaskWork)
  }

  function DispatcherWork(d: Dispatcher): nat {
    match d
    case Idle => 1
    case Busy(_, _) => 1
    case Looping => 2
    case Exited => 0
  }

  function WorkLeft(s: State): nat {
    Sum(s.reqs, RequestWork) + DispatcherWork(s.disp) + Pending(s.appDone) + Pending(!s.bucket.refilling)
  }

  /** Remaining work first, missing credits second, as one number. */
  function Measure(s: State): nat
    requires s.bucket.credits <= s.bucket.max
  {
    WorkLeft(s) * (s.bucket.max + 1) + (s.bucket.max - s.bucket.credits)
  }

  /** Work counts for more than any number of missing credits. */
  lemma LessWorkLessMeasure(s: State, s': State)
    requires s.bucket.credits <= s.bucket.max && s'.bucket.max == s.bucket.max > 0
    requires s'.bucket.credits <= s'.bucket.max
    requires WorkLeft(s') < WorkLeft(s) && s.bucket.credits <= s'.bucket.credits + 1
    ensures Measure(s') < Measure(s)
  {
    Dominates(WorkLeft(s'), WorkLeft(s), s.bucket.max + 1);
  }

  lemma {:induction false} Dominates(a: nat, b: nat, m: nat)
    requires a < b
    ensures a * m + m <= b * m
    decreases b
  {
    MulStep(b - 1, m);
    if a < b - 1 {
      Dominates(a, b - 1, m);
    }
  }

  lemma MulStep(n: nat, m: nat)
    ensures (n + 1) * m == n * m + m
  {
  }

  /** Work of one request goes down, the dispatcher's work does not go up by as much. */
  lemma RequestShrinks(s: State, s': State, r: nat, q: Request)
    requires r < |s.reqs| && s'.reqs == s.reqs[r := q]
    requires s'.appDone == s.appDone && (s'.bucket.refilling == s.bucket.refilling)
    requires RequestWork(q) + DispatcherWork(s'.disp) < RequestWork(s.reqs[r]) + DispatcherWork(s.disp)
    ensures WorkLeft(s') < WorkLeft(s)
  {
    SumUpdate(s.reqs, r, q, RequestWork);
  }

  lemma TaskShrinks(s: State, s': State, r: nat, i: nat, t: Task, phase: Phase)
    requires HasTask(s, r, i)
    requires s'.reqs == s.reqs[r := s.reqs[r].(tasks := s.reqs[r].tasks[i := t], phase := phase)]
    requires s'.appDone == s.appDone && s'.bucket.refilling == s.bucket.refilling
    requires TaskWork(t) + PhaseWork(phase, |s.reqs[r].tasks|) + DispatcherWork(s'.disp)
             < TaskWork(TaskAt(s, r, i)) + PhaseWork(s.reqs[r].phase, |s.reqs[r].tasks|) + DispatcherWork(s.disp)
    ensures WorkLeft(s') < WorkLeft(s)
  {
    SumUpdate(s.reqs[r].tasks, i, t, TaskWork);
    RequestShrinks(s, s', r, s'.reqs[r]);
  }

  /** A hand-over between the service and the pool changes one task and the service's phase. */
  lemma HandOverShrinks(cfg: Config, s: State, l: Label)
    requires Inv(cfg, s) && Enabled(cfg, s, l) && (l.Offer? || l.Withdraw? || l.Deliver?)
    ensures WorkLeft(Next(cfg, s, l)) < WorkLeft(s)
  {
    var q, n := s.reqs[l.r], s.reqs[l.r].phase.next;
    assert RequestOk(cfg.node, s.appDone, q);
    assert TaskOk(cfg.node, q.tasks[n], q.mux);
    var s' := Next(cfg, s, l);
    var t', phase' := s'.reqs[l.r].tasks[n], s'.reqs[l.r].phase;
    assert s'.reqs == s.reqs[l.r := q.(tasks := q.tasks[n := t'], phase := phase')];
    assert TaskWork(t') + PhaseWork(phase', |q.tasks|) + DispatcherWork(s'.disp)
           < TaskWork(q.tasks[n]) + PhaseWork(q.phase, |q.tasks|) + DispatcherWork(s.disp) by {
      HandOverCosts(cfg, s, l);
    }
    TaskShrinks(s, s', l.r, n, t', phase');
  }

  lemma HandOverCosts(cfg: Config, s: State, l: Label)
    requires Enabled(cfg, s, l) && (l.Offer? || l.Withdraw? || l.Deliver?)
    requires var q := s.reqs[l.r]; TaskOk(cfg.node, q.tasks[q.phase.next], q.mux) && PhaseOk(s.appDone, q)
    ensures var n, s' := s.reqs[l.r].phase.next, Next(cfg, s, l);
            var q, q' := s.reqs[l.r], s'.reqs[l.r];
            TaskWork(q'.tasks[n]) + PhaseWork(q'.phase, |q.tasks|) + DispatcherWork(s'.disp)
            < TaskWork(q.tasks[n]) + PhaseWork(q.phase, |q.tasks|) + DispatcherWork(s.disp)
  {
  }

  lemma ServedShrinks(node: Node, appDone: bool, q: Request, v: ServiceStep)
    requires RequestOk(node, appDone, q) && ServiceCan(q, v)
    ensures RequestWork(Served(q, v)) < RequestWork(q)
  {
  }

  lemma WorkedShrinks(node: Node, t: Task, mux: bool, w: WorkerStep)
    requires TaskOk(node, t, mux) && WorkerCan(t, mux, w)
    ensures TaskWork(Worked(node, t, mux, w)) < TaskWork(t)
  {
    if w.Fetch? {
      Join.StepShrinksWork(node, t.hash, t.stage.join, mux, w.st);
    }
  }

  /** Every step but a tick lowers the work. */
  lemma StepWorks(cfg: Config, s: State, l: Label)
    requires Inv(cfg, s) && Enabled(cfg, s, l) && !l.Tick?
    ensures WorkLeft(Next(cfg, s, l)) < WorkLeft(s)
  {
    var s' := Next(cfg, s, l);
    match l
    case CancelApp =>
    case Stop =>
    case Loop =>
    case CancelRequest(r) => RequestShrinks(s, s', r, s'.reqs[r]);
    case Merge(r) => RequestShrinks(s, s', r, s'.reqs[r]);
    case Offer(_) => HandOverShrinks(cfg, s, l);
    case Withdraw(_) => HandOverShrinks(cfg, s, l);
    case Deliver(_) => HandOverShrinks(cfg, s, l);
    case Serve(r, v) =>
      ServedShrinks(cfg.node, s.appDone, s.reqs[r], v);
      RequestShrinks(s, s', r, s'.reqs[r]);
    case Dispatch(_) => DispatchShrinks(cfg, s, l);
    case Work(_, _, _) => WorkShrinks(cfg, s, l);
  }

  lemma DispatchShrinks(cfg: Config, s: State, l: Label)
    requires Enabled(cfg, s, l) && l.Dispatch?
    ensures WorkLeft(Next(cfg, s, l)) < WorkLeft(s)
  {
    var s' := Next(cfg, s, l);
    TaskShrinks(s, s', s.disp.r, s.disp.i, TaskAt(s', s.disp.r, s.disp.i), s.reqs[s.disp.r].phase);
  }

  lemma WorkShrinks(cfg: Config, s: State, l: Label)
    requires Inv(cfg, s) && Enabled(cfg, s, l) && l.Work?
    ensures WorkLeft(Next(cfg, s, l)) < WorkLeft(s)
  {
    var s' := Next(cfg, s, l);
    assert TaskOk(cfg.node, TaskAt(s, l.r, l.i), s.reqs[l.r].mux);
    WorkedShrinks(cfg.node, TaskAt(s, l.r, l.i), s.reqs[l.r].mux, l.w);
    TaskShrinks(s, s', l.r, l.i, TaskAt(s', l.r, l.i), s.reqs[l.r].phase);
  }

  /** Every step of every run, cancelled or not, lowers the measure. */
  lemma StepShrinks(cfg: Config, s: State, l: Label)
    requires Inv(cfg, s) && Enabled(cfg, s, l)
    ensures Inv(cfg, Next(cfg, s, l)) && Measure(Next(cfg, s, l)) < Measure(s)
  {
    StepKeepsInv(cfg, s, l);
    var s' := Next(cfg, s, l);
    if l.Tick? && s'.bucket.refilling {
      assert WorkLeft(s') == WorkLeft(s);
    } else {
      if !l.Tick? {
        StepWorks(cfg, s, l);
      }
      LessWorkLessMeasure(s, s');
    }
  }

  /** No run is longer than the measure of its first state: nothing loops for ever. */
  lemma {:induction false} RunsAreBounded(cfg: Config, s: State, run: seq<Label>)
    requires Inv(cfg, s) && Executes(cfg, s, run)
    ensures Inv(cfg, After(cfg, s, run))
    ensures |run| + Measure(After(cfg, s, run)) <= Measure(s)
    decreases |run|
  {
    if run != [] {
      StepShrinks(cfg, s, run[0]);
      RunsAreBounded(cfg, Next(cfg, s, run[0]), run[1..]);
    }
  }

  // ---------- deadlock freedom ----------

  /** No cancellation from outside, no failing node call, no failing store. */
  predicate Undisturbed(l: Label) {
    && !l.CancelApp? && !l.CancelRequest?
    && !(l.Serve? && l.v.StoreFails?)
    && !(l.Work? && l.w.Fetch? && l.w.st.Fail?)
  }

  /** The pool can go on by itself, if the node and the store answer. */
  ghost predicate CanStep(cfg: Config, s: State) {
    exists l :: Undisturbed(l) && Enabled(cfg, s, l)
  }

  /** A worker that is not waiting for its request to receive can move. */
  lemma WorkerMoves(cfg: Config, s: State, r: nat, i: nat)
    requires Inv(cfg, s) && !s.appDone && HasTask(s, r, i) && AtWorker(TaskAt(s, r, i).stage)
    requires TaskAt(s, r, i).stage.Sending? ==> s.reqs[r].mux
    ensures CanStep(cfg, s)
  {
    var t := TaskAt(s, r, i);
    assert TaskOk(cfg.node, t, s.reqs[r].mux);
    match t.stage
    case Fetching(j) =>
      if j.ended {
        assert Enabled(cfg, s, Work(r, i, Evaluate));
      } else {
        FetchMoves(cfg, s, r, i);
      }
    case Sending(_) => assert Enabled(cfg, s, Work(r, i, GiveUp));
    case Aborting(_) => assert Enabled(cfg, s, Work(r, i, SkipSend));
    case Closing => assert Enabled(cfg, s, Work(r, i, CloseResult));
    case Releasing =>
      SumCovers(s.reqs[r].tasks, i, Live);
      SumCovers(s.reqs, r, LiveIn);
      assert Enabled(cfg, s, Work(r, i, Release));
  }

  lemma FetchMoves(cfg: Config, s: State, r: nat, i: nat)
    requires Inv(cfg, s) && !s.appDone && HasTask(s, r, i)
    requires TaskAt(s, r, i).stage.Fetching? && !TaskAt(s, r, i).stage.join.ended
    ensures CanStep(cfg, s)
  {
    var t := TaskAt(s, r, i);
    var j, mux := t.stage.join, s.reqs[r].mux;
    assert TaskOk(cfg.node, t, mux);
    Join.CanMove(cfg.node, t.hash, j, mux);
    var st :| Join.Enabled(j, mux, st) && !st.Fail?;
    if st.Grant? && s.bucket.credits == 0 {
      assert Enabled(cfg, s, Tick(false));
    } else {
      assert Enabled(cfg, s, Work(r, i, Fetch(st)));
    }
  }

  /** The dispatcher can move unless it is idle or waits for a permit. */
  lemma DispatcherMoves(cfg: Config, s: State)
    requires Inv(cfg, s) && !s.appDone
    requires s.disp.Looping?
             || (s.disp.Busy? && (s.permits < cfg.workers || s.reqs[s.disp.r].mux
                                  || !TaskAt(s, s.disp.r, s.disp.i).stage.Held?))
    ensures CanStep(cfg, s)
  {
    if s.disp.Looping? {
      assert Enabled(cfg, s, Loop);
    } else {
      var g := TaskAt(s, s.disp.r, s.disp.i).stage;
      assert AtDispatcher(g);
      if g.HeldAborting? {
        assert Enabled(cfg, s, Dispatch(DropSend));
      } else if g.HeldClosing? {
        assert Enabled(cfg, s, Dispatch(CloseHeld));
      } else if s.permits < cfg.workers {
        assert Enabled(cfg, s, Dispatch(Acquire));
      } else {
        assert Enabled(cfg, s, Dispatch(Abort));
      }
    }
  }

  /** All workers, if any, offer their result to a live request. */
  ghost predicate AllOffering(s: State) {
    forall r: nat, i: nat :: HasTask(s, r, i) && AtWorker(TaskAt(s, r, i).stage) ==>
      TaskAt(s, r, i).stage.Sending? && !s.reqs[r].mux
  }

  /** A request that has not returned can move if the task it wants to hand over, or awaits, lets it. */
  lemma RequestMoves(cfg: Config, s: State, r: nat)
    requires Inv(cfg, s) && AllOffering(s) && r < |s.reqs| && !s.reqs[r].phase.Returned?
    requires Schedules(s, r) ==> s.disp.Idle?
    requires Awaits(s, r) ==> !AtDispatcher(Awaited(s, r).stage)
    ensures CanStep(cfg, s)
  {
    var q := s.reqs[r];
    assert RequestOk(cfg.node, s.appDone, q);
    match q.phase
    case Scheduling(n) =>
      if n < |q.tasks| {
        assert Enabled(cfg, s, Offer(r));
      } else {
        assert Enabled(cfg, s, Serve(r, AllScheduled));
      }
    case Receiving(n) =>
      if n < |q.tasks| {
        var t := q.tasks[n];
        assert HasTask(s, r, n) && TaskAt(s, r, n) == t && TaskOk(cfg.node, t, q.mux);
        if t.stage.Sending? {
          assert Enabled(cfg, s, Deliver(r));
        } else {
          assert t.stage.Finished?;
          assert Enabled(cfg, s, Serve(r, ReceiveClosed));
        }
      } else {
        assert Enabled(cfg, s, Serve(r, Complete));
      }
    case Storing(_) => assert Enabled(cfg, s, Serve(r, Stored));
    case Leaving(_) => assert Enabled(cfg, s, Serve(r, Return));
  }

  /** Tasks that keep a permit or the dispatcher busy. */
  function Active(t: Task): nat {
    if AtWorker(t.stage) || AtDispatcher(t.stage) then 1 else 0
  }

  function One(t: Task): nat { 1 }

  lemma {:induction false} SumOnes(ts: seq<Task>)
    ensures Sum(ts, One) == |ts|
  {
    if ts != [] {
      SumOnes(ts[..|ts| - 1]);
    }
  }

  /** How many workers a call can keep waiting before it receives: all its tasks but the last. */
  function SlackIn(q: Request): nat {
    if q.phase.Returned? || q.tasks == [] then 0 else |q.tasks| - 1
  }

  function Slack(s: State): nat {
    Sum(s.reqs, SlackIn)
  }

  /** The calls that have not returned cannot keep all workers and the dispatcher waiting: a call whose
      only task is at the dispatcher adds nothing to the slack and still awaits a permit. */
  ghost predicate Fits(cfg: Config, s: State) {
    && Slack(s) <= cfg.workers
    && (Slack(s) == cfg.workers ==>
          forall r :: 0 <= r < |s.reqs| && !s.reqs[r].phase.Returned? ==> |s.reqs[r].tasks| != 1)
  }

  /** The call waits for the dispatcher: to take its next task, or to hand on the one it awaits. */
  predicate Stuck(s: State, r: nat) {
    Schedules(s, r) || (Awaits(s, r) && AtDispatcher(Awaited(s, r).stage))
  }

  /** A scheduling call keeps fewer workers waiting than it has tasks, one less if the dispatcher holds one. */
  lemma SchedulingSlack(cfg: Config, s: State, r: nat)
    requires Inv(cfg, s) && Schedules(s, r)
    ensures LiveIn(s.reqs[r]) <= SlackIn(s.reqs[r])
    ensures s.disp.Busy? && s.disp.r == r ==> LiveIn(s.reqs[r]) < SlackIn(s.reqs[r])
  {
    var q := s.reqs[r];
    assert RequestOk(cfg.node, s.appDone, q);
    SumOnes(q.tasks);
    SumStrict(q.tasks, q.phase.next, Active, One);
    SumAtMost(q.tasks, Live, Active);
    if s.disp.Busy? && s.disp.r == r {
      assert AtDispatcher(TaskAt(s, r, s.disp.i).stage);
      SumStrict(q.tasks, s.disp.i, Live, Active);
    }
  }

  /** A call that awaits the task at the dispatcher has no worker: the earlier tasks are done, and this
      one was its last. */
  lemma AwaitingSlack(cfg: Config, s: State, r: nat)
    requires Inv(cfg, s) && AllOffering(s) && Awaits(s, r) && AtDispatcher(Awaited(s, r).stage)
    ensures LiveIn(s.reqs[r]) == 0 && s.disp == Busy(r, s.reqs[r].phase.next)
  {
    var q := s.reqs[r];
    var n := q.phase.next;
    assert RequestOk(cfg.node, s.appDone, q) && HasTask(s, r, n);
    forall k | 0 <= k < |q.tasks| ensures Live(q.tasks[k]) == 0 {
      assert HasTask(s, r, k) && TaskAt(s, r, k) == q.tasks[k] && TaskOk(cfg.node, q.tasks[k], q.mux);
      assert k < n ==> Taken(q.tasks[k]);
      assert n < k ==> q.tasks[k].stage.NotSent? || q.tasks[k].stage.Finished?;
    }
    SumZero(q.tasks, Live);
  }

  lemma ReturnedSlack(cfg: Config, s: State, r: nat)
    requires Inv(cfg, s) && AllOffering(s) && r < |s.reqs| && s.reqs[r].phase.Returned?
    ensures LiveIn(s.reqs[r]) == 0
  {
    var q := s.reqs[r];
    assert RequestOk(cfg.node, s.appDone, q);
    forall k | 0 <= k < |q.tasks| ensures Live(q.tasks[k]) == 0 {
      assert HasTask(s, r, k) && TaskAt(s, r, k) == q.tasks[k];
    }
    SumZero(q.tasks, Live);
  }

  lemma SlackCovers(cfg: Config, s: State, r: nat)
    requires Inv(cfg, s) && AllOffering(s) && r < |s.reqs| && (s.reqs[r].phase.Returned? || Stuck(s, r))
    ensures LiveIn(s.reqs[r]) <= SlackIn(s.reqs[r])
  {
    if s.reqs[r].phase.Returned? {
      ReturnedSlack(cfg, s, r);
    } else if Schedules(s, r) {
      SchedulingSlack(cfg, s, r);
    } else {
      AwaitingSlack(cfg, s, r);
    }
  }

  /** If no call can move while the permits are used up and the dispatcher holds one more task, the calls
      are too large for the pool. */
  lemma StuckDoesNotFit(cfg: Config, s: State)
    requires Inv(cfg, s) && AllOffering(s) && s.disp.Busy? && s.permits == cfg.workers
    requires !s.reqs[s.disp.r].mux
    requires forall r :: 0 <= r < |s.reqs| ==> s.reqs[r].phase.Returned? || Stuck(s, r)
    ensures !Fits(cfg, s)
  {
    var d := s.disp.r;
    assert RequestOk(cfg.node, s.appDone, s.reqs[d]);
    forall r | 0 <= r < |s.reqs| ensures LiveIn(s.reqs[r]) <= SlackIn(s.reqs[r]) {
      SlackCovers(cfg, s, r);
    }
    SumAtMost(s.reqs, LiveIn, SlackIn);
    if Schedules(s, d) {
      SchedulingSlack(cfg, s, d);
      SumStrict(s.reqs, d, LiveIn, SlackIn);
    } else {
      AwaitingSlack(cfg, s, d);
      if Slack(s) <= cfg.workers {
        SumTight(s.reqs, d, LiveIn, SlackIn);
      }
    }
  }

  /** The dispatcher waits for a permit behind offering workers: some call can move. */
  lemma BlockedDispatcherMoves(cfg: Config, s: State)
    requires Inv(cfg, s) && AllOffering(s) && s.disp.Busy? && s.permits == cfg.workers
    requires !s.reqs[s.disp.r].mux && Fits(cfg, s)
    ensures CanStep(cfg, s)
  {
    if forall r :: 0 <= r < |s.reqs| ==> s.reqs[r].phase.Returned? || Stuck(s, r) {
      StuckDoesNotFit(cfg, s);
    } else {
      var r :| 0 <= r < |s.reqs| && !s.reqs[r].phase.Returned? && !Stuck(s, r);
      RequestMoves(cfg, s, r);
    }
  }

  /** Deadlock freedom: with the application running and calls that fit the pool, some step is possible
      until all of them have returned. */
  lemma DeadlockFreedom(cfg: Config, s: State, r: nat)
    requires Inv(cfg, s) && !s.appDone && Fits(cfg, s)
    requires r < |s.reqs| && !s.reqs[r].phase.Returned?
    ensures CanStep(cfg, s)
  {
    if !AllOffering(s) {
      var x: nat, i: nat :| HasTask(s, x, i) && AtWorker(TaskAt(s, x, i).stage)
                            && !(TaskAt(s, x, i).stage.Sending? && !s.reqs[x].mux);
      WorkerMoves(cfg, s, x, i);
    } else if s.disp.Looping? {
      DispatcherMoves(cfg, s);
    } else if s.disp.Busy? {
      if s.permits == cfg.workers && !s.reqs[s.disp.r].mux && TaskAt(s, s.disp.r, s.disp.i).stage.Held? {
        BlockedDispatcherMoves(cfg, s);
      } else {
        DispatcherMoves(cfg, s);
      }
    } else {
      if Awaits(s, r) {
        assert HasTask(s, r, s.reqs[r].phase.next);
      }
      RequestMoves(cfg, s, r);
    }
  }

  // ---------- draining ----------

  /** Nothing is under way: no permit in use, no task at the dispatcher or at a worker. */
  ghost predicate Drained(s: State) {
    && s.disp.Idle? && s.permits == 0
    && forall r, i :: HasTask(s, r, i) ==> TaskAt(s, r, i).stage.NotSent? || TaskAt(s, r, i).stage.Finished?
  }

  /** Once every call has returned, for whatever reason, the pool can move until it is drained. */
  lemma PoolDrains(cfg: Config, s: State)
    requires Inv(cfg, s) && !s.appDone && forall r :: 0 <= r < |s.reqs| ==> s.reqs[r].phase.Returned?
    ensures CanStep(cfg, s) || Drained(s)
  {
    if x: nat, i: nat :| HasTask(s, x, i) && AtWorker(TaskAt(s, x, i).stage) {
      assert RequestOk(cfg.node, s.appDone, s.reqs[x]);
      WorkerMoves(cfg, s, x, i);
    } else if s.disp.Busy? || s.disp.Looping? {
      assert s.disp.Busy? ==> RequestOk(cfg.node, s.appDone, s.reqs[s.disp.r]);
      DispatcherMoves(cfg, s);
    } else {
      forall r | 0 <= r < |s.reqs| ensures LiveIn(s.reqs[r]) == 0 {
        forall i | 0 <= i < |s.reqs[r].tasks| ensures Live(s.reqs[r].tasks[i]) == 0 {
          assert HasTask(s, r, i) && TaskAt(s, r, i) == s.reqs[r].tasks[i];
        }
        SumZero(s.reqs[r].tasks, Live);
      }
      SumZero(s.reqs, LiveIn);
    }
  }
}
