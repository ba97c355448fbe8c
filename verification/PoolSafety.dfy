/** The inductive invariant of the pool and the safety theorems that follow from it. */
module PoolSafety {
  import opened Prelude
  import opened Chain
  import opened Pool
  import Join = FetchJoin
  import RL = RateLimiter

  predicate AtDispatcher(g: Stage) {
    g.Held? || g.HeldAborting? || g.HeldClosing?
  }

  predicate AtWorker(g: Stage) {
    g.Fetching? || g.Sending? || g.Aborting? || g.Closing? || g.Releasing?
  }

  /** The task's channel takes no further message. */
  predicate Settled(g: Stage) {
    g.HeldClosing? || g.Closing? || g.Releasing? || g.Finished?
  }

  function Live(t: Task): nat {
    if AtWorker(t.stage) then 1 else 0
  }

  function LiveIn(q: Request): nat {
    Sum(q.tasks, Live)
  }

  function LiveWorkers(s: State): nat {
    Sum(s.reqs, LiveIn)
  }

  ghost predicate StageOk(node: Node, t: Task, mux: bool) {
    match t.stage
    case HeldAborting => mux
    case Fetching(j) => Join.Inv(node, t.hash, j, mux)
    case Sending(res) => Answers(node, t.hash, res)
    case Aborting(res) => mux && Answers(node, t.hash, res) && res.err.Some?
    case _ => true
  }

  ghost predicate TaskOk(node: Node, t: Task, mux: bool) {
    && !t.ch.panicked
    && |t.ch.closers| == (if t.stage.Releasing? || t.stage.Finished? then 1 else 0)
    && |t.ch.delivered| <= 1
    && (t.ch.delivered != [] ==> Settled(t.stage) && Answers(node, t.hash, t.ch.delivered[0]))
    && (t.ch.delivered == [] && Settled(t.stage) ==> mux)
    && StageOk(node, t, mux)
  }

  /** The service has received this task's record. */
  predicate Taken(t: Task) {
    t.ch.delivered != [] && t.ch.delivered[0].err.None?
  }

  /** Tasks before n are sent and the others are not. */
  ghost predicate SentUpTo(ts: seq<Task>, n: nat) {
    n <= |ts| && forall i :: 0 <= i < |ts| ==> (i < n <==> !ts[i].stage.NotSent?)
  }

  /** The records of the tasks before n are received, nothing else is. */
  ghost predicate TakenUpTo(ts: seq<Task>, n: nat) {
    && n <= |ts|
    && (forall i :: 0 <= i < n ==> Taken(ts[i]))
    && (forall i :: n <= i < |ts| ==> ts[i].ch.delivered == [])
  }

  ghost predicate PhaseOk(appDone: bool, q: Request) {
    match q.phase
    case Scheduling(n) => SentUpTo(q.tasks, n) && TakenUpTo(q.tasks, 0)
    case Receiving(n) => SentUpTo(q.tasks, |q.tasks|) && TakenUpTo(q.tasks, n)
    case Storing(n) => SentUpTo(q.tasks, |q.tasks|) && n < |q.tasks| && TakenUpTo(q.tasks, n + 1)
    case Leaving(out) => OutcomeOk(appDone, q, out)
    case Returned(out) => OutcomeOk(appDone, q, out) && q.mux
  }

  /** Success means every record was received; giving up without an error from the node or the store
      means the application or the request was cancelled. */
  ghost predicate OutcomeOk(appDone: bool, q: Request, out: Outcome) {
    && (out.Success? ==> TakenUpTo(q.tasks, |q.tasks|))
    && (out.Withdrawn? || out.Cancelled? || out.NilDereference? ==> appDone || q.reqDone)
  }

  /** Tasks are handed over one at a time: while one is at the dispatcher, no later one is under way. */
  ghost predicate InOrder(ts: seq<Task>) {
    forall i, j :: 0 <= i < j < |ts| && AtDispatcher(ts[i].stage) ==> ts[j].stage.NotSent? || ts[j].stage.Finished?
  }

  ghost predicate RequestOk(node: Node, appDone: bool, q: Request) {
    && (forall i :: 0 <= i < |q.tasks| ==> TaskOk(node, q.tasks[i], q.mux))
    && (q.mux ==> appDone || q.reqDone || q.phase.Returned?)
    && InOrder(q.tasks)
    && PhaseOk(appDone, q)
  }

  /** The dispatcher's task is the one and only task at the dispatcher. */
  ghost predicate DispatcherOk(s: State) {
    && (s.disp.Busy? ==> HasTask(s, s.disp.r, s.disp.i))
    && (forall r, i :: HasTask(s, r, i) ==> (AtDispatcher(TaskAt(s, r, i).stage) <==> s.disp == Busy(r, i)))
    && (s.disp.Exited? ==> s.appDone)
  }

  ghost predicate LimiterOk(s: State) {
    s.bucket.max > 0 && RL.Conserved(s.bucket) && (!s.bucket.refilling ==> s.appDone)
  }

  ghost predicate Inv(cfg: Config, s: State) {
    && (forall r :: 0 <= r < |s.reqs| ==> RequestOk(cfg.node, s.appDone, s.reqs[r]))
    && s.permits == LiveWorkers(s) <= cfg.workers
    && DispatcherOk(s)
    && LimiterOk(s)
  }

  // ---------- the invariant is inductive ----------

  lemma InitInv(cfg: Config, maxCredits: nat, missing: seq<seq<string>>)
    requires maxCredits > 0
    ensures Inv(cfg, Init(maxCredits, missing))
  {
    var s := Init(maxCredits, missing);
    forall r | 0 <= r < |s.reqs| ensures LiveIn(s.reqs[r]) == 0 {
      SumZero(s.reqs[r].tasks, Live);
    }
    SumZero(s.reqs, LiveIn);
  }

  /** A join starts in its invariant. */
  lemma StartedInv(node: Node, hash: string, done: bool)
    ensures Join.Inv(node, hash, Join.STARTED, done)
  {
  }

  lemma TaskOkMonotone(node: Node, t: Task)
    requires TaskOk(node, t, false)
    ensures TaskOk(node, t, true)
  {
  }

  /** Replacing request r by q, with at most one task changed, keeps the invariant if q is in order,
      the permits follow the workers and the dispatcher points at the right task. */
  lemma ReplaceRequest(cfg: Config, s: State, s': State, r: nat, q: Request)
    requires Inv(cfg, s) && r < |s.reqs| && s'.reqs == s.reqs[r := q] && s'.appDone == s.appDone
    requires RequestOk(cfg.node, s.appDone, q) && |q.tasks| == |s.reqs[r].tasks|
    requires s'.permits + LiveIn(s.reqs[r]) == s.permits + LiveIn(q) && s'.permits <= cfg.workers
    requires s'.disp.Exited? ==> s.appDone
    requires s'.disp.Busy? ==> HasTask(s', s'.disp.r, s'.disp.i)
    requires forall i :: 0 <= i < |q.tasks| ==> (AtDispatcher(q.tasks[i].stage) <==> s'.disp == Busy(r, i))
    requires s'.disp == s.disp || ((s.disp.Busy? ==> s.disp.r == r) && (s'.disp.Busy? ==> s'.disp.r == r))
    requires LimiterOk(s')
    ensures Inv(cfg, s')
  {
    SumUpdate(s.reqs, r, q, LiveIn);
    forall x, i | HasTask(s', x, i)
      ensures AtDispatcher(TaskAt(s', x, i).stage) <==> s'.disp == Busy(x, i)
    {
      if x != r {
        assert HasTask(s, x, i) && TaskAt(s', x, i) == TaskAt(s, x, i);
      }
    }
  }

  /** The request's phase or flags change, its tasks do not. */
  lemma ChangeRequest(cfg: Config, s: State, r: nat, q: Request)
    requires Inv(cfg, s) && r < |s.reqs| && RequestOk(cfg.node, s.appDone, q)
    requires q.tasks == s.reqs[r].tasks
    ensures Inv(cfg, PutReq(s, r, q))
  {
    forall i | 0 <= i < |q.tasks|
      ensures AtDispatcher(q.tasks[i].stage) <==> s.disp == Busy(r, i)
    {
      assert HasTask(s, r, i) && TaskAt(s, r, i) == q.tasks[i];
    }
    ReplaceRequest(cfg, s, PutReq(s, r, q), r, q);
  }

  /** One task changes, and with it perhaps the phase, the permits, the dispatcher, the bucket. */
  lemma ChangeTask(cfg: Config, s: State, s': State, r: nat, i: nat, t: Task)
    requires Inv(cfg, s) && HasTask(s, r, i) && r < |s'.reqs|
    requires s'.reqs == s.reqs[r := s.reqs[r].(tasks := s.reqs[r].tasks[i := t], phase := s'.reqs[r].phase)]
    requires s'.appDone == s.appDone
    requires RequestOk(cfg.node, s.appDone, s'.reqs[r])
    requires s'.permits + Live(TaskAt(s, r, i)) == s.permits + Live(t) && s'.permits <= cfg.workers
    requires s'.disp.Exited? ==> s.appDone
    requires AtDispatcher(t.stage) <==> s'.disp == Busy(r, i)
    requires s'.disp == s.disp
             || ((s.disp.Busy? ==> s.disp == Busy(r, i)) && (s'.disp.Busy? ==> s'.disp == Busy(r, i)))
    requires LimiterOk(s')
    ensures Inv(cfg, s')
  {
    var q := s'.reqs[r];
    SumUpdate(s.reqs[r].tasks, i, t, Live);
    forall k | 0 <= k < |q.tasks|
      ensures AtDispatcher(q.tasks[k].stage) <==> s'.disp == Busy(r, k)
    {
      if k != i {
        assert HasTask(s, r, k) && TaskAt(s, r, k) == q.tasks[k];
      }
    }
    ReplaceRequest(cfg, s, s', r, q);
  }

  /** A sent task moves on without receiving a message and without coming back to the dispatcher. */
  lemma LocalTask(node: Node, appDone: bool, q: Request, i: nat, t: Task)
    requires RequestOk(node, appDone, q) && i < |q.tasks| && TaskOk(node, t, q.mux)
    requires !t.stage.NotSent? && !q.tasks[i].stage.NotSent? && !q.tasks[i].stage.Finished?
    requires t.ch.delivered == q.tasks[i].ch.delivered
    requires AtDispatcher(t.stage) ==> AtDispatcher(q.tasks[i].stage)
    ensures RequestOk(node, appDone, q.(tasks := q.tasks[i := t]))
  {
    var p := q.(tasks := q.tasks[i := t]);
    assert InOrder(p.tasks);
    assert forall k :: 0 <= k < |q.tasks| ==> p.tasks[k].ch.delivered == q.tasks[k].ch.delivered;
    assert forall k :: 0 <= k < |q.tasks| ==> (p.tasks[k].stage.NotSent? <==> q.tasks[k].stage.NotSent?);
    assert forall n :: SentUpTo(q.tasks, n) ==> SentUpTo(p.tasks, n);
    assert forall n :: TakenUpTo(q.tasks, n) ==> TakenUpTo(p.tasks, n);
  }

  /** The dispatcher's moves keep a task in order. */
  lemma DispatchedOk(node: Node, t: Task, mux: bool, d: DispatcherStep)
    requires TaskOk(node, t, mux) && DispatcherCan(t, mux, d)
    ensures TaskOk(node, Dispatched(t, d), mux)
  {
    StartedInv(node, t.hash, mux);
  }

  lemma DispatchStep(cfg: Config, s: State, d: DispatcherStep)
    requires Inv(cfg, s) && Enabled(cfg, s, Dispatch(d))
    ensures Inv(cfg, Next(cfg, s, Dispatch(d)))
  {
    var r, i := s.disp.r, s.disp.i;
    var t := Dispatched(TaskAt(s, r, i), d);
    DispatchedOk(cfg.node, TaskAt(s, r, i), s.reqs[r].mux, d);
    LocalTask(cfg.node, s.appDone, s.reqs[r], i, t);
    ChangeTask(cfg, s, Next(cfg, s, Dispatch(d)), r, i, t);
  }

  /** A message passes to the request's receive. */
  lemma DeliverTask(node: Node, appDone: bool, q: Request, n: nat, t: Task, phase: Phase)
    requires q.phase == Receiving(n) && PhaseOk(appDone, q) && InOrder(q.tasks) && n < |q.tasks|
    requires TaskOk(node, q.tasks[n], q.mux) && Message(q.tasks[n]).Some?
    requires t.stage == if q.tasks[n].stage.HeldAborting? then HeldClosing else Closing
    requires t.ch == Transfer(q.tasks[n].ch, Message(q.tasks[n]).value) && t.hash == q.tasks[n].hash
    requires phase == OnResult(n, Message(q.tasks[n]).value)
    ensures TaskOk(node, t, q.mux)
    ensures var q' := q.(phase := phase, tasks := q.tasks[n := t]); PhaseOk(appDone, q') && InOrder(q'.tasks)
  {
    var ts := q.tasks[n := t];
    assert SentUpTo(ts, |ts|);
    if phase.Storing? {
      assert TakenUpTo(ts, n + 1);
    }
  }

  lemma DeliverStep(cfg: Config, s: State, r: nat)
    requires Inv(cfg, s) && Enabled(cfg, s, Deliver(r))
    ensures Inv(cfg, Next(cfg, s, Deliver(r)))
  {
    var s' := Next(cfg, s, Deliver(r));
    var q, q' := s.reqs[r], s'.reqs[r];
    var n := q.phase.next;
    assert HasTask(s, r, n) && TaskAt(s, r, n) == q.tasks[n];
    DeliverTask(cfg.node, s.appDone, q, n, q'.tasks[n], q'.phase);
    ChangeTask(cfg, s, s', r, n, q'.tasks[n]);
  }

  /** ScheduleTask hands its task over. */
  lemma OfferStep(cfg: Config, s: State, r: nat)
    requires Inv(cfg, s) && Enabled(cfg, s, Offer(r))
    ensures Inv(cfg, Next(cfg, s, Offer(r)))
  {
    var s' := Next(cfg, s, Offer(r));
    var q, q' := s.reqs[r], s'.reqs[r];
    var n := q.phase.next;
    forall i | 0 <= i < |q.tasks| ensures !AtDispatcher(q.tasks[i].stage) {
      assert HasTask(s, r, i) && TaskAt(s, r, i) == q.tasks[i];
    }
    assert InOrder(q'.tasks) && PhaseOk(s.appDone, q');
    ChangeTask(cfg, s, s', r, n, q'.tasks[n]);
  }

  /** ScheduleTask gives up and closes the channel it made. */
  lemma WithdrawStep(cfg: Config, s: State, r: nat)
    requires Inv(cfg, s) && Enabled(cfg, s, Withdraw(r))
    ensures Inv(cfg, Next(cfg, s, Withdraw(r)))
  {
    var s' := Next(cfg, s, Withdraw(r));
    var q, q' := s.reqs[r], s'.reqs[r];
    var n := q.phase.next;
    assert HasTask(s, r, n) && TaskAt(s, r, n) == q.tasks[n];
    assert TaskOk(cfg.node, q'.tasks[n], q.mux) by {
      assert TaskOk(cfg.node, q.tasks[n], q.mux);
    }
    assert InOrder(q'.tasks) && PhaseOk(s.appDone, q');
    ChangeTask(cfg, s, s', r, n, q'.tasks[n]);
  }

  /** The service's moves between channel operations. */
  lemma ServedOk(node: Node, appDone: bool, q: Request, v: ServiceStep)
    requires RequestOk(node, appDone, q) && ServiceCan(q, v)
    ensures RequestOk(node, appDone, Served(q, v))
  {
    if v.Return? && !q.mux {
      forall i | 0 <= i < |q.tasks| ensures TaskOk(node, q.tasks[i], true) {
        TaskOkMonotone(node, q.tasks[i]);
      }
    }
    if v.ReceiveClosed? {
      assert TaskOk(node, q.tasks[q.phase.next], q.mux);
    }
  }

  /** Cancellation of a request and its merged context. */
  lemma ContextSteps(cfg: Config, s: State, l: Label)
    requires Inv(cfg, s) && Enabled(cfg, s, l) && (l.CancelRequest? || l.Merge?)
    ensures Inv(cfg, Next(cfg, s, l))
  {
    var q, q' := s.reqs[l.r], Next(cfg, s, l).reqs[l.r];
    if q'.mux && !q.mux {
      forall i | 0 <= i < |q.tasks| ensures TaskOk(cfg.node, q.tasks[i], true) {
        TaskOkMonotone(cfg.node, q.tasks[i]);
      }
    }
    ChangeRequest(cfg, s, l.r, q');
  }

  /** The dispatcher between tasks, the limiter, and the end of the application context. */
  lemma GlobalSteps(cfg: Config, s: State, l: Label)
    requires Inv(cfg, s) && Enabled(cfg, s, l)
    requires l.CancelApp? || l.Stop? || l.Loop? || l.Tick?
    ensures Inv(cfg, Next(cfg, s, l))
  {
    var s' := Next(cfg, s, l);
    assert forall r, i :: HasTask(s', r, i) ==> HasTask(s, r, i) && TaskAt(s', r, i) == TaskAt(s, r, i);
  }

  /** A worker's moves keep a task in order. */
  lemma WorkedOk(node: Node, t: Task, mux: bool, w: WorkerStep)
    requires TaskOk(node, t, mux) && WorkerCan(t, mux, w)
    ensures var t' := Worked(node, t, mux, w);
            TaskOk(node, t', mux) && Live(t') == (if w.Release? then 0 else 1)
  {
    match w
    case Fetch(st) => Join.StepKeepsInv(node, t.hash, t.stage.join, mux, st);
    case Evaluate => Join.EvaluateIsSafe(node, t.hash, t.stage.join, mux);
    case _ =>
  }

  lemma WorkStep(cfg: Config, s: State, r: nat, i: nat, w: WorkerStep)
    requires Inv(cfg, s) && Enabled(cfg, s, Work(r, i, w))
    ensures Inv(cfg, Next(cfg, s, Work(r, i, w)))
  {
    var t' := Worked(cfg.node, TaskAt(s, r, i), s.reqs[r].mux, w);
    WorkedRequestOk(cfg.node, s.appDone, s.reqs[r], i, w);
    WorkedPool(cfg, s, r, i, w);
    ChangeTask(cfg, s, Next(cfg, s, Work(r, i, w)), r, i, t');
  }

  /** The request stays in order; its task stays away from the dispatcher. */
  lemma WorkedRequestOk(node: Node, appDone: bool, q: Request, i: nat, w: WorkerStep)
    requires RequestOk(node, appDone, q) && i < |q.tasks| && WorkerCan(q.tasks[i], q.mux, w)
    ensures var t' := Worked(node, q.tasks[i], q.mux, w);
            RequestOk(node, appDone, q.(tasks := q.tasks[i := t']))
            && !AtDispatcher(q.tasks[i].stage) && !AtDispatcher(t'.stage)
            && Live(q.tasks[i]) == 1 && Live(t') == (if w.Release? then 0 else 1)
  {
    assert TaskOk(node, q.tasks[i], q.mux);
    WorkedOk(node, q.tasks[i], q.mux, w);
    LocalTask(node, appDone, q, i, Worked(node, q.tasks[i], q.mux, w));
  }

  /** The rest of the pool: permits, dispatcher and limiter. */
  lemma WorkedPool(cfg: Config, s: State, r: nat, i: nat, w: WorkerStep)
    requires Inv(cfg, s) && Enabled(cfg, s, Work(r, i, w))
    ensures var s' := Next(cfg, s, Work(r, i, w));
            && s'.appDone == s.appDone && s'.disp == s.disp && LimiterOk(s')
            && s'.permits == (if w.Release? then s.permits - 1 else s.permits)
  {
  }

  /** Every step of every interleaving keeps the invariant. */
  lemma StepKeepsInv(cfg: Config, s: State, l: Label)
    requires Inv(cfg, s) && Enabled(cfg, s, l)
    ensures Inv(cfg, Next(cfg, s, l))
  {
    match l
    case CancelRequest(_) => ContextSteps(cfg, s, l);
    case Merge(_) => ContextSteps(cfg, s, l);
    case Offer(r) => OfferStep(cfg, s, r);
    case Withdraw(r) => WithdrawStep(cfg, s, r);
    case Deliver(r) => DeliverStep(cfg, s, r);
    case Serve(r, v) =>
      ServedOk(cfg.node, s.appDone, s.reqs[r], v);
      ChangeRequest(cfg, s, r, Served(s.reqs[r], v));
    case Dispatch(d) => DispatchStep(cfg, s, d);
    case Work(r, i, w) => WorkStep(cfg, s, r, i, w);
    case _ => GlobalSteps(cfg, s, l);
  }

  lemma {:induction false} RunKeepsInv(cfg: Config, s: State, run: seq<Label>)
    requires Inv(cfg, s) && Executes(cfg, s, run)
    ensures Inv(cfg, After(cfg, s, run))
    decreases |run|
  {
    if run != [] {
      StepKeepsInv(cfg, s, run[0]);
      RunKeepsInv(cfg, Next(cfg, s, run[0]), run[1..]);
    }
  }

  // ---------- theorems over every run ----------

  ghost predicate Reached(cfg: Config, maxCredits: nat, missing: seq<seq<string>>, run: seq<Label>, s: State) {
    && maxCredits > 0
    && Executes(cfg, Init(maxCredits, missing), run)
    && s == After(cfg, Init(maxCredits, missing), run)
  }

  lemma ReachedInv(cfg: Config, maxCredits: nat, missing: seq<seq<string>>, run: seq<Label>, s: State)
    requires Reached(cfg, maxCredits, missing, run, s)
    ensures Inv(cfg, s)
  {
    InitInv(cfg, maxCredits, missing);
    RunKeepsInv(cfg, Init(maxCredits, missing), run);
  }

  /** Channel ownership: in every interleaving a result channel is closed at most once, carries at most
      one message, never sees a send after its close, and a channel closed empty belongs to a task whose
      context was done. No goroutine blocked in a send can find its channel closed. */
  lemma ChannelOwnership(cfg: Config, maxCredits: nat, missing: seq<seq<string>>, run: seq<Label>, s: State,
                         r: nat, i: nat)
    requires Reached(cfg, maxCredits, missing, run, s) && HasTask(s, r, i)
    ensures var t := TaskAt(s, r, i);
            && !t.ch.panicked && |t.ch.closers| <= 1 && |t.ch.delivered| <= 1
            && (t.ch.closers != [] && t.ch.delivered == [] ==> s.reqs[r].mux)
            && (Message(t).Some? ==> t.ch.closers == [] && t.ch.delivered == [])
            && (t.stage.Finished? ==> |t.ch.closers| == 1)
  {
    ReachedInv(cfg, maxCredits, missing, run, s);
    assert TaskOk(cfg.node, TaskAt(s, r, i), s.reqs[r].mux);
  }

  /** Delivery: what a task's channel delivered answers the hash that was asked, and without an error
      it is the chain's record of it, field by field what the node said of this hash. */
  lemma DeliveryMatchesRequest(cfg: Config, maxCredits: nat, missing: seq<seq<string>>, run: seq<Label>, s: State,
                               r: nat, i: nat)
    requires Reached(cfg, maxCredits, missing, run, s) && HasTask(s, r, i) && TaskAt(s, r, i).ch.delivered != []
    ensures Answers(cfg.node, TaskAt(s, r, i).hash, TaskAt(s, r, i).ch.delivered[0])
    ensures var t := TaskAt(s, r, i);
            t.ch.delivered[0].err.None? ==>
              && t.ch.delivered[0].tx.Some? && t.ch.delivered[0].tx == ChainRecord(cfg.node, t.hash)
              && Describes(t.ch.delivered[0].tx.value, cfg.node.details(t.hash), cfg.node.receipt(t.hash))
  {
    RecordDescribes(cfg.node, TaskAt(s, r, i).hash);
    ReachedInv(cfg, maxCredits, missing, run, s);
    assert TaskOk(cfg.node, TaskAt(s, r, i), s.reqs[r].mux);
  }

  /** Node calls in progress for one task. */
  function Calls(t: Task): nat {
    if t.stage.Fetching?
    then (if t.stage.join.tx.Calling? then 1 else 0) + (if t.stage.join.rc.Calling? then 1 else 0)
    else 0
  }

  function CallsIn(q: Request): nat {
    Sum(q.tasks, Calls)
  }

  /** Permit conservation: the permits taken are exactly the live workers and at most W, a worker giving
      its permit back never blocks, both fetch goroutines are gone before the worker leaves the fetch,
      and at most 2W node calls are in progress. */
  lemma PermitConservation(cfg: Config, maxCredits: nat, missing: seq<seq<string>>, run: seq<Label>, s: State)
    requires Reached(cfg, maxCredits, missing, run, s)
    ensures s.permits == LiveWorkers(s) <= cfg.workers
    ensures forall r: nat, i: nat :: HasTask(s, r, i) && TaskAt(s, r, i).stage.Releasing? ==>
              Enabled(cfg, s, Work(r, i, Release))
    ensures forall r: nat, i: nat :: Enabled(cfg, s, Work(r, i, Evaluate)) ==>
              TaskAt(s, r, i).stage.join.tx.Gone? && TaskAt(s, r, i).stage.join.rc.Gone?
    ensures Sum(s.reqs, CallsIn) <= 2 * cfg.workers
  {
    ReachedInv(cfg, maxCredits, missing, run, s);
    forall r: nat, i: nat | HasTask(s, r, i) && TaskAt(s, r, i).stage.Releasing?
      ensures Enabled(cfg, s, Work(r, i, Release))
    {
      SumCovers(s.reqs[r].tasks, i, Live);
      SumCovers(s.reqs, r, LiveIn);
    }
    forall r: nat, i: nat | Enabled(cfg, s, Work(r, i, Evaluate))
      ensures TaskAt(s, r, i).stage.join.tx.Gone? && TaskAt(s, r, i).stage.join.rc.Gone?
    {
      assert TaskOk(cfg.node, TaskAt(s, r, i), s.reqs[r].mux);
    }
    forall r | 0 <= r < |s.reqs| ensures CallsIn(s.reqs[r]) <= 2 * LiveIn(s.reqs[r]) {
      SumScaled(s.reqs[r].tasks, Calls, Live, 2);
    }
    SumScaled(s.reqs, CallsIn, LiveIn, 2);
  }

  /** Cancellation is never spurious: a running call finds its merged context done, or a closed channel,
      or ends as cancelled, only if the application or its own request was cancelled. */
  lemma CancellationIsReal(cfg: Config, maxCredits: nat, missing: seq<seq<string>>, run: seq<Label>, s: State, r: nat)
    requires Reached(cfg, maxCredits, missing, run, s) && r < |s.reqs|
    requires (s.reqs[r].mux && !s.reqs[r].phase.Returned?)
             || Enabled(cfg, s, Serve(r, ReceiveClosed)) || Enabled(cfg, s, Serve(r, SeeCancel))
             || Enabled(cfg, s, Withdraw(r))
             || s.reqs[r].phase == Returned(NilDereference) || s.reqs[r].phase == Returned(Cancelled)
             || s.reqs[r].phase == Returned(Withdrawn)
    ensures s.appDone || s.reqs[r].reqDone
  {
    ReachedInv(cfg, maxCredits, missing, run, s);
    var q := s.reqs[r];
    assert RequestOk(cfg.node, s.appDone, q);
    if Enabled(cfg, s, Serve(r, ReceiveClosed)) {
      assert TaskOk(cfg.node, q.tasks[q.phase.next], q.mux);
    }
  }

  /** Success means every hash was answered, once, with its chain record. */
  lemma SuccessIsComplete(cfg: Config, maxCredits: nat, missing: seq<seq<string>>, run: seq<Label>, s: State,
                          r: nat, i: nat)
    requires Reached(cfg, maxCredits, missing, run, s) && HasTask(s, r, i)
    requires s.reqs[r].phase == Returned(Success)
    ensures var t := TaskAt(s, r, i);
            ChainRecord(cfg.node, t.hash).Some? && t.ch.delivered == [TxResult(ChainRecord(cfg.node, t.hash), None)]
  {
    ReachedInv(cfg, maxCredits, missing, run, s);
    var t := TaskAt(s, r, i);
    assert TaskOk(cfg.node, t, s.reqs[r].mux) && Taken(t);
  }

  /** Every credit taken was put in first, and every node call took one. */
  lemma CreditsConserved(cfg: Config, maxCredits: nat, missing: seq<seq<string>>, run: seq<Label>, s: State)
    requires Reached(cfg, maxCredits, missing, run, s)
    ensures RL.Conserved(s.bucket) && s.bucket.grants == Granted(run)
  {
    ReachedInv(cfg, maxCredits, missing, run, s);
    CountGrants(cfg, Init(maxCredits, missing), run);
  }

  /** The number of node calls started in a run. */
  function Granted(run: seq<Label>): nat {
    if run == [] then 0 else (if run[0].Work? && IsGrant(run[0].w) then 1 else 0) + Granted(run[1..])
  }

  lemma {:induction false} CountGrants(cfg: Config, s: State, run: seq<Label>)
    requires Executes(cfg, s, run)
    ensures After(cfg, s, run).bucket.grants == s.bucket.grants + Granted(run)
    decreases |run|
  {
    if run != [] {
      CountGrants(cfg, Next(cfg, s, run[0]), run[1..]);
    }
  }
}
