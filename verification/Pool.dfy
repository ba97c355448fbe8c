/** The fetch pool as a transition system: requests (GetTransactionsByHashes) schedule one task per
    missing hash and then collect the results, one dispatcher hands tasks to at most W workers
    (NewEthNode), each worker runs a fetch (FetchJoin) and every fetch goroutine polls the rate limiter. */
module Pool {
  import opened Prelude
  import opened Chain
  import Join = FetchJoin
  import RL = RateLimiter

  /** workers is the capacity of the permit channel. */
  datatype Config = Config(workers: nat, node: Node)

  // ---------- state ----------

  /** Who closed a result channel. */
  datatype Owner = Scheduler | Dispatching | Worker

  /** An unbuffered result channel with its history; panicked records a send on, or a second close of,
      a closed channel. */
  datatype Channel = Channel(closers: seq<Owner>, delivered: seq<TxResult>, panicked: bool)

  const FRESH := Channel([], [], false)

  function Close(ch: Channel, who: Owner): Channel {
    ch.(closers := ch.closers + [who], panicked := ch.panicked || ch.closers != [])
  }

  function Transfer(ch: Channel, res: TxResult): Channel {
    ch.(delivered := ch.delivered + [res], panicked := ch.panicked || ch.closers != [])
  }

  datatype Stage =
    | NotSent
    | Held                            // accepted, the dispatcher waits for a permit
    | HeldAborting                    // the dispatcher saw the task context done
    | HeldClosing                     // the dispatcher is about to close the channel
    | Fetching(join: Join.Join)       // a worker runs GetTransactionByHash
    | Sending(res: TxResult)          // the worker offers its result
    | Aborting(res: TxResult)         // the worker saw the task context done
    | Closing                         // deferred close still to run
    | Releasing                       // permit still to be returned
    | Finished

  datatype Task = Task(hash: string, stage: Stage, ch: Channel)

  datatype Outcome =
    | Success
    | Withdrawn                       // ScheduleTask saw the context done
    | FetchFailed(err: string)
    | StoreFailed
    | Cancelled
    | NilDereference                  // a result without a transaction was dereferenced

  datatype Phase =
    | Scheduling(next: nat)
    | Receiving(next: nat)
    | Storing(next: nat)
    | Leaving(out: Outcome)           // deferred cancel still to run
    | Returned(out: Outcome)

  /** reqDone is the HTTP request context, mux the merged context given to every task. */
  datatype Request = Request(reqDone: bool, mux: bool, phase: Phase, tasks: seq<Task>)

  datatype Dispatcher = Idle | Busy(r: nat, i: nat) | Looping | Exited

  datatype State = State(appDone: bool, disp: Dispatcher, permits: nat, bucket: RL.Bucket, reqs: seq<Request>)

  function NewTasks(hashes: seq<string>): seq<Task> {
    seq(|hashes|, k requires 0 <= k < |hashes| => Task(hashes[k], NotSent, FRESH))
  }

  function NewRequests(missing: seq<seq<string>>): seq<Request> {
    seq(|missing|, k requires 0 <= k < |missing| =>
      Request(false, false, Scheduling(0), NewTasks(missing[k])))
  }

  /** A fresh pool and any number of requests, each with its list of missing hashes. */
  function Init(maxCredits: nat, missing: seq<seq<string>>): State {
    State(false, Idle, 0, RL.Full(maxCredits), NewRequests(missing))
  }

  // ---------- steps ----------

  /** A worker's moves on its task. */
  datatype WorkerStep =
    | Fetch(st: Join.Step)            // inside GetTransactionByHash
    | Evaluate                        // GetTransactionByHash returns
    | GiveUp                          // the select chose the done context
    | SkipSend                        // the non-blocking send found no receiver
    | CloseResult                     // deferred close
    | Release                         // permit returned

  /** The dispatcher's moves on the task it holds. */
  datatype DispatcherStep = Acquire | Abort | DropSend | CloseHeld

  /** The service's moves between channel operations that change a task. */
  datatype ServiceStep = AllScheduled | ReceiveClosed | SeeCancel | Stored | StoreFails | Complete | Return

  datatype Label =
    | CancelApp                       // environment
    | CancelRequest(r: nat)           // environment
    | Merge(r: nat)                   // MergeContexts
    | Offer(r: nat)                   // the dispatcher takes the task ScheduleTask offers
    | Withdraw(r: nat)                // ScheduleTask sees the context done
    | Deliver(r: nat)                 // a send on the awaited channel meets the receive
    | Serve(r: nat, v: ServiceStep)
    | Stop                            // the idle dispatcher sees the application end
    | Loop                            // the dispatcher goes on after closing a channel
    | Dispatch(d: DispatcherStep)
    | Work(r: nat, i: nat, w: WorkerStep)
    | Tick(pickDone: bool)            // the limiter

  predicate HasTask(s: State, r: nat, i: nat) {
    r < |s.reqs| && i < |s.reqs[r].tasks|
  }

  function TaskAt(s: State, r: nat, i: nat): Task
    requires HasTask(s, r, i)
  {
    s.reqs[r].tasks[i]
  }

  const CANCELED := "task canceled"

  /** The message a task's goroutine is trying to send, if it is trying. */
  function Message(t: Task): Option<TxResult> {
    match t.stage
    case HeldAborting => Some(TxResult(Some(HashOnly(t.hash)), Some(CANCELED)))
    case Sending(res) => Some(res)
    case Aborting(res) => Some(res)
    case _ => None
  }

  predicate WorkerCan(t: Task, mux: bool, w: WorkerStep) {
    match w
    case Fetch(st) => t.stage.Fetching? && Join.Enabled(t.stage.join, mux, st)
    case Evaluate => t.stage.Fetching? && t.stage.join.ended
    case GiveUp => t.stage.Sending? && mux
    case SkipSend => t.stage.Aborting?
    case CloseResult => t.stage.Closing?
    case Release => t.stage.Releasing?
  }

  function Worked(node: Node, t: Task, mux: bool, w: WorkerStep): Task
    requires WorkerCan(t, mux, w)
  {
    match w
    case Fetch(st) => t.(stage := Fetching(Join.Next(node, t.hash, t.stage.join, st)))
    case Evaluate => Evaluated(t, mux)
    case GiveUp => t.(stage := Aborting(t.stage.res.(err := Some(CANCELED))))
    case SkipSend => t.(stage := Closing)
    case CloseResult => t.(stage := Releasing, ch := Close(t.ch, Worker))
    case Release => t.(stage := Finished)
  }

  predicate IsGrant(w: WorkerStep) {
    w.Fetch? && w.st.Grant?
  }

  predicate DispatcherCan(t: Task, mux: bool, d: DispatcherStep) {
    match d
    case Acquire => t.stage.Held?
    case Abort => t.stage.Held? && mux
    case DropSend => t.stage.HeldAborting?
    case CloseHeld => t.stage.HeldClosing?
  }

  function Dispatched(t: Task, d: DispatcherStep): Task {
    match d
    case Acquire => t.(stage := Fetching(Join.STARTED))
    case Abort => t.(stage := HeldAborting)
    case DropSend => t.(stage := HeldClosing)
    case CloseHeld => t.(stage := Finished, ch := Close(t.ch, Dispatching))
  }

  predicate ServiceCan(q: Request, v: ServiceStep) {
    match v
    case AllScheduled => q.phase.Scheduling? && q.phase.next >= |q.tasks|
    case ReceiveClosed => Receives(q) && q.tasks[q.phase.next].ch.closers != []
    case SeeCancel => Receives(q) && q.mux
    case Stored => q.phase.Storing?
    case StoreFails => q.phase.Storing?
    case Complete => q.phase.Receiving? && q.phase.next >= |q.tasks|
    case Return => q.phase.Leaving?
  }

  function Served(q: Request, v: ServiceStep): Request
    requires ServiceCan(q, v)
  {
    match v
    case AllScheduled => q.(phase := Receiving(0))
    case ReceiveClosed => q.(phase := OnResult(q.phase.next, ZERO_RESULT))
    case SeeCancel => q.(phase := Leaving(Cancelled))
    case Stored => q.(phase := Receiving(q.phase.next + 1))
    case StoreFails => q.(phase := Leaving(StoreFailed))
    case Complete => q.(phase := Leaving(Success))
    case Return => q.(mux := true, phase := Returned(q.phase.out))
  }

  /** The request is inside the receiving select. */
  predicate Receives(q: Request) {
    q.phase.Receiving? && q.phase.next < |q.tasks|
  }

  predicate Enabled(cfg: Config, s: State, l: Label) {
    match l
    case CancelApp => !s.appDone
    case CancelRequest(r) => r < |s.reqs| && !s.reqs[r].reqDone
    case Merge(r) => r < |s.reqs| && !s.reqs[r].mux && (s.appDone || s.reqs[r].reqDone)
    case Offer(r) => Schedules(s, r) && s.disp.Idle?
    case Withdraw(r) => Schedules(s, r) && s.reqs[r].mux
    case Deliver(r) => Awaits(s, r) && Message(Awaited(s, r)).Some?
    case Serve(r, v) => r < |s.reqs| && ServiceCan(s.reqs[r], v)
    case Stop => s.disp.Idle? && s.appDone
    case Loop => s.disp.Looping?
    case Dispatch(d) =>
      && s.disp.Busy? && HasTask(s, s.disp.r, s.disp.i)
      && DispatcherCan(TaskAt(s, s.disp.r, s.disp.i), s.reqs[s.disp.r].mux, d)
      && (d.Acquire? ==> s.permits < cfg.workers)
    case Work(r, i, w) =>
      && HasTask(s, r, i) && WorkerCan(TaskAt(s, r, i), s.reqs[r].mux, w)
      && (w.Release? ==> s.permits > 0)
      && (IsGrant(w) ==> RL.OnAsk(s.bucket, s.appDone, false).1)
    case Tick(pick) => RL.OnTick(s.bucket, s.appDone, pick) != s.bucket
  }

  /** Request r is inside ScheduleTask. */
  predicate Schedules(s: State, r: nat) {
    r < |s.reqs| && s.reqs[r].phase.Scheduling? && s.reqs[r].phase.next < |s.reqs[r].tasks|
  }

  /** Request r is inside the receiving select. */
  predicate Awaits(s: State, r: nat) {
    r < |s.reqs| && Receives(s.reqs[r])
  }

  function Awaited(s: State, r: nat): Task
    requires Awaits(s, r)
  {
    TaskAt(s, r, s.reqs[r].phase.next)
  }

  function PutReq(s: State, r: nat, q: Request): State
    requires r < |s.reqs|
  {
    s.(reqs := s.reqs[r := q])
  }

  function PutTask(s: State, r: nat, i: nat, t: Task): State
    requires HasTask(s, r, i)
  {
    PutReq(s, r, s.reqs[r].(tasks := s.reqs[r].tasks[i := t]))
  }

  function PutPhase(s: State, r: nat, phase: Phase): State
    requires r < |s.reqs|
  {
    PutReq(s, r, s.reqs[r].(phase := phase))
  }

  /** What the service does with a received result (service.go:97-107). */
  function OnResult(next: nat, res: TxResult): Phase {
    if res.tx.None? then Leaving(NilDereference)
    else if res.err.Some? then Leaving(FetchFailed(res.err.value))
    else Storing(next)
  }

  /** The worker's result after GetTransactionByHash. */
  function WorkerResult(hash: string, f: Join.Fetched): TxResult
    requires !f.NilPanic?
  {
    match f
    case Record(tx) => TxResult(Some(tx), None)
    case Failed(err) => TxResult(Some(HashOnly(hash)), Some(err))
  }

  /** A panic inside GetTransactionByHash ends the worker without a result. */
  function Evaluated(t: Task, mux: bool): Task
    requires t.stage.Fetching?
  {
    var f := Join.Evaluate(t.stage.join, mux);
    if f.NilPanic? then t.(ch := t.ch.(panicked := true), stage := Closing)
    else t.(stage := Sending(WorkerResult(t.hash, f)))
  }

  function Next(cfg: Config, s: State, l: Label): State
    requires Enabled(cfg, s, l)
  {
    match l
    case CancelApp => s.(appDone := true)
    case CancelRequest(r) => PutReq(s, r, s.reqs[r].(reqDone := true))
    case Merge(r) => PutReq(s, r, s.reqs[r].(mux := true))
    case Offer(r) =>
      var n := s.reqs[r].phase.next;
      PutPhase(PutTask(s, r, n, TaskAt(s, r, n).(stage := Held)), r, Scheduling(n + 1)).(disp := Busy(r, n))
    case Withdraw(r) =>
      var n := s.reqs[r].phase.next;
      var t := TaskAt(s, r, n);
      PutPhase(PutTask(s, r, n, t.(stage := Finished, ch := Close(t.ch, Scheduler))), r, Leaving(Withdrawn))
    case Deliver(r) =>
      var n := s.reqs[r].phase.next;
      var t := TaskAt(s, r, n);
      var res := Message(t).value;
      PutPhase(
        PutTask(s, r, n, t.(stage := if t.stage.HeldAborting? then HeldClosing else Closing,
                            ch := Transfer(t.ch, res))),
        r, OnResult(n, res))
    case Serve(r, v) => PutReq(s, r, Served(s.reqs[r], v))
    case Stop => s.(disp := Exited)
    case Loop => s.(disp := if s.appDone then Exited else Idle)
    case Dispatch(d) =>
      PutTask(s, s.disp.r, s.disp.i, Dispatched(TaskAt(s, s.disp.r, s.disp.i), d))
        .(permits := if d.Acquire? then s.permits + 1 else s.permits,
          disp := match d case Acquire => Idle case CloseHeld => Looping case _ => s.disp)
    case Work(r, i, w) =>
      PutTask(s, r, i, Worked(cfg.node, TaskAt(s, r, i), s.reqs[r].mux, w))
        .(permits := if w.Release? then s.permits - 1 else s.permits,
          bucket := if IsGrant(w) then RL.OnAsk(s.bucket, s.appDone, false).0 else s.bucket)
    case Tick(pick) => s.(bucket := RL.OnTick(s.bucket, s.appDone, pick))
  }

  /** The labels can be taken one after the other from s. */
  predicate Executes(cfg: Config, s: State, run: seq<Label>)
    decreases |run|
  {
    run == [] || (Enabled(cfg, s, run[0]) && Executes(cfg, Next(cfg, s, run[0]), run[1..]))
  }

  function After(cfg: Config, s: State, run: seq<Label>): State
    requires Executes(cfg, s, run)
    decreases |run|
  {
    if run == [] then s else After(cfg, Next(cfg, s, run[0]), run[1..])
  }

  ghost predicate Reaches(cfg: Config, s: State, t: State) {
    exists run :: Executes(cfg, s, run) && After(cfg, s, run) == t
  }

  lemma {:induction false} RunSnoc(cfg: Config, s: State, run: seq<Label>, l: Label)
    requires Executes(cfg, s, run) && Enabled(cfg, After(cfg, s, run), l)
    ensures Executes(cfg, s, run + [l]) && After(cfg, s, run + [l]) == Next(cfg, After(cfg, s, run), l)
    decreases |run|
  {
    if run == [] {
      assert [l][1..] == [];
    } else {
      RunSnoc(cfg, Next(cfg, s, run[0]), run[1..], l);
      assert (run + [l])[1..] == run[1..] + [l];
    }
  }

  lemma ReachesSelf(cfg: Config, s: State)
    ensures Reaches(cfg, s, s)
  {
    assert Executes(cfg, s, []) && After(cfg, s, []) == s;
  }

  lemma ReachesNext(cfg: Config, s: State, t: State, l: Label)
    requires Reaches(cfg, s, t) && Enabled(cfg, t, l)
    ensures Reaches(cfg, s, Next(cfg, t, l))
  {
    var run :| Executes(cfg, s, run) && After(cfg, s, run) == t;
    RunSnoc(cfg, s, run, l);
  }
}
