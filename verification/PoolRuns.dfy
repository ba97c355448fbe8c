/** What whole runs of the pool achieve: every call returns, and an undisturbed run succeeds. */
module PoolRuns {
  import opened Prelude
  import opened Chain
  import opened Pool
  import opened PoolSafety
  import opened PoolProgress
  import Join = FetchJoin

  /** The tasks of a call before its last. */
  function Spare(hashes: seq<string>): nat {
    if hashes == [] then 0 else |hashes| - 1
  }

  /** Calls with these missing hashes cannot keep W workers and the dispatcher waiting. */
  ghost predicate FitsPool(workers: nat, missing: seq<seq<string>>) {
    && Sum(missing, Spare) <= workers
    && (Sum(missing, Spare) == workers ==> forall r :: 0 <= r < |missing| ==> |missing[r]| != 1)
  }

  // ---------- requests keep their hashes ----------

  /** Same calls, same hashes. */
  ghost predicate SameCalls(s: State, s': State) {
    && |s'.reqs| == |s.reqs|
    && (forall r :: 0 <= r < |s.reqs| ==> |s'.reqs[r].tasks| == |s.reqs[r].tasks|)
    && (forall r, i :: HasTask(s, r, i) ==> TaskAt(s', r, i).hash == TaskAt(s, r, i).hash)
  }

  ghost predicate SameHashes(ts: seq<Task>, ts': seq<Task>) {
    |ts'| == |ts| && forall i :: 0 <= i < |ts| ==> ts'[i].hash == ts[i].hash
  }

  lemma StepKeepsCalls(cfg: Config, s: State, l: Label)
    requires Enabled(cfg, s, l)
    ensures SameCalls(s, Next(cfg, s, l))
  {
    match l
    case Dispatch(d) => DispatchKeepsCalls(cfg, s, d);
    case Work(r, i, w) => WorkKeepsCalls(cfg, s, r, i, w);
    case Offer(r) => OfferKeepsCalls(cfg, s, r);
    case Withdraw(r) => WithdrawKeepsCalls(cfg, s, r);
    case Deliver(r) => DeliverKeepsCalls(cfg, s, r);
    case Serve(r, v) => ServeKeepsCalls(cfg, s, r, v);
    case CancelRequest(r) => OneRequestChanges(s, Next(cfg, s, l), r);
    case Merge(r) => OneRequestChanges(s, Next(cfg, s, l), r);
    case _ =>
  }

  lemma OneRequestChanges(s: State, s': State, r: nat)
    requires r < |s.reqs| == |s'.reqs| && s'.reqs == s.reqs[r := s'.reqs[r]]
    requires SameHashes(s.reqs[r].tasks, s'.reqs[r].tasks)
    ensures SameCalls(s, s')
  {
  }

  lemma DispatchKeepsCalls(cfg: Config, s: State, d: DispatcherStep)
    requires Enabled(cfg, s, Dispatch(d))
    ensures SameCalls(s, Next(cfg, s, Dispatch(d)))
  {
    OneRequestChanges(s, Next(cfg, s, Dispatch(d)), s.disp.r);
  }

  lemma WorkKeepsCalls(cfg: Config, s: State, r: nat, i: nat, w: WorkerStep)
    requires Enabled(cfg, s, Work(r, i, w))
    ensures SameCalls(s, Next(cfg, s, Work(r, i, w)))
  {
    OneRequestChanges(s, Next(cfg, s, Work(r, i, w)), r);
  }

  lemma OfferKeepsCalls(cfg: Config, s: State, r: nat)
    requires Enabled(cfg, s, Offer(r))
    ensures SameCalls(s, Next(cfg, s, Offer(r)))
  {
    OneRequestChanges(s, Next(cfg, s, Offer(r)), r);
  }

  lemma WithdrawKeepsCalls(cfg: Config, s: State, r: nat)
    requires Enabled(cfg, s, Withdraw(r))
    ensures SameCalls(s, Next(cfg, s, Withdraw(r)))
  {
    OneRequestChanges(s, Next(cfg, s, Withdraw(r)), r);
  }

  lemma DeliverKeepsCalls(cfg: Config, s: State, r: nat)
    requires Enabled(cfg, s, Deliver(r))
    ensures SameCalls(s, Next(cfg, s, Deliver(r)))
  {
    OneRequestChanges(s, Next(cfg, s, Deliver(r)), r);
  }

  lemma ServeKeepsCalls(cfg: Config, s: State, r: nat, v: ServiceStep)
    requires Enabled(cfg, s, Serve(r, v))
    ensures SameCalls(s, Next(cfg, s, Serve(r, v)))
  {
    OneRequestChanges(s, Next(cfg, s, Serve(r, v)), r);
  }

  lemma {:induction false} RunKeepsCalls(cfg: Config, s: State, run: seq<Label>)
    requires Executes(cfg, s, run)
    ensures SameCalls(s, After(cfg, s, run))
    decreases |run|
  {
    if run != [] {
      StepKeepsCalls(cfg, s, run[0]);
      RunKeepsCalls(cfg, Next(cfg, s, run[0]), run[1..]);
    }
  }

  lemma {:induction false} SlackBound(rs: seq<Request>, missing: seq<seq<string>>)
    requires |rs| == |missing| && forall r :: 0 <= r < |rs| ==> |rs[r].tasks| == |missing[r]|
    ensures Sum(rs, SlackIn) <= Sum(missing, Spare)
  {
    if rs != [] {
      SlackBound(rs[..|rs| - 1], missing[..|rs| - 1]);
    }
  }

  /** Calls that fit the pool at the start fit it all the time. */
  lemma StillFits(cfg: Config, maxCredits: nat, missing: seq<seq<string>>, run: seq<Label>, s: State)
    requires Reached(cfg, maxCredits, missing, run, s) && FitsPool(cfg.workers, missing)
    ensures Fits(cfg, s) && |s.reqs| == |missing|
  {
    RunKeepsCalls(cfg, Init(maxCredits, missing), run);
    SlackBound(s.reqs, missing);
  }

  lemma {:induction false} AppStaysLive(cfg: Config, s: State, run: seq<Label>)
    requires Executes(cfg, s, run) && !s.appDone && CancelApp !in run
    ensures !After(cfg, s, run).appDone
    decreases |run|
  {
    if run != [] {
      AppStaysLive(cfg, Next(cfg, s, run[0]), run[1..]);
    }
  }

  /** Termination: with the application running and calls that fit the pool, every run is bounded, and
      one that cannot go on has every call returned and the pool drained. Requests may be cancelled at
      any point. */
  lemma EveryCallReturns(cfg: Config, maxCredits: nat, missing: seq<seq<string>>, run: seq<Label>, s: State)
    requires Reached(cfg, maxCredits, missing, run, s)
    requires FitsPool(cfg.workers, missing) && CancelApp !in run
    ensures Inv(cfg, Init(maxCredits, missing)) && |run| <= Measure(Init(maxCredits, missing))
    ensures CanStep(cfg, s) || (Drained(s) && forall r :: 0 <= r < |s.reqs| ==> s.reqs[r].phase.Returned?)
  {
    var s0 := Init(maxCredits, missing);
    InitInv(cfg, maxCredits, missing);
    RunsAreBounded(cfg, s0, run);
    AppStaysLive(cfg, s0, run);
    StillFits(cfg, maxCredits, missing, run, s);
    if r :| 0 <= r < |s.reqs| && !s.reqs[r].phase.Returned? {
      DeadlockFreedom(cfg, s, r);
    } else {
      PoolDrains(cfg, s);
    }
  }

  // ---------- calm runs ----------

  /** No cancellation from outside and no failing node call; a store may refuse what it is given. */
  predicate Calm(l: Label) {
    && !l.CancelApp? && !l.CancelRequest?
    && !(l.Work? && l.w.Fetch? && l.w.st.Fail?)
  }

  predicate CleanFetcher(f: Join.Fetcher) {
    !f.Reporting? && (Join.Past(f) ==> f.failure.None?)
  }

  predicate CleanTask(t: Task) {
    && !t.stage.HeldAborting? && !t.stage.Aborting?
    && (t.stage.Fetching? ==> CleanFetcher(t.stage.join.tx) && CleanFetcher(t.stage.join.rc))
    && (t.stage.Sending? ==> t.stage.res.err.None?)
  }

  predicate CleanPhase(p: Phase) {
    p.Leaving? || p.Returned? ==> p.out == Success || p.out == StoreFailed
  }

  /** Until the call has returned, its context is live and its tasks carry no error. */
  ghost predicate CleanRequest(q: Request) {
    && !q.reqDone && (q.mux ==> q.phase.Returned?) && CleanPhase(q.phase)
    && (!q.mux ==> forall i :: 0 <= i < |q.tasks| ==> CleanTask(q.tasks[i]))
  }

  ghost predicate Clean(s: State) {
    !s.appDone && forall r :: 0 <= r < |s.reqs| ==> CleanRequest(s.reqs[r])
  }

  ghost predicate AllOnChain(cfg: Config, s: State) {
    forall r: nat, i: nat :: HasTask(s, r, i) ==> ChainRecord(cfg.node, TaskAt(s, r, i).hash).Some?
  }

  lemma CleanPut(s: State, s': State, r: nat)
    requires Clean(s) && r < |s.reqs| == |s'.reqs| && s'.reqs == s.reqs[r := s'.reqs[r]]
    requires s'.appDone == s.appDone && CleanRequest(s'.reqs[r])
    ensures Clean(s')
  {
  }

  lemma WorkedClean(node: Node, t: Task, w: WorkerStep)
    requires TaskOk(node, t, false) && CleanTask(t) && WorkerCan(t, false, w)
    requires ChainRecord(node, t.hash).Some? && !(w.Fetch? && w.st.Fail?)
    ensures CleanTask(Worked(node, t, false, w))
  {
    if w.Evaluate? {
      var j := t.stage.join;
      assert j.errs + j.buf == j.errs;
      Join.EvaluateIsSafe(node, t.hash, j, false);
    }
  }

  /** One task of a request with a live context changes. */
  lemma CleanTaskPut(q: Request, i: nat, t: Task)
    requires CleanRequest(q) && i < |q.tasks| && (!q.mux ==> CleanTask(t))
    ensures CleanRequest(q.(tasks := q.tasks[i := t]))
  {
  }

  lemma CleanWork(cfg: Config, s: State, r: nat, i: nat, w: WorkerStep)
    requires Inv(cfg, s) && Clean(s) && AllOnChain(cfg, s)
    requires Enabled(cfg, s, Work(r, i, w)) && Calm(Work(r, i, w))
    ensures Clean(Next(cfg, s, Work(r, i, w)))
  {
    var q, t := s.reqs[r], TaskAt(s, r, i);
    if !q.mux {
      assert TaskOk(cfg.node, t, q.mux) && CleanTask(t);
      WorkedClean(cfg.node, t, w);
    }
    CleanTaskPut(q, i, Worked(cfg.node, t, q.mux, w));
    CleanPut(s, Next(cfg, s, Work(r, i, w)), r);
  }

  lemma CleanDispatch(cfg: Config, s: State, d: DispatcherStep)
    requires Clean(s) && Enabled(cfg, s, Dispatch(d))
    ensures Clean(Next(cfg, s, Dispatch(d)))
  {
    var q := s.reqs[s.disp.r];
    CleanTaskPut(q, s.disp.i, Dispatched(q.tasks[s.disp.i], d));
    CleanPut(s, Next(cfg, s, Dispatch(d)), s.disp.r);
  }

  /** A call whose context is live finds no closed channel. */
  lemma AwaitedIsOpen(node: Node, q: Request)
    requires RequestOk(node, false, q) && !q.mux && Receives(q)
    ensures q.tasks[q.phase.next].ch.closers == []
  {
    assert TaskOk(node, q.tasks[q.phase.next], q.mux);
  }

  lemma CleanServe(q: Request, v: ServiceStep)
    requires CleanRequest(q) && ServiceCan(q, v) && !v.ReceiveClosed?
    ensures CleanRequest(Served(q, v))
  {
  }

  lemma CleanDeliver(cfg: Config, s: State, r: nat)
    requires Inv(cfg, s) && Clean(s) && Enabled(cfg, s, Deliver(r))
    ensures Clean(Next(cfg, s, Deliver(r)))
  {
    var q, t := s.reqs[r], Awaited(s, r);
    assert RequestOk(cfg.node, s.appDone, q) && CleanRequest(q) && TaskOk(cfg.node, t, q.mux) && CleanTask(t);
    assert Next(cfg, s, Deliver(r)).reqs[r].phase.Storing?;
    CleanPut(s, Next(cfg, s, Deliver(r)), r);
  }

  lemma CleanStep(cfg: Config, s: State, l: Label)
    requires Inv(cfg, s) && Clean(s) && AllOnChain(cfg, s) && Enabled(cfg, s, l) && Calm(l)
    ensures Clean(Next(cfg, s, l))
  {
    match l
    case Work(r, i, w) => CleanWork(cfg, s, r, i, w);
    case Dispatch(d) => CleanDispatch(cfg, s, d);
    case Serve(r, v) =>
      if Receives(s.reqs[r]) {
        AwaitedIsOpen(cfg.node, s.reqs[r]);
      }
      CleanServe(s.reqs[r], v);
      CleanPut(s, Next(cfg, s, l), r);
    case Deliver(r) => CleanDeliver(cfg, s, r);
    case Offer(r) => CleanPut(s, Next(cfg, s, l), r);
    case Withdraw(_) =>
    case Merge(_) =>
    case _ =>
  }

  lemma OnChainStep(cfg: Config, s: State, s': State)
    requires AllOnChain(cfg, s) && SameCalls(s, s')
    ensures AllOnChain(cfg, s')
  {
    forall r: nat, i: nat | HasTask(s', r, i) ensures ChainRecord(cfg.node, TaskAt(s', r, i).hash).Some? {
      assert HasTask(s, r, i);
    }
  }

  lemma {:induction false} CleanRun(cfg: Config, s: State, run: seq<Label>)
    requires Inv(cfg, s) && Clean(s) && AllOnChain(cfg, s) && Executes(cfg, s, run)
    requires forall k :: 0 <= k < |run| ==> Calm(run[k])
    ensures Clean(After(cfg, s, run))
    decreases |run|
  {
    if run != [] {
      StepKeepsInv(cfg, s, run[0]);
      CleanStep(cfg, s, run[0]);
      StepKeepsCalls(cfg, s, run[0]);
      OnChainStep(cfg, s, Next(cfg, s, run[0]));
      CleanRun(cfg, Next(cfg, s, run[0]), run[1..]);
    }
  }

  ghost predicate OnChain(node: Node, missing: seq<seq<string>>) {
    forall r, i :: 0 <= r < |missing| && 0 <= i < |missing[r]| ==> ChainRecord(node, missing[r][i]).Some?
  }

  /** In a calm run over hashes the chain knows, a call that has returned succeeded or met a refusing store. */
  lemma CalmOutcome(cfg: Config, maxCredits: nat, missing: seq<seq<string>>, run: seq<Label>, s: State, r: nat)
    requires Reached(cfg, maxCredits, missing, run, s) && OnChain(cfg.node, missing)
    requires forall k :: 0 <= k < |run| ==> Calm(run[k])
    requires r < |s.reqs| && s.reqs[r].phase.Returned?
    ensures s.reqs[r].phase.out == Success || s.reqs[r].phase.out == StoreFailed
  {
    var s0 := Init(maxCredits, missing);
    InitInv(cfg, maxCredits, missing);
    forall x: nat, i: nat | HasTask(s0, x, i) ensures ChainRecord(cfg.node, TaskAt(s0, x, i).hash).Some? {
      assert TaskAt(s0, x, i).hash == missing[x][i];
    }
    CleanRun(cfg, s0, run);
    assert CleanRequest(s.reqs[r]);
  }

  /** The store of call r refuses nothing. */
  predicate StoresAll(run: seq<Label>, r: nat) {
    Serve(r, StoreFails) !in run
  }

  predicate RefusedBy(p: Phase) {
    (p.Leaving? || p.Returned?) && p.out == StoreFailed
  }

  lemma RefusalStep(cfg: Config, s: State, l: Label, r: nat)
    requires Enabled(cfg, s, l) && r < |s.reqs| && l != Serve(r, StoreFails) && !RefusedBy(s.reqs[r].phase)
    ensures r < |Next(cfg, s, l).reqs| && !RefusedBy(Next(cfg, s, l).reqs[r].phase)
  {
  }

  lemma {:induction false} NoRefusal(cfg: Config, s: State, run: seq<Label>, r: nat)
    requires Executes(cfg, s, run) && StoresAll(run, r) && r < |s.reqs| && !RefusedBy(s.reqs[r].phase)
    ensures r < |After(cfg, s, run).reqs| && !RefusedBy(After(cfg, s, run).reqs[r].phase)
    decreases |run|
  {
    if run != [] {
      RefusalStep(cfg, s, run[0], r);
      NoRefusal(cfg, Next(cfg, s, run[0]), run[1..], r);
    }
  }

  /** In a calm run a call whose store refuses nothing ends, once it has returned, with every hash
      answered exactly once with its chain record. */
  lemma CalmCallSucceeds(cfg: Config, maxCredits: nat, missing: seq<seq<string>>, run: seq<Label>, s: State, r: nat)
    requires Reached(cfg, maxCredits, missing, run, s) && OnChain(cfg.node, missing)
    requires (forall k :: 0 <= k < |run| ==> Calm(run[k])) && StoresAll(run, r)
    requires r < |missing| && r < |s.reqs| && s.reqs[r].phase.Returned?
    ensures s.reqs[r].phase == Returned(Success)
    ensures forall i :: 0 <= i < |missing[r]| ==>
              HasTask(s, r, i) && TaskAt(s, r, i).ch.delivered == [TxResult(ChainRecord(cfg.node, missing[r][i]), None)]
  {
    var s0 := Init(maxCredits, missing);
    CalmOutcome(cfg, maxCredits, missing, run, s, r);
    NoRefusal(cfg, s0, run, r);
    RunKeepsCalls(cfg, s0, run);
    forall i | 0 <= i < |missing[r]|
      ensures HasTask(s, r, i) && TaskAt(s, r, i).ch.delivered == [TxResult(ChainRecord(cfg.node, missing[r][i]), None)]
    {
      assert HasTask(s0, r, i) && TaskAt(s0, r, i).hash == missing[r][i];
      SuccessIsComplete(cfg, maxCredits, missing, run, s, r, i);
    }
  }

  /** Total correctness of the pool: calls that fit it, all hashes known to the chain, no cancellation
      and no failure. Every run is bounded and ends with every call successful, every hash answered
      exactly once with its chain record, and the pool drained. */
  lemma UndisturbedRunsSucceed(cfg: Config, maxCredits: nat, missing: seq<seq<string>>, run: seq<Label>, s: State)
    requires Reached(cfg, maxCredits, missing, run, s)
    requires FitsPool(cfg.workers, missing) && OnChain(cfg.node, missing)
    requires forall k :: 0 <= k < |run| ==> Undisturbed(run[k])
    ensures Inv(cfg, Init(maxCredits, missing)) && |run| <= Measure(Init(maxCredits, missing))
    ensures CanStep(cfg, s) || Drained(s)
    ensures |s.reqs| == |missing|
    ensures !CanStep(cfg, s) ==> forall r :: 0 <= r < |s.reqs| ==> s.reqs[r].phase == Returned(Success)
    ensures !CanStep(cfg, s) ==> forall r, i :: 0 <= r < |missing| && 0 <= i < |missing[r]| ==>
              HasTask(s, r, i)
              && TaskAt(s, r, i).ch.delivered == [TxResult(ChainRecord(cfg.node, missing[r][i]), None)]
  {
    EveryCallReturns(cfg, maxCredits, missing, run, s);
    StillFits(cfg, maxCredits, missing, run, s);
    if !CanStep(cfg, s) {
      forall r | 0 <= r < |missing|
        ensures s.reqs[r].phase == Returned(Success)
        ensures forall i :: 0 <= i < |missing[r]| ==>
                  HasTask(s, r, i)
                  && TaskAt(s, r, i).ch.delivered == [TxResult(ChainRecord(cfg.node, missing[r][i]), None)]
      {
        CalmCallSucceeds(cfg, maxCredits, missing, run, s, r);
      }
    }
  }
}
