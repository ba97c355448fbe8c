/** Where the errors come from that a call is given: the node's answers, or a cancellation that took place. */
module PoolErrors {
  import opened Prelude
  import opened Chain
  import opened Pool
  import opened PoolSafety
  import Join = FetchJoin
  import FetchRuns

  predicate StartsWith(s: string, front: string) {
    |front| <= |s| && s[..|front|] == front
  }

  /** The error names a node call that failed, or says that the sender cannot be recovered. */
  predicate FromNode(err: string) {
    || StartsWith(err, "failed to fetch transaction details: ")
    || StartsWith(err, "failed to fetch transaction receipt: ")
    || StartsWith(err, "error fetching ethereum tx data: ")
  }

  predicate FromCancel(err: string) {
    err == "task canceled" || err == "fetching ethereum tx data got interrupted by context cancellation"
  }

  // ---------- inside a fetch ----------

  ghost predicate FetcherTells(f: Join.Fetcher) {
    FetchRuns.Holds(f).Some? ==> FromNode(FetchRuns.Holds(f).value)
  }

  ghost predicate JoinTells(j: Join.Join) {
    FetcherTells(j.tx) && FetcherTells(j.rc)
  }

  lemma TextFromNode(side: Join.Side, why: string)
    ensures FromNode(Join.Text(side, why))
  {
    var front := match side case Details => "failed to fetch transaction details: "
                            case Receipts => "failed to fetch transaction receipt: ";
    assert Join.Text(side, why) == front + why && (front + why)[..|front|] == front;
  }

  lemma FailTells(node: Node, hash: string, j: Join.Join, st: Join.Step, side: Join.Side)
    requires Join.Enabled(j, true, st) && st.Fail? && FetcherTells(Join.At(j, side))
    ensures FetcherTells(Join.At(Join.Next(node, hash, j, st), side))
  {
    TextFromNode(st.side, st.why);
    assert Join.At(Join.Next(node, hash, j, st), side)
           == if side == st.side then Join.Reporting(Join.Text(side, st.why)) else Join.At(j, side);
  }

  lemma HoldsStays(node: Node, hash: string, j: Join.Join, st: Join.Step, side: Join.Side)
    requires Join.Enabled(j, true, st) && !st.Fail?
    ensures FetchRuns.Holds(Join.At(Join.Next(node, hash, j, st), side)) == FetchRuns.Holds(Join.At(j, side))
  {
  }

  lemma SideTells(node: Node, hash: string, j: Join.Join, st: Join.Step, side: Join.Side)
    requires Join.Enabled(j, true, st) && FetcherTells(Join.At(j, side))
    ensures FetcherTells(Join.At(Join.Next(node, hash, j, st), side))
  {
    if st.Fail? {
      FailTells(node, hash, j, st, side);
    } else {
      HoldsStays(node, hash, j, st, side);
    }
  }

  lemma StepTells(node: Node, hash: string, j: Join.Join, st: Join.Step)
    requires Join.Enabled(j, true, st) && JoinTells(j)
    ensures JoinTells(Join.Next(node, hash, j, st))
  {
    SideTells(node, hash, j, st, Join.Details);
    SideTells(node, hash, j, st, Join.Receipts);
  }

  lemma TextBegins(s: seq<string>)
    requires s != []
    ensures StartsWith(Join.JoinText(s), s[0])
  {
    if |s| > 1 {
      var rest := "\n" + Join.JoinText(s[1..]);
      assert Join.JoinText(s) == s[0] + rest && (s[0] + rest)[..|s[0]|] == s[0];
    }
  }

  /** The joined error begins with an error of the list. */
  lemma JoinedFromNode(errs: seq<string>)
    requires errs != [] && forall k :: 0 <= k < |errs| ==> FromNode(errs[k])
    ensures FromNode(Join.JoinText(Join.Sorted(errs)))
  {
    FetchRuns.SortedAscends(errs);
    var s := Join.Sorted(errs);
    assert errs[0] in multiset(errs);
    assert s[0] in multiset(s);
    assert s[0] in errs;
    TextBegins(s);
    BeginsLike(Join.JoinText(s), s[0]);
  }

  lemma BeginsLike(text: string, err: string)
    requires StartsWith(text, err) && FromNode(err)
    ensures FromNode(text)
  {
    forall front: string | StartsWith(err, front) ensures StartsWith(text, front) {
      assert text[..|front|] == text[..|err|][..|front|];
    }
  }

  lemma EvaluateTells(node: Node, hash: string, j: Join.Join, done: bool)
    requires Join.Inv(node, hash, j, done) && j.ended && JoinTells(j)
    ensures var f := Join.Evaluate(j, done);
            f.Failed? ==> if done then FromCancel(f.err) else FromNode(f.err)
  {
    assert j.errs + j.buf == j.errs;
    if !done && j.errs != [] {
      JoinedFromNode(j.errs);
    } else if !done {
      Join.EvaluateIsSafe(node, hash, j, done);
      if j.ethTx.value.sender.Unrecovered? {
        var front := "error fetching ethereum tx data: ";
        assert (front + j.ethTx.value.sender.why)[..|front|] == front;
      }
    }
  }

  // ---------- in the pool ----------

  ghost predicate Genuine(err: Option<string>, mux: bool) {
    err.Some? ==> FromNode(err.value) || (FromCancel(err.value) && mux)
  }

  ghost predicate TaskTells(t: Task, mux: bool) {
    match t.stage
    case Fetching(j) => JoinTells(j)
    case Sending(res) => Genuine(res.err, mux)
    case Aborting(res) => Genuine(res.err, mux)
    case _ => true
  }

  /** The error a call ends with. */
  function ErrorOf(p: Phase): Option<string> {
    match p
    case Leaving(FetchFailed(err)) => Some(err)
    case Returned(FetchFailed(err)) => Some(err)
    case _ => None
  }

  ghost predicate CallTells(q: Request, cancelled: bool) {
    && (forall i :: 0 <= i < |q.tasks| ==> TaskTells(q.tasks[i], q.mux))
    && Genuine(ErrorOf(q.phase), cancelled)
  }

  ghost predicate PoolTells(s: State) {
    forall r :: 0 <= r < |s.reqs| ==> CallTells(s.reqs[r], s.appDone || s.reqs[r].reqDone)
  }

  lemma WorkTells(node: Node, t: Task, mux: bool, w: WorkerStep)
    requires TaskOk(node, t, mux) && TaskTells(t, mux) && WorkerCan(t, mux, w)
    ensures TaskTells(Worked(node, t, mux, w), mux)
  {
    if w.Fetch? {
      StepTells(node, t.hash, t.stage.join, w.st);
    } else if w.Evaluate? {
      Join.EvaluateIsSafe(node, t.hash, t.stage.join, mux);
      EvaluateTells(node, t.hash, t.stage.join, mux);
    }
  }

  lemma DispatchTells(t: Task, mux: bool, d: DispatcherStep)
    requires DispatcherCan(t, mux, d) && TaskTells(t, mux)
    ensures TaskTells(Dispatched(t, d), mux)
  {
  }

  /** One task of call r has changed, and perhaps its phase. */
  lemma OneTaskTells(s: State, s': State, r: nat, i: nat)
    requires PoolTells(s) && HasTask(s, r, i) && |s'.reqs| == |s.reqs| && s'.reqs == s.reqs[r := s'.reqs[r]]
    requires i < |s'.reqs[r].tasks| && s'.appDone == s.appDone
    requires s'.reqs[r] == s.reqs[r].(tasks := s.reqs[r].tasks[i := s'.reqs[r].tasks[i]], phase := s'.reqs[r].phase)
    requires TaskTells(s'.reqs[r].tasks[i], s.reqs[r].mux)
    requires Genuine(ErrorOf(s'.reqs[r].phase), s.appDone || s.reqs[r].reqDone)
    ensures PoolTells(s')
  {
    assert CallTells(s.reqs[r], s.appDone || s.reqs[r].reqDone);
  }

  lemma DeliverTells(cfg: Config, s: State, r: nat)
    requires Inv(cfg, s) && PoolTells(s) && Enabled(cfg, s, Deliver(r))
    ensures PoolTells(Next(cfg, s, Deliver(r)))
  {
    var s', n := Next(cfg, s, Deliver(r)), s.reqs[r].phase.next;
    assert RequestOk(cfg.node, s.appDone, s.reqs[r]) && TaskOk(cfg.node, TaskAt(s, r, n), s.reqs[r].mux);
    assert CallTells(s.reqs[r], s.appDone || s.reqs[r].reqDone) && TaskTells(TaskAt(s, r, n), s.reqs[r].mux);
    assert s'.reqs[r].tasks[n].stage.HeldClosing? || s'.reqs[r].tasks[n].stage.Closing?;
    OneTaskTells(s, s', r, n);
  }

  lemma ServedTells(q: Request, v: ServiceStep, cancelled: bool)
    requires CallTells(q, cancelled) && ServiceCan(q, v)
    ensures CallTells(Served(q, v), cancelled)
  {
    var q' := Served(q, v);
    forall i | 0 <= i < |q'.tasks| ensures TaskTells(q'.tasks[i], q'.mux) {
      assert TaskTells(q.tasks[i], q.mux);
    }
  }

  lemma FlaggedTells(q: Request, q': Request, cancelled: bool, cancelled': bool)
    requires CallTells(q, cancelled) && q'.tasks == q.tasks && q'.phase == q.phase
    requires (q.mux ==> q'.mux) && (cancelled ==> cancelled')
    ensures CallTells(q', cancelled')
  {
    forall i | 0 <= i < |q'.tasks| ensures TaskTells(q'.tasks[i], q'.mux) {
      assert TaskTells(q.tasks[i], q.mux);
    }
  }

  /** The flags or the phase of a call change. */
  lemma CallStepTells(cfg: Config, s: State, l: Label)
    requires PoolTells(s) && Enabled(cfg, s, l) && (l.CancelRequest? || l.Merge? || l.Serve?)
    ensures PoolTells(Next(cfg, s, l))
  {
    var s' := Next(cfg, s, l);
    var q, q' := s.reqs[l.r], s'.reqs[l.r];
    assert CallTells(q, s.appDone || q.reqDone);
    if l.Serve? {
      ServedTells(q, l.v, s.appDone || q.reqDone);
    } else {
      FlaggedTells(q, q', s.appDone || q.reqDone, s'.appDone || q'.reqDone);
    }
    assert s'.reqs == s.reqs[l.r := q'] && s'.appDone == s.appDone;
  }

  lemma HandOverTells(cfg: Config, s: State, l: Label)
    requires PoolTells(s) && Enabled(cfg, s, l) && (l.Offer? || l.Withdraw?)
    ensures PoolTells(Next(cfg, s, l))
  {
    assert CallTells(s.reqs[l.r], s.appDone || s.reqs[l.r].reqDone);
    OneTaskTells(s, Next(cfg, s, l), l.r, s.reqs[l.r].phase.next);
  }

  lemma WorkStepTells(cfg: Config, s: State, r: nat, i: nat, w: WorkerStep)
    requires Inv(cfg, s) && PoolTells(s) && Enabled(cfg, s, Work(r, i, w))
    ensures PoolTells(Next(cfg, s, Work(r, i, w)))
  {
    assert TaskOk(cfg.node, TaskAt(s, r, i), s.reqs[r].mux);
    assert CallTells(s.reqs[r], s.appDone || s.reqs[r].reqDone) && TaskTells(TaskAt(s, r, i), s.reqs[r].mux);
    WorkTells(cfg.node, TaskAt(s, r, i), s.reqs[r].mux, w);
    OneTaskTells(s, Next(cfg, s, Work(r, i, w)), r, i);
  }

  lemma DispatchStepTells(cfg: Config, s: State, d: DispatcherStep)
    requires PoolTells(s) && Enabled(cfg, s, Dispatch(d))
    ensures PoolTells(Next(cfg, s, Dispatch(d)))
  {
    var r, i := s.disp.r, s.disp.i;
    assert CallTells(s.reqs[r], s.appDone || s.reqs[r].reqDone) && TaskTells(TaskAt(s, r, i), s.reqs[r].mux);
    DispatchTells(TaskAt(s, r, i), s.reqs[r].mux, d);
    OneTaskTells(s, Next(cfg, s, Dispatch(d)), r, i);
  }

  lemma CancelAppTells(cfg: Config, s: State)
    requires PoolTells(s) && Enabled(cfg, s, CancelApp)
    ensures PoolTells(Next(cfg, s, CancelApp))
  {
    var s' := Next(cfg, s, CancelApp);
    forall r | 0 <= r < |s'.reqs| ensures CallTells(s'.reqs[r], true) {
      assert CallTells(s.reqs[r], s.appDone || s.reqs[r].reqDone);
    }
  }

  lemma PoolStepTells(cfg: Config, s: State, l: Label)
    requires Inv(cfg, s) && PoolTells(s) && Enabled(cfg, s, l)
    ensures PoolTells(Next(cfg, s, l))
  {
    match l
    case CancelRequest(_) => CallStepTells(cfg, s, l);
    case Merge(_) => CallStepTells(cfg, s, l);
    case Serve(_, _) => CallStepTells(cfg, s, l);
    case Offer(_) => HandOverTells(cfg, s, l);
    case Withdraw(_) => HandOverTells(cfg, s, l);
    case Deliver(r) => DeliverTells(cfg, s, r);
    case Work(r, i, w) => WorkStepTells(cfg, s, r, i, w);
    case Dispatch(d) => DispatchStepTells(cfg, s, d);
    case CancelApp => CancelAppTells(cfg, s);
    case _ =>
  }

  lemma {:induction false} RunTells(cfg: Config, s: State, run: seq<Label>)
    requires Inv(cfg, s) && PoolTells(s) && Executes(cfg, s, run)
    ensures PoolTells(After(cfg, s, run))
    decreases |run|
  {
    if run != [] {
      PoolStepTells(cfg, s, run[0]);
      StepKeepsInv(cfg, s, run[0]);
      RunTells(cfg, Next(cfg, s, run[0]), run[1..]);
    }
  }

  /** The error of a call that failed to fetch begins with the node call that failed, or the unknown sender,
      or it is one of the two texts about cancellation, and then the application or this very request was
      cancelled. */
  lemma ErrorsAreGenuine(cfg: Config, maxCredits: nat, missing: seq<seq<string>>, run: seq<Label>, s: State,
                         r: nat, err: string)
    requires Reached(cfg, maxCredits, missing, run, s) && r < |s.reqs| && s.reqs[r].phase == Returned(FetchFailed(err))
    ensures || StartsWith(err, "failed to fetch transaction details: ")
            || StartsWith(err, "failed to fetch transaction receipt: ")
            || StartsWith(err, "error fetching ethereum tx data: ")
            || ((err == "task canceled"
                 || err == "fetching ethereum tx data got interrupted by context cancellation")
                && (s.appDone || s.reqs[r].reqDone))
  {
    var s0 := Init(maxCredits, missing);
    InitInv(cfg, maxCredits, missing);
    assert PoolTells(s0);
    RunTells(cfg, s0, run);
    assert CallTells(s.reqs[r], s.appDone || s.reqs[r].reqDone);
  }
}
