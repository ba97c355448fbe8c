/** When a worker can be left polling the limiter for ever: the fetch loops do not look at their context, and
    the refills end with the application. */
module PoolStarvation {
  import opened Prelude
  import opened Chain
  import opened Pool
  import opened PoolSafety
  import opened PoolShutdown
  import T = PoolTightness
  import Join = FetchJoin
  import FetchRuns
  import RL = RateLimiter

  /** Some goroutine polls a bucket that stays empty for ever (PoolShutdown.DryPollNeverEnds). */
  ghost predicate Starved(s: State) {
    RunDry(s) && exists r: nat, i: nat, side :: Polls(s, r, i, side)
  }

  function Length(hashes: seq<string>): nat {
    |hashes|
  }

  // ---------- enough credits ----------

  /** Node calls the task may still ask a credit for. */
  function Unasked(t: Task): nat {
    match t.stage
    case NotSent => 2
    case Held => 2
    case HeldAborting => 2
    case HeldClosing => 2
    case Fetching(j) => FetchRuns.CreditsAhead(j)
    case _ => 0
  }

  function UnaskedIn(q: Request): nat {
    Sum(q.tasks, Unasked)
  }

  function CallsAhead(s: State): nat {
    s.bucket.grants + Sum(s.reqs, UnaskedIn)
  }

  lemma OneTaskAhead(s: State, s': State, r: nat, i: nat, t: Task)
    requires HasTask(s, r, i) && |s'.reqs| == |s.reqs| && s'.reqs == s.reqs[r := s'.reqs[r]]
    requires s'.reqs[r].tasks == s.reqs[r].tasks[i := t]
    requires s'.bucket.grants + Unasked(t) <= s.bucket.grants + Unasked(TaskAt(s, r, i))
    ensures CallsAhead(s') <= CallsAhead(s)
  {
    SumUpdate(s.reqs[r].tasks, i, t, Unasked);
    SumUpdate(s.reqs, r, s'.reqs[r], UnaskedIn);
  }

  lemma WorkAsks(node: Node, t: Task, mux: bool, w: WorkerStep)
    requires WorkerCan(t, mux, w)
    ensures Unasked(Worked(node, t, mux, w)) + (if IsGrant(w) then 1 else 0) <= Unasked(t)
  {
    if w.Fetch? {
      FetchRuns.OneCreditEach(node, t.hash, t.stage.join, w.st);
    }
  }

  lemma CallStepAsks(cfg: Config, s: State, l: Label)
    requires Enabled(cfg, s, l) && (l.CancelRequest? || l.Merge? || l.Serve?)
    ensures CallsAhead(Next(cfg, s, l)) <= CallsAhead(s)
  {
    SumUpdate(s.reqs, l.r, Next(cfg, s, l).reqs[l.r], UnaskedIn);
  }

  lemma HandOverAsks(cfg: Config, s: State, l: Label)
    requires Inv(cfg, s) && Enabled(cfg, s, l) && (l.Offer? || l.Withdraw? || l.Deliver?)
    ensures CallsAhead(Next(cfg, s, l)) <= CallsAhead(s)
  {
    assert RequestOk(cfg.node, s.appDone, s.reqs[l.r]);
    var n := s.reqs[l.r].phase.next;
    OneTaskAhead(s, Next(cfg, s, l), l.r, n, Next(cfg, s, l).reqs[l.r].tasks[n]);
  }

  lemma StepAsks(cfg: Config, s: State, l: Label)
    requires Inv(cfg, s) && Enabled(cfg, s, l)
    ensures CallsAhead(Next(cfg, s, l)) <= CallsAhead(s)
  {
    var s' := Next(cfg, s, l);
    match l
    case Work(r, i, w) =>
      WorkAsks(cfg.node, TaskAt(s, r, i), s.reqs[r].mux, w);
      OneTaskAhead(s, s', r, i, s'.reqs[r].tasks[i]);
    case Dispatch(d) => OneTaskAhead(s, s', s.disp.r, s.disp.i, s'.reqs[s.disp.r].tasks[s.disp.i]);
    case CancelRequest(_) => CallStepAsks(cfg, s, l);
    case Merge(_) => CallStepAsks(cfg, s, l);
    case Serve(_, _) => CallStepAsks(cfg, s, l);
    case Offer(_) => HandOverAsks(cfg, s, l);
    case Withdraw(_) => HandOverAsks(cfg, s, l);
    case Deliver(_) => HandOverAsks(cfg, s, l);
    case _ =>
  }

  lemma {:induction false} RunAsks(cfg: Config, s: State, run: seq<Label>)
    requires Inv(cfg, s) && Executes(cfg, s, run)
    ensures CallsAhead(After(cfg, s, run)) <= CallsAhead(s)
    decreases |run|
  {
    if run != [] {
      StepAsks(cfg, s, run[0]);
      StepKeepsInv(cfg, s, run[0]);
      RunAsks(cfg, Next(cfg, s, run[0]), run[1..]);
    }
  }

  lemma {:induction false} TwoEach(hashes: seq<string>)
    ensures Sum(NewTasks(hashes), Unasked) == 2 * |hashes|
  {
    if hashes != [] {
      var n := |hashes| - 1;
      TwoEach(hashes[..n]);
      assert NewTasks(hashes)[..n] == NewTasks(hashes[..n]);
    }
  }

  lemma {:induction false} AheadAtStart(missing: seq<seq<string>>)
    ensures Sum(NewRequests(missing), UnaskedIn) == 2 * Sum(missing, Length)
  {
    if missing != [] {
      var n := |missing| - 1;
      AheadAtStart(missing[..n]);
      TwoEach(missing[n]);
      assert NewRequests(missing)[..n] == NewRequests(missing[..n]);
    }
  }

  /** Who still polls has a call ahead of him, and an empty bucket has given out its whole capacity. */
  lemma StarvedTookAll(cfg: Config, maxCredits: nat, missing: seq<seq<string>>, run: seq<Label>, s: State)
    requires Reached(cfg, maxCredits, missing, run, s) && Starved(s)
    ensures cfg.workers > 0 && maxCredits < 2 * Sum(missing, Length)
  {
    ReachedInv(cfg, maxCredits, missing, run, s);
    InitInv(cfg, maxCredits, missing);
    CapacityStays(cfg, Init(maxCredits, missing), run);
    RunAsks(cfg, Init(maxCredits, missing), run);
    AheadAtStart(missing);
    var r: nat, i: nat, side :| Polls(s, r, i, side);
    SumCovers(s.reqs[r].tasks, i, Unasked);
    SumCovers(s.reqs, r, UnaskedIn);
    SumCovers(s.reqs[r].tasks, i, Live);
    SumCovers(s.reqs, r, LiveIn);
  }

  lemma {:induction false} CapacityStays(cfg: Config, s: State, run: seq<Label>)
    requires Executes(cfg, s, run)
    ensures After(cfg, s, run).bucket.max == s.bucket.max
    decreases |run|
  {
    if run != [] {
      CapacityStays(cfg, Next(cfg, s, run[0]), run[1..]);
    }
  }

  // ---------- too few credits ----------

  /** Hashes the call has still to schedule. */
  function Left(q: Request): nat {
    if q.phase.Scheduling? && q.phase.next <= |q.tasks| then |q.tasks| - q.phase.next else 0
  }

  /** Between two tasks of an idle pool that has c credits left. */
  ghost predicate Draining(s: State, c: nat) {
    !s.appDone && s.disp.Idle? && s.permits == 0 && s.bucket.credits == c && s.bucket.refilling
  }

  /** t is s with another task i of request r. */
  ghost predicate OnlyTask(s: State, t: State, r: nat, i: nat) {
    && HasTask(s, r, i) && r < |t.reqs| && i < |t.reqs[r].tasks|
    && t.reqs == s.reqs[r := s.reqs[r].(tasks := s.reqs[r].tasks[i := t.reqs[r].tasks[i]])]
    && t.appDone == s.appDone && t.disp == s.disp && t.bucket.refilling == s.bucket.refilling
  }

  lemma OnlyTwice(s: State, u: State, t: State, r: nat, i: nat)
    requires OnlyTask(s, u, r, i) && OnlyTask(u, t, r, i)
    ensures OnlyTask(s, t, r, i)
  {
    assert t.reqs[r].tasks == s.reqs[r].tasks[i := t.reqs[r].tasks[i]];
    assert t.reqs == s.reqs[r := t.reqs[r]];
  }

  function Grants(steps: seq<Join.Step>): nat {
    if steps == [] then 0 else (if steps[0].Grant? then 1 else 0) + Grants(steps[1..])
  }

  /** The worker goes through these steps of the fetch with the credits that are there. */
  lemma {:induction false} Spend(cfg: Config, s0: State, s: State, r: nat, i: nat, steps: seq<Join.Step>)
    returns (t: State)
    requires Reaches(cfg, s0, s) && HasTask(s, r, i) && TaskAt(s, r, i).stage.Fetching?
    requires T.JoinRuns(cfg.node, TaskAt(s, r, i).hash, TaskAt(s, r, i).stage.join, steps)
    requires s.bucket.credits >= Grants(steps)
    ensures Reaches(cfg, s0, t) && OnlyTask(s, t, r, i) && t.permits == s.permits
    ensures t.bucket.credits == s.bucket.credits - Grants(steps)
    ensures TaskAt(t, r, i).hash == TaskAt(s, r, i).hash
    ensures TaskAt(t, r, i).stage
            == Fetching(T.JoinAfter(cfg.node, TaskAt(s, r, i).hash, TaskAt(s, r, i).stage.join, steps))
    decreases |steps|
  {
    if steps == [] {
      t := s;
      assert s.reqs[r].tasks[i := TaskAt(s, r, i)] == s.reqs[r].tasks;
      assert s.reqs[r := s.reqs[r]] == s.reqs;
    } else {
      var u := SpendOne(cfg, s0, s, r, i, steps[0]);
      t := Spend(cfg, s0, u, r, i, steps[1..]);
      OnlyTwice(s, u, t, r, i);
    }
  }

  lemma SpendOne(cfg: Config, s0: State, s: State, r: nat, i: nat, st: Join.Step) returns (t: State)
    requires Reaches(cfg, s0, s) && HasTask(s, r, i) && TaskAt(s, r, i).stage.Fetching?
    requires Join.Enabled(TaskAt(s, r, i).stage.join, false, st) && (st.Grant? ==> s.bucket.credits > 0)
    ensures Reaches(cfg, s0, t) && OnlyTask(s, t, r, i) && t.permits == s.permits
    ensures t.bucket.credits == s.bucket.credits - (if st.Grant? then 1 else 0)
    ensures TaskAt(t, r, i)
            == TaskAt(s, r, i).(stage := Fetching(Join.Next(cfg.node, TaskAt(s, r, i).hash,
                                                            TaskAt(s, r, i).stage.join, st)))
  {
    var l := Work(r, i, Fetch(st));
    ReachesNext(cfg, s0, s, l);
    t := Next(cfg, s, l);
  }

  /** The worker of a cancelled call drops the result of its fetch and returns its permit. */
  lemma DropResult(cfg: Config, s0: State, s: State, r: nat, i: nat) returns (t: State)
    requires Inv(cfg, s0) && Reaches(cfg, s0, s) && HasTask(s, r, i) && s.reqs[r].mux && s.permits > 0
    requires TaskAt(s, r, i).stage.Fetching? && TaskAt(s, r, i).stage.join.ended
    ensures Reaches(cfg, s0, t) && OnlyTask(s, t, r, i) && t.permits == s.permits - 1 && t.bucket == s.bucket
  {
    T.ReachesInv(cfg, s0, s);
    assert TaskOk(cfg.node, TaskAt(s, r, i), s.reqs[r].mux);
    Join.EvaluateIsSafe(cfg.node, TaskAt(s, r, i).hash, TaskAt(s, r, i).stage.join, true);
    var u := WorkOnce(cfg, s0, s, r, i, Evaluate);
    var v := GiveUpResult(cfg, s0, u, r, i);
    t := CloseAndRelease(cfg, s0, v, r, i);
    OnlyTwice(s, u, v, r, i);
    OnlyTwice(s, v, t, r, i);
  }

  lemma GiveUpResult(cfg: Config, s0: State, s: State, r: nat, i: nat) returns (t: State)
    requires Reaches(cfg, s0, s) && HasTask(s, r, i) && s.reqs[r].mux && TaskAt(s, r, i).stage.Sending?
    ensures Reaches(cfg, s0, t) && OnlyTask(s, t, r, i) && t.permits == s.permits && t.bucket == s.bucket
    ensures TaskAt(t, r, i).stage.Closing?
  {
    var u := WorkOnce(cfg, s0, s, r, i, GiveUp);
    t := WorkOnce(cfg, s0, u, r, i, SkipSend);
    OnlyTwice(s, u, t, r, i);
  }

  lemma CloseAndRelease(cfg: Config, s0: State, s: State, r: nat, i: nat) returns (t: State)
    requires Reaches(cfg, s0, s) && HasTask(s, r, i) && s.permits > 0 && TaskAt(s, r, i).stage.Closing?
    ensures Reaches(cfg, s0, t) && OnlyTask(s, t, r, i) && t.permits == s.permits - 1 && t.bucket == s.bucket
  {
    var u := WorkOnce(cfg, s0, s, r, i, CloseResult);
    t := WorkOnce(cfg, s0, u, r, i, Release);
    OnlyTwice(s, u, t, r, i);
  }

  lemma WorkOnce(cfg: Config, s0: State, s: State, r: nat, i: nat, w: WorkerStep) returns (t: State)
    requires Reaches(cfg, s0, s) && Enabled(cfg, s, Work(r, i, w)) && !w.Fetch?
    ensures Reaches(cfg, s0, t) && OnlyTask(s, t, r, i) && t.bucket == s.bucket
    ensures t.permits == s.permits - (if w.Release? then 1 else 0)
    ensures TaskAt(t, r, i) == Worked(cfg.node, TaskAt(s, r, i), s.reqs[r].mux, w)
  {
    ReachesNext(cfg, s0, s, Work(r, i, w));
    t := Next(cfg, s, Work(r, i, w));
  }

  lemma CancelIt(cfg: Config, s0: State, s: State, r: nat) returns (t: State)
    requires Reaches(cfg, s0, s) && r < |s.reqs|
    ensures Reaches(cfg, s0, t) && r < |t.reqs| && t.reqs[r].mux
    ensures t == s.(reqs := s.reqs[r := s.reqs[r].(reqDone := t.reqs[r].reqDone, mux := true)])
  {
    t := s;
    if !t.reqs[r].reqDone && !t.reqs[r].mux {
      ReachesNext(cfg, s0, t, CancelRequest(r));
      t := Next(cfg, t, CancelRequest(r));
    }
    if !t.reqs[r].mux {
      ReachesNext(cfg, s0, t, Merge(r));
      t := Next(cfg, t, Merge(r));
    }
    assert t.reqs == s.reqs[r := t.reqs[r]];
  }

  lemma WholeFetchCosts()
    ensures Grants(T.WholeFetch()) == 2
  {
    SideCosts(Join.Receipts, T.ENDING);
    SideCosts(Join.Details, T.Side(Join.Receipts, T.ENDING));
    assert Grants(T.ENDING) == 0 by {
      assert T.ENDING[1..] == [Join.EndRange] && [Join.EndRange][1..] == [];
    }
  }

  lemma SideCosts(side: Join.Side, rest: seq<Join.Step>)
    ensures Grants(T.Side(side, rest)) == 1 + Grants(rest)
  {
    var a := [Join.Exit(side)] + rest;
    var b := [Join.Answer(side)] + a;
    var whole := T.Side(side, rest);
    assert whole == [Join.Grant(side)] + b && whole[1..] == b;
    assert a[1..] == rest && a[0] == Join.Exit(side) && Grants(a) == Grants(rest);
    assert b[1..] == a && b[0] == Join.Answer(side) && Grants(b) == Grants(a);
  }

  /** A call whose tasks from n on were never sent is scheduling task n. */
  ghost predicate CallDraining(q: Request) {
    q.phase.Scheduling? && q.phase.next <= |q.tasks|
  }

  ghost predicate AllDraining(s: State, c: nat) {
    Draining(s, c) && forall r :: 0 <= r < |s.reqs| ==> CallDraining(s.reqs[r])
  }

  /** The next task of a cancelled call is handed over, fetched and dropped. */
  lemma FetchAndDrop(cfg: Config, s0: State, s: State, c: nat, r: nat) returns (t: State)
    requires Inv(cfg, s0) && Reaches(cfg, s0, s) && Draining(s, c) && c >= 2 && cfg.workers > 0
    requires Schedules(s, r) && s.reqs[r].mux
    ensures Reaches(cfg, s0, t) && Draining(t, c - 2) && |t.reqs| == |s.reqs| && t.reqs == s.reqs[r := t.reqs[r]]
    ensures t.reqs[r].phase == Scheduling(s.reqs[r].phase.next + 1) && |t.reqs[r].tasks| == |s.reqs[r].tasks|
  {
    var n := s.reqs[r].phase.next;
    var u := T.StartOne(cfg, s0, s, r);
    T.WholeFetchRuns(cfg.node, TaskAt(u, r, n).hash);
    WholeFetchCosts();
    var v := Spend(cfg, s0, u, r, n, T.WholeFetch());
    t := DropResult(cfg, s0, v, r, n);
    OnlyTwice(u, v, t, r, n);
  }

  /** One more hash is fetched for a call, which is cancelled before, at the price of two credits. */
  lemma DrainOne(cfg: Config, s0: State, s: State, c: nat, r: nat) returns (t: State)
    requires Inv(cfg, s0) && Reaches(cfg, s0, s) && AllDraining(s, c) && c >= 2 && cfg.workers > 0
    requires r < |s.reqs| && Left(s.reqs[r]) > 0
    ensures Reaches(cfg, s0, t) && AllDraining(t, c - 2)
    ensures Sum(t.reqs, Left) == Sum(s.reqs, Left) - 1
  {
    var u := CancelIt(cfg, s0, s, r);
    t := FetchAndDrop(cfg, s0, u, c, r);
    assert t.reqs == s.reqs[r := t.reqs[r]];
    SumUpdate(s.reqs, r, t.reqs[r], Left);
  }

  /** Fetch and drop until at most one credit is left. */
  lemma DrainAll(cfg: Config, s0: State, s: State, c: nat) returns (t: State, rest: nat)
    requires Inv(cfg, s0) && Reaches(cfg, s0, s) && AllDraining(s, c) && cfg.workers > 0
    requires c < 2 * Sum(s.reqs, Left)
    ensures Reaches(cfg, s0, t) && AllDraining(t, rest) && rest < 2 && Sum(t.reqs, Left) > 0
    decreases c
  {
    if c < 2 {
      t, rest := s, c;
    } else {
      SumSome(s.reqs, Left);
      var r :| 0 <= r < |s.reqs| && Left(s.reqs[r]) > 0;
      var u := DrainOne(cfg, s0, s, c, r);
      t, rest := DrainAll(cfg, s0, u, c - 2);
    }
  }

  /** The next fetch takes the last credit, if there is one, and the application ends. */
  lemma StarveNext(cfg: Config, s0: State, s: State, c: nat, r: nat) returns (t: State)
    requires Reaches(cfg, s0, s) && AllDraining(s, c) && c < 2 && cfg.workers > 0
    requires r < |s.reqs| && Left(s.reqs[r]) > 0
    ensures Reaches(cfg, s0, t) && Starved(t)
  {
    var n := s.reqs[r].phase.next;
    t := T.StartOne(cfg, s0, s, r);
    if c == 1 {
      t := SpendOne(cfg, s0, t, r, n, Join.Grant(Join.Details));
    }
    assert Polls(t, r, n, Join.Receipts);
    ReachesNext(cfg, s0, t, CancelApp);
    t := Next(cfg, t, CancelApp);
    ReachesNext(cfg, s0, t, Tick(true));
    t := Next(cfg, t, Tick(true));
    assert Polls(t, r, n, Join.Receipts);
  }

  lemma {:induction false} AllLeft(missing: seq<seq<string>>)
    ensures Sum(NewRequests(missing), Left) == Sum(missing, Length)
  {
    if missing != [] {
      var n := |missing| - 1;
      AllLeft(missing[..n]);
      assert NewRequests(missing)[..n] == NewRequests(missing[..n]);
    }
  }

  /** An end of the application can leave a worker polling the limiter for ever exactly when there is a worker
      and the calls need more node calls, two for each missing hash, than the bucket holds. */
  lemma StarvesIff(cfg: Config, maxCredits: nat, missing: seq<seq<string>>)
    requires maxCredits > 0
    ensures (exists s :: Reaches(cfg, Init(maxCredits, missing), s) && Starved(s))
            <==> cfg.workers > 0 && maxCredits < 2 * Sum(missing, Length)
  {
    var s0 := Init(maxCredits, missing);
    forall s | Reaches(cfg, s0, s) && Starved(s) ensures cfg.workers > 0 && maxCredits < 2 * Sum(missing, Length) {
      var run :| Executes(cfg, s0, run) && After(cfg, s0, run) == s;
      StarvedTookAll(cfg, maxCredits, missing, run, s);
    }
    if cfg.workers > 0 && maxCredits < 2 * Sum(missing, Length) {
      InitInv(cfg, maxCredits, missing);
      ReachesSelf(cfg, s0);
      AllLeft(missing);
      var t, c := DrainAll(cfg, s0, s0, maxCredits);
      SumSome(t.reqs, Left);
      var r :| 0 <= r < |t.reqs| && Left(t.reqs[r]) > 0;
      var u := StarveNext(cfg, s0, t, c, r);
    }
  }
}
