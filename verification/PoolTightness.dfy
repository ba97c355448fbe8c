/** The condition under which calls fit the pool is exact: any others can block it for ever. */
module PoolTightness {
  import opened Prelude
  import opened Chain
  import opened Pool
  import opened PoolSafety
  import opened PoolProgress
  import opened PoolRuns
  import Join = FetchJoin

  /** t is s with another stage at task i of request r, and perhaps other credits. */
  ghost predicate Moved(s: State, t: State, r: nat, i: nat, g: Stage) {
    && HasTask(s, r, i)
    && t.reqs == s.reqs[r := s.reqs[r].(tasks := s.reqs[r].tasks[i := TaskAt(s, r, i).(stage := g)])]
    && t.appDone == s.appDone && t.disp == s.disp && t.permits == s.permits
    && t.bucket.max == s.bucket.max && t.bucket.refilling == s.bucket.refilling
  }

  /** The refill loop runs and the bucket is not overfull. */
  predicate Refilling(s: State) {
    s.bucket.max > 0 && s.bucket.credits <= s.bucket.max && s.bucket.refilling && !s.appDone
  }

  // ---------- driving one fetch to its end ----------

  predicate JoinRuns(node: Node, hash: string, j: Join.Join, steps: seq<Join.Step>)
    decreases |steps|
  {
    steps == []
    || (Join.Enabled(j, false, steps[0]) && JoinRuns(node, hash, Join.Next(node, hash, j, steps[0]), steps[1..]))
  }

  function JoinAfter(node: Node, hash: string, j: Join.Join, steps: seq<Join.Step>): Join.Join
    requires JoinRuns(node, hash, j, steps)
    decreases |steps|
  {
    if steps == [] then j else JoinAfter(node, hash, Join.Next(node, hash, j, steps[0]), steps[1..])
  }

  lemma JoinCons(node: Node, hash: string, j: Join.Join, st: Join.Step, rest: seq<Join.Step>)
    requires Join.Enabled(j, false, st) && JoinRuns(node, hash, Join.Next(node, hash, j, st), rest)
    ensures JoinRuns(node, hash, j, [st] + rest)
    ensures JoinAfter(node, hash, j, [st] + rest) == JoinAfter(node, hash, Join.Next(node, hash, j, st), rest)
  {
    assert ([st] + rest)[1..] == rest;
  }

  /** One side's call is answered, before the rest. */
  function Side(side: Join.Side, rest: seq<Join.Step>): seq<Join.Step> {
    [Join.Grant(side)] + ([Join.Answer(side)] + ([Join.Exit(side)] + rest))
  }

  lemma SideRuns(node: Node, hash: string, j: Join.Join, side: Join.Side, rest: seq<Join.Step>) returns (k: Join.Join)
    requires Join.At(j, side).Waiting?
    requires JoinRuns(node, hash, Answered(node, hash, j, side), rest)
    ensures k == Answered(node, hash, j, side)
    ensures JoinRuns(node, hash, j, Side(side, rest))
    ensures JoinAfter(node, hash, j, Side(side, rest)) == JoinAfter(node, hash, k, rest)
  {
    var called := Join.Next(node, hash, j, Join.Grant(side));
    var told := Join.Next(node, hash, called, Join.Answer(side));
    k := Join.Next(node, hash, told, Join.Exit(side));
    JoinCons(node, hash, told, Join.Exit(side), rest);
    JoinCons(node, hash, called, Join.Answer(side), [Join.Exit(side)] + rest);
    JoinCons(node, hash, j, Join.Grant(side), [Join.Answer(side)] + ([Join.Exit(side)] + rest));
  }

  /** The join after one side's call was answered. */
  function Answered(node: Node, hash: string, j: Join.Join, side: Join.Side): Join.Join {
    var k := Join.Set(j, side, Join.Gone(None, false)).(wg := j.wg - 1, panicked := j.panicked || j.wg == 0);
    match side
    case Details => k.(ethTx := Some(node.details(hash)))
    case Receipts => k.(receipt := Some(node.receipt(hash)))
  }

  const ENDING := [Join.CloseErrs] + [Join.EndRange]

  /** Both calls answered, one after the other, and the errors collected. */
  function WholeFetch(): seq<Join.Step> {
    Side(Join.Details, Side(Join.Receipts, ENDING))
  }

  lemma WholeFetchRuns(node: Node, hash: string)
    ensures JoinRuns(node, hash, Join.STARTED, WholeFetch())
    ensures JoinAfter(node, hash, Join.STARTED, WholeFetch()).ended
  {
    var j := Answered(node, hash, Join.STARTED, Join.Details);
    var k := Answered(node, hash, j, Join.Receipts);
    var closed := Join.Next(node, hash, k, Join.CloseErrs);
    JoinCons(node, hash, closed, Join.EndRange, []);
    assert [Join.EndRange] + [] == [Join.EndRange];
    JoinCons(node, hash, k, Join.CloseErrs, [Join.EndRange]);
    k := SideRuns(node, hash, j, Join.Receipts, ENDING);
    j := SideRuns(node, hash, Join.STARTED, Join.Details, Side(Join.Receipts, ENDING));
  }

  lemma EnsureCredit(cfg: Config, s0: State, s: State) returns (t: State)
    requires Reaches(cfg, s0, s) && Refilling(s)
    ensures Reaches(cfg, s0, t) && t == s.(bucket := t.bucket) && Refilling(t) && t.bucket.credits > 0
    ensures t.bucket.max == s.bucket.max
  {
    t := s;
    if s.bucket.credits == 0 {
      ReachesNext(cfg, s0, s, Tick(false));
      t := Next(cfg, s, Tick(false));
    }
  }

  lemma {:induction false} Drive(cfg: Config, s0: State, s: State, r: nat, i: nat, steps: seq<Join.Step>)
    returns (t: State)
    requires Reaches(cfg, s0, s) && Refilling(s) && HasTask(s, r, i) && !s.reqs[r].mux
    requires TaskAt(s, r, i).stage.Fetching?
    requires JoinRuns(cfg.node, TaskAt(s, r, i).hash, TaskAt(s, r, i).stage.join, steps)
    ensures Reaches(cfg, s0, t) && Refilling(t)
    ensures Moved(s, t, r, i, Fetching(JoinAfter(cfg.node, TaskAt(s, r, i).hash, TaskAt(s, r, i).stage.join, steps)))
    decreases |steps|
  {
    if steps == [] {
      t := s;
      assert s.reqs[r].tasks[i := TaskAt(s, r, i)] == s.reqs[r].tasks;
      assert s.reqs[r := s.reqs[r]] == s.reqs;
    } else {
      var u := EnsureCredit(cfg, s0, s);
      var l := Work(r, i, Fetch(steps[0]));
      ReachesNext(cfg, s0, u, l);
      u := Next(cfg, u, l);
      assert Moved(s, u, r, i, TaskAt(u, r, i).stage);
      t := Drive(cfg, s0, u, r, i, steps[1..]);
      MovedTwice(s, u, t, r, i, TaskAt(u, r, i).stage, TaskAt(t, r, i).stage);
    }
  }

  lemma MovedTwice(s: State, u: State, t: State, r: nat, i: nat, g: Stage, h: Stage)
    requires Moved(s, u, r, i, g) && Moved(u, t, r, i, h)
    ensures Moved(s, t, r, i, h)
  {
    assert u.reqs[r].tasks[i := TaskAt(u, r, i).(stage := h)] == s.reqs[r].tasks[i := TaskAt(s, r, i).(stage := h)];
    assert t.reqs == s.reqs[r := t.reqs[r]];
  }

  // ---------- filling the pool ----------

  /** A call without missing hashes has returned; of the others the first n tasks are offered by their
      workers and the rest is not sent. */
  ghost predicate CallParked(q: Request, len: nat, n: nat) {
    && |q.tasks| == len && !q.reqDone && n <= len
    && (if len == 0 then q.phase.Returned? else !q.mux && q.phase == Scheduling(n))
    && (forall i :: 0 <= i < n ==> q.tasks[i].stage.Sending?)
    && (forall i :: n <= i < len ==> q.tasks[i].stage.NotSent?)
  }

  function Number(n: nat): nat { n }

  function Zeros(n: nat): (ns: seq<nat>)
    ensures |ns| == n && forall r :: 0 <= r < n ==> ns[r] == 0
  {
    seq(n, _ => 0)
  }

  /** ns[r] tasks of each call r are parked. */
  ghost predicate Parked(s: State, missing: seq<seq<string>>, ns: seq<nat>) {
    && |s.reqs| == |missing| == |ns|
    && (forall r :: 0 <= r < |ns| ==> CallParked(s.reqs[r], |missing[r]|, ns[r]))
    && Refilling(s) && s.disp.Idle? && s.permits == Sum(ns, Number)
  }

  lemma ReachesInv(cfg: Config, s0: State, s: State)
    requires Inv(cfg, s0) && Reaches(cfg, s0, s)
    ensures Inv(cfg, s)
  {
    var run :| Executes(cfg, s0, run) && After(cfg, s0, run) == s;
    RunKeepsInv(cfg, s0, run);
  }

  /** The dispatcher takes the next task and starts a worker. */
  lemma StartOne(cfg: Config, s0: State, s: State, r: nat) returns (t: State)
    requires Reaches(cfg, s0, s) && Schedules(s, r) && s.disp.Idle? && s.permits < cfg.workers
    ensures Reaches(cfg, s0, t) && t.bucket == s.bucket && t.appDone == s.appDone
    ensures t.disp.Idle? && t.permits == s.permits + 1
    ensures var n := s.reqs[r].phase.next;
            var t' := TaskAt(s, r, n).(stage := Fetching(Join.STARTED));
            t.reqs == s.reqs[r := s.reqs[r].(phase := Scheduling(n + 1), tasks := s.reqs[r].tasks[n := t'])]
  {
    var n := s.reqs[r].phase.next;
    ReachesNext(cfg, s0, s, Offer(r));
    var u := Next(cfg, s, Offer(r));
    assert u.disp == Busy(r, n) && TaskAt(u, r, n).stage.Held?;
    ReachesNext(cfg, s0, u, Dispatch(Acquire));
    t := Next(cfg, u, Dispatch(Acquire));
    assert t.reqs[r].tasks == s.reqs[r].tasks[n := TaskAt(s, r, n).(stage := Fetching(Join.STARTED))];
  }

  /** The worker of a finished fetch offers its result. */
  lemma OfferResult(cfg: Config, s0: State, s: State, r: nat, i: nat) returns (t: State)
    requires Inv(cfg, s0) && Reaches(cfg, s0, s) && HasTask(s, r, i) && !s.reqs[r].mux
    requires TaskAt(s, r, i).stage.Fetching? && TaskAt(s, r, i).stage.join.ended
    ensures Reaches(cfg, s0, t) && t.bucket == s.bucket && HasTask(t, r, i) && TaskAt(t, r, i).stage.Sending?
    ensures Moved(s, t, r, i, TaskAt(t, r, i).stage)
  {
    ReachesInv(cfg, s0, s);
    assert TaskOk(cfg.node, TaskAt(s, r, i), s.reqs[r].mux);
    EvaluatedSends(cfg.node, TaskAt(s, r, i));
    ReachesNext(cfg, s0, s, Work(r, i, Evaluate));
    t := Next(cfg, s, Work(r, i, Evaluate));
  }

  lemma EvaluatedSends(node: Node, t: Task)
    requires TaskOk(node, t, false) && t.stage.Fetching? && t.stage.join.ended
    ensures exists res :: Evaluated(t, false) == t.(stage := Sending(res))
  {
    Join.EvaluateIsSafe(node, t.hash, t.stage.join, false);
    var res := WorkerResult(t.hash, Join.Evaluate(t.stage.join, false));
    assert Evaluated(t, false) == t.(stage := Sending(res));
  }

  /** The next task of a call is handed over, fetched and offered. */
  lemma FetchNext(cfg: Config, s0: State, s: State, r: nat) returns (t: State)
    requires Inv(cfg, s0) && Reaches(cfg, s0, s) && Schedules(s, r) && s.disp.Idle? && s.permits < cfg.workers
    requires Refilling(s) && !s.reqs[r].mux
    ensures Reaches(cfg, s0, t) && Refilling(t) && t.disp.Idle? && t.permits == s.permits + 1
    ensures var q, n := s.reqs[r], s.reqs[r].phase.next;
            && r < |t.reqs| && n < |t.reqs[r].tasks| && t.reqs[r].tasks[n].stage.Sending?
            && t.reqs == s.reqs[r := q.(phase := Scheduling(n + 1), tasks := q.tasks[n := t.reqs[r].tasks[n]])]
  {
    var n := s.reqs[r].phase.next;
    var u := StartOne(cfg, s0, s, r);
    WholeFetchRuns(cfg.node, TaskAt(u, r, n).hash);
    var v := Drive(cfg, s0, u, r, n, WholeFetch());
    t := OfferResult(cfg, s0, v, r, n);
    MovedTwice(u, v, t, r, n, TaskAt(v, r, n).stage, TaskAt(t, r, n).stage);
    assert t.reqs[r].tasks == s.reqs[r].tasks[n := t.reqs[r].tasks[n]];
  }

  /** One more task of call r is parked. */
  lemma ParkOne(cfg: Config, s0: State, s: State, missing: seq<seq<string>>, ns: seq<nat>, r: nat) returns (t: State)
    requires Inv(cfg, s0) && Reaches(cfg, s0, s) && Parked(s, missing, ns) && Sum(ns, Number) < cfg.workers
    requires r < |ns| && ns[r] < |missing[r]|
    ensures Reaches(cfg, s0, t) && Parked(t, missing, ns[r := ns[r] + 1])
  {
    var q, n := s.reqs[r], ns[r];
    assert CallParked(q, |missing[r]|, n);
    t := FetchNext(cfg, s0, s, r);
    assert CallParked(q.(phase := Scheduling(n + 1), tasks := q.tasks[n := t.reqs[r].tasks[n]]), |missing[r]|, n + 1);
    ParkedGrows(s, t, missing, ns, r);
  }

  lemma ParkedGrows(s: State, t: State, missing: seq<seq<string>>, ns: seq<nat>, r: nat)
    requires Parked(s, missing, ns) && r < |ns| && |t.reqs| == |s.reqs| && t.reqs == s.reqs[r := t.reqs[r]]
    requires CallParked(t.reqs[r], |missing[r]|, ns[r] + 1)
    requires Refilling(t) && t.disp.Idle? && t.permits == s.permits + 1
    ensures Parked(t, missing, ns[r := ns[r] + 1])
  {
    SumUpdate(ns, r, ns[r] + 1, Number);
  }

  lemma {:induction false} ParkAll(cfg: Config, s0: State, s: State, missing: seq<seq<string>>, ns: seq<nat>)
    returns (t: State)
    requires Inv(cfg, s0) && Reaches(cfg, s0, s) && Parked(s, missing, Zeros(|missing|))
    requires |ns| == |missing| && forall r :: 0 <= r < |ns| ==> ns[r] <= |missing[r]|
    requires Sum(ns, Number) <= cfg.workers
    ensures Reaches(cfg, s0, t) && Parked(t, missing, ns)
    decreases Sum(ns, Number)
  {
    if Sum(ns, Number) == 0 {
      NothingParked(ns);
      t := s;
    } else {
      var r, fewer := OneFewer(ns);
      t := ParkAll(cfg, s0, s, missing, fewer);
      t := ParkOne(cfg, s0, t, missing, fewer, r);
    }
  }

  lemma NothingParked(ns: seq<nat>)
    requires Sum(ns, Number) == 0
    ensures ns == Zeros(|ns|)
  {
    forall r | 0 <= r < |ns| ensures ns[r] == 0 {
      SumCovers(ns, r, Number);
    }
  }

  lemma OneFewer(ns: seq<nat>) returns (r: nat, fewer: seq<nat>)
    requires Sum(ns, Number) > 0
    ensures |fewer| == |ns| && Sum(fewer, Number) == Sum(ns, Number) - 1
    ensures r < |ns| && fewer[r] < ns[r] && fewer[r := fewer[r] + 1] == ns
    ensures forall x :: 0 <= x < |ns| ==> fewer[x] <= ns[x]
  {
    SumSome(ns, Number);
    r :| 0 <= r < |ns| && Number(ns[r]) > 0;
    fewer := ns[r := ns[r] - 1];
    SumUpdate(ns, r, ns[r] - 1, Number);
  }

  /** Calls before r without missing hashes have returned, everything else is as at the start. */
  ghost predicate EmptiesGone(s: State, s0: State, r: nat) {
    && |s.reqs| == |s0.reqs| && s == s0.(reqs := s.reqs)
    && (forall x :: 0 <= x < |s.reqs| && (x >= r || s0.reqs[x].tasks != []) ==> s.reqs[x] == s0.reqs[x])
    && (forall x :: 0 <= x < r && x < |s.reqs| && s0.reqs[x].tasks == [] ==>
          s.reqs[x].phase.Returned? && s.reqs[x].tasks == [] && !s.reqs[x].reqDone)
  }

  lemma ReturnEmpty(cfg: Config, s0: State, s: State, r: nat) returns (t: State)
    requires Reaches(cfg, s0, s) && r < |s.reqs| && s.reqs[r].tasks == [] && s.reqs[r].phase == Scheduling(0)
    ensures Reaches(cfg, s0, t) && t == s.(reqs := s.reqs[r := s.reqs[r].(mux := true, phase := Returned(Success))])
  {
    ReachesNext(cfg, s0, s, Serve(r, AllScheduled));
    t := Next(cfg, s, Serve(r, AllScheduled));
    ReachesNext(cfg, s0, t, Serve(r, Complete));
    t := Next(cfg, t, Serve(r, Complete));
    ReachesNext(cfg, s0, t, Serve(r, Return));
    t := Next(cfg, t, Serve(r, Return));
  }

  lemma {:induction false} ReturnEmpties(cfg: Config, s0: State, r: nat) returns (t: State)
    requires r <= |s0.reqs|
    requires forall x :: 0 <= x < |s0.reqs| ==> s0.reqs[x].phase == Scheduling(0) && !s0.reqs[x].reqDone
    ensures Reaches(cfg, s0, t) && EmptiesGone(t, s0, r)
  {
    if r == 0 {
      ReachesSelf(cfg, s0);
      t := s0;
    } else {
      t := ReturnEmpties(cfg, s0, r - 1);
      if s0.reqs[r - 1].tasks == [] {
        t := ReturnEmpty(cfg, s0, t, r - 1);
      }
    }
  }

  lemma StartParked(cfg: Config, maxCredits: nat, missing: seq<seq<string>>) returns (t: State)
    requires maxCredits > 0
    ensures Reaches(cfg, Init(maxCredits, missing), t) && Parked(t, missing, Zeros(|missing|))
  {
    t := ReturnEmpties(cfg, Init(maxCredits, missing), |missing|);
    SumZero(Zeros(|missing|), Number);
  }

  lemma {:induction false} FillBucket(cfg: Config, s0: State, s: State) returns (t: State)
    requires Reaches(cfg, s0, s) && Refilling(s)
    ensures Reaches(cfg, s0, t) && t == s.(bucket := t.bucket) && Refilling(t)
    ensures t.bucket.credits == t.bucket.max
    decreases s.bucket.max - s.bucket.credits
  {
    t := s;
    if s.bucket.credits < s.bucket.max {
      ReachesNext(cfg, s0, s, Tick(false));
      t := FillBucket(cfg, s0, Next(cfg, s, Tick(false)));
    }
  }

  // ---------- blocked pools ----------

  /** The application runs, no request was cancelled, a call has not returned, and nothing can move. */
  ghost predicate Blocked(cfg: Config, s: State) {
    && !s.appDone && !CanStep(cfg, s)
    && (forall r :: 0 <= r < |s.reqs| ==> !s.reqs[r].reqDone)
    && (exists r :: 0 <= r < |s.reqs| && !s.reqs[r].phase.Returned?)
  }

  /** The call has returned, or offers its next task, or awaits a task that the dispatcher holds. */
  ghost predicate CallJammed(q: Request) {
    && !q.reqDone
    && (!q.phase.Returned? ==> !q.mux)
    && (q.phase.Returned?
        || (q.phase.Scheduling? && q.phase.next < |q.tasks|)
        || (Receives(q) && q.tasks[q.phase.next].stage.Held? && q.tasks[q.phase.next].ch.closers == []))
    && (forall i :: 0 <= i < |q.tasks| ==>
          !q.phase.Returned? && (q.tasks[i].stage.Sending? || q.tasks[i].stage.NotSent? || q.tasks[i].stage.Held?))
  }

  /** All permits are used by offering workers and the dispatcher holds a task it has no permit for. */
  ghost predicate Jammed(cfg: Config, s: State) {
    && Refilling(s) && s.bucket.credits == s.bucket.max && s.permits == cfg.workers
    && s.disp.Busy? && HasTask(s, s.disp.r, s.disp.i) && TaskAt(s, s.disp.r, s.disp.i).stage.Held?
    && (forall r :: 0 <= r < |s.reqs| ==> CallJammed(s.reqs[r]))
  }

  lemma JammedBlocks(cfg: Config, s: State)
    requires Jammed(cfg, s)
    ensures Blocked(cfg, s)
  {
    forall l | Undisturbed(l) ensures !Enabled(cfg, s, l) {
      match l
      case Merge(r) => assert r < |s.reqs| ==> CallJammed(s.reqs[r]);
      case Offer(_) =>
      case Withdraw(r) => assert r < |s.reqs| ==> CallJammed(s.reqs[r]);
      case Deliver(r) => assert r < |s.reqs| ==> CallJammed(s.reqs[r]);
      case Serve(r, _) => assert r < |s.reqs| ==> CallJammed(s.reqs[r]);
      case Work(r, i, _) => assert r < |s.reqs| ==> CallJammed(s.reqs[r]);
      case Dispatch(_) => assert CallJammed(s.reqs[s.disp.r]);
      case _ =>
    }
    assert CallJammed(s.reqs[s.disp.r]);
    assert !s.reqs[s.disp.r].phase.Returned?;
  }

  /** W tasks are parked, every call keeps one back, and one call can hand over another before its last. */
  lemma BlockByOffer(cfg: Config, s0: State, s: State, missing: seq<seq<string>>, ns: seq<nat>, r: nat)
    returns (t: State)
    requires Reaches(cfg, s0, s) && Parked(s, missing, ns) && Sum(ns, Number) == cfg.workers
    requires forall x :: 0 <= x < |ns| ==> ns[x] <= Spare(missing[x])
    requires r < |ns| && ns[r] < Spare(missing[r])
    ensures Reaches(cfg, s0, t) && Blocked(cfg, t)
  {
    assert CallParked(s.reqs[r], |missing[r]|, ns[r]);
    ReachesNext(cfg, s0, s, Offer(r));
    var u := Next(cfg, s, Offer(r));
    t := FillBucket(cfg, s0, u);
    forall x | 0 <= x < |t.reqs| && x != r ensures CallJammed(t.reqs[x]) {
      ParkedIsJammed(s.reqs[x], |missing[x]|, ns[x]);
    }
    JammedBlocks(cfg, t);
  }

  lemma ParkedIsJammed(q: Request, len: nat, n: nat)
    requires CallParked(q, len, n) && (len > 0 ==> n < len)
    ensures CallJammed(q)
  {
  }

  /** W tasks are parked, every call keeps one back, and the dispatcher takes the only task of another. */
  lemma BlockByAwait(cfg: Config, s0: State, s: State, missing: seq<seq<string>>, ns: seq<nat>, r: nat)
    returns (t: State)
    requires Inv(cfg, s0) && Reaches(cfg, s0, s) && Parked(s, missing, ns) && Sum(ns, Number) == cfg.workers
    requires forall x :: 0 <= x < |ns| ==> ns[x] <= Spare(missing[x])
    requires r < |ns| && |missing[r]| == 1
    ensures Reaches(cfg, s0, t) && Blocked(cfg, t)
  {
    assert CallParked(s.reqs[r], 1, 0) && s.reqs[r].tasks[0].ch.closers == [] by {
      ReachesInv(cfg, s0, s);
      assert CallParked(s.reqs[r], |missing[r]|, ns[r]);
      assert RequestOk(cfg.node, s.appDone, s.reqs[r]) && TaskOk(cfg.node, s.reqs[r].tasks[0], s.reqs[r].mux);
    }
    var u := HandOverOnly(cfg, s0, s, r);
    t := FillBucket(cfg, s0, u);
    forall x | 0 <= x < |t.reqs| && x != r ensures CallJammed(t.reqs[x]) {
      ParkedIsJammed(s.reqs[x], |missing[x]|, ns[x]);
    }
    JammedBlocks(cfg, t);
  }

  /** A call hands over its only task and waits for it. */
  lemma HandOverOnly(cfg: Config, s0: State, s: State, r: nat) returns (t: State)
    requires Reaches(cfg, s0, s) && Schedules(s, r) && s.disp.Idle? && |s.reqs[r].tasks| == 1
    ensures Reaches(cfg, s0, t) && t == s.(reqs := t.reqs, disp := Busy(r, 0))
    ensures var q := s.reqs[r];
            t.reqs == s.reqs[r := q.(phase := Receiving(0), tasks := q.tasks[0 := q.tasks[0].(stage := Held)])]
  {
    ReachesNext(cfg, s0, s, Offer(r));
    var u := Next(cfg, s, Offer(r));
    ReachesNext(cfg, s0, u, Serve(r, AllScheduled));
    t := Next(cfg, u, Serve(r, AllScheduled));
  }

  // ---------- the exact condition ----------

  /** n tasks can be drawn from calls that each keep their last one back. */
  lemma {:induction false} Draw(missing: seq<seq<string>>, n: nat) returns (ns: seq<nat>)
    requires n <= Sum(missing, Spare)
    ensures |ns| == |missing| && Sum(ns, Number) == n && forall r :: 0 <= r < |ns| ==> ns[r] <= Spare(missing[r])
  {
    if missing == [] {
      ns := [];
    } else {
      var k := |missing| - 1;
      var last: nat := if n <= Spare(missing[k]) then n else Spare(missing[k]);
      var front := Draw(missing[..k], n - last);
      ns := front + [last];
      SumSnoc(front, last, Number);
    }
  }

  lemma {:induction false} SomeLeft(missing: seq<seq<string>>, ns: seq<nat>) returns (r: nat)
    requires |ns| == |missing| && Sum(ns, Number) < Sum(missing, Spare)
    ensures r < |ns| && ns[r] < Spare(missing[r])
  {
    var k := |missing| - 1;
    if ns[k] < Spare(missing[k]) {
      r := k;
    } else {
      r := SomeLeft(missing[..k], ns[..k]);
    }
  }

  lemma BlocksBeyondBound(cfg: Config, maxCredits: nat, missing: seq<seq<string>>) returns (t: State)
    requires maxCredits > 0 && !FitsPool(cfg.workers, missing)
    ensures Reaches(cfg, Init(maxCredits, missing), t) && Blocked(cfg, t)
  {
    var s0 := Init(maxCredits, missing);
    InitInv(cfg, maxCredits, missing);
    var s := StartParked(cfg, maxCredits, missing);
    var ns := Draw(missing, cfg.workers);
    s := ParkAll(cfg, s0, s, missing, ns);
    if Sum(missing, Spare) > cfg.workers {
      var r := SomeLeft(missing, ns);
      t := BlockByOffer(cfg, s0, s, missing, ns, r);
    } else {
      var r :| 0 <= r < |missing| && |missing[r]| == 1;
      t := BlockByAwait(cfg, s0, s, missing, ns, r);
    }
  }

  /** For any calls and any pool size, a permanent block is reachable exactly when the tasks that the calls
      hand over before their last ones exceed the pool, or fill it and some call has only one. */
  lemma BoundIsExact(cfg: Config, maxCredits: nat, missing: seq<seq<string>>)
    requires maxCredits > 0
    ensures (exists s :: Reaches(cfg, Init(maxCredits, missing), s) && Blocked(cfg, s))
            <==> Sum(missing, Spare) > cfg.workers
                 || (Sum(missing, Spare) == cfg.workers && exists r :: 0 <= r < |missing| && |missing[r]| == 1)
  {
    if FitsPool(cfg.workers, missing) {
      forall s | Reaches(cfg, Init(maxCredits, missing), s) ensures !Blocked(cfg, s) {
        NotBlocked(cfg, maxCredits, missing, s);
      }
    } else {
      var t := BlocksBeyondBound(cfg, maxCredits, missing);
    }
  }

  lemma NotBlocked(cfg: Config, maxCredits: nat, missing: seq<seq<string>>, s: State)
    requires maxCredits > 0 && FitsPool(cfg.workers, missing) && Reaches(cfg, Init(maxCredits, missing), s)
    ensures !Blocked(cfg, s)
  {
    var run :| Executes(cfg, Init(maxCredits, missing), run) && After(cfg, Init(maxCredits, missing), run) == s;
    ReachedInv(cfg, maxCredits, missing, run, s);
    StillFits(cfg, maxCredits, missing, run, s);
    if !s.appDone {
      if r :| 0 <= r < |s.reqs| && !s.reqs[r].phase.Returned? {
        DeadlockFreedom(cfg, s, r);
      }
    }
  }

  /** One call alone can block exactly when it misses more than W + 1 hashes, two calls of k hashes each
      when 2 * (k - 1) > W, and calls of one hash each never do. */
  lemma UsualLoads(workers: nat, a: seq<string>, b: seq<string>)
    requires workers > 0
    ensures FitsPool(workers, [a]) <==> |a| <= workers + 1
    ensures |a| == |b| > 1 ==> (FitsPool(workers, [a, b]) <==> 2 * (|a| - 1) <= workers)
  {
    assert [a, b][..1] == [a] && [a][..0] == [];
    assert Sum([a], Spare) == Spare(a) && Sum([a, b], Spare) == Spare(a) + Spare(b);
    assert [a][0] == a && [a, b][0] == a && [a, b][1] == b;
  }

  lemma SingleHashesFit(workers: nat, missing: seq<seq<string>>)
    requires workers > 0 && forall r :: 0 <= r < |missing| ==> |missing[r]| <= 1
    ensures FitsPool(workers, missing)
  {
    SumZero(missing, Spare);
  }
}
