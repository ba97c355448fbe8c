/** The service call and the shared run agree: what the phases of a call in a run record is what the call
    computes from the messages it received and the tables its stores met. */
module Replay {
  import opened Prelude
  import opened Chain
  import opened Store
  import opened Service
  import opened ReadThrough
  import S = Shared
  import SharedLinks
  import P = Pool
  import PoolSafety
  import PoolRuns

  // ---------- a call among others ----------

  /** The collecting loop without the tables: others write to them between this call's stores. */
  datatype Gathered = Gathered(avail: map<string, Tx>, stop: Option<Failure>)

  /** The tables that store k meets. */
  function ViewAt(views: seq<Tables>, k: nat): Tables {
    if k < |views| then views[k] else Tables({}, map[], {})
  }

  function GatherAll(views: seq<Tables>, avail: map<string, Tx>, n: nat, userID: int, env: Env): Gathered {
    if n == 0 then Gathered(avail, None)
    else
      var g := GatherAll(views, avail, n - 1, userID, env);
      if g.stop.Some? then g
      else
        var c := CollectOne(ViewAt(views, n - 1), g.avail, userID, env.arrives(n - 1), env.faults(n - 1));
        Gathered(c.avail, c.stop)
  }

  /** The reply of a call whose rows are found and linked. */
  function ReplyOn(views: seq<Tables>, found: seq<Loaded>, hashes: seq<string>, userID: int, env: Env): Reply {
    var avail := Available(found);
    var missing := Missing(hashes, avail);
    if AnyRefused(|missing|, env.refused) then Error(ScheduleRefused)
    else
      var g := GatherAll(views, avail, |missing|, userID, env);
      if g.stop.Some? then Error(g.stop.value) else Records(Rebuild(hashes, g.avail))
  }

  /** The tables met are those that the call alone has written so far. */
  ghost predicate OwnViews(views: seq<Tables>, t: Tables, avail: map<string, Tx>, n: nat, userID: int, env: Env) {
    forall k: nat :: k < n && CollectAll(t, avail, k, userID, env).stop.None? ==>
      ViewAt(views, k) == CollectAll(t, avail, k, userID, env).t
  }

  lemma {:induction false} AloneGathers(views: seq<Tables>, t: Tables, avail: map<string, Tx>, n: nat, userID: int,
                                        env: Env)
    requires OwnViews(views, t, avail, n, userID, env)
    ensures var c := CollectAll(t, avail, n, userID, env);
            GatherAll(views, avail, n, userID, env) == Gathered(c.avail, c.stop)
  {
    if n > 0 {
      AloneGathers(views, t, avail, n - 1, userID, env);
    }
  }

  /** A call that nobody writes beside replies as Service.Call computes. */
  lemma AloneIsCall(views: seq<Tables>, t: Tables, found: seq<Loaded>, hashes: seq<string>, userID: int, env: Env)
    requires !env.lookupFails && LinkAll(t, found, userID, env.linkBreaks).1.None?
    requires OwnViews(views, LinkAll(t, found, userID, env.linkBreaks).0, Available(found),
                      |Missing(hashes, Available(found))|, userID, env)
    ensures ReplyOn(views, found, hashes, userID, env) == Call(t, found, hashes, userID, env).1
  {
    var linked := LinkAll(t, found, userID, env.linkBreaks).0;
    AloneGathers(views, linked, Available(found), |Missing(hashes, Available(found))|, userID, env);
  }

  // ---------- what a call has seen ----------

  function OutOf(p: P.Phase): Option<P.Outcome> {
    match p
    case Leaving(out) => Some(out)
    case Returned(out) => Some(out)
    case _ => None
  }

  /** What the receiving select yielded for task k: its message; without one, the zero result if that is
      how the call ended, or else the done context. */
  function Arrived(q: P.Request, k: nat): Arrival {
    if k < |q.tasks| && q.tasks[k].ch.delivered != [] then Got(q.tasks[k].ch.delivered[0])
    else if OutOf(q.phase) == Some(P.NilDereference) then Got(ZERO_RESULT)
    else ContextDone
  }

  /** The surroundings of the call as its channels and its outcome tell; the database is that of base. */
  function Observed(q: P.Request, base: Env): Env {
    base.(arrives := (k: nat) => Arrived(q, k), refused := (k: nat) => OutOf(q.phase) == Some(P.Withdrawn))
  }

  /** The collecting loop of call q after n results, its stores having met views. */
  function Seen(q: P.Request, views: seq<Tables>, avail: map<string, Tx>, n: nat, userID: int, base: Env): Gathered {
    GatherAll(views, avail, n, userID, Observed(q, base))
  }

  lemma {:induction false} GatherSame(views: seq<Tables>, views': seq<Tables>, avail: map<string, Tx>, n: nat,
                                      userID: int, env: Env, env': Env)
    requires forall k: nat :: k < n ==> env.arrives(k) == env'.arrives(k) && env.faults(k) == env'.faults(k)
    requires forall k: nat :: k < n ==> ViewAt(views, k) == ViewAt(views', k)
    ensures GatherAll(views, avail, n, userID, env) == GatherAll(views', avail, n, userID, env')
  {
    if n > 0 {
      GatherSame(views, views', avail, n - 1, userID, env, env');
    }
  }

  /** Calls that received the same first n messages, and met the same tables, computed the same. */
  lemma SeenSame(q: P.Request, q': P.Request, views: seq<Tables>, views': seq<Tables>, avail: map<string, Tx>, n: nat,
                 userID: int, base: Env)
    requires forall k: nat :: k < n ==> Arrived(q, k) == Arrived(q', k)
    requires forall k: nat :: k < n ==> ViewAt(views, k) == ViewAt(views', k)
    ensures Seen(q, views, avail, n, userID, base) == Seen(q', views', avail, n, userID, base)
  {
    var env, env' := Observed(q, base), Observed(q', base);
    forall k: nat | k < n ensures env.arrives(k) == env'.arrives(k) && env.faults(k) == env'.faults(k) {
    }
    GatherSame(views, views', avail, n, userID, env, env');
  }

  /** The turn of the loop for result n. */
  function Turn(q: P.Request, views: seq<Tables>, avail: map<string, Tx>, n: nat, userID: int, base: Env): Collected {
    CollectOne(ViewAt(views, n), Seen(q, views, avail, n, userID, base).avail, userID, Arrived(q, n), base.faults(n))
  }

  /** One more result, none of which stopped the loop so far. */
  lemma SeenNext(q: P.Request, views: seq<Tables>, avail: map<string, Tx>, n: nat, userID: int, base: Env)
    requires Seen(q, views, avail, n, userID, base).stop.None?
    ensures var c := Turn(q, views, avail, n, userID, base);
            Seen(q, views, avail, n + 1, userID, base) == Gathered(c.avail, c.stop)
  {
  }

  lemma {:induction false} GatherStops(views: seq<Tables>, avail: map<string, Tx>, n: nat, userID: int, env: Env,
                                       i: nat)
    requires i <= n && GatherAll(views, avail, i, userID, env).stop.Some?
    ensures GatherAll(views, avail, n, userID, env) == GatherAll(views, avail, i, userID, env)
  {
    if i < n {
      GatherStops(views, avail, n - 1, userID, env, i);
    }
  }

  // ---------- phases and the collecting loop ----------

  /** How the collecting loop stops when a call that got there ends with out. */
  function StopOf(out: P.Outcome): Option<Failure> {
    match out
    case Success => None
    case Withdrawn => None
    case FetchFailed(err) => Some(FetchFailed(err))
    case StoreFailed => Some(StoreFailed)
    case Cancelled => Some(Cancelled)
    case NilDereference => Some(NilDereference)
  }

  ghost predicate Mirrors(q: P.Request, views: seq<Tables>, avail: map<string, Tx>, userID: int, base: Env) {
    match q.phase
    case Scheduling(_) => true
    case Receiving(n) => n <= |q.tasks| && Seen(q, views, avail, n, userID, base).stop.None?
    case Storing(n) => n < |q.tasks| && Seen(q, views, avail, n, userID, base).stop.None?
    case Leaving(out) => Ended(q, out, views, avail, userID, base)
    case Returned(out) => Ended(q, out, views, avail, userID, base)
  }

  ghost predicate Ended(q: P.Request, out: P.Outcome, views: seq<Tables>, avail: map<string, Tx>, userID: int,
                        base: Env)
  {
    if out.Withdrawn? then q.tasks != [] else Seen(q, views, avail, |q.tasks|, userID, base).stop == StopOf(out)
  }

  /** Nothing the call can see has changed. */
  ghost predicate SameView(q: P.Request, q': P.Request) {
    && q'.phase == q.phase && |q'.tasks| == |q.tasks|
    && forall k :: 0 <= k < |q.tasks| ==> q'.tasks[k].ch.delivered == q.tasks[k].ch.delivered
  }

  lemma SameViewMirrors(q: P.Request, q': P.Request, views: seq<Tables>, avail: map<string, Tx>, userID: int, base: Env)
    requires SameView(q, q') && Mirrors(q, views, avail, userID, base)
    ensures Mirrors(q', views, avail, userID, base)
  {
    forall k: nat ensures Arrived(q, k) == Arrived(q', k) {
    }
    match q.phase
    case Scheduling(_) =>
    case Receiving(n) => SeenSame(q, q', views, views, avail, n, userID, base);
    case Storing(n) => SeenSame(q, q', views, views, avail, n, userID, base);
    case Leaving(_) => SeenSame(q, q', views, views, avail, |q.tasks|, userID, base);
    case Returned(_) => SeenSame(q, q', views, views, avail, |q.tasks|, userID, base);
  }

  /** The loop stops at result n, and so it has stopped at the end. */
  lemma StopsAt(q: P.Request, views: seq<Tables>, avail: map<string, Tx>, n: nat, userID: int, base: Env)
    requires n < |q.tasks| && Seen(q, views, avail, n, userID, base).stop.None?
    requires Turn(q, views, avail, n, userID, base).stop.Some?
    ensures Seen(q, views, avail, |q.tasks|, userID, base).stop == Turn(q, views, avail, n, userID, base).stop
  {
    SeenNext(q, views, avail, n, userID, base);
    GatherStops(views, avail, |q.tasks|, userID, Observed(q, base), n + 1);
  }

  lemma DeliverMirrors(node: Node, q: P.Request, q': P.Request, res: TxResult, views: seq<Tables>,
                       avail: map<string, Tx>, userID: int, base: Env)
    requires Mirrors(q, views, avail, userID, base) && P.Receives(q) && Answers(node, q.tasks[q.phase.next].hash, res)
    requires PoolSafety.TakenUpTo(q.tasks, q.phase.next) && |q'.tasks| == |q.tasks|
    requires q'.phase == P.OnResult(q.phase.next, res) && q'.tasks[q.phase.next].ch.delivered == [res]
    requires forall k :: 0 <= k < |q.tasks| && k != q.phase.next ==> q'.tasks[k].ch.delivered == q.tasks[k].ch.delivered
    ensures Mirrors(q', views, avail, userID, base)
  {
    var n := q.phase.next;
    forall k: nat | k < n ensures Arrived(q, k) == Arrived(q', k) {
      assert PoolSafety.Taken(q.tasks[k]);
    }
    SeenSame(q, q', views, views, avail, n, userID, base);
    assert Arrived(q', n) == Got(res);
    if res.err.Some? {
      StopsAt(q', views, avail, n, userID, base);
    }
  }

  lemma ServeMirrors(node: Node, appDone: bool, q: P.Request, v: P.ServiceStep, views: seq<Tables>,
                     avail: map<string, Tx>, userID: int, base: Env)
    requires PoolSafety.RequestOk(node, appDone, q) && P.ServiceCan(q, v) && !v.Stored? && !v.StoreFails?
    requires Mirrors(q, views, avail, userID, base)
    ensures Mirrors(P.Served(q, v), views, avail, userID, base)
  {
    match v
    case ReceiveClosed => StopMirrors(q, P.Served(q, v), views, avail, userID, base);
    case SeeCancel => StopMirrors(q, P.Served(q, v), views, avail, userID, base);
    case AllScheduled =>
    case Complete => SeenSame(q, P.Served(q, v), views, views, avail, |q.tasks|, userID, base);
    case Return => SeenSame(q, P.Served(q, v), views, views, avail, |q.tasks|, userID, base);
  }

  /** The receive that ends the call without a message. */
  lemma StopMirrors(q: P.Request, q': P.Request, views: seq<Tables>, avail: map<string, Tx>, userID: int, base: Env)
    requires P.Receives(q) && PoolSafety.TakenUpTo(q.tasks, q.phase.next) && Mirrors(q, views, avail, userID, base)
    requires q'.tasks == q.tasks && (q'.phase == P.Leaving(P.NilDereference) || q'.phase == P.Leaving(P.Cancelled))
    ensures Mirrors(q', views, avail, userID, base)
  {
    var n := q.phase.next;
    forall k: nat | k < n ensures Arrived(q, k) == Arrived(q', k) {
      assert PoolSafety.Taken(q.tasks[k]);
    }
    SeenSame(q, q', views, views, avail, n, userID, base);
    StopsAt(q', views, avail, n, userID, base);
  }

  /** The shared tables take a record, or refuse it. */
  lemma StoreMirrors(node: Node, q: P.Request, v: P.ServiceStep, views: seq<Tables>, t: Tables, avail: map<string, Tx>,
                     userID: int, base: Env)
    requires q.phase.Storing? && q.phase.next == |views| && PoolSafety.TakenUpTo(q.tasks, q.phase.next + 1)
    requires PoolSafety.TaskOk(node, q.tasks[q.phase.next], q.mux) && Mirrors(q, views, avail, userID, base)
    requires (v.Stored? && S.StoreNow(t, q, S.Caller(userID, base.faults)).1)
             || (v.StoreFails? && !S.StoreNow(t, q, S.Caller(userID, base.faults)).1)
    ensures Mirrors(P.Served(q, v), views + [t], avail, userID, base)
  {
    var n, q', now := q.phase.next, P.Served(q, v), views + [t];
    assert PoolSafety.Taken(q.tasks[n]);
    SeenSame(q, q', views, now, avail, n, userID, base);
    assert ViewAt(now, n) == t && Arrived(q', n) == Arrived(q, n) == Got(q.tasks[n].ch.delivered[0]);
    if v.Stored? {
      SeenNext(q', now, avail, n, userID, base);
    } else {
      StopsAt(q', now, avail, n, userID, base);
    }
  }

  /** Steps of other calls, contexts, dispatcher, workers and limiter change nothing call r can see. */
  lemma OtherStep(cfg: P.Config, s: P.State, l: P.Label, r: nat)
    requires P.Enabled(cfg, s, l) && r < |s.reqs|
    requires !(l.Offer? && l.r == r) && !(l.Withdraw? && l.r == r)
    requires !(l.Deliver? && l.r == r) && !(l.Serve? && l.r == r)
    ensures r < |P.Next(cfg, s, l).reqs| && SameView(s.reqs[r], P.Next(cfg, s, l).reqs[r])
  {
    match l
    case Work(x, i, w) => WorkView(cfg, s, x, i, w, r);
    case Dispatch(d) => DispatchView(cfg, s, d, r);
    case _ =>
  }

  lemma WorkView(cfg: P.Config, s: P.State, x: nat, i: nat, w: P.WorkerStep, r: nat)
    requires P.Enabled(cfg, s, P.Work(x, i, w)) && r < |s.reqs|
    ensures var s' := P.Next(cfg, s, P.Work(x, i, w)); r < |s'.reqs| && SameView(s.reqs[r], s'.reqs[r])
  {
  }

  lemma DispatchView(cfg: P.Config, s: P.State, d: P.DispatcherStep, r: nat)
    requires P.Enabled(cfg, s, P.Dispatch(d)) && r < |s.reqs|
    ensures var s' := P.Next(cfg, s, P.Dispatch(d)); r < |s'.reqs| && SameView(s.reqs[r], s'.reqs[r])
  {
  }

  // ---------- every event ----------

  ghost predicate CallMirrors(w: S.World, r: nat, avail: map<string, Tx>, userID: int, base: Env) {
    r < |w.pool.reqs| && r < |w.views| && Mirrors(w.pool.reqs[r], w.views[r], avail, userID, base)
  }

  lemma StoreEventMirrors(u: S.Setup, t0: Tables, w: S.World, l: P.Label, avail: map<string, Tx>, base: Env)
    requires SharedLinks.Inv(u, t0, w) && S.Enabled(u, w, S.Move(l)) && S.IsStore(l)
    requires u.callers[l.r].faults == base.faults && CallMirrors(w, l.r, avail, u.callers[l.r].userID, base)
    ensures CallMirrors(S.Next(u, w, S.Move(l)), l.r, avail, u.callers[l.r].userID, base)
  {
    var q := w.pool.reqs[l.r];
    assert PoolSafety.RequestOk(u.cfg.node, w.pool.appDone, q) && S.Fit(q, |w.views[l.r]|);
    assert u.callers[l.r] == S.Caller(u.callers[l.r].userID, base.faults);
    StoreMirrors(u.cfg.node, q, l.v, w.views[l.r], w.t, avail, u.callers[l.r].userID, base);
  }

  lemma DeliverEventMirrors(cfg: P.Config, s: P.State, r: nat, views: seq<Tables>, avail: map<string, Tx>, userID: int,
                            base: Env)
    requires PoolSafety.Inv(cfg, s) && P.Enabled(cfg, s, P.Deliver(r)) && Mirrors(s.reqs[r], views, avail, userID, base)
    ensures Mirrors(P.Next(cfg, s, P.Deliver(r)).reqs[r], views, avail, userID, base)
  {
    var q, q' := s.reqs[r], P.Next(cfg, s, P.Deliver(r)).reqs[r];
    var n := q.phase.next;
    assert PoolSafety.RequestOk(cfg.node, s.appDone, q) && PoolSafety.TaskOk(cfg.node, q.tasks[n], q.mux);
    DeliverMirrors(cfg.node, q, q', P.Message(q.tasks[n]).value, views, avail, userID, base);
  }

  /** A step of the pool that is no store of call r. */
  lemma MoveMirrors(cfg: P.Config, s: P.State, l: P.Label, r: nat, views: seq<Tables>, avail: map<string, Tx>,
                    userID: int, base: Env)
    requires PoolSafety.Inv(cfg, s) && P.Enabled(cfg, s, l) && r < |s.reqs| && !(S.IsStore(l) && l.r == r)
    requires Mirrors(s.reqs[r], views, avail, userID, base)
    ensures r < |P.Next(cfg, s, l).reqs| && Mirrors(P.Next(cfg, s, l).reqs[r], views, avail, userID, base)
  {
    var q := s.reqs[r];
    if l == P.Offer(r) || l == P.Withdraw(r) {
    } else if l == P.Deliver(r) {
      DeliverEventMirrors(cfg, s, r, views, avail, userID, base);
    } else if l.Serve? && l.r == r {
      assert PoolSafety.RequestOk(cfg.node, s.appDone, q);
      ServeMirrors(cfg.node, s.appDone, q, l.v, views, avail, userID, base);
    } else {
      OtherStep(cfg, s, l, r);
      SameViewMirrors(q, P.Next(cfg, s, l).reqs[r], views, avail, userID, base);
    }
  }

  lemma EventMirrors(u: S.Setup, t0: Tables, w: S.World, e: S.Event, r: nat, avail: map<string, Tx>, base: Env)
    requires SharedLinks.Inv(u, t0, w) && S.Enabled(u, w, e) && r < |u.callers| && u.callers[r].faults == base.faults
    requires CallMirrors(w, r, avail, u.callers[r].userID, base)
    ensures CallMirrors(S.Next(u, w, e), r, avail, u.callers[r].userID, base)
  {
    if e.Move? {
      if S.IsStore(e.l) && e.l.r == r {
        StoreEventMirrors(u, t0, w, e.l, avail, base);
      } else {
        MoveMirrors(u.cfg, w.pool, e.l, r, w.views[r], avail, u.callers[r].userID, base);
      }
    }
  }

  lemma {:induction false} RunMirrors(u: S.Setup, t0: Tables, w: S.World, run: seq<S.Event>, r: nat,
                                      avail: map<string, Tx>, base: Env)
    requires SharedLinks.Inv(u, t0, w) && S.Executes(u, w, run) && r < |u.callers| && u.callers[r].faults == base.faults
    requires CallMirrors(w, r, avail, u.callers[r].userID, base)
    ensures CallMirrors(S.After(u, w, run), r, avail, u.callers[r].userID, base)
    decreases |run|
  {
    if run != [] {
      EventMirrors(u, t0, w, run[0], r, avail, base);
      SharedLinks.EventKeepsInv(u, t0, w, run[0]);
      RunMirrors(u, t0, S.Next(u, w, run[0]), run[1..], r, avail, base);
    }
  }

  // ---------- outcome and reply ----------

  function FailureOf(out: P.Outcome): Option<Failure> {
    if out.Withdrawn? then Some(ScheduleRefused) else StopOf(out)
  }

  /** What call r replies in world w: from the messages it received and the tables its stores met. */
  function ReplyIn(u: S.Setup, w: S.World, r: nat, found: seq<Loaded>, hashes: seq<string>, base: Env): Reply
    requires r < |w.pool.reqs| && r < |w.views| && r < |u.callers|
  {
    ReplyOn(w.views[r], found, hashes, u.callers[r].userID, Observed(w.pool.reqs[r], base))
  }

  /** In every run on the shared database the outcome the pool records for a call is the reply the call
      computes: success exactly for a list of records, and otherwise the same failure. */
  lemma OutcomeIsReply(u: S.Setup, maxCredits: nat, missing: seq<seq<string>>, t: Tables, run: seq<S.Event>, w: S.World,
                       r: nat, found: seq<Loaded>, hashes: seq<string>, base: Env)
    requires S.Reached(u, maxCredits, missing, t, run, w) && r < |missing| && u.callers[r].faults == base.faults
    requires missing[r] == Missing(hashes, Available(found))
    requires r < |w.pool.reqs| && OutOf(w.pool.reqs[r].phase).Some?
    ensures r < |w.views|
    ensures var out := OutOf(w.pool.reqs[r].phase).value;
            var reply := ReplyIn(u, w, r, found, hashes, base);
            && (reply.Records? <==> out.Success?)
            && (reply.Error? ==> Some(reply.why) == FailureOf(out))
  {
    var w0 := S.Start(maxCredits, missing, t);
    SharedLinks.ReachedInv(u, maxCredits, missing, t, [], w0);
    RunMirrors(u, t, w0, run, r, Available(found), base);
    S.PoolReached(u, maxCredits, missing, t, run, w);
    PoolRuns.RunKeepsCalls(u.cfg, w0.pool, S.Moves(run));
    var q, env := w.pool.reqs[r], Observed(w.pool.reqs[r], base);
    assert AnyRefused(|missing[r]|, env.refused) <==> OutOf(q.phase) == Some(P.Withdrawn) && missing[r] != [] by {
      if OutOf(q.phase) == Some(P.Withdrawn) && missing[r] != [] {
        assert env.refused(0);
      }
    }
  }
}
