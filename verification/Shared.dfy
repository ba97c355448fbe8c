/** The pool and one database: every call of a run stores into the same tables, one statement group at a
    time, and lookups of any call link stored rows at any moment. */
module Shared {
  import opened Prelude
  import opened Chain
  import opened Store
  import opened ReadThrough
  import P = Pool
  import PoolSafety
  import PoolProgress
  import PoolRuns

  /** For whom a call stores, and the faults its stores meet. */
  datatype Caller = Caller(userID: int, faults: nat -> Fault)

  /** looked holds the links that lookups made; views[x][k] are the tables that store k of call x met. */
  datatype World = World(pool: P.State, t: Tables, looked: set<(int, string)>, views: seq<seq<Tables>>)

  /** A step of the pool, or the link that a lookup gives a user to a stored row. */
  datatype Event = Move(l: P.Label) | Link(userID: int, hash: string)

  datatype Setup = Setup(cfg: P.Config, callers: seq<Caller>)

  /** Init of the pool beside tables t. */
  function Start(maxCredits: nat, missing: seq<seq<string>>, t: Tables): World {
    World(P.Init(maxCredits, missing), t, {}, seq(|missing|, _ => []))
  }

  // ---------- steps ----------

  predicate IsStore(l: P.Label) {
    l.Serve? && (l.v.Stored? || l.v.StoreFails?)
  }

  /** The record call q is storing. */
  function Held(q: P.Request): Option<Tx> {
    if q.phase.Storing? && q.phase.next < |q.tasks| && q.tasks[q.phase.next].ch.delivered != []
    then q.tasks[q.phase.next].ch.delivered[0].tx
    else None
  }

  /** What the database makes of it: InsertTransactions of one record, atomically. */
  function StoreNow(t: Tables, q: P.Request, c: Caller): (Tables, bool) {
    if Held(q).Some? then InsertOne(t, Held(q).value, c.userID, c.faults(q.phase.next)) else (t, false)
  }

  predicate Takes(u: Setup, w: World, x: nat) {
    x < |u.callers| && x < |w.pool.reqs| && StoreNow(w.t, w.pool.reqs[x], u.callers[x]).1
  }

  /** A store ends as the shared tables decide. */
  predicate Enabled(u: Setup, w: World, e: Event) {
    match e
    case Move(l) =>
      && P.Enabled(u.cfg, w.pool, l)
      && (IsStore(l) ==> l.r < |u.callers| && l.r < |w.views| && (l.v.Stored? <==> Takes(u, w, l.r)))
    case Link(userID, hash) => userID != NON_AUTHENTICATED_USER && userID in w.t.users && hash in w.t.rows
  }

  function Next(u: Setup, w: World, e: Event): World
    requires Enabled(u, w, e)
  {
    match e
    case Move(l) =>
      var pool := P.Next(u.cfg, w.pool, l);
      if IsStore(l) then
        World(pool, StoreNow(w.t, w.pool.reqs[l.r], u.callers[l.r]).0, w.looked,
              w.views[l.r := w.views[l.r] + [w.t]])
      else w.(pool := pool)
    case Link(userID, hash) =>
      w.(t := Linked(w.t, userID, hash), looked := w.looked + {(userID, hash)})
  }

  /** A Link is what a lookup does for a row that it found for a known user, in older tables perhaps. */
  lemma LinkIsLookup(u: Setup, w: World, userID: int, l: Loaded)
    requires Sound(w.t) && userID in w.t.users && userID != NON_AUTHENTICATED_USER && l.tx.hash in w.t.rows
    requires l.linked ==> (userID, l.tx.hash) in w.t.links
    ensures Enabled(u, w, Link(userID, l.tx.hash))
    ensures LinkOne(w.t, l, userID, false) == (Next(u, w, Link(userID, l.tx.hash)).t, true)
  {
    var h := l.tx.hash;
    assert (userID, h) in w.t.links ==> w.t.links + {(userID, h)} == w.t.links;
  }

  predicate Executes(u: Setup, w: World, run: seq<Event>)
    decreases |run|
  {
    run == [] || (Enabled(u, w, run[0]) && Executes(u, Next(u, w, run[0]), run[1..]))
  }

  function After(u: Setup, w: World, run: seq<Event>): World
    requires Executes(u, w, run)
    decreases |run|
  {
    if run == [] then w else After(u, Next(u, w, run[0]), run[1..])
  }

  // ---------- the pool's part of a run ----------

  function Moves(run: seq<Event>): seq<P.Label> {
    if run == [] then [] else (if run[0].Move? then [run[0].l] else []) + Moves(run[1..])
  }

  lemma {:induction false} Projects(u: Setup, w: World, run: seq<Event>)
    requires Executes(u, w, run)
    ensures P.Executes(u.cfg, w.pool, Moves(run))
    ensures P.After(u.cfg, w.pool, Moves(run)) == After(u, w, run).pool
    decreases |run|
  {
    if run != [] {
      Projects(u, Next(u, w, run[0]), run[1..]);
      if run[0].Move? {
        assert Moves(run)[1..] == Moves(run[1..]);
      } else {
        assert Moves(run) == Moves(run[1..]);
      }
    }
  }

  ghost predicate Reached(u: Setup, maxCredits: nat, missing: seq<seq<string>>, t: Tables, run: seq<Event>, w: World) {
    && maxCredits > 0 && |u.callers| == |missing|
    && Executes(u, Start(maxCredits, missing, t), run) && w == After(u, Start(maxCredits, missing, t), run)
  }

  lemma PoolReached(u: Setup, maxCredits: nat, missing: seq<seq<string>>, t: Tables, run: seq<Event>, w: World)
    requires Reached(u, maxCredits, missing, t, run, w)
    ensures PoolSafety.Reached(u.cfg, maxCredits, missing, Moves(run), w.pool)
    ensures PoolSafety.Inv(u.cfg, w.pool)
  {
    Projects(u, Start(maxCredits, missing, t), run);
    PoolSafety.ReachedInv(u.cfg, maxCredits, missing, Moves(run), w.pool);
  }

  // ---------- what a call stores ----------

  /** The record of missing hash k of call q, as the chain has it. */
  function RecordAt(node: Node, q: P.Request, k: nat): Option<Tx> {
    if k < |q.tasks| then ChainRecord(node, q.tasks[k].hash) else None
  }

  /** The call stores the chain record of the hash it scheduled. */
  lemma HeldIsRecord(cfg: P.Config, s: P.State, x: nat)
    requires PoolSafety.Inv(cfg, s) && x < |s.reqs| && s.reqs[x].phase.Storing?
    ensures var q := s.reqs[x];
            q.phase.next < |q.tasks| && Held(q).Some? && Held(q) == RecordAt(cfg.node, q, q.phase.next)
  {
    var q := s.reqs[x];
    assert PoolSafety.RequestOk(cfg.node, s.appDone, q);
    var n := q.phase.next;
    assert PoolSafety.TaskOk(cfg.node, q.tasks[n], q.mux) && PoolSafety.Taken(q.tasks[n]);
  }

  lemma InsertKeepsCoherent(node: Node, t: Tables, text: string, userID: int, fault: Fault)
    requires Faithful(node) && Coherent(node, t) && ChainRecord(node, text).Some?
    ensures Coherent(node, InsertOne(t, ChainRecord(node, text).value, userID, fault).0)
  {
    assert FaithfulAt(node, text);
    InsertOneKeepsSound(t, ChainRecord(node, text).value, userID, fault);
  }

  /** Every event keeps the shared tables a coherent cache of the chain. */
  lemma EventKeepsCoherent(u: Setup, w: World, e: Event)
    requires Faithful(u.cfg.node) && Coherent(u.cfg.node, w.t) && PoolSafety.Inv(u.cfg, w.pool) && Enabled(u, w, e)
    ensures Coherent(u.cfg.node, Next(u, w, e).t) && Next(u, w, e).t.users == w.t.users
  {
    if e.Move? && IsStore(e.l) {
      var q := w.pool.reqs[e.l.r];
      HeldIsRecord(u.cfg, w.pool, e.l.r);
      var n := q.phase.next;
      InsertKeepsCoherent(u.cfg.node, w.t, q.tasks[n].hash, u.callers[e.l.r].userID, u.callers[e.l.r].faults(n));
    }
  }

  lemma EventKeepsPoolInv(u: Setup, w: World, e: Event)
    requires PoolSafety.Inv(u.cfg, w.pool) && Enabled(u, w, e)
    ensures PoolSafety.Inv(u.cfg, Next(u, w, e).pool)
  {
    if e.Move? {
      PoolSafety.StepKeepsInv(u.cfg, w.pool, e.l);
    }
  }

  lemma {:induction false} RunKeepsCoherent(u: Setup, w: World, run: seq<Event>)
    requires Faithful(u.cfg.node) && Coherent(u.cfg.node, w.t) && PoolSafety.Inv(u.cfg, w.pool) && Executes(u, w, run)
    ensures Coherent(u.cfg.node, After(u, w, run).t) && After(u, w, run).t.users == w.t.users
    decreases |run|
  {
    if run != [] {
      EventKeepsCoherent(u, w, run[0]);
      EventKeepsPoolInv(u, w, run[0]);
      RunKeepsCoherent(u, Next(u, w, run[0]), run[1..]);
    }
  }

  /** The shared store stays a coherent cache of the chain in every run of any calls, failed and cancelled
      ones included, whoever stores and links in between. */
  lemma SharedStaysCoherent(u: Setup, maxCredits: nat, missing: seq<seq<string>>, t: Tables, run: seq<Event>, w: World)
    requires Reached(u, maxCredits, missing, t, run, w) && Faithful(u.cfg.node) && Coherent(u.cfg.node, t)
    ensures Coherent(u.cfg.node, w.t) && w.t.users == t.users
  {
    PoolSafety.InitInv(u.cfg, maxCredits, missing);
    RunKeepsCoherent(u, Start(maxCredits, missing, t), run);
  }

  // ---------- phases and stores ----------

  /** How many stores a call in this phase has tried. */
  predicate Fit(q: P.Request, n: nat) {
    match q.phase
    case Scheduling(_) => n == 0
    case Receiving(k) => n == k <= |q.tasks|
    case Storing(k) => n == k < |q.tasks|
    case Leaving(out) => FitOut(q, out, n)
    case Returned(out) => FitOut(q, out, n)
  }

  predicate FitOut(q: P.Request, out: P.Outcome, n: nat) {
    n <= |q.tasks| && (out.Success? ==> n == |q.tasks|) && (out.StoreFailed? ==> n > 0)
  }

  /** How many of n tries succeeded. */
  function Kept(q: P.Request, n: nat): nat {
    if PoolRuns.RefusedBy(q.phase) && n > 0 then n - 1 else n
  }

  /** A step that is no store of call x changes neither its hashes nor what it has stored. */
  ghost predicate SameStores(q: P.Request, q': P.Request) {
    && PoolRuns.SameHashes(q.tasks, q'.tasks)
    && (PoolRuns.RefusedBy(q.phase) <==> PoolRuns.RefusedBy(q'.phase))
    && forall n :: Fit(q, n) ==> Fit(q', n)
  }

  lemma ServedSameStores(node: Node, appDone: bool, q: P.Request, v: P.ServiceStep)
    requires PoolSafety.RequestOk(node, appDone, q) && P.ServiceCan(q, v) && !v.Stored? && !v.StoreFails?
    ensures SameStores(q, P.Served(q, v))
  {
  }

  lemma DeliverSameStores(cfg: P.Config, s: P.State, x: nat)
    requires PoolSafety.Inv(cfg, s) && P.Enabled(cfg, s, P.Deliver(x))
    ensures SameStores(s.reqs[x], P.Next(cfg, s, P.Deliver(x)).reqs[x])
  {
    assert PoolSafety.RequestOk(cfg.node, s.appDone, s.reqs[x]);
  }

  lemma TaskStepSameStores(cfg: P.Config, s: P.State, l: P.Label, x: nat)
    requires P.Enabled(cfg, s, l) && x < |s.reqs| && (l.Work? || l.Dispatch?)
    ensures x < |P.Next(cfg, s, l).reqs| && SameStores(s.reqs[x], P.Next(cfg, s, l).reqs[x])
  {
  }

  lemma OtherStepSameCall(cfg: P.Config, s: P.State, l: P.Label, x: nat)
    requires P.Enabled(cfg, s, l) && x < |s.reqs| && !l.Work? && !l.Dispatch?
    requires (l.Deliver? || l.Serve? || l.Offer? || l.Withdraw?) ==> l.r != x
    ensures x < |P.Next(cfg, s, l).reqs|
    ensures var q := P.Next(cfg, s, l).reqs[x]; q.phase == s.reqs[x].phase && q.tasks == s.reqs[x].tasks
  {
  }

  lemma ScheduleSameStores(cfg: P.Config, s: P.State, l: P.Label, x: nat)
    requires P.Enabled(cfg, s, l) && x < |s.reqs| && (l == P.Offer(x) || l == P.Withdraw(x))
    ensures x < |P.Next(cfg, s, l).reqs| && SameStores(s.reqs[x], P.Next(cfg, s, l).reqs[x])
  {
  }

  lemma StepSameStores(cfg: P.Config, s: P.State, l: P.Label, x: nat)
    requires PoolSafety.Inv(cfg, s) && P.Enabled(cfg, s, l) && x < |s.reqs| && !(IsStore(l) && l.r == x)
    ensures x < |P.Next(cfg, s, l).reqs| && SameStores(s.reqs[x], P.Next(cfg, s, l).reqs[x])
  {
    if l.Work? || l.Dispatch? {
      TaskStepSameStores(cfg, s, l, x);
    } else if l == P.Deliver(x) {
      DeliverSameStores(cfg, s, x);
    } else if l == P.Offer(x) || l == P.Withdraw(x) {
      ScheduleSameStores(cfg, s, l, x);
    } else if l.Serve? && l.r == x {
      assert PoolSafety.RequestOk(cfg.node, s.appDone, s.reqs[x]);
      ServedSameStores(cfg.node, s.appDone, s.reqs[x], l.v);
    } else {
      OtherStepSameCall(cfg, s, l, x);
    }
  }
}
