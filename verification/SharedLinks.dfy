/** Where the links of the shared tables come from, and which stores they refuse. */
module SharedLinks {
  import opened Prelude
  import opened Chain
  import opened Store
  import opened ReadThrough
  import opened Shared
  import P = Pool
  import PoolSafety
  import PoolRuns
  import R = Repeats

  function HashAt(node: Node, q: P.Request, k: nat): Option<string> {
    var r := RecordAt(node, q, k);
    if r.Some? then Some(r.value.hash) else None
  }

  /** Call x has stored a record with hash h, at one of its first n stores. */
  ghost predicate StoredAmong(node: Node, q: P.Request, n: nat, h: string) {
    exists k: nat :: k < n && HashAt(node, q, k) == Some(h)
  }

  function KeptBy(w: World, x: nat): nat
    requires x < |w.views| && x < |w.pool.reqs|
  {
    Kept(w.pool.reqs[x], |w.views[x]|)
  }

  /** Every call has a history that fits its phase. */
  ghost predicate Shape(u: Setup, w: World) {
    && |w.views| == |w.pool.reqs| == |u.callers|
    && forall x :: 0 <= x < |w.views| ==> Fit(w.pool.reqs[x], |w.views[x]|)
  }

  /** Whether the tables that store k of call x met take its record. */
  predicate TookAt(u: Setup, w: World, x: nat, k: nat)
    requires x < |w.views| && x < |w.pool.reqs| && x < |u.callers| && k < |w.views[x]|
  {
    var r, c := RecordAt(u.cfg.node, w.pool.reqs[x], k), u.callers[x];
    r.Some? && InsertOne(w.views[x][k], r.value, c.userID, c.faults(k)).1
  }

  /** The tables met decided each store of call x. */
  ghost predicate Verdicts(u: Setup, w: World, x: nat)
    requires x < |w.views| && x < |w.pool.reqs| && x < |u.callers|
  {
    forall k: nat :: k < |w.views[x]| ==> (TookAt(u, w, x, k) <==> k < KeptBy(w, x))
  }

  /** Some call of this user has stored h. */
  ghost predicate StoredFor(u: Setup, w: World, userID: int, h: string)
    requires Shape(u, w)
  {
    exists x: nat :: x < |u.callers| && u.callers[x].userID == userID
                     && StoredAmong(u.cfg.node, w.pool.reqs[x], KeptBy(w, x), h)
  }

  /** A link was there before, or a lookup made it, or a call of its user stored the record. */
  ghost predicate Origin(u: Setup, t0: Tables, w: World, userID: int, h: string)
    requires Shape(u, w)
  {
    (userID, h) in w.t.links
    <==> (userID, h) in t0.links || (userID, h) in w.looked || StoredFor(u, w, userID, h)
  }

  /** Two stores of one user that succeeded were of different records. */
  ghost predicate NotTwice(u: Setup, w: World, x: nat, i: nat, y: nat, j: nat)
    requires Shape(u, w)
  {
    x < |u.callers| && y < |u.callers| && (x != y || i != j) && i < KeptBy(w, x) && j < KeptBy(w, y)
    && u.callers[x].userID == u.callers[y].userID != NON_AUTHENTICATED_USER
    ==> HashAt(u.cfg.node, w.pool.reqs[x], i) != HashAt(u.cfg.node, w.pool.reqs[y], j)
  }

  ghost predicate Inv(u: Setup, t0: Tables, w: World) {
    && PoolSafety.Inv(u.cfg, w.pool) && Shape(u, w)
    && (forall x :: 0 <= x < |w.views| ==> Verdicts(u, w, x))
    && (forall userID, h :: userID != NON_AUTHENTICATED_USER ==> Origin(u, t0, w, userID, h))
    && (forall x: nat, i: nat, y: nat, j: nat :: NotTwice(u, w, x, i, y, j))
  }

  // ---------- steps that store nothing ----------

  ghost predicate SameCall(w: World, w': World, x: nat) {
    && x < |w.views| && x < |w.pool.reqs| && x < |w'.views| && x < |w'.pool.reqs|
    && w'.views[x] == w.views[x] && SameStores(w.pool.reqs[x], w'.pool.reqs[x])
  }

  lemma SameCallKeeps(u: Setup, w: World, w': World, x: nat)
    requires Shape(u, w) && Shape(u, w') && SameCall(w, w', x) && x < |u.callers|
    ensures KeptBy(w', x) == KeptBy(w, x) && (Verdicts(u, w, x) ==> Verdicts(u, w', x))
    ensures forall k: nat :: HashAt(u.cfg.node, w'.pool.reqs[x], k) == HashAt(u.cfg.node, w.pool.reqs[x], k)
    ensures forall n: nat, h ::
              StoredAmong(u.cfg.node, w'.pool.reqs[x], n, h) == StoredAmong(u.cfg.node, w.pool.reqs[x], n, h)
  {
    var q, q' := w.pool.reqs[x], w'.pool.reqs[x];
    assert forall k: nat :: RecordAt(u.cfg.node, q', k) == RecordAt(u.cfg.node, q, k);
    assert forall k: nat :: HashAt(u.cfg.node, q', k) == HashAt(u.cfg.node, q, k);
    if Verdicts(u, w, x) {
      forall k: nat | k < |w'.views[x]| ensures TookAt(u, w', x, k) <==> k < KeptBy(w', x) {
        assert TookAt(u, w', x, k) == TookAt(u, w, x, k);
      }
    }
  }

  /** Nobody stores; perhaps a lookup links. */
  lemma QuietKeepsInv(u: Setup, t0: Tables, w: World, w': World)
    requires Inv(u, t0, w) && PoolSafety.Inv(u.cfg, w'.pool)
    requires |w'.pool.reqs| == |w.pool.reqs| && |w'.views| == |w.views|
    requires forall x: nat :: x < |w.views| ==> SameCall(w, w', x)
    requires forall userID, h :: userID != NON_AUTHENTICATED_USER ==>
               ((userID, h) in w'.t.links <==> (userID, h) in w.t.links || (userID, h) in w'.looked)
    requires forall l :: l in w.looked ==> l in w'.looked
    ensures Inv(u, t0, w')
  {
    forall x | 0 <= x < |w'.views| ensures Fit(w'.pool.reqs[x], |w'.views[x]|) {
      assert SameCall(w, w', x) && Fit(w.pool.reqs[x], |w.views[x]|);
    }
    forall x: nat | x < |w.views|
      ensures Verdicts(u, w', x) && KeptBy(w', x) == KeptBy(w, x)
      ensures forall k: nat :: HashAt(u.cfg.node, w'.pool.reqs[x], k) == HashAt(u.cfg.node, w.pool.reqs[x], k)
      ensures forall n: nat, h ::
                StoredAmong(u.cfg.node, w'.pool.reqs[x], n, h) == StoredAmong(u.cfg.node, w.pool.reqs[x], n, h)
    {
      SameCallKeeps(u, w, w', x);
    }
    forall userID, h | userID != NON_AUTHENTICATED_USER ensures Origin(u, t0, w', userID, h) {
      assert Origin(u, t0, w, userID, h);
      assert StoredFor(u, w', userID, h) == StoredFor(u, w, userID, h);
    }
    forall x: nat, i: nat, y: nat, j: nat ensures NotTwice(u, w', x, i, y, j) {
      assert NotTwice(u, w, x, i, y, j);
    }
  }

  // ---------- a store ----------

  /** What changes when call r stores, or fails to store, its record n. */
  ghost predicate StoreOf(u: Setup, w: World, w': World, r: nat, took: bool) {
    && Shape(u, w) && r < |u.callers| && w.pool.reqs[r].phase.Storing?
    && Shape(u, w') && w'.looked == w.looked && w'.views == w.views[r := w.views[r] + [w.t]]
    && w'.pool.reqs[r].tasks == w.pool.reqs[r].tasks
    && (forall x: nat :: x < |w.views| && x != r ==> w'.pool.reqs[x] == w.pool.reqs[x])
    && (PoolRuns.RefusedBy(w'.pool.reqs[r].phase) <==> !took)
    && var n, c := |w.views[r]|, u.callers[r];
       && HashAt(u.cfg.node, w.pool.reqs[r], n).Some?
       && var tx := RecordAt(u.cfg.node, w.pool.reqs[r], n).value;
          (w'.t, took) == InsertOne(w.t, tx, c.userID, c.faults(n))
  }

  lemma StoreSteps(u: Setup, t0: Tables, w: World, l: P.Label)
    requires Inv(u, t0, w) && Enabled(u, w, Move(l)) && IsStore(l)
    ensures StoreOf(u, w, Next(u, w, Move(l)), l.r, l.v.Stored?)
  {
    var w' := Next(u, w, Move(l));
    var q := w.pool.reqs[l.r];
    HeldIsRecord(u.cfg, w.pool, l.r);
    assert Fit(q, |w.views[l.r]|) && q.phase.next == |w.views[l.r]|;
    assert w'.pool.reqs == w.pool.reqs[l.r := P.Served(q, l.v)];
    forall x | 0 <= x < |w'.views| ensures Fit(w'.pool.reqs[x], |w'.views[x]|) {
      assert Fit(w.pool.reqs[x], |w.views[x]|);
    }
  }

  lemma StoreKept(u: Setup, w: World, w': World, r: nat, took: bool)
    requires StoreOf(u, w, w', r, took)
    ensures KeptBy(w, r) == |w.views[r]| && KeptBy(w', r) == |w.views[r]| + (if took then 1 else 0)
    ensures forall x: nat :: x < |w.views| && x != r ==> KeptBy(w', x) == KeptBy(w, x)
    ensures forall x: nat, k: nat :: x < |w.views| ==>
              HashAt(u.cfg.node, w'.pool.reqs[x], k) == HashAt(u.cfg.node, w.pool.reqs[x], k)
  {
    forall x: nat, k: nat | x < |w.views|
      ensures HashAt(u.cfg.node, w'.pool.reqs[x], k) == HashAt(u.cfg.node, w.pool.reqs[x], k)
    {
      assert w'.pool.reqs[x].tasks == w.pool.reqs[x].tasks;
    }
  }

  lemma StoreVerdicts(u: Setup, w: World, w': World, r: nat, took: bool, x: nat)
    requires StoreOf(u, w, w', r, took) && x < |w.views| && Verdicts(u, w, x)
    ensures Verdicts(u, w', x)
  {
    StoreKept(u, w, w', r, took);
    assert w'.pool.reqs[x].tasks == w.pool.reqs[x].tasks;
    forall k: nat | k < |w'.views[x]| ensures TookAt(u, w', x, k) <==> k < KeptBy(w', x) {
      if k < |w.views[x]| {
        assert w'.views[x][k] == w.views[x][k];
        assert TookAt(u, w', x, k) == TookAt(u, w, x, k);
      } else {
        assert x == r && w'.views[x][k] == w.t;
      }
    }
  }

  /** The new record's hash, if it was stored. */
  lemma StoreLinks(u: Setup, w: World, w': World, r: nat, took: bool, userID: int, h: string)
    requires StoreOf(u, w, w', r, took) && userID != NON_AUTHENTICATED_USER
    ensures (userID, h) in w'.t.links
            <==> (userID, h) in w.t.links
                 || (took && userID == u.callers[r].userID
                     && HashAt(u.cfg.node, w.pool.reqs[r], |w.views[r]|) == Some(h))
    ensures took && userID == u.callers[r].userID && HashAt(u.cfg.node, w.pool.reqs[r], |w.views[r]|) == Some(h) ==>
              (userID, h) !in w.t.links
  {
  }

  lemma StoreOrigin(u: Setup, t0: Tables, w: World, w': World, r: nat, took: bool, userID: int, h: string)
    requires StoreOf(u, w, w', r, took) && userID != NON_AUTHENTICATED_USER && Origin(u, t0, w, userID, h)
    ensures Origin(u, t0, w', userID, h)
  {
    StoreKept(u, w, w', r, took);
    StoreLinks(u, w, w', r, took, userID, h);
    var node, n := u.cfg.node, |w.views[r]|;
    forall x: nat | x < |u.callers|
      ensures StoredAmong(node, w'.pool.reqs[x], KeptBy(w', x), h)
              <==> StoredAmong(node, w.pool.reqs[x], KeptBy(w, x), h)
                   || (x == r && took && HashAt(node, w.pool.reqs[r], n) == Some(h))
    {
      StoreStoredAmong(u, w, w', r, took, x, h);
    }
  }

  lemma StoreStoredAmong(u: Setup, w: World, w': World, r: nat, took: bool, x: nat, h: string)
    requires StoreOf(u, w, w', r, took) && x < |u.callers|
    ensures var node, n := u.cfg.node, |w.views[r]|;
            StoredAmong(node, w'.pool.reqs[x], KeptBy(w', x), h)
            <==> StoredAmong(node, w.pool.reqs[x], KeptBy(w, x), h)
                 || (x == r && took && HashAt(node, w.pool.reqs[r], n) == Some(h))
  {
    StoreKept(u, w, w', r, took);
    var node, q, q' := u.cfg.node, w.pool.reqs[x], w'.pool.reqs[x];
    if StoredAmong(node, q, KeptBy(w, x), h) {
      var k: nat :| k < KeptBy(w, x) && HashAt(node, q, k) == Some(h);
      assert HashAt(node, q', k) == Some(h);
    }
    if StoredAmong(node, q', KeptBy(w', x), h) {
      var k: nat :| k < KeptBy(w', x) && HashAt(node, q', k) == Some(h);
      assert HashAt(node, q, k) == Some(h);
    }
    assert HashAt(node, q', |w.views[r]|) == HashAt(node, q, |w.views[r]|);
  }

  /** A record that is stored now was not stored before for the same user. */
  lemma StoreIsNew(u: Setup, t0: Tables, w: World, w': World, r: nat, y: nat, j: nat)
    requires StoreOf(u, w, w', r, true) && u.callers[r].userID != NON_AUTHENTICATED_USER
    requires Origin(u, t0, w, u.callers[r].userID, HashAt(u.cfg.node, w.pool.reqs[r], |w.views[r]|).value)
    requires y < |u.callers| && u.callers[y].userID == u.callers[r].userID && j < KeptBy(w, y)
    ensures HashAt(u.cfg.node, w.pool.reqs[y], j) != HashAt(u.cfg.node, w.pool.reqs[r], |w.views[r]|)
  {
    var h := HashAt(u.cfg.node, w.pool.reqs[r], |w.views[r]|).value;
    StoreLinks(u, w, w', r, true, u.callers[r].userID, h);
    assert !StoredFor(u, w, u.callers[r].userID, h);
    assert !StoredAmong(u.cfg.node, w.pool.reqs[y], KeptBy(w, y), h);
  }

  lemma StoreNotTwice(u: Setup, t0: Tables, w: World, w': World, r: nat, took: bool, x: nat, i: nat, y: nat, j: nat)
    requires StoreOf(u, w, w', r, took) && Inv(u, t0, w)
    ensures NotTwice(u, w', x, i, y, j)
  {
    StoreKept(u, w, w', r, took);
    assert NotTwice(u, w, x, i, y, j);
    if x < |u.callers| && y < |u.callers| && (x != y || i != j) && i < KeptBy(w', x) && j < KeptBy(w', y)
       && u.callers[x].userID == u.callers[y].userID != NON_AUTHENTICATED_USER
    {
      if i >= KeptBy(w, x) {
        assert x == r && i == |w.views[r]| && j < KeptBy(w, y);
        assert Origin(u, t0, w, u.callers[r].userID, HashAt(u.cfg.node, w.pool.reqs[r], |w.views[r]|).value);
        StoreIsNew(u, t0, w, w', r, y, j);
      } else if j >= KeptBy(w, y) {
        assert y == r && j == |w.views[r]|;
        assert Origin(u, t0, w, u.callers[r].userID, HashAt(u.cfg.node, w.pool.reqs[r], |w.views[r]|).value);
        StoreIsNew(u, t0, w, w', r, x, i);
      }
    }
  }

  lemma StoreKeepsInv(u: Setup, t0: Tables, w: World, l: P.Label)
    requires Inv(u, t0, w) && Enabled(u, w, Move(l)) && IsStore(l)
    ensures Inv(u, t0, Next(u, w, Move(l)))
  {
    var w', r, took := Next(u, w, Move(l)), l.r, l.v.Stored?;
    EventKeepsPoolInv(u, w, Move(l));
    StoreSteps(u, t0, w, l);
    forall x | 0 <= x < |w'.views| ensures Verdicts(u, w', x) {
      StoreVerdicts(u, w, w', r, took, x);
    }
    forall userID, h | userID != NON_AUTHENTICATED_USER ensures Origin(u, t0, w', userID, h) {
      StoreOrigin(u, t0, w, w', r, took, userID, h);
    }
    forall x: nat, i: nat, y: nat, j: nat ensures NotTwice(u, w', x, i, y, j) {
      StoreNotTwice(u, t0, w, w', r, took, x, i, y, j);
    }
  }

  // ---------- every run ----------

  lemma EventKeepsInv(u: Setup, t0: Tables, w: World, e: Event)
    requires Inv(u, t0, w) && Enabled(u, w, e)
    ensures Inv(u, t0, Next(u, w, e))
  {
    if e.Move? && IsStore(e.l) {
      StoreKeepsInv(u, t0, w, e.l);
    } else {
      var w' := Next(u, w, e);
      EventKeepsPoolInv(u, w, e);
      if e.Move? {
        PoolRuns.StepKeepsCalls(u.cfg, w.pool, e.l);
      }
      forall x: nat | x < |w.views| ensures SameCall(w, w', x) {
        if e.Move? {
          StepSameStores(u.cfg, w.pool, e.l, x);
        }
      }
      LookedAreLinks(u, t0, w);
      QuietKeepsInv(u, t0, w, w');
    }
  }

  lemma LookedAreLinks(u: Setup, t0: Tables, w: World)
    requires Inv(u, t0, w)
    ensures forall userID, h :: userID != NON_AUTHENTICATED_USER && (userID, h) in w.looked ==> (userID, h) in w.t.links
  {
    forall userID, h | userID != NON_AUTHENTICATED_USER && (userID, h) in w.looked ensures (userID, h) in w.t.links {
      assert Origin(u, t0, w, userID, h);
    }
  }

  lemma {:induction false} RunKeepsInv(u: Setup, t0: Tables, w: World, run: seq<Event>)
    requires Inv(u, t0, w) && Executes(u, w, run)
    ensures Inv(u, t0, After(u, w, run))
    decreases |run|
  {
    if run != [] {
      EventKeepsInv(u, t0, w, run[0]);
      RunKeepsInv(u, t0, Next(u, w, run[0]), run[1..]);
    }
  }

  lemma ReachedInv(u: Setup, maxCredits: nat, missing: seq<seq<string>>, t: Tables, run: seq<Event>, w: World)
    requires Reached(u, maxCredits, missing, t, run, w)
    ensures Inv(u, t, w)
  {
    var w0 := Start(maxCredits, missing, t);
    PoolSafety.InitInv(u.cfg, maxCredits, missing);
    forall userID, h ensures Origin(u, t, w0, userID, h) {
    }
    RunKeepsInv(u, t, w0, run);
  }
}
