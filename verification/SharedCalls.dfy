/** Which calls on one database are answered. */
module SharedCalls {
  import opened Prelude
  import opened Chain
  import opened Store
  import opened ReadThrough
  import opened Shared
  import opened SharedLinks
  import P = Pool
  import PoolSafety
  import PoolProgress
  import PoolRuns
  import R = Repeats

  // ---------- the calls of a run ----------

  /** The calls of w are those that miss these hashes. */
  ghost predicate Asks(w: World, missing: seq<seq<string>>) {
    |w.pool.reqs| == |missing| && forall x :: 0 <= x < |missing| ==> AsksFor(w.pool.reqs[x], missing[x])
  }

  ghost predicate AsksFor(q: P.Request, hashes: seq<string>) {
    |q.tasks| == |hashes| && forall k :: 0 <= k < |hashes| ==> q.tasks[k].hash == hashes[k]
  }

  lemma EventKeepsAsks(u: Setup, w: World, e: Event, missing: seq<seq<string>>)
    requires Enabled(u, w, e) && Asks(w, missing)
    ensures Asks(Next(u, w, e), missing)
  {
    if e.Move? {
      PoolRuns.StepKeepsCalls(u.cfg, w.pool, e.l);
      var s, s' := w.pool, Next(u, w, e).pool;
      forall x | 0 <= x < |missing| ensures AsksFor(s'.reqs[x], missing[x]) {
        assert AsksFor(s.reqs[x], missing[x]);
        forall k | 0 <= k < |missing[x]| ensures s'.reqs[x].tasks[k].hash == missing[x][k] {
          assert P.HasTask(s, x, k) && P.TaskAt(s', x, k).hash == P.TaskAt(s, x, k).hash;
        }
      }
    }
  }

  lemma AskedHash(node: Node, q: P.Request, hashes: seq<string>, k: nat)
    requires AsksFor(q, hashes)
    ensures HashAt(node, q, k) == if k < |hashes| then HashOf(node, hashes[k]) else None
  {
  }

  lemma AskedAmong(node: Node, q: P.Request, hashes: seq<string>, n: nat, h: string)
    requires AsksFor(q, hashes) && n <= |hashes|
    ensures StoredAmong(node, q, n, h) <==> Fetched(node, hashes, n, h)
  {
    forall k: nat | k < n ensures HashAt(node, q, k) == HashOf(node, hashes[k]) {
      AskedHash(node, q, hashes, k);
    }
    if Fetched(node, hashes, n, h) {
      var k :| 0 <= k < n && HashOf(node, hashes[k]) == Some(h);
      assert HashAt(node, q, k) == Some(h);
    }
  }

  lemma FetchedGrows(node: Node, hashes: seq<string>, n: nat, h: string)
    requires n <= |hashes|
    ensures Fetched(node, hashes, n, h) ==> Fetched(node, hashes, |hashes|, h)
  {
  }

  // ---------- the tables that stores met ----------

  /** The tables met have the users of the start and no link that is not there now. */
  ghost predicate ViewsPast(t0: Tables, w: World) {
    && w.t.users == t0.users
    && forall x, k :: 0 <= x < |w.views| && 0 <= k < |w.views[x]| ==> ViewPast(t0, w.views[x][k], w.t)
  }

  ghost predicate ViewPast(t0: Tables, v: Tables, t: Tables) {
    v.users == t0.users && v.links <= t.links
  }

  /** No lookup links, and no other call of its user asks for, a record that call r misses. */
  ghost predicate Private(u: Setup, missing: seq<seq<string>>, w: World, r: nat)
    requires r < |missing| == |u.callers|
  {
    forall k :: 0 <= k < |missing[r]| ==> PrivateRecord(u, missing, w, r, HashOf(u.cfg.node, missing[r][k]))
  }

  ghost predicate PrivateRecord(u: Setup, missing: seq<seq<string>>, w: World, r: nat, h: Option<string>)
    requires r < |missing| == |u.callers|
  {
    h.Some? ==>
      && (u.callers[r].userID, h.value) !in w.looked
      && forall x :: 0 <= x < |missing| && x != r && u.callers[x].userID == u.callers[r].userID ==>
           !Fetched(u.cfg.node, missing[x], |missing[x]|, h.value)
  }

  /** The links that the stores of a private call met are those of the start and its own. */
  ghost predicate ViewsPrivate(u: Setup, missing: seq<seq<string>>, t0: Tables, w: World, r: nat)
    requires r < |missing| == |u.callers| && r < |w.views| && |w.views[r]| <= |missing[r]|
  {
    forall k: nat :: k < |w.views[r]| ==> ViewPrivate(u, missing, t0, w.views[r][k], r, k)
  }

  ghost predicate ViewPrivate(u: Setup, missing: seq<seq<string>>, t0: Tables, v: Tables, r: nat, k: nat)
    requires r < |missing| == |u.callers| && k < |missing[r]|
  {
    var h, userID := HashOf(u.cfg.node, missing[r][k]), u.callers[r].userID;
    h.Some? ==> ((userID, h.value) in v.links
                 <==> (userID, h.value) in t0.links || Fetched(u.cfg.node, missing[r], k, h.value))
  }

  /** A private record is linked only by call r itself. */
  lemma PrivateLink(u: Setup, missing: seq<seq<string>>, t0: Tables, w: World, r: nat, n: nat)
    requires Inv(u, t0, w) && Asks(w, missing) && r < |missing| && n == KeptBy(w, r) < |missing[r]|
    requires u.callers[r].userID != NON_AUTHENTICATED_USER
    requires PrivateRecord(u, missing, w, r, HashOf(u.cfg.node, missing[r][n]))
    ensures ViewPrivate(u, missing, t0, w.t, r, n)
  {
    var hash, userID := HashOf(u.cfg.node, missing[r][n]), u.callers[r].userID;
    if hash.Some? {
      var h := hash.value;
      assert Origin(u, t0, w, userID, h);
      forall x: nat | x < |u.callers| && u.callers[x].userID == userID
        ensures StoredAmong(u.cfg.node, w.pool.reqs[x], KeptBy(w, x), h)
                <==> x == r && Fetched(u.cfg.node, missing[r], n, h)
      {
        assert AsksFor(w.pool.reqs[x], missing[x]) && Fit(w.pool.reqs[x], |w.views[x]|);
        AskedAmong(u.cfg.node, w.pool.reqs[x], missing[x], KeptBy(w, x), h);
        FetchedGrows(u.cfg.node, missing[x], KeptBy(w, x), h);
      }
    }
  }

  ghost predicate Met(u: Setup, missing: seq<seq<string>>, t0: Tables, w: World, r: nat) {
    && Inv(u, t0, w) && Asks(w, missing) && r < |missing| && ViewsPast(t0, w) && |w.views[r]| <= |missing[r]|
    && (u.callers[r].userID != NON_AUTHENTICATED_USER && Private(u, missing, w, r) ==>
          ViewsPrivate(u, missing, t0, w, r))
  }

  lemma EventKeepsPast(u: Setup, t0: Tables, w: World, e: Event)
    requires Enabled(u, w, e) && ViewsPast(t0, w)
    ensures ViewsPast(t0, Next(u, w, e))
  {
    var w' := Next(u, w, e);
    assert w.t.links <= w'.t.links && w'.t.users == w.t.users;
    forall x, k | 0 <= x < |w'.views| && 0 <= k < |w'.views[x]| ensures ViewPast(t0, w'.views[x][k], w'.t) {
      if x < |w.views| && k < |w.views[x]| {
        assert w'.views[x][k] == w.views[x][k] && ViewPast(t0, w.views[x][k], w.t);
      }
    }
  }

  lemma EventKeepsPrivate(u: Setup, missing: seq<seq<string>>, t0: Tables, w: World, e: Event, r: nat)
    requires Met(u, missing, t0, w, r) && Enabled(u, w, e) && Asks(Next(u, w, e), missing) && Inv(u, t0, Next(u, w, e))
    requires u.callers[r].userID != NON_AUTHENTICATED_USER && Private(u, missing, Next(u, w, e), r)
    requires |Next(u, w, e).views[r]| <= |missing[r]|
    ensures ViewsPrivate(u, missing, t0, Next(u, w, e), r)
  {
    var w' := Next(u, w, e);
    forall k | 0 <= k < |missing[r]| ensures PrivateRecord(u, missing, w, r, HashOf(u.cfg.node, missing[r][k])) {
      assert PrivateRecord(u, missing, w', r, HashOf(u.cfg.node, missing[r][k]));
    }
    assert ViewsPrivate(u, missing, t0, w, r);
    forall k: nat | k < |w'.views[r]| ensures ViewPrivate(u, missing, t0, w'.views[r][k], r, k) {
      if k < |w.views[r]| {
        assert w'.views[r][k] == w.views[r][k];
      } else {
        assert e.Move? && IsStore(e.l) && e.l.r == r && w'.views[r][k] == w.t;
        StoreSteps(u, t0, w, e.l);
        StoreKept(u, w, w', r, e.l.v.Stored?);
        PrivateLink(u, missing, t0, w, r, k);
      }
    }
  }

  lemma EventKeepsMet(u: Setup, missing: seq<seq<string>>, t0: Tables, w: World, e: Event, r: nat)
    requires Met(u, missing, t0, w, r) && Enabled(u, w, e)
    ensures Met(u, missing, t0, Next(u, w, e), r)
  {
    var w' := Next(u, w, e);
    EventKeepsInv(u, t0, w, e);
    EventKeepsAsks(u, w, e, missing);
    EventKeepsPast(u, t0, w, e);
    assert Fit(w'.pool.reqs[r], |w'.views[r]|) && AsksFor(w'.pool.reqs[r], missing[r]);
    if u.callers[r].userID != NON_AUTHENTICATED_USER && Private(u, missing, w', r) {
      EventKeepsPrivate(u, missing, t0, w, e, r);
    }
  }

  lemma {:induction false} RunKeepsMet(u: Setup, missing: seq<seq<string>>, t0: Tables, w: World, run: seq<Event>,
                                       r: nat)
    requires Met(u, missing, t0, w, r) && Executes(u, w, run)
    ensures Met(u, missing, t0, After(u, w, run), r)
    decreases |run|
  {
    if run != [] {
      EventKeepsMet(u, missing, t0, w, run[0], r);
      RunKeepsMet(u, missing, t0, Next(u, w, run[0]), run[1..], r);
    }
  }

  lemma ReachedMet(u: Setup, maxCredits: nat, missing: seq<seq<string>>, t: Tables, run: seq<Event>, w: World, r: nat)
    requires Reached(u, maxCredits, missing, t, run, w) && r < |missing|
    ensures Met(u, missing, t, w, r)
  {
    ReachedInv(u, maxCredits, missing, t, [], Start(maxCredits, missing, t));
    RunKeepsMet(u, missing, t, Start(maxCredits, missing, t), run, r);
  }

  // ---------- calls at rest ----------

  /** A calm run of calls that fit the pool and ask for hashes the chain knows, gone on until it rests. */
  ghost predicate AtRest(u: Setup, maxCredits: nat, missing: seq<seq<string>>, t: Tables, run: seq<Event>, w: World) {
    && Reached(u, maxCredits, missing, t, run, w)
    && PoolRuns.FitsPool(u.cfg.workers, missing) && PoolRuns.OnChain(u.cfg.node, missing)
    && (forall k :: 0 <= k < |Moves(run)| ==> PoolRuns.Calm(Moves(run)[k]))
    && !PoolProgress.CanStep(u.cfg, w.pool)
  }

  predicate Answered(w: World, r: nat) {
    r < |w.pool.reqs| && w.pool.reqs[r].phase == P.Returned(P.Success)
  }

  predicate RefusedCall(w: World, r: nat) {
    r < |w.pool.reqs| && w.pool.reqs[r].phase == P.Returned(P.StoreFailed)
  }

  /** Every call has been answered or refused by the database. */
  lemma AllDecided(u: Setup, maxCredits: nat, missing: seq<seq<string>>, t: Tables, run: seq<Event>, w: World, r: nat)
    requires AtRest(u, maxCredits, missing, t, run, w) && r < |missing|
    ensures Answered(w, r) <==> !RefusedCall(w, r)
  {
    PoolReached(u, maxCredits, missing, t, run, w);
    PoolRuns.StillFits(u.cfg, maxCredits, missing, Moves(run), w.pool);
    PoolRuns.EveryCallReturns(u.cfg, maxCredits, missing, Moves(run), w.pool);
    PoolRuns.CalmOutcome(u.cfg, maxCredits, missing, Moves(run), w.pool, r);
  }

  ghost predicate NoFaults(c: Caller) {
    forall k :: c.faults(k) == NoFault
  }

  /** The link of its record was absent from the tables that store k of call r met. */
  predicate MetUnlinked(u: Setup, missing: seq<seq<string>>, w: World, r: nat, k: nat)
    requires r < |missing| && r < |u.callers| && r < |w.views| && k < |w.views[r]| && k < |missing[r]|
  {
    var h := HashOf(u.cfg.node, missing[r][k]);
    h.Some? ==> (u.callers[r].userID, h.value) !in w.views[r][k].links
  }

  /** A sound database takes a record exactly when there is no user, or a known one without the link. */
  lemma TookIff(u: Setup, missing: seq<seq<string>>, t: Tables, w: World, r: nat, k: nat)
    requires Met(u, missing, t, w, r) && NoFaults(u.callers[r]) && k < |w.views[r]|
    requires HashOf(u.cfg.node, missing[r][k]).Some?
    ensures TookAt(u, w, r, k)
            <==> u.callers[r].userID == NON_AUTHENTICATED_USER
                 || (u.callers[r].userID in t.users && MetUnlinked(u, missing, w, r, k))
  {
    assert AsksFor(w.pool.reqs[r], missing[r]) && ViewPast(t, w.views[r][k], w.t);
    assert u.callers[r].faults(k) == NoFault;
  }

  /** What store k of call r needs to be accepted. */
  predicate Acceptable(u: Setup, missing: seq<seq<string>>, t: Tables, w: World, r: nat, k: nat)
    requires r < |missing| && r < |u.callers| && r < |w.views| && k < |w.views[r]| && k < |missing[r]|
  {
    || u.callers[r].userID == NON_AUTHENTICATED_USER
    || (u.callers[r].userID in t.users && MetUnlinked(u, missing, w, r, k))
  }

  lemma KeptIffAcceptable(u: Setup, maxCredits: nat, missing: seq<seq<string>>, t: Tables, run: seq<Event>, w: World,
                          r: nat, k: nat)
    requires AtRest(u, maxCredits, missing, t, run, w) && r < |missing| && NoFaults(u.callers[r])
    ensures r < |w.views| == |w.pool.reqs| && |w.views[r]| <= |missing[r]|
    ensures k < |w.views[r]| ==> (k < KeptBy(w, r) <==> Acceptable(u, missing, t, w, r, k))
  {
    ReachedMet(u, maxCredits, missing, t, run, w, r);
    assert Fit(w.pool.reqs[r], |w.views[r]|) && Verdicts(u, w, r) && AsksFor(w.pool.reqs[r], missing[r]);
    if k < |w.views[r]| {
      assert TookAt(u, w, r, k) <==> k < KeptBy(w, r);
      TookIff(u, missing, t, w, r, k);
    }
  }

  /** A refused call met its refusal at its last store; an answered one stored all it missed. */
  lemma StoresAtRest(u: Setup, maxCredits: nat, missing: seq<seq<string>>, t: Tables, run: seq<Event>, w: World, r: nat)
    requires AtRest(u, maxCredits, missing, t, run, w) && r < |missing|
    ensures r < |w.views| == |w.pool.reqs| && |w.views[r]| <= |missing[r]|
    ensures RefusedCall(w, r) ==> |w.views[r]| == KeptBy(w, r) + 1
    ensures Answered(w, r) ==> |w.views[r]| == KeptBy(w, r) == |missing[r]|
  {
    ReachedMet(u, maxCredits, missing, t, run, w, r);
    assert Fit(w.pool.reqs[r], |w.views[r]|) && Verdicts(u, w, r) && AsksFor(w.pool.reqs[r], missing[r]);
  }

  /** Once a calm pool rests, a call is answered exactly when there is no user, or nothing was missing, or
      the user exists and at each of the call's stores the link was absent from the shared tables. */
  lemma AnsweredIffUnlinked(u: Setup, maxCredits: nat, missing: seq<seq<string>>, t: Tables, run: seq<Event>,
                            w: World, r: nat)
    requires AtRest(u, maxCredits, missing, t, run, w) && r < |missing| && NoFaults(u.callers[r])
    ensures r < |w.views| && |w.views[r]| <= |missing[r]| && (Answered(w, r) <==> !RefusedCall(w, r))
    ensures Answered(w, r)
            <==> u.callers[r].userID == NON_AUTHENTICATED_USER || missing[r] == []
                 || (u.callers[r].userID in t.users
                     && forall k: nat :: k < |w.views[r]| ==> MetUnlinked(u, missing, w, r, k))
  {
    AllDecided(u, maxCredits, missing, t, run, w, r);
    StoresAtRest(u, maxCredits, missing, t, run, w, r);
    if RefusedCall(w, r) {
      var last: nat := |w.views[r]| - 1;
      KeptIffAcceptable(u, maxCredits, missing, t, run, w, r, last);
      assert !Acceptable(u, missing, t, w, r, last);
    } else if missing[r] != [] {
      KeptIffAcceptable(u, maxCredits, missing, t, run, w, r, 0);
      forall k: nat | k < |w.views[r]|
        ensures u.callers[r].userID == NON_AUTHENTICATED_USER || MetUnlinked(u, missing, w, r, k)
      {
        KeptIffAcceptable(u, maxCredits, missing, t, run, w, r, k);
      }
    }
  }

  /** A call whose user nobody else links the missing records for is answered exactly when these records
      are new to the user and to each other at the start, whatever the calls of other users do. */
  lemma PrivateAnsweredIff(u: Setup, maxCredits: nat, missing: seq<seq<string>>, t: Tables, run: seq<Event>, w: World,
                           r: nat)
    requires AtRest(u, maxCredits, missing, t, run, w) && r < |missing| && NoFaults(u.callers[r])
    requires Private(u, missing, w, r)
    ensures Answered(w, r)
            <==> u.callers[r].userID == NON_AUTHENTICATED_USER || missing[r] == []
                 || (u.callers[r].userID in t.users
                     && R.AllNew(u.cfg.node, t, missing[r], |missing[r]|, u.callers[r].userID))
  {
    AnsweredIffUnlinked(u, maxCredits, missing, t, run, w, r);
    ReachedMet(u, maxCredits, missing, t, run, w, r);
    if u.callers[r].userID != NON_AUTHENTICATED_USER && missing[r] != [] && u.callers[r].userID in t.users {
      forall k: nat | k < |w.views[r]|
        ensures MetUnlinked(u, missing, w, r, k) <==> R.IsNew(u.cfg.node, t, missing[r], k, u.callers[r].userID)
      {
        assert ViewPrivate(u, missing, t, w.views[r][k], r, k);
      }
      assert Fit(w.pool.reqs[r], |w.views[r]|) && AsksFor(w.pool.reqs[r], missing[r]);
    }
  }

  // ---------- calls of one user ----------

  /** In every run, of the calls of one user that miss the same record at most one is answered. */
  lemma AtMostOneAnswered(u: Setup, maxCredits: nat, missing: seq<seq<string>>, t: Tables, run: seq<Event>, w: World,
                          x: nat, i: nat, y: nat, j: nat)
    requires Reached(u, maxCredits, missing, t, run, w) && x < |missing| && y < |missing| && (x != y || i != j)
    requires u.callers[x].userID == u.callers[y].userID != NON_AUTHENTICATED_USER
    requires i < |missing[x]| && j < |missing[y]|
    requires HashOf(u.cfg.node, missing[x][i]) == HashOf(u.cfg.node, missing[y][j])
    ensures !(Answered(w, x) && Answered(w, y))
  {
    ReachedMet(u, maxCredits, missing, t, run, w, x);
    assert NotTwice(u, w, x, i, y, j);
    assert AsksFor(w.pool.reqs[x], missing[x]) && AsksFor(w.pool.reqs[y], missing[y]);
    assert Fit(w.pool.reqs[x], |w.views[x]|) && Fit(w.pool.reqs[y], |w.views[y]|);
    AskedHash(u.cfg.node, w.pool.reqs[x], missing[x], i);
    AskedHash(u.cfg.node, w.pool.reqs[y], missing[y], j);
  }

  /** Two requests of a known user for one new record that nobody else links for that user. */
  ghost predicate Twins(u: Setup, missing: seq<seq<string>>, t: Tables, w: World, x: nat, y: nat, h: string) {
    && x < |missing| == |u.callers| && y < |missing| && x != y && |missing[x]| == |missing[y]| == 1
    && HashOf(u.cfg.node, missing[x][0]) == HashOf(u.cfg.node, missing[y][0]) == Some(h)
    && var userID := u.callers[x].userID;
       && userID == u.callers[y].userID != NON_AUTHENTICATED_USER && userID in t.users
       && (userID, h) !in t.links && (userID, h) !in w.looked
       && forall z :: 0 <= z < |missing| && z != x && z != y && u.callers[z].userID == userID ==>
            !Fetched(u.cfg.node, missing[z], |missing[z]|, h)
  }

  /** A refused single-hash call found its link there. */
  lemma RefusedFoundLink(u: Setup, maxCredits: nat, missing: seq<seq<string>>, t: Tables, run: seq<Event>, w: World,
                         x: nat, h: string)
    requires AtRest(u, maxCredits, missing, t, run, w) && x < |missing| && NoFaults(u.callers[x]) && RefusedCall(w, x)
    requires |missing[x]| == 1 && HashOf(u.cfg.node, missing[x][0]) == Some(h) && u.callers[x].userID in t.users
    ensures x < |w.views| && x < |w.pool.reqs| && KeptBy(w, x) == 0 && (u.callers[x].userID, h) in w.t.links
  {
    AnsweredIffUnlinked(u, maxCredits, missing, t, run, w, x);
    ReachedMet(u, maxCredits, missing, t, run, w, x);
    assert Fit(w.pool.reqs[x], |w.views[x]|) && AsksFor(w.pool.reqs[x], missing[x]);
    assert |w.views[x]| == 1 && !MetUnlinked(u, missing, w, x, 0) && ViewPast(t, w.views[x][0], w.t);
  }

  /** Of two such requests at the same time exactly one is answered and the other refused. */
  lemma TwinsSplit(u: Setup, maxCredits: nat, missing: seq<seq<string>>, t: Tables, run: seq<Event>, w: World,
                   x: nat, y: nat, h: string)
    requires AtRest(u, maxCredits, missing, t, run, w) && Twins(u, missing, t, w, x, y, h)
    requires NoFaults(u.callers[x]) && NoFaults(u.callers[y])
    ensures (Answered(w, x) && RefusedCall(w, y)) || (Answered(w, y) && RefusedCall(w, x))
  {
    AllDecided(u, maxCredits, missing, t, run, w, x);
    AllDecided(u, maxCredits, missing, t, run, w, y);
    AtMostOneAnswered(u, maxCredits, missing, t, run, w, x, 0, y, 0);
    if RefusedCall(w, x) && RefusedCall(w, y) {
      RefusedFoundLink(u, maxCredits, missing, t, run, w, x, h);
      RefusedFoundLink(u, maxCredits, missing, t, run, w, y, h);
      NobodyStored(u, maxCredits, missing, t, run, w, x, y, h);
    }
  }

  lemma NobodyStored(u: Setup, maxCredits: nat, missing: seq<seq<string>>, t: Tables, run: seq<Event>, w: World,
                     x: nat, y: nat, h: string)
    requires Reached(u, maxCredits, missing, t, run, w) && Twins(u, missing, t, w, x, y, h)
    requires x < |w.views| && y < |w.views| && x < |w.pool.reqs| && y < |w.pool.reqs|
    requires KeptBy(w, x) == 0 && KeptBy(w, y) == 0
    ensures (u.callers[x].userID, h) !in w.t.links
  {
    var userID := u.callers[x].userID;
    ReachedMet(u, maxCredits, missing, t, run, w, x);
    assert Origin(u, t, w, userID, h);
    forall z: nat | z < |u.callers| && u.callers[z].userID == userID
      ensures !StoredAmong(u.cfg.node, w.pool.reqs[z], KeptBy(w, z), h)
    {
      if z != x && z != y {
        assert AsksFor(w.pool.reqs[z], missing[z]) && Fit(w.pool.reqs[z], |w.views[z]|);
        AskedAmong(u.cfg.node, w.pool.reqs[z], missing[z], KeptBy(w, z), h);
        FetchedGrows(u.cfg.node, missing[z], KeptBy(w, z), h);
      }
    }
  }

  // ---------- runs go on ----------

  /** Wherever the pool can move there is an event that the database agrees with, and a calm one. */
  lemma SharedRunsGoOn(u: Setup, w: World)
    requires PoolProgress.CanStep(u.cfg, w.pool) && |w.views| == |w.pool.reqs| == |u.callers|
    ensures exists l :: PoolRuns.Calm(l) && Enabled(u, w, Move(l))
  {
    var l :| PoolProgress.Undisturbed(l) && P.Enabled(u.cfg, w.pool, l);
    if Enabled(u, w, Move(l)) {
      assert PoolRuns.Calm(l);
    } else {
      var l' := P.Serve(l.r, P.StoreFails);
      assert PoolRuns.Calm(l') && Enabled(u, w, Move(l'));
    }
  }
}
