/** The service call on top of the pool and one shared database: answers, progress and refusals together. */
module EndToEnd {
  import opened Prelude
  import opened Chain
  import opened Store
  import opened Service
  import opened ReadThrough
  import opened Replay
  import opened Shared
  import opened SharedCalls
  import R = Repeats
  import P = Pool
  import PoolSafety
  import PoolRuns

  /** In every interleaving, with any other calls beside it, the pool gives a call only answers for the
      hashes it asked. */
  lemma PoolFeedsCall(cfg: P.Config, maxCredits: nat, missing: seq<seq<string>>, run: seq<P.Label>, s: P.State,
                      r: nat, base: Env)
    requires PoolSafety.Reached(cfg, maxCredits, missing, run, s) && r < |missing|
    ensures r < |s.reqs| && PoolAnswers(cfg.node, missing[r], Observed(s.reqs[r], base))
  {
    var s0 := P.Init(maxCredits, missing);
    PoolRuns.RunKeepsCalls(cfg, s0, run);
    var env := Observed(s.reqs[r], base);
    forall k | 0 <= k < |missing[r]| && env.arrives(k).Got?
      ensures env.arrives(k).res == ZERO_RESULT || Answers(cfg.node, missing[r][k], env.arrives(k).res)
    {
      assert P.HasTask(s0, r, k) && P.TaskAt(s0, r, k).hash == missing[r][k];
      if P.TaskAt(s, r, k).ch.delivered != [] {
        PoolSafety.DeliveryMatchesRequest(cfg, maxCredits, missing, run, s, r, k);
      }
    }
  }

  // ---------- the answer does not depend on the tables ----------

  /** The same surroundings with a database that takes everything. */
  function Willing(env: Env): Env {
    env.(faults := (k: nat) => NoFault)
  }

  /** As long as nothing stops a call, it knows what a call for nobody would. */
  lemma {:induction false} KnowsAsNobody(views: seq<Tables>, t: Tables, avail: map<string, Tx>, n: nat, userID: int,
                                         env: Env)
    requires GatherAll(views, avail, n, userID, env).stop.None?
    ensures var c := CollectAll(t, avail, n, NON_AUTHENTICATED_USER, Willing(env));
            c.stop.None? && c.avail == GatherAll(views, avail, n, userID, env).avail
  {
    if n > 0 {
      KnowsAsNobody(views, t, avail, n - 1, userID, env);
    }
  }

  lemma KnownIffCanonical(node: Node, t: Tables, views: seq<Tables>, found: seq<Loaded>, hashes: seq<string>,
                          userID: int, env: Env, h: string)
    requires Faithful(node) && Coherent(node, t) && Finds(t, hashes, userID, found) && h in hashes
    requires PoolAnswers(node, Missing(hashes, Available(found)), env)
    requires GatherAll(views, Available(found), |Missing(hashes, Available(found))|, userID, env).stop.None?
    ensures var known := GatherAll(views, Available(found), |Missing(hashes, Available(found))|, userID, env).avail;
            Known(node, known) && (h in known <==> Canonical(node, h))
  {
    var avail := Available(found);
    var missing := Missing(hashes, avail);
    AvailableKnown(node, t, userID, found);
    KnowsAsNobody(views, t, avail, |missing|, userID, env);
    CollectsChain(node, t, avail, missing, |missing|, NON_AUTHENTICATED_USER, Willing(env));
    CollectsAvailable(node, t, avail, missing, |missing|, NON_AUTHENTICATED_USER, Willing(env), h);
    MissingIsRest(hashes, avail);
    if h !in avail {
      var k :| 0 <= k < |missing| && missing[k] == h;
      assert Canonical(node, h) ==> HashOf(node, missing[k]) == Some(h);
    }
  }

  /** A reply with records holds the chain records of the canonical texts, whatever the stores met. */
  lemma ReplyIsExpected(node: Node, t: Tables, views: seq<Tables>, found: seq<Loaded>, hashes: seq<string>, userID: int,
                        env: Env)
    requires Faithful(node) && Coherent(node, t) && Finds(t, hashes, userID, found)
    requires PoolAnswers(node, Missing(hashes, Available(found)), env)
    requires ReplyOn(views, found, hashes, userID, env).Records?
    ensures ReplyOn(views, found, hashes, userID, env).list == Expected(node, hashes)
  {
    var known := GatherAll(views, Available(found), |Missing(hashes, Available(found))|, userID, env).avail;
    forall h | h in hashes ensures h in known <==> Canonical(node, h) {
      KnownIffCanonical(node, t, views, found, hashes, userID, env, h);
    }
    if hashes == [] {
      assert Rebuild(hashes, known) == Expected(node, hashes);
    } else {
      KnownIffCanonical(node, t, views, found, hashes, userID, env, hashes[0]);
      RebuildIsExpected(node, hashes, known);
    }
  }

  // ---------- calls on the shared database ----------

  /** Call r: what it found when it looked up, in tables past, what it asks for, and its surroundings. */
  ghost predicate IsCall(u: Setup, missing: seq<seq<string>>, r: nat, past: Tables, found: seq<Loaded>,
                         hashes: seq<string>, base: Env) {
    && r < |missing| && r < |u.callers| && u.callers[r].faults == base.faults
    && Faithful(u.cfg.node) && Coherent(u.cfg.node, past)
    && Finds(past, hashes, u.callers[r].userID, found) && missing[r] == Missing(hashes, Available(found))
  }

  /** In every run of calls on one database, failed and cancelled ones included, the shared tables stay a
      coherent cache of the chain, and a call that answers returns the chain records of its canonical texts. */
  lemma CallsShareTheStore(u: Setup, maxCredits: nat, missing: seq<seq<string>>, t: Tables, run: seq<Event>, w: World,
                           r: nat, past: Tables, found: seq<Loaded>, hashes: seq<string>, base: Env)
    requires Reached(u, maxCredits, missing, t, run, w) && Coherent(u.cfg.node, t)
    requires IsCall(u, missing, r, past, found, hashes, base)
    ensures Coherent(u.cfg.node, w.t) && r < |w.pool.reqs| && r < |w.views|
    ensures var reply := ReplyIn(u, w, r, found, hashes, base);
            reply.Records? ==> reply.list == Expected(u.cfg.node, hashes)
  {
    SharedStaysCoherent(u, maxCredits, missing, t, run, w);
    ReachedMet(u, maxCredits, missing, t, run, w, r);
    PoolReached(u, maxCredits, missing, t, run, w);
    PoolFeedsCall(u.cfg, maxCredits, missing, Moves(run), w.pool, r, base);
    if ReplyIn(u, w, r, found, hashes, base).Records? {
      ReplyIsExpected(u.cfg.node, past, w.views[r], found, hashes, u.callers[r].userID, Observed(w.pool.reqs[r], base));
    }
  }

  /** How call r replies once the pool rests: records or a refusal, as the phase says. */
  lemma RestingReply(u: Setup, maxCredits: nat, missing: seq<seq<string>>, t: Tables, run: seq<Event>, w: World,
                     r: nat, past: Tables, found: seq<Loaded>, hashes: seq<string>, base: Env)
    requires AtRest(u, maxCredits, missing, t, run, w) && Coherent(u.cfg.node, t)
    requires IsCall(u, missing, r, past, found, hashes, base)
    ensures r < |w.pool.reqs| && r < |w.views|
    ensures var reply := ReplyIn(u, w, r, found, hashes, base);
            && (reply.Records? <==> Answered(w, r))
            && (reply.Records? ==> reply.list == Expected(u.cfg.node, hashes))
            && (reply.Error? ==> reply.why == StoreFailed && RefusedCall(w, r))
  {
    AllDecided(u, maxCredits, missing, t, run, w, r);
    OutcomeIsReply(u, maxCredits, missing, t, run, w, r, found, hashes, base);
    CallsShareTheStore(u, maxCredits, missing, t, run, w, r, past, found, hashes, base);
  }

  /** Total correctness of a call beside any others that fit the pool together, all on one database, with
      no cancellation, no failing node call and no fault of its own statements: once the pool rests the call
      answers the chain records of its canonical texts exactly when there is no user, or nothing was
      missing, or the user exists and at each of its stores the link was absent from the shared tables;
      otherwise the database has refused it. */
  lemma CalmCallAnswersIff(u: Setup, maxCredits: nat, missing: seq<seq<string>>, t: Tables, run: seq<Event>, w: World,
                           r: nat, past: Tables, found: seq<Loaded>, hashes: seq<string>, base: Env)
    requires AtRest(u, maxCredits, missing, t, run, w) && Coherent(u.cfg.node, t)
    requires IsCall(u, missing, r, past, found, hashes, base) && NoFaults(u.callers[r])
    ensures r < |w.pool.reqs| && r < |w.views| && |w.views[r]| <= |missing[r]|
    ensures var reply := ReplyIn(u, w, r, found, hashes, base);
            && (reply.Records? <==> u.callers[r].userID == NON_AUTHENTICATED_USER || missing[r] == []
                                    || (u.callers[r].userID in t.users
                                        && forall k: nat :: k < |w.views[r]| ==> MetUnlinked(u, missing, w, r, k)))
            && (reply.Records? ==> reply.list == Expected(u.cfg.node, hashes))
            && (reply.Error? ==> reply.why == StoreFailed)
  {
    AnsweredIffUnlinked(u, maxCredits, missing, t, run, w, r);
    RestingReply(u, maxCredits, missing, t, run, w, r, past, found, hashes, base);
  }

  /** From the lookup in past to t the user has got the links of the found rows and no others; rows and
      the links of other users may have changed. */
  ghost predicate OnlyOwnLinks(past: Tables, found: seq<Loaded>, userID: int, t: Tables) {
    userID != NON_AUTHENTICATED_USER ==>
      forall h :: (userID, h) in t.links <==> (userID, h) in past.links || h in Keys(found)
  }

  lemma NewSinceLookup(node: Node, past: Tables, found: seq<Loaded>, missing: seq<string>, userID: int, t: Tables)
    requires userID != NON_AUTHENTICATED_USER && (forall i :: 0 <= i < |missing| ==> HashOf(node, missing[i]).Some?)
    requires OnlyOwnLinks(past, found, userID, t)
    ensures R.NewRecords(node, past, found, missing, userID) <==> R.AllNew(node, t, missing, |missing|, userID)
  {
    var linked := past.(links := past.links + LinksOf(LoadedTxs(found), userID));
    R.NewRecordsAreNew(node, past, found, missing, userID, linked);
    forall i | 0 <= i < |missing|
      ensures R.IsNew(node, linked, missing, i, userID) <==> R.IsNew(node, t, missing, i, userID)
    {
      R.LinkedTables(past, found, userID, HashOf(node, missing[i]).value);
    }
  }

  /** When no lookup links, and no other call of its user asks for, a record the call misses, what it found
      decides: it is answered exactly when there is no user, or nothing was missing, or the user exists and
      the records of the missing texts are new to the user and to each other. Other users never interfere. */
  lemma PrivateCallAnswersIff(u: Setup, maxCredits: nat, missing: seq<seq<string>>, t: Tables, run: seq<Event>,
                              w: World, r: nat, past: Tables, found: seq<Loaded>, hashes: seq<string>, base: Env)
    requires AtRest(u, maxCredits, missing, t, run, w) && Coherent(u.cfg.node, t)
    requires IsCall(u, missing, r, past, found, hashes, base) && NoFaults(u.callers[r]) && Private(u, missing, w, r)
    requires OnlyOwnLinks(past, found, u.callers[r].userID, t)
    ensures r < |w.pool.reqs| && r < |w.views|
    ensures ReplyIn(u, w, r, found, hashes, base).Records?
            <==> u.callers[r].userID == NON_AUTHENTICATED_USER || missing[r] == []
                 || (u.callers[r].userID in t.users
                     && R.NewRecords(u.cfg.node, past, found, missing[r], u.callers[r].userID))
  {
    PrivateAnsweredIff(u, maxCredits, missing, t, run, w, r);
    RestingReply(u, maxCredits, missing, t, run, w, r, past, found, hashes, base);
    if u.callers[r].userID != NON_AUTHENTICATED_USER {
      forall i | 0 <= i < |missing[r]| ensures HashOf(u.cfg.node, missing[r][i]).Some? {
        assert ChainRecord(u.cfg.node, missing[r][i]).Some?;
      }
      NewSinceLookup(u.cfg.node, past, found, missing[r], u.callers[r].userID, t);
    }
  }

  /** The same for canonical hashes: the call answers each with its chain record exactly when there is no
      user, or nothing was missing, or the user exists and asks for no missing hash twice. */
  lemma PrivateCanonicalCall(u: Setup, maxCredits: nat, missing: seq<seq<string>>, t: Tables, run: seq<Event>, w: World,
                             r: nat, past: Tables, found: seq<Loaded>, hashes: seq<string>, base: Env)
    requires AtRest(u, maxCredits, missing, t, run, w) && Coherent(u.cfg.node, t)
    requires IsCall(u, missing, r, past, found, hashes, base) && NoFaults(u.callers[r]) && Private(u, missing, w, r)
    requires OnlyOwnLinks(past, found, u.callers[r].userID, t)
    requires forall h :: h in hashes ==> Canonical(u.cfg.node, h)
    ensures r < |w.pool.reqs| && r < |w.views|
    ensures var reply := ReplyIn(u, w, r, found, hashes, base);
            && (reply.Records? <==> u.callers[r].userID == NON_AUTHENTICATED_USER || missing[r] == []
                                    || (u.callers[r].userID in t.users && R.RepeatsAvailable(hashes, Available(found))))
            && (reply.Records? ==> |reply.list| == |hashes|)
            && (reply.Records? ==>
                  forall i :: 0 <= i < |hashes| ==> ChainRecord(u.cfg.node, hashes[i]) == Some(reply.list[i]))
  {
    PrivateCallAnswersIff(u, maxCredits, missing, t, run, w, r, past, found, hashes, base);
    RestingReply(u, maxCredits, missing, t, run, w, r, past, found, hashes, base);
    R.CanonicalNewIff(u.cfg.node, past, found, hashes, u.callers[r].userID);
    ExpectedIsComplete(u.cfg.node, hashes);
  }
}
