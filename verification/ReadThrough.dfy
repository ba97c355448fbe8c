/** What the service call promises: the store is a read-through cache of the chain. */
module ReadThrough {
  import opened Prelude
  import opened Chain
  import opened Store
  import opened Service

  /** The node's record of any text is its record of that record's own hash, which is lower case. */
  ghost predicate Faithful(node: Node) {
    forall h :: FaithfulAt(node, h)
  }

  predicate FaithfulAt(node: Node, h: string) {
    ChainRecord(node, h).Some? ==>
      var k := ChainRecord(node, h).value.hash; ChainRecord(node, k) == ChainRecord(node, h) && Lower(k) == k
  }

  /** The text is the hash of its own record. */
  predicate Canonical(node: Node, h: string) {
    ChainRecord(node, h).Some? && ChainRecord(node, h).value.hash == h
  }

  /** Every stored row is its chain record. */
  ghost predicate Coherent(node: Node, t: Tables) {
    Sound(t) && forall h :: h in t.rows ==> ChainRecord(node, h) == Some(t.rows[h])
  }

  ghost predicate Known(node: Node, avail: map<string, Tx>) {
    forall h :: h in avail ==> ChainRecord(node, h) == Some(avail[h]) && avail[h].hash == h
  }

  /** What the pool delivers for the scheduled hashes (PoolSafety.DeliveryMatchesRequest), or the zero
      result of a closed channel. */
  ghost predicate PoolAnswers(node: Node, missing: seq<string>, env: Env) {
    forall k :: 0 <= k < |missing| && env.arrives(k).Got? ==>
      env.arrives(k).res == ZERO_RESULT || Answers(node, missing[k], env.arrives(k).res)
  }

  /** The chain records of a list of hashes, in order, repeats included. */
  function ChainRecords(node: Node, hashes: seq<string>): seq<Tx> {
    if hashes == [] then []
    else
      var r := ChainRecord(node, hashes[|hashes| - 1]);
      ChainRecords(node, hashes[..|hashes| - 1]) + (if r.Some? then [r.value] else [])
  }

  /** The answer a request deserves: the chain records of its canonical texts, in request order. */
  function Expected(node: Node, hashes: seq<string>): seq<Tx> {
    if hashes == [] then []
    else
      var h := hashes[|hashes| - 1];
      Expected(node, hashes[..|hashes| - 1]) + (if Canonical(node, h) then [ChainRecord(node, h).value] else [])
  }

  // ---------- the lookup ----------

  lemma {:induction false} AvailableKnown(node: Node, t: Tables, userID: int, found: seq<Loaded>)
    requires Coherent(node, t) && forall l :: l in found ==> RowOf(t, userID, l)
    ensures Known(node, Available(found)) && Available(found).Keys == Keys(found)
  {
    if found != [] {
      var n := |found| - 1;
      AvailableKnown(node, t, userID, found[..n]);
      assert found == found[..n] + [found[n]] && found[n] in found;
    }
  }

  /** Every requested hash is available or missing. */
  lemma {:induction false} MissingIsRest(hashes: seq<string>, avail: map<string, Tx>)
    ensures forall h :: h in Missing(hashes, avail) <==> h in hashes && h !in avail
  {
    if hashes != [] {
      var n := |hashes| - 1;
      MissingIsRest(hashes[..n], avail);
      assert hashes == hashes[..n] + [hashes[n]];
    }
  }

  /** The missing texts are those at the positions at, which are all the positions of texts that are not
      available, in request order. */
  ghost predicate MissingAt(hashes: seq<string>, avail: map<string, Tx>, missing: seq<string>, at: seq<nat>) {
    && |at| == |missing| && (forall k :: 0 <= k < |at| ==> at[k] < |hashes| && missing[k] == hashes[at[k]])
    && (forall k, m :: 0 <= k < m < |at| ==> at[k] < at[m])
    && (forall i: nat :: i in at <==> i < |hashes| && hashes[i] !in avail)
  }

  lemma MissingAtNext(hashes: seq<string>, avail: map<string, Tx>, missing: seq<string>, at: seq<nat>, h: string)
    requires MissingAt(hashes, avail, missing, at)
    ensures h in avail ==> MissingAt(hashes + [h], avail, missing, at)
    ensures h !in avail ==> MissingAt(hashes + [h], avail, missing + [h], at + [|hashes|])
  {
    var more := hashes + [h];
    assert forall i :: 0 <= i < |hashes| ==> more[i] == hashes[i];
    assert forall k :: 0 <= k < |at| ==> at[k] in at;
    assert forall i :: i in at + [|hashes|] <==> i in at || i == |hashes|;
  }

  /** Every occurrence of a text that is not available is missing once, in request order, and nothing else. */
  lemma {:induction false} MissingInOrder(hashes: seq<string>, avail: map<string, Tx>) returns (at: seq<nat>)
    ensures MissingAt(hashes, avail, Missing(hashes, avail), at)
  {
    at := [];
    if hashes != [] {
      var n := |hashes| - 1;
      at := MissingInOrder(hashes[..n], avail);
      MissingAtNext(hashes[..n], avail, Missing(hashes[..n], avail), at, hashes[n]);
      assert hashes == hashes[..n] + [hashes[n]];
      if hashes[n] in avail {
        assert Missing(hashes[..n], avail) + [] == Missing(hashes[..n], avail);
      } else {
        at := at + [n];
      }
    }
  }

  // ---------- collecting ----------

  /** How many fetched records were persisted. */
  function Persisted(t: Tables, avail: map<string, Tx>, n: nat, userID: int, env: Env): nat {
    if n == 0 || CollectAll(t, avail, n, userID, env).stop.None? then n
    else Persisted(t, avail, n - 1, userID, env)
  }

  lemma {:induction false} PersistedStops(t: Tables, avail: map<string, Tx>, n: nat, userID: int, env: Env)
    ensures var m := Persisted(t, avail, n, userID, env);
            m <= n && CollectAll(t, avail, m, userID, env).stop.None?
            && (CollectAll(t, avail, n, userID, env).stop.None? ==> m == n)
            && CollectAll(t, avail, n, userID, env).t == CollectAll(t, avail, m, userID, env).t
  {
    if n > 0 {
      PersistedStops(t, avail, n - 1, userID, env);
    }
  }

  /** One arrival that does not stop the loop is the chain record of the hash it was scheduled for. */
  lemma ArrivalKnown(node: Node, t: Tables, avail: map<string, Tx>, missing: seq<string>, n: nat, userID: int, env: Env)
    requires Faithful(node) && Coherent(node, t) && Known(node, avail) && PoolAnswers(node, missing, env)
    requires n < |missing| && CollectOne(t, avail, userID, env.arrives(n), env.faults(n)).stop.None?
    ensures ChainRecord(node, missing[n]).Some?
    ensures var c := CollectOne(t, avail, userID, env.arrives(n), env.faults(n));
            var tx := ChainRecord(node, missing[n]).value;
            && c.t == InsertOne(t, tx, userID, env.faults(n)).0 && InsertOne(t, tx, userID, env.faults(n)).1
            && c.avail == avail[tx.hash := tx] && Known(node, c.avail) && Coherent(node, c.t)
  {
    assert env.arrives(n).res != ZERO_RESULT && FaithfulAt(node, missing[n]);
    InsertOneKeepsSound(t, env.arrives(n).res.tx.value, userID, env.faults(n));
  }

  /** h is the hash of the record of one of the first n missing texts. */
  ghost predicate Fetched(node: Node, missing: seq<string>, n: nat, h: string)
    requires n <= |missing|
  {
    exists k :: 0 <= k < n && HashOf(node, missing[k]) == Some(h)
  }

  function HashOf(node: Node, text: string): Option<string> {
    var r := ChainRecord(node, text);
    if r.Some? then Some(r.value.hash) else None
  }

  lemma FetchedSnoc(node: Node, missing: seq<string>, n: nat, h: string)
    requires 0 < n <= |missing|
    ensures Fetched(node, missing, n, h)
            <==> Fetched(node, missing, n - 1, h) || HashOf(node, missing[n - 1]) == Some(h)
  {
  }

  lemma RecordsSnoc(node: Node, missing: seq<string>, n: nat)
    requires 0 < n <= |missing| && ChainRecord(node, missing[n - 1]).Some?
    ensures ChainRecords(node, missing[..n])
            == ChainRecords(node, missing[..n - 1]) + [ChainRecord(node, missing[n - 1]).value]
  {
    assert missing[..n][..n - 1] == missing[..n - 1];
  }

  /** While nothing stops it, collecting keeps what is known and stored equal to the chain. */
  lemma {:induction false} CollectsChain(node: Node, t: Tables, avail: map<string, Tx>, missing: seq<string>, n: nat,
                                         userID: int, env: Env)
    requires Faithful(node) && Coherent(node, t) && Known(node, avail) && PoolAnswers(node, missing, env)
    requires n <= |missing| && CollectAll(t, avail, n, userID, env).stop.None?
    ensures Known(node, CollectAll(t, avail, n, userID, env).avail)
    ensures Coherent(node, CollectAll(t, avail, n, userID, env).t)
  {
    if n > 0 {
      var c := CollectAll(t, avail, n - 1, userID, env);
      CollectsChain(node, t, avail, missing, n - 1, userID, env);
      var d := CollectOne(c.t, c.avail, userID, env.arrives(n - 1), env.faults(n - 1));
      assert CollectAll(t, avail, n, userID, env) == d;
      assert Known(node, d.avail) && Coherent(node, d.t) by {
        ArrivalKnown(node, c.t, c.avail, missing, n - 1, userID, env);
      }
    }
  }

  /** A text whose record was collected has a record. */
  lemma {:induction false} CollectedHasRecord(node: Node, t: Tables, avail: map<string, Tx>, missing: seq<string>,
                                              n: nat, userID: int, env: Env, k: nat)
    requires Faithful(node) && Coherent(node, t) && Known(node, avail) && PoolAnswers(node, missing, env)
    requires k < n <= |missing| && CollectAll(t, avail, n, userID, env).stop.None?
    ensures ChainRecord(node, missing[k]).Some?
  {
    if k < n - 1 {
      CollectedHasRecord(node, t, avail, missing, n - 1, userID, env, k);
    } else {
      assert ChainRecord(node, missing[k]).Some? by {
        CollectsChain(node, t, avail, missing, k, userID, env);
        var c := CollectAll(t, avail, k, userID, env);
        ArrivalKnown(node, c.t, c.avail, missing, k, userID, env);
      }
    }
  }

  /** What collecting stores: the chain records of the missing hashes, one by one. */
  lemma {:induction false} CollectsStored(node: Node, t: Tables, avail: map<string, Tx>, missing: seq<string>, n: nat,
                                          userID: int, env: Env)
    requires Faithful(node) && Coherent(node, t) && Known(node, avail) && PoolAnswers(node, missing, env)
    requires n <= |missing| && CollectAll(t, avail, n, userID, env).stop.None?
    ensures CollectAll(t, avail, n, userID, env).t == Stored(t, ChainRecords(node, missing[..n]), userID)
  {
    if n == 0 {
      assert missing[..0] == [];
      StoredNothing(node, t, userID);
    } else {
      CollectsStored(node, t, avail, missing, n - 1, userID, env);
      CollectsChain(node, t, avail, missing, n - 1, userID, env);
      var c := CollectAll(t, avail, n - 1, userID, env);
      ArrivalKnown(node, c.t, c.avail, missing, n - 1, userID, env);
      RecordsSnoc(node, missing, n);
      StoredSnoc(t, ChainRecords(node, missing[..n - 1]), ChainRecord(node, missing[n - 1]).value, userID,
                 env.faults(n - 1));
    }
  }

  lemma StoredNothing(node: Node, t: Tables, userID: int)
    ensures Stored(t, ChainRecords(node, []), userID) == t
  {
    assert LinksOf([], userID) == {};
  }

  lemma {:induction false} CollectsAvailable(node: Node, t: Tables, avail: map<string, Tx>, missing: seq<string>,
                                             n: nat, userID: int, env: Env, h: string)
    requires Faithful(node) && Coherent(node, t) && Known(node, avail) && PoolAnswers(node, missing, env)
    requires n <= |missing| && CollectAll(t, avail, n, userID, env).stop.None?
    ensures h in CollectAll(t, avail, n, userID, env).avail <==> h in avail || Fetched(node, missing, n, h)
  {
    if n > 0 {
      CollectsAvailable(node, t, avail, missing, n - 1, userID, env, h);
      var c := CollectAll(t, avail, n - 1, userID, env);
      assert h in CollectAll(t, avail, n, userID, env).avail
             <==> h in c.avail || HashOf(node, missing[n - 1]) == Some(h) by {
        CollectsChain(node, t, avail, missing, n - 1, userID, env);
        ArrivalKnown(node, c.t, c.avail, missing, n - 1, userID, env);
      }
      FetchedSnoc(node, missing, n, h);
    }
  }

  // ---------- the answer ----------

  lemma {:induction false} RebuildIsExpected(node: Node, hashes: seq<string>, avail: map<string, Tx>)
    requires Known(node, avail) && forall h :: h in hashes ==> (h in avail <==> Canonical(node, h))
    ensures Rebuild(hashes, avail) == Expected(node, hashes)
  {
    if hashes != [] {
      var n := |hashes| - 1;
      assert hashes == hashes[..n] + [hashes[n]] && hashes[n] in hashes;
      RebuildIsExpected(node, hashes[..n], avail);
    }
  }

  /** What call inputs are: an answer of the database and of the pool. */
  ghost predicate Possible(node: Node, t: Tables, found: seq<Loaded>, hashes: seq<string>, userID: int, env: Env) {
    && (env.lookupFails || Finds(t, hashes, userID, found))
    && PoolAnswers(node, Missing(hashes, Available(found)), env)
  }

  /** The tables after a call: the links of a prefix of the found rows, then the chain records of a
      prefix of the missing hashes; all of them if the call answered. */
  ghost predicate PrefixPersisted(node: Node, t: Tables, found: seq<Loaded>, missing: seq<string>, userID: int,
                                  p: nat, m: nat, answered: bool, u: Tables) {
    && p <= |found| && m <= |missing| && (m > 0 ==> p == |found|)
    && (answered ==> p == |found| && m == |missing|)
    && u == Stored(t.(links := t.links + LinksOf(LoadedTxs(found[..p]), userID)),
                   ChainRecords(node, missing[..m]), userID)
  }

  ghost predicate SomePrefix(node: Node, t: Tables, found: seq<Loaded>, missing: seq<string>, userID: int,
                             answered: bool, u: Tables) {
    exists p, m :: PrefixPersisted(node, t, found, missing, userID, p, m, answered, u)
  }

  /** The tables once the found rows, or a prefix of them, are linked. */
  lemma LinkedPrefix(node: Node, t: Tables, found: seq<Loaded>, missing: seq<string>, userID: int, breaks: nat -> bool)
    requires Coherent(node, t) && forall l :: l in found ==> RowOf(t, userID, l)
    ensures var (linked, failed) := LinkAll(t, found, userID, breaks);
            && Coherent(node, linked) && SomePrefix(node, t, found, missing, userID, false, linked)
            && (failed.None? ==> linked == t.(links := t.links + LinksOf(LoadedTxs(found), userID)))
  {
    FoundHasNoFalseLinks(t, found, userID);
    LinkingIsIdempotent(t, found, userID, breaks);
    var (linked, failed) := LinkAll(t, found, userID, breaks);
    StoredNothing(node, linked, userID);
    assert missing[..0] == [] && found[..|found|] == found;
    assert PrefixPersisted(node, t, found, missing, userID, Done(failed, |found|), 0, false, linked);
  }

  /** Prefix persistence and coherence: however the call ends, it has stored the chain records of a prefix
      of the missing hashes in request order, linked to the user iff there is one, and every stored row
      is still its chain record; a call that answers has stored them all. */
  lemma CallPersistsPrefix(node: Node, t: Tables, found: seq<Loaded>, hashes: seq<string>, userID: int, env: Env)
    requires Faithful(node) && Coherent(node, t) && Possible(node, t, found, hashes, userID, env)
    ensures var (u, reply) := Call(t, found, hashes, userID, env);
            Coherent(node, u)
            && SomePrefix(node, t, found, Missing(hashes, Available(found)), userID, reply.Records?, u)
  {
    var (u, reply) := Call(t, found, hashes, userID, env);
    var missing := Missing(hashes, Available(found));
    if env.lookupFails {
      StoredNothing(node, t, userID);
      assert missing[..0] == [] && found[..0] == [] && LinksOf([], userID) == {} && t.(links := t.links + {}) == t;
      assert PrefixPersisted(node, t, found, missing, userID, 0, 0, reply.Records?, u);
    } else {
      LinkedPrefix(node, t, found, missing, userID, env.linkBreaks);
      var (linked, failed) := LinkAll(t, found, userID, env.linkBreaks);
      if failed.None? && !AnyRefused(|missing|, env.refused) {
        var avail := Available(found);
        AvailableKnown(node, t, userID, found);
        PersistedStops(linked, avail, |missing|, userID, env);
        var m := Persisted(linked, avail, |missing|, userID, env);
        CollectsChain(node, linked, avail, missing, m, userID, env);
        CollectsStored(node, linked, avail, missing, m, userID, env);
        assert found[..|found|] == found;
        assert PrefixPersisted(node, t, found, missing, userID, |found|, m, reply.Records?, u);
      }
    }
  }

  /** What is available at the end of a call that got so far. */
  function FinalAvailable(t: Tables, found: seq<Loaded>, hashes: seq<string>, userID: int, env: Env): map<string, Tx> {
    var avail := Available(found);
    CollectAll(LinkAll(t, found, userID, env.linkBreaks).0, avail, |Missing(hashes, avail)|, userID, env).avail
  }

  /** The state at the end of an answered call. */
  lemma AnsweredCall(node: Node, t: Tables, found: seq<Loaded>, hashes: seq<string>, userID: int, env: Env)
    requires Faithful(node) && Coherent(node, t) && Possible(node, t, found, hashes, userID, env)
    requires Call(t, found, hashes, userID, env).1.Records?
    ensures var (u, reply) := Call(t, found, hashes, userID, env);
            var avail := FinalAvailable(t, found, hashes, userID, env);
            var missing := Missing(hashes, Available(found));
            && Known(node, avail) && reply.list == Rebuild(hashes, avail)
            && (forall k :: 0 <= k < |missing| ==> ChainRecord(node, missing[k]).Some?)
            && (forall h :: h in avail <==> h in Keys(found) || Fetched(node, missing, |missing|, h))
            && u == Stored(t.(links := t.links + LinksOf(LoadedTxs(found), userID)),
                           ChainRecords(node, missing), userID)
  {
    var avail := Available(found);
    var missing := Missing(hashes, avail);
    LinkedPrefix(node, t, found, missing, userID, env.linkBreaks);
    var linked := LinkAll(t, found, userID, env.linkBreaks).0;
    assert missing[..|missing|] == missing;
    AvailableKnown(node, t, userID, found);
    CollectsChain(node, linked, avail, missing, |missing|, userID, env);
    CollectsStored(node, linked, avail, missing, |missing|, userID, env);
    forall k | 0 <= k < |missing| ensures ChainRecord(node, missing[k]).Some? {
      CollectedHasRecord(node, linked, avail, missing, |missing|, userID, env, k);
    }
    forall h ensures h in FinalAvailable(t, found, hashes, userID, env)
                     <==> h in avail || Fetched(node, missing, |missing|, h)
    {
      CollectsAvailable(node, linked, avail, missing, |missing|, userID, env, h);
    }
  }

  lemma FoundHasNoFalseLinks(t: Tables, found: seq<Loaded>, userID: int)
    requires forall l :: l in found ==> RowOf(t, userID, l)
    ensures NoFalseLinks(t, found, userID)
  {
    assert forall i :: 0 <= i < |found| ==> found[i] in found;
  }

  /** A requested text ends up available exactly when it is canonical. */
  lemma AvailableIffCanonical(node: Node, t: Tables, found: seq<Loaded>, hashes: seq<string>, userID: int, env: Env,
                              h: string)
    requires Faithful(node) && Coherent(node, t) && Possible(node, t, found, hashes, userID, env)
    requires Call(t, found, hashes, userID, env).1.Records? && h in hashes
    ensures h in FinalAvailable(t, found, hashes, userID, env) <==> Canonical(node, h)
  {
    AnsweredCall(node, t, found, hashes, userID, env);
    AvailableKnown(node, t, userID, found);
    var missing := Missing(hashes, Available(found));
    MissingIsRest(hashes, Available(found));
    if h !in Available(found) {
      var k :| 0 <= k < |missing| && missing[k] == h;
      assert Canonical(node, h) ==> HashOf(node, missing[k]) == Some(h);
    }
  }

  /** Read-through: a call that answers returns, in request order and with repeats, the chain records of
      exactly those requested texts that are canonical. */
  lemma ReadsThrough(node: Node, t: Tables, found: seq<Loaded>, hashes: seq<string>, userID: int, env: Env)
    requires Faithful(node) && Coherent(node, t) && Possible(node, t, found, hashes, userID, env)
    requires Call(t, found, hashes, userID, env).1.Records?
    ensures Call(t, found, hashes, userID, env).1.list == Expected(node, hashes)
  {
    AnsweredCall(node, t, found, hashes, userID, env);
    forall h | h in hashes
      ensures h in FinalAvailable(t, found, hashes, userID, env) <==> Canonical(node, h)
    {
      AvailableIffCanonical(node, t, found, hashes, userID, env, h);
    }
    RebuildIsExpected(node, hashes, FinalAvailable(t, found, hashes, userID, env));
  }

  lemma {:induction false} ExpectedIsComplete(node: Node, hashes: seq<string>)
    ensures var list := Expected(node, hashes);
            && |list| <= |hashes|
            && (|list| == |hashes| <==> forall h :: h in hashes ==> Canonical(node, h))
            && (|list| == |hashes| ==> forall i :: 0 <= i < |hashes| ==> ChainRecord(node, hashes[i]) == Some(list[i]))
  {
    if hashes != [] {
      var n := |hashes| - 1;
      ExpectedIsComplete(node, hashes[..n]);
      assert forall h :: h in hashes <==> h in hashes[..n] || h == hashes[n];
    }
  }

  /** The whole request is answered, each hash with its own chain record, exactly when all requested
      texts are canonical; other texts are dropped from the answer without an error. */
  lemma AnswersAllIffCanonical(node: Node, t: Tables, found: seq<Loaded>, hashes: seq<string>, userID: int, env: Env)
    requires Faithful(node) && Coherent(node, t) && Possible(node, t, found, hashes, userID, env)
    requires Call(t, found, hashes, userID, env).1.Records?
    ensures var list := Call(t, found, hashes, userID, env).1.list;
            && (|list| == |hashes| <==> forall h :: h in hashes ==> Canonical(node, h))
            && (|list| == |hashes| ==> forall i :: 0 <= i < |hashes| ==> ChainRecord(node, hashes[i]) == Some(list[i]))
  {
    ReadsThrough(node, t, found, hashes, userID, env);
    ExpectedIsComplete(node, hashes);
  }

  // ---------- remembering ----------

  lemma {:induction false} RebuildFrom(hashes: seq<string>, avail: map<string, Tx>)
    ensures forall tx :: tx in Rebuild(hashes, avail) ==> exists h :: h in avail && avail[h] == tx
  {
    if hashes != [] {
      RebuildFrom(hashes[..|hashes| - 1], avail);
    }
  }

  /** After an answered call of a user every returned transaction is in that user's list; a call without
      a user changes no link, whatever happens. */
  lemma RemembersTheUser(node: Node, t: Tables, found: seq<Loaded>, hashes: seq<string>, userID: int, env: Env)
    requires Faithful(node) && Coherent(node, t) && Possible(node, t, found, hashes, userID, env)
    ensures var (u, reply) := Call(t, found, hashes, userID, env);
            && (userID == NON_AUTHENTICATED_USER ==> u.links == t.links)
            && (userID != NON_AUTHENTICATED_USER && reply.Records? ==>
                  forall tx :: tx in reply.list ==> tx in Mine(u, userID))
  {
    CallPersistsPrefix(node, t, found, hashes, userID, env);
    var (u, reply) := Call(t, found, hashes, userID, env);
    if userID != NON_AUTHENTICATED_USER && reply.Records? {
      var avail := FinalAvailable(t, found, hashes, userID, env);
      AnsweredCall(node, t, found, hashes, userID, env);
      RebuildFrom(hashes, avail);
      forall tx | tx in reply.list ensures tx in Mine(u, userID) {
        var h :| h in avail && avail[h] == tx;
        AvailableIsStored(node, t, found, hashes, userID, env, h);
      }
    }
  }

  lemma {:induction false} RecordsAt(node: Node, hashes: seq<string>, k: nat)
    requires k < |hashes| && ChainRecord(node, hashes[k]).Some?
    ensures ChainRecord(node, hashes[k]).value in ChainRecords(node, hashes)
  {
    if k < |hashes| - 1 {
      RecordsAt(node, hashes[..|hashes| - 1], k);
    }
  }

  /** In an answered call, what is available in the end is stored, and linked if there is a user. */
  lemma AvailableIsStored(node: Node, t: Tables, found: seq<Loaded>, hashes: seq<string>, userID: int, env: Env,
                          h: string)
    requires Faithful(node) && Coherent(node, t) && Possible(node, t, found, hashes, userID, env)
    requires Call(t, found, hashes, userID, env).1.Records? && h in FinalAvailable(t, found, hashes, userID, env)
    ensures var u := Call(t, found, hashes, userID, env).0;
            h in u.rows && Some(u.rows[h]) == ChainRecord(node, h)
            && (userID != NON_AUTHENTICATED_USER ==> (userID, h) in u.links)
  {
    AnsweredCall(node, t, found, hashes, userID, env);
    CallPersistsPrefix(node, t, found, hashes, userID, env);
    var missing := Missing(hashes, Available(found));
    var linked := t.(links := t.links + LinksOf(LoadedTxs(found), userID));
    if h in Keys(found) {
      OverwrittenKeeps(linked.rows, ChainRecords(node, missing));
      FoundIsLinked(t, found, userID, h);
    } else {
      FetchedIsStored(node, linked, missing, userID, h);
    }
  }

  lemma FetchedIsStored(node: Node, t: Tables, missing: seq<string>, userID: int, h: string)
    requires Fetched(node, missing, |missing|, h)
    ensures var u := Stored(t, ChainRecords(node, missing), userID);
            h in u.rows && (userID != NON_AUTHENTICATED_USER ==> (userID, h) in u.links)
  {
    var txs := ChainRecords(node, missing);
    var k :| 0 <= k < |missing| && HashOf(node, missing[k]) == Some(h);
    RecordsAt(node, missing, k);
    var i :| 0 <= i < |txs| && txs[i] == ChainRecord(node, missing[k]).value;
    StoredRows(t, txs, userID, i);
  }

  lemma FoundIsLinked(t: Tables, found: seq<Loaded>, userID: int, h: string)
    requires (forall l :: l in found ==> RowOf(t, userID, l)) && h in Keys(found)
    ensures h in t.rows && (userID != NON_AUTHENTICATED_USER ==> (userID, h) in LinksOf(LoadedTxs(found), userID))
  {
    var l :| l in found && l.tx.hash == h;
    var i :| 0 <= i < |found| && found[i] == l;
    assert LoadedTxs(found)[i] == l.tx;
  }

  lemma {:induction false} OverwrittenKeeps(rows: map<string, Tx>, txs: seq<Tx>)
    ensures rows.Keys <= Overwritten(rows, txs).Keys
  {
    if txs != [] {
      OverwrittenKeeps(rows, txs[..|txs| - 1]);
    }
  }

  /** Subsequent calls are answered from the store: repeating an answered call of canonical hashes with
      the store in working order schedules no task and returns the same list. */
  lemma RepeatedCallNeedsNoNode(node: Node, t: Tables, found: seq<Loaded>, hashes: seq<string>, userID: int, env: Env,
                                found': seq<Loaded>, env': Env)
    requires Faithful(node) && Coherent(node, t) && Possible(node, t, found, hashes, userID, env)
    requires Call(t, found, hashes, userID, env).1.Records?
    requires forall h :: h in hashes ==> Canonical(node, h)
    requires var u := Call(t, found, hashes, userID, env).0;
             !env'.lookupFails && (forall i :: !env'.linkBreaks(i)) && Possible(node, u, found', hashes, userID, env')
    ensures var u := Call(t, found, hashes, userID, env).0;
            && Missing(hashes, Available(found')) == []
            && Call(u, found', hashes, userID, env') == (u, Call(t, found, hashes, userID, env).1)
  {
    var u := Call(t, found, hashes, userID, env).0;
    CallPersistsPrefix(node, t, found, hashes, userID, env);
    assert Missing(hashes, Available(found')) == [] by {
      NothingMissing(node, t, found, hashes, userID, env, found');
    }
    AllLinkedAlready(node, t, found, hashes, userID, env, found');
    LinkedChangesNothing(u, found', userID, env'.linkBreaks);
    ReadsThrough(node, t, found, hashes, userID, env);
    ReadsThrough(node, u, found', hashes, userID, env');
  }

  lemma NothingMissing(node: Node, t: Tables, found: seq<Loaded>, hashes: seq<string>, userID: int, env: Env,
                       found': seq<Loaded>)
    requires Faithful(node) && Coherent(node, t) && Possible(node, t, found, hashes, userID, env)
    requires Call(t, found, hashes, userID, env).1.Records? && forall h :: h in hashes ==> Canonical(node, h)
    requires var u := Call(t, found, hashes, userID, env).0;
             Coherent(node, u) && Finds(u, hashes, userID, found')
    ensures Missing(hashes, Available(found')) == []
  {
    var u := Call(t, found, hashes, userID, env).0;
    AvailableKnown(node, u, userID, found');
    var avail, missing := Available(found'), Missing(hashes, Available(found'));
    forall h | h in hashes ensures h in avail {
      AnsweredIsStored(node, t, found, hashes, userID, env, h);
      assert FaithfulAt(node, h);
      assert Lower(h) == h && h in Wanted(u, hashes);
    }
    MissingIsRest(hashes, avail);
    HasMember(missing);
  }

  lemma HasMember(s: seq<string>)
    ensures s != [] ==> exists h :: h in s
  {
    if s != [] {
      assert s[0] in s;
    }
  }

  lemma AnsweredIsStored(node: Node, t: Tables, found: seq<Loaded>, hashes: seq<string>, userID: int, env: Env,
                         h: string)
    requires Faithful(node) && Coherent(node, t) && Possible(node, t, found, hashes, userID, env)
    requires Call(t, found, hashes, userID, env).1.Records? && h in hashes && Canonical(node, h)
    ensures var u := Call(t, found, hashes, userID, env).0;
            h in u.rows && (userID != NON_AUTHENTICATED_USER ==> (userID, h) in u.links)
  {
    AvailableIffCanonical(node, t, found, hashes, userID, env, h);
    AvailableIsStored(node, t, found, hashes, userID, env, h);
  }

  lemma AllLinkedAlready(node: Node, t: Tables, found: seq<Loaded>, hashes: seq<string>, userID: int, env: Env,
                         found': seq<Loaded>)
    requires Faithful(node) && Coherent(node, t) && Possible(node, t, found, hashes, userID, env)
    requires Call(t, found, hashes, userID, env).1.Records? && forall h :: h in hashes ==> Canonical(node, h)
    requires Finds(Call(t, found, hashes, userID, env).0, hashes, userID, found')
    ensures userID != NON_AUTHENTICATED_USER ==> forall l :: l in found' ==> l.linked
  {
    var u := Call(t, found, hashes, userID, env).0;
    if userID != NON_AUTHENTICATED_USER {
      forall l | l in found' ensures l.linked {
        assert l.tx.hash in Keys(found');
        var h :| h in hashes && Lower(h) == l.tx.hash;
        assert FaithfulAt(node, h);
        assert Lower(h) == h;
        AnsweredIsStored(node, t, found, hashes, userID, env, h);
        assert RowOf(u, userID, l);
      }
    }
  }

  lemma {:induction false} LinkedChangesNothing(t: Tables, ls: seq<Loaded>, userID: int, breaks: nat -> bool)
    requires userID != NON_AUTHENTICATED_USER ==> forall l :: l in ls ==> l.linked
    ensures LinkAll(t, ls, userID, breaks) == (t, None)
  {
    if ls != [] {
      LinkedChangesNothing(t, ls[..|ls| - 1], userID, breaks);
    }
  }

  // ---------- runs ----------

  datatype Request = Request(hashes: seq<string>, userID: int, found: seq<Loaded>, env: Env)

  /** The tables after a sequence of calls, handled one at a time. */
  function AfterCalls(t: Tables, calls: seq<Request>): Tables {
    if calls == [] then t
    else
      var c := calls[|calls| - 1];
      Call(AfterCalls(t, calls[..|calls| - 1]), c.found, c.hashes, c.userID, c.env).0
  }

  ghost predicate AllPossible(node: Node, t: Tables, calls: seq<Request>) {
    forall i :: 0 <= i < |calls| ==>
      Possible(node, AfterCalls(t, calls[..i]), calls[i].found, calls[i].hashes, calls[i].userID, calls[i].env)
  }

  ghost predicate Honest(node: Node, t: Tables, c: Request) {
    var reply := Call(t, c.found, c.hashes, c.userID, c.env).1;
    reply.Records? ==> reply.list == Expected(node, c.hashes)
  }

  /** Over any sequence of calls, answered, failed or cancelled, the store stays a coherent cache of the
      chain, and every answered call returned the chain records of its canonical hashes. */
  lemma CacheStaysCoherent(node: Node, t: Tables, calls: seq<Request>)
    requires Faithful(node) && Coherent(node, t) && AllPossible(node, t, calls)
    ensures Coherent(node, AfterCalls(t, calls))
    ensures forall i :: 0 <= i < |calls| ==> Honest(node, AfterCalls(t, calls[..i]), calls[i])
  {
    forall i | 0 <= i < |calls| ensures Honest(node, AfterCalls(t, calls[..i]), calls[i]) {
      CoherentBefore(node, t, calls, i);
      LastCallHonest(node, AfterCalls(t, calls[..i]), calls[i]);
    }
    CoherentBefore(node, t, calls, |calls|);
    assert calls[..|calls|] == calls;
  }

  lemma {:induction false} CoherentBefore(node: Node, t: Tables, calls: seq<Request>, n: nat)
    requires Faithful(node) && Coherent(node, t) && AllPossible(node, t, calls) && n <= |calls|
    ensures Coherent(node, AfterCalls(t, calls[..n]))
  {
    if n > 0 {
      CoherentBefore(node, t, calls, n - 1);
      assert calls[..n][..n - 1] == calls[..n - 1];
      LastCallHonest(node, AfterCalls(t, calls[..n - 1]), calls[n - 1]);
    }
  }

  lemma LastCallHonest(node: Node, t: Tables, c: Request)
    requires Faithful(node) && Coherent(node, t) && Possible(node, t, c.found, c.hashes, c.userID, c.env)
    ensures Honest(node, t, c) && Coherent(node, Call(t, c.found, c.hashes, c.userID, c.env).0)
  {
    CallPersistsPrefix(node, t, c.found, c.hashes, c.userID, c.env);
    if Call(t, c.found, c.hashes, c.userID, c.env).1.Records? {
      ReadsThrough(node, t, c.found, c.hashes, c.userID, c.env);
    }
  }
}
