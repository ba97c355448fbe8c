/** Exactly when a call meets no obstacle: a user's request is refused by the primary key of
    user_transactions when a fetched record is linked to the user already. */
module Repeats {
  import opened Prelude
  import opened Chain
  import opened Store
  import opened Service
  import opened ReadThrough

  /** The database, the pool and the node all do their part. */
  ghost predicate Healthy(node: Node, missing: seq<string>, env: Env) {
    && !env.lookupFails && (forall i :: !env.linkBreaks(i)) && (forall i :: !env.refused(i))
    && (forall i :: env.faults(i) == NoFault)
    && (forall k :: 0 <= k < |missing| ==> Fetches(node, missing[k], env.arrives(k)))
  }

  ghost predicate Fetches(node: Node, hash: string, a: Arrival) {
    ChainRecord(node, hash).Some? && a == Got(TxResult(ChainRecord(node, hash), None))
  }

  ghost predicate NoRepeats(s: seq<string>) {
    forall i, j :: 0 <= i < j < |s| ==> s[i] != s[j]
  }

  /** A text that is asked for twice is available. */
  ghost predicate RepeatsAvailable(hashes: seq<string>, avail: map<string, Tx>) {
    forall i, j :: 0 <= i < j < |hashes| && hashes[i] == hashes[j] ==> hashes[i] in avail
  }

  lemma NoRepeatsIff(hashes: seq<string>, avail: map<string, Tx>)
    ensures NoRepeats(Missing(hashes, avail)) <==> RepeatsAvailable(hashes, avail)
  {
    var missing := Missing(hashes, avail);
    var at := MissingInOrder(hashes, avail);
    if NoRepeats(missing) {
      assert forall i: nat, j: nat :: i < j < |hashes| && hashes[i] !in avail && hashes[j] !in avail ==>
          i in at && j in at;
    } else {
      var k, m :| 0 <= k < m < |missing| && missing[k] == missing[m];
      assert at[k] in at && hashes[at[k]] !in avail && hashes[at[k]] == hashes[at[m]];
    }
  }

  /** The record of missing text i is not linked to the user, neither before the collecting starts nor by
      an earlier missing text. */
  ghost predicate IsNew(node: Node, t: Tables, missing: seq<string>, i: nat, userID: int)
    requires i < |missing|
  {
    var h := HashOf(node, missing[i]);
    h.Some? ==> (userID, h.value) !in t.links && !Fetched(node, missing, i, h.value)
  }

  ghost predicate AllNew(node: Node, t: Tables, missing: seq<string>, n: nat, userID: int)
    requires n <= |missing|
  {
    forall i :: 0 <= i < n ==> IsNew(node, t, missing, i, userID)
  }

  lemma AllNewSnoc(node: Node, t: Tables, missing: seq<string>, n: nat, userID: int)
    requires n < |missing|
    ensures AllNew(node, t, missing, n + 1, userID)
            <==> AllNew(node, t, missing, n, userID) && IsNew(node, t, missing, n, userID)
  {
  }

  lemma RecordsHash(node: Node, missing: seq<string>, n: nat, h: string)
    requires n <= |missing|
    ensures (exists tx :: tx in ChainRecords(node, missing[..n]) && tx.hash == h) <==> Fetched(node, missing, n, h)
  {
    if Fetched(node, missing, n, h) {
      var k :| 0 <= k < n && HashOf(node, missing[k]) == Some(h);
      RecordsAt(node, missing[..n], k);
    } else {
      RecordIsFetched(node, missing, n, h);
    }
  }

  lemma {:induction false} RecordIsFetched(node: Node, missing: seq<string>, n: nat, h: string)
    requires n <= |missing| && !Fetched(node, missing, n, h)
    ensures forall tx :: tx in ChainRecords(node, missing[..n]) ==> tx.hash != h
  {
    if n > 0 {
      assert missing[..n][..n - 1] == missing[..n - 1];
      FetchedSnoc(node, missing, n, h);
      RecordIsFetched(node, missing, n - 1, h);
    }
  }

  /** The user's links once the records of n missing texts are stored. */
  lemma LinksSoFar(node: Node, t: Tables, missing: seq<string>, n: nat, userID: int, h: string)
    requires userID != NON_AUTHENTICATED_USER && n <= |missing|
    ensures (userID, h) in Stored(t, ChainRecords(node, missing[..n]), userID).links
            <==> (userID, h) in t.links || Fetched(node, missing, n, h)
  {
    RecordsHash(node, missing, n, h);
    var txs := ChainRecords(node, missing[..n]);
    assert (userID, h) in LinksOf(txs, userID) <==> exists tx :: tx in txs && tx.hash == h;
  }

  /** One more text of a known user is collected unless its record is linked. */
  lemma CollectsOneMore(node: Node, t: Tables, avail: map<string, Tx>, text: string, userID: int, a: Arrival)
    requires Sound(t) && Fetches(node, text, a)
    requires userID != NON_AUTHENTICATED_USER && userID in t.users
    ensures CollectOne(t, avail, userID, a, NoFault).stop.None? <==> (userID, HashOf(node, text).value) !in t.links
  {
  }

  lemma HealthyPoolAnswers(node: Node, missing: seq<string>, env: Env)
    requires Healthy(node, missing, env)
    ensures PoolAnswers(node, missing, env)
  {
    forall k | 0 <= k < |missing| ensures Answers(node, missing[k], env.arrives(k).res) {
      assert Fetches(node, missing[k], env.arrives(k));
    }
  }

  /** The tables in the middle of a healthy collecting loop. */
  lemma TablesSoFar(node: Node, t: Tables, avail: map<string, Tx>, missing: seq<string>, n: nat, userID: int, env: Env)
    requires Faithful(node) && Coherent(node, t) && Known(node, avail) && Healthy(node, missing, env) && n <= |missing|
    requires CollectAll(t, avail, n, userID, env).stop.None?
    ensures var u := CollectAll(t, avail, n, userID, env).t;
            Sound(u) && u.users == t.users && u == Stored(t, ChainRecords(node, missing[..n]), userID)
  {
    HealthyPoolAnswers(node, missing, env);
    CollectsStored(node, t, avail, missing, n, userID, env);
    CollectsChain(node, t, avail, missing, n, userID, env);
  }

  /** Whether the loop goes on after n texts of a known user. */
  lemma OneMoreIff(node: Node, t: Tables, avail: map<string, Tx>, missing: seq<string>, n: nat, userID: int, env: Env)
    requires Faithful(node) && Coherent(node, t) && Known(node, avail) && Healthy(node, missing, env) && n < |missing|
    requires userID != NON_AUTHENTICATED_USER && userID in t.users
    requires CollectAll(t, avail, n, userID, env).stop.None?
    ensures CollectAll(t, avail, n + 1, userID, env).stop.None? <==> IsNew(node, t, missing, n, userID)
  {
    var c := CollectAll(t, avail, n, userID, env);
    assert Fetches(node, missing[n], env.arrives(n)) && env.faults(n) == NoFault;
    TablesSoFar(node, t, avail, missing, n, userID, env);
    CollectsOneMore(node, c.t, c.avail, missing[n], userID, env.arrives(n));
    LinksSoFar(node, t, missing, n, userID, HashOf(node, missing[n]).value);
  }

  predicate GoesOn(t: Tables, avail: map<string, Tx>, n: nat, userID: int, env: Env) {
    CollectAll(t, avail, n, userID, env).stop.None?
  }

  lemma {:induction false} GoesOnWhileNew(node: Node, t: Tables, avail: map<string, Tx>, missing: seq<string>, n: nat,
                                          userID: int, env: Env)
    requires n <= |missing|
    requires forall m: nat :: m < n && GoesOn(t, avail, m, userID, env) ==>
               (GoesOn(t, avail, m + 1, userID, env) <==> IsNew(node, t, missing, m, userID))
    ensures GoesOn(t, avail, n, userID, env) <==> AllNew(node, t, missing, n, userID)
  {
    if n > 0 {
      GoesOnWhileNew(node, t, avail, missing, n - 1, userID, env);
      AllNewSnoc(node, t, missing, n - 1, userID);
    }
  }

  /** Collecting a known user's texts goes on until a record is linked already. */
  lemma CollectsWhileNew(node: Node, t: Tables, avail: map<string, Tx>, missing: seq<string>, userID: int, env: Env)
    requires Faithful(node) && Coherent(node, t) && Known(node, avail) && Healthy(node, missing, env)
    requires userID != NON_AUTHENTICATED_USER && userID in t.users
    ensures GoesOn(t, avail, |missing|, userID, env) <==> AllNew(node, t, missing, |missing|, userID)
  {
    forall m: nat | m < |missing| && GoesOn(t, avail, m, userID, env)
      ensures GoesOn(t, avail, m + 1, userID, env) <==> IsNew(node, t, missing, m, userID)
    {
      OneMoreIff(node, t, avail, missing, m, userID, env);
    }
    GoesOnWhileNew(node, t, avail, missing, |missing|, userID, env);
  }

  /** Without a user nothing stops a healthy call. */
  lemma {:induction false} CollectsForNobody(node: Node, t: Tables, avail: map<string, Tx>, missing: seq<string>,
                                             n: nat, env: Env)
    requires Healthy(node, missing, env) && n <= |missing|
    ensures CollectAll(t, avail, n, NON_AUTHENTICATED_USER, env).stop.None?
  {
    if n > 0 {
      CollectsForNobody(node, t, avail, missing, n - 1, env);
      assert Fetches(node, missing[n - 1], env.arrives(n - 1));
    }
  }

  /** An unknown user gets nothing linked. */
  lemma UnknownUserStops(node: Node, t: Tables, avail: map<string, Tx>, missing: seq<string>, userID: int, env: Env)
    requires Healthy(node, missing, env) && missing != [] && Sound(t)
    requires userID != NON_AUTHENTICATED_USER && userID !in t.users
    ensures CollectAll(t, avail, |missing|, userID, env).stop.Some?
  {
    assert Fetches(node, missing[0], env.arrives(0));
    assert CollectAll(t, avail, 0, userID, env) == Collected(t, avail, None);
    CollectStops(t, avail, |missing|, userID, env, 1);
  }

  lemma {:induction false} LinksFound(t: Tables, found: seq<Loaded>, userID: int, breaks: nat -> bool)
    requires (forall i :: !breaks(i)) && (forall l :: l in found ==> l.tx.hash in t.rows)
    requires userID == NON_AUTHENTICATED_USER || userID in t.users
    ensures LinkAll(t, found, userID, breaks).1.None? && LinkAll(t, found, userID, breaks).0.rows == t.rows
    ensures LinkAll(t, found, userID, breaks).0.users == t.users
  {
    if found != [] {
      LinksFound(t, found[..|found| - 1], userID, breaks);
      assert found[|found| - 1] in found;
    }
  }

  lemma {:induction false} RefusesUnknownUser(t: Tables, found: seq<Loaded>, userID: int, breaks: nat -> bool)
    requires Sound(t) && (forall l :: l in found ==> RowOf(t, userID, l)) && found != []
    requires userID != NON_AUTHENTICATED_USER && userID !in t.users
    ensures LinkAll(t, found, userID, breaks).1.Some?
  {
    var n := |found| - 1;
    assert found[n] in found;
    if n > 0 {
      RefusesUnknownUser(t, found[..n], userID, breaks);
    } else {
      assert found[..0] == [] && LinkAll(t, found[..0], userID, breaks) == (t, None);
    }
  }

  /** The records of the missing texts are pairwise different, and none is linked to the user, neither in
      the tables nor by the found rows. */
  ghost predicate NewRecords(node: Node, t: Tables, found: seq<Loaded>, missing: seq<string>, userID: int) {
    && (forall i, j :: 0 <= i < j < |missing| ==> HashOf(node, missing[i]) != HashOf(node, missing[j]))
    && (forall i :: 0 <= i < |missing| ==> Unlinked(t, found, HashOf(node, missing[i]), userID))
  }

  predicate Unlinked(t: Tables, found: seq<Loaded>, h: Option<string>, userID: int) {
    h.Some? ==> h.value !in Keys(found) && (userID, h.value) !in t.links
  }

  lemma LinkedTables(t: Tables, found: seq<Loaded>, userID: int, h: string)
    requires userID != NON_AUTHENTICATED_USER
    ensures (userID, h) in t.links + LinksOf(LoadedTxs(found), userID) <==> (userID, h) in t.links || h in Keys(found)
  {
    var txs := LoadedTxs(found);
    if h in Keys(found) {
      var l :| l in found && l.tx.hash == h;
      var i :| 0 <= i < |found| && found[i] == l;
      assert txs[i] == l.tx && txs[i] in txs;
    }
    assert forall tx :: tx in txs ==> exists i :: 0 <= i < |found| && found[i].tx == tx && found[i] in found;
  }

  lemma NewRecordsAreNew(node: Node, t: Tables, found: seq<Loaded>, missing: seq<string>, userID: int, linked: Tables)
    requires userID != NON_AUTHENTICATED_USER && (forall i :: 0 <= i < |missing| ==> HashOf(node, missing[i]).Some?)
    requires linked == t.(links := t.links + LinksOf(LoadedTxs(found), userID))
    ensures NewRecords(node, t, found, missing, userID)
            <==> AllNew(node, linked, missing, |missing|, userID)
  {
    forall i | 0 <= i < |missing|
      ensures Unlinked(t, found, HashOf(node, missing[i]), userID)
              <==> (userID, HashOf(node, missing[i]).value) !in linked.links
    {
      LinkedTables(t, found, userID, HashOf(node, missing[i]).value);
    }
    forall i | 0 <= i < |missing|
      ensures IsNew(node, linked, missing, i, userID)
              <==> Unlinked(t, found, HashOf(node, missing[i]), userID) && !FetchedBefore(node, missing, i)
    {
    }
    DistinctIffNotFetched(node, missing);
  }

  ghost predicate FetchedBefore(node: Node, missing: seq<string>, i: nat)
    requires i < |missing|
  {
    HashOf(node, missing[i]).Some? && Fetched(node, missing, i, HashOf(node, missing[i]).value)
  }

  lemma DistinctIffNotFetched(node: Node, missing: seq<string>)
    requires forall i :: 0 <= i < |missing| ==> HashOf(node, missing[i]).Some?
    ensures (forall i, j :: 0 <= i < j < |missing| ==> HashOf(node, missing[i]) != HashOf(node, missing[j]))
            <==> forall j :: 0 <= j < |missing| ==> !FetchedBefore(node, missing, j)
  {
    forall i, j | 0 <= i < j < |missing| && HashOf(node, missing[i]) == HashOf(node, missing[j])
      ensures FetchedBefore(node, missing, j)
    {
    }
  }

  /** A healthy call answers exactly when there is no user, or nothing is asked, or the user exists and
      the records of the missing texts are new to the user and to each other. */
  lemma HealthyCallAnswersIff(node: Node, t: Tables, found: seq<Loaded>, hashes: seq<string>, userID: int, env: Env)
    requires Faithful(node) && Coherent(node, t) && Finds(t, hashes, userID, found)
    requires Healthy(node, Missing(hashes, Available(found)), env)
    ensures Call(t, found, hashes, userID, env).1.Records?
            <==> userID == NON_AUTHENTICATED_USER || hashes == []
                 || (userID in t.users && NewRecords(node, t, found, Missing(hashes, Available(found)), userID))
  {
    if userID == NON_AUTHENTICATED_USER {
      NobodyIsAnswered(node, t, found, hashes, env);
    } else if userID !in t.users {
      StrangerIsRefused(node, t, found, hashes, userID, env);
    } else {
      UserIsAnsweredIff(node, t, found, hashes, userID, env);
      if hashes == [] {
        assert Missing(hashes, Available(found)) == [];
      }
    }
  }

  lemma NobodyIsAnswered(node: Node, t: Tables, found: seq<Loaded>, hashes: seq<string>, env: Env)
    requires Finds(t, hashes, NON_AUTHENTICATED_USER, found) && Healthy(node, Missing(hashes, Available(found)), env)
    ensures Call(t, found, hashes, NON_AUTHENTICATED_USER, env).1.Records?
  {
    var missing := Missing(hashes, Available(found));
    LinksFound(t, found, NON_AUTHENTICATED_USER, env.linkBreaks);
    var linked := LinkAll(t, found, NON_AUTHENTICATED_USER, env.linkBreaks).0;
    CollectsForNobody(node, linked, Available(found), missing, |missing|, env);
  }

  lemma StrangerIsRefused(node: Node, t: Tables, found: seq<Loaded>, hashes: seq<string>, userID: int, env: Env)
    requires Coherent(node, t) && Finds(t, hashes, userID, found)
    requires Healthy(node, Missing(hashes, Available(found)), env)
    requires userID != NON_AUTHENTICATED_USER && userID !in t.users
    ensures Call(t, found, hashes, userID, env).1.Records? <==> hashes == []
  {
    var avail := Available(found);
    var missing := Missing(hashes, avail);
    AvailableKnown(node, t, userID, found);
    MissingIsRest(hashes, avail);
    if hashes == [] {
      NothingAsked(t, found, userID);
      assert LinkAll(t, found, userID, env.linkBreaks) == (t, None);
    } else if found != [] {
      RefusesUnknownUser(t, found, userID, env.linkBreaks);
    } else {
      assert LinkAll(t, found, userID, env.linkBreaks) == (t, None) && avail == map[];
      HasMember(hashes);
      UnknownUserStops(node, t, avail, missing, userID, env);
    }
  }

  lemma UserIsAnsweredIff(node: Node, t: Tables, found: seq<Loaded>, hashes: seq<string>, userID: int, env: Env)
    requires Faithful(node) && Coherent(node, t) && Finds(t, hashes, userID, found)
    requires Healthy(node, Missing(hashes, Available(found)), env)
    requires userID != NON_AUTHENTICATED_USER && userID in t.users
    ensures Call(t, found, hashes, userID, env).1.Records?
            <==> NewRecords(node, t, found, Missing(hashes, Available(found)), userID)
  {
    var avail := Available(found);
    var missing := Missing(hashes, avail);
    var linked := LinkAll(t, found, userID, env.linkBreaks).0;
    assert LinkAll(t, found, userID, env.linkBreaks).1.None? && userID in linked.users
           && Coherent(node, linked) && linked == t.(links := t.links + LinksOf(LoadedTxs(found), userID)) by {
      LinksFound(t, found, userID, env.linkBreaks);
      LinkedPrefix(node, t, found, missing, userID, env.linkBreaks);
    }
    AvailableKnown(node, t, userID, found);
    CollectsWhileNew(node, linked, avail, missing, userID, env);
    forall i | 0 <= i < |missing| ensures HashOf(node, missing[i]).Some? {
      assert Fetches(node, missing[i], env.arrives(i));
    }
    NewRecordsAreNew(node, t, found, missing, userID, linked);
  }

  lemma NothingAsked(t: Tables, found: seq<Loaded>, userID: int)
    requires Finds(t, [], userID, found)
    ensures found == []
  {
    assert Keys(found) == {};
    assert found != [] ==> found[0].tx.hash in Keys(found);
  }

  lemma CanonicalMissingNotStored(node: Node, t: Tables, found: seq<Loaded>, hashes: seq<string>, userID: int,
                                  h: string)
    requires Faithful(node) && Coherent(node, t) && Finds(t, hashes, userID, found)
    requires Canonical(node, h) && h in Missing(hashes, Available(found))
    ensures h !in t.rows && h !in Keys(found)
  {
    MissingIsRest(hashes, Available(found));
    AvailableKnown(node, t, userID, found);
    assert FaithfulAt(node, h);
    assert Lower(h) == h;
    assert h in t.rows ==> h in Wanted(t, hashes);
  }

  /** For canonical hashes the condition is that none of the missing ones is asked for twice. */
  lemma CanonicalNewIff(node: Node, t: Tables, found: seq<Loaded>, hashes: seq<string>, userID: int)
    requires Faithful(node) && Coherent(node, t) && Finds(t, hashes, userID, found)
    requires forall h :: h in hashes ==> Canonical(node, h)
    ensures NewRecords(node, t, found, Missing(hashes, Available(found)), userID)
            <==> RepeatsAvailable(hashes, Available(found))
  {
    NoRepeatsIff(hashes, Available(found));
    var missing := Missing(hashes, Available(found));
    MissingIsRest(hashes, Available(found));
    forall i | 0 <= i < |missing|
      ensures HashOf(node, missing[i]) == Some(missing[i]) && Unlinked(t, found, HashOf(node, missing[i]), userID)
    {
      assert missing[i] in missing;
      CanonicalMissingNotStored(node, t, found, hashes, userID, missing[i]);
    }
  }

  lemma MissingTwo(h: string, g: string)
    ensures Missing([h, g], map[]) == [h, g]
  {
    assert [h][..0] == [] && Missing([h], map[]) == Missing([], map[]) + [h] == [h];
    assert [h, g][..1] == [h] && Missing([h, g], map[]) == Missing([h], map[]) + [g];
  }

  lemma TwoTextsNotNew(node: Node, t: Tables, g: string, h: string, userID: int)
    requires ChainRecord(node, g) == ChainRecord(node, h)
    ensures !NewRecords(node, t, [], [h, g], userID)
  {
    assert [h, g][0] == h && [h, g][1] == g;
  }

  /** Two different texts of one record, neither repeated, are refused to a known user. */
  lemma OtherTextIsRefused(node: Node, t: Tables, g: string, h: string, userID: int, env: Env)
    requires Faithful(node) && Coherent(node, t) && g != h && ChainRecord(node, g) == ChainRecord(node, h)
    requires Lower(g) !in t.rows && Lower(h) !in t.rows && Healthy(node, [h, g], env)
    requires userID != NON_AUTHENTICATED_USER && userID in t.users
    ensures NoRepeats([h, g]) && Call(t, [], [h, g], userID, env).1.Error?
  {
    MissingTwo(h, g);
    assert Wanted(t, [h, g]) == {} && Keys([]) == {};
    UserIsAnsweredIff(node, t, [], [h, g], userID, env);
    TwoTextsNotNew(node, t, g, h, userID);
  }

  lemma MissingOne(g: string)
    ensures Missing([g], map[]) == [g]
  {
    assert [g][..0] == [] && Missing([g], map[]) == Missing([], map[]) + [g];
  }

  lemma NobodyReads(node: Node, t: Tables, found: seq<Loaded>, hashes: seq<string>, env: Env)
    requires Faithful(node) && Coherent(node, t) && Finds(t, hashes, NON_AUTHENTICATED_USER, found)
    requires Healthy(node, Missing(hashes, Available(found)), env)
    ensures Call(t, found, hashes, NON_AUTHENTICATED_USER, env).1 == Records(Expected(node, hashes))
  {
    NobodyIsAnswered(node, t, found, hashes, env);
    HealthyPoolAnswers(node, Missing(hashes, Available(found)), env);
    ReadsThrough(node, t, found, hashes, NON_AUTHENTICATED_USER, env);
  }

  lemma OneText(node: Node, g: string)
    requires !Canonical(node, g)
    ensures Expected(node, [g]) == []
  {
    assert [g][..0] == [] && Expected(node, [g]) == Expected(node, []);
  }

  /** A text that is not the hash of its own record is fetched and then left out of the answer. */
  lemma OtherTextIsDropped(node: Node, t: Tables, g: string, env: Env)
    requires Faithful(node) && Coherent(node, t) && ChainRecord(node, g).Some? && !Canonical(node, g)
    requires Lower(g) !in t.rows && Healthy(node, [g], env)
    ensures Call(t, [], [g], NON_AUTHENTICATED_USER, env).1 == Records([])
  {
    MissingOne(g);
    assert Wanted(t, [g]) == {} && Keys([]) == {};
    NobodyReads(node, t, [], [g], env);
    OneText(node, g);
  }
}
