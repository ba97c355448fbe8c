/** The lists of the users (GetMyTransactions): what a call adds to its user's list, and that no call touches
    the list of another. */
module UserLists {
  import opened Prelude
  import opened Chain
  import opened Store
  import opened Service
  import opened ReadThrough
  import Shared
  import SharedLinks

  function AsSet(txs: seq<Tx>): set<Tx> {
    set tx | tx in txs
  }

  /** A user without links has nothing in his list, and no other user has. */
  lemma EmptyIff(t: Tables, userID: int)
    requires Sound(t)
    ensures Mine(t, userID) == {} <==> forall l :: l in t.links ==> l.0 != userID
  {
    forall l | l in t.links && l.0 == userID ensures t.rows[l.1] in Mine(t, userID) {
      assert l == (userID, l.1);
    }
  }

  /** On a coherent store a list holds the chain records of the linked hashes. */
  lemma MineIff(node: Node, t: Tables, userID: int, tx: Tx)
    requires Coherent(node, t)
    ensures tx in Mine(t, userID) <==> (userID, tx.hash) in t.links && ChainRecord(node, tx.hash) == Some(tx)
  {
  }

  // ---------- one call ----------

  /** The chain records of texts whose records are known are filed under their own hashes. */
  lemma {:induction false} RecordsFiled(node: Node, hashes: seq<string>)
    requires Faithful(node)
    ensures forall tx :: tx in ChainRecords(node, hashes) ==> ChainRecord(node, tx.hash) == Some(tx)
  {
    if hashes != [] {
      RecordsFiled(node, hashes[..|hashes| - 1]);
      assert FaithfulAt(node, hashes[|hashes| - 1]);
    }
  }

  lemma FoundFiled(node: Node, t: Tables, userID: int, found: seq<Loaded>, p: nat)
    requires Coherent(node, t) && (forall l :: l in found ==> RowOf(t, userID, l)) && p <= |found|
    ensures forall tx :: tx in LoadedTxs(found[..p]) ==> ChainRecord(node, tx.hash) == Some(tx)
  {
    forall tx | tx in LoadedTxs(found[..p]) ensures ChainRecord(node, tx.hash) == Some(tx) {
      var k :| 0 <= k < p && LoadedTxs(found[..p])[k] == tx;
      assert found[k] in found;
    }
  }

  lemma LinkOf(txs: seq<Tx>, userID: int, v: int, h: string)
    ensures (v, h) in LinksOf(txs, userID)
            <==> v == userID != NON_AUTHENTICATED_USER && exists tx :: tx in txs && tx.hash == h
  {
  }

  /** Lists after the links of the found rows and then the fetched records went in for one user. */
  lemma ListsGrow(node: Node, t: Tables, found: seq<Loaded>, missing: seq<string>, userID: int, p: nat, m: nat,
                  u: Tables, v: int)
    requires Faithful(node) && Coherent(node, t) && Coherent(node, u) && p <= |found| && m <= |missing|
    requires forall l :: l in found ==> RowOf(t, userID, l)
    requires PrefixPersisted(node, t, found, missing, userID, p, m, false, u)
    ensures Mine(u, v) == Mine(t, v) + (if v == userID != NON_AUTHENTICATED_USER
                                        then AsSet(LoadedTxs(found[..p])) + AsSet(ChainRecords(node, missing[..m]))
                                        else {})
  {
    var linked, fetched := LoadedTxs(found[..p]), ChainRecords(node, missing[..m]);
    FoundFiled(node, t, userID, found, p);
    RecordsFiled(node, missing[..m]);
    forall tx
      ensures tx in Mine(u, v) <==> tx in Mine(t, v)
                                    || (v == userID != NON_AUTHENTICATED_USER && (tx in linked || tx in fetched))
    {
      MineIff(node, u, v, tx);
      MineIff(node, t, v, tx);
      LinkOf(linked, userID, v, tx.hash);
      LinkOf(fetched, userID, v, tx.hash);
    }
  }

  /** The list of v after a call of a user: as before, and for the user himself also the found rows and the
      fetched records that the call got to, all of them if it answered. */
  ghost predicate ListAfter(node: Node, t: Tables, found: seq<Loaded>, missing: seq<string>, userID: int,
                            answered: bool, u: Tables) {
    exists p: nat, m: nat ::
      && p <= |found| && m <= |missing| && (answered ==> p == |found| && m == |missing|)
      && Mine(u, userID) == Mine(t, userID) + AsSet(LoadedTxs(found[..p])) + AsSet(ChainRecords(node, missing[..m]))
  }

  lemma ListAfterPrefix(node: Node, t: Tables, found: seq<Loaded>, missing: seq<string>, userID: int,
                        answered: bool, u: Tables)
    requires Faithful(node) && Coherent(node, t) && Coherent(node, u)
    requires forall l :: l in found ==> RowOf(t, userID, l)
    requires SomePrefix(node, t, found, missing, userID, answered, u)
    ensures forall v :: v != userID || v == NON_AUTHENTICATED_USER ==> Mine(u, v) == Mine(t, v)
    ensures userID != NON_AUTHENTICATED_USER ==> ListAfter(node, t, found, missing, userID, answered, u)
  {
    var p: nat, m: nat :| PrefixPersisted(node, t, found, missing, userID, p, m, answered, u);
    forall v | v != userID || v == NON_AUTHENTICATED_USER ensures Mine(u, v) == Mine(t, v) {
      ListsGrow(node, t, found, missing, userID, p, m, u, v);
    }
    ListsGrow(node, t, found, missing, userID, p, m, u, userID);
  }

  /** A call whose lookup fails changes nothing. */
  lemma ListUntouched(node: Node, t: Tables, found: seq<Loaded>, missing: seq<string>, userID: int)
    ensures ListAfter(node, t, found, missing, userID, false, t)
  {
    assert found[..0] == [] && missing[..0] == [];
    assert Mine(t, userID) == Mine(t, userID) + AsSet(LoadedTxs(found[..0])) + AsSet(ChainRecords(node, missing[..0]));
  }

  /** After any call, answered or not, the list of every other user is what it was, and the caller's list is
      what it was together with the found rows it linked and the chain records it stored: all found rows and
      the records of all missing texts if the call answered. Without a user no list changes. */
  lemma ListsAfterCall(node: Node, t: Tables, found: seq<Loaded>, hashes: seq<string>, userID: int, env: Env)
    requires Faithful(node) && Coherent(node, t) && Possible(node, t, found, hashes, userID, env)
    ensures var (u, reply) := Call(t, found, hashes, userID, env);
            && (forall v :: v != userID || v == NON_AUTHENTICATED_USER ==> Mine(u, v) == Mine(t, v))
            && (userID != NON_AUTHENTICATED_USER ==>
                  ListAfter(node, t, found, Missing(hashes, Available(found)), userID, reply.Records?, u))
  {
    if env.lookupFails {
      ListUntouched(node, t, found, Missing(hashes, Available(found)), userID);
    } else {
      CallPersistsPrefix(node, t, found, hashes, userID, env);
      var (u, reply) := Call(t, found, hashes, userID, env);
      ListAfterPrefix(node, t, found, Missing(hashes, Available(found)), userID, reply.Records?, u);
    }
  }

  // ---------- many calls ----------

  /** Over any sequence of calls the list of a user who makes none of them stays what it was. */
  lemma {:induction false} StrangersList(node: Node, t: Tables, calls: seq<Request>, v: int)
    requires Faithful(node) && Coherent(node, t) && AllPossible(node, t, calls)
    requires forall i :: 0 <= i < |calls| ==> calls[i].userID != v || v == NON_AUTHENTICATED_USER
    ensures Mine(AfterCalls(t, calls), v) == Mine(t, v)
  {
    if calls != [] {
      var n := |calls| - 1;
      var c := calls[n];
      assert forall i :: 0 <= i <= n ==> calls[..n][..i] == calls[..i];
      StrangersList(node, t, calls[..n], v);
      CoherentBefore(node, t, calls, n);
      ListsAfterCall(node, AfterCalls(t, calls[..n]), c.found, c.hashes, c.userID, c.env);
    }
  }

  /** In every run of calls beside each other on one database a user's list holds, and holds only, the chain
      records that were in it before, that a lookup linked for him, or that a call of his own stored. */
  lemma ListInRun(u: Shared.Setup, maxCredits: nat, missing: seq<seq<string>>, t: Tables, run: seq<Shared.Event>,
                  w: Shared.World, userID: int, tx: Tx)
    requires Shared.Reached(u, maxCredits, missing, t, run, w) && userID != NON_AUTHENTICATED_USER
    requires Faithful(u.cfg.node) && Coherent(u.cfg.node, t)
    ensures SharedLinks.Shape(u, w)
    ensures tx in Mine(w.t, userID) <==>
            && ChainRecord(u.cfg.node, tx.hash) == Some(tx)
            && (tx in Mine(t, userID) || (userID, tx.hash) in w.looked
                || SharedLinks.StoredFor(u, w, userID, tx.hash))
  {
    SharedLinks.ReachedInv(u, maxCredits, missing, t, run, w);
    Shared.SharedStaysCoherent(u, maxCredits, missing, t, run, w);
    assert SharedLinks.Origin(u, t, w, userID, tx.hash);
    MineIff(u.cfg.node, w.t, userID, tx);
    MineIff(u.cfg.node, t, userID, tx);
  }
}
