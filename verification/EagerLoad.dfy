/** The in-memory relations of the models: loading, adding and removing the users of transactions. */
module EagerLoad {
  import opened Prelude
  import opened Store

  /** models.Transaction with R.Users; the relation is absent while R is nil. */
  class Transaction {
    const hash: string
    var relation: Option<seq<User>>

    constructor (hash: string)
      ensures this.hash == hash && relation.None?
    {
      this.hash := hash;
      relation := None;
    }

    function Users(): seq<User>
      reads this
    {
      if relation.None? then [] else relation.value
    }
  }

  /** models.User with R.TXHashTransactions. */
  class User {
    const id: int
    var relation: Option<seq<Transaction>>

    constructor (id: int)
      ensures this.id == id && relation.None?
    {
      this.id := id;
      relation := None;
    }

    function Transactions(): seq<Transaction>
      reads this
    {
      if relation.None? then [] else relation.value
    }
  }

  /** A row of users joined with user_transactions. */
  datatype JoinRow = JoinRow(userID: int, hash: string)

  ghost predicate DistinctHashes(slice: seq<Transaction>) {
    forall i, j :: 0 <= i < j < |slice| ==> slice[i].hash != slice[j].hash
  }

  // ---------- loading ----------

  /** The items of the first n rows that carry hash h, in row order. */
  function Owned<T>(items: seq<T>, rows: seq<JoinRow>, h: string, n: nat): seq<T>
    requires n <= |items| && n <= |rows|
  {
    if n == 0 then [] else Owned(items, rows, h, n - 1) + (if rows[n - 1].hash == h then [items[n - 1]] else [])
  }

  /** A loaded user's relation: the transaction it was handed to, or none. */
  ghost predicate PointsBack(slice: seq<Transaction>, relation: Option<seq<Transaction>>, col: string) {
    && (forall k :: 0 <= k < |slice| && slice[k].hash == col ==> relation == Some([slice[k]]))
    && ((forall k :: 0 <= k < |slice| ==> slice[k].hash != col) ==> relation == None)
  }

  /** Hand one loaded user to the transaction it was joined with. */
  method Attach(slice: seq<Transaction>, foreign: User, col: string)
    requires DistinctHashes(slice) && foreign.relation == None
    modifies foreign, set t | t in slice
    ensures forall k :: 0 <= k < |slice| ==>
              slice[k].relation == if slice[k].hash == col then Some(old(slice[k].Users()) + [foreign])
                                   else old(slice[k].relation)
    ensures PointsBack(slice, foreign.relation, col)
  {
    for k := 0 to |slice|
      invariant forall i :: 0 <= i < |slice| ==> slice[i].relation == old(slice[i].relation)
      invariant foreign.relation == None
      invariant forall i :: 0 <= i < k ==> slice[i].hash != col
    {
      var local := slice[k];
      if local.hash == col {
        local.relation := Some(local.Users() + [foreign]);
        assert [] + [local] == [local];
        foreign.relation := Some(foreign.Transactions() + [local]);
        return;
      }
    }
  }

  /** Make sure that every transaction has a relation. */
  method Prepare(slice: seq<Transaction>)
    requires DistinctHashes(slice)
    modifies set t | t in slice
    ensures forall t :: t in slice ==> t.relation == Some(old(t.Users()))
  {
    for k := 0 to |slice|
      invariant forall i :: 0 <= i < k ==> slice[i].relation == Some(old(slice[i].Users()))
      invariant forall i :: k <= i < |slice| ==> slice[i].relation == old(slice[i].relation)
    {
      if slice[k].relation.None? {
        slice[k].relation := Some([]);
      }
    }
  }

  ghost predicate Scanned(loaded: seq<User>, rows: seq<JoinRow>) {
    && |loaded| == |rows| && (forall i :: 0 <= i < |rows| ==> loaded[i].id == rows[i].userID)
    && (forall i, j :: 0 <= i < j < |rows| ==> loaded[i] != loaded[j])
  }

  method Scan(rows: seq<JoinRow>) returns (loaded: seq<User>)
    ensures Scanned(loaded, rows) && forall u :: u in loaded ==> fresh(u) && u.relation == None
  {
    loaded := [];
    for i := 0 to |rows|
      invariant Scanned(loaded, rows[..i])
      invariant forall u :: u in loaded ==> fresh(u) && u.relation == None
    {
      var one := new User(rows[i].userID);
      assert rows[..i + 1] == rows[..i] + [rows[i]];
      loaded := loaded + [one];
    }
    assert rows[..|rows|] == rows;
  }

  /** The relations of the transactions after the first n rows, base before any. */
  ghost predicate Handed(slice: seq<Transaction>, base: seq<seq<User>>, loaded: seq<User>, rows: seq<JoinRow>, n: nat)
    requires |base| == |slice| && n <= |rows| == |loaded|
    reads set t | t in slice
  {
    forall k :: 0 <= k < |slice| ==> slice[k].relation == Some(base[k] + Owned(loaded, rows, slice[k].hash, n))
  }

  /** The relations of the loaded users after the first n rows. */
  ghost predicate Settled(slice: seq<Transaction>, loaded: seq<User>, rows: seq<JoinRow>, n: nat)
    requires n <= |rows| == |loaded|
    reads set u | u in loaded
  {
    && (forall k :: 0 <= k < n ==> PointsBack(slice, loaded[k].relation, rows[k].hash))
    && (forall k :: n <= k < |rows| ==> loaded[k].relation == None)
  }

  method HandOver(slice: seq<Transaction>, ghost base: seq<seq<User>>, loaded: seq<User>, rows: seq<JoinRow>, n: nat)
    requires DistinctHashes(slice) && |base| == |slice| && Scanned(loaded, rows) && n < |rows|
    requires Handed(slice, base, loaded, rows, n) && Settled(slice, loaded, rows, n)
    modifies set t | t in slice, set u | u in loaded
    ensures Handed(slice, base, loaded, rows, n + 1) && Settled(slice, loaded, rows, n + 1)
  {
    Attach(slice, loaded[n], rows[n].hash);
    assert forall k :: 0 <= k < |rows| && k != n ==> loaded[k].relation == old(loaded[k].relation);
    forall k | 0 <= k < |slice|
      ensures slice[k].relation == Some(base[k] + Owned(loaded, rows, slice[k].hash, n + 1))
    {
      var before := Owned(loaded, rows, slice[k].hash, n);
      assert base[k] + before + [loaded[n]] == base[k] + (before + [loaded[n]]) && before + [] == before;
    }
  }

  method Distribute(slice: seq<Transaction>, ghost base: seq<seq<User>>, loaded: seq<User>, rows: seq<JoinRow>)
    requires DistinctHashes(slice) && |base| == |slice| && Scanned(loaded, rows)
    requires Handed(slice, base, loaded, rows, 0) && Settled(slice, loaded, rows, 0)
    modifies set t | t in slice, set u | u in loaded
    ensures Handed(slice, base, loaded, rows, |rows|) && Settled(slice, loaded, rows, |rows|)
  {
    for i := 0 to |rows|
      invariant Handed(slice, base, loaded, rows, i) && Settled(slice, loaded, rows, i)
    {
      HandOver(slice, base, loaded, rows, i);
    }
  }

  /** LoadUsers over several transactions: each join row becomes a user that is handed, in row order, to
      the one transaction with its hash, and points back to it. */
  method LoadUsers(slice: seq<Transaction>, rows: seq<JoinRow>, fails: bool) returns (ok: bool, loaded: seq<User>)
    requires DistinctHashes(slice)
    modifies set t | t in slice
    ensures ok <==> slice == [] || !fails
    ensures !ok || slice == [] ==> loaded == [] && forall t :: t in slice ==> t.relation == Some(old(t.Users()))
    ensures ok && slice != [] ==> Scanned(loaded, rows) && forall u :: u in loaded ==> fresh(u)
    ensures ok && slice != [] ==> forall t :: t in slice ==>
              t.relation == Some(old(t.Users()) + Owned(loaded, rows, t.hash, |rows|))
    ensures ok && slice != [] ==> forall i :: 0 <= i < |rows| ==> PointsBack(slice, loaded[i].relation, rows[i].hash)
  {
    ghost var base := seq(|slice|, k requires 0 <= k < |slice| reads set t | t in slice => slice[k].Users());
    Prepare(slice);
    if |slice| == 0 {
      return true, [];
    }
    if fails {
      return false, [];
    }
    loaded := Scan(rows);
    forall k | 0 <= k < |slice| ensures slice[k].relation == Some(base[k] + []) {
      assert slice[k] in slice && base[k] + [] == base[k];
    }
    Distribute(slice, base, loaded, rows);
    forall t | t in slice ensures t.relation == Some(old(t.Users()) + Owned(loaded, rows, t.hash, |rows|)) {
      var k :| 0 <= k < |slice| && slice[k] == t;
    }
    return true, loaded;
  }

  /** owned holds the items at the positions at: all those of the first n rows with hash h, in row order. */
  ghost predicate Locates<T>(items: seq<T>, rows: seq<JoinRow>, h: string, n: nat, owned: seq<T>, at: seq<nat>)
    requires n <= |items| && n <= |rows|
  {
    && |at| == |owned|
    && (forall k :: 0 <= k < |at| ==> at[k] < n && rows[at[k]].hash == h && owned[k] == items[at[k]])
    && (forall k, m :: 0 <= k < m < |at| ==> at[k] < at[m])
    && (forall i :: 0 <= i < n && rows[i].hash == h ==> i in at)
  }

  lemma LocatesNext<T>(items: seq<T>, rows: seq<JoinRow>, h: string, n: nat, owned: seq<T>, at: seq<nat>)
    requires n < |items| && n < |rows| && rows[n].hash == h && Locates(items, rows, h, n, owned, at)
    ensures Locates(items, rows, h, n + 1, owned + [items[n]], at + [n])
  {
    var next := at + [n];
    assert next[|at|] == n;
    assert forall i :: i in at ==> i in next;
  }

  lemma LocatesSame<T>(items: seq<T>, rows: seq<JoinRow>, h: string, n: nat, owned: seq<T>, at: seq<nat>)
    requires n < |items| && n < |rows| && rows[n].hash != h && Locates(items, rows, h, n, owned, at)
    ensures Locates(items, rows, h, n + 1, owned + [], at)
  {
    assert owned + [] == owned;
  }

  /** The rows behind Owned: every row with the hash, in row order, once. */
  lemma {:induction false} OwnedAreTheRows<T>(items: seq<T>, rows: seq<JoinRow>, h: string, n: nat)
    returns (at: seq<nat>)
    requires n <= |items| && n <= |rows|
    ensures Locates(items, rows, h, n, Owned(items, rows, h, n), at)
  {
    at := [];
    if n > 0 {
      var owned := Owned(items, rows, h, n - 1);
      at := OwnedAreTheRows(items, rows, h, n - 1);
      if rows[n - 1].hash == h {
        LocatesNext(items, rows, h, n - 1, owned, at);
        at := at + [n - 1];
      } else {
        LocatesSame(items, rows, h, n - 1, owned, at);
      }
    }
  }

  /** Every loaded item goes to the hash of its row and to no other. */
  lemma OwnedByOne<T>(items: seq<T>, rows: seq<JoinRow>, i: nat, h: string)
    requires |items| == |rows| && i < |rows| && forall j, k :: 0 <= j < k < |items| ==> items[j] != items[k]
    ensures items[i] in Owned(items, rows, h, |rows|) <==> rows[i].hash == h
  {
    var at := OwnedAreTheRows(items, rows, h, |rows|);
    if rows[i].hash == h {
      var k :| 0 <= k < |at| && at[k] == i;
      assert Owned(items, rows, h, |rows|)[k] == items[i];
    }
  }

  /** What the query for one user selects: a row for each of the user's links to the hashes, in any order. */
  ghost predicate JoinsFor(t: Tables, userID: int, hashes: seq<string>, rows: seq<JoinRow>) {
    && (forall r :: r in rows ==> r.userID == userID && r.hash in hashes && (userID, r.hash) in t.links)
    && (forall h :: h in hashes && (userID, h) in t.links ==> JoinRow(userID, h) in rows)
    && (forall i, j :: 0 <= i < j < |rows| ==> rows[i] != rows[j])
  }

  lemma TwoAlike(rows: seq<JoinRow>, at: seq<nat>)
    requires |at| > 1 && at[0] < at[1] < |rows| && rows[at[0]] == rows[at[1]]
    ensures exists i, j :: 0 <= i < j < |rows| && rows[i] == rows[j]
  {
  }

  /** A row of the one user with hash h is his link to it. */
  lemma RowIsLink(t: Tables, userID: int, hashes: seq<string>, rows: seq<JoinRow>, i: nat)
    requires JoinsFor(t, userID, hashes, rows) && i < |rows|
    ensures rows[i] == JoinRow(userID, rows[i].hash) && (userID, rows[i].hash) in t.links
  {
    assert rows[i] in rows;
  }

  lemma LocatedOnce<T>(t: Tables, userID: int, hashes: seq<string>, rows: seq<JoinRow>, items: seq<T>, h: string,
                       at: seq<nat>)
    requires JoinsFor(t, userID, hashes, rows) && |items| == |rows|
    requires Locates(items, rows, h, |rows|, Owned(items, rows, h, |rows|), at)
    ensures |at| <= 1 && (at != [] ==> (userID, h) in t.links)
  {
    if at != [] {
      RowIsLink(t, userID, hashes, rows, at[0]);
    }
    if |at| > 1 {
      RowIsLink(t, userID, hashes, rows, at[1]);
      TwoAlike(rows, at);
    }
  }

  /** The relation loaded for one user is empty exactly when the link is absent, which is the test of
      InsertTransactionsUser, and it never holds more than that user. */
  lemma EmptyIffUnlinked<T>(t: Tables, userID: int, hashes: seq<string>, rows: seq<JoinRow>, items: seq<T>, h: string)
    requires JoinsFor(t, userID, hashes, rows) && |items| == |rows| && h in hashes
    ensures Owned(items, rows, h, |rows|) == [] <==> (userID, h) !in t.links
    ensures |Owned(items, rows, h, |rows|)| <= 1
    ensures forall l :: RowOf(t, userID, l) && l.tx.hash == h ==>
              l.linked == (userID != NON_AUTHENTICATED_USER && Owned(items, rows, h, |rows|) != [])
  {
    var at := OwnedAreTheRows(items, rows, h, |rows|);
    LocatedOnce(t, userID, hashes, rows, items, h, at);
    if (userID, h) in t.links {
      assert JoinRow(userID, h) in rows;
      var i :| 0 <= i < |rows| && rows[i] == JoinRow(userID, h);
      assert i in at;
    }
  }

  // ---------- adding ----------

  /** The inserts into the join table, stopping at the first error. */
  function LinkRelated(t: Tables, hash: string, ids: seq<int>, breaks: nat -> bool): (Tables, bool) {
    if ids == [] then (t, true)
    else
      var n := |ids| - 1;
      var (u, ok) := LinkRelated(t, hash, ids[..n], breaks);
      if !ok || breaks(n) || LinkError(u, ids[n], hash).Some? then (u, false) else (Linked(u, ids[n], hash), true)
  }

  function Ids(users: seq<User>): (ids: seq<int>)
    ensures |ids| == |users| && forall k :: 0 <= k < |ids| ==> ids[k] == users[k].id
  {
    seq(|users|, k requires 0 <= k < |users| => users[k].id)
  }

  function LinksTo(hash: string, ids: seq<int>): set<(int, string)> {
    set id | id in ids :: (id, hash)
  }

  /** Adding succeeds only for users that are all different and not linked before. */
  lemma {:induction false} LinkedAnew(t: Tables, hash: string, ids: seq<int>, breaks: nat -> bool)
    requires LinkRelated(t, hash, ids, breaks).1
    ensures LinkRelated(t, hash, ids, breaks).0 == t.(links := t.links + LinksTo(hash, ids))
    ensures (forall i, j :: 0 <= i < j < |ids| ==> ids[i] != ids[j]) && LinksTo(hash, ids) !! t.links
  {
    if ids == [] {
      assert t.links + LinksTo(hash, ids) == t.links;
    } else {
      var n := |ids| - 1;
      LinkedAnew(t, hash, ids[..n], breaks);
      LinksToSnoc(hash, ids[..n], ids[n]);
      assert ids == ids[..n] + [ids[n]];
      assert (ids[n], hash) !in t.links + LinksTo(hash, ids[..n]);
    }
  }

  lemma LinksToSnoc(hash: string, ids: seq<int>, id: int)
    ensures LinksTo(hash, ids + [id]) == LinksTo(hash, ids) + {(id, hash)}
    ensures (id, hash) !in LinksTo(hash, ids) ==> forall i :: 0 <= i < |ids| ==> ids[i] != id
  {
    assert forall k :: k in ids ==> (k, hash) in LinksTo(hash, ids);
  }

  /** Insert k of an add cannot be done: it breaks, its user or the transaction is unknown, or the link is
      there already, from before or from this very add. */
  ghost predicate Obstacle(t: Tables, hash: string, ids: seq<int>, breaks: nat -> bool, k: nat)
    requires k < |ids|
  {
    || breaks(k) || ids[k] !in t.users || hash !in t.rows || (ids[k], hash) in t.links
    || ids[k] in ids[..k]
  }

  /** The first n inserts are done and no more. */
  ghost predicate AddedUpTo(t: Tables, hash: string, ids: seq<int>, breaks: nat -> bool, n: nat, u: Tables) {
    && n <= |ids| && u == t.(links := t.links + LinksTo(hash, ids[..n]))
    && forall k: nat :: k < n ==> !Obstacle(t, hash, ids, breaks, k)
  }

  lemma ObstacleInFront(t: Tables, hash: string, ids: seq<int>, breaks: nat -> bool, n: nat, k: nat)
    requires k < n <= |ids|
    ensures Obstacle(t, hash, ids[..n], breaks, k) == Obstacle(t, hash, ids, breaks, k)
  {
    assert ids[..n][..k] == ids[..k];
  }

  lemma AddedNext(t: Tables, hash: string, ids: seq<int>, breaks: nat -> bool, n: nat, u: Tables)
    requires n < |ids| && AddedUpTo(t, hash, ids, breaks, n, u)
    ensures breaks(n) || LinkError(u, ids[n], hash).Some? <==> Obstacle(t, hash, ids, breaks, n)
    ensures !Obstacle(t, hash, ids, breaks, n) ==>
              AddedUpTo(t, hash, ids, breaks, n + 1, Linked(u, ids[n], hash))
  {
    assert ids[..n + 1] == ids[..n] + [ids[n]];
    LinksToSnoc(hash, ids[..n], ids[n]);
    assert (ids[n], hash) in LinksTo(hash, ids[..n]) <==> ids[n] in ids[..n];
    assert t.links + LinksTo(hash, ids[..n]) + {(ids[n], hash)} == t.links + LinksTo(hash, ids[..n + 1]);
  }

  /** Adding inserts the links of the users before the first obstacle, in order, and succeeds exactly when
      there is none; what it has inserted before an obstacle stays. */
  lemma {:induction false} AddsUntilObstacle(t: Tables, hash: string, ids: seq<int>, breaks: nat -> bool)
    returns (n: nat)
    ensures var (u, ok) := LinkRelated(t, hash, ids, breaks);
            && AddedUpTo(t, hash, ids, breaks, n, u) && (ok <==> n == |ids|)
            && (!ok ==> n < |ids| && Obstacle(t, hash, ids, breaks, n))
  {
    if ids == [] {
      n := 0;
      assert t.links + LinksTo(hash, ids[..0]) == t.links;
    } else {
      var m := |ids| - 1;
      n := AddsUntilObstacle(t, hash, ids[..m], breaks);
      assert ids[..m][..n] == ids[..n];
      forall k: nat | k <= n && k < m
        ensures Obstacle(t, hash, ids[..m], breaks, k) == Obstacle(t, hash, ids, breaks, k)
      {
        ObstacleInFront(t, hash, ids, breaks, m, k);
      }
      var (u, ok) := LinkRelated(t, hash, ids[..m], breaks);
      assert AddedUpTo(t, hash, ids, breaks, n, u);
      if ok {
        AddedNext(t, hash, ids, breaks, m, u);
        n := if Obstacle(t, hash, ids, breaks, m) then m else m + 1;
      }
    }
  }

  /** With a database that does not break, adding succeeds exactly for users that are known, all different
      and not linked to the transaction yet, and for a transaction that is stored. */
  lemma AddsIff(t: Tables, hash: string, ids: seq<int>, breaks: nat -> bool)
    requires forall k: nat :: k < |ids| ==> !breaks(k)
    ensures LinkRelated(t, hash, ids, breaks).1
            <==> (ids == [] || hash in t.rows)
                 && (forall k :: 0 <= k < |ids| ==> ids[k] in t.users && (ids[k], hash) !in t.links)
                 && (forall i, j :: 0 <= i < j < |ids| ==> ids[i] != ids[j])
  {
    var n := AddsUntilObstacle(t, hash, ids, breaks);
    if LinkRelated(t, hash, ids, breaks).1 {
      forall i, j | 0 <= i < j < |ids| ensures ids[i] != ids[j] {
        assert !Obstacle(t, hash, ids, breaks, j) && ids[i] == ids[..j][i];
      }
      forall k | 0 <= k < |ids| ensures ids[k] in t.users && (ids[k], hash) !in t.links && hash in t.rows {
        assert !Obstacle(t, hash, ids, breaks, k);
      }
    }
  }

  lemma LinkFails(t: Tables, hash: string, ids: seq<int>, breaks: nat -> bool, i: nat)
    requires i <= |ids| && !LinkRelated(t, hash, ids[..i], breaks).1
    ensures LinkRelated(t, hash, ids, breaks) == LinkRelated(t, hash, ids[..i], breaks)
    decreases |ids|
  {
    var n := |ids| - 1;
    if i < |ids| {
      assert ids[..n][..i] == ids[..i];
      LinkFails(t, hash, ids[..n], breaks, i);
    } else {
      assert ids[..i] == ids;
    }
  }

  method LinkUsers(conn: Connection, hash: string, ids: seq<int>, breaks: nat -> bool) returns (ok: bool)
    modifies conn`tables
    ensures (conn.tables, ok) == LinkRelated(old(conn.tables), hash, ids, breaks)
  {
    for i := 0 to |ids|
      invariant (conn.tables, true) == LinkRelated(old(conn.tables), hash, ids[..i], breaks)
    {
      assert ids[..i + 1][..i] == ids[..i];
      if breaks(i) || LinkError(conn.tables, ids[i], hash).Some? {
        LinkFails(old(conn.tables), hash, ids, breaks, i + 1);
        return false;
      }
      conn.tables := Linked(conn.tables, ids[i], hash);
    }
    assert ids[..|ids|] == ids;
    return true;
  }

  method PointTo(u: User, o: Transaction)
    modifies u
    ensures u.relation == Some(old(u.Transactions()) + [o])
  {
    assert [] + [o] == [o];
    u.relation := if u.relation.None? then Some([o]) else Some(u.relation.value + [o]);
  }

  /** The relations of the first n users have grown by o, the others are as before. */
  ghost predicate Grown(related: seq<User>, before: seq<seq<Transaction>>, o: Transaction, n: nat)
    requires n <= |related| == |before|
    reads set u | u in related
  {
    && (forall k :: 0 <= k < n ==> related[k].relation == Some(before[k] + [o]))
    && (forall k :: n <= k < |related| ==> related[k].Transactions() == before[k])
  }

  method RelateNext(related: seq<User>, ghost before: seq<seq<Transaction>>, o: Transaction, n: nat)
    requires n < |related| == |before| && Grown(related, before, o, n)
    requires forall i, j :: 0 <= i < j < |related| ==> related[i] != related[j]
    modifies related[n]
    ensures Grown(related, before, o, n + 1)
  {
    PointTo(related[n], o);
    assert forall k :: 0 <= k < |related| && k != n ==> related[k].relation == old(related[k].relation);
  }

  method RelateAll(related: seq<User>, ghost before: seq<seq<Transaction>>, o: Transaction)
    requires |related| == |before| && Grown(related, before, o, 0)
    requires forall i, j :: 0 <= i < j < |related| ==> related[i] != related[j]
    modifies set u | u in related
    ensures Grown(related, before, o, |related|)
  {
    for i := 0 to |related|
      invariant Grown(related, before, o, i)
    {
      RelateNext(related, before, o, i);
    }
  }

  method Relate(o: Transaction, related: seq<User>)
    requires forall i, j :: 0 <= i < j < |related| ==> related[i] != related[j]
    modifies o`relation, set u | u in related
    ensures o.relation == Some(old(o.Users()) + related)
    ensures forall k :: 0 <= k < |related| ==> related[k].relation == Some(old(related[k].Transactions()) + [o])
  {
    ghost var before := seq(|related|, k requires 0 <= k < |related| reads set u | u in related =>
      related[k].Transactions());
    assert [] + related == related;
    o.relation := if o.relation.None? then Some(related) else Some(o.relation.value + related);
    RelateAll(related, before, o);
  }

  /** AddUsers of existing users: the join table first; the relations follow, on both sides, only when
      every insert succeeded. */
  method AddUsers(o: Transaction, conn: Connection, related: seq<User>, breaks: nat -> bool) returns (ok: bool)
    modifies conn`tables, o`relation, set u | u in related
    ensures (conn.tables, ok) == LinkRelated(old(conn.tables), o.hash, Ids(related), breaks)
    ensures !ok ==> o.relation == old(o.relation) && forall u :: u in related ==> u.relation == old(u.relation)
    ensures ok ==> o.relation == Some(old(o.Users()) + related)
    ensures ok ==> forall u :: u in related ==> u.relation == Some(old(u.Transactions()) + [o])
  {
    ghost var t0 := conn.tables;
    ok := LinkUsers(conn, o.hash, Ids(related), breaks);
    if !ok {
      return;
    }
    LinkedAnew(t0, o.hash, Ids(related), breaks);
    forall i, j | 0 <= i < j < |related| ensures related[i] != related[j] {
      assert Ids(related)[i] != Ids(related)[j];
    }
    Relate(o, related);
  }

  // ---------- removing ----------

  /** Removal that moves the last element into the gap. */
  function SwapOut<T>(s: seq<T>, i: nat): seq<T>
    requires i < |s|
  {
    (if i < |s| - 1 then s[i := s[|s| - 1]] else s)[..|s| - 1]
  }

  function Position<T>(s: seq<T>, p: T -> bool): (i: nat)
    ensures i <= |s| && (i < |s| ==> p(s[i])) && forall k :: 0 <= k < i ==> !p(s[k])
  {
    if s == [] then 0 else if p(s[0]) then 0 else Position(s[1..], p) + 1
  }

  function Without<T>(s: seq<T>, p: T -> bool): seq<T> {
    var i := Position(s, p);
    if i < |s| then SwapOut(s, i) else s
  }

  function WithoutAll(users: seq<User>, related: seq<User>): seq<User> {
    if related == [] then users
    else
      var rel := related[|related| - 1];
      Without(WithoutAll(users, related[..|related| - 1]), (u: User) => u == rel)
  }

  /** What is left of a user's own relation after the first n removals. */
  function Forgotten(u: User, txs: seq<Transaction>, hash: string, related: seq<User>, n: nat): seq<Transaction>
    requires n <= |related|
  {
    if n == 0 then txs
    else
      var left := Forgotten(u, txs, hash, related, n - 1);
      if related[n - 1] == u then Without(left, (t: Transaction) => t.hash == hash) else left
  }

  /** removeUsersFromTXHashTransactionsSlice */
  method ForgetTransaction(o: Transaction, related: seq<User>)
    modifies set u | u in related
    ensures forall u :: u in related ==>
              u.relation == if old(u.relation).None? then None
                            else Some(Forgotten(u, old(u.relation).value, o.hash, related, |related|))
  {
    for n := 0 to |related|
      invariant forall u :: u in related ==>
                  u.relation == if old(u.relation).None? then None
                                else Some(Forgotten(u, old(u.relation).value, o.hash, related, n))
    {
      var rel := related[n];
      if rel.relation.Some? {
        var txs := rel.relation.value;
        ghost var left := Without(txs, (t: Transaction) => t.hash == o.hash);
        var i := 0;
        while i < |txs| && o.hash != txs[i].hash
          invariant 0 <= i <= |txs| && forall k :: 0 <= k < i ==> txs[k].hash != o.hash
        {
          i := i + 1;
        }
        if i < |txs| {
          var ln := |txs|;
          if ln > 1 && i < ln - 1 {
            txs := txs[i := txs[ln - 1]];
          }
          rel.relation := Some(txs[..ln - 1]);
        }
        assert rel.relation == Some(left);
      }
    }
  }

  /** Remove one user by identity. */
  method RemoveUser(o: Transaction, rel: User)
    requires o.relation.Some?
    modifies o`relation
    ensures o.relation == Some(Without(old(o.relation).value, (u: User) => u == rel))
  {
    var users := o.relation.value;
    var i := 0;
    while i < |users| && rel != users[i]
      invariant 0 <= i <= |users| && forall k :: 0 <= k < i ==> users[k] != rel
    {
      i := i + 1;
    }
    if i < |users| {
      var ln := |users|;
      if ln > 1 && i < ln - 1 {
        users := users[i := users[ln - 1]];
      }
      o.relation := Some(users[..ln - 1]);
    }
  }

  /** RemoveUsers: the links of all related users go, then the relations on both sides. */
  method RemoveUsers(o: Transaction, conn: Connection, related: seq<User>, fails: bool) returns (ok: bool)
    modifies conn`tables, o`relation, set u | u in related
    ensures ok <==> related == [] || !fails
    ensures !ok ==> conn.tables == old(conn.tables) && o.relation == old(o.relation)
                    && forall u :: u in related ==> u.relation == old(u.relation)
    ensures ok ==> conn.tables
                   == old(conn.tables).(links := old(conn.tables).links - LinksTo(o.hash, Ids(related)))
    ensures ok ==> o.relation == if old(o.relation).None? then None else Some(WithoutAll(old(o.Users()), related))
    ensures ok ==> forall u :: u in related ==>
              u.relation == if old(u.relation).None? then None
                            else Some(Forgotten(u, old(u.relation).value, o.hash, related, |related|))
  {
    if |related| == 0 {
      assert conn.tables == conn.tables.(links := conn.tables.links - LinksTo(o.hash, Ids(related)));
      return true;
    }
    if fails {
      return false;
    }
    conn.tables := conn.tables.(links := conn.tables.links - LinksTo(o.hash, Ids(related)));
    ForgetTransaction(o, related);
    if o.relation.None? {
      return true;
    }
    for n := 0 to |related|
      modifies o`relation
      invariant o.relation == Some(WithoutAll(old(o.Users()), related[..n]))
    {
      assert related[..n + 1][..n] == related[..n];
      RemoveUser(o, related[n]);
    }
    assert related[..|related|] == related;
    return true;
  }

  lemma SwapOutTakesOne<T>(s: seq<T>, i: nat)
    requires i < |s|
    ensures multiset(SwapOut(s, i)) == multiset(s) - multiset{s[i]}
  {
    var n := |s| - 1;
    assert s == s[..n] + [s[n]];
    if i < n {
      assert s[..n] == s[..i] + [s[i]] + s[i + 1..n];
      assert SwapOut(s, i) == s[..i] + [s[n]] + s[i + 1..n];
    }
  }

  /** Removing by swaps takes one occurrence per removal and loses or adds nothing else. */
  lemma {:induction false} RemovalTakesRelated(users: seq<User>, related: seq<User>)
    ensures multiset(WithoutAll(users, related)) == multiset(users) - multiset(related)
  {
    if related != [] {
      var n := |related| - 1;
      RemovalTakesRelated(users, related[..n]);
      assert related == related[..n] + [related[n]];
      WithoutTakesOne(WithoutAll(users, related[..n]), related[n]);
    }
  }

  lemma WithoutTakesOne(users: seq<User>, rel: User)
    ensures multiset(Without(users, (u: User) => u == rel)) == multiset(users) - multiset{rel}
  {
    var i := Position(users, (u: User) => u == rel);
    if i < |users| {
      SwapOutTakesOne(users, i);
    } else {
      assert forall k :: 0 <= k < |users| ==> users[k] != rel;
    }
  }

  /** Of the elements in question only the first goes, and the last element takes its place. */
  lemma RemovalMovesLast<T>(s: seq<T>, p: T -> bool, i: nat)
    requires i < |s| && p(s[i]) && forall k :: 0 <= k < i ==> !p(s[k])
    ensures var r := Without(s, p);
            && |r| == |s| - 1 && (forall k :: 0 <= k < |r| && k != i ==> r[k] == s[k])
            && (i < |r| ==> r[i] == s[|r|])
  {
    assert Position(s, p) == i;
  }

  /** How many transactions of the list have this hash. */
  function Having(txs: seq<Transaction>, hash: string): nat {
    Sum(txs, (t: Transaction) => if t.hash == hash then 1 else 0)
  }

  lemma {:induction false} HavingIsCount(txs: seq<Transaction>, hash: string)
    ensures Having(txs, hash) == 0 <==> forall k :: 0 <= k < |txs| ==> txs[k].hash != hash
  {
    if txs != [] {
      HavingIsCount(txs[..|txs| - 1], hash);
    }
  }

  lemma SwapOutHaving(txs: seq<Transaction>, i: nat, hash: string)
    requires i < |txs| && txs[i].hash == hash
    ensures Having(SwapOut(txs, i), hash) == Having(txs, hash) - 1
  {
    var f := (t: Transaction) => if t.hash == hash then 1 else 0;
    var n := |txs| - 1;
    SumUpdate(txs, i, txs[n], f);
    if i == n {
      assert txs[i := txs[n]] == txs;
    }
    assert Sum(txs[i := txs[n]], f) == Sum(txs[i := txs[n]][..n], f) + f(txs[n]);
  }

  lemma WithoutOne(txs: seq<Transaction>, hash: string)
    ensures var left := Without<Transaction>(txs, (t: Transaction) => t.hash == hash);
            && Having(left, hash) == (if Having(txs, hash) == 0 then 0 else Having(txs, hash) - 1)
            && forall t: Transaction :: t.hash != hash ==> multiset(left)[t] == multiset(txs)[t]
  {
    var i := Position<Transaction>(txs, (t: Transaction) => t.hash == hash);
    HavingIsCount(txs, hash);
    if i < |txs| {
      SwapOutTakesOne(txs, i);
      SwapOutHaving(txs, i, hash);
    }
  }

  lemma NamedNext(u: User, related: seq<User>, n: nat)
    requires 0 < n <= |related|
    ensures multiset(related[..n])[u] == multiset(related[..n - 1])[u] + (if related[n - 1] == u then 1 else 0)
  {
    assert related[..n] == related[..n - 1] + [related[n - 1]];
  }

  /** A related user loses, for each time he is named, one transaction with the hash as long as he has any,
      and keeps all others. */
  lemma {:induction false} ForgottenTakes(u: User, txs: seq<Transaction>, hash: string, related: seq<User>, n: nat)
    requires n <= |related|
    ensures var left := Forgotten(u, txs, hash, related, n);
            var times := multiset(related[..n])[u];
            && Having(left, hash) == (if Having(txs, hash) <= times then 0 else Having(txs, hash) - times)
            && forall t: Transaction :: t.hash != hash ==> multiset(left)[t] == multiset(txs)[t]
  {
    if n > 0 {
      ForgottenTakes(u, txs, hash, related, n - 1);
      NamedNext(u, related, n);
      WithoutOne(Forgotten(u, txs, hash, related, n - 1), hash);
    }
  }

  /** RemoveUsers undoes a successful AddUsers: the tables are the same again, so are the transaction's
      users up to their order, and the transactions of an added user that had no other with this hash. */
  lemma RemoveUndoesAdd(t: Tables, o: Transaction, users: seq<User>, related: seq<User>, breaks: nat -> bool,
                        u: User, txs: seq<Transaction>)
    requires LinkRelated(t, o.hash, Ids(related), breaks).1
    requires u in related && forall k :: 0 <= k < |txs| ==> txs[k].hash != o.hash
    ensures var v := LinkRelated(t, o.hash, Ids(related), breaks).0;
            v.(links := v.links - LinksTo(o.hash, Ids(related))) == t
    ensures multiset(WithoutAll(users + related, related)) == multiset(users)
    ensures Forgotten(u, txs + [o], o.hash, related, |related|) == txs
  {
    LinkedAnew(t, o.hash, Ids(related), breaks);
    assert t.links + LinksTo(o.hash, Ids(related)) - LinksTo(o.hash, Ids(related)) == t.links;
    RemovalTakesRelated(users + related, related);
    var i :| 0 <= i < |related| && related[i] == u;
    forall k | 0 <= k < |related| && k != i ensures related[k] != u {
      assert Ids(related)[k] != Ids(related)[i];
    }
    ForgottenOnce(u, txs, o, related, i, |related|);
  }

  lemma {:induction false} ForgottenOnce(u: User, txs: seq<Transaction>, o: Transaction, related: seq<User>, i: nat,
                                         n: nat)
    requires n <= |related| && i < |related| && related[i] == u
    requires forall k :: 0 <= k < |related| && k != i ==> related[k] != u
    requires forall k :: 0 <= k < |txs| ==> txs[k].hash != o.hash
    ensures Forgotten(u, txs + [o], o.hash, related, n) == if n <= i then txs + [o] else txs
  {
    if n > 0 {
      ForgottenOnce(u, txs, o, related, i, n - 1);
      if n - 1 == i {
        LastGoesAgain(txs, o);
      }
    }
  }

  /** The only transaction with its hash, added last, is the one that goes. */
  lemma LastGoesAgain(txs: seq<Transaction>, o: Transaction)
    requires forall k :: 0 <= k < |txs| ==> txs[k].hash != o.hash
    ensures Without(txs + [o], (t: Transaction) => t.hash == o.hash) == txs
  {
    var whole := txs + [o];
    assert whole[|txs|].hash == o.hash;
    assert forall k :: 0 <= k < |txs| ==> whole[k].hash != o.hash;
    assert Position(whole, (t: Transaction) => t.hash == o.hash) == |txs|;
  }
}
