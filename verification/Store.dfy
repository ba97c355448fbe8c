/** The PostgreSQL store: two tables, per-row transactions and the nesting counter. */
module Store {
  import opened Prelude
  import opened Chain

  const NON_AUTHENTICATED_USER := 0

  /** The users, transactions and user_transactions tables. */
  datatype Tables = Tables(users: set<int>, rows: map<string, Tx>, links: set<(int, string)>)

  /** Primary key of transactions, foreign keys of user_transactions. */
  ghost predicate Sound(t: Tables) {
    && (forall h :: h in t.rows ==> t.rows[h].hash == h)
    && (forall l :: l in t.links ==> l.0 in t.users && l.1 in t.rows)
  }

  function LowerChar(c: char): char {
    if 'A' <= c <= 'Z' then c + 32 as char else c
  }

  /** LOWER of SQL on hexadecimal texts. */
  function Lower(s: string): string {
    seq(|s|, k requires 0 <= k < |s| => LowerChar(s[k]))
  }

  /** c is a capital letter and d the same letter in lower case. */
  predicate CapitalOf(c: char, d: char) {
    'A' <= c <= 'Z' && 'a' <= d <= 'z' && c as int - 'A' as int == d as int - 'a' as int
  }

  predicate SameUpToCase(a: string, b: string) {
    |a| == |b| && forall k :: 0 <= k < |a| ==> a[k] == b[k] || CapitalOf(a[k], b[k]) || CapitalOf(b[k], a[k])
  }

  predicate NoCapitals(s: string) {
    forall k :: 0 <= k < |s| ==> !('A' <= s[k] <= 'Z')
  }

  /** Lower case is the one text without capitals that is the same up to case. */
  lemma LowerIff(s: string, h: string)
    ensures Lower(s) == h <==> NoCapitals(h) && SameUpToCase(s, h)
  {
    if NoCapitals(h) && SameUpToCase(s, h) {
      assert forall k :: 0 <= k < |s| ==> Lower(s)[k] == h[k];
    }
  }

  /** Two texts have the same lower case exactly when they agree up to case. */
  lemma LowerAgrees(a: string, b: string)
    ensures Lower(a) == Lower(b) <==> SameUpToCase(a, b)
  {
    if SameUpToCase(a, b) {
      assert forall k :: 0 <= k < |a| ==> Lower(a)[k] == Lower(b)[k];
    } else if |a| == |b| {
      var k :| 0 <= k < |a| && !(a[k] == b[k] || CapitalOf(a[k], b[k]) || CapitalOf(b[k], a[k]));
      assert Lower(a)[k] != Lower(b)[k];
    }
  }

  // ---------- statements ----------

  function Upserted(t: Tables, tx: Tx): Tables {
    t.(rows := t.rows[tx.hash := tx])
  }

  function Linked(t: Tables, userID: int, hash: string): Tables {
    t.(links := t.links + {(userID, hash)})
  }

  datatype SqlError = DuplicateRow | MissingReference

  /** The plain insert into user_transactions that AddUsers issues. */
  function LinkError(t: Tables, userID: int, hash: string): Option<SqlError> {
    if (userID, hash) in t.links then Some(DuplicateRow)
    else if userID !in t.users || hash !in t.rows then Some(MissingReference)
    else None
  }

  /** Where the database breaks down while one element is inserted. */
  datatype Fault = NoFault | BeginFails | UpsertFails | LinkFails | CommitFails

  // ---------- what the operations compute ----------

  /** One element of InsertTransactions: both tables or neither. */
  function InsertOne(t: Tables, tx: Tx, userID: int, fault: Fault): (Tables, bool) {
    var u := Upserted(t, tx);
    if fault.BeginFails? || fault.UpsertFails? || fault.CommitFails? then (t, false)
    else if userID == NON_AUTHENTICATED_USER then (u, true)
    else if fault.LinkFails? || LinkError(u, userID, tx.hash).Some? then (t, false)
    else (Linked(u, userID, tx.hash), true)
  }

  /** InsertTransactions, with the index of the element that failed. */
  function InsertAll(t: Tables, txs: seq<Tx>, userID: int, faults: nat -> Fault): (Tables, Option<nat>) {
    if txs == [] then (t, None)
    else
      var n := |txs| - 1;
      var (u, failed) := InsertAll(t, txs[..n], userID, faults);
      if failed.Some? then (u, failed)
      else
        var (v, ok) := InsertOne(u, txs[n], userID, faults(n));
        (v, if ok then None else Some(n))
  }

  /** The fault an element meets in an ambient transaction, which it does not begin, and ends only if no
      level was counted. */
  function Met(fault: Fault, ends: bool): Fault {
    if fault.BeginFails? || (fault.CommitFails? && !ends) then NoFault else fault
  }

  /** An element whose level is not the outermost is reported stored when nothing but its end could fail. */
  predicate Passes(t: Tables, tx: Tx, userID: int, fault: Fault) {
    InsertOne(t, tx, userID, if fault.CommitFails? then NoFault else fault).1
  }

  function AllMet(faults: nat -> Fault): nat -> Fault {
    (k: nat) => Met(faults(k), false)
  }

  /** InsertTransactions in an ambient transaction that was not counted: the committed tables and the
      index of the element that failed. */
  function InsertUncounted(ambient: Tables, db: Tables, txs: seq<Tx>, userID: int, faults: nat -> Fault)
    : (Tables, Option<nat>)
  {
    if txs == [] then (db, None)
    else
      var (u, ok) := InsertOne(ambient, txs[0], userID, Met(faults(0), true));
      if !ok then (db, Some(0)) else (u, if |txs| > 1 then Some(1) else None)
  }

  /** A stored transaction with the relation GetTransactionsByHashes loaded: is the user among its users? */
  datatype Loaded = Loaded(tx: Tx, linked: bool)

  /** One element of InsertTransactionsUser; a duplicate row is not an error. */
  function LinkOne(t: Tables, l: Loaded, userID: int, breaks: bool): (Tables, bool) {
    if userID == NON_AUTHENTICATED_USER || l.linked then (t, true)
    else if breaks then (t, false)
    else
      match LinkError(t, userID, l.tx.hash)
      case None => (Linked(t, userID, l.tx.hash), true)
      case Some(DuplicateRow) => (t, true)
      case Some(MissingReference) => (t, false)
  }

  function LinkAll(t: Tables, ls: seq<Loaded>, userID: int, breaks: nat -> bool): (Tables, Option<nat>) {
    if ls == [] then (t, None)
    else
      var n := |ls| - 1;
      var (u, failed) := LinkAll(t, ls[..n], userID, breaks);
      if failed.Some? then (u, failed)
      else
        var (v, ok) := LinkOne(u, ls[n], userID, breaks(n));
        (v, if ok then None else Some(n))
  }

  function Keys(found: seq<Loaded>): set<string> {
    set l | l in found :: l.tx.hash
  }

  /** The keys the query selects: the rows whose hash is the lower case of a requested one. */
  function Wanted(t: Tables, hashes: seq<string>): set<string> {
    set h | h in hashes && Lower(h) in t.rows :: Lower(h)
  }

  /** The rows GetTransactionsByHashes finds, in whatever order the database returns them. */
  ghost predicate Finds(t: Tables, hashes: seq<string>, userID: int, found: seq<Loaded>) {
    && Keys(found) == Wanted(t, hashes)
    && (forall i, j :: 0 <= i < j < |found| ==> found[i].tx.hash != found[j].tx.hash)
    && (forall l :: l in found ==> RowOf(t, userID, l))
  }

  predicate RowOf(t: Tables, userID: int, l: Loaded) {
    && l.tx.hash in t.rows && t.rows[l.tx.hash] == l.tx
    && l.linked == (userID != NON_AUTHENTICATED_USER && (userID, l.tx.hash) in t.links)
  }

  /** GetMyTransactions, as a set. */
  function Mine(t: Tables, userID: int): set<Tx> {
    set h | h in t.rows && (userID, h) in t.links :: t.rows[h]
  }

  /** The lookup finds the rows without capitals that some requested text names up to case. */
  lemma WantedIff(t: Tables, hashes: seq<string>, h: string)
    ensures h in Wanted(t, hashes) <==>
            h in t.rows && NoCapitals(h) && exists g :: g in hashes && SameUpToCase(g, h)
  {
    forall g | g in hashes ensures Lower(g) == h <==> NoCapitals(h) && SameUpToCase(g, h) {
      LowerIff(g, h);
    }
  }

  // ---------- sessions ----------

  /** The database handle, or a transaction of it, as the executor sees it. */
  class Connection {
    var tables: Tables
    var open: bool

    constructor (t: Tables)
      ensures tables == t && open
    {
      tables := t;
      open := true;
    }
  }

  /** The global executor: the database handle, an ambient transaction, or neither. */
  datatype Executor = Pooled | InTx(tx: Connection) | Unusable

  /** Counters of a store: the nesting counter and the transactions really begun and really ended. */
  datatype Ledger = Ledger(count: int, begun: nat, ended: nat)

  datatype TxOp = Begin | End

  /** What one successful BeginTx, CommitTx or RollbackTx does to the counters. */
  function OnTxOp(g: Ledger, pooled: bool, op: TxOp): Ledger {
    match op
    case Begin => g.(count := g.count + 1, begun := if pooled then g.begun + 1 else g.begun)
    case End => g.(count := g.count - 1, ended := if g.count - 1 <= 0 then g.ended + 1 else g.ended)
  }

  class PgStore {
    const db: Connection
    var exec: Executor
    var txCount: int
    ghost var begun: nat
    ghost var ended: nat

    constructor (t: Tables)
      ensures exec.Pooled? && txCount == 0 && db.tables == t && db.open && fresh(db)
      ensures begun == ended == 0
    {
      db := new Connection(t);
      exec := Pooled;
      txCount := 0;
      begun, ended := 0, 0;
    }

    ghost function Counters(): Ledger
      reads this
    {
      Ledger(txCount, begun, ended)
    }

    ghost predicate Valid()
      reads this
    {
      exec.InTx? ==> exec.tx != db
    }

    method BeginTx(fails: bool) returns (tx: Connection?)
      requires Valid()
      modifies this`txCount, this`begun
      ensures Valid()
      ensures tx == null <==> exec.Unusable? || (exec.Pooled? && fails)
      ensures tx == null ==> Counters() == old(Counters())
      ensures tx != null ==> Counters() == OnTxOp(old(Counters()), exec.Pooled?, Begin)
      ensures tx != null && exec.InTx? ==> tx == exec.tx
      ensures tx != null && exec.Pooled? ==> fresh(tx) && tx.open && tx.tables == db.tables
    {
      if !exec.Pooled? {
        if exec.Unusable? {
          return null;
        }
        txCount := txCount + 1;
        return exec.tx;
      }
      if fails {
        return null;
      }
      tx := new Connection(db.tables);
      txCount := txCount + 1;
      begun := begun + 1;
    }

    /** A real commit writes the transaction's tables back, unless it fails. */
    method CommitTx(tx: Connection, fails: bool) returns (ok: bool)
      requires Valid() && tx != db
      modifies this`txCount, this`ended, tx`open, db`tables
      ensures Counters() == OnTxOp(old(Counters()), exec.Pooled?, End)
      ensures txCount > 0 ==> ok && tx.open == old(tx.open) && db.tables == old(db.tables)
      ensures txCount <= 0 ==> !tx.open && ok == (old(tx.open) && !fails)
                               && db.tables == if ok then tx.tables else old(db.tables)
    {
      txCount := txCount - 1;
      if txCount <= 0 {
        ended := ended + 1;
        ok := tx.open && !fails;
        if ok {
          db.tables := tx.tables;
        }
        tx.open := false;
        return;
      }
      return true;
    }

    method RollbackTx(tx: Connection) returns (ok: bool)
      requires Valid() && tx != db
      modifies this`txCount, this`ended, tx`open
      ensures Counters() == OnTxOp(old(Counters()), exec.Pooled?, End)
      ensures txCount > 0 ==> ok && tx.open == old(tx.open)
      ensures txCount <= 0 ==> !tx.open && ok == old(tx.open)
    {
      txCount := txCount - 1;
      if txCount <= 0 {
        ended := ended + 1;
        ok := tx.open;
        tx.open := false;
        return;
      }
      return true;
    }

    /** One element of InsertTransactions, in whatever state the executor and the counter are. */
    method InsertElement(tx: Tx, userID: int, fault: Fault) returns (ok: bool)
      requires Valid()
      modifies this`txCount, this`begun, this`ended, db`tables, if exec.InTx? then {exec.tx} else {}
      ensures Valid() && txCount == old(txCount)
      ensures exec.Pooled? && txCount == 0 ==>
                (db.tables, ok) == InsertOne(old(db.tables), tx, userID, fault)
                && begun - old(begun) == ended - old(ended)
      ensures exec.Pooled? && txCount > 0 ==>
                db.tables == old(db.tables) && ended == old(ended)
                && ok == Passes(old(db.tables), tx, userID, fault) && (ok ==> begun == old(begun) + 1)
      ensures exec.InTx? && txCount > 0 ==> exec.tx.open == old(exec.tx.open) && db.tables == old(db.tables)
      ensures exec.InTx? && txCount == 0 ==> !exec.tx.open && (!ok ==> db.tables == old(db.tables))
      ensures exec.InTx? && txCount >= 0 ==>
                var (u, done) := InsertOne(old(exec.tx.tables), tx, userID, Met(fault, txCount == 0));
                ok == (old(exec.tx.open) && done) && (ok ==> (if txCount == 0 then db.tables else exec.tx.tables) == u)
    {
      var dbTx := BeginTx(fault.BeginFails?);
      if dbTx == null {
        return false;
      }
      if fault.UpsertFails? || !dbTx.open {
        var _ := RollbackTx(dbTx);
        return false;
      }
      dbTx.tables := Upserted(dbTx.tables, tx);
      if userID != NON_AUTHENTICATED_USER {
        if fault.LinkFails? || LinkError(dbTx.tables, userID, tx.hash).Some? {
          var _ := RollbackTx(dbTx);
          return false;
        }
        dbTx.tables := Linked(dbTx.tables, userID, tx.hash);
      }
      ok := CommitTx(dbTx, fault.CommitFails?);
    }

    /** Used by one caller at a time with no open transaction, every element reaches both tables or
        neither. On the pooled executor with a level counted already, as while another request stores,
        nothing is committed and every element reported stored leaves a transaction open. In a counted
        ambient transaction everything waits for its end. An ambient transaction that was not counted is
        really ended by the first element, and a second one fails. In any mode the nesting counter comes
        back to where it was. */
    method InsertTransactions(txs: seq<Tx>, userID: int, faults: nat -> Fault) returns (failed: Option<nat>)
      requires Valid()
      modifies this`txCount, this`begun, this`ended, db`tables, if exec.InTx? then {exec.tx} else {}
      ensures Valid() && txCount == old(txCount)
      ensures exec.Pooled? && txCount == 0 ==> (db.tables, failed) == InsertAll(old(db.tables), txs, userID, faults)
      ensures exec.Pooled? && txCount == 0 ==> begun - old(begun) == ended - old(ended)
      ensures exec.Pooled? && txCount > 0 ==>
                db.tables == old(db.tables) && ended == old(ended)
                && (failed.None? ==> begun == old(begun) + |txs|)
                && (failed.Some? ==>
                      failed.value < |txs| && !Passes(db.tables, txs[failed.value], userID, faults(failed.value)))
                && forall k :: 0 <= k < Done(failed, |txs|) ==> Passes(db.tables, txs[k], userID, faults(k))
      ensures exec.InTx? && txCount > 0 ==> exec.tx.open == old(exec.tx.open) && db.tables == old(db.tables)
      ensures exec.InTx? && txCount > 0 && exec.tx.open ==>
                var (u, stopped) := InsertAll(old(exec.tx.tables), txs, userID, AllMet(faults));
                failed == stopped && (failed.None? ==> exec.tx.tables == u)
      ensures exec.InTx? && txCount == 0 && old(exec.tx.open) ==>
                (db.tables, failed) == InsertUncounted(old(exec.tx.tables), old(db.tables), txs, userID, faults)
                && exec.tx.open == (txs == [])
    {
      for i := 0 to |txs|
        invariant Valid() && txCount == old(txCount)
        invariant exec.Pooled? && txCount == 0 ==>
                    (db.tables, None) == InsertAll(old(db.tables), txs[..i], userID, faults)
        invariant exec.Pooled? && txCount == 0 ==> begun - old(begun) == ended - old(ended)
        invariant exec.Pooled? && txCount > 0 ==>
                    db.tables == old(db.tables) && ended == old(ended) && begun == old(begun) + i
                    && forall k :: 0 <= k < i ==> Passes(db.tables, txs[k], userID, faults(k))
        invariant exec.InTx? && txCount > 0 ==> exec.tx.open == old(exec.tx.open) && db.tables == old(db.tables)
        invariant exec.InTx? && txCount > 0 && exec.tx.open ==>
                    (exec.tx.tables, None) == InsertAll(old(exec.tx.tables), txs[..i], userID, AllMet(faults))
        invariant exec.InTx? && txCount == 0 && old(exec.tx.open) ==>
                    i <= 1 && exec.tx.open == (i == 0) && (i == 0 ==> exec.tx.tables == old(exec.tx.tables))
                    && (db.tables, None)
                       == InsertUncounted(old(exec.tx.tables), old(db.tables), txs[..i], userID, faults)
      {
        assert txs[..i + 1][..i] == txs[..i] && txs[..i + 1][i] == txs[i];
        var ok := InsertElement(txs[i], userID, faults(i));
        if !ok {
          InsertStops(old(db.tables), txs, userID, faults, i);
          if exec.InTx? {
            InsertStops(old(exec.tx.tables), txs, userID, AllMet(faults), i);
          }
          return Some(i);
        }
      }
      assert txs[..|txs|] == txs;
      return None;
    }

    /** The tables the executor reads and writes outside InsertTransactions. */
    ghost function Visible(): Tables
      requires !exec.Unusable?
      reads this, db, if exec.InTx? then {exec.tx} else {}
    {
      if exec.InTx? then exec.tx.tables else db.tables
    }

    method GetTransactionsByHashes(hashes: seq<string>, userID: int, fails: bool)
      returns (ok: bool, found: seq<Loaded>)
      requires Valid() && !exec.Unusable? && Sound(Visible())
      ensures ok == !fails && (ok ==> Finds(Visible(), hashes, userID, found))
    {
      if fails {
        return false, [];
      }
      var t := if exec.InTx? then exec.tx.tables else db.tables;
      found := [];
      var left := Wanted(t, hashes);
      while left != {}
        invariant left <= Wanted(t, hashes) && Keys(found) == Wanted(t, hashes) - left
        invariant forall i, j :: 0 <= i < j < |found| ==> found[i].tx.hash != found[j].tx.hash
        invariant forall l :: l in found ==> RowOf(t, userID, l)
        decreases left
      {
        var h :| h in left;
        left := left - {h};
        var l := Loaded(t.rows[h], userID != NON_AUTHENTICATED_USER && (userID, h) in t.links);
        assert h !in Keys(found) && Keys(found + [l]) == Keys(found) + {h};
        assert forall k :: 0 <= k < |found| ==> found[k].tx.hash in Keys(found);
        found := found + [l];
      }
      return true, found;
    }

    /** The rows joined with this user's links. */
    method GetMyTransactions(userID: int, fails: bool) returns (ok: bool, list: seq<Tx>)
      requires Valid() && !exec.Unusable? && Sound(Visible())
      ensures ok == !fails
      ensures ok ==> forall tx :: tx in list <==> tx in Mine(Visible(), userID)
      ensures ok ==> forall i, j :: 0 <= i < j < |list| ==> list[i].hash != list[j].hash
    {
      if fails {
        return false, [];
      }
      var t := if exec.InTx? then exec.tx.tables else db.tables;
      list := [];
      var joined := set h | h in t.rows && (userID, h) in t.links;
      var left := joined;
      while left != {}
        invariant left <= joined && forall tx :: tx in list <==> exists h :: h in joined - left && tx == t.rows[h]
        invariant forall i, j :: 0 <= i < j < |list| ==> list[i].hash != list[j].hash
        decreases left
      {
        var h :| h in left;
        assert forall tx :: tx in list ==> tx.hash != h;
        assert forall i :: 0 <= i < |list| ==> list[i] in list;
        left := left - {h};
        list := list + [t.rows[h]];
      }
      return true, list;
    }

    method InsertTransactionsUser(ls: seq<Loaded>, userID: int, breaks: nat -> bool) returns (failed: Option<nat>)
      requires Valid() && !exec.Unusable?
      modifies db`tables, if exec.InTx? then {exec.tx} else {}
      ensures (Visible(), failed) == LinkAll(old(Visible()), ls, userID, breaks)
    {
      for i := 0 to |ls|
        invariant (Visible(), None) == LinkAll(old(Visible()), ls[..i], userID, breaks)
      {
        assert ls[..i + 1][..i] == ls[..i];
        var t := if exec.InTx? then exec.tx.tables else db.tables;
        var (u, ok) := LinkOne(t, ls[i], userID, breaks(i));
        if !ok {
          LinkStops(old(Visible()), ls, userID, breaks, i);
          return Some(i);
        }
        if exec.InTx? {
          exec.tx.tables := u;
        } else {
          db.tables := u;
        }
      }
      assert ls[..|ls|] == ls;
      return None;
    }
  }

  lemma LinkStops(t: Tables, ls: seq<Loaded>, userID: int, breaks: nat -> bool, i: nat)
    requires i < |ls|
    ensures var (u, failed) := LinkAll(t, ls[..i], userID, breaks);
            failed.None? && !LinkOne(u, ls[i], userID, breaks(i)).1 ==> LinkAll(t, ls, userID, breaks) == (u, Some(i))
    decreases |ls|
  {
    var n := |ls| - 1;
    if i < n {
      assert ls[..n][..i] == ls[..i];
      LinkStops(t, ls[..n], userID, breaks, i);
    }
  }

  /** When the first i elements are in and element i is refused, that is the result of the whole call. */
  lemma InsertStops(t: Tables, txs: seq<Tx>, userID: int, faults: nat -> Fault, i: nat)
    requires i < |txs|
    ensures var (u, failed) := InsertAll(t, txs[..i], userID, faults);
            failed.None? && !InsertOne(u, txs[i], userID, faults(i)).1 ==>
              InsertAll(t, txs, userID, faults) == (u, Some(i))
    decreases |txs|
  {
    var n := |txs| - 1;
    if i < n {
      assert txs[..n][..i] == txs[..i];
      InsertStops(t, txs[..n], userID, faults, i);
    }
  }

  // ---------- atomicity and referential integrity ----------

  function Overwritten(rows: map<string, Tx>, txs: seq<Tx>): map<string, Tx> {
    if txs == [] then rows else Overwritten(rows, txs[..|txs| - 1])[txs[|txs| - 1].hash := txs[|txs| - 1]]
  }

  function LinksOf(txs: seq<Tx>, userID: int): set<(int, string)> {
    if userID == NON_AUTHENTICATED_USER then {} else set tx | tx in txs :: (userID, tx.hash)
  }

  /** Both tables with all of txs in, and nothing else. */
  function Stored(t: Tables, txs: seq<Tx>, userID: int): Tables {
    Tables(t.users, Overwritten(t.rows, txs), t.links + LinksOf(txs, userID))
  }

  function Done(failed: Option<nat>, n: nat): nat {
    if failed.Some? then failed.value else n
  }

  lemma LinksSnoc(txs: seq<Tx>, tx: Tx, userID: int)
    ensures LinksOf(txs + [tx], userID)
            == LinksOf(txs, userID) + (if userID == NON_AUTHENTICATED_USER then {} else {(userID, tx.hash)})
  {
  }

  lemma InsertOneKeepsSound(t: Tables, tx: Tx, userID: int, fault: Fault)
    requires Sound(t)
    ensures Sound(InsertOne(t, tx, userID, fault).0)
  {
  }

  /** A successful element extends what is stored by one. */
  lemma StoredSnoc(t: Tables, txs: seq<Tx>, tx: Tx, userID: int, fault: Fault)
    requires InsertOne(Stored(t, txs, userID), tx, userID, fault).1
    ensures InsertOne(Stored(t, txs, userID), tx, userID, fault).0 == Stored(t, txs + [tx], userID)
  {
    LinksSnoc(txs, tx, userID);
    assert (txs + [tx])[..|txs|] == txs;
  }

  /** InsertTransactions is atomic per element: failing at element k it leaves exactly the elements
      before k, in both tables, and it keeps the tables sound. */
  lemma {:induction false} InsertIsAtomic(t: Tables, txs: seq<Tx>, userID: int, faults: nat -> Fault)
    ensures var (u, failed) := InsertAll(t, txs, userID, faults);
            && (failed.Some? ==> failed.value < |txs|)
            && u == Stored(t, txs[..Done(failed, |txs|)], userID)
            && (Sound(t) ==> Sound(u))
  {
    if txs == [] {
      assert Stored(t, [], userID) == t;
    } else {
      var n := |txs| - 1;
      var front, tx := txs[..n], txs[n];
      InsertIsAtomic(t, front, userID, faults);
      var (u, failed) := InsertAll(t, front, userID, faults);
      if failed.Some? {
        assert front[..failed.value] == txs[..failed.value];
      } else {
        assert front[..n] == front && txs[..n + 1] == front + [tx];
        if InsertOne(u, tx, userID, faults(n)).1 {
          StoredSnoc(t, front, tx, userID, faults(n));
        }
        if Sound(u) {
          InsertOneKeepsSound(u, tx, userID, faults(n));
        }
      }
    }
  }

  /** Element k cannot be inserted: a statement breaks, or there is a user, and he is unknown or has the
      transaction already, from before or from this very list. */
  ghost predicate InsertObstacle(t: Tables, txs: seq<Tx>, userID: int, faults: nat -> Fault, k: nat)
    requires k < |txs|
  {
    || faults(k).BeginFails? || faults(k).UpsertFails? || faults(k).CommitFails?
    || (userID != NON_AUTHENTICATED_USER
        && (faults(k).LinkFails? || userID !in t.users || (userID, txs[k].hash) in t.links
            || exists i :: 0 <= i < k && txs[i].hash == txs[k].hash))
  }

  lemma NextObstacle(t: Tables, txs: seq<Tx>, userID: int, faults: nat -> Fault, k: nat)
    requires k < |txs|
    ensures InsertOne(Stored(t, txs[..k], userID), txs[k], userID, faults(k)).1
            <==> !InsertObstacle(t, txs, userID, faults, k)
  {
    var u := Stored(t, txs[..k], userID);
    if userID != NON_AUTHENTICATED_USER {
      assert (userID, txs[k].hash) in LinksOf(txs[..k], userID)
             <==> exists i :: 0 <= i < k && txs[i].hash == txs[k].hash by {
        forall i | 0 <= i < k ensures txs[i] in txs[..k] {
          assert txs[..k][i] == txs[i];
        }
      }
    }
  }

  lemma FrontObstacles(t: Tables, txs: seq<Tx>, userID: int, faults: nat -> Fault, n: nat)
    requires n <= |txs|
    ensures forall k: nat :: k < n ==>
              InsertObstacle(t, txs[..n], userID, faults, k) == InsertObstacle(t, txs, userID, faults, k)
  {
    assert forall i :: 0 <= i < n ==> txs[..n][i] == txs[i];
  }

  /** The first element that cannot be inserted, if any. */
  ghost predicate FirstObstacle(t: Tables, txs: seq<Tx>, userID: int, faults: nat -> Fault, failed: Option<nat>) {
    && (failed.Some? ==> failed.value < |txs| && InsertObstacle(t, txs, userID, faults, failed.value))
    && forall k: nat :: k < Done(failed, |txs|) && k < |txs| ==> !InsertObstacle(t, txs, userID, faults, k)
  }

  lemma NextFirst(t: Tables, txs: seq<Tx>, userID: int, faults: nat -> Fault, n: nat, failed: Option<nat>)
    requires n + 1 == |txs| && FirstObstacle(t, txs[..n], userID, faults, failed)
    ensures failed.Some? ==> FirstObstacle(t, txs, userID, faults, failed)
    ensures failed.None? ==>
              FirstObstacle(t, txs, userID, faults,
                            if InsertObstacle(t, txs, userID, faults, n) then Some(n) else None)
  {
    FrontObstacles(t, txs, userID, faults, n);
  }

  /** InsertTransactions stops at the first element that cannot be inserted, and only there. */
  lemma {:induction false} InsertsUntilObstacle(t: Tables, txs: seq<Tx>, userID: int, faults: nat -> Fault)
    ensures FirstObstacle(t, txs, userID, faults, InsertAll(t, txs, userID, faults).1)
  {
    if txs != [] {
      var n := |txs| - 1;
      InsertsUntilObstacle(t, txs[..n], userID, faults);
      NextFirst(t, txs, userID, faults, n, InsertAll(t, txs[..n], userID, faults).1);
      InsertIsAtomic(t, txs[..n], userID, faults);
      assert txs[..n][..n] == txs[..n];
      NextObstacle(t, txs, userID, faults, n);
    }
  }

  /** A hash that is not among the stored elements keeps its row and its links. */
  lemma {:induction false} UntouchedRows(t: Tables, txs: seq<Tx>, userID: int, h: string)
    requires forall i :: 0 <= i < |txs| ==> txs[i].hash != h
    ensures var u := Stored(t, txs, userID);
            && (h in u.rows <==> h in t.rows) && (h in t.rows ==> u.rows[h] == t.rows[h])
            && forall v :: (v, h) in u.links <==> (v, h) in t.links
  {
    if txs != [] {
      UntouchedRows(t, txs[..|txs| - 1], userID, h);
    }
  }

  /** What is among the stored elements is in the tables, and of several with one hash the last. */
  lemma {:induction false} StoredRows(t: Tables, txs: seq<Tx>, userID: int, i: nat)
    requires i < |txs|
    ensures txs[i].hash in Stored(t, txs, userID).rows
    ensures (forall k :: i < k < |txs| ==> txs[k].hash != txs[i].hash) ==>
              Stored(t, txs, userID).rows[txs[i].hash] == txs[i]
    ensures userID != NON_AUTHENTICATED_USER ==> (userID, txs[i].hash) in Stored(t, txs, userID).links
  {
    if i < |txs| - 1 {
      var front := txs[..|txs| - 1];
      StoredRows(t, front, userID, i);
      assert front[i] == txs[i] && forall k :: i < k < |front| ==> front[k] == txs[k];
    }
  }

  function LoadedTxs(ls: seq<Loaded>): seq<Tx> {
    seq(|ls|, k requires 0 <= k < |ls| => ls[k].tx)
  }

  /** The relation loaded with a transaction never claims a link that is not there; it may miss one that
      another request has added since. */
  ghost predicate NoFalseLinks(t: Tables, ls: seq<Loaded>, userID: int) {
    forall i :: 0 <= i < |ls| && ls[i].linked ==> (userID, ls[i].tx.hash) in t.links
  }

  /** InsertTransactionsUser brings in exactly the missing links of the elements before the first error,
      also when the loaded relations are out of date, so repeating it changes nothing. */
  lemma {:induction false} LinkingIsIdempotent(t: Tables, ls: seq<Loaded>, userID: int, breaks: nat -> bool)
    requires NoFalseLinks(t, ls, userID)
    ensures var (u, failed) := LinkAll(t, ls, userID, breaks);
            && (failed.Some? ==> failed.value < |ls|)
            && u == t.(links := t.links + LinksOf(LoadedTxs(ls[..Done(failed, |ls|)]), userID))
            && (Sound(t) ==> Sound(u))
  {
    if ls == [] {
      assert LinksOf([], userID) == {};
    } else {
      var n := |ls| - 1;
      LinkingIsIdempotent(t, ls[..n], userID, breaks);
      var (u, failed) := LinkAll(t, ls[..n], userID, breaks);
      if failed.Some? {
        assert ls[..n][..failed.value] == ls[..failed.value];
      } else {
        assert ls[..n][..n] == ls[..n] && ls[..n + 1] == ls;
        assert LoadedTxs(ls) == LoadedTxs(ls[..n]) + [ls[n].tx];
        LinksSnoc(LoadedTxs(ls[..n]), ls[n].tx, userID);
        LinkOneAdds(u, ls[n], userID, breaks(n));
      }
    }
  }

  /** Row k cannot be linked: there is a user, no link is loaded with it, and the statement breaks, or the
      link is missing and the user or the row unknown. */
  ghost predicate LinkObstacle(t: Tables, ls: seq<Loaded>, userID: int, breaks: nat -> bool, k: nat)
    requires k < |ls|
  {
    && userID != NON_AUTHENTICATED_USER && !ls[k].linked
    && (breaks(k) || ((userID, ls[k].tx.hash) !in t.links && (userID !in t.users || ls[k].tx.hash !in t.rows)))
  }

  /** InsertTransactionsUser stops at the first row that cannot be linked, and only there. */
  lemma {:induction false} LinksUntilObstacle(t: Tables, ls: seq<Loaded>, userID: int, breaks: nat -> bool)
    ensures var (u, failed) := LinkAll(t, ls, userID, breaks);
            && (failed.Some? ==> failed.value < |ls| && LinkObstacle(t, ls, userID, breaks, failed.value))
            && (forall k: nat :: k < Done(failed, |ls|) ==> !LinkObstacle(t, ls, userID, breaks, k))
            && u.users == t.users && u.rows == t.rows && t.links <= u.links
            && (userID !in t.users ==> u == t)
            && forall l :: l in u.links - t.links ==> l.0 == userID && l.1 in t.rows
  {
    if ls != [] {
      var n := |ls| - 1;
      LinksUntilObstacle(t, ls[..n], userID, breaks);
      forall k: nat | k < n
        ensures LinkObstacle(t, ls[..n], userID, breaks, k) == LinkObstacle(t, ls, userID, breaks, k)
      {
        assert ls[..n][k] == ls[k];
      }
    }
  }

  lemma LinkOneAdds(t: Tables, l: Loaded, userID: int, breaks: bool)
    requires l.linked ==> (userID, l.tx.hash) in t.links
    ensures var (u, ok) := LinkOne(t, l, userID, breaks);
            var added := if ok && userID != NON_AUTHENTICATED_USER then {(userID, l.tx.hash)} else {};
            u == t.(links := t.links + added) && (Sound(t) ==> Sound(u))
  {
    assert t.links + {} == t.links;
    assert (userID, l.tx.hash) in t.links ==> t.links + {(userID, l.tx.hash)} == t.links;
  }

  // ---------- the nesting counter ----------

  /** BeginTx and CommitTx/RollbackTx calls that all succeed. */
  function RunOps(pooled: bool, ops: seq<TxOp>): Ledger {
    if ops == [] then Ledger(0, 0, 0) else OnTxOp(RunOps(pooled, ops[..|ops| - 1]), pooled, ops[|ops| - 1])
  }

  function Depth(ops: seq<TxOp>): int {
    if ops == [] then 0 else Depth(ops[..|ops| - 1]) + (if ops[|ops| - 1].Begin? then 1 else -1)
  }

  ghost predicate Nested(ops: seq<TxOp>) {
    forall k :: 0 <= k <= |ops| ==> Depth(ops[..k]) >= 0
  }

  /** Ends that close the outermost level, or have no level to close. */
  function Outermost(ops: seq<TxOp>): nat {
    if ops == [] then 0
    else Outermost(ops[..|ops| - 1]) + (if ops[|ops| - 1].End? && Depth(ops) <= 0 then 1 else 0)
  }

  /** Begins while a level is open already. */
  function Inner(ops: seq<TxOp>): nat {
    if ops == [] then 0
    else Inner(ops[..|ops| - 1]) + (if ops[|ops| - 1].Begin? && Depth(ops) > 1 then 1 else 0)
  }

  /** Over every sequence, nested or not, the counter is the depth, and an end is a real one exactly when it
      leaves no level open. */
  lemma {:induction false} CounterIsBalance(pooled: bool, ops: seq<TxOp>)
    ensures RunOps(pooled, ops).count == Depth(ops) && RunOps(pooled, ops).ended == Outermost(ops)
  {
    if ops != [] {
      CounterIsBalance(pooled, ops[..|ops| - 1]);
    }
  }

  /** Over every properly nested sequence the counter is the depth, only an end of the outermost level
      ends a transaction for real, and on the pooled executor the transactions begun and not ended are
      the nested ones and the one that is open. */
  lemma {:induction false} CounterIsDepth(pooled: bool, ops: seq<TxOp>)
    requires Nested(ops)
    ensures var g := RunOps(pooled, ops);
            && g.count == Depth(ops) >= 0 && g.ended == Outermost(ops)
            && (pooled ==> g.begun == g.ended + Inner(ops) + (if Depth(ops) > 0 then 1 else 0))
  {
    assert ops[..|ops|] == ops;
    if ops != [] {
      var front := ops[..|ops| - 1];
      forall k | 0 <= k <= |front| ensures Depth(front[..k]) >= 0 {
        assert front[..k] == ops[..k];
      }
      CounterIsDepth(pooled, front);
    }
  }

  /** On the pooled executor every transaction begun is ended exactly when levels were never nested; an
      inner level would be left open. */
  lemma NoLeakIffFlat(ops: seq<TxOp>)
    requires Nested(ops) && Depth(ops) == 0
    ensures RunOps(true, ops).begun == RunOps(true, ops).ended <==> Inner(ops) == 0
  {
    CounterIsDepth(true, ops);
  }

  // ---------- what nested levels commit ----------

  /** Levels opened and closed by BeginTx and CommitTx on the pooled executor, and rows written through
      the handle of the innermost one. */
  datatype Level = Open | Put(tx: Tx) | Close

  /** The committed tables and those of the open handles, outermost first. */
  datatype Nest = Nest(db: Tables, handles: seq<Tables>)

  function OnLevel(n: Nest, l: Level): Nest {
    var k := |n.handles|;
    match l
    case Open => n.(handles := n.handles + [n.db])
    case Put(tx) => if k == 0 then n else n.(handles := n.handles[k - 1 := Upserted(n.handles[k - 1], tx)])
    case Close => if k == 0 then n else Nest(if k == 1 then n.handles[0] else n.db, n.handles[..k - 1])
  }

  function RunLevels(db: Tables, ls: seq<Level>): Nest {
    if ls == [] then Nest(db, []) else OnLevel(RunLevels(db, ls[..|ls| - 1]), ls[|ls| - 1])
  }

  function Height(ls: seq<Level>): int {
    if ls == [] then 0
    else Height(ls[..|ls| - 1]) + (match ls[|ls| - 1] case Open => 1 case Put(_) => 0 case Close => -1)
  }

  /** Nothing is written or closed outside a level. */
  ghost predicate Proper(ls: seq<Level>) {
    forall k :: 0 <= k < |ls| && !ls[k].Open? ==> Height(ls[..k]) > 0
  }

  /** The rows written through outermost handles. */
  function OuterPuts(ls: seq<Level>): seq<Tx> {
    if ls == [] then []
    else
      var n := |ls| - 1;
      OuterPuts(ls[..n]) + (if ls[n].Put? && Height(ls[..n]) == 1 then [ls[n].tx] else [])
  }

  /** On the pooled executor the outermost level commits what was written through its own handle; rows
      written through the handle of an inner level are never committed. */
  lemma {:induction false} OuterLevelCommits(db: Tables, ls: seq<Level>)
    requires Proper(ls)
    ensures var n := RunLevels(db, ls);
            && |n.handles| == Height(ls)
            && (if n.handles == [] then n.db else n.handles[0]) == db.(rows := Overwritten(db.rows, OuterPuts(ls)))
  {
    if ls != [] {
      var k := |ls| - 1;
      var front := ls[..k];
      assert forall i :: 0 <= i < k ==> front[..i] == ls[..i];
      OuterLevelCommits(db, front);
      var puts := OuterPuts(front);
      if ls[k].Put? && Height(front) == 1 {
        assert (puts + [ls[k].tx])[..|puts|] == puts;
      } else {
        assert OuterPuts(ls) == puts;
      }
    }
  }

  /** Different open handles of a store, none of them the database's. */
  ghost predicate Handles(st: PgStore, handles: seq<Connection>)
    reads st, set h | h in handles
  {
    && st.Valid() && st.exec.Pooled? && st.txCount == |handles|
    && (forall i :: 0 <= i < |handles| ==> handles[i].open && handles[i] != st.db)
    && (forall i, j :: 0 <= i < j < |handles| ==> handles[i] != handles[j])
  }

  method OneLevel(st: PgStore, handles: seq<Connection>, l: Level, ghost n: Nest) returns (now: seq<Connection>)
    requires Handles(st, handles) && Shows(st.db, handles, n) && (l.Open? || handles != [])
    modifies st`txCount, st`begun, st`ended, st.db`tables, set h | h in handles
    ensures Handles(st, now) && Shows(st.db, now, OnLevel(n, l)) && forall h :: h in now ==> h in handles || fresh(h)
  {
    match l {
    case Open =>
      var tx := st.BeginTx(false);
      now := handles + [tx];
    case Put(tx) =>
      var top := handles[|handles| - 1];
      top.tables := Upserted(top.tables, tx);
      now := handles;
    case Close =>
      var _ := st.CommitTx(handles[|handles| - 1], false);
      now := handles[..|handles| - 1];
    }
  }

  /** The store's own methods do what RunLevels says, and come back to a closed counter. */
  method RunNested(st: PgStore, ls: seq<Level>)
    requires st.Valid() && st.exec.Pooled? && st.txCount == 0 && Proper(ls) && Height(ls) == 0
    modifies st`txCount, st`begun, st`ended, st.db`tables
    ensures st.txCount == 0 && st.db.tables == RunLevels(old(st.db.tables), ls).db
  {
    var handles: seq<Connection> := [];
    for k := 0 to |ls|
      invariant Handles(st, handles) && |handles| == Height(ls[..k]) && forall h :: h in handles ==> fresh(h)
      invariant Shows(st.db, handles, RunLevels(old(st.db.tables), ls[..k]))
    {
      assert ls[..k + 1][..k] == ls[..k];
      handles := OneLevel(st, handles, ls[k], RunLevels(old(st.db.tables), ls[..k]));
    }
    assert ls[..|ls|] == ls;
  }

  ghost predicate Shows(db: Connection, handles: seq<Connection>, n: Nest)
    reads db, set h | h in handles
  {
    && db.tables == n.db && |handles| == |n.handles|
    && forall i :: 0 <= i < |handles| ==> handles[i].tables == n.handles[i]
  }
}
