/** Requests that store at the same time: each holds the handle that BeginTx gave it, and all share the
    counter of one store. */
module Sessions {
  import opened Chain
  import opened Store

  /** What session i does between its BeginTx and its CommitTx. */
  datatype SessionOp = Begin(i: nat) | Put(i: nat, tx: Tx) | Finish(i: nat)

  /** The committed tables and those the open handles show. */
  datatype Desk = Desk(db: Tables, handles: map<nat, Tables>)

  /** On the pooled executor a begin opens a transaction of its own; an end commits for real when the
      counter comes to zero. */
  function OnOp(d: Desk, op: SessionOp): Desk {
    match op
    case Begin(i) => d.(handles := d.handles[i := d.db])
    case Put(i, tx) => if i in d.handles then d.(handles := d.handles[i := Upserted(d.handles[i], tx)]) else d
    case Finish(i) => Desk(if d.handles.Keys == {i} then d.handles[i] else d.db, d.handles - {i})
  }

  function RunSessions(db: Tables, ops: seq<SessionOp>): Desk {
    if ops == [] then Desk(db, map[]) else OnOp(RunSessions(db, ops[..|ops| - 1]), ops[|ops| - 1])
  }

  // ---------- read off the history ----------

  /** The sessions that have begun and not ended. */
  function StillOpen(ops: seq<SessionOp>): set<nat> {
    if ops == [] then {}
    else
      var before := StillOpen(ops[..|ops| - 1]);
      match ops[|ops| - 1]
      case Begin(i) => before + {i}
      case Put(_, _) => before
      case Finish(i) => before - {i}
  }

  /** A session is not begun while it is open, and writes and ends only while it is. */
  ghost predicate Proper(ops: seq<SessionOp>) {
    forall k :: 0 <= k < |ops| ==> InOrder(ops, k)
  }

  ghost predicate InOrder(ops: seq<SessionOp>, k: nat)
    requires k < |ops|
  {
    ops[k].Begin? <==> ops[k].i !in StillOpen(ops[..k])
  }

  /** What session i has written since it began. */
  function Written(ops: seq<SessionOp>, i: nat): seq<Tx> {
    if ops == [] then []
    else
      var before := Written(ops[..|ops| - 1], i);
      match ops[|ops| - 1]
      case Begin(x) => if x == i then [] else before
      case Put(x, tx) => if x == i then before + [tx] else before
      case Finish(_) => before
  }

  /** The rows of the sessions that ended while no other was open, in the order of their ends. */
  function WrittenAlone(ops: seq<SessionOp>): seq<Tx> {
    if ops == [] then []
    else
      var n := |ops| - 1;
      WrittenAlone(ops[..n])
      + (if ops[n].Finish? && StillOpen(ops[..n]) == {ops[n].i} then Written(ops[..n], ops[n].i) else [])
  }

  function WithRows(t: Tables, txs: seq<Tx>): Tables {
    t.(rows := Overwritten(t.rows, txs))
  }

  lemma WithRowsSnoc(t: Tables, txs: seq<Tx>, tx: Tx)
    ensures WithRows(t, txs + [tx]) == Upserted(WithRows(t, txs), tx)
  {
    assert (txs + [tx])[..|txs|] == txs;
  }

  /** What the desk holds after a history: the rows of those who ended alone, and for each open session
      also its own. */
  ghost predicate Accounted(db: Tables, ops: seq<SessionOp>) {
    var d := RunSessions(db, ops);
    && d.handles.Keys == StillOpen(ops) && d.db == WithRows(db, WrittenAlone(ops))
    && forall i :: i in d.handles ==> d.handles[i] == WithRows(db, WrittenAlone(ops) + Written(ops, i))
  }

  lemma BeginHistory(front: seq<SessionOp>, i: nat)
    ensures var ops := front + [SessionOp.Begin(i)];
            && StillOpen(ops) == StillOpen(front) + {i} && WrittenAlone(ops) == WrittenAlone(front)
            && Written(ops, i) == [] && forall x :: x != i ==> Written(ops, x) == Written(front, x)
  {
    var ops := front + [SessionOp.Begin(i)];
    assert ops[..|ops| - 1] == front && ops[|ops| - 1] == SessionOp.Begin(i);
  }

  lemma BeginAccounted(db: Tables, front: seq<SessionOp>, i: nat)
    requires Accounted(db, front)
    ensures Accounted(db, front + [SessionOp.Begin(i)])
  {
    var ops := front + [SessionOp.Begin(i)];
    BeginHistory(front, i);
    assert ops[..|ops| - 1] == front && WrittenAlone(front) + [] == WrittenAlone(front);
  }

  lemma PutAccounted(db: Tables, front: seq<SessionOp>, i: nat, tx: Tx)
    requires Accounted(db, front) && i in StillOpen(front)
    ensures Accounted(db, front + [SessionOp.Put(i, tx)])
  {
    var ops := front + [SessionOp.Put(i, tx)];
    assert ops[..|ops| - 1] == front;
    assert WrittenAlone(ops) == WrittenAlone(front);
    WithRowsSnoc(db, WrittenAlone(front) + Written(front, i), tx);
    assert WrittenAlone(ops) + Written(ops, i) == (WrittenAlone(front) + Written(front, i)) + [tx];
  }

  lemma FinishAccounted(db: Tables, front: seq<SessionOp>, i: nat)
    requires Accounted(db, front) && i in StillOpen(front)
    ensures Accounted(db, front + [SessionOp.Finish(i)])
  {
    var ops := front + [SessionOp.Finish(i)];
    assert ops[..|ops| - 1] == front;
    if StillOpen(front) == {i} {
      assert WrittenAlone(ops) == WrittenAlone(front) + Written(front, i);
      assert RunSessions(db, ops).handles.Keys == {};
    } else {
      assert WrittenAlone(ops) == WrittenAlone(front);
    }
  }

  lemma OneMoreAccounted(db: Tables, front: seq<SessionOp>, op: SessionOp)
    requires Accounted(db, front) && (op.Begin? <==> op.i !in StillOpen(front))
    ensures Accounted(db, front + [op])
  {
    match op
    case Begin(i) => BeginAccounted(db, front, i);
    case Put(i, tx) => PutAccounted(db, front, i, tx);
    case Finish(i) => FinishAccounted(db, front, i);
  }

  lemma PrefixSnoc(ops: seq<SessionOp>, n: nat)
    requires n < |ops|
    ensures ops[..n + 1] == ops[..n] + [ops[n]]
  {
  }

  lemma {:induction false} PrefixAccounted(db: Tables, ops: seq<SessionOp>, n: nat)
    requires Proper(ops) && n <= |ops|
    ensures Accounted(db, ops[..n])
  {
    if n > 0 {
      PrefixAccounted(db, ops, n - 1);
      assert InOrder(ops, n - 1);
      OneMoreAccounted(db, ops[..n - 1], ops[n - 1]);
      PrefixSnoc(ops, n - 1);
    }
  }

  /** A session's rows are committed exactly when no other session is open at its end: in any overlapping
      of sessions the committed rows are those of the sessions that ended alone, and what the other
      sessions wrote is lost although every one of their calls succeeded. */
  lemma CommittedIffAlone(db: Tables, ops: seq<SessionOp>)
    requires Proper(ops)
    ensures var d := RunSessions(db, ops);
            && d.handles.Keys == StillOpen(ops) && d.db == WithRows(db, WrittenAlone(ops))
            && forall i :: i in d.handles ==> d.handles[i] == WithRows(db, WrittenAlone(ops) + Written(ops, i))
  {
    PrefixAccounted(db, ops, |ops|);
    assert ops[..|ops|] == ops;
  }

  // ---------- the store's own methods ----------

  /** Different open handles, all among those owned. */
  ghost predicate Handles(st: PgStore, handles: map<nat, Connection>, owned: set<Connection>)
    reads st, owned
  {
    && st.Valid() && st.exec.Pooled? && st.db !in owned
    && (forall i :: i in handles ==> handles[i] in owned && handles[i].open)
    && (forall i, j :: i in handles && j in handles && i != j ==> handles[i] != handles[j])
  }

  ghost predicate Shows(db: Connection, handles: map<nat, Connection>, owned: set<Connection>, d: Desk)
    requires forall i :: i in handles ==> handles[i] in owned
    reads db, owned
  {
    && db.tables == d.db && handles.Keys == d.handles.Keys
    && forall i :: i in handles ==> handles[i].tables == d.handles[i]
  }

  lemma OneLess(ids: set<nat>, i: nat)
    requires i in ids
    ensures |ids - {i}| == |ids| - 1 && (|ids| == 1 <==> ids == {i})
  {
    if |ids| == 1 {
      assert ids - {i} == {};
    }
  }

  method BeginOne(st: PgStore, handles: map<nat, Connection>, i: nat, ghost owned: set<Connection>, ghost d: Desk)
    returns (now: map<nat, Connection>, ghost more: set<Connection>)
    requires Handles(st, handles, owned) && Shows(st.db, handles, owned, d) && i !in handles
    modifies st`txCount, st`begun
    ensures Handles(st, now, more) && Shows(st.db, now, more, OnOp(d, SessionOp.Begin(i)))
    ensures st.txCount == old(st.txCount) + 1 && now.Keys == handles.Keys + {i}
    ensures forall c :: c in more ==> c in owned || fresh(c)
  {
    var tx := st.BeginTx(false);
    now, more := handles[i := tx], owned + {tx};
    assert forall k :: k in handles ==> handles[k] != tx && now[k] == handles[k];
  }

  method PutOne(st: PgStore, handles: map<nat, Connection>, i: nat, tx: Tx, ghost owned: set<Connection>, ghost d: Desk)
    requires Handles(st, handles, owned) && Shows(st.db, handles, owned, d) && i in handles
    modifies owned
    ensures Handles(st, handles, owned) && Shows(st.db, handles, owned, OnOp(d, SessionOp.Put(i, tx)))
  {
    var mine := handles[i];
    mine.tables := Upserted(mine.tables, tx);
  }

  method FinishOne(st: PgStore, handles: map<nat, Connection>, i: nat, ghost owned: set<Connection>, ghost d: Desk)
    returns (now: map<nat, Connection>)
    requires Handles(st, handles, owned) && Shows(st.db, handles, owned, d) && i in handles
    requires st.txCount >= 1 && (st.txCount == 1 <==> handles.Keys == {i})
    modifies st`txCount, st`ended, st.db`tables, owned
    ensures Handles(st, now, owned) && Shows(st.db, now, owned, OnOp(d, Finish(i)))
    ensures st.txCount == old(st.txCount) - 1 && now.Keys == handles.Keys - {i}
  {
    now := handles - {i};
    var _ := st.CommitTx(handles[i], false);
  }

  method DoOne(st: PgStore, handles: map<nat, Connection>, op: SessionOp, ghost owned: set<Connection>, ghost d: Desk)
    returns (now: map<nat, Connection>, ghost more: set<Connection>)
    requires Handles(st, handles, owned) && Shows(st.db, handles, owned, d)
    requires (op.Begin? <==> op.i !in handles) && st.txCount == |handles.Keys|
    modifies st`txCount, st`begun, st`ended, st.db`tables, owned
    ensures Handles(st, now, more) && Shows(st.db, now, more, OnOp(d, op)) && st.txCount == |now.Keys|
    ensures forall c :: c in more ==> c in owned || fresh(c)
  {
    now, more := handles, owned;
    match op {
    case Begin(i) => now, more := BeginOne(st, handles, i, owned, d);
    case Put(i, tx) => PutOne(st, handles, i, tx, owned, d);
    case Finish(i) =>
      OneLess(handles.Keys, i);
      now := FinishOne(st, handles, i, owned, d);
    }
  }

  lemma NextOp(db: Tables, ops: seq<SessionOp>, k: nat)
    requires Proper(ops) && k < |ops|
    ensures RunSessions(db, ops[..k + 1]) == OnOp(RunSessions(db, ops[..k]), ops[k])
    ensures ops[k].Begin? <==> ops[k].i !in RunSessions(db, ops[..k]).handles
  {
    assert ops[..k + 1][..k] == ops[..k] && InOrder(ops, k);
    PrefixAccounted(db, ops, k);
  }

  /** Sessions that overlap in any proper way on one store leave exactly the tables RunSessions says. */
  method Overlap(st: PgStore, ops: seq<SessionOp>)
    requires st.Valid() && st.exec.Pooled? && st.txCount == 0 && Proper(ops) && StillOpen(ops) == {}
    modifies st`txCount, st`begun, st`ended, st.db`tables
    ensures st.txCount == 0 && st.db.tables == RunSessions(old(st.db.tables), ops).db
  {
    ghost var db := st.db.tables;
    var handles: map<nat, Connection> := map[];
    ghost var owned: set<Connection> := {};
    for k := 0 to |ops|
      invariant Handles(st, handles, owned) && Shows(st.db, handles, owned, RunSessions(db, ops[..k]))
      invariant st.txCount == |handles.Keys| && forall c :: c in owned ==> fresh(c)
    {
      NextOp(db, ops, k);
      handles, owned := DoOne(st, handles, ops[k], owned, RunSessions(db, ops[..k]));
    }
    assert ops[..|ops|] == ops;
    CommittedIffAlone(db, ops);
  }
}
