/** The service call: read the store, fetch what is missing, persist it, answer in request order. */
module Service {
  import opened Prelude
  import opened Chain
  import opened Store

  /** What the receiving select yields for one scheduled task. */
  datatype Arrival = Got(res: TxResult) | ContextDone

  /** What the surroundings do during one call: failing statements, refused tasks, arriving results. */
  datatype Env = Env(
    lookupFails: bool,
    linkBreaks: nat -> bool,
    refused: nat -> bool,
    arrives: nat -> Arrival,
    faults: nat -> Fault)

  datatype Failure =
    | LookupFailed | LinkFailed | ScheduleRefused | FetchFailed(err: string) | StoreFailed | Cancelled
    | NilDereference

  datatype Reply = Records(list: seq<Tx>) | Error(why: Failure)

  // ---------- what the call computes ----------

  /** availableMap after the lookup. */
  function Available(found: seq<Loaded>): map<string, Tx> {
    if found == [] then map[]
    else
      var n := |found| - 1;
      Available(found[..n])[found[n].tx.hash := found[n].tx]
  }

  /** The occurrences of requested hashes that are not available, in request order. */
  function Missing(hashes: seq<string>, avail: map<string, Tx>): seq<string> {
    if hashes == [] then []
    else
      var n := |hashes| - 1;
      Missing(hashes[..n], avail) + (if hashes[n] in avail then [] else [hashes[n]])
  }

  datatype Collected = Collected(t: Tables, avail: map<string, Tx>, stop: Option<Failure>)

  /** One turn of the collecting loop. */
  function CollectOne(t: Tables, avail: map<string, Tx>, userID: int, a: Arrival, fault: Fault): Collected {
    if a.ContextDone? then Collected(t, avail, Some(Cancelled))
    else if a.res.tx.None? then Collected(t, avail, Some(NilDereference))
    else if a.res.err.Some? then Collected(t, avail, Some(FetchFailed(a.res.err.value)))
    else
      var tx := a.res.tx.value;
      var (u, ok) := InsertOne(t, tx, userID, fault);
      Collected(u, avail[tx.hash := tx], if ok then None else Some(StoreFailed))
  }

  function CollectAll(t: Tables, avail: map<string, Tx>, n: nat, userID: int, env: Env): Collected {
    if n == 0 then Collected(t, avail, None)
    else
      var c := CollectAll(t, avail, n - 1, userID, env);
      if c.stop.Some? then c else CollectOne(c.t, c.avail, userID, env.arrives(n - 1), env.faults(n - 1))
  }

  /** The result list in request order. */
  function Rebuild(hashes: seq<string>, avail: map<string, Tx>): seq<Tx> {
    if hashes == [] then []
    else
      var n := |hashes| - 1;
      Rebuild(hashes[..n], avail) + (if hashes[n] in avail then [avail[hashes[n]]] else [])
  }

  predicate AnyRefused(n: nat, refused: nat -> bool) {
    exists k :: 0 <= k < n && refused(k)
  }

  /** The whole call on tables t, when the lookup returns found. */
  function Call(t: Tables, found: seq<Loaded>, hashes: seq<string>, userID: int, env: Env): (Tables, Reply) {
    if env.lookupFails then (t, Error(LookupFailed))
    else
      var (linked, failed) := LinkAll(t, found, userID, env.linkBreaks);
      if failed.Some? then (linked, Error(LinkFailed))
      else
        var avail := Available(found);
        var missing := Missing(hashes, avail);
        if AnyRefused(|missing|, env.refused) then (linked, Error(ScheduleRefused))
        else
          var c := CollectAll(linked, avail, |missing|, userID, env);
          if c.stop.Some? then (c.t, Error(c.stop.value)) else (c.t, Records(Rebuild(hashes, c.avail)))
  }

  class AppService {
    const st: PgStore

    constructor (st: PgStore)
      ensures this.st == st
    {
      this.st := st;
    }

    /** One caller, no open transaction. */
    ghost predicate Ready()
      reads this, st, st.db
    {
      st.Valid() && st.exec.Pooled? && st.txCount == 0
    }

    method GetTransactionsByHashes(hashes: seq<string>, userID: int, env: Env)
      returns (reply: Reply, ghost rows: seq<Loaded>)
      requires Ready() && Sound(st.db.tables)
      modifies st`txCount, st`begun, st`ended, st.db`tables
      ensures Ready()
      ensures env.lookupFails || Finds(old(st.db.tables), hashes, userID, rows)
      ensures (st.db.tables, reply) == Call(old(st.db.tables), rows, hashes, userID, env)
    {
      var ok, found := st.GetTransactionsByHashes(hashes, userID, env.lookupFails);
      if !ok {
        return Error(LookupFailed), [];
      }
      var linked, avail := LinkFound(found, userID, env);
      if !linked {
        return Error(LinkFailed), found;
      }
      var scheduled, missing := Schedule(hashes, avail, env);
      if !scheduled {
        return Error(ScheduleRefused), found;
      }
      var stop: Option<Failure>;
      stop, avail := Collect(missing, avail, userID, env);
      if stop.Some? {
        return Error(stop.value), found;
      }
      var list: seq<Tx> := [];
      for i := 0 to |hashes|
        invariant list == Rebuild(hashes[..i], avail)
      {
        assert hashes[..i + 1][..i] == hashes[..i];
        if hashes[i] in avail {
          list := list + [avail[hashes[i]]];
        }
      }
      assert hashes[..|hashes|] == hashes;
      return Records(list), found;
    }

    /** Map the stored transactions and link them to the user (service.go:68-77). */
    method LinkFound(found: seq<Loaded>, userID: int, env: Env) returns (ok: bool, avail: map<string, Tx>)
      requires Ready()
      modifies st.db`tables
      ensures Ready()
      ensures ok ==> (st.db.tables, None) == LinkAll(old(st.db.tables), found, userID, env.linkBreaks)
                     && avail == Available(found)
      ensures !ok ==> var (t, failed) := LinkAll(old(st.db.tables), found, userID, env.linkBreaks);
                      failed.Some? && st.db.tables == t
    {
      ghost var t0 := st.db.tables;
      avail := map[];
      for i := 0 to |found|
        invariant Ready() && avail == Available(found[..i])
        invariant (st.db.tables, None) == LinkAll(t0, found[..i], userID, env.linkBreaks)
      {
        assert found[..i + 1][..i] == found[..i];
        avail := avail[found[i].tx.hash := found[i].tx];
        ghost var t := st.db.tables;
        var failed := st.InsertTransactionsUser([found[i]], userID, _ => env.linkBreaks(i));
        LinkSingle(t, found[i], userID, _ => env.linkBreaks(i));
        if failed.Some? {
          LinkStops(t0, found, userID, env.linkBreaks, i);
          return false, avail;
        }
      }
      assert found[..|found|] == found;
      return true, avail;
    }

    /** Offer a task per missing occurrence (service.go:82-92). */
    method Schedule(hashes: seq<string>, avail: map<string, Tx>, env: Env) returns (ok: bool, missing: seq<string>)
      ensures ok == !AnyRefused(|Missing(hashes, avail)|, env.refused)
      ensures ok ==> missing == Missing(hashes, avail)
    {
      missing := [];
      for i := 0 to |hashes|
        invariant missing == Missing(hashes[..i], avail)
        invariant !AnyRefused(|missing|, env.refused)
      {
        assert hashes[..i + 1][..i] == hashes[..i];
        if hashes[i] !in avail {
          if env.refused(|missing|) {
            MissingGrows(hashes, avail, i + 1);
            return false, missing;
          }
          missing := missing + [hashes[i]];
        }
      }
      assert hashes[..|hashes|] == hashes;
      return true, missing;
    }

    /** Receive and persist the results (service.go:95-111). */
    method Collect(missing: seq<string>, found: map<string, Tx>, userID: int, env: Env)
      returns (stop: Option<Failure>, avail: map<string, Tx>)
      requires Ready()
      modifies st`txCount, st`begun, st`ended, st.db`tables
      ensures Ready()
      ensures Collected(st.db.tables, avail, stop) == CollectAll(old(st.db.tables), found, |missing|, userID, env)
    {
      ghost var t0 := st.db.tables;
      avail, stop := found, None;
      for i := 0 to |missing|
        invariant Ready() && stop.None?
        invariant CollectAll(t0, found, i, userID, env) == Collected(st.db.tables, avail, None)
      {
        match env.arrives(i) {
        case ContextDone =>
          stop := Some(Cancelled);
        case Got(res) =>
          if res.tx.None? {
            stop := Some(NilDereference);
          } else if res.err.Some? {
            stop := Some(FetchFailed(res.err.value));
          } else {
            avail := avail[res.tx.value.hash := res.tx.value];
            ghost var t := st.db.tables;
            var failed := st.InsertTransactions([res.tx.value], userID, _ => env.faults(i));
            InsertSingle(t, res.tx.value, userID, _ => env.faults(i));
            stop := if failed.Some? then Some(StoreFailed) else None;
          }
        }
        if stop.Some? {
          CollectStops(t0, found, |missing|, userID, env, i + 1);
          return;
        }
      }
    }
  }

  lemma LinkSingle(t: Tables, l: Loaded, userID: int, breaks: nat -> bool)
    ensures var (u, ok) := LinkOne(t, l, userID, breaks(0));
            LinkAll(t, [l], userID, breaks) == (u, if ok then None else Some(0))
  {
    assert [l][..0] == [];
    assert LinkAll(t, [], userID, breaks) == (t, None);
  }

  lemma InsertSingle(t: Tables, tx: Tx, userID: int, faults: nat -> Fault)
    ensures var (u, ok) := InsertOne(t, tx, userID, faults(0));
            InsertAll(t, [tx], userID, faults) == (u, if ok then None else Some(0))
  {
    assert [tx][..0] == [];
    assert InsertAll(t, [], userID, faults) == (t, None);
  }

  lemma {:induction false} MissingGrows(hashes: seq<string>, avail: map<string, Tx>, i: nat)
    requires i <= |hashes|
    ensures |Missing(hashes[..i], avail)| <= |Missing(hashes, avail)|
    decreases |hashes|
  {
    if i < |hashes| {
      assert hashes[..|hashes| - 1][..i] == hashes[..i];
      MissingGrows(hashes[..|hashes| - 1], avail, i);
    } else {
      assert hashes[..i] == hashes;
    }
  }

  lemma {:induction false} CollectStops(t: Tables, avail: map<string, Tx>, n: nat, userID: int, env: Env, i: nat)
    requires i <= n && CollectAll(t, avail, i, userID, env).stop.Some?
    ensures CollectAll(t, avail, n, userID, env) == CollectAll(t, avail, i, userID, env)
  {
    if i < n {
      CollectStops(t, avail, n - 1, userID, env, i);
    }
  }
}
