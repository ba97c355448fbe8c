/** One fetch: two concurrent node calls, a WaitGroup, an error channel of capacity two and the
    goroutine that closes it (GetTransactionByHash). Every interleaving is a sequence of steps. */
module FetchJoin {
  import opened Prelude
  import opened Chain

  datatype Side = Details | Receipts

  /** A fetch goroutine. failure is what its call returned, dropped tells that the report was given
      up because the task context ended. */
  datatype Fetcher =
    | Waiting                                             // polling the rate limiter
    | Calling                                             // credit taken, node call in progress
    | Reporting(why: string)                              // blocked on the error channel
    | Exiting(failure: Option<string>, dropped: bool)     // deferred wg.Done still to run
    | Gone(failure: Option<string>, dropped: bool)

  datatype Join = Join(
    tx: Fetcher, rc: Fetcher,
    ethTx: Option<EthTx>, receipt: Option<Receipt>,
    wg: int,
    buf: seq<string>, closed: bool,
    errs: seq<string>, ended: bool,
    panicked: bool)

  const STARTED := Join(Waiting, Waiting, None, None, 2, [], false, [], false, false)

  datatype Step =
    | Grant(side: Side)                  // Allow() returned true, the call starts
    | Answer(side: Side)                 // the node call returns without error
    | Fail(side: Side, why: string)      // the node call returns an error
    | Report(side: Side)                 // errCh <- err
    | Drop(side: Side)                   // ctx.Done() chosen instead
    | Exit(side: Side)                   // wg.Done()
    | CloseErrs                          // wg.Wait() returned, close(errCh)
    | Take                               // range receives an error
    | EndRange                           // range sees the closed, empty channel

  function At(j: Join, side: Side): Fetcher {
    match side case Details => j.tx case Receipts => j.rc
  }

  function Set(j: Join, side: Side, f: Fetcher): Join {
    match side case Details => j.(tx := f) case Receipts => j.(rc := f)
  }

  function Text(side: Side, why: string): string {
    match side
    case Details => "failed to fetch transaction details: " + why
    case Receipts => "failed to fetch transaction receipt: " + why
  }

  /** Channel semantics of Go: a send or close on a closed channel does not block, it panics. */
  predicate Enabled(j: Join, done: bool, st: Step) {
    match st
    case Grant(side) => At(j, side).Waiting?
    case Answer(side) => At(j, side).Calling?
    case Fail(side, _) => At(j, side).Calling?
    case Report(side) => At(j, side).Reporting? && (|j.buf| < 2 || j.closed)
    case Drop(side) => At(j, side).Reporting? && done
    case Exit(side) => At(j, side).Exiting?
    case CloseErrs => j.wg == 0 && !j.closed
    case Take => !j.ended && j.buf != []
    case EndRange => !j.ended && j.buf == [] && j.closed
  }

  function Next(node: Node, hash: string, j: Join, st: Step): Join
    requires Enabled(j, true, st)
  {
    match st
    case Grant(side) => Set(j, side, Calling)
    case Answer(side) =>
      var k := Set(j, side, Exiting(None, false));
      (match side
       case Details => k.(ethTx := Some(node.details(hash)))
       case Receipts => k.(receipt := Some(node.receipt(hash))))
    case Fail(side, why) =>
      var k := Set(j, side, Reporting(Text(side, why)));
      (match side
       case Details => k.(ethTx := None)
       case Receipts => k.(receipt := None))
    case Report(side) =>
      if j.closed then j.(panicked := true)
      else Set(j, side, Exiting(Some(At(j, side).why), false)).(buf := j.buf + [At(j, side).why])
    case Drop(side) => Set(j, side, Exiting(Some(At(j, side).why), true))
    case Exit(side) =>
      Set(j, side, Gone(At(j, side).failure, At(j, side).dropped))
        .(wg := j.wg - 1, panicked := j.panicked || j.wg == 0)
    case CloseErrs => j.(closed := true)
    case Take => j.(errs := j.errs + [j.buf[0]], buf := j.buf[1..])
    case EndRange => j.(ended := true)
  }

  // ---------- the code after the join ----------

  predicate TextLess(a: string, b: string) {
    if b == [] then false
    else if a == [] then true
    else a[0] < b[0] || (a[0] == b[0] && TextLess(a[1..], b[1..]))
  }

  function Insert(e: string, sorted: seq<string>): seq<string> {
    if sorted == [] then [e]
    else if TextLess(sorted[0], e) then [sorted[0]] + Insert(e, sorted[1..])
    else [e] + sorted
  }

  function Sorted(errs: seq<string>): seq<string> {
    if errs == [] then [] else Insert(errs[0], Sorted(errs[1..]))
  }

  function JoinText(errs: seq<string>): string {
    if errs == [] then ""
    else if |errs| == 1 then errs[0]
    else errs[0] + "\n" + JoinText(errs[1..])
  }

  /** How GetTransactionByHash ends. NilPanic is a dereference of a transaction or receipt that was
      never set. */
  datatype Fetched = Record(tx: Tx) | Failed(err: string) | NilPanic

  const INTERRUPTED := "fetching ethereum tx data got interrupted by context cancellation"
  const NO_SENDER := "error fetching ethereum tx data: "

  function Evaluate(j: Join, done: bool): Fetched {
    if done then Failed(INTERRUPTED)
    else if j.errs != [] then Failed(JoinText(Sorted(j.errs)))
    else if j.ethTx.None? || j.receipt.None? then NilPanic
    else
      var r := BuildRecord(j.ethTx.value, j.receipt.value);
      if r.None? then Failed(NO_SENDER + j.ethTx.value.sender.why) else Record(r.value)
  }

  // ---------- invariant ----------

  predicate Past(f: Fetcher) { f.Exiting? || f.Gone? }

  /** The error a goroutine has put on the channel, if any. */
  function Reported(f: Fetcher): Option<string> {
    if Past(f) && !f.dropped then f.failure else None
  }

  function Live(f: Fetcher): nat { if f.Gone? then 0 else 1 }

  ghost predicate FetcherOk(f: Fetcher, done: bool) {
    Past(f) ==> (f.dropped ==> done && f.failure.Some?)
  }

  /** The errors that went through the channel are the reported ones, in either order. */
  ghost predicate Arrived(log: seq<string>, a: Option<string>, b: Option<string>) {
    if a.None? && b.None? then log == []
    else if a.None? then log == [b.value]
    else if b.None? then log == [a.value]
    else log == [a.value, b.value] || log == [b.value, a.value]
  }

  ghost predicate Inv(node: Node, hash: string, j: Join, done: bool) {
    && !j.panicked
    && FetcherOk(j.tx, done) && FetcherOk(j.rc, done)
    && j.wg == Live(j.tx) + Live(j.rc)
    && (j.closed ==> j.wg == 0)
    && (j.ended ==> j.closed && j.buf == [])
    && Arrived(j.errs + j.buf, Reported(j.tx), Reported(j.rc))
    && (Past(j.tx) && j.tx.failure.None? ==> j.ethTx == Some(node.details(hash)))
    && (Past(j.rc) && j.rc.failure.None? ==> j.receipt == Some(node.receipt(hash)))
  }

  /** The steps that touch the error channel. */
  lemma ReportKeepsInv(node: Node, hash: string, j: Join, done: bool, side: Side)
    requires Inv(node, hash, j, done) && Enabled(j, done, Report(side))
    ensures Inv(node, hash, Next(node, hash, j, Report(side)), done)
  {
    if side.Details? {
      DetailsReport(node, hash, j, done);
    } else {
      ReceiptsReport(node, hash, j, done);
    }
  }

  lemma DetailsReport(node: Node, hash: string, j: Join, done: bool)
    requires Inv(node, hash, j, done) && Enabled(j, done, Report(Details))
    ensures Inv(node, hash, Next(node, hash, j, Report(Details)), done)
  {
    var why := j.tx.why;
    assert Next(node, hash, j, Report(Details)) == j.(tx := Exiting(Some(why), false), buf := j.buf + [why]);
    assert j.errs + (j.buf + [why]) == (j.errs + j.buf) + [why];
  }

  lemma ReceiptsReport(node: Node, hash: string, j: Join, done: bool)
    requires Inv(node, hash, j, done) && Enabled(j, done, Report(Receipts))
    ensures Inv(node, hash, Next(node, hash, j, Report(Receipts)), done)
  {
    var why := j.rc.why;
    assert Next(node, hash, j, Report(Receipts)) == j.(rc := Exiting(Some(why), false), buf := j.buf + [why]);
    assert j.errs + (j.buf + [why]) == (j.errs + j.buf) + [why];
  }

  lemma TakeKeepsInv(node: Node, hash: string, j: Join, done: bool)
    requires Inv(node, hash, j, done) && Enabled(j, done, Take)
    ensures Inv(node, hash, Next(node, hash, j, Take), done)
  {
    var k := Next(node, hash, j, Take);
    assert k.errs + k.buf == j.errs + j.buf;
  }

  /** Every step of every interleaving keeps the invariant: no panic, no lost error. */
  lemma StepKeepsInv(node: Node, hash: string, j: Join, done: bool, st: Step)
    requires Inv(node, hash, j, done) && Enabled(j, done, st)
    ensures Inv(node, hash, Next(node, hash, j, st), done)
  {
    match st
    case Report(side) => ReportKeepsInv(node, hash, j, done, side);
    case Take => TakeKeepsInv(node, hash, j, done);
    case CloseErrs =>
    case EndRange =>
    case _ => LocalStepKeepsInv(node, hash, j, done, st);
  }

  lemma LocalStepKeepsInv(node: Node, hash: string, j: Join, done: bool, st: Step)
    requires Inv(node, hash, j, done) && Enabled(j, done, st)
    requires st.Grant? || st.Answer? || st.Fail? || st.Drop? || st.Exit?
    ensures Inv(node, hash, Next(node, hash, j, st), done)
  {
    match st
    case Grant(side) => LocalKeepsInv(node, hash, j, done, st, side);
    case Answer(side) => LocalKeepsInv(node, hash, j, done, st, side);
    case Fail(side, _) => LocalKeepsInv(node, hash, j, done, st, side);
    case Drop(side) => LocalKeepsInv(node, hash, j, done, st, side);
    case Exit(side) => LocalKeepsInv(node, hash, j, done, st, side);
  }

  predicate IsLocal(st: Step, side: Side) {
    match st
    case Grant(x) => x == side
    case Answer(x) => x == side
    case Fail(x, _) => x == side
    case Drop(x) => x == side
    case Exit(x) => x == side
    case _ => false
  }

  /** One goroutine moves on without touching the error channel. */
  lemma LocalKeepsInv(node: Node, hash: string, j: Join, done: bool, st: Step, side: Side)
    requires Inv(node, hash, j, done) && Enabled(j, done, st) && IsLocal(st, side)
    ensures Inv(node, hash, Next(node, hash, j, st), done)
  {
    if side.Details? {
      DetailsKeepInv(node, hash, j, done, st);
    } else {
      ReceiptsKeepInv(node, hash, j, done, st);
    }
  }

  lemma DetailsKeepInv(node: Node, hash: string, j: Join, done: bool, st: Step)
    requires Inv(node, hash, j, done) && Enabled(j, done, st) && IsLocal(st, Details)
    ensures Inv(node, hash, Next(node, hash, j, st), done)
  {
    var k := Next(node, hash, j, st);
    assert k == j.(tx := k.tx, ethTx := k.ethTx, wg := j.wg - Live(j.tx) + Live(k.tx));
    assert Reported(k.tx) == Reported(j.tx) && FetcherOk(k.tx, done);
  }

  lemma ReceiptsKeepInv(node: Node, hash: string, j: Join, done: bool, st: Step)
    requires Inv(node, hash, j, done) && Enabled(j, done, st) && IsLocal(st, Receipts)
    ensures Inv(node, hash, Next(node, hash, j, st), done)
  {
    var k := Next(node, hash, j, st);
    assert k == j.(rc := k.rc, receipt := k.receipt, wg := j.wg - Live(j.rc) + Live(k.rc));
    assert Reported(k.rc) == Reported(j.rc) && FetcherOk(k.rc, done);
  }

  /** A send on the error channel finds it open with a free slot, so it neither blocks nor panics;
      the channel is closed only after both goroutines are gone. */
  lemma SendNeverBlocks(node: Node, hash: string, j: Join, done: bool, side: Side)
    requires Inv(node, hash, j, done) && At(j, side).Reporting?
    ensures !j.closed && |j.buf| < 2 && Enabled(j, done, Report(side))
  {
    assert |j.errs + j.buf| < 2;
  }

  /** After the error checks both answers are set, even when an error was dropped on cancellation. There is
      a record exactly when nothing was cancelled or reported and the sender was recovered; its fields are
      those of the node's two answers. */
  lemma EvaluateIsSafe(node: Node, hash: string, j: Join, done: bool)
    requires Inv(node, hash, j, done) && j.ended
    ensures !Evaluate(j, done).NilPanic?
    ensures Evaluate(j, done).Record? <==> !done && j.errs == [] && node.details(hash).sender.Recovered?
    ensures Evaluate(j, done).Record? ==> ChainRecord(node, hash) == Some(Evaluate(j, done).tx)
                                          && Describes(Evaluate(j, done).tx, node.details(hash), node.receipt(hash))
    ensures done ==>
              Evaluate(j, done) == Failed("fetching ethereum tx data got interrupted by context cancellation")
  {
    assert j.errs + j.buf == j.errs;
    RecordDescribes(node, hash);
  }

  lemma {:induction false} TextLessTotal(a: string, b: string)
    ensures TextLess(a, b) || TextLess(b, a) || a == b
    ensures !(TextLess(a, b) && TextLess(b, a))
  {
    if a != [] && b != [] && a[0] == b[0] {
      TextLessTotal(a[1..], b[1..]);
      assert a == [a[0]] + a[1..] && b == [b[0]] + b[1..];
    }
  }

  lemma SortPair(a: seq<string>)
    requires |a| == 2
    ensures Sorted(a) == if TextLess(a[1], a[0]) then [a[1], a[0]] else [a[0], a[1]]
  {
    assert a[1..] == [a[1]] && a[1..][1..] == [];
    assert Sorted(a[1..]) == [a[1]];
    assert [a[1]][1..] == [] && Insert(a[0], []) == [a[0]];
    assert Insert(a[0], [a[1]]) == if TextLess(a[1], a[0]) then [a[1]] + [a[0]] else [a[0]] + [a[1]];
  }

  /** Without cancellation the outcome is a function of what the two calls returned: the order in
      which errors arrived does not matter. */
  lemma OutcomeForgetsOrder(node: Node, hash: string, j: Join, k: Join)
    requires Inv(node, hash, j, false) && Inv(node, hash, k, false) && j.ended && k.ended
    requires j.tx.failure == k.tx.failure && j.rc.failure == k.rc.failure
    ensures Evaluate(j, false) == Evaluate(k, false)
  {
    assert j.errs + j.buf == j.errs && k.errs + k.buf == k.errs;
    if |j.errs| == 2 {
      SortPair(j.errs);
      SortPair(k.errs);
      TextLessTotal(j.errs[0], j.errs[1]);
    }
  }

  // ---------- progress ----------

  function FetcherWork(f: Fetcher): nat {
    match f
    case Waiting => 5
    case Calling => 4
    case Reporting(_) => 3
    case Exiting(_, _) => 1
    case Gone(_, _) => 0
  }

  /** Steps a join can still take. */
  function Work(j: Join): nat {
    FetcherWork(j.tx) + FetcherWork(j.rc) + |j.buf| + (if j.closed then 0 else 1) + (if j.ended then 0 else 1)
  }

  lemma StepShrinksWork(node: Node, hash: string, j: Join, done: bool, st: Step)
    requires Inv(node, hash, j, done) && Enabled(j, done, st)
    ensures Work(Next(node, hash, j, st)) < Work(j)
  {
    match st
    case Report(side) => SendNeverBlocks(node, hash, j, done, side);
    case Take =>
    case CloseErrs =>
    case EndRange =>
    case Grant(side) => LocalShrinksWork(node, hash, j, done, st, side);
    case Answer(side) => LocalShrinksWork(node, hash, j, done, st, side);
    case Fail(side, _) => LocalShrinksWork(node, hash, j, done, st, side);
    case Drop(side) => LocalShrinksWork(node, hash, j, done, st, side);
    case Exit(side) => LocalShrinksWork(node, hash, j, done, st, side);
  }

  lemma LocalShrinksWork(node: Node, hash: string, j: Join, done: bool, st: Step, side: Side)
    requires Enabled(j, done, st) && IsLocal(st, side)
    ensures Work(Next(node, hash, j, st)) < Work(j)
  {
    if side.Details? {
      DetailsShrinkWork(node, hash, j, done, st);
    } else {
      ReceiptsShrinkWork(node, hash, j, done, st);
    }
  }

  lemma DetailsShrinkWork(node: Node, hash: string, j: Join, done: bool, st: Step)
    requires Enabled(j, done, st) && IsLocal(st, Details)
    ensures Work(Next(node, hash, j, st)) < Work(j)
  {
    var k := Next(node, hash, j, st);
    assert k == j.(tx := k.tx, ethTx := k.ethTx, wg := k.wg, panicked := k.panicked);
  }

  lemma ReceiptsShrinkWork(node: Node, hash: string, j: Join, done: bool, st: Step)
    requires Enabled(j, done, st) && IsLocal(st, Receipts)
    ensures Work(Next(node, hash, j, st)) < Work(j)
  {
    var k := Next(node, hash, j, st);
    assert k == j.(rc := k.rc, receipt := k.receipt, wg := k.wg, panicked := k.panicked);
  }

  /** An unfinished join always has a step when calls return; only Grant also needs a credit. */
  lemma CanMove(node: Node, hash: string, j: Join, done: bool)
    requires Inv(node, hash, j, done) && !j.ended
    ensures exists st :: Enabled(j, done, st) && !st.Fail?
  {
    if j.tx.Waiting? {
      assert Enabled(j, done, Grant(Details));
    } else if j.rc.Waiting? {
      assert Enabled(j, done, Grant(Receipts));
    } else if j.tx.Calling? {
      assert Enabled(j, done, Answer(Details));
    } else if j.rc.Calling? {
      assert Enabled(j, done, Answer(Receipts));
    } else if j.tx.Reporting? {
      SendNeverBlocks(node, hash, j, done, Details);
    } else if j.rc.Reporting? {
      SendNeverBlocks(node, hash, j, done, Receipts);
    } else if j.tx.Exiting? {
      assert Enabled(j, done, Exit(Details));
    } else if j.rc.Exiting? {
      assert Enabled(j, done, Exit(Receipts));
    } else if !j.closed {
      assert Enabled(j, done, CloseErrs);
    } else if j.buf != [] {
      assert Enabled(j, done, Take);
    } else {
      assert Enabled(j, done, EndRange);
    }
  }
}
