/** Whole fetches: what the two node calls returned decides how GetTransactionByHash ends. */
module FetchRuns {
  import opened Prelude
  import opened Chain
  import opened FetchJoin

  // ---------- the sorted errors ----------

  /** At k the texts part: a ends there, or has the smaller character. */
  predicate PartsBelow(a: string, b: string, k: nat) {
    k <= |a| && k < |b| && a[..k] == b[..k] && (k == |a| || a[k] < b[k])
  }

  lemma HeadsAgree(a: string, b: string, k: nat)
    ensures 0 < k <= |a| && k <= |b| && a[..k] == b[..k] ==> a[0] == b[0]
  {
    if 0 < k <= |a| && k <= |b| {
      assert a[..k][0] == a[0] && b[..k][0] == b[0];
    }
  }

  /** strings.Compare is the lexicographic order. */
  lemma {:induction false} LessIff(a: string, b: string)
    ensures TextLess(a, b) <==> exists k: nat :: PartsBelow(a, b, k)
  {
    if a == [] || b == [] || a[0] != b[0] {
      if TextLess(a, b) {
        assert PartsBelow(a, b, 0);
      }
      forall k: nat | PartsBelow(a, b, k) ensures TextLess(a, b) {
        HeadsAgree(a, b, k);
      }
    } else {
      LessIff(a[1..], b[1..]);
      forall k: nat | PartsBelow(a[1..], b[1..], k) ensures PartsBelow(a, b, k + 1) {
        assert a[..k + 1] == [a[0]] + a[1..][..k] && b[..k + 1] == [b[0]] + b[1..][..k];
      }
      forall k: nat | PartsBelow(a, b, k) ensures k > 0 && PartsBelow(a[1..], b[1..], k - 1) {
        assert a[1..][..k - 1] == a[..k][1..] && b[1..][..k - 1] == b[..k][1..];
      }
    }
  }

  lemma {:induction false} LessTransitive(a: string, b: string, c: string)
    requires !TextLess(b, a) && !TextLess(c, b)
    ensures !TextLess(c, a)
  {
    if a != [] && b != [] && c != [] && a[0] == b[0] == c[0] {
      LessTransitive(a[1..], b[1..], c[1..]);
    }
  }

  ghost predicate Ascending(s: seq<string>) {
    forall i, k :: 0 <= i < k < |s| ==> !TextLess(s[k], s[i])
  }

  lemma {:induction false} InsertKeeps(e: string, s: seq<string>)
    ensures multiset(Insert(e, s)) == multiset(s) + multiset{e}
  {
    if s != [] {
      assert s == [s[0]] + s[1..];
      if TextLess(s[0], e) {
        InsertKeeps(e, s[1..]);
      }
    }
  }

  lemma {:induction false} InsertAscends(e: string, s: seq<string>)
    requires Ascending(s)
    ensures Ascending(Insert(e, s))
  {
    if s != [] {
      if TextLess(s[0], e) {
        InsertAscends(e, s[1..]);
        AllBehind(e, s);
      } else {
        forall k | 0 <= k < |s| ensures !TextLess(s[k], e) {
          TextLessTotal(s[0], s[0]);
          LessTransitive(e, s[0], s[k]);
        }
      }
    }
  }

  lemma AllBehind(e: string, s: seq<string>)
    requires s != [] && Ascending(s) && TextLess(s[0], e)
    ensures forall k :: 0 <= k < |Insert(e, s[1..])| ==> !TextLess(Insert(e, s[1..])[k], s[0])
  {
    var rest := Insert(e, s[1..]);
    InsertKeeps(e, s[1..]);
    TextLessTotal(s[0], e);
    forall k | 0 <= k < |rest| ensures !TextLess(rest[k], s[0]) {
      assert rest[k] in multiset(rest);
      if rest[k] != e {
        assert rest[k] in s[1..];
      }
    }
  }

  /** Sorting loses and adds no error and leaves them in ascending order. */
  lemma {:induction false} SortedAscends(errs: seq<string>)
    ensures Ascending(Sorted(errs)) && multiset(Sorted(errs)) == multiset(errs)
  {
    if errs != [] {
      SortedAscends(errs[1..]);
      InsertAscends(errs[0], Sorted(errs[1..]));
      InsertKeeps(errs[0], Sorted(errs[1..]));
      assert errs == [errs[0]] + errs[1..];
    }
  }

  // ---------- runs ----------

  /** The steps can be taken one after the other; done tells whether the task context has ended. */
  predicate Executes(node: Node, hash: string, j: Join, done: bool, steps: seq<Step>)
    decreases |steps|
  {
    steps == []
    || (Enabled(j, done, steps[0]) && Executes(node, hash, Next(node, hash, j, steps[0]), done, steps[1..]))
  }

  function After(node: Node, hash: string, j: Join, done: bool, steps: seq<Step>): Join
    requires Executes(node, hash, j, done, steps)
    decreases |steps|
  {
    if steps == [] then j else After(node, hash, Next(node, hash, j, steps[0]), done, steps[1..])
  }

  /** The error a goroutine holds or has reported. */
  function Holds(f: Fetcher): Option<string> {
    match f
    case Reporting(why) => Some(why)
    case Exiting(failure, _) => failure
    case Gone(failure, _) => failure
    case _ => None
  }

  ghost predicate Told(j: Join, past: seq<Step>, side: Side) {
    && (forall why :: Fail(side, why) in past ==> Holds(At(j, side)) == Some(Text(side, why)))
    && (Holds(At(j, side)).Some? ==> exists why :: Fail(side, why) in past)
    && (At(j, side).Gone? || At(j, side).Exiting? ==> !At(j, side).dropped)
  }

  lemma FailTells(node: Node, hash: string, j: Join, past: seq<Step>, st: Step)
    requires Enabled(j, false, st) && st.Fail? && Told(j, past, st.side)
    ensures Told(Next(node, hash, j, st), past + [st], st.side)
  {
    assert Holds(At(j, st.side)) == None;
    assert Fail(st.side, st.why) in past + [st];
    assert At(Next(node, hash, j, st), st.side) == Reporting(Text(st.side, st.why));
  }

  /** A step that is no failure of this side keeps what the side holds and drops nothing. */
  lemma OtherStepHolds(node: Node, hash: string, j: Join, st: Step, side: Side)
    requires Inv(node, hash, j, false) && Enabled(j, false, st) && !(st.Fail? && st.side == side)
    ensures var f, g := At(j, side), At(Next(node, hash, j, st), side);
            && Holds(g) == Holds(f)
            && (g.Gone? || g.Exiting? ==> g.dropped ==> (f.Gone? || f.Exiting?) && f.dropped)
  {
    if st.Report? {
      SendNeverBlocks(node, hash, j, false, st.side);
    }
  }

  lemma StepTells(node: Node, hash: string, j: Join, past: seq<Step>, st: Step, side: Side)
    requires Inv(node, hash, j, false) && Enabled(j, false, st) && Told(j, past, side)
    ensures Told(Next(node, hash, j, st), past + [st], side)
  {
    if st.Fail? && st.side == side {
      FailTells(node, hash, j, past, st);
    } else {
      OtherStepHolds(node, hash, j, st, side);
      assert forall why :: Fail(side, why) in past + [st] <==> Fail(side, why) in past;
    }
  }

  lemma {:induction false} RunTells(node: Node, hash: string, j: Join, past: seq<Step>, steps: seq<Step>)
    requires Inv(node, hash, j, false) && Executes(node, hash, j, false, steps)
    requires Told(j, past, Details) && Told(j, past, Receipts)
    ensures var k := After(node, hash, j, false, steps);
            && Inv(node, hash, k, false)
            && Told(k, past + steps, Details) && Told(k, past + steps, Receipts)
    decreases |steps|
  {
    if steps == [] {
      assert past + steps == past;
    } else {
      StepKeepsInv(node, hash, j, false, steps[0]);
      StepTells(node, hash, j, past, steps[0], Details);
      StepTells(node, hash, j, past, steps[0], Receipts);
      RunTells(node, hash, Next(node, hash, j, steps[0]), past + [steps[0]], steps[1..]);
      assert past + [steps[0]] + steps[1..] == past + steps;
    }
  }

  /** Details before receipts, whatever the calls said. */
  lemma DetailsFirst(a: string, b: string)
    ensures TextLess("failed to fetch transaction details: " + a, "failed to fetch transaction receipt: " + b)
  {
    var x, y := "failed to fetch transaction details: " + a, "failed to fetch transaction receipt: " + b;
    assert x[..28] == "failed to fetch transaction " == y[..28];
    assert x[28] == 'd' && y[28] == 'r';
    assert PartsBelow(x, y, 28);
    LessIff(x, y);
  }

  /** What the calls of a run returned: the errors of both, or none. */
  ghost predicate Returned(steps: seq<Step>, details: Option<string>, receipt: Option<string>) {
    && (forall why :: Fail(Details, why) in steps <==> details == Some(why))
    && (forall why :: Fail(Receipts, why) in steps <==> receipt == Some(why))
  }

  /** Each call fails at most once, and without cancellation every failure reaches the error list. */
  lemma RunReturns(node: Node, hash: string, steps: seq<Step>, j: Join)
    returns (details: Option<string>, receipt: Option<string>)
    requires Executes(node, hash, STARTED, false, steps) && j == After(node, hash, STARTED, false, steps) && j.ended
    ensures Inv(node, hash, j, false) && Returned(steps, details, receipt)
    ensures Reported(j.tx) == (if details.Some? then Some(Text(Details, details.value)) else None)
    ensures Reported(j.rc) == (if receipt.Some? then Some(Text(Receipts, receipt.value)) else None)
  {
    RunTells(node, hash, STARTED, [], steps);
    assert [] + steps == steps;
    details, receipt := None, None;
    if Holds(j.tx).Some? {
      var why :| Fail(Details, why) in steps;
      details := Some(why);
    }
    if Holds(j.rc).Some? {
      var why :| Fail(Receipts, why) in steps;
      receipt := Some(why);
    }
    OneText(steps, j, Details, details);
    OneText(steps, j, Receipts, receipt);
  }

  lemma OneText(steps: seq<Step>, j: Join, side: Side, failure: Option<string>)
    requires Told(j, steps, side) && (failure.Some? ==> Fail(side, failure.value) in steps)
    requires failure.None? ==> Holds(At(j, side)).None?
    ensures forall why :: Fail(side, why) in steps <==> failure == Some(why)
  {
    forall why | Fail(side, why) in steps ensures failure == Some(why) {
      var x, y := Text(side, why), Text(side, failure.value);
      assert x == y;
      var n := |x| - |why|;
      assert x[n..] == why && y[n..] == failure.value;
    }
  }

  /** How a fetch ends when nothing is cancelled, in every interleaving: a record of the node's answers when
      both calls succeed and the sender is known, and otherwise an error that names every failed call and
      gives its reason, details first. */
  lemma FetchOutcome(node: Node, hash: string, steps: seq<Step>, j: Join)
    returns (details: Option<string>, receipt: Option<string>)
    requires Executes(node, hash, STARTED, false, steps) && j == After(node, hash, STARTED, false, steps) && j.ended
    ensures Returned(steps, details, receipt)
    ensures var out := Evaluate(j, false);
            match (details, receipt)
            case (Some(a), None) => out == Failed("failed to fetch transaction details: " + a)
            case (None, Some(b)) => out == Failed("failed to fetch transaction receipt: " + b)
            case (Some(a), Some(b)) =>
              out == Failed("failed to fetch transaction details: " + a + "\n"
                            + "failed to fetch transaction receipt: " + b)
            case (None, None) =>
              match node.details(hash).sender
              case Unrecovered(why) => out == Failed("error fetching ethereum tx data: " + why)
              case Recovered(_) => out.Record? && Describes(out.tx, node.details(hash), node.receipt(hash))
  {
    details, receipt := RunReturns(node, hash, steps, j);
    EvaluateIsSafe(node, hash, j, false);
    assert j.errs + j.buf == j.errs;
    if details.Some? && receipt.Some? {
      BothErrors(j.errs, details.value, receipt.value);
    } else if details.Some? || receipt.Some? {
      JoinOne(j.errs);
    }
  }

  lemma BothErrors(errs: seq<string>, a: string, b: string)
    requires Arrived(errs, Some(Text(Details, a)), Some(Text(Receipts, b)))
    ensures JoinText(Sorted(errs)) == Text(Details, a) + "\n" + Text(Receipts, b)
  {
    SortPair(errs);
    DetailsFirst(a, b);
    TextLessTotal(Text(Details, a), Text(Receipts, b));
    JoinPair(Text(Details, a), Text(Receipts, b));
  }

  lemma JoinPair(x: string, y: string)
    ensures JoinText([x, y]) == x + "\n" + y
  {
    assert [x, y][1..] == [y];
  }

  lemma JoinOne(errs: seq<string>)
    requires |errs| == 1
    ensures JoinText(Sorted(errs)) == errs[0]
  {
    assert errs[1..] == [] && Sorted([]) == [] && Insert(errs[0], []) == [errs[0]];
  }

  // ---------- credits ----------

  /** The credits a fetch has still to ask for. */
  function CreditsAhead(j: Join): nat {
    (if j.tx.Waiting? then 1 else 0) + (if j.rc.Waiting? then 1 else 0)
  }

  lemma SideLeavesOther(node: Node, hash: string, j: Join, st: Step, side: Side)
    requires Enabled(j, true, st) && IsLocal(st, side)
    ensures var k := Next(node, hash, j, st);
            if side.Details? then k.rc == j.rc && !k.tx.Waiting? else k.tx == j.tx && !k.rc.Waiting?
  {
  }

  /** A goroutine takes one credit, when it leaves its loop, and never waits again. */
  lemma OneCreditEach(node: Node, hash: string, j: Join, st: Step)
    requires Enabled(j, true, st)
    ensures CreditsAhead(Next(node, hash, j, st)) + (if st.Grant? then 1 else 0) <= CreditsAhead(j)
  {
    match st
    case Report(_) =>
    case CloseErrs =>
    case Take =>
    case EndRange =>
    case Grant(side) => SideLeavesOther(node, hash, j, st, side);
    case Answer(side) => SideLeavesOther(node, hash, j, st, side);
    case Fail(side, _) => SideLeavesOther(node, hash, j, st, side);
    case Drop(side) => SideLeavesOther(node, hash, j, st, side);
    case Exit(side) => SideLeavesOther(node, hash, j, st, side);
  }

  // ---------- a report given up ----------

  ghost predicate CanEnd(node: Node, hash: string, j: Join, steps: seq<Step>, errs: seq<string>) {
    && Executes(node, hash, j, true, steps)
    && After(node, hash, j, true, steps).ended && After(node, hash, j, true, steps).errs == errs
  }

  lemma EndsNext(node: Node, hash: string, j: Join, st: Step, steps: seq<Step>, errs: seq<string>)
    requires Enabled(j, true, st) && CanEnd(node, hash, Next(node, hash, j, st), steps, errs)
    ensures CanEnd(node, hash, j, [st] + steps, errs)
  {
    assert ([st] + steps)[1..] == steps;
  }

  /** After a cancellation the goroutine whose call failed may report its error or leave without a report;
      both ways the fetch ends. */
  lemma LateErrorIsKeptOrLost(node: Node, hash: string, j: Join, why: string)
    requires Inv(node, hash, j, true) && j.tx == Reporting(why) && j.rc.Gone? && j.rc.failure.None?
    requires !j.ended
    ensures exists steps :: CanEnd(node, hash, j, steps, [])
    ensures exists steps :: CanEnd(node, hash, j, steps, [why])
  {
    assert j.errs == [] && j.buf == [];
    var lost := Next(node, hash, Next(node, hash, j, Drop(Details)), Exit(Details));
    LastSteps(node, hash, lost);
    EndsNext(node, hash, Next(node, hash, j, Drop(Details)), Exit(Details), [CloseErrs, EndRange], []);
    assert [Exit(Details)] + [CloseErrs, EndRange] == [Exit(Details), CloseErrs, EndRange];
    EndsNext(node, hash, j, Drop(Details), [Exit(Details), CloseErrs, EndRange], []);
    var k := Next(node, hash, j, Report(Details));
    var t := Next(node, hash, k, Exit(Details));
    assert t.errs + t.buf == [why];
    var kept := Next(node, hash, t, Take);
    LastSteps(node, hash, kept);
    EndsNext(node, hash, t, Take, [CloseErrs, EndRange], [why]);
    EndsNext(node, hash, k, Exit(Details), [Take, CloseErrs, EndRange], [why]);
    EndsNext(node, hash, j, Report(Details), [Exit(Details), Take, CloseErrs, EndRange], [why]);
  }

  lemma LastSteps(node: Node, hash: string, j: Join)
    requires j.wg == 0 && !j.closed && !j.ended && j.buf == []
    ensures CanEnd(node, hash, j, [CloseErrs, EndRange], j.errs)
  {
    var k := Next(node, hash, j, CloseErrs);
    assert CanEnd(node, hash, Next(node, hash, k, EndRange), [], j.errs);
    EndsNext(node, hash, k, EndRange, [], j.errs);
    EndsNext(node, hash, j, CloseErrs, [EndRange], j.errs);
  }
}
