/** The rate of node calls in timed runs of the pool, across all workers. */
module PoolRate {
  import opened Pool
  import opened PoolSafety
  import RL = RateLimiter

  /** Times do not run backward, and the limiter's ticks are at least wait apart. */
  ghost predicate Timed(run: seq<Label>, times: seq<int>, wait: nat) {
    && |times| == |run|
    && (forall i, j :: 0 <= i <= j < |run| ==> times[i] <= times[j])
    && (forall i, j :: 0 <= i < j < |run| && run[i].Tick? && run[j].Tick? ==> times[i] + wait <= times[j])
  }

  lemma {:induction false} ExecutesFront(cfg: Config, s: State, run: seq<Label>)
    requires Executes(cfg, s, run) && run != []
    ensures var n := |run| - 1;
            && Executes(cfg, s, run[..n]) && Enabled(cfg, After(cfg, s, run[..n]), run[n])
            && After(cfg, s, run) == Next(cfg, After(cfg, s, run[..n]), run[n])
    decreases |run|
  {
    var n := |run| - 1;
    if n == 0 {
      assert run[..0] == [] && run[1..] == [];
    } else {
      ExecutesFront(cfg, Next(cfg, s, run[0]), run[1..]);
      assert run[1..][..n - 1] == run[..n][1..] && run[1..][n - 1] == run[n];
    }
  }

  /** What a step means to the limiter: a tick, a credit taken for a node call, or nothing. */
  function EventOf(s: State, l: Label, at: int): seq<RL.Event> {
    match l
    case Tick(pick) => [RL.Tick(at, s.appDone, pick)]
    case Work(_, _, w) => if IsGrant(w) then [RL.Ask(at, s.appDone, false)] else []
    case _ => []
  }

  /** The limiter's share of each step of a timed run. */
  function Marks(cfg: Config, s: State, run: seq<Label>, times: seq<int>): (marks: seq<seq<RL.Event>>)
    requires Executes(cfg, s, run) && |times| == |run|
    ensures Marked(marks, run, times)
    decreases |run|
  {
    if run == [] then []
    else
      var n := |run| - 1;
      ExecutesFront(cfg, s, run);
      Marks(cfg, s, run[..n], times[..n]) + [EventOf(After(cfg, s, run[..n]), run[n], times[n])]
  }

  /** At most one event a step, stamped with its time; only ticks are ticks. */
  ghost predicate Marked(marks: seq<seq<RL.Event>>, run: seq<Label>, times: seq<int>) {
    && |marks| == |run| == |times|
    && forall k :: 0 <= k < |marks| ==> MarkOk(marks[k], run[k], times[k])
  }

  predicate MarkOk(mark: seq<RL.Event>, l: Label, at: int) {
    mark == [] || (|mark| == 1 && mark[0].at == at && (mark[0].Tick? ==> l.Tick?))
  }

  function Flat(marks: seq<seq<RL.Event>>): seq<RL.Event> {
    if marks == [] then [] else Flat(marks[..|marks| - 1]) + marks[|marks| - 1]
  }

  /** One step moves the bucket as its event does. */
  lemma StepBucket(cfg: Config, s: State, l: Label, at: int, b: RL.Bucket, es: seq<RL.Event>)
    requires Enabled(cfg, s, l) && RL.Run(b, es) == s.bucket
    ensures RL.Run(b, es + EventOf(s, l, at)) == Next(cfg, s, l).bucket
  {
    var e := EventOf(s, l, at);
    if e == [] {
      assert es + e == es;
    } else {
      assert (es + e)[..|es|] == es;
    }
  }

  lemma {:induction false} MarksDriveBucket(cfg: Config, s: State, run: seq<Label>, times: seq<int>)
    requires Executes(cfg, s, run) && |times| == |run|
    ensures RL.Run(s.bucket, Flat(Marks(cfg, s, run, times))) == After(cfg, s, run).bucket
    decreases |run|
  {
    if run != [] {
      var n := |run| - 1;
      ExecutesFront(cfg, s, run);
      MarksDriveBucket(cfg, s, run[..n], times[..n]);
      var front := Marks(cfg, s, run[..n], times[..n]);
      StepBucket(cfg, After(cfg, s, run[..n]), run[n], times[n], s.bucket, Flat(front));
      assert Marks(cfg, s, run, times)[..n] == front;
    }
  }

  lemma {:induction false} MarksPrefix(cfg: Config, s: State, run: seq<Label>, times: seq<int>, i: nat)
    requires Executes(cfg, s, run) && |times| == |run| && i <= |run|
    ensures Executes(cfg, s, run[..i]) && Marks(cfg, s, run[..i], times[..i]) == Marks(cfg, s, run, times)[..i]
    decreases |run|
  {
    if i == |run| {
      assert run[..i] == run && times[..i] == times;
    } else {
      var n := |run| - 1;
      ExecutesFront(cfg, s, run);
      MarksPrefix(cfg, s, run[..n], times[..n], i);
      assert run[..n][..i] == run[..i] && times[..n][..i] == times[..i];
    }
  }

  // ---------- the events of a stretch ----------

  lemma {:induction false} FlatSplit(marks: seq<seq<RL.Event>>, i: nat)
    requires i <= |marks|
    ensures Flat(marks) == Flat(marks[..i]) + Flat(marks[i..])
    decreases |marks|
  {
    if i == |marks| {
      assert marks[..i] == marks && marks[i..] == [];
    } else {
      var n := |marks| - 1;
      FlatSplit(marks[..n], i);
      assert marks[..n][..i] == marks[..i] && marks[..n][i..] == marks[i..][..n - i];
    }
  }

  ghost predicate Within(es: seq<RL.Event>, lo: int, hi: int) {
    forall x :: 0 <= x < |es| ==> lo <= es[x].at <= hi
  }

  lemma {:induction false} FlatWithin(marks: seq<seq<RL.Event>>, run: seq<Label>, times: seq<int>, lo: int, hi: int)
    requires Marked(marks, run, times) && forall k :: 0 <= k < |times| ==> lo <= times[k] <= hi
    ensures Within(Flat(marks), lo, hi)
  {
    if run != [] {
      var n := |run| - 1;
      FlatWithin(marks[..n], run[..n], times[..n], lo, hi);
      assert MarkOk(marks[n], run[n], times[n]);
    }
  }

  ghost predicate TicksBefore(es: seq<RL.Event>, wait: nat, t: int) {
    forall x :: 0 <= x < |es| && es[x].Tick? ==> es[x].at + wait <= t
  }

  /** Ticks made before step n are a wait before it if it is a tick too. */
  lemma {:induction false} FlatTicks(marks: seq<seq<RL.Event>>, run: seq<Label>, times: seq<int>, wait: nat, t: int)
    requires Marked(marks, run, times)
    requires forall k :: 0 <= k < |run| && run[k].Tick? ==> times[k] + wait <= t
    ensures TicksBefore(Flat(marks), wait, t)
  {
    if run != [] {
      var n := |run| - 1;
      FlatTicks(marks[..n], run[..n], times[..n], wait, t);
      assert MarkOk(marks[n], run[n], times[n]);
    }
  }

  lemma {:induction false} FlatPaced(marks: seq<seq<RL.Event>>, run: seq<Label>, times: seq<int>, wait: nat)
    requires Marked(marks, run, times) && Timed(run, times, wait)
    ensures RL.Paced(Flat(marks), wait)
  {
    if run != [] {
      var n := |run| - 1;
      FlatPaced(marks[..n], run[..n], times[..n], wait);
      assert MarkOk(marks[n], run[n], times[n]);
      if marks[n] != [] {
        var es := Flat(marks[..n]);
        FlatWithin(marks[..n], run[..n], times[..n], times[0], times[n]);
        if run[n].Tick? {
          FlatTicks(marks[..n], run[..n], times[..n], wait, times[n]);
        }
        PacedSnoc(es, marks[n][0], wait);
        assert marks[n] == [marks[n][0]];
      }
    }
  }

  lemma PacedSnoc(es: seq<RL.Event>, e: RL.Event, wait: nat)
    requires RL.Paced(es, wait) && (forall x :: 0 <= x < |es| ==> es[x].at <= e.at)
    requires e.Tick? ==> TicksBefore(es, wait, e.at)
    ensures RL.Paced(es + [e], wait)
  {
  }

  // ---------- the bound ----------

  lemma EventsBound(es: seq<RL.Event>, n: nat, max: nat, wait: nat, span: nat, lo: int)
    requires RL.Paced(es, wait) && wait > 0 && n <= |es| && Within(es[n..], lo, lo + span)
    ensures RL.Run(RL.Full(max), es).grants - RL.Run(RL.Full(max), es[..n]).grants <= max + span / wait + 1
  {
    if n < |es| {
      assert es[n..][0] == es[n] && es[n..][|es| - 1 - n] == es[|es| - 1];
      RL.WindowBound(max, wait, es, n, |es|, span);
      assert es[..|es|] == es;
    } else {
      assert es[..n] == es && span / wait >= 0;
    }
  }

  lemma StretchBound(marks: seq<seq<RL.Event>>, run: seq<Label>, times: seq<int>, max: nat, wait: nat, i: nat,
                     span: nat)
    requires Marked(marks, run, times) && Timed(run, times, wait) && wait > 0
    requires i < |run| && times[|run| - 1] - times[i] <= span
    ensures RL.Run(RL.Full(max), Flat(marks)).grants - RL.Run(RL.Full(max), Flat(marks[..i])).grants
            <= max + span / wait + 1
  {
    var es, n := Flat(marks), |Flat(marks[..i])|;
    FlatSplit(marks, i);
    FlatWithin(marks[i..], run[i..], times[i..], times[i], times[i] + span);
    assert es[n..] == Flat(marks[i..]) && es[..n] == Flat(marks[..i]);
    FlatPaced(marks, run, times, wait);
    EventsBound(es, n, max, wait, span, times[i]);
  }

  /** The credits taken by the first i steps are the node calls they started. */
  lemma GrantsAt(cfg: Config, s: State, run: seq<Label>, times: seq<int>, i: nat)
    requires Executes(cfg, s, run) && |times| == |run| && i <= |run|
    ensures RL.Run(s.bucket, Flat(Marks(cfg, s, run, times)[..i])).grants == s.bucket.grants + Granted(run[..i])
  {
    MarksPrefix(cfg, s, run, times, i);
    MarksDriveBucket(cfg, s, run[..i], times[..i]);
    CountGrants(cfg, s, run[..i]);
  }

  /** The rate bound of the whole pool: with ticks at least wait apart, any stretch of a run that takes at
      most span holds at most max + span / wait + 1 node calls, whatever the workers do. */
  lemma PoolWindowBound(cfg: Config, maxCredits: nat, missing: seq<seq<string>>, run: seq<Label>, times: seq<int>,
                        wait: nat, i: nat, j: nat, span: nat)
    requires Executes(cfg, Init(maxCredits, missing), run) && Timed(run, times, wait) && wait > 0
    requires i < j <= |run| && times[j - 1] - times[i] <= span
    ensures Granted(run[..j]) - Granted(run[..i]) <= maxCredits + span / wait + 1
  {
    var marks := Marks(cfg, Init(maxCredits, missing), run, times);
    GrantsAt(cfg, Init(maxCredits, missing), run, times, j);
    GrantsAt(cfg, Init(maxCredits, missing), run, times, i);
    assert marks[..j][..i] == marks[..i];
    StretchBound(marks[..j], run[..j], times[..j], maxCredits, wait, i, span);
  }
}
