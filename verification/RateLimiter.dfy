/** The credit limiter in front of the Ethereum node: a bucket filled at start, refilled one credit
    per tick, emptied one credit per node call. */
module RateLimiter {

  const DEFAULT_NODE_CREDIT: nat := 10

  /** credits is the length of the buffered channel, max its capacity; grants and refills count the
      credits taken and added so far; refilling holds while the refill goroutine runs. */
  datatype Bucket = Bucket(credits: nat, max: nat, grants: nat, refills: nat, refilling: bool)

  function Full(max: nat): Bucket {
    Bucket(max, max, 0, 0, true)
  }

  /** One turn of the refill loop. When both cases of the select are ready, pickDone chooses. */
  function OnTick(b: Bucket, done: bool, pickDone: bool): Bucket {
    if !b.refilling then b
    else if done && (pickDone || b.credits >= b.max) then b.(refilling := false)
    else if b.credits < b.max then b.(credits := b.credits + 1, refills := b.refills + 1)
    else b
  }

  /** One call of Allow, with its answer. */
  function OnAsk(b: Bucket, done: bool, pickDone: bool): (Bucket, bool) {
    if b.credits > 0 && !(done && pickDone)
    then (b.(credits := b.credits - 1, grants := b.grants + 1), true)
    else (b, false)
  }

  /** Credits are conserved and never exceed the capacity. */
  predicate Conserved(b: Bucket) {
    b.credits <= b.max && b.credits + b.grants == b.max + b.refills
  }

  /** Allow answers true only with a credit; without one, or once the context has ended, it answers false,
      and between two ready cases it may choose either. */
  lemma AskIff(b: Bucket, done: bool, ok: bool)
    ensures (exists pick :: OnAsk(b, done, pick).1 == ok) <==> if ok then b.credits > 0 else b.credits == 0 || done
    ensures forall pick :: var c := OnAsk(b, done, pick).0;
              c.credits + (if OnAsk(b, done, pick).1 then 1 else 0) == b.credits && c.refills == b.refills
  {
    if ok {
      assert b.credits > 0 ==> OnAsk(b, done, false).1 == ok;
    } else {
      assert b.credits == 0 || done ==> OnAsk(b, done, true).1 == ok;
    }
  }

  /** A tick of a running loop may add a credit iff there is room, may end the loop iff the context has
      ended, and does nothing iff the bucket is full and the context live. */
  lemma TickIff(b: Bucket, done: bool)
    requires b.refilling && b.credits <= b.max
    ensures (exists pick :: OnTick(b, done, pick).credits == b.credits + 1) <==> b.credits < b.max
    ensures (exists pick :: !OnTick(b, done, pick).refilling) <==> done
    ensures (exists pick :: OnTick(b, done, pick) == b) <==> b.credits == b.max && !done
  {
    assert b.credits < b.max ==> OnTick(b, done, false).credits == b.credits + 1;
    assert done ==> !OnTick(b, done, true).refilling;
    assert b.credits == b.max && !done ==> OnTick(b, done, true) == b;
  }

  class Limiter {
    const max: nat
    const wait: nat
    var credits: nat
    var refilling: bool
    var ctxDone: bool
    ghost var grants: nat
    ghost var refills: nat

    ghost function View(): Bucket
      reads this
    {
      Bucket(credits, max, grants, refills, refilling)
    }

    ghost predicate Valid()
      reads this
    {
      max > 0 && Conserved(View())
    }

    /** NewRateLimiter: prefill, then start refilling. A limit that is not positive is read as 10. */
    constructor (maxCredits: int, refillInterval: nat)
      ensures Valid() && !ctxDone
      ensures maxCredits > 0 ==> max == maxCredits && wait == refillInterval / maxCredits
      ensures maxCredits <= 0 ==> max == 10 && wait == refillInterval / 10
      ensures View() == Full(max)
    {
      var capacity: nat := if maxCredits <= 0 then DEFAULT_NODE_CREDIT else maxCredits;
      max := capacity;
      wait := refillInterval / capacity;
      credits := 0;
      refilling := true;
      ctxDone := false;
      grants, refills := 0, 0;
      new;
      for i := 0 to max
        invariant credits == i && refilling && !ctxDone && grants == 0 && refills == 0
        invariant max == capacity && wait == refillInterval / capacity
      {
        credits := credits + 1;
      }
    }

    method Allow(pickDone: bool) returns (ok: bool)
      requires Valid()
      modifies this`credits, this`grants
      ensures Valid()
      ensures (View(), ok) == OnAsk(old(View()), ctxDone, pickDone)
    {
      if credits > 0 && (!ctxDone || !pickDone) {
        credits := credits - 1;
        grants := grants + 1;
        return true;
      }
      return false;
    }

    method Tick(pickDone: bool)
      requires Valid()
      modifies this`credits, this`refills, this`refilling
      ensures Valid()
      ensures View() == OnTick(old(View()), ctxDone, pickDone)
    {
      if !refilling {
        return;
      }
      var room := credits < max;
      if room && !(ctxDone && pickDone) {
        credits := credits + 1;
        refills := refills + 1;
      } else if ctxDone {
        refilling := false;
      }
    }

    method WaitDuration() returns (d: nat)
      ensures d == wait
    {
      d := wait;
    }

    method Cancel()
      modifies this`ctxDone
      ensures ctxDone
    {
      ctxDone := true;
    }
  }

  // ---------- timed runs ----------

  /** What happens to the limiter and when. done is the state of its context at that moment. */
  datatype Event =
    | Tick(at: int, done: bool, pickDone: bool)
    | Ask(at: int, done: bool, pickDone: bool)

  function Step(b: Bucket, e: Event): Bucket {
    match e
    case Tick(_, done, pick) => OnTick(b, done, pick)
    case Ask(_, done, pick) => OnAsk(b, done, pick).0
  }

  function Run(b: Bucket, es: seq<Event>): Bucket {
    if es == [] then b else Step(Run(b, es[..|es| - 1]), es[|es| - 1])
  }

  function Ticks(es: seq<Event>): nat {
    if es == [] then 0 else Ticks(es[..|es| - 1]) + (if es[|es| - 1].Tick? then 1 else 0)
  }

  /** Time runs forward and ticks are at least wait apart. */
  ghost predicate Paced(es: seq<Event>, wait: nat) {
    && (forall i, j :: 0 <= i <= j < |es| ==> es[i].at <= es[j].at)
    && (forall i, j :: 0 <= i < j < |es| && es[i].Tick? && es[j].Tick? ==> es[i].at + wait <= es[j].at)
  }

  lemma {:induction false} RunConserves(b: Bucket, es: seq<Event>)
    requires Conserved(b)
    ensures Conserved(Run(b, es)) && Run(b, es).max == b.max
    ensures Run(b, es).grants <= b.grants + b.credits + Ticks(es)
    ensures Run(b, es).refills <= b.refills + Ticks(es)
  {
    if es != [] {
      RunConserves(b, es[..|es| - 1]);
    }
  }

  lemma {:induction false} RunSplits(b: Bucket, es: seq<Event>, i: nat)
    requires i <= |es|
    ensures Run(b, es) == Run(Run(b, es[..i]), es[i..])
  {
    if i < |es| {
      var n := |es| - 1;
      RunSplits(b, es[..n], i);
      assert es[..n][..i] == es[..i];
      assert es[..n][i..] == es[i..][..|es[i..]| - 1];
    } else {
      assert es[..i] == es;
    }
  }

  ghost predicate TicksEndBefore(es: seq<Event>, wait: nat, t: int) {
    forall k :: 0 <= k < |es| && es[k].Tick? ==> es[k].at + wait <= t
  }

  lemma PacedSlice(es: seq<Event>, wait: nat, i: nat, j: nat)
    requires i <= j <= |es| && Paced(es, wait)
    ensures Paced(es[i..j], wait)
  {
    assert forall k :: 0 <= k < j - i ==> es[i..j][k] == es[i + k];
  }

  /** Paced ticks, each given its own wait, fit into the time from the first event to t. */
  lemma {:induction false} TicksFit(es: seq<Event>, wait: nat, t: int)
    requires Paced(es, wait) && es != [] && es[0].at <= t && TicksEndBefore(es, wait, t)
    ensures Ticks(es) * wait <= t - es[0].at
  {
    var n := |es| - 1;
    var front := es[..n];
    var last := es[n];
    if front == [] {
      assert Ticks(front) == 0;
    } else {
      PacedSlice(es, wait, 0, n);
      assert front == es[0..n];
      var u := if last.Tick? then last.at else t;
      assert TicksEndBefore(front, wait, u) && front[0] == es[0];
      TicksFit(front, wait, u);
    }
    MulStep(Ticks(front), wait);
  }

  lemma MulStep(n: nat, d: nat)
    ensures (n + 1) * d == n * d + d && 0 * d == 0
  {
  }

  /** The rate bound: in a paced run of a new limiter, any window of length at most span holds at
      most max + span / wait + 1 grants, whatever the workers and the scheduler do. */
  lemma WindowBound(max: nat, wait: nat, es: seq<Event>, i: nat, j: nat, span: nat)
    requires wait > 0 && Paced(es, wait)
    requires i < j <= |es| && es[j - 1].at - es[i].at <= span
    ensures Run(Full(max), es[..j]).grants - Run(Full(max), es[..i]).grants <= max + span / wait + 1
  {
    var window := es[..j][i..];
    RunSplits(Full(max), es[..j], i);
    assert es[..j][..i] == es[..i];
    RunConserves(Full(max), es[..i]);
    RunConserves(Run(Full(max), es[..i]), window);
    assert window == es[i..j];
    PacedSlice(es, wait, i, j);
    TicksFit(window, wait, es[j - 1].at + wait);
    Quotient(Ticks(window), wait, span);
  }

  lemma Quotient(n: nat, d: nat, s: nat)
    requires d > 0 && n * d <= s + d
    ensures n <= s / d + 1
  {
    var q := s / d;
    assert s < q * d + d;
    assert n * d < (q + 2) * d;
  }

  /** Context cancellation is never taken back. */
  ghost predicate DoneStays(es: seq<Event>) {
    forall i, j :: 0 <= i <= j < |es| && es[i].done ==> es[j].done
  }

  /** How many of the answers are positive. */
  function Allowed(answers: seq<bool>): nat {
    if answers == [] then 0 else Allowed(answers[..|answers| - 1]) + (if answers[|answers| - 1] then 1 else 0)
  }

  lemma AllowedNext(answers: seq<bool>, k: nat)
    requires k < |answers|
    ensures Allowed(answers[..k + 1]) == Allowed(answers[..k]) + (if answers[k] then 1 else 0)
  {
    assert answers[..k + 1][..k] == answers[..k];
  }

  lemma {:induction false} AllowedGranted(max: nat, es: seq<Event>, answers: seq<bool>, k: nat)
    requires |answers| == |es| && k <= |es|
    requires forall i :: 0 <= i < k ==> answers[i] == Answer(Run(Full(max), es[..i]), es[i])
    ensures Allowed(answers[..k]) == Run(Full(max), es[..k]).grants
  {
    if k > 0 {
      AllowedGranted(max, es, answers, k - 1);
      AllowedNext(answers, k - 1);
      assert es[..k][..k - 1] == es[..k - 1];
    }
  }

  /** What an event answers: true for an ask that is allowed. */
  predicate Answer(b: Bucket, e: Event) {
    e.Ask? && OnAsk(b, e.done, e.pickDone).1
  }

  method DoOne(lim: Limiter, e: Event) returns (ok: bool)
    requires lim.Valid() && (lim.ctxDone ==> e.done)
    modifies lim
    ensures lim.Valid() && (lim.ctxDone <==> e.done)
    ensures lim.View() == Step(old(lim.View()), e) && ok == Answer(old(lim.View()), e)
  {
    if e.done {
      lim.Cancel();
    }
    match e {
    case Tick(_, _, pick) =>
      lim.Tick(pick);
      ok := false;
    case Ask(_, _, pick) =>
      ok := lim.Allow(pick);
    }
  }

  /** What a limiter of capacity max answers. */
  ghost predicate Answers(max: nat, es: seq<Event>, answers: seq<bool>) {
    |answers| == |es| && forall k :: 0 <= k < |es| ==> answers[k] == Answer(Run(Full(max), es[..k]), es[k])
  }

  lemma AnswersNext(max: nat, es: seq<Event>, answers: seq<bool>, n: nat)
    requires n < |es| && Answers(max, es[..n], answers)
    ensures Answers(max, es[..n + 1], answers + [Answer(Run(Full(max), es[..n]), es[n])])
    ensures Run(Full(max), es[..n + 1]) == Step(Run(Full(max), es[..n]), es[n])
  {
    assert forall k :: 0 <= k <= n ==> es[..n][..k] == es[..k] && es[..n + 1][..k] == es[..k];
  }

  /** The calls let through between events i and j. */
  function Through(answers: seq<bool>, i: nat, j: nat): int
    requires i <= j <= |answers|
  {
    Allowed(answers[..j]) - Allowed(answers[..i])
  }

  lemma ThroughBound(n: nat, wait: nat, es: seq<Event>, answers: seq<bool>, i: nat, j: nat, span: nat)
    requires wait > 0 && Answers(n, es, answers) && Paced(es, wait)
    requires i < j <= |es| && es[j - 1].at - es[i].at == span
    ensures Through(answers, i, j) <= n + span / wait + 1
  {
    AllowedGranted(n, es, answers, i);
    AllowedGranted(n, es, answers, j);
    WindowBound(n, wait, es, i, j, span);
  }

  /** Between events i and j at most n + span / wait + 1 asks are let through. */
  ghost predicate WindowOk(n: nat, wait: nat, es: seq<Event>, answers: seq<bool>, i: nat, j: nat)
    requires wait > 0 && |answers| == |es| && i < j <= |es|
  {
    Through(answers, i, j) <= n + (es[j - 1].at - es[i].at) / wait + 1
  }

  ghost predicate Bounded(n: nat, wait: nat, es: seq<Event>, answers: seq<bool>)
    requires wait > 0 && |answers| == |es|
  {
    forall i: nat, j: nat :: i < j <= |es| ==> WindowOk(n, wait, es, answers, i, j)
  }

  lemma AnswersBound(n: nat, wait: nat, es: seq<Event>, answers: seq<bool>)
    requires wait > 0 && Answers(n, es, answers) && Paced(es, wait)
    ensures Bounded(n, wait, es, answers)
  {
    forall i: nat, j: nat | i < j <= |es| ensures WindowOk(n, wait, es, answers, i, j) {
      assert es[i].at <= es[j - 1].at;
      ThroughBound(n, wait, es, answers, i, j, es[j - 1].at - es[i].at);
    }
  }

  method Drive(lim: Limiter, es: seq<Event>) returns (answers: seq<bool>)
    requires DoneStays(es) && lim.Valid() && !lim.ctxDone && lim.View() == Full(lim.max)
    modifies lim
    ensures Answers(lim.max, es, answers)
  {
    answers := [];
    for k := 0 to |es|
      invariant lim.Valid() && (lim.ctxDone ==> k > 0 && es[k - 1].done)
      invariant lim.View() == Run(Full(lim.max), es[..k]) && Answers(lim.max, es[..k], answers)
    {
      AnswersNext(lim.max, es, answers, k);
      var ok := DoOne(lim, es[k]);
      answers := answers + [ok];
    }
    assert es[..|es|] == es;
  }

  /** The configured rate: a limiter built for n calls per interval, used in any way with ticks no closer
      than its wait, lets at most n + span / (interval / n) + 1 calls through in any span of time. */
  method UseLimiter(n: int, interval: nat, es: seq<Event>) returns (answers: seq<bool>)
    requires DoneStays(es)
    ensures Answers(if n > 0 then n else 10, es, answers)
    ensures n > 0 && interval / n > 0 && Paced(es, interval / n) ==> Bounded(n, interval / n, es, answers)
  {
    var lim := new Limiter(n, interval);
    answers := Drive(lim, es);
    if n > 0 && interval / n > 0 && Paced(es, interval / n) {
      AnswersBound(n, interval / n, es, answers);
    }
  }

  // ---------- the bound is attained ----------

  function Burst(n: nat): seq<Event> {
    if n == 0 then [] else Burst(n - 1) + [Ask(0, false, false)]
  }

  /** The time of tick k. */
  function TickTime(wait: nat, k: nat): nat {
    if k == 0 then 0 else TickTime(wait, k - 1) + wait
  }

  lemma {:induction false} TickTimeIsProduct(wait: nat, k: nat)
    ensures TickTime(wait, k) == k * wait
  {
    if k > 0 {
      TickTimeIsProduct(wait, k - 1);
      MulStep(k - 1, wait);
    }
  }

  /** A drained bucket served at every tick from 0 to k * wait. */
  function Served(max: nat, wait: nat, k: nat): seq<Event> {
    (if k == 0 then Burst(max) else Served(max, wait, k - 1)) + TickAndAsk(TickTime(wait, k))
  }

  lemma {:induction false} BurstDrains(max: nat, n: nat)
    requires n <= max
    ensures Run(Full(max), Burst(n)) == Bucket(max - n, max, n, 0, true)
  {
    if n > 0 {
      BurstDrains(max, n - 1);
      assert Burst(n)[..|Burst(n)| - 1] == Burst(n - 1);
    }
  }

  /** Two events appended to a run. */
  lemma RunTwo(b: Bucket, es: seq<Event>, x: Event, y: Event)
    ensures Run(b, es + [x, y]) == Step(Step(Run(b, es), x), y)
  {
    assert (es + [x, y])[..|es| + 1] == es + [x];
    assert (es + [x])[..|es|] == es;
  }

  function TickAndAsk(t: int): seq<Event> {
    [Tick(t, false, false), Ask(t, false, false)]
  }

  lemma AppendPaced(es: seq<Event>, wait: nat, t: int)
    requires Paced(es, wait) && TicksEndBefore(es, wait, t) && Within(es, t) && t >= 0
    ensures Paced(es + TickAndAsk(t), wait) && Within(es + TickAndAsk(t), t)
  {
    var fs := es + TickAndAsk(t);
    assert forall i :: 0 <= i < |es| ==> fs[i] == es[i];
  }

  lemma WaitLater(es: seq<Event>, wait: nat, t: nat)
    requires Within(es, t)
    ensures TicksEndBefore(es, wait, t + wait) && Within(es, t + wait)
  {
  }

  /** A wait later the next tick may come. */
  lemma NextPaced(es: seq<Event>, wait: nat, t: nat)
    requires Paced(es, wait) && Within(es, t)
    ensures Paced(es + TickAndAsk(t + wait), wait) && Within(es + TickAndAsk(t + wait), t + wait)
  {
    WaitLater(es, wait, t);
    AppendPaced(es, wait, t + wait);
  }

  lemma {:induction false} ServedIsPaced(max: nat, wait: nat, k: nat)
    ensures Paced(Served(max, wait, k), wait) && Within(Served(max, wait, k), TickTime(wait, k))
  {
    if k == 0 {
      BurstIsPaced(max, wait);
    } else {
      ServedIsPaced(max, wait, k - 1);
      NextPaced(Served(max, wait, k - 1), wait, TickTime(wait, k - 1));
    }
  }

  lemma BurstIsPaced(max: nat, wait: nat)
    ensures Paced(Burst(max) + TickAndAsk(0), wait) && Within(Burst(max) + TickAndAsk(0), 0)
  {
    BurstIsEarly(max);
    AppendPaced(Burst(max), wait, 0);
  }

  ghost predicate Within(es: seq<Event>, t: int) {
    forall i :: 0 <= i < |es| ==> 0 <= es[i].at <= t
  }

  lemma {:induction false} BurstIsEarly(n: nat)
    ensures forall i :: 0 <= i < |Burst(n)| ==> Burst(n)[i] == Ask(0, false, false)
  {
    if n > 0 {
      BurstIsEarly(n - 1);
    }
  }

  /** A limiter documented as max calls per interval lets max + k + 1 calls through in k * wait, so
      the window bound cannot be lowered; with k = max that is 2 * max + 1 calls in one interval. */
  lemma BoundIsAttained(max: nat, wait: nat, k: nat)
    requires max > 0
    ensures Paced(Served(max, wait, k), wait) && Within(Served(max, wait, k), k * wait)
    ensures Run(Full(max), Served(max, wait, k)) == Bucket(0, max, max + k + 1, k + 1, true)
  {
    ServedIsPaced(max, wait, k);
    TickTimeIsProduct(wait, k);
    ServedDrains(max, wait, k);
  }

  lemma {:induction false} ServedDrains(max: nat, wait: nat, k: nat)
    requires max > 0
    ensures Run(Full(max), Served(max, wait, k)) == Bucket(0, max, max + k + 1, k + 1, true)
  {
    if k == 0 {
      BurstDrains(max, max);
      ServeOne(Full(max), Burst(max), 0);
    } else {
      ServedDrains(max, wait, k - 1);
      ServeOne(Full(max), Served(max, wait, k - 1), TickTime(wait, k));
    }
  }

  lemma ServeOne(b: Bucket, es: seq<Event>, t: int)
    requires Run(b, es).credits == 0 < Run(b, es).max && Run(b, es).refilling
    ensures var c := Run(b, es); Run(b, es + TickAndAsk(t)) == c.(grants := c.grants + 1, refills := c.refills + 1)
  {
    RunTwo(b, es, Tick(t, false, false), Ask(t, false, false));
  }
}
