/** Concurrent Insert, Update and Upsert calls that share the plan caches. */
module PlanRuns {
  import opened Prelude
  import opened PlanCache

  /** Where a call stands: before its lookup, after a miss, with a plan, or with an unsaved plan that ran. */
  datatype Phase<P> = Start | Missed | Ready(plan: P, cached: bool) | Unsaved(plan: P) | Ended(used: Option<P>)

  datatype PlanCall<P> = PlanCall(req: Request, phase: Phase<P>)

  datatype State<P> = State(cache: map<(Table, string), P>, calls: seq<PlanCall<P>>)

  /** The sections between lock operations: look a plan up, compute it, run the query, keep the plan. */
  datatype Step = Lookup(i: nat) | Compute(i: nat) | Query(i: nat, ok: bool) | Keep(i: nat)

  predicate Enabled<P>(s: State<P>, l: Step) {
    && l.i < |s.calls|
    && var phase := s.calls[l.i].phase;
       match l
       case Lookup(_) => phase.Start?
       case Compute(_) => phase.Missed?
       case Query(_, _) => phase.Ready?
       case Keep(_) => phase.Unsaved?
  }

  function To<P>(s: State<P>, i: nat, phase: Phase<P>): State<P>
    requires i < |s.calls|
  {
    s.(calls := s.calls[i := s.calls[i].(phase := phase)])
  }

  function Next<P>(plan: Request -> Option<P>, s: State<P>, l: Step): State<P>
    requires Enabled(s, l)
  {
    var c := s.calls[l.i];
    match l
    case Lookup(i) => To(s, i, if Slot(c.req) in s.cache then Ready(s.cache[Slot(c.req)], true) else Missed)
    case Compute(i) =>
      (match plan(c.req)
       case None => To(s, i, Ended(None))
       case Some(p) => To(s, i, Ready(p, false)))
    case Query(i, ok) => To(s, i, if ok && !c.phase.cached then Unsaved(c.phase.plan) else Ended(Some(c.phase.plan)))
    case Keep(i) => To(s.(cache := s.cache[Slot(c.req) := c.phase.plan]), i, Ended(Some(c.phase.plan)))
  }

  /** The state after a run, if every step is possible. */
  function Run<P>(plan: Request -> Option<P>, s: State<P>, steps: seq<Step>): Option<State<P>> {
    if steps == [] then Some(s)
    else
      var n := |steps| - 1;
      var before := Run(plan, s, steps[..n]);
      if before.Some? && Enabled(before.value, steps[n]) then Some(Next(plan, before.value, steps[n])) else None
  }

  function Begin<P>(reqs: seq<Request>): State<P> {
    State(map[], seq(|reqs|, k requires 0 <= k < |reqs| => PlanCall(reqs[k], Start)))
  }

  /** The plan a call holds or has used. */
  function PlanOf<P>(c: PlanCall<P>): Option<P> {
    match c.phase
    case Ready(p, _) => Some(p)
    case Unsaved(p) => Some(p)
    case Ended(used) => used
    case _ => None
  }

  /** Every plan in use is the one its own request asks for. */
  ghost predicate RightPlans<P(!new)>(plan: Request -> Option<P>, s: State<P>) {
    forall i :: 0 <= i < |s.calls| && PlanOf(s.calls[i]).Some? ==> PlanOf(s.calls[i]) == plan(s.calls[i].req)
  }

  // ---------- where plans come from ----------

  ghost predicate Origin<P(!new)>(plan: Request -> Option<P>, reqs: seq<Request>, slot: (Table, string), p: P) {
    exists j :: 0 <= j < |reqs| && Slot(reqs[j]) == slot && plan(reqs[j]) == Some(p)
  }

  ghost predicate Inv<P(!new)>(plan: Request -> Option<P>, reqs: seq<Request>, s: State<P>) {
    && |s.calls| == |reqs| && (forall i :: 0 <= i < |reqs| ==> s.calls[i].req == reqs[i])
    && (forall k :: k in s.cache ==> Origin(plan, reqs, k, s.cache[k]))
    && (forall i :: 0 <= i < |reqs| && PlanOf(s.calls[i]).Some? ==>
          Origin(plan, reqs, Slot(reqs[i]), PlanOf(s.calls[i]).value))
  }

  /** A step leaves the calls and adds to the cache, and to the plans in use, only plans of their slots. */
  lemma PlansOfSlots<P(!new)>(plan: Request -> Option<P>, reqs: seq<Request>, s: State<P>, l: Step)
    requires Inv(plan, reqs, s) && Enabled(s, l)
    ensures var t := Next(plan, s, l);
            && |t.calls| == |reqs| && t.calls[l.i].req == reqs[l.i]
            && (PlanOf(t.calls[l.i]).Some? ==> Origin(plan, reqs, Slot(reqs[l.i]), PlanOf(t.calls[l.i]).value))
            && (l.Keep? ==> Slot(reqs[l.i]) in t.cache && Origin(plan, reqs, Slot(reqs[l.i]), t.cache[Slot(reqs[l.i])]))
  {
    var i := l.i;
    assert s.calls[i].req == reqs[i];
    if l.Compute? && plan(reqs[i]).Some? {
      assert Origin(plan, reqs, Slot(reqs[i]), plan(reqs[i]).value);
    } else if !l.Compute? && PlanOf(s.calls[i]).Some? {
      assert Origin(plan, reqs, Slot(reqs[i]), PlanOf(s.calls[i]).value);
    }
  }

  lemma OthersStay<P>(plan: Request -> Option<P>, s: State<P>, l: Step)
    requires Enabled(s, l)
    ensures var t := Next(plan, s, l);
            && |t.calls| == |s.calls| && t.calls == s.calls[l.i := t.calls[l.i]]
            && t.cache == if l.Keep? then s.cache[Slot(s.calls[l.i].req) := s.calls[l.i].phase.plan] else s.cache
  {
  }

  lemma StepKeepsInv<P(!new)>(plan: Request -> Option<P>, reqs: seq<Request>, s: State<P>, l: Step)
    requires Inv(plan, reqs, s) && Enabled(s, l)
    ensures Inv(plan, reqs, Next(plan, s, l))
  {
    PlansOfSlots(plan, reqs, s, l);
    OthersStay(plan, s, l);
  }

  lemma {:induction false} RunKeepsInv<P(!new)>(plan: Request -> Option<P>, reqs: seq<Request>, steps: seq<Step>)
    requires Run(plan, Begin(reqs), steps).Some?
    ensures Inv(plan, reqs, Run(plan, Begin(reqs), steps).value)
  {
    if steps != [] {
      var n := |steps| - 1;
      RunKeepsInv(plan, reqs, steps[..n]);
      StepKeepsInv(plan, reqs, Run(plan, Begin(reqs), steps[..n]).value, steps[n]);
    }
  }

  // ---------- when the caches are right ----------

  /** A request that can be planned shares its slot only with requests of the same plan. */
  ghost predicate SlotsAgree<P(!new)>(plan: Request -> Option<P>, reqs: seq<Request>) {
    forall i, j :: 0 <= i < |reqs| && 0 <= j < |reqs| && Slot(reqs[i]) == Slot(reqs[j]) && plan(reqs[i]).Some? ==>
      plan(reqs[j]) == plan(reqs[i])
  }

  ghost predicate AllRunsRight<P(!new)>(plan: Request -> Option<P>, reqs: seq<Request>) {
    forall steps :: Run(plan, Begin(reqs), steps).Some? ==> RightPlans(plan, Run(plan, Begin(reqs), steps).value)
  }

  lemma RunIsRight<P(!new)>(plan: Request -> Option<P>, reqs: seq<Request>, steps: seq<Step>)
    requires SlotsAgree(plan, reqs) && Run(plan, Begin(reqs), steps).Some?
    ensures RightPlans(plan, Run(plan, Begin(reqs), steps).value)
  {
    RunKeepsInv(plan, reqs, steps);
    var s := Run(plan, Begin(reqs), steps).value;
    forall i | 0 <= i < |s.calls| && PlanOf(s.calls[i]).Some? ensures PlanOf(s.calls[i]) == plan(s.calls[i].req) {
      assert Origin(plan, reqs, Slot(reqs[i]), PlanOf(s.calls[i]).value);
    }
  }

  lemma RunOne<P>(plan: Request -> Option<P>, s: State<P>, steps: seq<Step>, l: Step)
    requires Run(plan, s, steps).Some? && Enabled(Run(plan, s, steps).value, l)
    ensures Run(plan, s, steps + [l]) == Some(Next(plan, Run(plan, s, steps).value, l))
  {
    assert (steps + [l])[..|steps|] == steps;
  }

  /** Call i fills the slot, then call j uses what it finds there. */
  lemma SecondUsesFirst<P(!new)>(plan: Request -> Option<P>, reqs: seq<Request>, i: nat, j: nat)
    returns (steps: seq<Step>)
    requires i < |reqs| && j < |reqs| && i != j && Slot(reqs[i]) == Slot(reqs[j]) && plan(reqs[i]).Some?
    ensures Run(plan, Begin(reqs), steps).Some?
    ensures var s := Run(plan, Begin(reqs), steps).value;
            |s.calls| == |reqs| && s.calls[j] == PlanCall(reqs[j], Ready(plan(reqs[i]).value, true))
  {
    var s: State<P> := Begin(reqs);
    steps := [];
    assert Run(plan, s, []) == Some(s);
    RunOne(plan, s, [], Lookup(i));
    RunOne(plan, s, [] + [Lookup(i)], Compute(i));
    RunOne(plan, s, [] + [Lookup(i)] + [Compute(i)], Query(i, true));
    RunOne(plan, s, [] + [Lookup(i)] + [Compute(i)] + [Query(i, true)], Keep(i));
    RunOne(plan, s, [] + [Lookup(i)] + [Compute(i)] + [Query(i, true)] + [Keep(i)], Lookup(j));
    steps := [] + [Lookup(i)] + [Compute(i)] + [Query(i, true)] + [Keep(i)] + [Lookup(j)];
  }

  /** In every interleaving every call works with its own freshly computed plan exactly when no two
      requests with different plans share a slot. */
  lemma RightIffSlotsAgree<P(!new)>(plan: Request -> Option<P>, reqs: seq<Request>)
    ensures AllRunsRight(plan, reqs) <==> SlotsAgree(plan, reqs)
  {
    if SlotsAgree(plan, reqs) {
      forall steps | Run(plan, Begin(reqs), steps).Some?
        ensures RightPlans(plan, Run(plan, Begin(reqs), steps).value)
      {
        RunIsRight(plan, reqs, steps);
      }
    }
    if AllRunsRight(plan, reqs) {
      forall i, j | 0 <= i < |reqs| && 0 <= j < |reqs| && Slot(reqs[i]) == Slot(reqs[j]) && plan(reqs[i]).Some?
        ensures plan(reqs[j]) == plan(reqs[i])
      {
        if i != j {
          var steps := SecondUsesFirst(plan, reqs, i, j);
          var s := Run(plan, Begin(reqs), steps).value;
          assert PlanOf(s.calls[j]) == plan(reqs[i]);
        }
      }
    }
  }

  /** Over column names that keep slots apart, calls without upsert options always use their own plan. */
  lemma UsualRunsAreRight<P(!new)>(columns: set<string>, plan: Request -> Option<P>, reqs: seq<Request>)
    requires SlotsDistinguish(columns) && forall i :: 0 <= i < |reqs| ==> Usual(columns, reqs[i])
    ensures AllRunsRight(plan, reqs)
  {
    assert SlotsAgree(plan, reqs);
    RightIffSlotsAgree(plan, reqs);
  }

  /** Upsert options are no part of the key: two upserts that differ in them alone, and in their plans,
      do not both get their own plan in every run. */
  lemma OptionsMislead<P(!new)>(plan: Request -> Option<P>, r: Request, opts: UpsertOptions)
    requires r.Upsert? && plan(r).Some? && plan(r.(opts := opts)) != plan(r)
    ensures !AllRunsRight(plan, [r, r.(opts := opts)])
  {
    var reqs := [r, r.(opts := opts)];
    assert Slot(reqs[0]) == Slot(reqs[1]);
    RightIffSlotsAgree(plan, reqs);
  }

  // ---------- what is kept ----------

  /** A call with this slot has run its query with success. */
  ghost predicate Succeeded(reqs: seq<Request>, steps: seq<Step>, slot: (Table, string)) {
    exists j: nat :: j < |reqs| && Slot(reqs[j]) == slot && Query(j, true) in steps
  }

  /** How call i stands to the steps so far. */
  ghost predicate Keeps<P>(s: State<P>, reqs: seq<Request>, steps: seq<Step>, i: nat)
    requires i < |s.calls| && i < |reqs|
  {
    && (s.calls[i].phase.Unsaved? ==> Query(i, true) in steps)
    && (s.calls[i].phase.Ready? && s.calls[i].phase.cached ==> Slot(reqs[i]) in s.cache)
    && (Query(i, true) in steps ==>
          s.calls[i].phase.Unsaved? || (s.calls[i].phase.Ended? && Slot(reqs[i]) in s.cache))
  }

  ghost predicate Kept<P(!new)>(s: State<P>, reqs: seq<Request>, steps: seq<Step>) {
    && |s.calls| == |reqs| && (forall i :: 0 <= i < |reqs| ==> s.calls[i].req == reqs[i])
    && (forall i: nat :: i < |reqs| ==> Keeps(s, reqs, steps, i))
    && (forall slot :: slot in s.cache ==> Succeeded(reqs, steps, slot))
  }

  lemma StepKeepsKept<P(!new)>(plan: Request -> Option<P>, s: State<P>, reqs: seq<Request>, steps: seq<Step>, l: Step)
    requires Kept(s, reqs, steps) && Enabled(s, l)
    ensures Kept(Next(plan, s, l), reqs, steps + [l])
  {
    var s' := Next(plan, s, l);
    assert forall x :: x in steps + [l] <==> x in steps || x == l;
    assert Keeps(s, reqs, steps, l.i);
    forall i: nat | i < |reqs| ensures Keeps(s', reqs, steps + [l], i) {
      assert Keeps(s, reqs, steps, i);
    }
    forall slot | slot in s'.cache ensures Succeeded(reqs, steps + [l], slot) {
      if slot in s.cache {
        var j: nat :| j < |reqs| && Slot(reqs[j]) == slot && Query(j, true) in steps;
        assert Query(j, true) in steps + [l];
      } else {
        assert Query(l.i, true) in steps + [l];
      }
    }
  }

  lemma {:induction false} RunKeepsKept<P(!new)>(plan: Request -> Option<P>, reqs: seq<Request>, steps: seq<Step>)
    requires Run(plan, Begin(reqs), steps).Some?
    ensures Kept(Run(plan, Begin(reqs), steps).value, reqs, steps)
  {
    if steps != [] {
      var n := |steps| - 1;
      RunKeepsKept(plan, reqs, steps[..n]);
      StepKeepsKept(plan, Run(plan, Begin(reqs), steps[..n]).value, reqs, steps[..n], steps[n]);
      assert steps == steps[..n] + [steps[n]];
    }
  }

  /** When all calls have ended, a slot is in the cache exactly when a query of one of its calls succeeded. */
  lemma KeptIffSucceeded<P(!new)>(plan: Request -> Option<P>, reqs: seq<Request>, steps: seq<Step>,
                                  slot: (Table, string))
    requires Run(plan, Begin(reqs), steps).Some?
    requires forall c :: c in Run(plan, Begin(reqs), steps).value.calls ==> c.phase.Ended?
    ensures slot in Run(plan, Begin(reqs), steps).value.cache <==> Succeeded(reqs, steps, slot)
  {
    RunKeepsKept(plan, reqs, steps);
    var s := Run(plan, Begin(reqs), steps).value;
    if Succeeded(reqs, steps, slot) {
      var j: nat :| j < |reqs| && Slot(reqs[j]) == slot && Query(j, true) in steps;
      assert Keeps(s, reqs, steps, j) && s.calls[j] in s.calls;
    }
  }

  // ---------- the caches as the models keep them ----------

  class Caches<P(==)> {
    var plans: map<(Table, string), P>

    constructor ()
      ensures plans == map[]
    {
      plans := map[];
    }

    /** Every kept plan is the plan of all usual requests of its slot. */
    ghost predicate Right(columns: set<string>, plan: Request -> Option<P>)
      reads this
    {
      forall r :: Usual(columns, r) && Slot(r) in plans ==> plan(r) == Some(plans[Slot(r)])
    }

    /** One call from lookup to store: it works with the fresh plan, and keeps it iff it had to be
        computed and the query succeeded. */
    method Use(ghost columns: set<string>, plan: Request -> Option<P>, req: Request, queryOk: bool)
      returns (used: Option<P>)
      requires SlotsDistinguish(columns) && Usual(columns, req) && Right(columns, plan)
      modifies this
      ensures Right(columns, plan) && used == plan(req)
      ensures plans == if queryOk && used.Some? then old(plans)[Slot(req) := used.value] else old(plans)
    {
      var slot := Slot(req);
      if slot in plans {
        return Some(plans[slot]);
      }
      used := plan(req);
      if used.Some? && queryOk {
        plans := plans[slot := used.value];
      }
    }
  }
}
