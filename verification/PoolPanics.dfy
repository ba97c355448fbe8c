/** When a call dereferences a missing transaction: the receive does not tell a closed channel from a
    value (service.go:97). */
module PoolPanics {
  import opened Pool
  import opened PoolSafety

  ghost predicate NilDereferenced(s: State, r: nat) {
    r < |s.reqs| && (s.reqs[r].phase == Leaving(NilDereference) || s.reqs[r].phase == Returned(NilDereference))
  }

  // ---------- every call that misses a hash can get there ----------

  /** The first n tasks of the cancelled call r were handed over and their channels closed empty. */
  ghost predicate Aborted(s: State, r: nat, n: nat) {
    && !s.appDone && s.disp.Idle? && r < |s.reqs| && n <= |s.reqs[r].tasks|
    && s.reqs[r].mux && s.reqs[r].phase == Scheduling(n)
    && (forall i :: 0 <= i < n ==> s.reqs[r].tasks[i].ch.closers != [])
    && (forall i :: n <= i < |s.reqs[r].tasks| ==> s.reqs[r].tasks[i].stage.NotSent?)
  }

  /** The dispatcher takes the next task, sees its context done, drops its message and closes its channel. */
  lemma AbortNext(cfg: Config, s0: State, s: State, r: nat, n: nat) returns (t: State)
    requires Reaches(cfg, s0, s) && Aborted(s, r, n) && n < |s.reqs[r].tasks|
    ensures Reaches(cfg, s0, t) && Aborted(t, r, n + 1) && |t.reqs[r].tasks| == |s.reqs[r].tasks|
  {
    ReachesNext(cfg, s0, s, Offer(r));
    t := Next(cfg, s, Offer(r));
    t := AbortHeld(cfg, s0, t, r, n);
    ReachesNext(cfg, s0, t, Loop);
    t := Next(cfg, t, Loop);
  }

  lemma AbortHeld(cfg: Config, s0: State, s: State, r: nat, n: nat) returns (t: State)
    requires Reaches(cfg, s0, s) && HasTask(s, r, n) && s.disp == Busy(r, n)
    requires TaskAt(s, r, n).stage.Held? && s.reqs[r].mux
    ensures Reaches(cfg, s0, t) && t.disp.Looping? && t.appDone == s.appDone
    ensures |t.reqs| == |s.reqs| && n < |t.reqs[r].tasks| && t.reqs[r].tasks[n].ch.closers != []
    ensures t.reqs == s.reqs[r := s.reqs[r].(tasks := s.reqs[r].tasks[n := t.reqs[r].tasks[n]])]
  {
    ReachesNext(cfg, s0, s, Dispatch(Abort));
    var u := Next(cfg, s, Dispatch(Abort));
    ReachesNext(cfg, s0, u, Dispatch(DropSend));
    var v := Next(cfg, u, Dispatch(DropSend));
    ReachesNext(cfg, s0, v, Dispatch(CloseHeld));
    t := Next(cfg, v, Dispatch(CloseHeld));
    assert t.reqs[r].tasks == s.reqs[r].tasks[n := t.reqs[r].tasks[n]];
  }

  lemma {:induction false} AbortAll(cfg: Config, s0: State, s: State, r: nat, n: nat) returns (t: State)
    requires Reaches(cfg, s0, s) && Aborted(s, r, 0) && n <= |s.reqs[r].tasks|
    ensures Reaches(cfg, s0, t) && Aborted(t, r, n) && |t.reqs[r].tasks| == |s.reqs[r].tasks|
  {
    if n == 0 {
      t := s;
    } else {
      var u := AbortAll(cfg, s0, s, r, n - 1);
      t := AbortNext(cfg, s0, u, r, n - 1);
    }
  }

  /** Cancel the call, hand over all its tasks, and receive from the first closed channel. */
  lemma CancelledCallDereferences(cfg: Config, maxCredits: nat, missing: seq<seq<string>>, r: nat) returns (t: State)
    requires r < |missing| && missing[r] != []
    ensures Reaches(cfg, Init(maxCredits, missing), t) && NilDereferenced(t, r)
  {
    var s0 := Init(maxCredits, missing);
    ReachesSelf(cfg, s0);
    ReachesNext(cfg, s0, s0, CancelRequest(r));
    t := Next(cfg, s0, CancelRequest(r));
    ReachesNext(cfg, s0, t, Merge(r));
    t := Next(cfg, t, Merge(r));
    t := AbortAll(cfg, s0, t, r, |missing[r]|);
    ReachesNext(cfg, s0, t, Serve(r, AllScheduled));
    t := Next(cfg, t, Serve(r, AllScheduled));
    ReachesNext(cfg, s0, t, Serve(r, ReceiveClosed));
    t := Next(cfg, t, Serve(r, ReceiveClosed));
  }

  // ---------- no other call does ----------

  lemma EmptyCallStep(cfg: Config, s: State, l: Label, r: nat)
    requires Enabled(cfg, s, l) && r < |s.reqs| && s.reqs[r].tasks == [] && !NilDereferenced(s, r)
    ensures var t := Next(cfg, s, l); r < |t.reqs| && t.reqs[r].tasks == [] && !NilDereferenced(t, r)
  {
  }

  lemma {:induction false} EmptyCallRun(cfg: Config, s: State, run: seq<Label>, r: nat)
    requires Executes(cfg, s, run) && r < |s.reqs| && s.reqs[r].tasks == [] && !NilDereferenced(s, r)
    ensures !NilDereferenced(After(cfg, s, run), r)
    decreases |run|
  {
    if run != [] {
      EmptyCallStep(cfg, s, run[0], r);
      EmptyCallRun(cfg, Next(cfg, s, run[0]), run[1..], r);
    }
  }

  /** Beside any other calls, a call can dereference a missing transaction exactly when it misses a hash. */
  lemma NilDereferenceIff(cfg: Config, maxCredits: nat, missing: seq<seq<string>>, r: nat)
    requires r < |missing|
    ensures (exists s :: Reaches(cfg, Init(maxCredits, missing), s) && NilDereferenced(s, r)) <==> missing[r] != []
  {
    if missing[r] != [] {
      var t := CancelledCallDereferences(cfg, maxCredits, missing, r);
    } else {
      forall s | Reaches(cfg, Init(maxCredits, missing), s) ensures !NilDereferenced(s, r) {
        var run :| Executes(cfg, Init(maxCredits, missing), run) && After(cfg, Init(maxCredits, missing), run) == s;
        EmptyCallRun(cfg, Init(maxCredits, missing), run, r);
      }
    }
  }

  // ---------- and only after a cancellation ----------

  lemma {:induction false} FlagsStay(cfg: Config, s: State, run: seq<Label>, r: nat)
    requires Executes(cfg, s, run) && CancelApp !in run && CancelRequest(r) !in run
    requires r < |s.reqs| && !s.appDone && !s.reqs[r].reqDone
    ensures var t := After(cfg, s, run); r < |t.reqs| && !t.appDone && !t.reqs[r].reqDone
    decreases |run|
  {
    if run != [] {
      FlagsStay(cfg, Next(cfg, s, run[0]), run[1..], r);
    }
  }

  /** No run without a cancellation of the application or of the call itself gets there. */
  lemma NilDereferenceNeedsCancel(cfg: Config, maxCredits: nat, missing: seq<seq<string>>, run: seq<Label>, s: State,
                                  r: nat)
    requires Reached(cfg, maxCredits, missing, run, s) && r < |missing|
    requires CancelApp !in run && CancelRequest(r) !in run
    ensures !NilDereferenced(s, r)
  {
    FlagsStay(cfg, Init(maxCredits, missing), run, r);
    ReachedInv(cfg, maxCredits, missing, run, s);
    assert RequestOk(cfg.node, s.appDone, s.reqs[r]);
  }
}
