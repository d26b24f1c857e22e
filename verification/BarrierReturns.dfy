/**
Callers of _rcu_barrier come back: from every reachable state of RcuBarrier every
caller can return, whoever holds the mutex and whatever is outstanding, and one returns
without a barrier of its own exactly if somebody else's covers it.
*/
module BarrierReturns {
  import opened Common
  import opened RcuBarrier

  // ----- returning early -----

  /** Barrier `b` runs while n_barrier_done goes from 2b to 2b + 2: it began at or after the snapshot, and is over. */
  predicate CoveredBy(b: nat, snap: nat, count: nat) { snap <= 2 * b && 2 * b + 2 <= count }

  /** A caller that has got the mutex returns at once exactly if a whole barrier has run since its snapshot, and else
      runs one of its own. */
  lemma {:induction false} EarlyExitIffCovered(run: seq<State>, p: nat)
    requires IsRun(run) && AtPc(run[|run| - 1], p, Checking)
    ensures var s := run[|run| - 1];
      && (Can(s, EarlyExit(p)) <==> exists b: nat :: CoveredBy(b, s.callers[p].snap, s.nBarrierDone))
      && (Can(s, Begin(p)) <==> !exists b: nat :: CoveredBy(b, s.callers[p].snap, s.nBarrierDone))
  {
    RunKeeps(run);
    var s := run[|run| - 1];
    assert CallerOk(s, p);
    assert s.nBarrierDone % 2 == 0;
    RoundedUp(s.callers[p].snap, s.nBarrierDone);
  }

  lemma {:induction false} RoundedUp(snap: nat, count: nat)
    requires count % 2 == 0
    ensures count >= RoundUp(snap) + 2 <==> exists b: nat :: CoveredBy(b, snap, count)
  {
    if count >= RoundUp(snap) + 2 { assert CoveredBy((snap + 1) / 2, snap, count); }
  }

  // ----- paths -----

  /** The states of `path` lead from `s` to `s'`, step by step. */
  ghost predicate Leads(s: State, path: seq<State>, s': State) {
    && path != [] && path[0] == s && path[|path| - 1] == s'
    && forall i :: 0 <= i < |path| - 1 ==> Next(path[i], path[i + 1])
  }

  lemma {:induction false} Join(s: State, p: seq<State>, m: State, q: seq<State>, s': State) returns (path: seq<State>)
    requires Leads(s, p, m) && Leads(m, q, s')
    ensures Leads(s, path, s')
  {
    hide Next;
    path := p + q[1..];
    forall i | 0 <= i < |path| - 1 ensures Next(path[i], path[i + 1]) {
      if i >= |p| - 1 { assert path[i] == q[i - (|p| - 1)] && path[i + 1] == q[i + 1 - (|p| - 1)]; }
    }
  }

  lemma {:induction false} Stay(s: State) returns (path: seq<State>)
    ensures Leads(s, path, s)
  {
    path := [s];
  }

  /** One step ahead of a path. */
  lemma {:induction false} StepFirst(s: State, a: Step, q: seq<State>, s': State) returns (path: seq<State>)
    requires Can(s, a) && Leads(After(s, a), q, s')
    ensures Leads(s, path, s')
  {
    assert Next(s, After(s, a));
    hide Next;
    path := [s] + q;
  }

  lemma {:induction false} Prolong(run: seq<State>, path: seq<State>, s': State) returns (run': seq<State>)
    requires IsRun(run) && Leads(run[|run| - 1], path, s')
    ensures IsRun(run') && run <= run' && run'[|run'| - 1] == s'
    decreases |path|
  {
    hide Next;
    if |path| == 1 {
      run' := run;
    } else {
      var n := |path| - 1;
      var r := Prolong(run, path[..n], path[n - 1]);
      assert Next(path[n - 1], path[n]);
      run' := r + [s'];
      assert run'[..|run'| - 1] == r;
    }
  }

  lemma {:induction false} StepKeeps(s: State, a: Step)
    requires Inv(s) && Can(s, a)
    ensures Inv(After(s, a))
  {
    hide Inv;
    assert Next(s, After(s, a));
    NextKeeps(s, After(s, a));
  }

  // ----- the CPUs can invoke everything -----

  /** Only CPU `c` has worked. */
  predicate Worked(s: State, s': State, c: nat) {
    && s'.callers == s.callers && s'.mutex == s.mutex && s'.nBarrierDone == s.nBarrierDone
    && c < |s.cpus| == |s'.cpus| && s'.cpus == s.cpus[c := s'.cpus[c]] && s'.cpus[c].online == s.cpus[c].online
  }

  predicate Works(a: Step, c: nat) { (a.Advance? || a.BatchBegin? || a.Invoke? || a.BatchEnd?) && a.cpu == c }

  lemma {:induction false} WorkStep(s: State, a: Step, c: nat)
    requires Inv(s) && Can(s, a) && Works(a, c)
    ensures Inv(After(s, a)) && Worked(s, After(s, a), c)
    ensures a.Invoke? ==> After(s, a).cpus[c].batch == s.cpus[c].batch[1..]
    ensures a.Invoke? ==> After(s, a).cpus[c].done == s.cpus[c].done && After(s, a).cpus[c].wait == s.cpus[c].wait
    ensures a.BatchEnd? ==> After(s, a).cpus[c].batch == [] && After(s, a).cpus[c].count == 0
    ensures a.Advance? && a.k == |s.cpus[c].wait| ==> After(s, a).cpus[c].wait == []
    ensures a.Advance? ==> After(s, a).cpus[c].batch == s.cpus[c].batch && After(s, a).cpus[c].count == s.cpus[c].count
    ensures a.BatchBegin? ==> After(s, a).cpus[c].done == [] && After(s, a).cpus[c].wait == s.cpus[c].wait
  {
    StepKeeps(s, a);
    hide Inv;
  }

  lemma {:induction false} InvokeBatch(s: State, c: nat) returns (path: seq<State>, s': State)
    requires Inv(s) && IsOnline(s, c)
    ensures Leads(s, path, s') && Inv(s') && Worked(s, s', c) && s'.cpus[c].batch == []
    ensures s'.cpus[c].done == s.cpus[c].done && s'.cpus[c].wait == s.cpus[c].wait
    decreases |s.cpus[c].batch|
  {
    hide Inv, Leads, After;
    if s.cpus[c].batch == [] {
      s' := s;
      path := Stay(s);
    } else {
      WorkStep(s, Invoke(c), c);
      path, s' := InvokeBatch(After(s, Invoke(c)), c);
      path := StepFirst(s, Invoke(c), path, s');
    }
  }

  /** What is in the batch goes back, everything is done, and all of it is invoked. */
  lemma {:induction false} EmptyQueue(s: State, c: nat) returns (path: seq<State>, s': State)
    requires Inv(s) && c < |s.cpus|
    ensures Leads(s, path, s') && Inv(s') && Worked(s, s', c) && Queue(s'.cpus[c]) == []
  {
    assert CpuOk(s, c);
    if !s.cpus[c].online {
      s' := s;
      path := Stay(s);
    } else {
      hide Inv, Leads, After;
      WorkStep(s, BatchEnd(c), c);
      var s1 := After(s, BatchEnd(c));
      var adv := Advance(c, |s1.cpus[c].wait|);
      WorkStep(s1, adv, c);
      var s2 := After(s1, adv);
      WorkStep(s2, BatchBegin(c), c);
      var s3 := After(s2, BatchBegin(c));
      path, s' := InvokeBatch(s3, c);
      path := StepFirst(s2, BatchBegin(c), path, s');
      path := StepFirst(s1, adv, path, s');
      path := StepFirst(s, BatchEnd(c), path, s');
    }
  }

  predicate EmptyBelow(s: State, d: nat) { forall c :: 0 <= c < d && c < |s.cpus| ==> Queue(s.cpus[c]) == [] }

  lemma {:induction false} EmptyAll(s: State, d: nat) returns (path: seq<State>, s': State)
    requires Inv(s) && d <= |s.cpus|
    ensures Leads(s, path, s') && Inv(s') && EmptyBelow(s', d) && |s'.cpus| == |s.cpus|
    ensures s'.callers == s.callers && s'.mutex == s.mutex && s'.nBarrierDone == s.nBarrierDone
  {
    hide Inv, Leads, Queue;
    if d == 0 {
      s' := s;
      path := Stay(s);
    } else {
      var p, m := EmptyAll(s, d - 1);
      var q;
      q, s' := EmptyQueue(m, d - 1);
      path := Join(s, p, m, q, s');
    }
  }

  /** A CPU that is brought up can register callbacks. */
  lemma {:induction false} UpCanRegister(s: State, c: nat)
    requires Can(s, CpuUp(c))
    ensures Can(After(s, CpuUp(c)), Register(c))
  {
  }

  // ----- the holder of the mutex can finish -----

  /** How far the holder of the mutex still has to go. */
  function Left(pc: Pc, n: nat): nat {
    match pc
    case Completing => 0
    case Counting => 1
    case Dropping => 2
    case Looping(k) => if k <= n then 3 + 2 * (n - k) else 3
    case Calling(k) => if k <= n then 2 + 2 * (n - k) else 3
    case Begun => 2 * n + 4
    case Checking => 2 * n + 5
    case _ => 2 * n + 6
  }

  /** The holder's next step, unless it has to wait. */
  function NextStep(s: State, p: nat): Step
    requires p in s.callers
  {
    match s.callers[p].pc
    case Checking => if s.nBarrierDone >= RoundUp(s.callers[p].snap) + 2 then EarlyExit(p) else Begin(p)
    case Begun => GetOnline(p)
    case Looping(k) => if k < |s.cpus| then Look(p) else PutOnline(p)
    case Calling(_) => CallFunc(p)
    case Dropping => Drop(p)
    case Counting => CountDone(p)
    case _ => Finish(p)
  }

  /** Only caller `p` has moved. */
  predicate Moved(s: State, s': State, p: nat) {
    && p in s.callers && p in s'.callers && s'.callers == s.callers[p := s'.callers[p]]
    && |s'.cpus| == |s.cpus|
  }

  lemma {:induction false} HolderStep(s: State, p: nat)
    requires Inv(s) && s.mutex == Some(p) && p in s.callers && !s.callers[p].pc.Completing?
    ensures Can(s, NextStep(s, p))
    ensures var s' := After(s, NextStep(s, p));
      && Inv(s') && Moved(s, s', p)
      && (if s'.callers[p].pc.Returned? then s'.mutex == None else s'.mutex == s.mutex)
      && (s'.callers[p].pc.Returned? || Left(s'.callers[p].pc, |s'.cpus|) < Left(s.callers[p].pc, |s.cpus|))
  {
    assert CallerOk(s, p);
    assert Can(s, NextStep(s, p));
    StepKeeps(s, NextStep(s, p));
    hide Inv, CallerOk, AllPlain;
  }

  /** Once nothing is outstanding, the wait for the barrier callbacks is over. */
  lemma {:induction false} FinishStep(s: State, p: nat)
    requires Inv(s) && s.mutex == Some(p) && AtPc(s, p, Completing) && EmptyBelow(s, |s.cpus|)
    ensures Can(s, Finish(p))
    ensures var s' := After(s, Finish(p));
      Inv(s') && Moved(s, s', p) && s'.callers[p].pc.Returned? && s'.mutex == None
  {
    TotalEmpty(s.cpus);
    assert s.completion;
    StepKeeps(s, Finish(p));
    hide Inv;
  }

  lemma {:induction false} FinishHolder(s: State, p: nat) returns (path: seq<State>, s': State)
    requires Inv(s) && s.mutex == Some(p) && p in s.callers
    ensures Leads(s, path, s') && Inv(s') && Moved(s, s', p) && s'.callers[p].pc.Returned? && s'.mutex == None
    decreases Left(s.callers[p].pc, |s.cpus|)
  {
    hide Inv, Leads, After, Can, EmptyBelow, Left;
    if s.callers[p].pc.Completing? {
      var q, m := EmptyAll(s, |s.cpus|);
      FinishStep(m, p);
      s' := After(m, Finish(p));
      path := Stay(s');
      path := StepFirst(m, Finish(p), path, s');
      path := Join(s, q, m, path, s');
    } else {
      HolderStep(s, p);
      var a := NextStep(s, p);
      var m := After(s, a);
      if m.callers[p].pc.Returned? {
        s' := m;
        path := Stay(m);
      } else {
        path, s' := FinishHolder(m, p);
      }
      path := StepFirst(s, a, path, s');
    }
  }

  // ----- and so can everybody -----

  lemma {:induction false} LockStep(s: State, p: nat)
    requires Inv(s) && s.mutex == None && AtPc(s, p, Snapped)
    ensures Can(s, Lock(p))
    ensures var s' := After(s, Lock(p)); Inv(s') && s'.mutex == Some(p) && p in s'.callers
  {
    StepKeeps(s, Lock(p));
    hide Inv;
  }

  lemma {:induction false} ReturnFrom(s: State, p: nat) returns (path: seq<State>, s': State)
    requires Inv(s) && p in s.callers
    ensures Leads(s, path, s') && AtPc(s', p, Returned)
    decreases s.mutex.Some?
  {
    assert CallerOk(s, p) && (s.mutex.Some? ==> s.mutex.value in s.callers);
    hide Inv, Leads, After, Can;
    if s.callers[p].pc.Returned? {
      s' := s;
      path := Stay(s);
    } else if s.mutex.Some? {
      var q, m := FinishHolder(s, s.mutex.value);
      path, s' := ReturnFrom(m, p);
      path := Join(s, q, m, path, s');
    } else {
      LockStep(s, p);
      path, s' := FinishHolder(After(s, Lock(p)), p);
      path := StepFirst(s, Lock(p), path, s');
    }
  }

  /** From every reachable state, every caller of _rcu_barrier can return: some continuation of the run gets there. */
  lemma {:induction false} EveryCallerCanReturn(run: seq<State>, p: nat) returns (run': seq<State>)
    requires IsRun(run) && p in run[|run| - 1].callers
    ensures IsRun(run') && run <= run' && AtPc(run'[|run'| - 1], p, Returned)
  {
    RunKeeps(run);
    hide Inv, Leads, IsRun;
    var path, s' := ReturnFrom(run[|run| - 1], p);
    run' := Prolong(run, path, s');
  }
}
