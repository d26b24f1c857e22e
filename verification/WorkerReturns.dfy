/**
The worker of KthreadWorker gets everything done: from every reachable state its own
steps can bring all queued executions to an end, and every flush can return.
*/
module WorkerReturns {
  import opened Common
  import opened KthreadWorker

  // ----- no marker is lost -----

  /** The marker of a flush that waits is on the list, being executed, or done. */
  ghost predicate MarkerIsThere(s: State, f: nat) {
    IsWaiting(s, f) ==> f in s.done || Runs(s, f) || Marker(f) in s.list
  }

  lemma {:induction false} WorkerKeepsMarker(s: State, s': State, f: nat)
    requires MarkerIsThere(s, f) && (Dequeue(s, s') || Finish(s, s')) && (s.executing ==> s.current.Some?)
    ensures MarkerIsThere(s', f)
  {
    if Dequeue(s, s') && s.list != [] { assert s.list == [s.list[0]] + s'.list; }
  }

  lemma {:induction false} InsertKeepsMarker(s: State, s': State, k: nat, e: Entry, f: nat)
    requires MarkerIsThere(s, f) && k <= |s.list| && s'.list == s.list[..k] + [e] + s.list[k..]
    requires s'.done == s.done && s'.executing == s.executing && s'.current == s.current
    requires IsWaiting(s', f) ==> IsWaiting(s, f) || e == Marker(f)
    ensures MarkerIsThere(s', f)
  {
    assert s.list == s.list[..k] + s.list[k..];
  }

  lemma {:induction false} CallerKeepsMarker(s: State, s': State, a: Step, f: nat)
    requires MarkerIsThere(s, f) && Next(s, s', a) && !a.QueueStep? && !a.DequeueStep? && !a.FinishStep?
    ensures MarkerIsThere(s', f)
  {
    match a
    case FlushWorkStep(g, w) =>
      if Pending(s, w) {
        var k :| 0 <= k < |s.list| && s.list[k].Work? && s.list[k].w == w
          && s' == Insert(s, k + 1, Marker(g))
                     .(callers := s.callers[g := Waiting(Some(w), s.callers[g].target, s.list[k].id)]);
        InsertKeepsMarker(s, s', k + 1, Marker(g), f);
      } else if s.current.Some? && s.current.value.Work? && s.current.value.w == w {
        InsertKeepsMarker(s, s', 0, Marker(g), f);
      }
    case FlushWorkerStep(g) => InsertKeepsMarker(s, s', |s.list|, Marker(g), f);
    case _ =>
  }

  lemma {:induction false} NextKeepsMarker(s: State, s': State, f: nat)
    requires Inv(s) && Steps(s, s') && MarkerIsThere(s, f)
    ensures MarkerIsThere(s', f)
  {
    assert s.executing ==> s.current.Some?;
    hide Inv, MarkerIsThere, FlushWork, FlushWorker;
    var a :| Next(s, s', a);
    if a.QueueStep? {
      if !Pending(s, a.w) { InsertKeepsMarker(s, s', |s.list|, Work(a.w, |s.works|), f); }
    } else if a.DequeueStep? || a.FinishStep? {
      WorkerKeepsMarker(s, s', f);
    } else {
      CallerKeepsMarker(s, s', a, f);
    }
  }

  lemma {:induction false} RunKeepsMarker(run: seq<State>, f: nat)
    requires IsRun(run)
    ensures MarkerIsThere(run[|run| - 1], f)
  {
    if |run| > 1 {
      hide Steps, Inv, MarkerIsThere;
      RunKeepsMarker(run[..|run| - 1], f);
      RunKeeps(run[..|run| - 1]);
      NextKeepsMarker(run[|run| - 2], run[|run| - 1], f);
    }
  }

  // ----- paths -----

  /** The states of `path` lead from `s` to `s'`, step by step. */
  ghost predicate Leads(s: State, path: seq<State>, s': State) {
    && path != [] && path[0] == s && path[|path| - 1] == s'
    && forall i :: 0 <= i < |path| - 1 ==> Steps(path[i], path[i + 1])
  }

  lemma {:induction false} Join(s: State, p: seq<State>, m: State, q: seq<State>, s': State) returns (path: seq<State>)
    requires Leads(s, p, m) && Leads(m, q, s')
    ensures Leads(s, path, s')
  {
    hide Steps;
    path := p + q[1..];
    forall i | 0 <= i < |path| - 1 ensures Steps(path[i], path[i + 1]) {
      if i >= |p| - 1 { assert path[i] == q[i - (|p| - 1)] && path[i + 1] == q[i + 1 - (|p| - 1)]; }
    }
  }

  lemma {:induction false} Stay(s: State) returns (path: seq<State>)
    ensures Leads(s, path, s)
  {
    path := [s];
  }

  lemma {:induction false} StepFirst(s: State, m: State, a: Step, q: seq<State>, s': State) returns (path: seq<State>)
    requires Next(s, m, a) && Leads(m, q, s')
    ensures Leads(s, path, s')
  {
    hide Next;
    assert Steps(s, m);
    path := [s] + q;
  }

  lemma {:induction false} Prolong(run: seq<State>, path: seq<State>, s': State) returns (run': seq<State>)
    requires IsRun(run) && Leads(run[|run| - 1], path, s')
    ensures IsRun(run') && run <= run' && run'[|run'| - 1] == s'
    decreases |path|
  {
    hide Steps;
    if |path| == 1 {
      run' := run;
    } else {
      var n := |path| - 1;
      var r := Prolong(run, path[..n], path[n - 1]);
      assert Steps(path[n - 1], path[n]);
      run' := r + [s'];
      assert run'[..|run'| - 1] == r;
    }
  }

  // ----- the worker can empty its list -----

  ghost predicate Good(s: State) { Inv(s) && forall f: nat :: MarkerIsThere(s, f) }

  lemma {:induction false} StepKeeps(s: State, s': State, a: Step)
    requires Good(s) && Next(s, s', a)
    ensures Good(s')
  {
    hide Inv, Next, MarkerIsThere;
    assert Steps(s, s');
    NextKeeps(s, s');
    forall f: nat ensures MarkerIsThere(s', f) { NextKeepsMarker(s, s', f); }
  }

  predicate AtRest(s: State) { !s.executing && s.list == [] }

  /** The worker's next step, as long as it has anything to do. */
  lemma {:induction false} OnwardStep(s: State) returns (s': State, a: Step)
    requires Good(s) && !AtRest(s)
    ensures Next(s, s', a) && Good(s') && s'.works == s.works && s'.callers == s.callers
    ensures |s'.list| < |s.list| || (s'.list == s.list && s.executing && !s'.executing)
  {
    if s.executing {
      a := FinishStep;
      s' := match s.current.value
            case Work(_, id) => s.(executing := false, ended := s.ended + {id})
            case Marker(f) => s.(executing := false, done := s.done + {f});
    } else {
      a := DequeueStep;
      s' := s.(list := s.list[1..], current := Some(s.list[0]), executing := true, dequeued := s.dequeued + 1);
    }
    StepKeeps(s, s', a);
  }

  lemma {:induction false} WorkOff(s: State) returns (path: seq<State>, s': State)
    requires Good(s)
    ensures Leads(s, path, s') && Good(s') && AtRest(s') && s'.works == s.works && s'.callers == s.callers
    decreases |s.list|, s.executing
  {
    hide Good, Leads, Next;
    if AtRest(s) {
      s' := s;
      path := Stay(s);
    } else {
      var m, a := OnwardStep(s);
      path, s' := WorkOff(m);
      path := StepFirst(s, m, a, path, s');
    }
  }

  /** At rest, everything queued is over and every flush that waits has been completed. */
  lemma {:induction false} RestIsEnd(s: State)
    requires Good(s) && AtRest(s)
    ensures forall id: nat :: id < |s.works| ==> id in s.ended
    ensures forall f :: IsWaiting(s, f) ==> f in s.done
  {
    forall id: nat | id < |s.works| ensures id in s.ended { assert !Live(s, id); }
    forall f | IsWaiting(s, f) ensures f in s.done { assert MarkerIsThere(s, f); }
  }

  lemma {:induction false} RunIsGood(run: seq<State>)
    requires IsRun(run)
    ensures Good(run[|run| - 1])
  {
    RunKeeps(run);
    var s := run[|run| - 1];
    hide IsRun, Inv, MarkerIsThere;
    forall f: nat ensures MarkerIsThere(s, f) { RunKeepsMarker(run, f); }
  }

  /** From every reachable state the worker's own steps can bring every execution queued so far to its end, and with
      them the wait of every flush. */
  lemma {:induction false} EverythingCanEnd(run: seq<State>) returns (run': seq<State>)
    requires IsRun(run)
    ensures IsRun(run') && run <= run'
    ensures var s, s' := run[|run| - 1], run'[|run'| - 1];
      && AtRest(s') && s'.works == s.works && s'.callers == s.callers
      && (forall id: nat :: id < |s'.works| ==> id in s'.ended)
      && (forall f :: IsWaiting(s', f) ==> f in s'.done)
  {
    assert run != [];
    RunIsGood(run);
    hide IsRun, Good, Leads;
    var path, s' := WorkOff(run[|run| - 1]);
    RestIsEnd(s');
    run' := Prolong(run, path, s');
  }

  /** The lock section of a flush can be entered at any time. */
  lemma {:induction false} FlushStep(s: State, f: nat) returns (s': State, a: Step)
    requires f in s.callers && s.callers[f].Called?
    ensures Next(s, s', a) && f in s'.callers && !s'.callers[f].Called?
  {
    var t := s.callers[f].target;
    match s.callers[f].w
    case None =>
      a := FlushWorkerStep(f);
      s' := Insert(s, |s.list|, Marker(f)).(callers := s.callers[f := Waiting(None, t, |s.works| - 1)]);
    case Some(w) =>
      a := FlushWorkStep(f, w);
      if Pending(s, w) {
        var k :| 0 <= k < |s.list| && s.list[k].Work? && s.list[k].w == w;
        s' := Insert(s, k + 1, Marker(f)).(callers := s.callers[f := Waiting(Some(w), t, s.list[k].id)]);
      } else if s.current.Some? && s.current.value.Work? && s.current.value.w == w {
        s' := Insert(s, 0, Marker(f)).(callers := s.callers[f := Waiting(Some(w), t, -1)]);
      } else {
        s' := s.(callers := s.callers[f := Returned(t)]);
      }
  }

  lemma {:induction false} ReturnFrom(s: State, f: nat) returns (path: seq<State>, s': State)
    requires Good(s) && f in s.callers
    ensures Leads(s, path, s') && f in s'.callers && s'.callers[f].Returned?
  {
    if s.callers[f].Returned? {
      s' := s;
      path := Stay(s);
    } else if s.callers[f].Waiting? {
      path, s' := WakeFrom(s, f);
    } else {
      var m, a := FlushStep(s, f);
      StepKeeps(s, m, a);
      hide Good, Leads, Next;
      if m.callers[f].Waiting? {
        path, s' := WakeFrom(m, f);
      } else {
        s' := m;
        path := Stay(m);
      }
      path := StepFirst(s, m, a, path, s');
    }
  }

  lemma {:induction false} WakeFrom(s: State, f: nat) returns (path: seq<State>, s': State)
    requires Good(s) && f in s.callers && s.callers[f].Waiting?
    ensures Leads(s, path, s') && f in s'.callers && s'.callers[f].Returned?
  {
    hide Good, Leads;
    var p, m := WorkOff(s);
    RestIsEnd(m);
    assert IsWaiting(m, f);
    s' := m.(callers := m.callers[f := Returned(m.callers[f].target)]);
    path := Stay(s');
    path := StepFirst(m, s', WakeStep(f), path, s');
    path := Join(s, p, m, path, s');
  }

  /** From every reachable state every flush can return. */
  lemma {:induction false} EveryFlushCanReturn(run: seq<State>, f: nat) returns (run': seq<State>)
    requires IsRun(run) && f in run[|run| - 1].callers
    ensures IsRun(run') && run <= run'
    ensures var s' := run'[|run'| - 1]; f in s'.callers && s'.callers[f].Returned?
  {
    assert run != [];
    RunIsGood(run);
    hide IsRun, Good, Leads;
    var path, s' := ReturnFrom(run[|run| - 1], f);
    run' := Prolong(run, path, s');
  }

  /** A worker that has looked at its empty list has nothing to wait for: a flush of any work then returns at once. */
  lemma {:induction false} RestingWorkerIsFlushedAtOnce(s: State, s': State, s'': State, f: nat, w: nat)
    requires AtRest(s) && Next(s, s', DequeueStep) && Next(s', s'', FlushWorkStep(f, w))
    ensures s''.callers[f].Returned? && s''.list == []
  {
  }
}
