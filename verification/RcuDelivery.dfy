/**
What becomes of the callbacks of RcuGrace. Each one stays in line on its CPU, or on
the CPU that adopts it, until it is invoked; it is invoked once at most; and from
every reachable state it still can be: no interleaving of quiescent states, grace
periods and hotplug operations strands it.
*/
module RcuDelivery {
  import opened Common
  import opened RcuGrace
  import T = RcuTree
  import L = CbList

  /** The callbacks of a CPU in the order in which they will be invoked: the rest of the batch, then the list. */
  function Line(cpu: Cpu): seq<Cb> { cpu.batch + cpu.cbs.cbs }

  // ----- the line of a CPU -----

  lemma {:induction false} AdvanceSame(t: T.Tree, n: nat, l: L.Segs<Cb>, u: bool)
    requires n < |t.nodes|
    ensures AccelerateCbs(t, n, l, u).cbs == l.cbs && AdvanceCbs(t, n, l, u).cbs == l.cbs
  {
  }

  lemma {:induction false} ProcessSame(t: T.Tree, n: nat, c: nat, cpu: Cpu, u: bool)
    requires n < |t.nodes|
    ensures Line(ProcessGpEnd(t, n, c, cpu, u)) == Line(cpu)
    ensures Line(NoteNewGpnum(t, n, c, cpu)) == Line(cpu)
    ensures Line(NoteNewGpnum(t, n, c, ProcessGpEnd(t, n, c, cpu, u))) == Line(cpu)
  {
    AdvanceSame(t, n, cpu.cbs, u);
    hide AccelerateCbs, AdvanceCbs;
  }

  /** The steps that may add to, take from or pass on a line. */
  predicate Moves(a: Step) { a.CallRcu? || a.Invoke? || a.CpuDead? }

  lemma {:induction false} InitLine(s: State, c: nat, u: bool, d: nat)
    requires Shaped(s) && T.CanInitNode(s.tree) && IsRunning(s, c) && d < |s.cpus|
    ensures |AfterKthreadInit(s, c, u).cpus| == |s.cpus| && Line(AfterKthreadInit(s, c, u).cpus[d]) == Line(s.cpus[d])
  {
    ProcessSame(T.InitNode(s.tree), s.tree.kt.next, c, s.cpus[c], u);
    hide ProcessGpEnd, NoteNewGpnum, Line, T.Shape;
  }

  lemma {:induction false} CleanupLine(s: State, c: nat, u: bool, d: nat)
    requires Shaped(s) && T.CanCleanupNode(s.tree) && IsRunning(s, c) && d < |s.cpus|
    ensures |AfterKthreadCleanup(s, c, u).cpus| == |s.cpus|
    ensures Line(AfterKthreadCleanup(s, c, u).cpus[d]) == Line(s.cpus[d])
  {
    ProcessSame(T.CleanupNode(s.tree), s.tree.kt.next, c, s.cpus[c], u);
    hide ProcessGpEnd, Line, T.Shape;
  }

  lemma {:induction false} CleanupDoneLine(s: State, c: nat, u: bool, d: nat)
    requires Shaped(s) && T.CanCleanupDone(s.tree) && IsRunning(s, c) && d < |s.cpus|
    ensures |AfterKthreadCleanupDone(s, c, u).cpus| == |s.cpus|
    ensures Line(AfterKthreadCleanupDone(s, c, u).cpus[d]) == Line(s.cpus[d])
  {
    AdvanceSame(T.CleanupDone(s.tree), 0, s.cpus[c].cbs, u);
    hide AdvanceCbs;
  }

  lemma {:induction false} ScanLine(s: State, w: nat, o: bool, d: nat)
    requires Shaped(s) && CanScan(s, w) && d < |s.cpus|
    ensures |FqsLeaf(s, w, o).cpus| == |s.cpus| && Line(FqsLeaf(s, w, o).cpus[d]) == Line(s.cpus[d])
  {
    hide CreditMask, T.Report, T.Shape, T.IsLeaf;
  }

  lemma {:induction false} KthreadLine(s: State, a: Step, d: nat)
    requires Shaped(s) && Can(s, a) && OnKthread(a) && d < |s.cpus|
    ensures |Effect(s, a).cpus| == |s.cpus| && Line(Effect(s, a).cpus[d]) == Line(s.cpus[d])
  {
    hide AfterKthreadInit, AfterKthreadCleanup, AfterKthreadCleanupDone, FqsLeaf, Line, T.Shape;
    match a
    case KthreadInit(c, u) => InitLine(s, c, u, d);
    case KthreadCleanup(c, u) => CleanupLine(s, c, u, d);
    case KthreadCleanupDone(c, u) => CleanupDoneLine(s, c, u, d);
    case KthreadFqs(w, o) => ScanLine(s, w, o, d);
    case _ =>
  }

  lemma {:induction false} ReportLine(s: State, c: nat, w: nat, u: bool, d: nat)
    requires Shaped(s) && IsRunning(s, c) && w !in s.tree.walks && d < |s.cpus|
    ensures |AfterReportQs(s, c, w, u).cpus| == |s.cpus| && Line(AfterReportQs(s, c, w, u).cpus[d]) == Line(s.cpus[d])
  {
    AdvanceSame(s.tree, Leaf(s, c), s.cpus[c].cbs, u);
    hide AccelerateCbs, T.Report, T.Shape;
  }

  /** The steps by which a CPU notices grace periods. */
  predicate Notices(a: Step) { a.NoteGp? || a.GpEndNoticed? || a.StartGp? || a.ReportQs? }

  lemma {:induction false} NoticesLine(s: State, a: Step, d: nat)
    requires Shaped(s) && Can(s, a) && Notices(a) && d < |s.cpus|
    ensures |Effect(s, a).cpus| == |s.cpus| && Line(Effect(s, a).cpus[d]) == Line(s.cpus[d])
  {
    hide AfterReportQs, ProcessGpEnd, NoteNewGpnum, AdvanceCbs, T.IsLeaf;
    match a
    case NoteGp(c) => ProcessSame(s.tree, Leaf(s, c), c, s.cpus[c], false);
    case GpEndNoticed(c, u) => ProcessSame(s.tree, Leaf(s, c), c, s.cpus[c], u);
    case StartGp(c, u) => AdvanceSame(s.tree, 0, s.cpus[c].cbs, u);
    case ReportQs(c, w, u) => ReportLine(s, c, w, u, d);
  }

  lemma {:induction false} OtherLine(s: State, a: Step, d: nat)
    requires Inv(s) && Can(s, a) && !OnKthread(a) && !Moves(a) && !Notices(a) && d < |s.cpus|
    ensures |Effect(s, a).cpus| == |s.cpus| && Line(Effect(s, a).cpus[d]) == Line(s.cpus[d])
  {
    assert Shaped(s);
    if a.CpuPrepare? { assert BaseOk(s, a.cpu); }
    hide Inv, T.Shape;
  }

  /** The line of a CPU is a queue: a callback registered there goes to its end, one invoked there comes from its front,
      and no other step changes it, until the CPU dies or adopts the line of one that does. */
  lemma {:induction false} LineIsAQueue(s: State, a: Step, d: nat)
    requires Inv(s) && Can(s, a) && d < |s.cpus|
    ensures var s' := Effect(s, a);
      && |s'.cpus| == |s.cpus|
      && (a.CallRcu? && a.cpu == d ==> Line(s'.cpus[d]) == Line(s.cpus[d]) + [Cb(a.id, s.now)])
      && (a.Invoke? && a.cpu == d ==> [s.cpus[d].batch[0]] + Line(s'.cpus[d]) == Line(s.cpus[d]))
      && (a.CpuDead? && a.cpu == d ==> Line(s'.cpus[d]) == [])
      && (a.CpuDead? && a.adopter == d ==>
            multiset(Line(s'.cpus[d])) == multiset(Line(s.cpus[d])) + multiset(Line(s.cpus[a.cpu])))
      && (!Moves(a) || (a.cpu != d && (a.CpuDead? ==> a.adopter != d)) ==> Line(s'.cpus[d]) == Line(s.cpus[d]))
  {
    assert Shaped(s);
    hide Inv, Can, Effect, Line;
    if Moves(a) { MovedLine(s, a, d); } else { StaysInLine(s, a, d); }
  }

  lemma {:induction false} StaysInLine(s: State, a: Step, d: nat)
    requires Inv(s) && Shaped(s) && Can(s, a) && !Moves(a) && d < |s.cpus|
    ensures |Effect(s, a).cpus| == |s.cpus| && Line(Effect(s, a).cpus[d]) == Line(s.cpus[d])
  {
    hide Inv, Can, Effect, Line;
    if OnKthread(a) {
      KthreadLine(s, a, d);
    } else if Notices(a) {
      NoticesLine(s, a, d);
    } else {
      OtherLine(s, a, d);
    }
  }

  lemma {:induction false} MovedLine(s: State, a: Step, d: nat)
    requires Inv(s) && Can(s, a) && Moves(a) && d < |s.cpus|
    ensures var s' := Effect(s, a);
      && |s'.cpus| == |s.cpus|
      && (a.CallRcu? && a.cpu == d ==> Line(s'.cpus[d]) == Line(s.cpus[d]) + [Cb(a.id, s.now)])
      && (a.Invoke? && a.cpu == d ==> [s.cpus[d].batch[0]] + Line(s'.cpus[d]) == Line(s.cpus[d]))
      && (a.CpuDead? && a.cpu == d ==> Line(s'.cpus[d]) == [])
      && (a.CpuDead? && a.adopter == d ==>
            multiset(Line(s'.cpus[d])) == multiset(Line(s.cpus[d])) + multiset(Line(s.cpus[a.cpu])))
      && (a.cpu != d && (a.CpuDead? ==> a.adopter != d) ==> Line(s'.cpus[d]) == Line(s.cpus[d]))
  {
    assert Shaped(s);
    hide Inv, T.Shape, Effect, Can, Line;
    match a
    case CallRcu(c, id) => CallRcuLine(s, c, id, d);
    case Invoke(c) => InvokeLine(s, c, d);
    case CpuDead(c, e) => AdoptedLine(s, c, e, d);
  }

  lemma {:induction false} CallRcuLine(s: State, c: nat, id: nat, d: nat)
    requires Inv(s) && Can(s, CallRcu(c, id)) && d < |s.cpus|
    ensures var s' := Effect(s, CallRcu(c, id));
      && |s'.cpus| == |s.cpus|
      && Line(s'.cpus[d]) == if d == c then Line(s.cpus[d]) + [Cb(id, s.now)] else Line(s.cpus[d])
  {
    assert Shaped(s) && BaseOk(s, c);
    hide Inv, T.Shape;
  }

  lemma {:induction false} InvokeLine(s: State, c: nat, d: nat)
    requires Inv(s) && Can(s, Invoke(c)) && d < |s.cpus|
    ensures var s' := Effect(s, Invoke(c));
      && |s'.cpus| == |s.cpus|
      && (if d == c then [s.cpus[d].batch[0]] + Line(s'.cpus[d]) else Line(s'.cpus[d])) == Line(s.cpus[d])
  {
    assert Shaped(s);
    hide Inv, T.Shape;
  }

  lemma {:induction false} AdoptedLine(s: State, c: nat, a: nat, d: nat)
    requires Inv(s) && Can(s, CpuDead(c, a)) && d < |s.cpus|
    ensures var s' := Effect(s, CpuDead(c, a));
      && |s'.cpus| == |s.cpus| && a != c && Line(s'.cpus[c]) == []
      && multiset(Line(s'.cpus[a])) == multiset(Line(s.cpus[a])) + multiset(Line(s.cpus[c]))
      && (d != c && d != a ==> Line(s'.cpus[d]) == Line(s.cpus[d]))
  {
    AdoptedCpus(s, c, a, d);
    hide Inv, Can, Effect, L.Adopt;
    L.AdoptKeepsOrder(s.cpus[a].cbs, s.cpus[c].cbs);
    assert Line(s.cpus[c]) == s.cpus[c].cbs.cbs;
  }

  lemma {:induction false} AdoptedCpus(s: State, c: nat, a: nat, d: nat)
    requires Inv(s) && Can(s, CpuDead(c, a)) && d < |s.cpus|
    ensures Shaped(s) && a < |s.cpus| && c < |s.cpus| && a != c
    ensures L.Valid(s.cpus[a].cbs) && L.Valid(s.cpus[c].cbs) && s.cpus[a].cbs.enabled && s.cpus[c].batch == []
    ensures var s' := Effect(s, CpuDead(c, a));
      var dead := s.cpus[c].cbs;
      && |s'.cpus| == |s.cpus| && Line(s'.cpus[c]) == [] && s'.cpus[a].batch == s.cpus[a].batch
      && s'.cpus[a].cbs == L.Adopt(s.cpus[a].cbs, L.DoneCbs(dead), L.WaitingCbs(dead))
      && (d != c && d != a ==> s'.cpus[d] == s.cpus[d])
  {
    assert Shaped(s) && BaseOk(s, c) && BaseOk(s, a);
    hide Inv, T.Shape, L.Adopt;
  }

  // ----- all callbacks -----

  /** How often `cb` is in line, on all CPUs. */
  ghost function Copies(cpus: seq<Cpu>, cb: Cb): nat {
    if cpus == [] then 0 else Copies(cpus[..|cpus| - 1], cb) + multiset(Line(cpus[|cpus| - 1]))[cb]
  }

  lemma {:induction false} CopiesUpdate(cpus: seq<Cpu>, i: nat, cpu: Cpu, cb: Cb)
    requires i < |cpus|
    ensures Copies(cpus[i := cpu], cb) == Copies(cpus, cb) - multiset(Line(cpus[i]))[cb] + multiset(Line(cpu))[cb]
  {
    hide Line;
    var n := |cpus| - 1;
    if i == n {
      assert cpus[i := cpu][..n] == cpus[..n];
    } else {
      assert cpus[i := cpu][..n] == cpus[..n][i := cpu];
      CopiesUpdate(cpus[..n], i, cpu, cb);
    }
  }

  lemma {:induction false} CopiesSame(cpus: seq<Cpu>, cpus': seq<Cpu>, cb: Cb)
    requires |cpus| == |cpus'| && forall d :: 0 <= d < |cpus| ==> Line(cpus'[d]) == Line(cpus[d])
    ensures Copies(cpus', cb) == Copies(cpus, cb)
  {
    hide Line;
    if cpus != [] { CopiesSame(cpus[..|cpus| - 1], cpus'[..|cpus| - 1], cb); }
  }

  lemma {:induction false} InLine(cpus: seq<Cpu>, d: nat, cb: Cb)
    requires d < |cpus| && cb in Line(cpus[d])
    ensures Copies(cpus, cb) > 0
  {
    hide Line;
    if d < |cpus| - 1 { InLine(cpus[..|cpus| - 1], d, cb); } else { assert cb in multiset(Line(cpus[d])); }
  }

  /** Callbacks are conserved: only registering one adds to them, only invoking one takes it away. */
  lemma {:induction false} CallbacksConserved(s: State, a: Step, cb: Cb)
    requires Inv(s) && Can(s, a)
    ensures var now, next := Copies(s.cpus, cb), Copies(After(s, a).cpus, cb);
      if a.CallRcu? then next == now + (if cb == Cb(a.id, s.now) then 1 else 0)
      else if a.Invoke? then now == next + (if cb == s.cpus[a.cpu].batch[0] then 1 else 0)
      else next == now
  {
    assert Shaped(s);
    hide Inv, Can, Effect, Copies;
    if Moves(a) { MovedCopies(s, a, cb); } else { OtherCopies(s, a, cb); }
  }

  lemma {:induction false} OtherCopies(s: State, a: Step, cb: Cb)
    requires Inv(s) && Shaped(s) && Can(s, a) && !Moves(a)
    ensures Copies(Effect(s, a).cpus, cb) == Copies(s.cpus, cb)
  {
    var s' := Effect(s, a);
    hide Inv, Can, Effect, Copies, Line;
    forall d | 0 <= d < |s.cpus| ensures |s'.cpus| == |s.cpus| && Line(s'.cpus[d]) == Line(s.cpus[d]) {
      StaysInLine(s, a, d);
    }
    SameCount(s, a);
    CopiesSame(s.cpus, s'.cpus, cb);
  }

  lemma {:induction false} SameCount(s: State, a: Step)
    requires Inv(s) && Can(s, a)
    ensures |Effect(s, a).cpus| == |s.cpus|
  {
    assert Shaped(s);
    hide Inv, T.Shape;
  }

  lemma {:induction false} MovedCopies(s: State, a: Step, cb: Cb)
    requires Inv(s) && Can(s, a) && Moves(a)
    ensures var now, next := Copies(s.cpus, cb), Copies(Effect(s, a).cpus, cb);
      if a.CallRcu? then next == now + (if cb == Cb(a.id, s.now) then 1 else 0)
      else if a.Invoke? then now == next + (if cb == s.cpus[a.cpu].batch[0] then 1 else 0)
      else next == now
  {
    if a.CpuDead? {
      AdoptedCopies(s, a.cpu, a.adopter, cb);
    } else {
      var s' := Effect(s, a);
      assert s'.cpus == s.cpus[a.cpu := s'.cpus[a.cpu]];
      MovedLine(s, a, a.cpu);
      hide Inv, Copies, Line, Can, Effect;
      CopiesUpdate(s.cpus, a.cpu, s'.cpus[a.cpu], cb);
    }
  }

  lemma {:induction false} AdoptedCopies(s: State, c: nat, a: nat, cb: Cb)
    requires Inv(s) && Can(s, CpuDead(c, a))
    ensures Copies(Effect(s, CpuDead(c, a)).cpus, cb) == Copies(s.cpus, cb)
  {
    var s' := Effect(s, CpuDead(c, a));
    var cpus := s.cpus[a := s'.cpus[a]];
    assert s'.cpus == cpus[c := s'.cpus[c]];
    AdoptedLine(s, c, a, c);
    hide Inv, Copies, Line, Can, Effect;
    CopiesUpdate(s.cpus, a, s'.cpus[a], cb);
    CopiesUpdate(cpus, c, s'.cpus[c], cb);
  }

  /** No callback is in line twice, and none is from the future. */
  ghost predicate OnceOk(s: State) {
    forall cb: Cb :: Copies(s.cpus, cb) <= 1 && (Copies(s.cpus, cb) == 1 ==> cb.born < s.now)
  }

  lemma {:induction false} OnceKeeps(s: State, a: Step)
    requires Inv(s) && Can(s, a) && OnceOk(s)
    ensures OnceOk(After(s, a)) && After(s, a).now == s.now + 1
    ensures forall cb: Cb :: cb.born < s.now && Copies(s.cpus, cb) == 0 ==> Copies(After(s, a).cpus, cb) == 0
  {
    assert After(s, a).now == s.now + 1;
    var s' := After(s, a);
    hide Inv, Can, After, Copies;
    forall cb: Cb
      ensures Copies(s'.cpus, cb) <= 1 && (Copies(s'.cpus, cb) == 1 ==> cb.born < s'.now)
      ensures cb.born < s.now && Copies(s.cpus, cb) == 0 ==> Copies(s'.cpus, cb) == 0
    {
      CallbacksConserved(s, a, cb);
    }
  }

  lemma {:induction false} OnceNext(s: State, s': State)
    requires Inv(s) && Next(s, s') && OnceOk(s)
    ensures OnceOk(s') && s'.now == s.now + 1
    ensures forall cb: Cb :: cb.born < s.now && Copies(s.cpus, cb) == 0 ==> Copies(s'.cpus, cb) == 0
  {
    hide Inv, OnceOk, Copies, Can, After;
    var a :| Can(s, a) && s' == After(s, a);
    OnceKeeps(s, a);
  }

  lemma {:induction false} RunOnce(run: seq<State>)
    requires IsRun(run)
    ensures Inv(run[|run| - 1]) && OnceOk(run[|run| - 1])
  {
    RunKeeps(run);
    var s := run[|run| - 1];
    hide Inv, Next;
    if |run| == 1 {
      forall cb: Cb ensures Copies(s.cpus, cb) == 0 { NothingYet(s.cpus, cb); }
    } else {
      RunOnce(run[..|run| - 1]);
      OnceNext(run[|run| - 2], s);
    }
  }

  lemma {:induction false} NothingYet(cpus: seq<Cpu>, cb: Cb)
    requires forall d :: 0 <= d < |cpus| ==> Line(cpus[d]) == []
    ensures Copies(cpus, cb) == 0
  {
    if cpus != [] { NothingYet(cpus[..|cpus| - 1], cb); }
  }

  /** What is not in line, and was not registered later, does not come back. */
  lemma {:induction false} GoneIsGone(run: seq<State>, i: nat, cb: Cb)
    requires IsRun(run) && i < |run| && cb.born < run[i].now && Copies(run[i].cpus, cb) == 0
    ensures run[i].now <= run[|run| - 1].now && Copies(run[|run| - 1].cpus, cb) == 0
  {
    hide IsRun, Inv, Copies, OnceOk, Next;
    var n := |run| - 1;
    if i < n {
      LastStep(run);
      var r := run[..n];
      assert r[i] == run[i] && r[n - 1] == run[n - 1];
      GoneIsGone(r, i, cb);
      RunOnce(r);
      GoneStays(run[n - 1], run[n], cb);
    }
  }

  lemma {:induction false} LastStep(run: seq<State>)
    requires IsRun(run) && |run| > 1
    ensures IsRun(run[..|run| - 1]) && Next(run[|run| - 2], run[|run| - 1])
  {
    hide Next, Initial;
  }

  lemma {:induction false} GoneStays(s: State, s': State, cb: Cb)
    requires Inv(s) && Next(s, s') && OnceOk(s) && cb.born < s.now && Copies(s.cpus, cb) == 0
    ensures s.now <= s'.now && Copies(s'.cpus, cb) == 0
  {
    hide Inv, Copies, OnceOk, Next;
    OnceNext(s, s');
  }

  /** A callback is invoked once at most: after it has been invoked at state `i` of a run it is not in line anywhere, on
      any CPU and after any hotplug operations. */
  lemma {:induction false} InvokedOnce(run: seq<State>, i: nat, c: nat)
    requires IsRun(run) && i + 1 < |run| && Shaped(run[i]) && Can(run[i], Invoke(c))
    requires run[i + 1] == After(run[i], Invoke(c))
    ensures Copies(run[|run| - 1].cpus, run[i].cpus[c].batch[0]) == 0
  {
    var s, cb := run[i], run[i].cpus[c].batch[0];
    PrefixIsRun(run, i);
    RunOnce(run[..i + 1]);
    hide IsRun, Inv, Copies;
    CallbacksConserved(s, Invoke(c), cb);
    InLine(s.cpus, c, cb);
    assert run[i + 1].now == s.now + 1;
    GoneIsGone(run, i + 1, cb);
  }

  // ----- paths -----

  /** The states of `path` lead from `s` to `s'`, step by step. */
  ghost predicate Leads(s: State, path: seq<State>, s': State) {
    && path != [] && path[0] == s && path[|path| - 1] == s'
    && forall i :: 0 <= i < |path| - 1 ==> Next(path[i], path[i + 1])
  }

  lemma {:induction false} Join(s: State, p: seq<State>, m: State, q: seq<State>, s': State) returns (path: seq<State>)
    requires Leads(s, p, m) && Leads(m, q, s')
    ensures Leads(s, path, s')
  {
    hide Next;
    path := p + q[1..];
    forall i | 0 <= i < |path| - 1 ensures Next(path[i], path[i + 1]) {
      if i >= |p| - 1 { assert path[i] == q[i - (|p| - 1)] && path[i + 1] == q[i + 1 - (|p| - 1)]; }
    }
  }

  lemma {:induction false} Stay(s: State) returns (path: seq<State>)
    ensures Leads(s, path, s)
  {
    path := [s];
  }

  /** One step ahead of a path. */
  lemma {:induction false} StepFirst(s: State, a: Step, q: seq<State>, s': State) returns (path: seq<State>)
    requires Shaped(s) && Can(s, a) && Leads(After(s, a), q, s')
    ensures Leads(s, path, s')
  {
    assert Next(s, After(s, a));
    hide Next;
    path := [s] + q;
  }

  /** A path from the last state of a run makes it a longer run. */
  lemma {:induction false} Prolong(run: seq<State>, path: seq<State>, s': State) returns (run': seq<State>)
    requires IsRun(run) && Leads(run[|run| - 1], path, s')
    ensures IsRun(run') && run <= run' && run'[|run'| - 1] == s'
    decreases |path|
  {
    hide Next;
    if |path| == 1 {
      run' := run;
    } else {
      var n := |path| - 1;
      var r := Prolong(run, path[..n], path[n - 1]);
      assert Next(path[n - 1], path[n]);
      run' := r + [s'];
      assert run'[..|run'| - 1] == r;
    }
  }

  lemma {:induction false} StepKeeps(s: State, a: Step)
    requires Inv(s) && Can(s, a)
    ensures Inv(After(s, a))
  {
    assert Shaped(s);
    hide Inv, Can, After;
    assert Next(s, After(s, a));
    NextKeeps(s, After(s, a));
  }

  // ----- watching one callback -----

  /** The callback `cb` in place `k` of the list of CPU `cpu`, numbered at most `bound` if there is one, while the
      kthread runs on CPU `runner`. */
  datatype Watch = Watch(runner: nat, cpu: nat, k: nat, cb: Cb, bound: Option<nat>)

  predicate Within(st: L.Status, bound: Option<nat>) {
    bound.None? || st.Done? || (st.Numbered? && st.num <= bound.value)
  }

  predicate Listed(l: L.Segs<Cb>, w: Watch) {
    w.k < |l.cbs| && l.cbs[w.k] == w.cb && Within(L.StatusOf(l, w.k), w.bound)
  }

  ghost predicate Holds(s: State, w: Watch) {
    IsRunning(s, w.runner) && w.cpu < |s.cpus| && Listed(s.cpus[w.cpu].cbs, w)
  }

  /** Neither rcu_advance_cbs nor rcu_accelerate_cbs ever makes a callback wait for longer. */
  lemma {:induction false} AdvanceListed(t: T.Tree, n: nat, l: L.Segs<Cb>, u: bool, w: Watch)
    requires n < |t.nodes| && L.Valid(l) && Listed(l, w)
    ensures Listed(AccelerateCbs(t, n, l, u), w) && Listed(AdvanceCbs(t, n, l, u), w)
  {
    L.AccelerateNeverEarly(l, CbsCompleted(t, n), w.k);
    L.AdvanceExact(l, t.nodes[n].completed, w.k);
    L.AccelerateNeverEarly(L.Advance(l, t.nodes[n].completed), CbsCompleted(t, n), w.k);
  }

  lemma {:induction false} ProcessListed(t: T.Tree, n: nat, c: nat, cpu: Cpu, u: bool, w: Watch)
    requires n < |t.nodes| && L.Valid(cpu.cbs) && Listed(cpu.cbs, w)
    ensures Listed(ProcessGpEnd(t, n, c, cpu, u).cbs, w)
    ensures Listed(NoteNewGpnum(t, n, c, ProcessGpEnd(t, n, c, cpu, u)).cbs, w)
  {
    AdvanceListed(t, n, cpu.cbs, u, w);
    hide AdvanceCbs, AccelerateCbs, Listed;
  }

  /** The list has room for another number: no second group of callbacks waits for an earlier grace period. */
  predicate Room(l: L.Segs<Cb>, num: nat) { l.wait == l.ready || num <= l.numReady }

  /** If there is room, rcu_accelerate_cbs leaves no callback without a number, or waiting for longer than the grace
      period that rcu_cbs_completed names; where the node sees none in progress and the need is not recorded yet, for
      none later than the first that the root has not begun. */
  lemma {:induction false} AccelerateNumbersAll(t: T.Tree, n: nat, l: L.Segs<Cb>, u: bool, k: nat)
    requires T.Inv(t) && n < |t.nodes| && L.Valid(l) && k < |l.cbs| && Room(l, CbsCompleted(t, n))
    ensures var st := L.StatusOf(AccelerateCbs(t, n, l, u), k);
      && Within(st, Some(CbsCompleted(t, n)))
      && (u && t.nodes[n].gpnum == t.nodes[n].completed ==> Within(st, Some(t.nodes[0].gpnum + 1)))
  {
    L.AccelerateNeverEarly(l, CbsCompleted(t, n), k);
    CompletedIsNext(t, 0);
  }

  /** So does __rcu_process_gp_end, which marks done what waits for no later grace period than the last one over. */
  lemma {:induction false} GpEndNumbersAll(t: T.Tree, n: nat, c: nat, cpu: Cpu, u: bool, k: nat)
    requires T.Inv(t) && n < |t.nodes| && L.Valid(cpu.cbs) && k < |cpu.cbs.cbs| && Room(cpu.cbs, CbsCompleted(t, n))
    ensures var st, st' := L.StatusOf(cpu.cbs, k), L.StatusOf(ProcessGpEnd(t, n, c, cpu, u).cbs, k);
      && Within(st', Some(CbsCompleted(t, n)))
      && (cpu.completed != t.nodes[n].completed && Within(st, Some(t.nodes[n].completed)) ==> st'.Done?)
  {
    var m := L.Advance(cpu.cbs, t.nodes[n].completed);
    L.AdvanceExact(cpu.cbs, t.nodes[n].completed, k);
    AccelerateNumbersAll(t, n, cpu.cbs, u, k);
    AccelerateNumbersAll(t, n, m, u, k);
    L.AccelerateNeverEarly(m, CbsCompleted(t, n), k);
  }

  /** And so does a CPU that reports its own quiescent state. */
  lemma {:induction false} ReportNumbersAll(s: State, c: nat, w: nat, u: bool, k: nat)
    requires Inv(s) && IsRunning(s, c) && w !in s.tree.walks && k < |s.cpus[c].cbs.cbs|
    requires c in s.tree.nodes[Leaf(s, c)].qsmask && c !in AfterReportQs(s, c, w, u).tree.nodes[Leaf(s, c)].qsmask
    requires Room(s.cpus[c].cbs, CbsCompleted(s.tree, Leaf(s, c)))
    ensures c < |AfterReportQs(s, c, w, u).cpus|
    ensures Within(L.StatusOf(AfterReportQs(s, c, w, u).cpus[c].cbs, k), Some(CbsCompleted(s.tree, Leaf(s, c))))
  {
    assert ListOk(s, s.cpus[c].cbs);
    AccelerateNumbersAll(s.tree, Leaf(s, c), s.cpus[c].cbs, u, k);
    hide AccelerateCbs, Inv, T.Inv, T.Hop;
  }

  // ----- the hotplug operation in flight can end -----

  /** The kthread stands where it stood, in the same grace period. */
  predicate SameGp(s: State, s': State) {
    s'.tree.kt == s.tree.kt && s'.tree.gpnum == s.tree.gpnum && s'.tree.completed == s.tree.completed
  }

  /** One more hop of the operation in flight. */
  lemma {:induction false} HotplugHop(s: State, w: Watch) returns (a: Step)
    requires Inv(s) && Holds(s, w) && !s.tree.hp.NoHotplug?
    ensures Shaped(s) && Can(s, a) && Inv(After(s, a)) && Holds(After(s, a), w) && SameGp(s, After(s, a))
    ensures After(s, a).tree.hp.NoHotplug? || After(s, a).tree.hp.at < s.tree.hp.at
  {
    assert Shaped(s) && T.HotplugOk(s.tree);
    a := if s.tree.hp.Online? then CpuPrepareHop else CpuDeadHop;
    assert BaseOk(s, s.tree.hp.cpu);
    StepKeeps(s, a);
    hide Inv;
  }

  lemma {:induction false} Settle(s: State, w: Watch) returns (path: seq<State>, s': State)
    requires Inv(s) && Holds(s, w)
    ensures Leads(s, path, s') && Inv(s') && Holds(s', w) && SameGp(s, s') && s'.tree.hp.NoHotplug?
    decreases if s.tree.hp.NoHotplug? then 0 else s.tree.hp.at + 1
  {
    hide Inv, Holds, Leads, Can, After;
    if s.tree.hp.NoHotplug? {
      s' := s;
      path := Stay(s);
    } else {
      var a := HotplugHop(s, w);
      path, s' := Settle(After(s, a), w);
      path := StepFirst(s, a, path, s');
    }
  }

  /** One more node on the way up of CPU `c`. */
  lemma {:induction false} UpStep(s: State, c: nat)
    requires Inv(s) && s.tree.hp.Online? && s.tree.hp.cpu == c
    ensures Shaped(s) && Can(s, CpuPrepareHop) && c < |s.cpus|
    ensures var s' := After(s, CpuPrepareHop);
      && Inv(s') && |s'.cpus| == |s.cpus|
      && (if s'.tree.hp.NoHotplug? then s'.cpus[c].phase.Prepared?
          else s'.tree.hp.Online? && s'.tree.hp.cpu == c && s'.tree.hp.at < s.tree.hp.at)
  {
    assert Shaped(s) && T.HotplugOk(s.tree);
    StepKeeps(s, CpuPrepareHop);
    hide Inv;
  }

  lemma {:induction false} GoUp(s: State, c: nat) returns (path: seq<State>, s': State)
    requires Inv(s) && s.tree.hp.Online? && s.tree.hp.cpu == c
    ensures Leads(s, path, s') && IsRunning(s', c)
    decreases s.tree.hp.at
  {
    UpStep(s, c);
    var m := After(s, CpuPrepareHop);
    if m.tree.hp.NoHotplug? {
      BootStep(m, c);
      hide Inv, Leads, After, Can;
      s' := After(m, CpuBoot(c));
      path := Stay(s');
      path := StepFirst(m, CpuBoot(c), path, s');
    } else {
      hide Inv, Leads, After, Can;
      path, s' := GoUp(m, c);
    }
    path := StepFirst(s, CpuPrepareHop, path, s');
  }

  lemma {:induction false} BootStep(s: State, c: nat)
    requires Inv(s) && c < |s.cpus| && s.cpus[c].phase.Prepared?
    ensures Shaped(s) && Can(s, CpuBoot(c)) && IsRunning(After(s, CpuBoot(c)), c)
  {
    hide T.Shape;
  }

  lemma {:induction false} PrepareStep(s: State, c: nat)
    requires Inv(s) && c < |s.cpus| && s.cpus[c].phase.Dead? && s.tree.hp.NoHotplug? && !s.tree.kt.Init?
    ensures Shaped(s) && Can(s, CpuPrepare(c))
    ensures var s' := After(s, CpuPrepare(c)); Inv(s') && s'.tree.hp.Online? && s'.tree.hp.cpu == c
  {
    assert Shaped(s);
    StepKeeps(s, CpuPrepare(c));
    hide Inv, T.Shape;
  }

  /** In every run, a dead CPU can be brought up and run, unless onoff_mutex is held. */
  lemma {:induction false} DeadCpuCanRun(run: seq<State>, c: nat) returns (run': seq<State>)
    requires IsRun(run) && c < |run[|run| - 1].cpus| && run[|run| - 1].cpus[c].phase.Dead?
    requires run[|run| - 1].tree.hp.NoHotplug? && !run[|run| - 1].tree.kt.Init?
    ensures IsRun(run') && run <= run' && IsRunning(run'[|run'| - 1], c)
  {
    var s := run[|run| - 1];
    RunKeeps(run);
    hide Inv, IsRun, Leads, After, Can;
    PrepareStep(s, c);
    var path, s' := GoUp(After(s, CpuPrepare(c)), c);
    path := StepFirst(s, CpuPrepare(c), path, s');
    run' := Prolong(run, path, s');
  }

  // ----- the kthread can record a grace period in all nodes -----

  lemma {:induction false} InitStep(s: State, w: Watch)
    requires Inv(s) && Holds(s, w) && T.CanInitNode(s.tree)
    ensures var a := KthreadInit(w.runner, false);
      && Shaped(s) && Can(s, a) && Inv(After(s, a)) && Holds(After(s, a), w)
      && After(s, a).tree == T.InitNode(s.tree)
  {
    assert Shaped(s);
    assert ListOk(s, s.cpus[w.cpu].cbs);
    var a := KthreadInit(w.runner, false);
    StepKeeps(s, a);
    hide Inv;
    ProcessListed(T.InitNode(s.tree), s.tree.kt.next, w.cpu, s.cpus[w.cpu], false, w);
    hide ProcessGpEnd, NoteNewGpnum, Listed, T.Shape, ListOk;
  }

  lemma {:induction false} InitAll(s: State, w: Watch) returns (path: seq<State>, s': State)
    requires Inv(s) && Holds(s, w) && s.tree.kt.Init?
    ensures Leads(s, path, s') && Inv(s') && Holds(s', w) && s'.tree.kt.Waiting? && s'.tree.hp == s.tree.hp
    ensures s'.tree.gpnum == s.tree.gpnum
    decreases if s.tree.kt.Init? then |s.tree.nodes| - s.tree.kt.next else 0
  {
    assert T.Shape(s.tree) && Shaped(s);
    if s.tree.kt.next == |s.tree.nodes| {
      s' := After(s, KthreadInitDone);
      StepKeeps(s, KthreadInitDone);
      hide Inv;
      path := Stay(s');
      path := StepFirst(s, KthreadInitDone, path, s');
    } else {
      InitStep(s, w);
      var a := KthreadInit(w.runner, false);
      hide Inv, Can, After, Leads, Holds;
      path, s' := InitAll(After(s, a), w);
      path := StepFirst(s, a, path, s');
    }
  }

  // ----- every CPU can come to rest -----

  /** The first `d` CPUs, as far as they run, are in extended quiescent states. */
  predicate Quiet(s: State, d: nat) {
    forall e :: 0 <= e < d && e < |s.cpus| && s.cpus[e].phase.Running? ==> s.cpus[e].dynticks % 2 == 0
  }

  /** A step of CPU `d` alone. */
  lemma {:induction false} RestStep(s: State, w: Watch, d: nat, a: Step)
    requires Inv(s) && Holds(s, w) && d < |s.cpus| && (a == ReadUnlock(d) || a == EqsEnter(d)) && Can(s, a)
    ensures var s' := After(s, a);
      && Inv(s') && Holds(s', w) && s'.tree == s.tree && s'.fqs == s.fqs
      && |s'.cpus| == |s.cpus| && s'.cpus == s.cpus[d := s'.cpus[d]]
      && s'.cpus[d].phase == s.cpus[d].phase && (a.ReadUnlock? ==> s'.cpus[d].reader.None?)
      && s'.cpus[d].dynticks == s.cpus[d].dynticks + if a.EqsEnter? then 1 else 0
  {
    assert Shaped(s);
    StepKeeps(s, a);
    hide Inv, T.Shape;
  }

  lemma {:induction false} Calm(s: State, w: Watch, d: nat) returns (path: seq<State>, s': State)
    requires Inv(s) && Holds(s, w) && d < |s.cpus|
    ensures Leads(s, path, s') && Inv(s') && Holds(s', w) && s'.tree == s.tree && s'.fqs == s.fqs
    ensures |s'.cpus| == |s.cpus| && s'.cpus == s.cpus[d := s'.cpus[d]]
    ensures s'.cpus[d].phase.Running? ==> s'.cpus[d].dynticks % 2 == 0
    decreases s.cpus[d].reader.Some?
  {
    assert Shaped(s) && BaseOk(s, d);
    hide Inv, Holds, Leads, After, T.Shape;
    if !s.cpus[d].phase.Running? || s.cpus[d].dynticks % 2 == 0 {
      s' := s;
      path := Stay(s);
    } else if s.cpus[d].reader.Some? {
      RestStep(s, w, d, ReadUnlock(d));
      path, s' := Calm(After(s, ReadUnlock(d)), w, d);
      path := StepFirst(s, ReadUnlock(d), path, s');
    } else {
      RestStep(s, w, d, EqsEnter(d));
      s' := After(s, EqsEnter(d));
      path := Stay(s');
      path := StepFirst(s, EqsEnter(d), path, s');
    }
  }

  lemma {:induction false} CalmAll(s: State, w: Watch, d: nat) returns (path: seq<State>, s': State)
    requires Inv(s) && Holds(s, w) && d <= |s.cpus|
    ensures Leads(s, path, s') && Inv(s') && Holds(s', w) && s'.tree == s.tree && s'.fqs == s.fqs
    ensures |s'.cpus| == |s.cpus| && Quiet(s', d)
  {
    hide Inv, Holds, Leads;
    if d == 0 {
      s' := s;
      path := Stay(s);
    } else {
      var p, m := CalmAll(s, w, d - 1);
      var q;
      q, s' := Calm(m, w, d - 1);
      path := Join(s, p, m, q, s');
    }
  }

  // ----- the kthread can force every CPU at rest -----

  /** No leaf among the first `i` nodes waits for a CPU. */
  predicate EmptyBelow(t: T.Tree, i: nat) {
    forall n :: 0 <= n < i && n < |t.nodes| && T.IsLeaf(t.tp, n) ==> t.nodes[n].qsmask == {}
  }

  /** Every CPU is in the phase, and has the dynticks count, that it had. */
  predicate SameActivity(s: State, s': State) {
    && |s'.cpus| == |s.cpus|
    && forall d :: 0 <= d < |s.cpus| ==>
         s'.cpus[d].phase == s.cpus[d].phase && s'.cpus[d].dynticks == s.cpus[d].dynticks
  }

  /** With all CPUs at rest, the force round credits every CPU that a leaf waits for. */
  lemma {:induction false} AllCredited(s: State, n: nat)
    requires Inv(s) && Quiet(s, |s.cpus|) && s.fqs.force && n < |s.tree.nodes| && T.IsLeaf(s.tree.tp, n)
    ensures CreditMask(s, n, true) == s.tree.nodes[n].qsmask
  {
    assert T.BitsAt(s.tree, n);
    forall c | c in s.tree.nodes[n].qsmask ensures c < |s.cpus| && Credited(s.cpus[c], true, true) {
      assert T.IsBit(s.tree.tp, n, c);
    }
  }

  /** The scan of one leaf changes no other node. */
  lemma {:induction false} ScanTree(s: State, v: nat)
    requires Inv(s) && CanScan(s, v)
    ensures var t, t' := s.tree, FqsLeaf(s, v, true).tree;
      && t' == t.(nodes := t'.nodes, walks := t'.walks)
      && |t'.nodes| == |t.nodes|
      && (forall n :: 0 <= n < |t.nodes| && n != s.fqs.next ==> t'.nodes[n] == t.nodes[n])
      && (s.fqs.force && Quiet(s, |s.cpus|) && T.IsLeaf(t.tp, s.fqs.next) ==> t'.nodes[s.fqs.next].qsmask == {})
  {
    if s.fqs.force && Quiet(s, |s.cpus|) && T.IsLeaf(s.tree.tp, s.fqs.next) { AllCredited(s, s.fqs.next); }
    hide Inv, T.Shape, CreditMask, T.IsLeaf, Quiet;
  }

  /** It changes no more than the snapshots of the CPUs. */
  lemma {:induction false} ScanCpus(s: State, v: nat)
    requires Shaped(s) && CanScan(s, v)
    ensures var s' := FqsLeaf(s, v, true);
      && s' == s.(tree := s'.tree, cpus := s'.cpus, fqs := Fqs(s.fqs.force, s.fqs.next + 1))
      && |s'.cpus| == |s.cpus|
      && forall c :: 0 <= c < |s.cpus| ==>
           s'.cpus[c] == s.cpus[c].(snap := s'.cpus[c].snap, snapGp := s'.cpus[c].snapGp)
  {
    hide T.Shape, CreditMask, T.IsLeaf, T.Report;
  }

  lemma {:induction false} ScanStep(s: State, w: Watch, v: nat)
    requires Inv(s) && Holds(s, w) && CanScan(s, v)
    ensures var a := KthreadFqs(v, true);
      && Shaped(s) && Can(s, a) && Inv(After(s, a)) && Holds(After(s, a), w) && SameGp(s, After(s, a))
      && SameActivity(s, After(s, a)) && After(s, a).fqs == Fqs(s.fqs.force, s.fqs.next + 1)
      && After(s, a).tree == FqsLeaf(s, v, true).tree
  {
    assert Shaped(s);
    assert Can(s, KthreadFqs(v, true));
    StepKeeps(s, KthreadFqs(v, true));
    assert After(s, KthreadFqs(v, true)) == Tick(FqsLeaf(s, v, true));
    hide Inv, Shaped, FqsLeaf, Listed, Can, After;
    ScanTree(s, v);
    ScanCpus(s, v);
    ScanHolds(s, FqsLeaf(s, v, true), w);
  }

  lemma {:induction false} ScanHolds(s: State, s': State, w: Watch)
    requires Holds(s, w) && |s'.cpus| == |s.cpus|
    requires forall c :: 0 <= c < |s.cpus| ==>
      s'.cpus[c] == s.cpus[c].(snap := s'.cpus[c].snap, snapGp := s'.cpus[c].snapGp)
    ensures Holds(s', w) && Holds(Tick(s'), w) && SameActivity(s, s') && SameActivity(s, Tick(s'))
  {
    hide Listed;
  }

  /** The rest of a round, and on to the force round; a whole force round empties every leaf. */
  lemma {:induction false} ScanAll(s: State, w: Watch, full: bool) returns (path: seq<State>, s': State)
    requires Inv(s) && Holds(s, w) && s.tree.kt.Waiting? && s.fqs.next <= |s.tree.nodes| && Quiet(s, |s.cpus|)
    requires full ==> s.fqs.force && EmptyBelow(s.tree, s.fqs.next)
    ensures Leads(s, path, s') && Inv(s') && Holds(s', w) && SameGp(s, s') && s'.tree.hp == s.tree.hp
    ensures Quiet(s', |s'.cpus|) && s'.fqs == Fqs(true, 0) && (full ==> EmptyBelow(s'.tree, |s'.tree.nodes|))
    decreases |s.tree.nodes| - s.fqs.next
  {
    if s.fqs.next == |s.tree.nodes| {
      assert Shaped(s);
      s' := After(s, KthreadFqsDone);
      StepKeeps(s, KthreadFqsDone);
      hide Inv, EmptyBelow;
      path := Stay(s');
      path := StepFirst(s, KthreadFqsDone, path, s');
    } else {
      var v := T.FreshWalker(s.tree.walks.Keys);
      ScanStep(s, w, v);
      ScanTree(s, v);
      var m := After(s, KthreadFqs(v, true));
      hide Inv, Can, After, Leads, Holds, FqsLeaf, T.IsLeaf;
      path, s' := ScanAll(m, w, full);
      path := StepFirst(s, KthreadFqs(v, true), path, s');
    }
  }

  // ----- the reports can reach the root -----

  lemma {:induction false} WalkStep(s: State, w: Watch, v: nat)
    requires Inv(s) && Holds(s, w) && s.tree.kt.Waiting? && v in s.tree.walks
    requires EmptyBelow(s.tree, |s.tree.nodes|)
    ensures var a := WalkUp(v);
      && Shaped(s) && Can(s, a) && Inv(After(s, a)) && Holds(After(s, a), w) && SameGp(s, After(s, a))
      && After(s, a).fqs == s.fqs && After(s, a).tree.hp == s.tree.hp
      && T.Awaited(After(s, a).tree.nodes) < T.Awaited(s.tree.nodes)
      && EmptyBelow(After(s, a).tree, |After(s, a).tree.nodes|)
  {
    var t := s.tree;
    assert Shaped(s) && T.WalksOk(t) && T.ValidTopology(t.tp);
    var child := t.walks[v];
    assert T.HasWalk(t, child) && T.MaskAt(t, child);
    assert child in t.nodes[t.tp.parent[child]].qsmask * {child};
    T.HopClears(t.(walks := t.walks - {v}), t.tp.parent[child], {child}, v);
    assert !T.IsLeaf(t.tp, t.tp.parent[child]);
    StepKeeps(s, WalkUp(v));
    hide Inv, T.Awaited, T.Shape, T.IsLeaf;
  }

  lemma {:induction false} Drain(s: State, w: Watch) returns (path: seq<State>, s': State)
    requires Inv(s) && Holds(s, w) && s.tree.kt.Waiting? && EmptyBelow(s.tree, |s.tree.nodes|)
    ensures Leads(s, path, s') && Inv(s') && Holds(s', w) && SameGp(s, s')
    ensures s'.fqs == s.fqs && s'.tree.hp == s.tree.hp && T.CanGpEnd(s'.tree)
    decreases T.Awaited(s.tree.nodes)
  {
    if s.tree.walks == map[] {
      if s.tree.nodes[0].qsmask != {} { T.NeverStuck(s.tree, 0); }
      s' := s;
      path := Stay(s);
    } else {
      var v :| v in s.tree.walks;
      WalkStep(s, w, v);
      var m := After(s, WalkUp(v));
      hide Inv, Can, After, Leads, Holds, EmptyBelow, T.Awaited;
      path, s' := Drain(m, w);
      path := StepFirst(s, WalkUp(v), path, s');
    }
  }

  // ----- the kthread can record the end in all nodes -----

  lemma {:induction false} CleanupStep(s: State, w: Watch)
    requires Inv(s) && Holds(s, w) && T.CanCleanupNode(s.tree)
    ensures var a := KthreadCleanup(w.runner, false);
      && Shaped(s) && Can(s, a) && Inv(After(s, a)) && Holds(After(s, a), w)
      && After(s, a).tree == T.CleanupNode(s.tree)
  {
    assert Shaped(s);
    assert ListOk(s, s.cpus[w.cpu].cbs);
    StepKeeps(s, KthreadCleanup(w.runner, false));
    hide Inv;
    ProcessListed(T.CleanupNode(s.tree), s.tree.kt.next, w.cpu, s.cpus[w.cpu], false, w);
    hide ProcessGpEnd, Listed, T.Shape, ListOk;
  }

  lemma {:induction false} CleanupLast(s: State, w: Watch)
    requires Inv(s) && Holds(s, w) && T.CanCleanupDone(s.tree)
    ensures var a := KthreadCleanupDone(w.runner, false);
      && Shaped(s) && Can(s, a) && Inv(After(s, a)) && Holds(After(s, a), w)
      && After(s, a).tree == T.CleanupDone(s.tree)
  {
    assert Shaped(s);
    assert ListOk(s, s.cpus[w.cpu].cbs);
    StepKeeps(s, KthreadCleanupDone(w.runner, false));
    hide Inv;
    AdvanceListed(T.CleanupDone(s.tree), 0, s.cpus[w.cpu].cbs, false, w);
    hide AdvanceCbs, Listed, ListOk;
  }

  lemma {:induction false} CleanupAll(s: State, w: Watch) returns (path: seq<State>, s': State)
    requires Inv(s) && Holds(s, w) && s.tree.kt.Cleanup?
    ensures Leads(s, path, s') && Inv(s') && Holds(s', w) && s'.tree.kt.Idle? && s'.tree.hp == s.tree.hp
    ensures s'.tree.gpnum == s'.tree.completed == s.tree.gpnum
    decreases if s.tree.kt.Cleanup? then |s.tree.nodes| - s.tree.kt.next else 0
  {
    assert T.Shape(s.tree);
    if s.tree.kt.next == |s.tree.nodes| {
      var a := KthreadCleanupDone(w.runner, false);
      CleanupLast(s, w);
      s' := After(s, a);
      hide Inv, Can, After, Leads, Holds;
      path := Stay(s');
      path := StepFirst(s, a, path, s');
    } else {
      CleanupStep(s, w);
      var a := KthreadCleanup(w.runner, false);
      hide Inv, Can, After, Leads, Holds;
      path, s' := CleanupAll(After(s, a), w);
      path := StepFirst(s, a, path, s');
    }
  }

  // ----- the grace period in progress can end -----

  /** From the wait for quiescent states on. */
  lemma {:induction false} EndWait(s: State, w: Watch) returns (path: seq<State>, s': State)
    requires Inv(s) && Holds(s, w) && s.tree.kt.Waiting? && s.fqs.next <= |s.tree.nodes|
    ensures Leads(s, path, s') && Inv(s') && Holds(s', w) && s'.tree.kt.Cleanup? && s'.tree.hp == s.tree.hp
    ensures s'.tree.gpnum == s.tree.gpnum
  {
    hide Inv, Holds, Leads, After, Can, EmptyBelow;
    var p1, s1 := CalmAll(s, w, |s.cpus|);
    var p2, s2 := ScanAll(s1, w, false);
    NoneScanned(s2.tree);
    var p3, s3 := ScanAll(s2, w, true);
    var p4, s4 := Drain(s3, w);
    EndStep(s4, w);
    s' := After(s4, KthreadEnd);
    path := Stay(s');
    path := StepFirst(s4, KthreadEnd, path, s');
    path := Join(s3, p4, s4, path, s');
    path := Join(s2, p3, s3, path, s');
    path := Join(s1, p2, s2, path, s');
    path := Join(s, p1, s1, path, s');
  }

  lemma {:induction false} NoneScanned(t: T.Tree)
    ensures EmptyBelow(t, 0)
  {
  }

  lemma {:induction false} EndStep(s: State, w: Watch)
    requires Inv(s) && Holds(s, w) && T.CanGpEnd(s.tree) && s.fqs.next == 0
    ensures Shaped(s) && Can(s, KthreadEnd) && Inv(After(s, KthreadEnd)) && Holds(After(s, KthreadEnd), w)
    ensures After(s, KthreadEnd).tree == T.GpEnd(s.tree)
  {
    assert Shaped(s);
    StepKeeps(s, KthreadEnd);
    hide Inv, T.Shape;
  }

  lemma {:induction false} LockStep(s: State, w: Watch)
    requires Inv(s) && Holds(s, w) && T.CanLockOnoff(s.tree)
    ensures Shaped(s) && Can(s, KthreadLock) && Inv(After(s, KthreadLock)) && Holds(After(s, KthreadLock), w)
    ensures After(s, KthreadLock).tree == T.LockOnoff(s.tree)
  {
    assert Shaped(s);
    StepKeeps(s, KthreadLock);
    hide Inv, T.Shape;
  }

  /** Wherever the kthread stands, the grace period in progress can end. */
  lemma {:induction false} EndGp(s: State, w: Watch) returns (path: seq<State>, s': State)
    requires Inv(s) && Holds(s, w) && s.tree.hp.NoHotplug?
    ensures Leads(s, path, s') && Inv(s') && Holds(s', w) && s'.tree.kt.Idle? && s'.tree.hp.NoHotplug?
    ensures s'.tree.gpnum == s'.tree.completed == s.tree.gpnum
    decreases match s.tree.kt case Idle => 0 case Cleanup(_) => 1 case Waiting => 2 case Init(_) => 3 case Starting => 4
  {
    assert T.Shape(s.tree) && (s.tree.kt.Waiting? ==> s.fqs.next <= |s.tree.nodes|);
    hide Inv, Holds, Leads, After, Can, T.Shape;
    match s.tree.kt
    case Idle =>
      s' := s;
      path := Stay(s);
    case Cleanup(_) =>
      path, s' := CleanupAll(s, w);
    case Waiting =>
      var p, m := EndWait(s, w);
      path, s' := EndGp(m, w);
      path := Join(s, p, m, path, s');
    case Init(_) =>
      var p, m := InitAll(s, w);
      path, s' := EndGp(m, w);
      path := Join(s, p, m, path, s');
    case Starting =>
      LockStep(s, w);
      path, s' := EndGp(After(s, KthreadLock), w);
      path := StepFirst(s, KthreadLock, path, s');
  }

  lemma {:induction false} SettleAndEnd(s: State, w: Watch) returns (path: seq<State>, s': State)
    requires Inv(s) && Holds(s, w)
    ensures Leads(s, path, s') && Inv(s') && Holds(s', w) && s'.tree.kt.Idle? && s'.tree.hp.NoHotplug?
    ensures s'.tree.gpnum == s'.tree.completed == s.tree.gpnum
  {
    hide Inv, Holds, Leads;
    var p, m := Settle(s, w);
    path, s' := EndGp(m, w);
    path := Join(s, p, m, path, s');
  }

  // ----- the callback can be numbered, and done -----

  /** Between grace periods, rcu_start_gp's call of rcu_advance_cbs leaves no callback that has not been done without a
      number, and none waiting for longer than the next grace period. */
  lemma {:induction false} AdvanceAtRoot(t: T.Tree, l: L.Segs<Cb>, u: bool, k: nat)
    requires T.Inv(t) && t.kt.Idle? && L.Valid(l) && k < |l.cbs|
    ensures 0 < |t.nodes| && L.Valid(AdvanceCbs(t, 0, l, u)) && AdvanceCbs(t, 0, l, u).cbs == l.cbs
    ensures var st, st' := L.StatusOf(l, k), L.StatusOf(AdvanceCbs(t, 0, l, u), k);
      && Within(st', Some(t.completed + 1))
      && (Within(st, Some(t.completed)) ==> st'.Done?)
  {
    assert T.NumbersAt(t, 0);
    var c := t.completed;
    var m := L.Advance(l, c);
    L.AdvanceExact(l, c, k);
    L.AccelerateNeverEarly(m, c + 1, k);
    if m.wait < m.ready { L.AdvanceExact(l, c, m.wait); }
    assert CbsCompleted(t, 0) == c + 1;
  }

  /** The kthread's last step of a grace period does that for the callbacks of its own CPU. */
  lemma {:induction false} CleanupDoneAdvances(s: State, c: nat, u: bool, k: nat)
    requires Inv(s) && T.CanCleanupDone(s.tree) && IsRunning(s, c) && k < |s.cpus[c].cbs.cbs|
    ensures var s' := AfterKthreadCleanupDone(s, c, u);
      && c < |s'.cpus| && s'.tree.completed == s.tree.gpnum
      && var st, st' := L.StatusOf(s.cpus[c].cbs, k), L.StatusOf(s'.cpus[c].cbs, k);
         Within(st', Some(s.tree.gpnum + 1)) && (Within(st, Some(s.tree.gpnum)) ==> st'.Done?)
  {
    assert Shaped(s) && ListOk(s, s.cpus[c].cbs);
    T.CleanupDoneKeeps(s.tree);
    AdvanceAtRoot(T.CleanupDone(s.tree), s.cpus[c].cbs, u, k);
    hide Inv, T.Inv, AdvanceCbs;
  }

  lemma {:induction false} StartStep(s: State, w: Watch)
    requires Inv(s) && Holds(s, w) && w.cpu == w.runner && s.tree.kt.Idle?
    ensures var s' := After(s, StartGp(w.cpu, false));
      && Shaped(s) && Can(s, StartGp(w.cpu, false)) && Inv(s') && s'.tree == s.tree
      && Holds(s', w.(bound := Some(s.tree.completed + 1)))
      && (w.bound.Some? && w.bound.value <= s.tree.completed ==> L.StatusOf(s'.cpus[w.cpu].cbs, w.k).Done?)
  {
    assert Shaped(s) && ListOk(s, s.cpus[w.cpu].cbs);
    AdvanceAtRoot(s.tree, s.cpus[w.cpu].cbs, false, w.k);
    StepKeeps(s, StartGp(w.cpu, false));
    hide Inv, T.Shape, ListOk, AdvanceCbs;
  }

  lemma {:induction false} NewGpStep(s: State, w: Watch)
    requires Inv(s) && Holds(s, w) && s.tree.kt.Idle?
    ensures Shaped(s) && Can(s, KthreadStart) && Inv(After(s, KthreadStart)) && Holds(After(s, KthreadStart), w)
    ensures After(s, KthreadStart).tree == T.GpStart(s.tree)
  {
    assert Shaped(s) && T.Shape(s.tree);
    StepKeeps(s, KthreadStart);
    hide Inv, T.Shape;
  }

  /** The callback can be given a number, and the grace period of that number can begin and end. */
  lemma {:induction false} MakeDone(s: State, w: Watch) returns (path: seq<State>, s': State)
    requires Inv(s) && Holds(s, w) && w.cpu == w.runner
    ensures Leads(s, path, s') && Inv(s') && Holds(s', w.(bound := None))
    ensures L.StatusOf(s'.cpus[w.cpu].cbs, w.k).Done?
  {
    var start := StartGp(w.cpu, false);
    hide Inv, Leads, After, Can, L.StatusOf, T.Shape;
    var p1, s1 := SettleAndEnd(s, w);
    StartStep(s1, w);
    var s2 := After(s1, start);
    var w2 := w.(bound := Some(s1.tree.completed + 1));
    NewGpStep(s2, w2);
    var s3 := After(s2, KthreadStart);
    var p3, s4 := SettleAndEnd(s3, w2);
    StartStep(s4, w2);
    s' := After(s4, start);
    path := Stay(s');
    path := StepFirst(s4, start, path, s');
    path := Join(s3, p3, s4, path, s');
    path := StepFirst(s2, KthreadStart, path, s');
    path := StepFirst(s1, start, path, s');
    path := Join(s, p1, s1, path, s');
  }

  // ----- and be invoked -----

  /** `cb` is about to be invoked on CPU `x`. */
  ghost predicate AboutToInvoke(s: State, x: nat, cb: Cb) {
    Shaped(s) && Can(s, Invoke(x)) && s.cpus[x].batch[0] == cb
  }

  lemma {:induction false} InvokeStep(s: State, c: nat)
    requires Inv(s) && IsRunning(s, c) && s.cpus[c].batch != []
    ensures var s' := After(s, Invoke(c));
      && Shaped(s) && Can(s, Invoke(c)) && Inv(s') && IsRunning(s', c)
      && s'.cpus[c] == s.cpus[c].(batch := s.cpus[c].batch[1..])
  {
    assert Shaped(s);
    StepKeeps(s, Invoke(c));
    hide Inv, T.Shape;
  }

  lemma {:induction false} InvokeUpTo(s: State, c: nat, j: nat) returns (path: seq<State>, s': State)
    requires Inv(s) && IsRunning(s, c) && j <= |s.cpus[c].batch|
    ensures Leads(s, path, s') && Inv(s') && Shaped(s') && IsRunning(s', c)
    ensures s'.cpus[c] == s.cpus[c].(batch := s.cpus[c].batch[j..])
    decreases j
  {
    assert Shaped(s);
    hide Inv, Leads, After, Can;
    if j == 0 {
      s' := s;
      path := Stay(s);
    } else {
      InvokeStep(s, c);
      path, s' := InvokeUpTo(After(s, Invoke(c)), c, j - 1);
      path := StepFirst(s, Invoke(c), path, s');
    }
  }

  lemma {:induction false} BatchStep(s: State, c: nat)
    requires Inv(s) && IsRunning(s, c) && s.cpus[c].batch == []
    ensures var s' := After(s, BatchBegin(c));
      && Shaped(s) && Can(s, BatchBegin(c)) && Inv(s') && IsRunning(s', c)
      && L.Valid(s.cpus[c].cbs) && s'.cpus[c].batch == L.DoneCbs(s.cpus[c].cbs)
  {
    assert Shaped(s) && ListOk(s, s.cpus[c].cbs);
    StepKeeps(s, BatchBegin(c));
    hide Inv, T.Shape, L.Extract;
  }

  /** A callback that is done can be invoked. */
  lemma {:induction false} InvokeDone(s: State, c: nat, k: nat) returns (path: seq<State>, s': State)
    requires Inv(s) && IsRunning(s, c) && k < |s.cpus[c].cbs.cbs| && L.StatusOf(s.cpus[c].cbs, k).Done?
    ensures Leads(s, path, s') && AboutToInvoke(s', c, s.cpus[c].cbs.cbs[k])
  {
    hide Inv, Leads, After;
    var p1, s1 := InvokeUpTo(s, c, |s.cpus[c].batch|);
    BatchStep(s1, c);
    var s2 := After(s1, BatchBegin(c));
    var p2;
    p2, s' := InvokeUpTo(s2, c, k);
    path := StepFirst(s1, BatchBegin(c), p2, s');
    path := Join(s, p1, s1, path, s');
  }

  // ----- no callback is stranded -----

  /** A callback on the list of a running CPU can be invoked there. */
  lemma {:induction false} InvokeListed(s: State, c: nat, k: nat) returns (path: seq<State>, s': State)
    requires Inv(s) && IsRunning(s, c) && k < |s.cpus[c].cbs.cbs|
    ensures Leads(s, path, s') && AboutToInvoke(s', c, s.cpus[c].cbs.cbs[k])
  {
    hide Inv, Leads, AboutToInvoke, L.StatusOf;
    var w := Watch(c, c, k, s.cpus[c].cbs.cbs[k], None);
    var p, m := MakeDone(s, w);
    path, s' := InvokeDone(m, c, k);
    path := Join(s, p, m, path, s');
  }

  /** A CPU that is not running any more, or not yet, can be taken down, and its callbacks then be on the list of the
      CPU that adopts them. */
  lemma {:induction false} AdoptStep(s: State, w: Watch) returns (j: nat)
    requires Inv(s) && Holds(s, w) && !IsRunning(s, w.cpu) && s.tree.kt.Idle? && s.tree.hp.NoHotplug?
    ensures var a := CpuDead(w.cpu, w.runner);
      && Shaped(s) && Can(s, a) && Inv(After(s, a)) && IsRunning(After(s, a), w.runner)
      && j < |After(s, a).cpus[w.runner].cbs.cbs| && After(s, a).cpus[w.runner].cbs.cbs[j] == w.cb
  {
    var a := CpuDead(w.cpu, w.runner);
    assert Shaped(s) && BaseOk(s, w.cpu) && BaseOk(s, w.runner);
    assert ListOk(s, s.cpus[w.cpu].cbs) && ListOk(s, s.cpus[w.runner].cbs);
    assert Can(s, a);
    StepKeeps(s, a);
    L.AdoptKeepsOrder(s.cpus[w.runner].cbs, s.cpus[w.cpu].cbs);
    var l := After(s, a).cpus[w.runner].cbs.cbs;
    assert w.cb in multiset(s.cpus[w.cpu].cbs.cbs);
    assert w.cb in multiset(l);
    hide Inv, T.Shape, ListOk;
    j :| 0 <= j < |l| && l[j] == w.cb;
  }

  lemma {:induction false} InvokeAdopted(s: State, a: nat, c: nat, k: nat) returns (path: seq<State>, s': State)
    requires Inv(s) && IsRunning(s, a) && c < |s.cpus| && !s.cpus[c].phase.Running? && k < |s.cpus[c].cbs.cbs|
    ensures Leads(s, path, s') && exists x :: AboutToInvoke(s', x, s.cpus[c].cbs.cbs[k])
  {
    hide Inv, Leads, AboutToInvoke, Can, After;
    var w := Watch(a, c, k, s.cpus[c].cbs.cbs[k], None);
    var p, m := SettleAndEnd(s, w);
    if IsRunning(m, c) {
      path, s' := InvokeListed(m, c, k);
    } else {
      var j := AdoptStep(m, w);
      var q, e := InvokeListed(After(m, CpuDead(c, a)), a, j);
      s' := e;
      path := StepFirst(m, CpuDead(c, a), q, s');
    }
    path := Join(s, p, m, path, s');
  }

  /** From every reachable state in which some CPU runs, every callback that has been registered and not invoked, on
      whatever CPU, can still be invoked: some continuation of the run gets there. */
  lemma {:induction false} NoCallbackIsStranded(run: seq<State>, a: nat, c: nat, cb: Cb)
    returns (run': seq<State>, x: nat)
    requires IsRun(run) && IsRunning(run[|run| - 1], a)
    requires c < |run[|run| - 1].cpus| && cb in Line(run[|run| - 1].cpus[c])
    ensures IsRun(run') && run <= run' && AboutToInvoke(run'[|run'| - 1], x, cb)
  {
    RunKeeps(run);
    hide Inv, Leads, IsRun, AboutToInvoke, Line;
    var path, s' := InvokeInLine(run[|run| - 1], a, c, cb);
    x :| AboutToInvoke(s', x, cb);
    run' := Prolong(run, path, s');
  }

  lemma {:induction false} InvokeInLine(s: State, a: nat, c: nat, cb: Cb) returns (path: seq<State>, s': State)
    requires Inv(s) && IsRunning(s, a) && c < |s.cpus| && cb in Line(s.cpus[c])
    ensures Leads(s, path, s') && exists x :: AboutToInvoke(s', x, cb)
  {
    assert BaseOk(s, c);
    hide Inv, Leads, AboutToInvoke, T.Shape;
    if cb in s.cpus[c].batch {
      var j :| 0 <= j < |s.cpus[c].batch| && s.cpus[c].batch[j] == cb;
      path, s' := InvokeUpTo(s, c, j);
      Ready(s', c);
    } else {
      var k :| 0 <= k < |s.cpus[c].cbs.cbs| && s.cpus[c].cbs.cbs[k] == cb;
      if IsRunning(s, c) {
        path, s' := InvokeListed(s, c, k);
      } else {
        path, s' := InvokeAdopted(s, a, c, k);
      }
    }
  }

  lemma {:induction false} Ready(s: State, c: nat)
    requires Shaped(s) && IsRunning(s, c) && s.cpus[c].batch != []
    ensures AboutToInvoke(s, c, s.cpus[c].batch[0])
  {
  }
}
