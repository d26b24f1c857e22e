/**
How a CPU's quiescent state gets to the grace period of RcuGrace: every CPU that a
leaf waits for can report itself, and whoever has been in an extended quiescent state
since its snapshot is reported by the kthread.
*/
module RcuQuiescence {
  import opened Common
  import opened RcuGrace
  import opened RcuDelivery
  import L = CbList
  import T = RcuTree

  // ----- what a CPU knows of the grace periods -----

  /** A CPU's numbers are not ahead of its leaf's, nor its completed number of its other one; and one that its leaf
      waits for and that has noticed the grace period looks for a quiescent state. */
  ghost predicate KnowsGp(s: State, c: nat)
    requires Shaped(s) && c < |s.cpus|
  {
    Knows(s.cpus[c], s.tree.nodes[Leaf(s, c)], c)
  }

  predicate Knows(cpu: Cpu, leaf: T.Node, c: nat) {
    && cpu.completed <= cpu.gpnum <= leaf.gpnum && cpu.completed <= leaf.completed
    && (c in leaf.qsmask && cpu.gpnum == leaf.gpnum ==> cpu.qsPending)
  }

  /** A CPU's numbers have not gone back. */
  predicate Onward(cpu: Cpu, cpu': Cpu) { cpu.gpnum <= cpu'.gpnum && cpu.completed <= cpu'.completed }

  /** A node that waits for someone has a grace period in progress. */
  lemma {:induction false} AwaitedIsActive(s: State, n: nat)
    requires Inv(s) && n < |s.tree.nodes|
    ensures s.tree.nodes[n].completed <= s.tree.nodes[n].gpnum
    ensures s.tree.nodes[n].qsmask != {} ==>
      s.tree.nodes[n].gpnum == s.tree.gpnum == s.tree.nodes[n].completed + 1
  {
    assert T.MaskAt(s.tree, n) && T.NumbersAt(s.tree, n);
  }

  /** __rcu_process_gp_end brings the CPU's completed number up to its leaf's, __note_new_gpnum the other one; a CPU
      that has to catch up forgets older quiescent states, and looks for one only if it is awaited. */
  lemma {:induction false} Notes(t: T.Tree, n: nat, c: nat, cpu: Cpu, u: bool)
    requires n < |t.nodes| && Knows(cpu, t.nodes[n], c) && t.nodes[n].completed <= t.nodes[n].gpnum
    requires c in t.nodes[n].qsmask ==> t.nodes[n].gpnum == t.nodes[n].completed + 1
    ensures var cpu' := ProcessGpEnd(t, n, c, cpu, u);
      && Knows(cpu', t.nodes[n], c) && Onward(cpu, cpu') && cpu'.completed == t.nodes[n].completed
      && Knows(NoteNewGpnum(t, n, c, cpu'), t.nodes[n], c) && Onward(cpu', NoteNewGpnum(t, n, c, cpu'))
      && NoteNewGpnum(t, n, c, cpu').gpnum == t.nodes[n].gpnum
      && (cpu.completed != t.nodes[n].completed && cpu'.qsPending ==> c in t.nodes[n].qsmask)
      && (cpu.gpnum < t.nodes[n].completed ==> !cpu'.passedQs)
    ensures var cpu' := NoteNewGpnum(t, n, c, cpu);
      && Knows(cpu', t.nodes[n], c) && Onward(cpu, cpu') && cpu'.gpnum == t.nodes[n].gpnum
      && (cpu.gpnum != t.nodes[n].gpnum ==> !cpu'.passedQs && (cpu'.qsPending <==> c in t.nodes[n].qsmask))
  {
    hide AccelerateCbs, AdvanceCbs;
  }

  lemma {:induction false} InitKnows(s: State, k: nat, u: bool, c: nat)
    requires Inv(s) && T.CanInitNode(s.tree) && IsRunning(s, k) && c < |s.cpus| && KnowsGp(s, c)
    requires Shaped(AfterKthreadInit(s, k, u))
    ensures KnowsGp(AfterKthreadInit(s, k, u), c) && |AfterKthreadInit(s, k, u).cpus| == |s.cpus|
    ensures Onward(s.cpus[c], AfterKthreadInit(s, k, u).cpus[c])
  {
    var n, t := s.tree.kt.next, T.InitNode(s.tree);
    assert T.NumbersAt(s.tree, n) && T.NumbersAt(s.tree, Leaf(s, c));
    assert Shaped(s) && T.Shape(s.tree);
    hide Inv;
    if Leaf(s, c) == n && c == k { Notes(t, n, c, s.cpus[c], u); }
    hide ProcessGpEnd, NoteNewGpnum;
  }

  lemma {:induction false} CleanupKnows(s: State, k: nat, u: bool, c: nat)
    requires Inv(s) && T.CanCleanupNode(s.tree) && IsRunning(s, k) && c < |s.cpus| && KnowsGp(s, c)
    requires Shaped(AfterKthreadCleanup(s, k, u))
    ensures KnowsGp(AfterKthreadCleanup(s, k, u), c) && |AfterKthreadCleanup(s, k, u).cpus| == |s.cpus|
    ensures Onward(s.cpus[c], AfterKthreadCleanup(s, k, u).cpus[c])
  {
    var n, t := s.tree.kt.next, T.CleanupNode(s.tree);
    assert T.MaskAt(s.tree, n) && T.NumbersAt(s.tree, n);
    assert Shaped(s) && T.Shape(s.tree);
    hide Inv;
    if Leaf(s, c) == n && c == k { Notes(t, n, c, s.cpus[c], u); }
    hide ProcessGpEnd;
  }

  /** Nothing that matters to CPU `c` has changed, but that its leaf may wait for fewer CPUs. */
  predicate NothingNew(s: State, s': State, c: nat)
    requires c < |s.cpus| && c < |s.tree.tp.leafOf|
  {
    && |s'.cpus| == |s.cpus| && s'.tree.tp == s.tree.tp && |s'.tree.nodes| == |s.tree.nodes|
    && Leaf(s, c) < |s.tree.nodes|
    && s'.tree.nodes[Leaf(s, c)].gpnum == s.tree.nodes[Leaf(s, c)].gpnum
    && s'.tree.nodes[Leaf(s, c)].completed == s.tree.nodes[Leaf(s, c)].completed
    && s'.tree.nodes[Leaf(s, c)].qsmask <= s.tree.nodes[Leaf(s, c)].qsmask
    && s'.cpus[c].gpnum == s.cpus[c].gpnum && s'.cpus[c].completed == s.cpus[c].completed
    && s'.cpus[c].qsPending == s.cpus[c].qsPending
  }

  lemma {:induction false} HopShrinks(t: T.Tree, n: nat, mask: set<nat>, w: nat, m: nat)
    requires n < |t.nodes| && m < |t.nodes|
    ensures var t' := T.Hop(t, n, mask, w);
      && t'.tp == t.tp && |t'.nodes| == |t.nodes| && t'.nodes[m].gpnum == t.nodes[m].gpnum
      && t'.kt == t.kt && t'.gpnum == t.gpnum
      && t'.nodes[m].completed == t.nodes[m].completed && t'.nodes[m].qsmaskinit == t.nodes[m].qsmaskinit
      && t'.nodes[m].qsmask == if m == n then t.nodes[m].qsmask - mask else t.nodes[m].qsmask
  {
    var q := t.nodes[n].qsmask;
    if q * mask == {} {
      forall x | x in q ensures x in q - mask { assert x in mask ==> x in q * mask; }
      assert q - mask == q;
    }
  }

  lemma {:induction false} ScanKnows(s: State, w: nat, o: bool, c: nat)
    requires Shaped(s) && CanScan(s, w) && c < |s.cpus|
    ensures NothingNew(s, FqsLeaf(s, w, o), c)
  {
    var n := s.fqs.next;
    if T.IsLeaf(s.tree.tp, n) { HopShrinks(s.tree, n, CreditMask(s, n, o), w, Leaf(s, c)); }
    hide T.Hop, CreditMask, T.IsLeaf;
  }

  lemma {:induction false} ReportKnows(s: State, k: nat, w: nat, u: bool, c: nat)
    requires Shaped(s) && IsRunning(s, k) && w !in s.tree.walks && c < |s.cpus| && KnowsGp(s, c)
    requires Shaped(AfterReportQs(s, k, w, u))
    ensures KnowsGp(AfterReportQs(s, k, w, u), c) && |AfterReportQs(s, k, w, u).cpus| == |s.cpus|
    ensures Onward(s.cpus[c], AfterReportQs(s, k, w, u).cpus[c])
  {
    HopShrinks(s.tree, Leaf(s, k), {k}, w, Leaf(s, c));
    hide T.Hop, AccelerateCbs, T.Shape;
  }

  lemma {:induction false} OnlineHopKnows(s: State, c: nat)
    requires Inv(s) && T.CanOnlineHop(s.tree) && s.tree.hp.cpu < |s.cpus| && c < |s.cpus| && KnowsGp(s, c)
    requires Shaped(AfterCpuPrepareHop(s))
    ensures KnowsGp(AfterCpuPrepareHop(s), c) && |AfterCpuPrepareHop(s).cpus| == |s.cpus|
    ensures c != s.tree.hp.cpu ==> Onward(s.cpus[c], AfterCpuPrepareHop(s).cpus[c])
  {
    AwaitedIsActive(s, Leaf(s, c));
    hide Inv;
  }

  lemma {:induction false} KthreadKnows(s: State, a: Step, c: nat)
    requires Inv(s) && Can(s, a) && Shaped(Effect(s, a)) && OnKthread(a) && c < |s.cpus| && KnowsGp(s, c)
    ensures KnowsGp(Effect(s, a), c) && |Effect(s, a).cpus| == |s.cpus| && Onward(s.cpus[c], Effect(s, a).cpus[c])
  {
    assert Shaped(s);
    hide Inv, AfterKthreadInit, AfterKthreadCleanup, FqsLeaf, AdvanceCbs, T.Shape;
    match a
    case KthreadInit(k, u) => InitKnows(s, k, u, c);
    case KthreadCleanup(k, u) => CleanupKnows(s, k, u, c);
    case KthreadFqs(w, o) => ScanKnows(s, w, o, c);
    case _ =>
  }

  /** The steps that may change what a CPU knows of the grace period, or what its leaf waits for. */
  predicate Matters(a: Step) { a.NoteGp? || a.GpEndNoticed? || a.ReportQs? || a.CpuPrepareHop? || a.WalkUp? }

  lemma {:induction false} PlainKnows(s: State, a: Step, c: nat)
    requires Shaped(s) && Can(s, a) && !OnKthread(a) && !Matters(a) && c < |s.cpus|
    ensures NothingNew(s, Effect(s, a), c)
  {
    assert Leaf(s, c) < |s.tree.nodes| by { assert T.ValidTopology(s.tree.tp); }
    hide AdvanceCbs, L.Adopt, T.Shape;
  }

  /** CPU `c` is being brought up in state `s`: its numbers start over from its leaf's. */
  predicate BroughtUp(s: State, a: Step, c: nat) { a.CpuPrepareHop? && s.tree.hp.Online? && s.tree.hp.cpu == c }

  lemma {:induction false} OtherKnows(s: State, a: Step, c: nat)
    requires Inv(s) && Can(s, a) && Shaped(Effect(s, a)) && Matters(a) && c < |s.cpus| && KnowsGp(s, c)
    ensures KnowsGp(Effect(s, a), c) && |Effect(s, a).cpus| == |s.cpus|
    ensures !BroughtUp(s, a, c) ==> Onward(s.cpus[c], Effect(s, a).cpus[c])
  {
    assert Shaped(s);
    AwaitedIsActive(s, Leaf(s, c));
    hide Inv, AfterReportQs, AfterCpuPrepareHop, ProcessGpEnd, NoteNewGpnum, T.Shape, T.Hop;
    match a
    case NoteGp(k) => if k == c { Notes(s.tree, Leaf(s, c), c, s.cpus[c], false); }
    case GpEndNoticed(k, u) => if k == c { Notes(s.tree, Leaf(s, c), c, s.cpus[c], u); }
    case ReportQs(k, w, u) => ReportKnows(s, k, w, u, c);
    case CpuPrepareHop => OnlineHopKnows(s, c);
    case WalkUp(w) =>
      var child := s.tree.walks[w];
      HopShrinks(s.tree.(walks := s.tree.walks - {w}), s.tree.tp.parent[child], {child}, w, Leaf(s, c));
  }

  lemma {:induction false} StepKnows(s: State, a: Step, c: nat)
    requires Inv(s) && Can(s, a) && c < |s.cpus| && KnowsGp(s, c)
    ensures var s' := After(s, a);
      && Shaped(s') && |s'.cpus| == |s.cpus| && KnowsGp(s', c)
      && (!BroughtUp(s, a, c) ==> Onward(s.cpus[c], s'.cpus[c]))
  {
    StepKeeps(s, a);
    assert Shaped(s) && Shaped(After(s, a));
    hide Inv, Can, Effect, KnowsGp, NothingNew;
    assert Shaped(Effect(s, a));
    if OnKthread(a) {
      KthreadKnows(s, a, c);
    } else if Matters(a) {
      OtherKnows(s, a, c);
    } else {
      PlainKnows(s, a, c);
      NothingNewKnows(s, Effect(s, a), c);
    }
    SameKnows(Effect(s, a), After(s, a), c);
  }

  lemma {:induction false} NothingNewKnows(s: State, s': State, c: nat)
    requires Shaped(s) && Shaped(s') && c < |s.cpus| && KnowsGp(s, c) && NothingNew(s, s', c)
    ensures KnowsGp(s', c) && |s'.cpus| == |s.cpus| && Onward(s.cpus[c], s'.cpus[c])
  {
  }

  lemma {:induction false} SameKnows(s: State, s': State, c: nat)
    requires Shaped(s) && Shaped(s') && c < |s.cpus| && KnowsGp(s, c) && s' == s.(now := s'.now)
    ensures KnowsGp(s', c)
  {
  }

  lemma {:induction false} NextKnows(s: State, s': State, c: nat)
    requires Inv(s) && Next(s, s') && Inv(s') && c < |s.cpus| == |s'.cpus| && KnowsGp(s, c)
    ensures KnowsGp(s', c)
  {
    hide Inv, Can, After, KnowsGp;
    var a :| Can(s, a) && s' == After(s, a);
    StepKnows(s, a, c);
  }

  /** In every run a CPU's numbers are not ahead of its leaf's, and whoever is awaited and has noticed the grace period
      looks for a quiescent state. */
  lemma {:induction false} CpuKnowsGp(run: seq<State>, c: nat)
    requires IsRun(run) && c < |run[|run| - 1].cpus|
    ensures Inv(run[|run| - 1]) && KnowsGp(run[|run| - 1], c)
  {
    RunKeeps(run);
    if |run| > 1 {
      var r, s := run[|run| - 2], run[|run| - 1];
      RunKeeps(run[..|run| - 1]);
      NextCount(r, s);
      hide Inv, Next;
      CpuKnowsGp(run[..|run| - 1], c);
      NextKnows(r, s, c);
    }
  }

  /** They never go back, but for a CPU that is being brought up; and rcu_process_gp_end and note_new_gpnum bring them
      up to the leaf's. */
  lemma {:induction false} NumbersOnlyGrow(run: seq<State>, a: Step, c: nat)
    requires IsRun(run) && c < |run[|run| - 1].cpus| && Shaped(run[|run| - 1]) && Can(run[|run| - 1], a)
    ensures var s, s' := run[|run| - 1], After(run[|run| - 1], a);
      && |s'.cpus| == |s.cpus|
      && (!BroughtUp(s, a, c) ==> Onward(s.cpus[c], s'.cpus[c]))
      && (a.GpEndNoticed? && a.cpu == c ==> s'.cpus[c].completed == s.tree.nodes[Leaf(s, c)].completed)
      && (a == NoteGp(c) ==> s'.cpus[c].gpnum == s.tree.nodes[Leaf(s, c)].gpnum)
  {
    var s := run[|run| - 1];
    CpuKnowsGp(run, c);
    hide IsRun;
    AwaitedIsActive(s, Leaf(s, c));
    StepKnows(s, a, c);
    hide Inv, T.Shape, ProcessGpEnd, NoteNewGpnum;
    if a.GpEndNoticed? && a.cpu == c { Notes(s.tree, Leaf(s, c), c, s.cpus[c], a.unrecorded); }
    if a == NoteGp(c) { Notes(s.tree, Leaf(s, c), c, s.cpus[c], false); }
  }

  /** The CPU that the kthread runs on notices the beginning and the end at its own leaf at once. */
  lemma {:induction false} KthreadNotices(s: State, c: nat, u: bool)
    requires Inv(s) && IsRunning(s, c) && KnowsGp(s, c)
    ensures T.CanInitNode(s.tree) && s.tree.kt.next == Leaf(s, c) ==>
      var s' := AfterKthreadInit(s, c, u); c < |s'.cpus| && s'.cpus[c].gpnum == s.tree.gpnum
    ensures T.CanCleanupNode(s.tree) && s.tree.kt.next == Leaf(s, c) ==>
      var s' := AfterKthreadCleanup(s, c, u); c < |s'.cpus| && s'.cpus[c].completed == s.tree.gpnum
  {
    var n := Leaf(s, c);
    assert T.MaskAt(s.tree, n) && T.NumbersAt(s.tree, n);
    assert Shaped(s) && T.Shape(s.tree);
    hide Inv;
    if T.CanInitNode(s.tree) && s.tree.kt.next == n { Notes(T.InitNode(s.tree), n, c, s.cpus[c], u); }
    if T.CanCleanupNode(s.tree) && s.tree.kt.next == n { Notes(T.CleanupNode(s.tree), n, c, s.cpus[c], u); }
    hide ProcessGpEnd, NoteNewGpnum;
  }

  /** A CPU that is brought up is not taken for idle, has an empty list, and is not asked for a quiescent state of a
      grace period that began without it. */
  lemma {:induction false} BroughtUpAfresh(s: State, c: nat)
    requires Inv(s) && c < |s.cpus|
    ensures Can(s, CpuPrepare(c)) ==>
      var cpu := AfterCpuPrepare(s, c).cpus[c];
      cpu.dynticks % 2 == 1 && s.cpus[c].dynticks <= cpu.dynticks && cpu.cbs.enabled && cpu.cbs.cbs == []
    ensures Can(s, CpuPrepareHop) && s.tree.hp.cpu == c && s.tree.hp.at == Leaf(s, c) ==>
      var s' := AfterCpuPrepareHop(s);
      && c < |s'.cpus| && !s'.cpus[c].qsPending && !s'.cpus[c].passedQs
      && s'.cpus[c].gpnum == s'.cpus[c].completed == s.tree.nodes[Leaf(s, c)].completed
      && c in s'.tree.nodes[Leaf(s, c)].qsmaskinit
  {
    assert Shaped(s);
    hide Inv, T.Shape;
  }

  lemma {:induction false} NextCount(s: State, s': State)
    requires Inv(s) && Next(s, s')
    ensures |s'.cpus| == |s.cpus|
  {
    hide Inv;
    var a :| Can(s, a) && s' == After(s, a);
    KeepsCount(s, a);
  }

  lemma {:induction false} KeepsCount(s: State, a: Step)
    requires Inv(s) && Can(s, a)
    ensures |After(s, a).cpus| == |s.cpus|
  {
    assert Shaped(s);
    StepKeeps(s, a);
    hide Inv, T.Shape;
  }

  // ----- whoever is awaited can report itself -----

  /** Only CPU `c` has moved, within the same grace period. */
  ghost predicate Alone(s: State, s': State, c: nat) {
    && |s'.cpus| == |s.cpus| && SameGp(s, s') && s'.tree.tp == s.tree.tp
    && forall d :: 0 <= d < |s.cpus| && d != c ==> s'.cpus[d] == s.cpus[d]
  }

  /** CPU `c` has noticed the grace period, and is not in a read-side section. */
  lemma {:induction false} NoticeStep(s: State, c: nat)
    requires Inv(s) && IsRunning(s, c) && KnowsGp(s, c) && c in s.tree.nodes[Leaf(s, c)].qsmask
    ensures var s' := After(s, NoteGp(c));
      && Can(s, NoteGp(c)) && Inv(s') && IsRunning(s', c) && Alone(s, s', c) && s'.tree == s.tree
      && s'.cpus[c].gpnum == s.tree.nodes[Leaf(s, c)].gpnum && s'.cpus[c].qsPending
      && s'.cpus[c].reader == s.cpus[c].reader
  {
    assert Shaped(s);
    StepKeeps(s, NoteGp(c));
    hide Inv, T.Shape;
  }

  lemma {:induction false} UnlockStep(s: State, c: nat)
    requires Inv(s) && IsRunning(s, c) && s.cpus[c].reader.Some?
    ensures var s' := After(s, ReadUnlock(c));
      && Shaped(s) && Can(s, ReadUnlock(c)) && Inv(s') && IsRunning(s', c) && Alone(s, s', c) && s'.tree == s.tree
      && s'.cpus[c] == s.cpus[c].(reader := None)
  {
    assert Shaped(s);
    StepKeeps(s, ReadUnlock(c));
    hide Inv, T.Shape;
  }

  lemma {:induction false} PassStep(s: State, c: nat)
    requires Inv(s) && IsRunning(s, c) && s.cpus[c].reader.None?
    ensures var s' := After(s, SchedQs(c));
      && Shaped(s) && Can(s, SchedQs(c)) && Inv(s') && IsRunning(s', c) && Alone(s, s', c) && s'.tree == s.tree
      && s'.cpus[c] == s.cpus[c].(passedQs := true)
  {
    assert Shaped(s);
    StepKeeps(s, SchedQs(c));
    hide Inv, T.Shape;
  }

  lemma {:induction false} ReportStep(s: State, c: nat, w: nat)
    requires Inv(s) && IsRunning(s, c) && s.cpus[c].passedQs && s.cpus[c].qsPending && w !in s.tree.walks
    requires var leaf := s.tree.nodes[Leaf(s, c)]; s.cpus[c].gpnum == leaf.gpnum && c in leaf.qsmask
    ensures var s' := After(s, ReportQs(c, w, false));
      && Shaped(s) && Can(s, ReportQs(c, w, false)) && Shaped(s') && Alone(s, s', c)
      && c !in s'.tree.nodes[Leaf(s, c)].qsmask
  {
    assert Shaped(s);
    AwaitedIsActive(s, Leaf(s, c));
    HopShrinks(s.tree, Leaf(s, c), {c}, w, Leaf(s, c));
    StepKeeps(s, ReportQs(c, w, false));
    hide AccelerateCbs;
  }

  lemma {:induction false} ReportOwn(s: State, c: nat) returns (path: seq<State>, s': State)
    requires Inv(s) && IsRunning(s, c) && KnowsGp(s, c) && c in s.tree.nodes[Leaf(s, c)].qsmask
    ensures Leads(s, path, s') && Alone(s, s', c) && Shaped(s') && c !in s'.tree.nodes[Leaf(s, c)].qsmask
  {
    NoticeStep(s, c);
    var s1 := After(s, NoteGp(c));
    hide Inv, After, Can, Leads, T.Shape;
    var s2 := s1;
    if s1.cpus[c].reader.Some? {
      UnlockStep(s1, c);
      s2 := After(s1, ReadUnlock(c));
    }
    PassStep(s2, c);
    var s3 := After(s2, SchedQs(c));
    var w := T.FreshWalker(s3.tree.walks.Keys);
    ReportStep(s3, c, w);
    s' := After(s3, ReportQs(c, w, false));
    path := Stay(s');
    path := StepFirst(s3, ReportQs(c, w, false), path, s');
    path := StepFirst(s2, SchedQs(c), path, s');
    if s1.cpus[c].reader.Some? { path := StepFirst(s1, ReadUnlock(c), path, s'); }
    path := StepFirst(s, NoteGp(c), path, s');
  }

  /** Every running CPU that its leaf waits for can, in every reachable state, take itself off by steps of its own,
      within the grace period: notice it, leave its read-side section, pass through a quiescent state, report. */
  lemma {:induction false} AwaitedCanReport(run: seq<State>, c: nat) returns (run': seq<State>)
    requires IsRun(run) && IsRunning(run[|run| - 1], c) && Shaped(run[|run| - 1])
    requires var s := run[|run| - 1]; c in s.tree.nodes[Leaf(s, c)].qsmask
    ensures IsRun(run') && run <= run' && Shaped(run'[|run'| - 1])
    ensures var s, s' := run[|run| - 1], run'[|run'| - 1];
      Alone(s, s', c) && c !in s'.tree.nodes[Leaf(s', c)].qsmask
  {
    CpuKnowsGp(run, c);
    hide Inv, Leads, IsRun;
    var path, s' := ReportOwn(run[|run| - 1], c);
    run' := Prolong(run, path, s');
  }

  /** A running CPU that is in no read-side section can always enter one, once it has left its idle loop. */
  lemma {:induction false} CanAlwaysRead(s: State, c: nat)
    requires Inv(s) && IsRunning(s, c) && s.cpus[c].reader.None?
    ensures s.cpus[c].dynticks % 2 == 1 ==> Can(s, ReadLock(c))
    ensures s.cpus[c].dynticks % 2 == 0 ==>
      Can(s, EqsExit(c)) && var s' := After(s, EqsExit(c)); Shaped(s') && Can(s', ReadLock(c))
  {
    assert Shaped(s);
    hide Inv;
  }

  // ----- whoever has been idle is reported -----

  /** Since the snapshot `snap` of CPU `c` in grace period `g`, that grace period has not taken another one. */
  ghost predicate Snapped(s: State, c: nat, g: nat, snap: nat)
    requires Shaped(s) && c < |s.cpus|
  {
    && g <= s.tree.gpnum
    && (s.tree.gpnum == g ==>
          && s.cpus[c].snap == snap && !s.tree.kt.Starting? && !s.tree.kt.Init?
          && (s.tree.kt.Waiting? ==> s.fqs.force || Leaf(s, c) < s.fqs.next))
  }

  /** A scan takes new snapshots of the CPUs of its leaf only, and not in the force round. */
  lemma {:induction false} ScanSnapped(s: State, w: nat, o: bool, c: nat)
    requires Inv(s) && CanScan(s, w) && c < |s.cpus|
    ensures var s' := FqsLeaf(s, w, o);
      && |s'.cpus| == |s.cpus| && s'.tree.kt == s.tree.kt && s'.tree.gpnum == s.tree.gpnum && s'.tree.tp == s.tree.tp
      && s'.fqs == Fqs(s.fqs.force, s.fqs.next + 1) && s'.cpus[c].dynticks == s.cpus[c].dynticks
      && (s.fqs.force || s.fqs.next != Leaf(s, c) ==> s'.cpus[c].snap == s.cpus[c].snap)
      && (c in s.tree.nodes[s.fqs.next].qsmask && !s.fqs.force && T.IsLeaf(s.tree.tp, s.fqs.next) ==>
            s'.cpus[c].snap == s.cpus[c].dynticks)
  {
    var n := s.fqs.next;
    assert T.BitsAt(s.tree, n);
    if T.IsLeaf(s.tree.tp, n) {
      assert c in s.tree.nodes[n].qsmask ==> T.IsBit(s.tree.tp, n, c);
      HopShrinks(s.tree, n, CreditMask(s, n, o), w, n);
    }
    hide Inv, T.Hop, CreditMask, T.IsLeaf;
  }

  lemma {:induction false} KthreadSnapped(s: State, a: Step, c: nat, g: nat, snap: nat)
    requires Inv(s) && Can(s, a) && Shaped(Effect(s, a)) && OnKthread(a) && c < |s.cpus| && Snapped(s, c, g, snap)
    ensures |Effect(s, a).cpus| == |s.cpus| && Snapped(Effect(s, a), c, g, snap)
    ensures Effect(s, a).cpus[c].dynticks == s.cpus[c].dynticks
  {
    assert Shaped(s);
    if a.KthreadFqs? { ScanSnapped(s, a.walker, a.oldEnough, c); }
    hide Inv, T.Shape, AdvanceCbs, AccelerateCbs, FqsLeaf;
  }

  lemma {:induction false} ReportSnapped(s: State, k: nat, w: nat, u: bool, c: nat)
    requires Shaped(s) && IsRunning(s, k) && w !in s.tree.walks && c < |s.cpus|
    ensures var s' := AfterReportQs(s, k, w, u);
      && |s'.cpus| == |s.cpus| && s'.tree.kt == s.tree.kt && s'.tree.gpnum == s.tree.gpnum && s'.tree.tp == s.tree.tp
      && s'.fqs == s.fqs && s'.cpus[c].dynticks == s.cpus[c].dynticks && s'.cpus[c].snap == s.cpus[c].snap
  {
    HopShrinks(s.tree, Leaf(s, k), {k}, w, Leaf(s, k));
    hide T.Hop, AccelerateCbs, T.Shape;
  }

  /** The steps that report to the tree. */
  lemma {:induction false} WalkSnapped(s: State, a: Step, c: nat)
    requires Shaped(s) && Can(s, a) && (a.ReportQs? || a.WalkUp?) && c < |s.cpus|
    ensures var s' := Effect(s, a);
      && |s'.cpus| == |s.cpus| && s'.tree.kt == s.tree.kt && s'.tree.gpnum == s.tree.gpnum && s'.tree.tp == s.tree.tp
      && s'.fqs == s.fqs && s'.cpus[c].dynticks == s.cpus[c].dynticks && s'.cpus[c].snap == s.cpus[c].snap
  {
    if a.ReportQs? {
      ReportSnapped(s, a.cpu, a.walker, a.unrecorded, c);
    } else {
      var child := s.tree.walks[a.walker];
      var n := s.tree.tp.parent[child];
      HopShrinks(s.tree.(walks := s.tree.walks - {a.walker}), n, {child}, a.walker, n);
    }
    hide T.Shape, AfterReportQs, T.Hop;
  }

  lemma {:induction false} OtherSnapped(s: State, a: Step, c: nat, g: nat, snap: nat)
    requires Inv(s) && Can(s, a) && Shaped(Effect(s, a)) && !OnKthread(a) && c < |s.cpus| && Snapped(s, c, g, snap)
    ensures |Effect(s, a).cpus| == |s.cpus| && Snapped(Effect(s, a), c, g, snap)
    ensures s.cpus[c].dynticks <= Effect(s, a).cpus[c].dynticks
  {
    assert Shaped(s);
    if a.ReportQs? || a.WalkUp? {
      WalkSnapped(s, a, c);
      hide Inv, T.Shape, Effect, Can;
    } else {
      PlainSnapped(s, a, c);
      hide Inv, T.Shape, Effect, Can;
    }
  }

  lemma {:induction false} PlainSnapped(s: State, a: Step, c: nat)
    requires Shaped(s) && Can(s, a) && !OnKthread(a) && !a.ReportQs? && !a.WalkUp? && c < |s.cpus|
    ensures var s' := Effect(s, a);
      && |s'.cpus| == |s.cpus| && s'.tree.kt == s.tree.kt && s'.tree.gpnum == s.tree.gpnum && s'.tree.tp == s.tree.tp
      && s'.fqs == s.fqs && s.cpus[c].dynticks <= s'.cpus[c].dynticks && s'.cpus[c].snap == s.cpus[c].snap
  {
    hide T.Shape, AdvanceCbs, AccelerateCbs, L.Adopt;
  }

  lemma {:induction false} StepSnapped(s: State, s': State, c: nat, g: nat, snap: nat)
    requires Inv(s) && Next(s, s') && c < |s.cpus| && Snapped(s, c, g, snap)
    ensures Shaped(s') && |s'.cpus| == |s.cpus| && Snapped(s', c, g, snap)
    ensures s.cpus[c].dynticks <= s'.cpus[c].dynticks
  {
    NextKeeps(s, s');
    assert Shaped(s');
    hide Inv, Can, Effect;
    var a :| Can(s, a) && s' == After(s, a);
    assert Shaped(Effect(s, a));
    if OnKthread(a) { KthreadSnapped(s, a, c, g, snap); } else { OtherSnapped(s, a, c, g, snap); }
  }

  lemma {:induction false} SnapshotStays(run: seq<State>, i: nat, c: nat, g: nat, snap: nat)
    requires IsRun(run) && i < |run| && Shaped(run[i]) && c < |run[i].cpus| && Snapped(run[i], c, g, snap)
    ensures var s := run[|run| - 1];
      && Shaped(s) && |s.cpus| == |run[i].cpus| && Snapped(s, c, g, snap)
      && run[i].cpus[c].dynticks <= s.cpus[c].dynticks
  {
    if i < |run| - 1 {
      hide Inv, Next, Snapped;
      SnapshotStays(run[..|run| - 1], i, c, g, snap);
      RunKeeps(run[..|run| - 1]);
      StepSnapped(run[|run| - 2], run[|run| - 1], c, g, snap);
    }
  }

  lemma {:induction false} StaysAt(run: seq<State>, i: nat, j: nat, c: nat, g: nat, snap: nat)
    requires IsRun(run) && i <= j < |run| && Shaped(run[i]) && c < |run[i].cpus| && Snapped(run[i], c, g, snap)
    ensures Shaped(run[j]) && |run[j].cpus| == |run[i].cpus| && Snapped(run[j], c, g, snap)
    ensures run[i].cpus[c].dynticks <= run[j].cpus[c].dynticks
  {
    hide IsRun, Shaped, Snapped;
    PrefixIsRun(run, j);
    assert run[..j + 1][i] == run[i] && run[..j + 1][j] == run[j];
    SnapshotStays(run[..j + 1], i, c, g, snap);
  }

  lemma {:induction false} InvAt(run: seq<State>, i: nat)
    requires IsRun(run) && i < |run|
    ensures Inv(run[i])
  {
    PrefixIsRun(run, i);
    RunKeeps(run[..i + 1]);
  }

  /** A scan of its leaf takes exactly the credited CPUs off. */
  lemma {:induction false} ScanClears(s: State, w: nat, o: bool, c: nat)
    requires Inv(s) && CanScan(s, w) && c < |s.cpus| && s.fqs.next == Leaf(s, c)
    ensures |FqsLeaf(s, w, o).tree.nodes| == |s.tree.nodes|
    ensures c in FqsLeaf(s, w, o).tree.nodes[Leaf(s, c)].qsmask <==>
      c in s.tree.nodes[Leaf(s, c)].qsmask && !Credited(s.cpus[c], s.fqs.force, o)
  {
    var n := Leaf(s, c);
    assert T.ValidTopology(s.tree.tp) && T.IsLeaf(s.tree.tp, n);
    HopShrinks(s.tree, n, CreditMask(s, n, o), w, n);
    hide Inv, T.Hop, T.IsLeaf;
  }

  /** The snapshot round scans the leaf of CPU `c` in state `s`. */
  ghost predicate TakesSnapshot(s: State, s': State, v: nat, o: bool, c: nat) {
    && Shaped(s) && Can(s, KthreadFqs(v, o)) && s' == After(s, KthreadFqs(v, o))
    && c < |s.cpus| && !s.fqs.force && s.fqs.next == Leaf(s, c)
  }

  /** And still waits for it afterwards. */
  ghost predicate AwaitedAfterSnapshot(s: State, s': State, v: nat, o: bool, c: nat) {
    TakesSnapshot(s, s', v, o, c) && Shaped(s') && c in s'.tree.nodes[Leaf(s', c)].qsmask
  }

  /** Whoever its leaf still waits for after the snapshot was not idle then. */
  lemma {:induction false} SnapshotIsOdd(s: State, s': State, v: nat, o: bool, c: nat)
    requires Inv(s) && AwaitedAfterSnapshot(s, s', v, o, c)
    ensures c < |s.cpus| && Shaped(s')
    ensures s.cpus[c].dynticks % 2 == 1 && |s'.cpus| == |s.cpus| && s.cpus[c].dynticks == s'.cpus[c].dynticks
    ensures Snapped(s', c, s.tree.gpnum, s.cpus[c].dynticks)
  {
    assert s' == Tick(FqsLeaf(s, v, o));
    ScanSnapped(s, v, o, c);
    ScanClears(s, v, o, c);
    assert T.IsLeaf(s.tree.tp, s.fqs.next) by { assert T.ValidTopology(s.tree.tp); }
    hide Inv, FqsLeaf, T.IsLeaf;
  }

  /** A CPU that its leaf still waits for after the snapshot at state `i`, and that is in an extended quiescent state at
      some state `k` after it, is taken off by the next force round of the same grace period, whatever the CPU does
      after `k`. */
  lemma {:induction false} IdleIsReported(run: seq<State>, i: nat, v: nat, o0: bool, k: nat, c: nat, w: nat, o: bool)
    requires IsRun(run) && i + 1 <= k < |run| && AwaitedAfterSnapshot(run[i], run[i + 1], v, o0, c)
    requires c < |run[k].cpus| && run[k].cpus[c].dynticks % 2 == 0
    requires var s := run[|run| - 1];
      && Shaped(s) && Can(s, KthreadFqs(w, o)) && c < |s.cpus|
      && s.fqs.force && s.fqs.next == Leaf(s, c) && s.tree.gpnum == run[i].tree.gpnum
    ensures var s := run[|run| - 1];
      Leaf(s, c) < |After(s, KthreadFqs(w, o)).tree.nodes|
      && c !in After(s, KthreadFqs(w, o)).tree.nodes[Leaf(s, c)].qsmask
  {
    IdleIsCredited(run, i, v, o0, k, c, o);
    RunKeeps(run);
    ScanClears(run[|run| - 1], w, o, c);
    hide IsRun, Inv, T.Shape, FqsLeaf, T.IsLeaf;
  }

  lemma {:induction false} IdleIsCredited(run: seq<State>, i: nat, v: nat, o0: bool, k: nat, c: nat, o: bool)
    requires IsRun(run) && i + 1 <= k < |run| && AwaitedAfterSnapshot(run[i], run[i + 1], v, o0, c)
    requires c < |run[k].cpus| && run[k].cpus[c].dynticks % 2 == 0
    requires c < |run[|run| - 1].cpus| && run[|run| - 1].tree.gpnum == run[i].tree.gpnum
    ensures Credited(run[|run| - 1].cpus[c], true, o)
  {
    hide IsRun, Inv, AwaitedAfterSnapshot, Shaped, Snapped, Credited;
    InvAt(run, i);
    SnapshotIsOdd(run[i], run[i + 1], v, o0, c);
    var g, snap := run[i].tree.gpnum, run[i].cpus[c].dynticks;
    StaysAt(run, i + 1, k, c, g, snap);
    SnapshotStays(run, k, c, g, snap);
    PassedThrough(run[|run| - 1], c, snap, run[k].cpus[c].dynticks, o);
  }

  /** From an odd snapshot through an even count. */
  lemma {:induction false} PassedThrough(s: State, c: nat, snap: nat, even: nat, o: bool)
    requires Shaped(s) && c < |s.cpus| && Snapped(s, c, s.tree.gpnum, snap)
    requires snap % 2 == 1 && even % 2 == 0 && snap <= even <= s.cpus[c].dynticks
    ensures Credited(s.cpus[c], true, o)
  {
  }
}
