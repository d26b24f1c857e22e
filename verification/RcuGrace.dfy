/**
Grace periods of one non-preemptible RCU flavour: the combining tree of
RcuTree together with every CPU's rcu_data, dynticks counter and callback
list, and with the read-side sections that the grace periods wait for.

`now` counts the steps of the run.  A read-side section is known by the time
it started and a callback carries the time `born` at which it was registered;
these, `began` (when the current grace period was recorded in the root) and
`snapGp` (the grace period in which a dynticks snapshot was taken) are history
only: no step's effect on the kernel's own fields depends on them.
*/
module RcuGrace {
  import opened Common
  import opened RcuTree
  import L = CbList

  datatype Cb = Cb(id: nat, born: nat)

  /** A CPU is dead, known to RCU but not yet running, running, or stopped but not yet cleaned up. */
  datatype Phase = Dead | Prepared | Running | Stopped

  datatype Cpu = Cpu(phase: Phase, reader: Option<nat>,
                     dynticks: nat, snap: nat, snapGp: nat,
                     gpnum: nat, completed: nat, passedQs: bool, qsPending: bool,
                     cbs: L.Segs<Cb>, batch: seq<Cb>)

  /** The kthread's quiescent-state forcing: snapshot round or force round, and the next node to scan. */
  datatype Fqs = Fqs(force: bool, next: nat)

  datatype State = State(tree: Tree, cpus: seq<Cpu>, fqs: Fqs, now: nat, began: nat)

  // ----- callback numbers -----

  /** rcu_cbs_completed. */
  function CbsCompleted(t: Tree, n: nat): nat
    requires n < |t.nodes|
  {
    if n == 0 && t.nodes[n].gpnum == t.nodes[n].completed then t.nodes[n].completed + 1
    else t.nodes[n].completed + 2
  }

  /** The number that rcu_cbs_completed gives is that of the first grace period not yet begun at the root; elsewhere it
      is that of the first one not yet begun at the node, or of the one after if none is in progress there, since
      the root may have begun it already. */
  lemma {:induction false} CompletedIsNext(t: Tree, n: nat)
    requires RcuTree.Inv(t) && n < |t.nodes|
    ensures n == 0 ==> CbsCompleted(t, n) == t.nodes[n].gpnum + 1
    ensures n > 0 ==>
      CbsCompleted(t, n) == t.nodes[n].gpnum + if t.nodes[n].gpnum == t.nodes[n].completed then 2 else 1
  {
    assert NumbersAt(t, n);
  }

  /** rcu_accelerate_cbs.  `unrecorded` says that need_future_gp did not yet record the number, so that
      rcu_start_future_gp goes on to the root when this node sees no grace period in progress. */
  function AccelerateCbs(t: Tree, n: nat, l: L.Segs<Cb>, unrecorded: bool): L.Segs<Cb>
    requires n < |t.nodes|
  {
    var c := CbsCompleted(t, n);
    var l' := L.Accelerate(l, c);
    if L.Accelerates(l, c) && unrecorded && t.nodes[n].gpnum == t.nodes[n].completed
    then L.Lower(l', CbsCompleted(t, 0))
    else l'
  }

  /** rcu_advance_cbs. */
  function AdvanceCbs(t: Tree, n: nat, l: L.Segs<Cb>, unrecorded: bool): L.Segs<Cb>
    requires n < |t.nodes|
  {
    if L.NothingWaiting(l) then l
    else AccelerateCbs(t, n, L.Advance(l, t.nodes[n].completed), unrecorded)
  }

  /** __rcu_process_gp_end for CPU `c` at its leaf `n`. */
  function ProcessGpEnd(t: Tree, n: nat, c: nat, cpu: Cpu, unrecorded: bool): Cpu
    requires n < |t.nodes|
  {
    var node := t.nodes[n];
    if cpu.completed == node.completed then cpu.(cbs := AccelerateCbs(t, n, cpu.cbs, unrecorded))
    else
      var missed := cpu.gpnum < node.completed;
      cpu.(cbs := AdvanceCbs(t, n, cpu.cbs, unrecorded),
           completed := node.completed,
           gpnum := if missed then node.completed else cpu.gpnum,
           passedQs := if missed then false else cpu.passedQs,
           qsPending := c in node.qsmask && cpu.qsPending)
  }

  /** __note_new_gpnum for CPU `c` at its leaf `n`. */
  function NoteNewGpnum(t: Tree, n: nat, c: nat, cpu: Cpu): Cpu
    requires n < |t.nodes|
  {
    if cpu.gpnum == t.nodes[n].gpnum then cpu
    else cpu.(gpnum := t.nodes[n].gpnum, passedQs := false, qsPending := c in t.nodes[n].qsmask)
  }

  /** dyntick_save_progress_counter and rcu_implicit_dynticks_qs. */
  predicate Credited(cpu: Cpu, force: bool, oldEnough: bool) {
    || cpu.dynticks % 2 == 0
    || (force && cpu.dynticks >= cpu.snap + 2)
    || (force && oldEnough && !cpu.phase.Running?)
  }

  // ----- the steps -----

  datatype Step =
    | ReadLock(cpu: nat)
    | ReadUnlock(cpu: nat)
    | SchedQs(cpu: nat)
    | EqsEnter(cpu: nat)
    | EqsExit(cpu: nat)
    | CallRcu(cpu: nat, id: nat)
    | NoteGp(cpu: nat)
    | GpEndNoticed(cpu: nat, unrecorded: bool)
    | StartGp(cpu: nat, unrecorded: bool)
    | ReportQs(cpu: nat, walker: nat, unrecorded: bool)
    | WalkUp(walker: nat)
    | BatchBegin(cpu: nat)
    | Invoke(cpu: nat)
    | BatchEnd(cpu: nat)
    | KthreadStart
    | KthreadLock
    | KthreadInit(cpu: nat, unrecorded: bool)
    | KthreadInitDone
    | KthreadFqs(walker: nat, oldEnough: bool)
    | KthreadFqsDone
    | KthreadEnd
    | KthreadCleanup(cpu: nat, unrecorded: bool)
    | KthreadCleanupDone(cpu: nat, unrecorded: bool)
    | CpuPrepare(cpu: nat)
    | CpuPrepareHop
    | CpuBoot(cpu: nat)
    | CpuStop(cpu: nat)
    | CpuDead(cpu: nat, adopter: nat)
    | CpuDeadHop

  ghost predicate Shaped(s: State) { Shape(s.tree) && |s.cpus| == |s.tree.tp.leafOf| }

  predicate IsRunning(s: State, c: nat) { c < |s.cpus| && s.cpus[c].phase.Running? }

  function Leaf(s: State, c: nat): nat
    requires c < |s.tree.tp.leafOf|
  {
    s.tree.tp.leafOf[c]
  }

  /** The CPUs of leaf `n` that this round of forcing credits with a quiescent state. */
  ghost function CreditMask(s: State, n: nat, oldEnough: bool): set<nat>
    requires n < |s.tree.nodes|
  {
    set c | c in s.tree.nodes[n].qsmask && c < |s.cpus| && Credited(s.cpus[c], s.fqs.force, oldEnough)
  }

  predicate CanScan(s: State, w: nat) { s.tree.kt.Waiting? && s.fqs.next < |s.tree.nodes| && w !in s.tree.walks }

  /** CPU `c` may be taken down, and CPU `a` may adopt its callbacks. */
  ghost predicate CanDie(s: State, c: nat, a: nat)
    requires Shape(s.tree)
  {
    && c < |s.cpus| && (s.cpus[c].phase.Stopped? || s.cpus[c].phase.Prepared?)
    && IsRunning(s, a) && CanOffline(s.tree, c) && L.Valid(s.cpus[c].cbs) && L.Valid(s.cpus[a].cbs)
  }

  ghost predicate Can(s: State, a: Step)
    requires Shaped(s)
  {
    match a
    case ReadLock(c) => IsRunning(s, c) && s.cpus[c].reader.None? && s.cpus[c].dynticks % 2 == 1
    case ReadUnlock(c) => IsRunning(s, c) && s.cpus[c].reader.Some?
    case SchedQs(c) => IsRunning(s, c) && s.cpus[c].reader.None?
    case EqsEnter(c) => IsRunning(s, c) && s.cpus[c].reader.None? && s.cpus[c].dynticks % 2 == 1
    case EqsExit(c) => IsRunning(s, c) && s.cpus[c].dynticks % 2 == 0
    case CallRcu(c, id) => IsRunning(s, c)
    case NoteGp(c) => IsRunning(s, c)
    case GpEndNoticed(c, _) => IsRunning(s, c)
    case StartGp(c, _) => IsRunning(s, c)
    case ReportQs(c, w, _) => IsRunning(s, c) && s.cpus[c].qsPending && w !in s.tree.walks
    case WalkUp(w) => CanWalk(s.tree, w)
    case BatchBegin(c) => IsRunning(s, c) && s.cpus[c].batch == [] && L.Valid(s.cpus[c].cbs)
    case Invoke(c) => IsRunning(s, c) && s.cpus[c].batch != []
    case BatchEnd(c) => IsRunning(s, c) && s.cpus[c].batch != []
    case KthreadStart => CanGpStart(s.tree)
    case KthreadLock => CanLockOnoff(s.tree)
    case KthreadInit(c, _) => CanInitNode(s.tree) && IsRunning(s, c)
    case KthreadInitDone => CanInitDone(s.tree)
    case KthreadFqs(w, _) => CanScan(s, w)
    case KthreadFqsDone => s.tree.kt.Waiting? && s.fqs.next == |s.tree.nodes|
    case KthreadEnd => CanGpEnd(s.tree) && s.fqs.next == 0
    case KthreadCleanup(c, _) => CanCleanupNode(s.tree) && IsRunning(s, c)
    case KthreadCleanupDone(c, _) => CanCleanupDone(s.tree) && IsRunning(s, c)
    case CpuPrepare(c) => c < |s.cpus| && s.cpus[c].phase.Dead? && CanOnline(s.tree, c)
    case CpuPrepareHop => CanOnlineHop(s.tree) && s.tree.hp.cpu < |s.cpus|
    case CpuBoot(c) => c < |s.cpus| && s.cpus[c].phase.Prepared?
    case CpuStop(c) => IsRunning(s, c) && s.cpus[c].reader.None? && s.cpus[c].batch == []
    case CpuDead(c, a) => CanDie(s, c, a)
    case CpuDeadHop => CanOfflineHop(s.tree)
  }

  function SetCpu(s: State, c: nat, cpu: Cpu): State
    requires c < |s.cpus|
  {
    s.(cpus := s.cpus[c := cpu])
  }

  /** The first round saves the dynticks counters of the CPUs that leaf `n` waits for. */
  function Snapshots(s: State, n: nat): (cpus: seq<Cpu>)
    requires n < |s.tree.nodes|
    ensures |cpus| == |s.cpus|
    ensures forall c :: 0 <= c < |cpus| ==> cpus[c] == s.cpus[c].(snap := cpus[c].snap, snapGp := cpus[c].snapGp)
  {
    seq(|s.cpus|, c requires 0 <= c < |s.cpus| =>
      if c in s.tree.nodes[n].qsmask && !s.fqs.force
      then s.cpus[c].(snap := s.cpus[c].dynticks, snapGp := s.tree.gpnum)
      else s.cpus[c])
  }

  function Scanned(s: State): State
    requires s.fqs.next < |s.tree.nodes|
  {
    s.(cpus := Snapshots(s, s.fqs.next), fqs := s.fqs.(next := s.fqs.next + 1))
  }

  /** One leaf of force_qs_rnp. */
  ghost function FqsLeaf(s: State, w: nat, oldEnough: bool): State
    requires Shaped(s) && CanScan(s, w)
  {
    var n := s.fqs.next;
    if !IsLeaf(s.tree.tp, n) then s.(fqs := s.fqs.(next := n + 1))
    else
      var mask := CreditMask(s, n, oldEnough);
      if mask == {} then Scanned(s) else Scanned(s).(tree := Report(s.tree, n, mask, w))
  }

  ghost function AfterReportQs(s: State, c: nat, w: nat, u: bool): State
    requires Shaped(s) && IsRunning(s, c) && w !in s.tree.walks
  {
    var cpu, n := s.cpus[c], Leaf(s, c);
    var node := s.tree.nodes[n];
    if !cpu.passedQs || cpu.gpnum != node.gpnum || node.completed == node.gpnum then
      SetCpu(s, c, cpu.(passedQs := false))
    else if c !in node.qsmask then s
    else SetCpu(s, c, cpu.(qsPending := false, cbs := AccelerateCbs(s.tree, n, cpu.cbs, u)))
           .(tree := Report(s.tree, n, {c}, w))
  }

  /** One node of rcu_gp_init; the kthread runs on CPU `c`. */
  ghost function AfterKthreadInit(s: State, c: nat, u: bool): State
    requires Shaped(s) && CanInitNode(s.tree) && IsRunning(s, c)
  {
    var n, t := s.tree.kt.next, InitNode(s.tree);
    var s' := s.(tree := t, began := if n == 0 then s.now else s.began);
    if Leaf(s, c) == n then SetCpu(s', c, NoteNewGpnum(t, n, c, ProcessGpEnd(t, n, c, s.cpus[c], u))) else s'
  }

  /** One node of rcu_gp_cleanup. */
  ghost function AfterKthreadCleanup(s: State, c: nat, u: bool): State
    requires Shaped(s) && CanCleanupNode(s.tree) && IsRunning(s, c)
  {
    var n, t := s.tree.kt.next, CleanupNode(s.tree);
    var s' := s.(tree := t);
    if Leaf(s, c) == n then SetCpu(s', c, ProcessGpEnd(t, n, c, s.cpus[c], u)) else s'
  }

  ghost function AfterKthreadCleanupDone(s: State, c: nat, u: bool): State
    requires Shaped(s) && CanCleanupDone(s.tree) && IsRunning(s, c)
  {
    var t := CleanupDone(s.tree);
    SetCpu(s.(tree := t), c, s.cpus[c].(cbs := AdvanceCbs(t, 0, s.cpus[c].cbs, u)))
  }

  ghost function AfterCpuPrepare(s: State, c: nat): State
    requires Shaped(s) && c < |s.cpus| && s.cpus[c].phase.Dead? && CanOnline(s.tree, c)
  {
    var cpu := s.cpus[c];
    SetCpu(s.(tree := OnlineStart(s.tree, c)), c,
           cpu.(cbs := L.Init(cpu.cbs), dynticks := cpu.dynticks - cpu.dynticks % 2 + 1))
  }

  ghost function AfterCpuPrepareHop(s: State): State
    requires Shaped(s) && CanOnlineHop(s.tree) && s.tree.hp.cpu < |s.cpus|
  {
    var c, n, t := s.tree.hp.cpu, s.tree.hp.at, OnlineHop(s.tree);
    var cpu := if n == Leaf(s, c)
               then s.cpus[c].(gpnum := t.nodes[n].completed, completed := t.nodes[n].completed,
                               passedQs := false, qsPending := false)
               else s.cpus[c];
    SetCpu(s.(tree := t), c, if t.hp.NoHotplug? then cpu.(phase := Prepared) else cpu)
  }

  /** rcu_cleanup_dead_cpu up to its walk up the tree: CPU `a` adopts the callbacks of CPU `c`. */
  ghost function AfterCpuDead(s: State, c: nat, a: nat): State
    requires Shaped(s) && CanDie(s, c, a)
  {
    var dead, adopter := s.cpus[c], s.cpus[a];
    var s' := SetCpu(s, a, adopter.(cbs := L.Adopt(adopter.cbs, L.DoneCbs(dead.cbs), L.WaitingCbs(dead.cbs))));
    SetCpu(s', c, dead.(phase := Dead, cbs := L.Disable(dead.cbs))).(tree := OfflineStart(s.tree, c))
  }

  /** rcu_do_batch: take the done callbacks out, invoke the first of them, put the rest back. */
  ghost function AfterBatchBegin(s: State, c: nat): State
    requires Shaped(s) && IsRunning(s, c) && s.cpus[c].batch == [] && L.Valid(s.cpus[c].cbs)
  {
    SetCpu(s, c, s.cpus[c].(batch := L.DoneCbs(s.cpus[c].cbs), cbs := L.Extract(s.cpus[c].cbs)))
  }

  ghost function AfterInvoke(s: State, c: nat): State
    requires Shaped(s) && IsRunning(s, c) && s.cpus[c].batch != []
  {
    SetCpu(s, c, s.cpus[c].(batch := s.cpus[c].batch[1..]))
  }

  ghost function AfterBatchEnd(s: State, c: nat): State
    requires Shaped(s) && IsRunning(s, c) && s.cpus[c].batch != []
  {
    SetCpu(s, c, s.cpus[c].(batch := [], cbs := L.Requeue(s.cpus[c].cbs, s.cpus[c].batch)))
  }

  ghost function AfterGpEndNoticed(s: State, c: nat, u: bool): State
    requires Shaped(s) && IsRunning(s, c)
  {
    SetCpu(s, c, ProcessGpEnd(s.tree, Leaf(s, c), c, s.cpus[c], u))
  }

  /** The effect of a step, apart from the passing of time. */
  ghost function Effect(s: State, a: Step): State
    requires Shaped(s) && Can(s, a)
  {
    match a
    case ReadLock(c) => SetCpu(s, c, s.cpus[c].(reader := Some(s.now)))
    case ReadUnlock(c) => SetCpu(s, c, s.cpus[c].(reader := None))
    case SchedQs(c) => SetCpu(s, c, s.cpus[c].(passedQs := true))
    case EqsEnter(c) => SetCpu(s, c, s.cpus[c].(dynticks := s.cpus[c].dynticks + 1))
    case EqsExit(c) => SetCpu(s, c, s.cpus[c].(dynticks := s.cpus[c].dynticks + 1))
    case CallRcu(c, id) => SetCpu(s, c, s.cpus[c].(cbs := L.Append(s.cpus[c].cbs, Cb(id, s.now))))
    case NoteGp(c) => SetCpu(s, c, NoteNewGpnum(s.tree, Leaf(s, c), c, s.cpus[c]))
    case GpEndNoticed(c, u) => AfterGpEndNoticed(s, c, u)
    case StartGp(c, u) => SetCpu(s, c, s.cpus[c].(cbs := AdvanceCbs(s.tree, 0, s.cpus[c].cbs, u)))
    case ReportQs(c, w, u) => AfterReportQs(s, c, w, u)
    case WalkUp(w) => s.(tree := Walk(s.tree, w))
    case BatchBegin(c) => AfterBatchBegin(s, c)
    case Invoke(c) => AfterInvoke(s, c)
    case BatchEnd(c) => AfterBatchEnd(s, c)
    case KthreadStart => s.(tree := GpStart(s.tree))
    case KthreadLock => s.(tree := LockOnoff(s.tree))
    case KthreadInit(c, u) => AfterKthreadInit(s, c, u)
    case KthreadInitDone => s.(tree := InitDone(s.tree), fqs := Fqs(false, 0))
    case KthreadFqs(w, o) => FqsLeaf(s, w, o)
    case KthreadFqsDone => s.(fqs := Fqs(true, 0))
    case KthreadEnd => s.(tree := GpEnd(s.tree))
    case KthreadCleanup(c, u) => AfterKthreadCleanup(s, c, u)
    case KthreadCleanupDone(c, u) => AfterKthreadCleanupDone(s, c, u)
    case CpuPrepare(c) => AfterCpuPrepare(s, c)
    case CpuPrepareHop => AfterCpuPrepareHop(s)
    case CpuBoot(c) => SetCpu(s, c, s.cpus[c].(phase := Running))
    case CpuStop(c) => SetCpu(s, c, s.cpus[c].(phase := Stopped))
    case CpuDead(c, a) => AfterCpuDead(s, c, a)
    case CpuDeadHop => s.(tree := OfflineHop(s.tree))
  }

  function Tick(s: State): State { s.(now := s.now + 1) }

  ghost function After(s: State, a: Step): State
    requires Shaped(s) && Can(s, a)
  {
    Tick(Effect(s, a))
  }

  ghost predicate Next(s: State, s': State) {
    Shaped(s) && exists a :: Can(s, a) && s' == After(s, a)
  }

  /** Boot: an idle tree and no CPU yet. */
  ghost predicate Initial(s: State) {
    && RcuTree.Initial(s.tree)
    && |s.cpus| == |s.tree.tp.leafOf|
    && forall c :: 0 <= c < |s.cpus| ==>
         s.cpus[c] == Cpu(Dead, None, 1, 0, 0, 0, 0, false, false, L.Segs([], 0, 0, 0, 0, 0, false), [])
  }

  // ----- the invariant -----

  /** Every read-side section that was running when `cb` was registered has ended. */
  ghost predicate SafeCb(s: State, cb: Cb) {
    forall c :: 0 <= c < |s.cpus| && s.cpus[c].reader.Some? ==> cb.born < s.cpus[c].reader.value
  }

  /** The newest grace period known to be over. */
  function Limit(t: Tree): nat { if t.kt.Cleanup? then t.gpnum else t.completed }

  /** A callback waiting for grace period `g` is safe once `g` is over, and was registered before `g` began. */
  ghost predicate NumOk(s: State, cb: Cb, g: nat) {
    && (g <= Limit(s.tree) ==> SafeCb(s, cb))
    && (Limit(s.tree) < g == s.tree.gpnum && Begun(s.tree, 0) ==> cb.born < s.began)
  }

  ghost predicate StatusOk(s: State, cb: Cb, st: L.Status) {
    && cb.born < s.now
    && match st
       case Done => SafeCb(s, cb)
       case Numbered(g) => NumOk(s, cb, g)
       case Unnumbered => true
  }

  ghost predicate ListOk(s: State, l: L.Segs<Cb>) {
    L.Valid(l) && forall k :: 0 <= k < |l.cbs| ==> StatusOk(s, l.cbs[k], L.StatusOf(l, k))
  }

  ghost predicate BatchOk(s: State, b: seq<Cb>) {
    forall k :: 0 <= k < |b| ==> StatusOk(s, b[k], L.Done)
  }

  ghost predicate BaseOk(s: State, c: nat)
    requires Shaped(s) && c < |s.cpus|
  {
    var cpu, leaf := s.cpus[c], s.tree.nodes[Leaf(s, c)];
    && (cpu.reader.Some? ==> cpu.phase.Running? && cpu.dynticks % 2 == 1 && cpu.reader.value < s.now)
    && cpu.snap <= cpu.dynticks && cpu.snapGp <= s.tree.gpnum
    && (s.tree.kt.Starting? || s.tree.kt.Init? ==> cpu.snapGp < s.tree.gpnum)
    && cpu.gpnum <= leaf.gpnum
    && (c in leaf.qsmaskinit <==> Known(s, c))
    && (!cpu.phase.Dead? ==> cpu.cbs.enabled)
    && (!cpu.phase.Running? ==> cpu.batch == [])
    && (cpu.phase.Dead? ==> cpu.cbs.cbs == [])
    && (Offlining(s, c) ==> cpu.phase.Dead?)
    && (Onlining(s, c) ==> cpu.phase.Dead? && cpu.cbs.enabled)
  }

  /** The tree knows of CPU `c`: it is not dead, or the operation in flight that takes it down has not got to its leaf
      yet, or the one that brings it up has. */
  predicate Known(s: State, c: nat)
    requires c < |s.cpus| && c < |s.tree.tp.leafOf|
  {
    || !s.cpus[c].phase.Dead?
    || (Offlining(s, c) && s.tree.hp.at == Leaf(s, c))
    || (Onlining(s, c) && s.tree.hp.at != Leaf(s, c))
  }

  predicate Offlining(s: State, c: nat) { s.tree.hp.Offline? && s.tree.hp.cpu == c }
  predicate Onlining(s: State, c: nat) { s.tree.hp.Online? && s.tree.hp.cpu == c }

  /** A running read-side section that the grace period no longer waits for, or that one of the
      quiescent-state detectors would vouch for, started after the grace period began. */
  ghost predicate ReaderOk(s: State, c: nat)
    requires Shaped(s) && c < |s.cpus|
  {
    var cpu, leaf, t := s.cpus[c], Leaf(s, c), s.tree;
    cpu.reader.Some? && cpu.reader.value < s.began ==>
      && !t.kt.Cleanup?
      && (Active(t) && Begun(t, leaf) ==> c in t.nodes[leaf].qsmask)
      && (Active(t) && Begun(t, leaf) && cpu.gpnum == t.gpnum ==> !cpu.passedQs)
      && (t.kt.Waiting? && cpu.snapGp == t.gpnum ==> cpu.dynticks == cpu.snap)
  }

  /** Once a leaf has been scanned, every CPU it still waits for has a snapshot from this grace period. */
  ghost predicate FqsAt(s: State, c: nat)
    requires Shaped(s) && c < |s.cpus|
  {
    s.tree.kt.Waiting? && c in s.tree.nodes[Leaf(s, c)].qsmask && (s.fqs.force || Leaf(s, c) < s.fqs.next) ==>
      s.cpus[c].snapGp == s.tree.gpnum
  }

  ghost predicate Inv(s: State) {
    && RcuTree.Inv(s.tree) && Shaped(s)
    && s.began <= s.now && (s.tree.kt.Waiting? ==> s.fqs.next <= |s.tree.nodes|)
    && (forall c :: 0 <= c < |s.cpus| ==> BaseOk(s, c))
    && (forall c :: 0 <= c < |s.cpus| ==> ReaderOk(s, c))
    && (forall c :: 0 <= c < |s.cpus| ==> FqsAt(s, c))
    && (forall c :: 0 <= c < |s.cpus| ==> ListOk(s, s.cpus[c].cbs))
    && (forall c :: 0 <= c < |s.cpus| ==> BatchOk(s, s.cpus[c].batch))
  }

  // ----- callbacks -----

  /** The state has moved on from `s` to `s'` without declaring a grace period over. */
  ghost predicate Later(s: State, s': State) {
    && s.now < s'.now && |s.cpus| == |s'.cpus|
    && (forall c :: 0 <= c < |s.cpus| && s'.cpus[c].reader.Some? ==>
          s'.cpus[c].reader == s.cpus[c].reader || s.now <= s'.cpus[c].reader.value)
    && Limit(s'.tree) <= Limit(s.tree)
    && (Begun(s'.tree, 0) && Limit(s'.tree) < s'.tree.gpnum ==>
          || s'.began == s.now
          || (Begun(s.tree, 0) && s'.tree.gpnum == s.tree.gpnum && s'.began == s.began
              && Limit(s'.tree) == Limit(s.tree)))
  }

  lemma {:induction false} StatusKeeps(s: State, s': State, cb: Cb, st: L.Status)
    requires Later(s, s') && StatusOk(s, cb, st)
    ensures StatusOk(s', cb, st)
  {
    if SafeCb(s, cb) {
      forall c | 0 <= c < |s'.cpus| && s'.cpus[c].reader.Some? ensures cb.born < s'.cpus[c].reader.value {
        assert s.cpus[c].reader.Some? ==> cb.born < s.cpus[c].reader.value;
      }
    }
  }

  lemma {:induction false} ListKeeps(s: State, s': State, l: L.Segs<Cb>)
    requires Later(s, s') && ListOk(s, l)
    ensures ListOk(s', l)
  {
    forall k | 0 <= k < |l.cbs| ensures StatusOk(s', l.cbs[k], L.StatusOf(l, k)) {
      StatusKeeps(s, s', l.cbs[k], L.StatusOf(l, k));
    }
  }

  lemma {:induction false} BatchKeeps(s: State, s': State, b: seq<Cb>)
    requires Later(s, s') && BatchOk(s, b)
    ensures BatchOk(s', b)
  {
    forall k | 0 <= k < |b| ensures StatusOk(s', b[k], L.Done) { StatusKeeps(s, s', b[k], L.Done); }
  }

  /** The number handed out by rcu_cbs_completed, at the root or at any other node, names a grace
      period that is not over and that not even the root has begun. */
  lemma {:induction false} NumberIsInTheFuture(t: Tree, n: nat)
    requires RcuTree.Inv(t) && n < |t.nodes|
    ensures Limit(t) < CbsCompleted(t, n)
    ensures CbsCompleted(t, n) == t.gpnum ==> !Begun(t, 0)
    ensures t.nodes[n].completed <= Limit(t)
  {
    assert NumbersAt(t, n);
  }

  lemma {:induction false} AccelerateOk(s: State, n: nat, l: L.Segs<Cb>, u: bool)
    requires RcuTree.Inv(s.tree) && n < |s.tree.nodes| && ListOk(s, l)
    ensures ListOk(s, AccelerateCbs(s.tree, n, l, u))
    ensures AccelerateCbs(s.tree, n, l, u).enabled == l.enabled && AccelerateCbs(s.tree, n, l, u).cbs == l.cbs
  {
    var c, r := CbsCompleted(s.tree, n), CbsCompleted(s.tree, 0);
    NumberIsInTheFuture(s.tree, n);
    NumberIsInTheFuture(s.tree, 0);
    var l1 := L.Accelerate(l, c);
    forall k | 0 <= k < |l.cbs|
      ensures StatusOk(s, l.cbs[k], L.StatusOf(l1, k))
      ensures StatusOk(s, l.cbs[k], L.StatusOf(L.Lower(l1, r), k))
    {
      assert StatusOk(s, l.cbs[k], L.StatusOf(l, k));
      L.AccelerateNeverEarly(l, c, k);
    }
  }

  lemma {:induction false} AdvanceOk(s: State, n: nat, l: L.Segs<Cb>, u: bool)
    requires RcuTree.Inv(s.tree) && n < |s.tree.nodes| && ListOk(s, l)
    ensures ListOk(s, AdvanceCbs(s.tree, n, l, u))
    ensures AdvanceCbs(s.tree, n, l, u).enabled == l.enabled && AdvanceCbs(s.tree, n, l, u).cbs == l.cbs
  {
    NumberIsInTheFuture(s.tree, n);
    var l1 := L.Advance(l, s.tree.nodes[n].completed);
    forall k | 0 <= k < |l.cbs| ensures StatusOk(s, l.cbs[k], L.StatusOf(l1, k)) {
      assert StatusOk(s, l.cbs[k], L.StatusOf(l, k));
      L.AdvanceExact(l, s.tree.nodes[n].completed, k);
    }
    if !L.NothingWaiting(l) { AccelerateOk(s, n, l1, u); }
  }

  lemma {:induction false} ProcessGpEndOk(s: State, n: nat, c: nat, cpu: Cpu, u: bool)
    requires RcuTree.Inv(s.tree) && n < |s.tree.nodes| && ListOk(s, cpu.cbs)
    ensures ListOk(s, ProcessGpEnd(s.tree, n, c, cpu, u).cbs)
    ensures ProcessGpEnd(s.tree, n, c, cpu, u).cbs.enabled == cpu.cbs.enabled
    ensures ProcessGpEnd(s.tree, n, c, cpu, u).cbs.cbs == cpu.cbs.cbs
  {
    AccelerateOk(s, n, cpu.cbs, u);
    AdvanceOk(s, n, cpu.cbs, u);
  }

  // ----- steps on one CPU -----

  /** A step that changes CPU `c` only has to be checked on that CPU. */
  lemma {:induction false} LocalKeeps(s: State, c: nat, cpu: Cpu, s': State)
    requires Inv(s) && c < |s.cpus|
    requires s' == SetCpu(s, c, cpu).(now := s.now + 1)
    requires cpu.reader.None? || cpu.reader == s.cpus[c].reader || cpu.reader == Some(s.now)
    requires BaseOk(s', c) && ReaderOk(s', c) && FqsAt(s', c)
    requires ListOk(s', cpu.cbs) && BatchOk(s', cpu.batch)
    ensures Inv(s')
  {
    assert Later(s, s');
    forall d | 0 <= d < |s.cpus|
      ensures BaseOk(s', d) && ReaderOk(s', d) && FqsAt(s', d)
      ensures ListOk(s', s'.cpus[d].cbs) && BatchOk(s', s'.cpus[d].batch)
    {
      if d != c {
        assert BaseOk(s, d) && ReaderOk(s, d) && FqsAt(s, d);
        ListKeeps(s, s', s.cpus[d].cbs);
        BatchKeeps(s, s', s.cpus[d].batch);
      }
    }
  }

  /** Entering and leaving read-side sections and extended quiescent states, passing through a
      quiescent state, starting and stopping. */
  lemma {:induction false} ActivityKeeps(s: State, a: Step, c: nat)
    requires Inv(s) && Can(s, a)
    requires a.ReadLock? || a.ReadUnlock? || a.SchedQs? || a.EqsEnter? || a.EqsExit? || a.CpuBoot? || a.CpuStop?
    requires c == a.cpu
    ensures Inv(After(s, a))
  {
    var s' := After(s, a);
    assert BaseOk(s, c) && ReaderOk(s, c) && FqsAt(s, c);
    assert Later(s, s');
    ListKeeps(s, s', s.cpus[c].cbs);
    BatchKeeps(s, s', s.cpus[c].batch);
    LocalKeeps(s, c, s'.cpus[c], s');
  }

  lemma {:induction false} NoteGpKeeps(s: State, c: nat)
    requires Inv(s) && Can(s, NoteGp(c))
    ensures Inv(After(s, NoteGp(c)))
  {
    var s' := After(s, NoteGp(c));
    assert BaseOk(s, c) && ReaderOk(s, c) && FqsAt(s, c) && NumbersAt(s.tree, Leaf(s, c));
    ListKeeps(s, s', s.cpus[c].cbs);
    BatchKeeps(s, s', s.cpus[c].batch);
    LocalKeeps(s, c, s'.cpus[c], s');
  }

  lemma {:induction false} CallRcuKeeps(s: State, c: nat, id: nat)
    requires Inv(s) && Can(s, CallRcu(c, id))
    ensures Inv(After(s, CallRcu(c, id)))
  {
    var s' := After(s, CallRcu(c, id));
    var l, l' := s.cpus[c].cbs, s'.cpus[c].cbs;
    assert BaseOk(s, c) && ReaderOk(s, c) && FqsAt(s, c);
    assert Later(s, s');
    ListKeeps(s, s', l);
    forall k | 0 <= k < |l'.cbs| ensures StatusOk(s', l'.cbs[k], L.StatusOf(l', k)) {
      if k < |l.cbs| { assert StatusOk(s', l.cbs[k], L.StatusOf(l, k)); }
    }
    BatchKeeps(s, s', s.cpus[c].batch);
    LocalKeeps(s, c, s'.cpus[c], s');
  }

  lemma {:induction false} GpEndNoticedKeeps(s: State, c: nat, u: bool)
    requires Inv(s) && IsRunning(s, c)
    ensures Inv(Tick(AfterGpEndNoticed(s, c, u)))
  {
    var s' := Tick(AfterGpEndNoticed(s, c, u));
    assert BaseOk(s, c) && ReaderOk(s, c) && FqsAt(s, c) && NumbersAt(s.tree, Leaf(s, c));
    ProcessGpEndOk(s, Leaf(s, c), c, s.cpus[c], u);
    assert Later(s, s');
    ListKeeps(s, s', s'.cpus[c].cbs);
    BatchKeeps(s, s', s.cpus[c].batch);
    LocalKeeps(s, c, s'.cpus[c], s');
  }

  lemma {:induction false} StartGpKeeps(s: State, c: nat, u: bool)
    requires Inv(s) && Can(s, StartGp(c, u))
    ensures Inv(After(s, StartGp(c, u)))
  {
    var s' := After(s, StartGp(c, u));
    assert BaseOk(s, c) && ReaderOk(s, c) && FqsAt(s, c);
    AdvanceOk(s, 0, s.cpus[c].cbs, u);
    assert Later(s, s');
    ListKeeps(s, s', s'.cpus[c].cbs);
    BatchKeeps(s, s', s.cpus[c].batch);
    LocalKeeps(s, c, s'.cpus[c], s');
  }

  lemma {:induction false} BatchBeginKeeps(s: State, c: nat)
    requires Inv(s) && IsRunning(s, c) && s.cpus[c].batch == [] && L.Valid(s.cpus[c].cbs)
    ensures Inv(Tick(AfterBatchBegin(s, c)))
  {
    var s' := Tick(AfterBatchBegin(s, c));
    var l, l' := s.cpus[c].cbs, s'.cpus[c].cbs;
    assert BaseOk(s, c) && ReaderOk(s, c) && FqsAt(s, c);
    ListKeeps(s, s', l);
    forall k | 0 <= k < |l'.cbs| ensures StatusOk(s', l'.cbs[k], L.StatusOf(l', k)) {
      assert StatusOk(s', l.cbs[k + l.done], L.StatusOf(l, k + l.done));
    }
    forall k | 0 <= k < l.done ensures StatusOk(s', l.cbs[k], L.Done) {
      assert StatusOk(s', l.cbs[k], L.StatusOf(l, k));
    }
    LocalKeeps(s, c, s'.cpus[c], s');
  }

  lemma {:induction false} InvokeKeeps(s: State, c: nat)
    requires Inv(s) && IsRunning(s, c) && s.cpus[c].batch != []
    ensures Inv(Tick(AfterInvoke(s, c)))
  {
    var s' := Tick(AfterInvoke(s, c));
    assert BaseOk(s, c) && ReaderOk(s, c) && FqsAt(s, c);
    ListKeeps(s, s', s.cpus[c].cbs);
    BatchKeeps(s, s', s.cpus[c].batch);
    LocalKeeps(s, c, s'.cpus[c], s');
  }

  lemma {:induction false} BatchEndKeeps(s: State, c: nat)
    requires Inv(s) && IsRunning(s, c) && s.cpus[c].batch != []
    ensures Inv(Tick(AfterBatchEnd(s, c)))
  {
    var s' := Tick(AfterBatchEnd(s, c));
    var l, l', b := s.cpus[c].cbs, s'.cpus[c].cbs, s.cpus[c].batch;
    assert BaseOk(s, c) && ReaderOk(s, c) && FqsAt(s, c);
    ListKeeps(s, s', l);
    BatchKeeps(s, s', b);
    forall k | 0 <= k < |l'.cbs| ensures StatusOk(s', l'.cbs[k], L.StatusOf(l', k)) {
      if k < |b| { assert StatusOk(s', b[k], L.Done); }
      else { assert StatusOk(s', l.cbs[k - |b|], L.StatusOf(l, k - |b|)); }
    }
    LocalKeeps(s, c, s'.cpus[c], s');
  }

  // ----- quiescent states -----

  ghost predicate SameFrame(t: Tree, t': Tree) {
    t' == t.(nodes := t'.nodes, walks := t'.walks) && |t'.nodes| == |t.nodes|
  }

  /** Quiescent states reported for CPUs that have no read-side section from before the grace period. */
  ghost predicate Reports(s: State, s': State)
    requires Shaped(s)
  {
    && s' == s.(tree := s'.tree) && SameFrame(s.tree, s'.tree) && RcuTree.Inv(s'.tree)
    && forall c :: 0 <= c < |s.cpus| ==>
         var n := Leaf(s, c);
         && s'.tree.nodes[n] == s.tree.nodes[n].(qsmask := s'.tree.nodes[n].qsmask)
         && s'.tree.nodes[n].qsmask <= s.tree.nodes[n].qsmask
         && (c in s.tree.nodes[n].qsmask && c !in s'.tree.nodes[n].qsmask && s.cpus[c].reader.Some? ==>
               s.began <= s.cpus[c].reader.value)
  }

  lemma {:induction false} ListSame(s: State, s': State, l: L.Segs<Cb>)
    requires ListOk(s, l) && s'.cpus == s.cpus && s'.now == s.now && s'.began == s.began
    requires SameFrame(s.tree, s'.tree)
    ensures ListOk(s', l)
  {
    forall k | 0 <= k < |l.cbs| ensures StatusOk(s', l.cbs[k], L.StatusOf(l, k)) {
      assert StatusOk(s, l.cbs[k], L.StatusOf(l, k));
      assert SafeCb(s', l.cbs[k]) == SafeCb(s, l.cbs[k]);
    }
  }

  lemma {:induction false} BatchSame(s: State, s': State, b: seq<Cb>)
    requires BatchOk(s, b) && s'.cpus == s.cpus && s'.now == s.now
    ensures BatchOk(s', b)
  {
    forall k | 0 <= k < |b| ensures StatusOk(s', b[k], L.Done) {
      assert StatusOk(s, b[k], L.Done) && SafeCb(s', b[k]) == SafeCb(s, b[k]);
    }
  }

  lemma {:induction false} ReportsKeep(s: State, s': State)
    requires Inv(s) && Reports(s, s')
    ensures Inv(s')
  {
    forall c | 0 <= c < |s.cpus|
      ensures BaseOk(s', c) && ReaderOk(s', c) && FqsAt(s', c)
      ensures ListOk(s', s'.cpus[c].cbs) && BatchOk(s', s'.cpus[c].batch)
    {
      assert BaseOk(s, c) && ReaderOk(s, c) && FqsAt(s, c);
      ListSame(s, s', s.cpus[c].cbs);
      BatchSame(s, s', s.cpus[c].batch);
    }
  }

  lemma {:induction false} TimeKeeps(s: State)
    requires Inv(s)
    ensures Inv(s.(now := s.now + 1))
  {
    var s' := s.(now := s.now + 1);
    forall c | 0 <= c < |s.cpus|
      ensures BaseOk(s', c) && ReaderOk(s', c) && FqsAt(s', c)
      ensures ListOk(s', s'.cpus[c].cbs) && BatchOk(s', s'.cpus[c].batch)
    {
      assert BaseOk(s, c) && ReaderOk(s, c) && FqsAt(s, c);
      ListKeeps(s, s', s.cpus[c].cbs);
      BatchKeeps(s, s', s.cpus[c].batch);
    }
  }

  /** A CPU whose quiescent state is accepted has no read-side section from before the grace period. */
  lemma {:induction false} QsIsSound(s: State, c: nat)
    requires Inv(s) && c < |s.cpus| && c in s.tree.nodes[Leaf(s, c)].qsmask
    requires s.cpus[c].passedQs && s.cpus[c].gpnum == s.tree.nodes[Leaf(s, c)].gpnum
    ensures s.cpus[c].reader.Some? ==> s.began <= s.cpus[c].reader.value
  {
    assert ReaderOk(s, c) && NumbersAt(s.tree, Leaf(s, c)) && MaskAt(s.tree, Leaf(s, c));
  }

  /** What rcu_report_qs_rdp does to the rcu_data. */
  lemma {:induction false} ReportQsLocal(s: State, c: nat, cpu: Cpu, u: bool)
    requires Inv(s) && IsRunning(s, c)
    requires cpu == s.cpus[c].(passedQs := false) || cpu == s.cpus[c]
             || cpu == s.cpus[c].(qsPending := false, cbs := AccelerateCbs(s.tree, Leaf(s, c), s.cpus[c].cbs, u))
    ensures Inv(SetCpu(s, c, cpu).(now := s.now + 1))
  {
    var s1 := SetCpu(s, c, cpu).(now := s.now + 1);
    assert BaseOk(s, c) && ReaderOk(s, c) && FqsAt(s, c);
    AccelerateOk(s, Leaf(s, c), s.cpus[c].cbs, u);
    ListKeeps(s, s1, cpu.cbs);
    BatchKeeps(s, s1, cpu.batch);
    LocalKeeps(s, c, cpu, s1);
  }

  /** A report for leaf `n` alone, for CPUs without old read-side sections. */
  lemma {:induction false} LeafReportKeeps(s: State, n: nat, mask: set<nat>, w: nat)
    requires Inv(s) && CanReport(s.tree, n, mask, w)
    requires forall c :: c in mask && c < |s.cpus| && s.cpus[c].reader.Some? ==> s.began <= s.cpus[c].reader.value
    ensures Inv(s.(tree := Report(s.tree, n, mask, w)))
  {
    var s' := s.(tree := Report(s.tree, n, mask, w));
    ReportKeeps(s.tree, n, mask, w);
    assert Reports(s, s');
    ReportsKeep(s, s');
  }

  lemma {:induction false} ReportQsKeeps(s: State, c: nat, w: nat, u: bool)
    requires Inv(s) && IsRunning(s, c) && w !in s.tree.walks
    ensures Inv(Tick(AfterReportQs(s, c, w, u)))
  {
    assert Shaped(s);
    hide Inv;
    var cpu, n := s.cpus[c], Leaf(s, c);
    var node := s.tree.nodes[n];
    if !cpu.passedQs || cpu.gpnum != node.gpnum || node.completed == node.gpnum {
      ReportQsLocal(s, c, cpu.(passedQs := false), u);
    } else if c !in node.qsmask {
      TimeKeeps(s);
    } else {
      ReportQsRecorded(s, c, w, u);
    }
  }

  /** The quiescent state counts: the CPU's bit is reported. */
  lemma {:induction false} ReportQsRecorded(s: State, c: nat, w: nat, u: bool)
    requires Inv(s) && IsRunning(s, c) && w !in s.tree.walks
    requires var cpu, node := s.cpus[c], s.tree.nodes[Leaf(s, c)];
      cpu.passedQs && cpu.gpnum == node.gpnum && node.completed != node.gpnum && c in node.qsmask
    ensures var cpu' := s.cpus[c].(qsPending := false, cbs := AccelerateCbs(s.tree, Leaf(s, c), s.cpus[c].cbs, u));
      Inv(Tick(SetCpu(s, c, cpu').(tree := Report(s.tree, Leaf(s, c), {c}, w))))
  {
    assert Shaped(s);
    hide Inv;
    var cpu' := s.cpus[c].(qsPending := false, cbs := AccelerateCbs(s.tree, Leaf(s, c), s.cpus[c].cbs, u));
    ReportQsLocal(s, c, cpu', u);
    QsIsSound(s, c);
    LeafReportKeeps(SetCpu(s, c, cpu').(now := s.now + 1), Leaf(s, c), {c}, w);
  }

  lemma {:induction false} WalkUpKeeps(s: State, w: nat)
    requires Inv(s) && Can(s, WalkUp(w))
    ensures Inv(After(s, WalkUp(w)))
  {
    var s1 := s.(now := s.now + 1);
    TimeKeeps(s);
    WalkKeeps(s.tree, w);
    assert Reports(s1, After(s, WalkUp(w)));
    ReportsKeep(s1, After(s, WalkUp(w)));
  }

  /** Crediting a CPU from its dynticks counter is sound: it has no read-side section from before the
      current grace period. */
  lemma {:induction false} CreditIsSound(s: State, c: nat, n: nat, oldEnough: bool)
    requires Inv(s) && s.tree.kt.Waiting? && c < |s.cpus| && n == Leaf(s, c)
    requires c in s.tree.nodes[n].qsmask && Credited(s.cpus[c], s.fqs.force, oldEnough)
    ensures s.cpus[c].reader.Some? ==> s.began <= s.cpus[c].reader.value
  {
    assert BaseOk(s, c) && ReaderOk(s, c) && FqsAt(s, c);
  }

  lemma {:induction false} FqsSnapshotKeeps(s: State, w: nat, o: bool)
    requires Inv(s) && CanScan(s, w) && IsLeaf(s.tree.tp, s.fqs.next)
    ensures Inv(Tick(Scanned(s)))
  {
    var s' := Tick(Scanned(s));
    assert Later(s, s');
    forall c | 0 <= c < |s.cpus| ensures BaseOk(s', c) && ReaderOk(s', c) && FqsAt(s', c) {
      assert BaseOk(s, c) && ReaderOk(s, c) && FqsAt(s, c);
    }
    forall c | 0 <= c < |s.cpus| ensures ListOk(s', s'.cpus[c].cbs) && BatchOk(s', s'.cpus[c].batch) {
      ListKeeps(s, s', s.cpus[c].cbs);
      BatchKeeps(s, s', s.cpus[c].batch);
    }
  }

  /** Skipping an interior node, or starting the force round. */
  lemma {:induction false} FqsMoveKeeps(s: State, fqs: Fqs)
    requires Inv(s)
    requires s.tree.kt.Waiting?
    requires (fqs == s.fqs.(next := s.fqs.next + 1) && !IsLeaf(s.tree.tp, s.fqs.next))
             || (fqs == Fqs(true, 0) && s.fqs.next == |s.tree.nodes|)
    ensures Inv(s.(fqs := fqs, now := s.now + 1))
  {
    var s' := s.(fqs := fqs, now := s.now + 1);
    assert Later(s, s');
    forall c | 0 <= c < |s.cpus|
      ensures BaseOk(s', c) && ReaderOk(s', c) && FqsAt(s', c)
      ensures ListOk(s', s'.cpus[c].cbs) && BatchOk(s', s'.cpus[c].batch)
    {
      assert BaseOk(s, c) && ReaderOk(s, c) && FqsAt(s, c);
      ListKeeps(s, s', s.cpus[c].cbs);
      BatchKeeps(s, s', s.cpus[c].batch);
    }
  }

  lemma {:induction false} FqsMaskIsSound(s: State, n: nat, o: bool, c: nat)
    requires Inv(s) && s.tree.kt.Waiting? && n == s.fqs.next < |s.tree.nodes| && IsLeaf(s.tree.tp, n)
    requires c in CreditMask(s, n, o) && Scanned(s).cpus[c].reader.Some?
    ensures s.began <= Scanned(s).cpus[c].reader.value
  {
    assert BitsAt(s.tree, n);
    CreditIsSound(s, c, n, o);
  }

  lemma {:induction false} FqsScanKeeps(s: State, w: nat, o: bool)
    requires Inv(s) && CanScan(s, w) && IsLeaf(s.tree.tp, s.fqs.next)
    ensures Inv(Tick(FqsLeaf(s, w, o)))
  {
    var n := s.fqs.next;
    var s1 := Tick(Scanned(s));
    FqsSnapshotKeeps(s, w, o);
    hide Inv;
    var mask := CreditMask(s, n, o);
    if mask != {} {
      forall c | c in mask && c < |s1.cpus| && s1.cpus[c].reader.Some? ensures s1.began <= s1.cpus[c].reader.value {
        FqsMaskIsSound(s, n, o, c);
      }
      LeafReportKeeps(s1, n, mask, w);
      assert Tick(FqsLeaf(s, w, o)) == s1.(tree := Report(s.tree, n, mask, w));
    }
  }

  lemma {:induction false} FqsKeeps(s: State, w: nat, o: bool)
    requires Inv(s) && CanScan(s, w)
    ensures Inv(Tick(FqsLeaf(s, w, o)))
  {
    if IsLeaf(s.tree.tp, s.fqs.next) {
      FqsScanKeeps(s, w, o);
    } else {
      FqsMoveKeeps(s, s.fqs.(next := s.fqs.next + 1));
    }
  }

  // ----- the grace-period kthread -----

  /** A step that leaves the CPUs alone and does not declare a grace period over. */
  lemma {:induction false} TreeStepKeeps(s: State, s': State)
    requires Inv(s) && Later(s, s') && s'.cpus == s.cpus
    requires RcuTree.Inv(s'.tree) && Shaped(s') && s'.began <= s'.now
    requires s'.tree.kt.Waiting? ==> s'.fqs.next <= |s'.tree.nodes|
    requires forall c :: 0 <= c < |s.cpus| ==> BaseOk(s', c)
    requires forall c :: 0 <= c < |s.cpus| ==> ReaderOk(s', c)
    requires forall c :: 0 <= c < |s.cpus| ==> FqsAt(s', c)
    ensures Inv(s')
  {
    forall c | 0 <= c < |s.cpus| ensures ListOk(s', s'.cpus[c].cbs) && BatchOk(s', s'.cpus[c].batch) {
      ListKeeps(s, s', s.cpus[c].cbs);
      BatchKeeps(s, s', s.cpus[c].batch);
    }
  }

  lemma {:induction false} ListSameReaders(s: State, s': State, l: L.Segs<Cb>)
    requires ListOk(s, l) && s' == s.(cpus := s'.cpus) && |s'.cpus| == |s.cpus|
    requires forall d :: 0 <= d < |s.cpus| ==> s'.cpus[d].reader == s.cpus[d].reader
    ensures ListOk(s', l)
  {
    forall k | 0 <= k < |l.cbs| ensures StatusOk(s', l.cbs[k], L.StatusOf(l, k)) {
      assert StatusOk(s, l.cbs[k], L.StatusOf(l, k));
      assert SafeCb(s', l.cbs[k]) == SafeCb(s, l.cbs[k]);
    }
  }

  lemma {:induction false} BatchSameReaders(s: State, s': State, b: seq<Cb>)
    requires BatchOk(s, b) && s' == s.(cpus := s'.cpus) && |s'.cpus| == |s.cpus|
    requires forall d :: 0 <= d < |s.cpus| ==> s'.cpus[d].reader == s.cpus[d].reader
    ensures BatchOk(s', b)
  {
    forall k | 0 <= k < |b| ensures StatusOk(s', b[k], L.Done) {
      assert StatusOk(s, b[k], L.Done) && SafeCb(s', b[k]) == SafeCb(s, b[k]);
    }
  }

  /** The part of a kthread step that concerns the CPU it runs on. */
  lemma {:induction false} OwnCpuKeeps(s: State, c: nat, cpu: Cpu)
    requires Inv(s) && c < |s.cpus| && cpu.reader == s.cpus[c].reader && cpu.batch == s.cpus[c].batch
    requires var s' := SetCpu(s, c, cpu); BaseOk(s', c) && ReaderOk(s', c) && FqsAt(s', c)
    requires ListOk(s, cpu.cbs)
    ensures Inv(SetCpu(s, c, cpu))
  {
    var s' := SetCpu(s, c, cpu);
    forall d | 0 <= d < |s.cpus|
      ensures BaseOk(s', d) && ReaderOk(s', d) && FqsAt(s', d)
      ensures ListOk(s', s'.cpus[d].cbs) && BatchOk(s', s'.cpus[d].batch)
    {
      if d != c { assert BaseOk(s, d) && ReaderOk(s, d) && FqsAt(s, d); }
      ListSameReaders(s, s', s'.cpus[d].cbs);
      BatchSameReaders(s, s', s'.cpus[d].batch);
    }
  }

  lemma {:induction false} OwnGpEndKeeps(s: State, c: nat, u: bool)
    requires Inv(s) && IsRunning(s, c)
    ensures Inv(SetCpu(s, c, ProcessGpEnd(s.tree, Leaf(s, c), c, s.cpus[c], u)))
  {
    var n := Leaf(s, c);
    assert BaseOk(s, c) && ReaderOk(s, c) && FqsAt(s, c) && NumbersAt(s.tree, n);
    ProcessGpEndOk(s, n, c, s.cpus[c], u);
    OwnCpuKeeps(s, c, ProcessGpEnd(s.tree, n, c, s.cpus[c], u));
  }

  lemma {:induction false} OwnNoteKeeps(s: State, c: nat)
    requires Inv(s) && IsRunning(s, c)
    ensures Inv(SetCpu(s, c, NoteNewGpnum(s.tree, Leaf(s, c), c, s.cpus[c])))
  {
    var n := Leaf(s, c);
    assert BaseOk(s, c) && ReaderOk(s, c) && FqsAt(s, c) && NumbersAt(s.tree, n);
    OwnCpuKeeps(s, c, NoteNewGpnum(s.tree, n, c, s.cpus[c]));
  }

  lemma {:induction false} KthreadPlainKeeps(s: State, a: Step)
    requires Inv(s) && Can(s, a) && (a.KthreadStart? || a.KthreadLock? || a.KthreadInitDone?)
    ensures Inv(After(s, a))
  {
    var s' := After(s, a);
    if a.KthreadStart? { GpStartKeeps(s.tree); }
    else if a.KthreadLock? { LockOnoffKeeps(s.tree); }
    else { InitDoneKeeps(s.tree); }
    forall c | 0 <= c < |s.cpus| ensures BaseOk(s', c) && ReaderOk(s', c) && FqsAt(s', c) {
      assert BaseOk(s, c) && ReaderOk(s, c) && FqsAt(s, c);
    }
    TreeStepKeeps(s, s');
  }

  lemma {:induction false} KthreadInitTree(s: State)
    requires Inv(s) && CanInitNode(s.tree)
    ensures Inv(s.(tree := InitNode(s.tree), began := if s.tree.kt.next == 0 then s.now else s.began, now := s.now + 1))
  {
    var n := s.tree.kt.next;
    var s' := s.(tree := InitNode(s.tree), began := if n == 0 then s.now else s.began, now := s.now + 1);
    InitNodeKeeps(s.tree);
    forall c | 0 <= c < |s.cpus| ensures BaseOk(s', c) && ReaderOk(s', c) && FqsAt(s', c) {
      assert BaseOk(s, c) && ReaderOk(s, c) && NumbersAt(s.tree, Leaf(s, c));
    }
    assert Later(s, s');
    TreeStepKeeps(s, s');
  }

  lemma {:induction false} KthreadInitKeeps(s: State, c: nat, u: bool)
    requires Inv(s) && CanInitNode(s.tree) && IsRunning(s, c)
    ensures Inv(Tick(AfterKthreadInit(s, c, u)))
  {
    assert Shaped(s);
    hide Inv;
    var n := s.tree.kt.next;
    var s1 := s.(tree := InitNode(s.tree), began := if n == 0 then s.now else s.began, now := s.now + 1);
    KthreadInitTree(s);
    assert Tick(AfterKthreadInit(s, c, u)) ==
      if Leaf(s, c) == n then SetCpu(s1, c, NoteNewGpnum(s1.tree, n, c, ProcessGpEnd(s1.tree, n, c, s.cpus[c], u)))
      else s1;
    if Leaf(s, c) == n {
      OwnGpEndKeeps(s1, c, u);
      var s2 := SetCpu(s1, c, ProcessGpEnd(s1.tree, n, c, s.cpus[c], u));
      OwnNoteKeeps(s2, c);
      assert Tick(AfterKthreadInit(s, c, u)) == SetCpu(s2, c, NoteNewGpnum(s2.tree, n, c, s2.cpus[c]));
    }
  }

  /** When the kthread sees the root empty, no read-side section from before the grace period is left. */
  lemma {:induction false} NoOldReaders(s: State, c: nat)
    requires Inv(s) && CanGpEnd(s.tree) && c < |s.cpus| && s.cpus[c].reader.Some?
    ensures s.began <= s.cpus[c].reader.value
  {
    assert ReaderOk(s, c);
    RootEmptyMeansAllEmpty(s.tree, Leaf(s, c));
  }

  lemma {:induction false} GpEndStatus(s: State, s': State, cb: Cb, st: L.Status)
    requires Inv(s) && CanGpEnd(s.tree) && s' == s.(tree := GpEnd(s.tree), now := s.now + 1)
    requires StatusOk(s, cb, st)
    ensures StatusOk(s', cb, st)
  {
    assert SafeCb(s', cb) == SafeCb(s, cb);
    if st.Numbered? && st.num == s.tree.gpnum {
      forall c | 0 <= c < |s.cpus| && s.cpus[c].reader.Some? ensures cb.born < s.cpus[c].reader.value {
        NoOldReaders(s, c);
      }
    }
  }

  lemma {:induction false} KthreadEndKeeps(s: State)
    requires Inv(s) && Can(s, KthreadEnd)
    ensures Inv(After(s, KthreadEnd))
  {
    var s' := After(s, KthreadEnd);
    GpEndKeeps(s.tree);
    forall c | 0 <= c < |s.cpus| ensures BaseOk(s', c) && ReaderOk(s', c) && FqsAt(s', c) {
      assert BaseOk(s, c);
      if s.cpus[c].reader.Some? { NoOldReaders(s, c); }
    }
    forall c | 0 <= c < |s.cpus| ensures ListOk(s', s'.cpus[c].cbs) && BatchOk(s', s'.cpus[c].batch) {
      var l, b := s.cpus[c].cbs, s.cpus[c].batch;
      forall k | 0 <= k < |l.cbs| ensures StatusOk(s', l.cbs[k], L.StatusOf(l, k)) {
        GpEndStatus(s, s', l.cbs[k], L.StatusOf(l, k));
      }
      forall k | 0 <= k < |b| ensures StatusOk(s', b[k], L.Done) { GpEndStatus(s, s', b[k], L.Done); }
    }
  }

  lemma {:induction false} KthreadCleanupTree(s: State)
    requires Inv(s) && CanCleanupNode(s.tree)
    ensures Inv(s.(tree := CleanupNode(s.tree), now := s.now + 1))
  {
    var s1 := s.(tree := CleanupNode(s.tree), now := s.now + 1);
    CleanupNodeKeeps(s.tree);
    forall d | 0 <= d < |s.cpus| ensures BaseOk(s1, d) && ReaderOk(s1, d) && FqsAt(s1, d) {
      assert BaseOk(s, d) && ReaderOk(s, d);
    }
    TreeStepKeeps(s, s1);
  }

  lemma {:induction false} KthreadCleanupKeeps(s: State, c: nat, u: bool)
    requires Inv(s) && CanCleanupNode(s.tree) && IsRunning(s, c)
    ensures Inv(Tick(AfterKthreadCleanup(s, c, u)))
  {
    assert Shaped(s);
    hide Inv;
    KthreadCleanupTree(s);
    if Leaf(s, c) == s.tree.kt.next { OwnGpEndKeeps(s.(tree := CleanupNode(s.tree), now := s.now + 1), c, u); }
  }

  lemma {:induction false} KthreadCleanupDoneKeeps(s: State, c: nat, u: bool)
    requires Inv(s) && CanCleanupDone(s.tree) && IsRunning(s, c)
    ensures Inv(Tick(AfterKthreadCleanupDone(s, c, u)))
  {
    var s1 := s.(tree := CleanupDone(s.tree), now := s.now + 1);
    CleanupDoneTree(s);
    hide Inv, AdvanceCbs;
    OwnAdvanceKeeps(s1, c, u);
  }

  lemma {:induction false} CleanupDoneTree(s: State)
    requires Inv(s) && CanCleanupDone(s.tree)
    ensures Inv(s.(tree := CleanupDone(s.tree), now := s.now + 1))
  {
    var s1 := s.(tree := CleanupDone(s.tree), now := s.now + 1);
    CleanupDoneKeeps(s.tree);
    forall d | 0 <= d < |s.cpus| ensures BaseOk(s1, d) && ReaderOk(s1, d) && FqsAt(s1, d) {
      assert BaseOk(s, d) && ReaderOk(s, d);
    }
    TreeStepKeeps(s, s1);
  }

  /** Advancing a CPU's callbacks by the root's numbers. */
  lemma {:induction false} OwnAdvanceKeeps(s: State, c: nat, u: bool)
    requires Inv(s) && c < |s.cpus| && 0 < |s.tree.nodes|
    ensures Inv(SetCpu(s, c, s.cpus[c].(cbs := AdvanceCbs(s.tree, 0, s.cpus[c].cbs, u))))
  {
    assert BaseOk(s, c) && ReaderOk(s, c) && FqsAt(s, c) && ListOk(s, s.cpus[c].cbs);
    AdvanceOk(s, 0, s.cpus[c].cbs, u);
    hide Inv, AdvanceCbs;
    OwnCpuKeeps(s, c, s.cpus[c].(cbs := AdvanceCbs(s.tree, 0, s.cpus[c].cbs, u)));
  }

  // ----- CPU hotplug -----

  /** A hotplug step: one CPU that is not running, and one node's qsmaskinit. */
  ghost predicate HotplugStep(s: State, s': State, c: nat)
    requires Shaped(s)
  {
    && c < |s.cpus| == |s'.cpus|
    && s' == s.(tree := s'.tree, cpus := s'.cpus, now := s.now + 1) && RcuTree.Inv(s'.tree)
    && s'.tree == s.tree.(hp := s'.tree.hp, nodes := s'.tree.nodes)
    && (forall n :: 0 <= n < |s.tree.nodes| ==>
          s'.tree.nodes[n] == s.tree.nodes[n].(qsmaskinit := s'.tree.nodes[n].qsmaskinit))
    && (forall d, n :: 0 <= d < |s.cpus| && d != c && n == Leaf(s, d) ==>
         (d in s'.tree.nodes[n].qsmaskinit <==> d in s.tree.nodes[n].qsmaskinit))
    && (s.tree.hp.NoHotplug? || s.tree.hp.cpu == c) && (s'.tree.hp.NoHotplug? || s'.tree.hp.cpu == c)
  }

  lemma {:induction false} HotplugOthers(s: State, s': State, c: nat, d: nat)
    requires Inv(s) && HotplugStep(s, s', c) && d < |s.cpus| && d != c && s'.cpus[d] == s.cpus[d]
    ensures BaseOk(s', d) && ReaderOk(s', d) && FqsAt(s', d)
  {
    assert BaseOk(s, d) && ReaderOk(s, d) && FqsAt(s, d);
  }

  /** A hotplug step that only touches its own CPU, whose list stays empty. */
  lemma {:induction false} HotplugKeeps(s: State, s': State, c: nat)
    requires Inv(s) && HotplugStep(s, s', c)
    requires s'.cpus == s.cpus[c := s'.cpus[c]] && s'.cpus[c].reader.None? && s'.cpus[c].batch == []
    requires s'.cpus[c].cbs.cbs == [] && L.Valid(s'.cpus[c].cbs)
    requires BaseOk(s', c) && FqsAt(s', c)
    ensures Inv(s')
  {
    assert Later(s, s');
    forall d | 0 <= d < |s.cpus|
      ensures BaseOk(s', d) && ReaderOk(s', d) && FqsAt(s', d)
      ensures ListOk(s', s'.cpus[d].cbs) && BatchOk(s', s'.cpus[d].batch)
    {
      if d != c {
        HotplugOthers(s, s', c, d);
        ListKeeps(s, s', s.cpus[d].cbs);
        BatchKeeps(s, s', s.cpus[d].batch);
      }
    }
  }

  lemma {:induction false} CpuPrepareKeeps(s: State, c: nat)
    requires Inv(s) && c < |s.cpus| && s.cpus[c].phase.Dead? && CanOnline(s.tree, c)
    ensures Inv(Tick(AfterCpuPrepare(s, c)))
  {
    var s' := Tick(AfterCpuPrepare(s, c));
    HotplugStartKeeps(s.tree, c, s'.tree);
    assert BaseOk(s, c) && ReaderOk(s, c) && FqsAt(s, c);
    HotplugKeeps(s, s', c);
  }

  lemma {:induction false} CpuPrepareHopKeeps(s: State)
    requires Inv(s) && CanOnlineHop(s.tree) && s.tree.hp.cpu < |s.cpus|
    ensures Inv(Tick(AfterCpuPrepareHop(s)))
  {
    var s', c, n := Tick(AfterCpuPrepareHop(s)), s.tree.hp.cpu, s.tree.hp.at;
    OnlineHopKeeps(s.tree);
    assert NumbersAt(s.tree, n);
    hide RcuTree.Inv;
    assert BaseOk(s, c) && ReaderOk(s, c) && FqsAt(s, c);
    assert HotplugStep(s, s', c);
    HotplugKeeps(s, s', c);
  }

  lemma {:induction false} CpuDeadHopKeeps(s: State)
    requires Inv(s) && Can(s, CpuDeadHop)
    ensures Inv(After(s, CpuDeadHop))
  {
    var s', c := After(s, CpuDeadHop), s.tree.hp.cpu;
    OfflineHopKeeps(s.tree);
    hide RcuTree.Inv;
    assert BaseOk(s, c) && ReaderOk(s, c) && FqsAt(s, c);
    assert HotplugStep(s, s', c);
    HotplugKeeps(s, s', c);
  }

  /** The adopter's list after taking over the dead CPU's callbacks: the done ones are still done,
      the others start over without a number. */
  lemma {:induction false} AdoptedListOk(s: State, l: L.Segs<Cb>, dead: L.Segs<Cb>)
    requires ListOk(s, l) && ListOk(s, dead) && l.enabled
    ensures ListOk(s, L.Adopt(l, L.DoneCbs(dead), L.WaitingCbs(dead)))
  {
    var od, ow := L.DoneCbs(dead), L.WaitingCbs(dead);
    var a := L.Adopt(l, od, ow);
    forall k | 0 <= k < |a.cbs| ensures StatusOk(s, a.cbs[k], L.StatusOf(a, k)) {
      if k < l.done {
        assert StatusOk(s, l.cbs[k], L.StatusOf(l, k));
      } else if k < l.done + |od| {
        assert StatusOk(s, dead.cbs[k - l.done], L.StatusOf(dead, k - l.done));
      } else if k < |l.cbs| + |od| {
        assert a.cbs[k] == l.cbs[k - |od|];
        assert StatusOk(s, l.cbs[k - |od|], L.StatusOf(l, k - |od|));
      } else {
        var j := k - |l.cbs|;
        assert a.cbs[k] == dead.cbs[j];
        assert StatusOk(s, dead.cbs[j], L.StatusOf(dead, j));
      }
    }
  }

  lemma {:induction false} CpuDeadKeeps(s: State, c: nat, a: nat)
    requires Inv(s) && CanDie(s, c, a)
    ensures Inv(Tick(AfterCpuDead(s, c, a)))
  {
    hide RcuTree.Inv;
    var s' := Tick(AfterCpuDead(s, c, a));
    HotplugStartKeeps(s.tree, c, s'.tree);
    assert BaseOk(s, c) && ReaderOk(s, c) && FqsAt(s, c);
    assert BaseOk(s, a) && ReaderOk(s, a) && FqsAt(s, a);
    AdoptedListOk(s, s.cpus[a].cbs, s.cpus[c].cbs);
    assert Later(s, s');
    forall d | 0 <= d < |s.cpus|
      ensures BaseOk(s', d) && ReaderOk(s', d) && FqsAt(s', d)
      ensures ListOk(s', s'.cpus[d].cbs) && BatchOk(s', s'.cpus[d].batch)
    {
      assert BaseOk(s, d) && ReaderOk(s, d) && FqsAt(s, d);
      if d == a { ListKeeps(s, s', s'.cpus[a].cbs); } else if d != c { ListKeeps(s, s', s.cpus[d].cbs); }
      BatchKeeps(s, s', s.cpus[d].batch);
    }
  }

  // ----- whole runs -----

  lemma {:induction false} InitialInv(s: State)
    requires Initial(s)
    ensures Inv(s.(began := 0))
  {
    RcuTree.InitialInv(s.tree);
  }

  predicate OnCpu(a: Step) {
    a.ReadLock? || a.ReadUnlock? || a.SchedQs? || a.EqsEnter? || a.EqsExit? || a.CpuBoot? || a.CpuStop?
  }

  predicate OnKthread(a: Step) {
    || a.KthreadStart? || a.KthreadLock? || a.KthreadInit? || a.KthreadInitDone? || a.KthreadFqs? || a.KthreadFqsDone?
    || a.KthreadEnd? || a.KthreadCleanup? || a.KthreadCleanupDone?
  }

  predicate OnHotplug(a: Step) { a.CpuPrepare? || a.CpuPrepareHop? || a.CpuDead? || a.CpuDeadHop? }

  lemma {:induction false} KthreadKeeps(s: State, a: Step)
    requires Inv(s) && Can(s, a) && OnKthread(a)
    ensures Inv(After(s, a))
  {
    assert Shaped(s);
    hide Inv;
    if a.KthreadInit? { KthreadInitKeeps(s, a.cpu, a.unrecorded); }
    else if a.KthreadFqs? { FqsKeeps(s, a.walker, a.oldEnough); }
    else if a.KthreadFqsDone? { FqsMoveKeeps(s, Fqs(true, 0)); }
    else if a.KthreadEnd? { KthreadEndKeeps(s); }
    else if a.KthreadCleanup? { KthreadCleanupKeeps(s, a.cpu, a.unrecorded); }
    else if a.KthreadCleanupDone? { KthreadCleanupDoneKeeps(s, a.cpu, a.unrecorded); }
    else { KthreadPlainKeeps(s, a); }
  }

  lemma {:induction false} HotplugStepsKeep(s: State, a: Step)
    requires Inv(s) && Can(s, a) && OnHotplug(a)
    ensures Inv(After(s, a))
  {
    assert Shaped(s);
    hide Inv;
    match a {
      case CpuPrepare(c) => CpuPrepareKeeps(s, c);
      case CpuPrepareHop => CpuPrepareHopKeeps(s);
      case CpuDead(c, ad) => CpuDeadKeeps(s, c, ad);
      case CpuDeadHop => CpuDeadHopKeeps(s);
    }
  }

  lemma {:induction false} CallbackStepsKeep(s: State, a: Step)
    requires Inv(s) && Can(s, a) && !OnCpu(a) && !OnKthread(a) && !OnHotplug(a)
    ensures Inv(After(s, a))
  {
    assert Shaped(s);
    hide Inv;
    if a.CallRcu? { CallRcuKeeps(s, a.cpu, a.id); }
    else if a.NoteGp? { NoteGpKeeps(s, a.cpu); }
    else if a.GpEndNoticed? { GpEndNoticedKeeps(s, a.cpu, a.unrecorded); }
    else if a.StartGp? { StartGpKeeps(s, a.cpu, a.unrecorded); }
    else if a.ReportQs? { ReportQsKeeps(s, a.cpu, a.walker, a.unrecorded); }
    else if a.WalkUp? { WalkUpKeeps(s, a.walker); }
    else if a.BatchBegin? { BatchBeginKeeps(s, a.cpu); }
    else if a.Invoke? { InvokeKeeps(s, a.cpu); }
    else { BatchEndKeeps(s, a.cpu); }
  }

  lemma {:induction false} NextKeeps(s: State, s': State)
    requires Inv(s) && Next(s, s')
    ensures Inv(s')
  {
    assert Shaped(s);
    hide Inv;
    var a :| Can(s, a) && s' == After(s, a);
    if OnCpu(a) { ActivityKeeps(s, a, a.cpu); }
    else if OnKthread(a) { KthreadKeeps(s, a); }
    else if OnHotplug(a) { HotplugStepsKeep(s, a); }
    else { CallbackStepsKeep(s, a); }
  }

  /** A run of the whole machine, every interleaving of its steps allowed. */
  ghost predicate IsRun(run: seq<State>) {
    && run != []
    && if |run| == 1 then Initial(run[0]) && run[0].began == 0
       else IsRun(run[..|run| - 1]) && Next(run[|run| - 2], run[|run| - 1])
  }

  lemma {:induction false} RunKeeps(run: seq<State>)
    requires IsRun(run)
    ensures Inv(run[|run| - 1])
  {
    if |run| == 1 {
      InitialInv(run[0]);
    } else {
      RunKeeps(run[..|run| - 1]);
      NextKeeps(run[|run| - 2], run[|run| - 1]);
    }
  }

  lemma {:induction false} PrefixIsRun(run: seq<State>, i: nat)
    requires IsRun(run) && i < |run|
    ensures IsRun(run[..i + 1])
  {
    if i + 1 == |run| {
      assert run[..i + 1] == run;
    } else {
      PrefixIsRun(run[..|run| - 1], i);
      assert run[..|run| - 1][..i + 1] == run[..i + 1];
    }
  }

  /** Grace-period safety.  Let a callback be registered at state `i` of a run, and let CPU `c` be in a
      read-side section at that moment.  If the callback is about to be invoked at state `j`, on any CPU and
      after any hotplug operations, then that section has ended. */
  lemma {:induction false} GracePeriodSafety(run: seq<State>, i: nat, j: nat, cb: Cb, invoker: nat, c: nat)
    requires IsRun(run) && i < |run| && j < |run|
    requires cb.born == run[i].now
    requires c < |run[i].cpus| && run[i].cpus[c].reader.Some?
    requires c < |run[j].cpus| && invoker < |run[j].cpus|
    requires run[j].cpus[invoker].batch != [] && run[j].cpus[invoker].batch[0] == cb
    ensures run[j].cpus[c].reader != run[i].cpus[c].reader
  {
    PrefixIsRun(run, i);
    RunKeeps(run[..i + 1]);
    PrefixIsRun(run, j);
    RunKeeps(run[..j + 1]);
    assert BaseOk(run[i], c);
    assert BatchOk(run[j], run[j].cpus[invoker].batch);
    assert StatusOk(run[j], cb, L.Done);
  }

  // ----- whom a grace period waits for -----

  /** In every run, apart from the CPU whose hotplug operation is in flight, a CPU is in its leaf's mask exactly if it
      is not dead. */
  lemma {:induction false} LeafKnowsTheLiving(run: seq<State>, c: nat)
    requires IsRun(run) && c < |run[|run| - 1].cpus|
    ensures var s := run[|run| - 1];
      && Shaped(s)
      && (s.tree.hp.NoHotplug? || s.tree.hp.cpu != c ==>
            (c in s.tree.nodes[Leaf(s, c)].qsmaskinit <==> !s.cpus[c].phase.Dead?))
  {
    RunKeeps(run);
    assert BaseOk(run[|run| - 1], c);
  }

  /** A grace period waits, at a leaf that it is recorded in, for exactly the CPUs of the leaf that are not dead. */
  lemma {:induction false} InitWaitsForTheLiving(run: seq<State>, c: nat, u: bool)
    requires IsRun(run) && Shaped(run[|run| - 1]) && Can(run[|run| - 1], KthreadInit(c, u))
    ensures var s := run[|run| - 1]; var n := s.tree.kt.next;
      IsLeaf(s.tree.tp, n) ==>
        After(s, KthreadInit(c, u)).tree.nodes[n].qsmask ==
          set d | 0 <= d < |s.cpus| && Leaf(s, d) == n && !s.cpus[d].phase.Dead?
  {
    RunKeeps(run);
    var s := run[|run| - 1];
    var n := s.tree.kt.next;
    assert BitsAt(s.tree, n);
    forall d | 0 <= d < |s.cpus| && Leaf(s, d) == n
      ensures d in s.tree.nodes[n].qsmaskinit <==> !s.cpus[d].phase.Dead?
    {
      assert BaseOk(s, d);
    }
  }

  /** And at any other node for exactly the children that have a CPU below them that is not dead. */
  lemma {:induction false} NodeKnowsTheLiving(run: seq<State>, n: nat)
    requires IsRun(run) && run[|run| - 1].tree.hp.NoHotplug? && n < |run[|run| - 1].tree.nodes|
    ensures var s := run[|run| - 1];
      && Shaped(s)
      && (s.tree.nodes[n].qsmaskinit != {} <==>
            exists c :: 0 <= c < |s.cpus| && !s.cpus[c].phase.Dead? && Under(s.tree.tp, n, Leaf(s, c)))
  {
    RunKeeps(run);
    var s := run[|run| - 1];
    if s.tree.nodes[n].qsmaskinit != {} {
      var l := LeafBelow(s.tree, n);
      assert BitsAt(s.tree, l);
      var c :| c in s.tree.nodes[l].qsmaskinit;
      assert BaseOk(s, c);
    }
    forall c | 0 <= c < |s.cpus| && !s.cpus[c].phase.Dead? && Under(s.tree.tp, n, Leaf(s, c))
      ensures s.tree.nodes[n].qsmaskinit != {}
    {
      assert BaseOk(s, c);
      KnownAbove(s.tree, n, Leaf(s, c));
    }
  }
}
