/**
_rcu_barrier: wait until every callback registered before the call has been
invoked.  Any number of callers run concurrently with CPUs registering and
invoking callbacks and with CPUs going offline, whose callbacks pass through
the orphanage to another CPU.

A CPU's outstanding callbacks are, in the order of invocation, the rest of the
batch that rcu_do_batch is working on, the done callbacks and the waiting ones.
Callbacks carry the number of their registration; `pre` (what was outstanding
at a call), `target` (what was outstanding when the current barrier began) and
`invoked` are history only.
*/
module RcuBarrier {
  import opened Common

  datatype Cb = Plain(id: nat) | Barrier(cpu: nat)

  datatype Cpu = Cpu(online: bool, batch: seq<Cb>, done: seq<Cb>, wait: seq<Cb>, qlen: int, count: nat)

  /** Where a caller of _rcu_barrier stands. */
  datatype Pc =
    | Snapped              // has read n_barrier_done, waits for barrier_mutex
    | Checking             // holds the mutex
    | Begun                // has made n_barrier_done odd and set barrier_cpu_count to one
    | Looping(next: nat)   // inside get_online_cpus, about to look at this CPU
    | Calling(next: nat)   // has seen callbacks on this CPU, about to interrupt it
    | Dropping             // about to remove the initial count
    | Counting             // about to make n_barrier_done even again
    | Completing           // waits for barrier_completion
    | Returned

  datatype Caller = Caller(snap: nat, pc: Pc, pre: set<Cb>)

  datatype State = State(cpus: seq<Cpu>, callers: map<nat, Caller>, mutex: Option<nat>,
                         nBarrierDone: nat, cpuCount: int, completion: bool, nextId: nat,
                         target: set<Cb>, invoked: set<nat>)

  function Queue(cpu: Cpu): seq<Cb> { cpu.batch + cpu.done + cpu.wait }

  ghost predicate Outstanding(s: State, cb: Cb) {
    exists c :: 0 <= c < |s.cpus| && cb in Queue(s.cpus[c])
  }

  ghost function AllPlain(s: State): set<Cb> {
    set c, k | 0 <= c < |s.cpus| && 0 <= k < |Queue(s.cpus[c])| && Queue(s.cpus[c])[k].Plain? :: Queue(s.cpus[c])[k]
  }

  // ----- the steps -----

  datatype Step =
    | Register(cpu: nat)
    | Advance(cpu: nat, k: nat)
    | BatchBegin(cpu: nat)
    | Invoke(cpu: nat)
    | BatchEnd(cpu: nat)
    | CpuUp(cpu: nat)
    | CpuDown(cpu: nat, adopter: nat)
    | Call(p: nat)
    | Lock(p: nat)
    | EarlyExit(p: nat)
    | Begin(p: nat)
    | GetOnline(p: nat)
    | Look(p: nat)
    | CallFunc(p: nat)
    | PutOnline(p: nat)
    | Drop(p: nat)
    | CountDone(p: nat)
    | Finish(p: nat)

  predicate IsOnline(s: State, c: nat) { c < |s.cpus| && s.cpus[c].online }

  predicate AtPc(s: State, p: nat, pc: Pc) { p in s.callers && s.callers[p].pc == pc }

  /** get_online_cpus excludes hotplug operations. */
  ghost predicate HotplugExcluded(s: State) {
    exists p :: p in s.callers && (s.callers[p].pc.Looping? || s.callers[p].pc.Calling?)
  }

  function RoundUp(n: nat): nat { (n + 1) / 2 * 2 }

  ghost predicate Can(s: State, a: Step) {
    match a
    case Register(c) => IsOnline(s, c)
    case Advance(c, k) => c < |s.cpus| && k <= |s.cpus[c].wait|
    case BatchBegin(c) => IsOnline(s, c) && s.cpus[c].batch == [] && s.cpus[c].count == 0
    case Invoke(c) => IsOnline(s, c) && s.cpus[c].batch != []
    case BatchEnd(c) => IsOnline(s, c)
    case CpuUp(c) => c < |s.cpus| && !HotplugExcluded(s)
    case CpuDown(c, a) =>
      IsOnline(s, c) && IsOnline(s, a) && a != c && s.cpus[c].batch == [] && s.cpus[c].count == 0 && !HotplugExcluded(s)
    case Call(p) => p !in s.callers
    case Lock(p) => AtPc(s, p, Snapped) && s.mutex.None?
    case EarlyExit(p) => AtPc(s, p, Checking) && s.nBarrierDone >= RoundUp(s.callers[p].snap) + 2
    case Begin(p) => AtPc(s, p, Checking) && s.nBarrierDone < RoundUp(s.callers[p].snap) + 2
    case GetOnline(p) => AtPc(s, p, Begun)
    case Look(p) => p in s.callers && s.callers[p].pc.Looping? && s.callers[p].pc.next < |s.cpus|
    case CallFunc(p) => p in s.callers && s.callers[p].pc.Calling? && s.callers[p].pc.next < |s.cpus|
    case PutOnline(p) => AtPc(s, p, Looping(|s.cpus|))
    case Drop(p) => AtPc(s, p, Dropping)
    case CountDone(p) => AtPc(s, p, Counting)
    case Finish(p) => AtPc(s, p, Completing) && s.completion
  }

  function SetCpu(s: State, c: nat, cpu: Cpu): State
    requires c < |s.cpus|
  {
    s.(cpus := s.cpus[c := cpu])
  }

  function SetPc(s: State, p: nat, pc: Pc): State
    requires p in s.callers
  {
    s.(callers := s.callers[p := s.callers[p].(pc := pc)])
  }

  /** atomic_dec_and_test on barrier_cpu_count, and complete() when it reaches zero. */
  function DecAndTest(s: State): State {
    s.(cpuCount := s.cpuCount - 1, completion := s.completion || s.cpuCount - 1 == 0)
  }

  /** __call_rcu on CPU `c`. */
  function Enqueue(s: State, c: nat, cb: Cb): State
    requires c < |s.cpus|
  {
    SetCpu(s, c, s.cpus[c].(wait := s.cpus[c].wait + [cb], qlen := s.cpus[c].qlen + 1))
  }

  function AfterInvoke(s: State, c: nat): State
    requires c < |s.cpus| && s.cpus[c].batch != []
  {
    var cpu := s.cpus[c];
    var s' := SetCpu(s, c, cpu.(batch := cpu.batch[1..], count := cpu.count + 1));
    if cpu.batch[0].Barrier? then DecAndTest(s') else s'.(invoked := s.invoked + {cpu.batch[0].id})
  }

  /** The callbacks of dead CPU `c` go through the orphanage to CPU `a`. */
  function AfterCpuDown(s: State, c: nat, a: nat): State
    requires c < |s.cpus| && a < |s.cpus|
  {
    var dead, adopter := s.cpus[c], s.cpus[a];
    var s' := SetCpu(s, a, adopter.(done := adopter.done + dead.done, wait := adopter.wait + dead.wait,
                                    qlen := adopter.qlen + dead.qlen));
    SetCpu(s', c, dead.(online := false, done := [], wait := [], qlen := 0))
  }

  function AfterLook(s: State, p: nat): State
    requires p in s.callers && s.callers[p].pc.Looping? && s.callers[p].pc.next < |s.cpus|
  {
    var c := s.callers[p].pc.next;
    if s.cpus[c].online && s.cpus[c].qlen != 0 then SetPc(s, p, Calling(c)) else SetPc(s, p, Looping(c + 1))
  }

  /** rcu_barrier_func on CPU `c`. */
  function AfterCallFunc(s: State, p: nat): State
    requires p in s.callers && s.callers[p].pc.Calling? && s.callers[p].pc.next < |s.cpus|
  {
    var c := s.callers[p].pc.next;
    SetPc(Enqueue(s, c, Barrier(c)).(cpuCount := s.cpuCount + 1), p, Looping(c + 1))
  }

  ghost function After(s: State, a: Step): State
    requires Can(s, a)
  {
    match a
    case Register(c) => Enqueue(s, c, Plain(s.nextId)).(nextId := s.nextId + 1)
    case Advance(c, k) =>
      SetCpu(s, c, s.cpus[c].(done := s.cpus[c].done + s.cpus[c].wait[..k], wait := s.cpus[c].wait[k..]))
    case BatchBegin(c) => SetCpu(s, c, s.cpus[c].(batch := s.cpus[c].done, done := []))
    case Invoke(c) => AfterInvoke(s, c)
    case BatchEnd(c) =>
      SetCpu(s, c, s.cpus[c].(done := s.cpus[c].batch + s.cpus[c].done, batch := [],
                              qlen := s.cpus[c].qlen - s.cpus[c].count, count := 0))
    case CpuUp(c) => SetCpu(s, c, s.cpus[c].(online := true))
    case CpuDown(c, a) => AfterCpuDown(s, c, a)
    case Call(p) => s.(callers := s.callers[p := Caller(s.nBarrierDone, Snapped, AllPlain(s))])
    case Lock(p) => SetPc(s, p, Checking).(mutex := Some(p))
    case EarlyExit(p) => SetPc(s, p, Returned).(mutex := None)
    case Begin(p) =>
      SetPc(s, p, Begun).(nBarrierDone := s.nBarrierDone + 1, cpuCount := 1, completion := false, target := AllPlain(s))
    case GetOnline(p) => SetPc(s, p, Looping(0))
    case Look(p) => AfterLook(s, p)
    case CallFunc(p) => AfterCallFunc(s, p)
    case PutOnline(p) => SetPc(s, p, Dropping)
    case Drop(p) => SetPc(DecAndTest(s), p, Counting)
    case CountDone(p) => SetPc(s, p, Completing).(nBarrierDone := s.nBarrierDone + 1)
    case Finish(p) => SetPc(s, p, Returned).(mutex := None)
  }

  ghost predicate Next(s: State, s': State) { exists a :: Can(s, a) && s' == After(s, a) }

  ghost predicate Initial(s: State) {
    && (forall c :: 0 <= c < |s.cpus| ==> s.cpus[c] == Cpu(s.cpus[c].online, [], [], [], 0, 0))
    && s.callers == map[] && s.mutex.None? && s.nBarrierDone == 0 && s.target == {} && s.nextId == 0 && s.invoked == {}
  }

  // ----- counting barrier callbacks -----

  function Barriers(q: seq<Cb>): nat {
    if q == [] then 0 else (if q[0].Barrier? then 1 else 0) + Barriers(q[1..])
  }

  function Total(cpus: seq<Cpu>): nat {
    if cpus == [] then 0 else Barriers(Queue(cpus[0])) + Total(cpus[1..])
  }

  lemma {:induction false} BarriersConcat(a: seq<Cb>, b: seq<Cb>)
    ensures Barriers(a + b) == Barriers(a) + Barriers(b)
  {
    if a == [] {
      assert a + b == b;
    } else {
      assert (a + b)[1..] == a[1..] + b;
      BarriersConcat(a[1..], b);
    }
  }

  lemma {:induction false} BarriersZero(q: seq<Cb>, k: nat)
    requires Barriers(q) == 0 && k < |q|
    ensures q[k].Plain?
  {
    if k > 0 { BarriersZero(q[1..], k - 1); }
  }

  lemma {:induction false} TotalUpdate(cpus: seq<Cpu>, c: nat, cpu: Cpu)
    requires c < |cpus|
    ensures Total(cpus[c := cpu]) == Total(cpus) - Barriers(Queue(cpus[c])) + Barriers(Queue(cpu))
  {
    if c == 0 {
      assert cpus[0 := cpu][1..] == cpus[1..];
    } else {
      assert cpus[c := cpu][1..] == cpus[1..][c - 1 := cpu];
      TotalUpdate(cpus[1..], c - 1, cpu);
    }
  }

  lemma {:induction false} TotalBound(cpus: seq<Cpu>, c: nat)
    requires c < |cpus|
    ensures Barriers(Queue(cpus[c])) <= Total(cpus)
  {
    if c > 0 { TotalBound(cpus[1..], c - 1); }
  }

  lemma {:induction false} TotalEmpty(cpus: seq<Cpu>)
    requires forall c :: 0 <= c < |cpus| ==> Queue(cpus[c]) == []
    ensures Total(cpus) == 0
  {
    if cpus != [] {
      assert Queue(cpus[0]) == [];
      assert forall c :: 0 <= c < |cpus[1..]| ==> cpus[1..][c] == cpus[c + 1];
      TotalEmpty(cpus[1..]);
    }
  }

  // ----- the invariant -----

  predicate InRun(pc: Pc) { !pc.Snapped? && !pc.Returned? && !pc.Checking? }

  predicate ActiveRun(s: State) { s.mutex.Some? && s.mutex.value in s.callers && InRun(s.callers[s.mutex.value].pc) }

  /** The pc of the caller whose barrier is running. */
  function RunPc(s: State): Pc
    requires ActiveRun(s)
  {
    s.callers[s.mutex.value].pc
  }

  /** Has the running barrier still to look at CPU `c`? */
  predicate StillToVisit(pc: Pc, c: nat) { pc.Begun? || ((pc.Looping? || pc.Calling?) && pc.next <= c) }

  predicate InitialCount(pc: Pc) { pc.Begun? || pc.Looping? || pc.Calling? || pc.Dropping? }

  /** The value of n_barrier_done when the last barrier finished. */
  function LastDone(s: State): int {
    if !ActiveRun(s) then s.nBarrierDone
    else if RunPc(s).Completing? then s.nBarrierDone - 2 else s.nBarrierDone - 1
  }

  ghost predicate BarrierAfter(q: seq<Cb>, k: nat) { exists j :: k < j < |q| && q[j].Barrier? }

  /** Every occurrence of `t` is followed by a barrier callback. */
  ghost predicate Covered(q: seq<Cb>, t: Cb) {
    forall k :: 0 <= k < |q| && q[k] == t ==> BarrierAfter(q, k)
  }

  ghost predicate CpuOk(s: State, c: nat)
    requires c < |s.cpus|
  {
    var cpu := s.cpus[c];
    && cpu.qlen == |Queue(cpu)| + cpu.count
    && (!cpu.online ==> Queue(cpu) == [] && cpu.count == 0)
    && (forall cb :: cb in Queue(cpu) && cb.Plain? ==> cb.id < s.nextId)
  }

  ghost predicate CoverOk(s: State, c: nat)
    requires c < |s.cpus|
  {
    ActiveRun(s) ==> forall t :: t in s.target ==> StillToVisit(RunPc(s), c) || Covered(Queue(s.cpus[c]), t)
  }

  ghost predicate NoneLeft(s: State, cbs: set<Cb>) { forall cb :: cb in cbs ==> !Outstanding(s, cb) }

  ghost predicate CallerOk(s: State, p: nat)
    requires p in s.callers
  {
    var caller := s.callers[p];
    && caller.snap <= s.nBarrierDone
    && ((caller.pc.Snapped? || caller.pc.Returned?) <==> s.mutex != Some(p))
    && (forall cb :: cb in caller.pre ==> cb.Plain? && cb.id < s.nextId)
    && (caller.snap + 2 <= LastDone(s) ==> NoneLeft(s, caller.pre))
    && (ActiveRun(s) && caller.snap <= LastDone(s) ==>
          forall cb :: cb in caller.pre && Outstanding(s, cb) ==> cb in s.target)
    && (InRun(caller.pc) ==> caller.snap <= LastDone(s))
    && (caller.pc.Looping? ==> caller.pc.next <= |s.cpus|)
    && (caller.pc.Calling? ==> IsOnline(s, caller.pc.next))
    && (caller.pc.Returned? ==> NoneLeft(s, caller.pre))
  }

  ghost predicate RunOk(s: State) {
    && (s.mutex.Some? ==> s.mutex.value in s.callers)
    && (s.nBarrierDone % 2 == 1 <==> ActiveRun(s) && !RunPc(s).Completing?)
    && (if ActiveRun(s) then
          && s.cpuCount == Total(s.cpus) + (if InitialCount(RunPc(s)) then 1 else 0)
          && (s.completion <==> s.cpuCount == 0)
        else Total(s.cpus) == 0)
    && (forall t :: t in s.target ==> t.Plain? && t.id < s.nextId)
  }

  ghost predicate Inv(s: State) {
    && RunOk(s)
    && (forall c :: 0 <= c < |s.cpus| ==> CpuOk(s, c))
    && (forall c :: 0 <= c < |s.cpus| ==> CoverOk(s, c))
    && (forall p :: p in s.callers ==> CallerOk(s, p))
  }

  lemma {:induction false} InitialInv(s: State)
    requires Initial(s)
    ensures Inv(s)
  {
    TotalEmpty(s.cpus);
  }

  // ----- steps of the CPUs -----

  /** Nothing registered before has come back to life. */
  ghost predicate Fewer(s: State, s': State) {
    && s.nextId <= s'.nextId
    && forall cb: Cb :: cb.Plain? && cb.id < s.nextId && Outstanding(s', cb) ==> Outstanding(s, cb)
  }

  lemma {:induction false} CpuStepKeeps(s: State, s': State)
    requires Inv(s)
    requires s' == s.(cpus := s'.cpus, nextId := s'.nextId, cpuCount := s'.cpuCount, completion := s'.completion,
                         invoked := s'.invoked)
    requires Fewer(s, s') && RunOk(s') && |s'.cpus| == |s.cpus|
    requires forall c :: IsOnline(s, c) ==> IsOnline(s', c) || !HotplugExcluded(s)
    requires forall c :: 0 <= c < |s.cpus| ==> CpuOk(s', c) && CoverOk(s', c)
    ensures Inv(s')
  {
    forall p | p in s.callers ensures CallerOk(s', p) {
      assert CallerOk(s, p);
    }
  }

  /** A step that changes the queue of one CPU. */
  lemma {:induction false} OneCpuKeeps(s: State, c: nat, cpu: Cpu, s': State)
    requires Inv(s) && c < |s.cpus| && s'.cpus == s.cpus[c := cpu]
    requires s' == s.(cpus := s'.cpus, nextId := s'.nextId, cpuCount := s'.cpuCount, completion := s'.completion,
                         invoked := s'.invoked)
    requires s.nextId <= s'.nextId && CpuOk(s', c) && (s.cpus[c].online ==> cpu.online)
    requires forall cb: Cb :: cb.Plain? && cb.id < s.nextId && cb in Queue(cpu) ==> cb in Queue(s.cpus[c])
    requires forall t :: t in s.target && Covered(Queue(s.cpus[c]), t) ==> Covered(Queue(cpu), t)
    requires s'.cpuCount - s.cpuCount == Barriers(Queue(cpu)) - Barriers(Queue(s.cpus[c]))
    requires ActiveRun(s) ==> (s'.completion <==> s'.cpuCount == 0)
    requires !ActiveRun(s) ==> s'.cpuCount == s.cpuCount
    ensures Inv(s')
  {
    TotalUpdate(s.cpus, c, cpu);
    assert Fewer(s, s') by {
      forall cb: Cb | cb.Plain? && cb.id < s.nextId && Outstanding(s', cb) ensures Outstanding(s, cb) {
        var d :| 0 <= d < |s'.cpus| && cb in Queue(s'.cpus[d]);
        assert cb in Queue(s.cpus[d]);
      }
    }
    forall d | 0 <= d < |s.cpus| ensures CpuOk(s', d) && CoverOk(s', d) {
      assert CoverOk(s, d);
      if d != c { assert CpuOk(s, d); }
    }
    CpuStepKeeps(s, s');
  }

  lemma {:induction false} SameQueueKeeps(s: State, c: nat, cpu: Cpu)
    requires Inv(s) && c < |s.cpus| && Queue(cpu) == Queue(s.cpus[c])
    requires cpu.qlen - cpu.count == s.cpus[c].qlen - s.cpus[c].count
    requires !cpu.online ==> !s.cpus[c].online && cpu.count == s.cpus[c].count
    ensures Inv(SetCpu(s, c, cpu))
  {
    assert CpuOk(s, c);
    OneCpuKeeps(s, c, cpu, SetCpu(s, c, cpu));
  }

  /** Appending a callback at the end keeps what is covered covered. */
  lemma {:induction false} CoveredAppend(q: seq<Cb>, x: Cb, t: Cb)
    requires Covered(q, t) && x != t
    ensures Covered(q + [x], t)
  {
    forall k | 0 <= k < |q + [x]| && (q + [x])[k] == t ensures BarrierAfter(q + [x], k) {
      assert BarrierAfter(q, k);
      var j :| k < j < |q| && q[j].Barrier?;
      assert (q + [x])[j].Barrier?;
    }
  }

  lemma {:induction false} CoveredTail(q: seq<Cb>, t: Cb)
    requires Covered(q, t) && q != []
    ensures Covered(q[1..], t)
  {
    forall k | 0 <= k < |q[1..]| && q[1..][k] == t ensures BarrierAfter(q[1..], k) {
      assert BarrierAfter(q, k + 1);
      var j :| k + 1 < j < |q| && q[j].Barrier?;
      assert q[1..][j - 1].Barrier?;
    }
  }

  lemma {:induction false} RegisterKeeps(s: State, c: nat)
    requires Inv(s) && Can(s, Register(c))
    ensures Inv(After(s, Register(c)))
  {
    var s', x := After(s, Register(c)), Plain(s.nextId);
    var q := Queue(s.cpus[c]);
    assert Queue(s'.cpus[c]) == q + [x];
    assert CpuOk(s, c);
    BarriersConcat(q, [x]);
    forall t | t in s.target && Covered(q, t) ensures Covered(q + [x], t) { CoveredAppend(q, x, t); }
    OneCpuKeeps(s, c, s'.cpus[c], s');
  }

  lemma {:induction false} InvokeKeeps(s: State, c: nat)
    requires Inv(s) && Can(s, Invoke(c))
    ensures Inv(After(s, Invoke(c)))
  {
    var s' := After(s, Invoke(c));
    var q := Queue(s.cpus[c]);
    assert Queue(s'.cpus[c]) == q[1..] && q[0] == s.cpus[c].batch[0];
    assert CpuOk(s, c);
    TotalBound(s.cpus, c);
    forall t | t in s.target && Covered(q, t) ensures Covered(q[1..], t) { CoveredTail(q, t); }
    OneCpuKeeps(s, c, s'.cpus[c], s');
  }

  lemma {:induction false} LocalKeeps(s: State, a: Step)
    requires Inv(s) && Can(s, a) && (a.Advance? || a.BatchBegin? || a.BatchEnd? || a.CpuUp?)
    ensures Inv(After(s, a))
  {
    var s', c := After(s, a), a.cpu;
    var cpu := s.cpus[c];
    assert CpuOk(s, c);
    if a.Advance? { assert cpu.wait == cpu.wait[..a.k] + cpu.wait[a.k..]; }
    assert Queue(s'.cpus[c]) == Queue(cpu);
    SameQueueKeeps(s, c, s'.cpus[c]);
  }

  /** The order in which orphaned callbacks are adopted keeps what is covered covered, on either side. */
  lemma {:induction false} CoveredMerge(a: seq<Cb>, x: seq<Cb>, b: seq<Cb>, y: seq<Cb>, t: Cb)
    requires Covered(a + b, t) && Covered(x + y, t)
    ensures Covered(a + x + b + y, t)
  {
    var m := a + x + b + y;
    forall k | 0 <= k < |m| && m[k] == t ensures BarrierAfter(m, k) {
      if k < |a| || |a| + |x| <= k < |a| + |x| + |b| {
        var i := if k < |a| then k else k - |x|;
        assert (a + b)[i] == t && BarrierAfter(a + b, i);
        var j :| i < j < |a + b| && (a + b)[j].Barrier?;
        assert m[if j < |a| then j else j + |x|].Barrier?;
      } else {
        var i := if k < |a| + |x| then k - |a| else k - |a| - |b|;
        assert (x + y)[i] == t && BarrierAfter(x + y, i);
        var j :| i < j < |x + y| && (x + y)[j].Barrier?;
        assert m[if j < |x| then j + |a| else j + |a| + |b|].Barrier?;
      }
    }
  }

  lemma {:induction false} CpuDownFewer(s: State, c: nat, a: nat)
    requires Inv(s) && Can(s, CpuDown(c, a))
    ensures Fewer(s, AfterCpuDown(s, c, a))
  {
    var s' := AfterCpuDown(s, c, a);
    forall cb: Cb | cb.Plain? && cb.id < s.nextId && Outstanding(s', cb) ensures Outstanding(s, cb) {
      var d :| 0 <= d < |s'.cpus| && cb in Queue(s'.cpus[d]);
      if d == a { assert cb in Queue(s.cpus[a]) || cb in Queue(s.cpus[c]); }
      else { assert d != c && cb in Queue(s.cpus[d]); }
    }
  }

  lemma {:induction false} BarriersMerge(a: seq<Cb>, x: seq<Cb>, b: seq<Cb>, y: seq<Cb>)
    ensures Barriers(a + x + b + y) == Barriers(a + b) + Barriers(x + y)
  {
    BarriersConcat(a, b);
    BarriersConcat(x, y);
    BarriersConcat(a, x);
    BarriersConcat(a + x, b);
    BarriersConcat(a + x + b, y);
  }

  /** What the dead CPU and its adopter have in their queues before and after. */
  lemma {:induction false} CpuDownQueues(s: State, c: nat, a: nat)
    requires Can(s, CpuDown(c, a))
    ensures var s', dead, ad := AfterCpuDown(s, c, a), s.cpus[c], s.cpus[a];
            && Queue(dead) == dead.done + dead.wait
            && Queue(ad) == (ad.batch + ad.done) + ad.wait
            && Queue(s'.cpus[a]) == (ad.batch + ad.done) + dead.done + ad.wait + dead.wait
            && Queue(s'.cpus[c]) == []
  {
  }

  lemma {:induction false} CpuDownTotal(s: State, c: nat, a: nat)
    requires Can(s, CpuDown(c, a))
    ensures Total(AfterCpuDown(s, c, a).cpus) == Total(s.cpus)
  {
    var s', dead, ad := AfterCpuDown(s, c, a), s.cpus[c], s.cpus[a];
    CpuDownQueues(s, c, a);
    BarriersMerge(ad.batch + ad.done, dead.done, ad.wait, dead.wait);
    TotalUpdate(s.cpus, a, s'.cpus[a]);
    TotalUpdate(s.cpus[a := s'.cpus[a]], c, s'.cpus[c]);
  }

  lemma {:induction false} CpuDownCover(s: State, c: nat, a: nat)
    requires Inv(s) && Can(s, CpuDown(c, a))
    ensures CoverOk(AfterCpuDown(s, c, a), a)
  {
    var s', dead, ad := AfterCpuDown(s, c, a), s.cpus[c], s.cpus[a];
    CpuDownQueues(s, c, a);
    assert CoverOk(s, a) && CoverOk(s, c);
    if ActiveRun(s) {
      forall t | t in s.target ensures StillToVisit(RunPc(s'), a) || Covered(Queue(s'.cpus[a]), t) {
        if !StillToVisit(RunPc(s), a) {
          assert !StillToVisit(RunPc(s), c);
          CoveredMerge(ad.batch + ad.done, dead.done, ad.wait, dead.wait, t);
        }
      }
    }
  }

  lemma {:induction false} CpuDownCpu(s: State, c: nat, a: nat)
    requires Inv(s) && Can(s, CpuDown(c, a))
    ensures CpuOk(AfterCpuDown(s, c, a), a) && CpuOk(AfterCpuDown(s, c, a), c)
  {
    CpuDownQueues(s, c, a);
    assert CpuOk(s, a) && CpuOk(s, c);
  }

  lemma {:induction false} CpuDownKeeps(s: State, c: nat, a: nat)
    requires Inv(s) && Can(s, CpuDown(c, a))
    ensures Inv(After(s, CpuDown(c, a)))
  {
    var s' := AfterCpuDown(s, c, a);
    CpuDownFewer(s, c, a);
    CpuDownTotal(s, c, a);
    CpuDownCover(s, c, a);
    CpuDownCpu(s, c, a);
    CpuDownQueues(s, c, a);
    forall d | 0 <= d < |s.cpus| ensures CpuOk(s', d) && CoverOk(s', d) {
      if d != a && d != c { assert CpuOk(s, d) && CoverOk(s, d) && s'.cpus[d] == s.cpus[d]; }
    }
    CpuStepKeeps(s, s');
  }

  // ----- steps of the callers -----

  lemma {:induction false} OutstandingPlain(s: State, cb: Cb)
    requires cb.Plain?
    ensures Outstanding(s, cb) <==> cb in AllPlain(s)
  {
  }

  ghost predicate AllCovered(s: State, q: seq<Cb>) { forall t :: t in s.target ==> Covered(q, t) }

  /** On every CPU that is no longer to be visited, all targets are covered. */
  ghost predicate VisitedCovered(s: State, pc: Pc, pc': Pc) {
    forall c :: 0 <= c < |s.cpus| && StillToVisit(pc, c) ==> StillToVisit(pc', c) || AllCovered(s, Queue(s.cpus[c]))
  }

  /** A step of caller `p` that leaves the CPUs alone. */
  lemma {:induction false} CallerStepKeeps(s: State, p: nat, s': State)
    requires Inv(s) && s'.cpus == s.cpus && s'.nextId == s.nextId && p in s.callers && p in s'.callers
    requires s'.callers == s.callers[p := s'.callers[p]]
    requires s.mutex == None || s.mutex == Some(p)
    requires s'.mutex == None || s'.mutex == Some(p)
    requires RunOk(s') && CallerOk(s', p)
    requires s.nBarrierDone <= s'.nBarrierDone
    requires LastDone(s') == LastDone(s)
      || (!ActiveRun(s') && LastDone(s') == LastDone(s) + 2 && ActiveRun(s) && NoneLeft(s, s.target))
    requires ActiveRun(s') ==> if ActiveRun(s) then s'.target == s.target else s'.target == AllPlain(s)
    requires ActiveRun(s') && ActiveRun(s) ==> VisitedCovered(s, RunPc(s), RunPc(s'))
    requires ActiveRun(s') && !ActiveRun(s) ==> RunPc(s').Begun?
    ensures Inv(s')
  {
    forall cb ensures Outstanding(s', cb) == Outstanding(s, cb) { }
    forall c | 0 <= c < |s.cpus| ensures CpuOk(s', c) && CoverOk(s', c) {
      assert CpuOk(s, c) && CoverOk(s, c);
    }
    forall q | q in s'.callers ensures CallerOk(s', q) {
      if q != p {
        assert CallerOk(s, q);
        assert s'.callers[q] == s.callers[q];
        forall cb | cb in s.callers[q].pre && Outstanding(s, cb) ensures cb in AllPlain(s) { OutstandingPlain(s, cb); }
      }
    }
  }

  lemma {:induction false} AllPlainIds(s: State)
    requires Inv(s)
    ensures forall t :: t in AllPlain(s) ==> t.Plain? && t.id < s.nextId
  {
    forall t | t in AllPlain(s) ensures t.Plain? && t.id < s.nextId {
      OutstandingPlain(s, t);
      var c :| 0 <= c < |s.cpus| && t in Queue(s.cpus[c]);
      assert CpuOk(s, c);
    }
  }

  lemma {:induction false} CallKeeps(s: State, p: nat)
    requires Inv(s) && Can(s, Call(p))
    ensures Inv(After(s, Call(p)))
  {
    AllPlainIds(s);
    var s' := s.(callers := s.callers[p := Caller(s.nBarrierDone, Snapped, AllPlain(s))]);
    assert s' == After(s, Call(p));
    forall cb ensures Outstanding(s', cb) == Outstanding(s, cb) { }
    hide Covered, Outstanding, Queue, Can, After;
    forall c | 0 <= c < |s.cpus| ensures CpuOk(s', c) && CoverOk(s', c) { assert CpuOk(s, c) && CoverOk(s, c); }
    forall q | q in s.callers ensures CallerOk(s', q) { assert CallerOk(s, q); }
    NewCallerOk(s, p, s');
  }

  /** A new caller, whose `pre` is what is outstanding now. */
  lemma {:induction false} NewCallerOk(s: State, p: nat, s': State)
    requires Inv(s) && p !in s.callers
    requires s' == s.(callers := s.callers[p := Caller(s.nBarrierDone, Snapped, AllPlain(s))])
    ensures CallerOk(s', p)
  {
    AllPlainIds(s);
  }

  /** Once barrier_cpu_count is back to zero, every target of the barrier has been invoked. */
  lemma {:induction false} CountZeroMeansInvoked(s: State)
    requires Inv(s) && ActiveRun(s) && s.cpuCount == 0
    ensures NoneLeft(s, s.target)
  {
    forall t | t in s.target ensures !Outstanding(s, t) {
      forall c | 0 <= c < |s.cpus| ensures t !in Queue(s.cpus[c]) {
        var q := Queue(s.cpus[c]);
        TotalBound(s.cpus, c);
        assert CoverOk(s, c) && !StillToVisit(RunPc(s), c);
        if t in q {
          var k :| 0 <= k < |q| && q[k] == t;
          assert BarrierAfter(q, k);
          var j :| k < j < |q| && q[j].Barrier?;
          BarriersZero(q, j);
        }
      }
    }
  }

  /** A caller that moves on inside its barrier without changing anything else. */
  lemma {:induction false} MoveKeeps(s: State, p: nat, pc: Pc)
    requires Inv(s) && p in s.callers && InRun(s.callers[p].pc) && InRun(pc)
    requires InitialCount(s.callers[p].pc) == InitialCount(pc) && s.callers[p].pc.Completing? == pc.Completing?
    requires pc.Looping? ==> pc.next <= |s.cpus|
    requires pc.Calling? ==> IsOnline(s, pc.next)
    requires VisitedCovered(s, s.callers[p].pc, pc)
    ensures Inv(SetPc(s, p, pc))
  {
    var s' := SetPc(s, p, pc);
    assert CallerOk(s, p);
    forall cb ensures Outstanding(s', cb) == Outstanding(s, cb) { }
    CallerStepKeeps(s, p, s');
  }

  lemma {:induction false} LookKeeps(s: State, p: nat)
    requires Inv(s) && Can(s, Look(p))
    ensures Inv(After(s, Look(p)))
  {
    var c := s.callers[p].pc.next;
    assert CpuOk(s, c);
    if s.cpus[c].online && s.cpus[c].qlen != 0 {
      MoveKeeps(s, p, Calling(c));
    } else {
      MoveKeeps(s, p, Looping(c + 1));
    }
  }

  lemma {:induction false} CoveredByBarrier(q: seq<Cb>, x: Cb, t: Cb)
    requires x.Barrier? && t.Plain?
    ensures Covered(q + [x], t)
  {
    forall k | 0 <= k < |q + [x]| && (q + [x])[k] == t ensures BarrierAfter(q + [x], k) {
      assert (q + [x])[|q|].Barrier?;
    }
  }

  lemma {:induction false} CallFuncQueued(s: State, p: nat)
    requires Inv(s) && Can(s, CallFunc(p))
    ensures Inv(Enqueue(s, s.callers[p].pc.next, Barrier(s.callers[p].pc.next)).(cpuCount := s.cpuCount + 1))
  {
    var c := s.callers[p].pc.next;
    var s1 := Enqueue(s, c, Barrier(c)).(cpuCount := s.cpuCount + 1);
    var q := Queue(s.cpus[c]);
    assert CallerOk(s, p) && CpuOk(s, c);
    assert Queue(s1.cpus[c]) == q + [Barrier(c)];
    BarriersConcat(q, [Barrier(c)]);
    forall t | t in s.target ensures Covered(q + [Barrier(c)], t) { CoveredByBarrier(q, Barrier(c), t); }
    OneCpuKeeps(s, c, s1.cpus[c], s1);
  }

  lemma {:induction false} CallFuncCovers(s: State, p: nat)
    requires RunOk(s) && Can(s, CallFunc(p))
    ensures var c := s.callers[p].pc.next;
      forall t :: t in s.target ==> Covered(Queue(Enqueue(s, c, Barrier(c)).cpus[c]), t)
  {
    var c := s.callers[p].pc.next;
    assert Queue(Enqueue(s, c, Barrier(c)).cpus[c]) == Queue(s.cpus[c]) + [Barrier(c)];
    forall t | t in s.target ensures Covered(Queue(s.cpus[c]) + [Barrier(c)], t) {
      CoveredByBarrier(Queue(s.cpus[c]), Barrier(c), t);
    }
  }

  lemma {:induction false} CallFuncKeeps(s: State, p: nat)
    requires Inv(s) && Can(s, CallFunc(p))
    ensures Inv(After(s, CallFunc(p)))
  {
    assert RunOk(s) && CallerOk(s, p);
    hide Inv, RunOk, CallerOk, Covered, CoverOk, CpuOk, Outstanding, BarrierAfter, Queue;
    var c := s.callers[p].pc.next;
    CallFuncQueued(s, p);
    CallFuncCovers(s, p);
    MoveKeeps(Enqueue(s, c, Barrier(c)).(cpuCount := s.cpuCount + 1), p, Looping(c + 1));
  }

  lemma {:induction false} DropKeeps(s: State, p: nat)
    requires Inv(s) && Can(s, Drop(p))
    ensures Inv(After(s, Drop(p)))
  {
    var s' := After(s, Drop(p));
    assert CallerOk(s, p);
    forall cb ensures Outstanding(s', cb) == Outstanding(s, cb) { }
    CallerStepKeeps(s, p, s');
  }

  lemma {:induction false} MutexKeeps(s: State, a: Step)
    requires Inv(s) && Can(s, a) && (a.Lock? || a.EarlyExit? || a.CountDone?)
    ensures Inv(After(s, a))
  {
    var s', p := After(s, a), a.p;
    assert CallerOk(s, p);
    forall cb ensures Outstanding(s', cb) == Outstanding(s, cb) { }
    CallerStepKeeps(s, p, s');
  }

  lemma {:induction false} BeginKeeps(s: State, p: nat)
    requires Inv(s) && Can(s, Begin(p))
    ensures Inv(After(s, Begin(p)))
  {
    var s' := After(s, Begin(p));
    assert CallerOk(s, p);
    forall cb ensures Outstanding(s', cb) == Outstanding(s, cb) { }
    forall cb | cb in s.callers[p].pre && Outstanding(s, cb) ensures cb in AllPlain(s) { OutstandingPlain(s, cb); }
    AllPlainIds(s);
    CallerStepKeeps(s, p, s');
  }

  lemma {:induction false} FinishKeeps(s: State, p: nat)
    requires Inv(s) && Can(s, Finish(p))
    ensures Inv(After(s, Finish(p)))
  {
    var s' := After(s, Finish(p));
    assert CallerOk(s, p);
    CountZeroMeansInvoked(s);
    forall cb ensures Outstanding(s', cb) == Outstanding(s, cb) { }
    CallerStepKeeps(s, p, s');
  }

  // ----- whole runs -----

  lemma {:induction false} NextKeeps(s: State, s': State)
    requires Inv(s) && Next(s, s')
    ensures Inv(s')
  {
    hide Inv;
    var a :| Can(s, a) && s' == After(s, a);
    if a.Register? { RegisterKeeps(s, a.cpu); }
    else if a.Invoke? { InvokeKeeps(s, a.cpu); }
    else if a.CpuDown? { CpuDownKeeps(s, a.cpu, a.adopter); }
    else if a.Advance? || a.BatchBegin? || a.BatchEnd? || a.CpuUp? { LocalKeeps(s, a); }
    else if a.Call? { CallKeeps(s, a.p); }
    else if a.Begin? { BeginKeeps(s, a.p); }
    else if a.GetOnline? { MoveKeeps(s, a.p, Looping(0)); }
    else if a.Look? { LookKeeps(s, a.p); }
    else if a.CallFunc? { CallFuncKeeps(s, a.p); }
    else if a.PutOnline? { MoveKeeps(s, a.p, Dropping); }
    else if a.Drop? { DropKeeps(s, a.p); }
    else if a.Finish? { FinishKeeps(s, a.p); }
    else { MutexKeeps(s, a); }
  }

  /** A run of callers and CPUs, every interleaving of their steps allowed. */
  ghost predicate IsRun(run: seq<State>) {
    && run != []
    && if |run| == 1 then Initial(run[0])
       else IsRun(run[..|run| - 1]) && Next(run[|run| - 2], run[|run| - 1])
  }

  lemma {:induction false} RunKeeps(run: seq<State>)
    requires IsRun(run)
    ensures Inv(run[|run| - 1])
  {
    if |run| == 1 {
      InitialInv(run[0]);
    } else {
      RunKeeps(run[..|run| - 1]);
      NextKeeps(run[|run| - 2], run[|run| - 1]);
    }
  }

  /** No callback is lost: each has been invoked or is outstanding somewhere. */
  ghost predicate Accounted(s: State) {
    forall id :: 0 <= id < s.nextId ==> id in s.invoked || Outstanding(s, Plain(id))
  }

  lemma {:induction false} AccountedKeeps(s: State, a: Step)
    requires Can(s, a) && Accounted(s)
    ensures Accounted(After(s, a))
  {
    var s' := After(s, a);
    forall id | 0 <= id < s'.nextId ensures id in s'.invoked || Outstanding(s', Plain(id)) {
      if id == s.nextId {
        assert Plain(id) in Queue(s'.cpus[a.cpu]);
      } else if id !in s.invoked {
        StaysOrInvoked(s, a, Plain(id));
      }
    }
  }

  lemma {:induction false} StaysOrInvoked(s: State, a: Step, cb: Cb)
    requires Can(s, a) && cb.Plain? && Outstanding(s, cb)
    ensures cb.id in After(s, a).invoked || Outstanding(After(s, a), cb)
  {
    hide AllPlain, HotplugExcluded, Queue;
    var s' := After(s, a);
    var d :| 0 <= d < |s.cpus| && cb in Queue(s.cpus[d]);
    if a.CpuDown? {
      MovesOver(s, a.cpu, a.adopter, d, cb);
    } else if a.Invoke? && d == a.cpu {
      InvokedOrKept(s, d, cb);
    } else {
      QueueStays(s, a, d);
      StillIn(Queue(s.cpus[d]), Queue(s'.cpus[d]), cb);
    }
  }

  /** A dead CPU's callback is found with the adopter. */
  lemma {:induction false} MovesOver(s: State, c: nat, a: nat, d: nat, cb: Cb)
    requires Can(s, CpuDown(c, a)) && d < |s.cpus| && cb in Queue(s.cpus[d])
    ensures Outstanding(AfterCpuDown(s, c, a), cb)
  {
    CpuDownQueues(s, c, a);
    assert cb in Queue(AfterCpuDown(s, c, a).cpus[if d == c then a else d]);
  }

  lemma {:induction false} InvokedOrKept(s: State, c: nat, cb: Cb)
    requires Can(s, Invoke(c)) && cb.Plain? && cb in Queue(s.cpus[c])
    ensures cb.id in AfterInvoke(s, c).invoked || cb in Queue(AfterInvoke(s, c).cpus[c])
  {
    assert Queue(s.cpus[c]) == [s.cpus[c].batch[0]] + Queue(AfterInvoke(s, c).cpus[c]);
  }

  lemma {:induction false} StillIn(q: seq<Cb>, r: seq<Cb>, cb: Cb)
    requires q <= r && cb in q
    ensures cb in r
  {
  }

  /** Other steps leave a queue alone or add to its end. */
  lemma {:induction false} QueueStays(s: State, a: Step, d: nat)
    requires Can(s, a) && d < |s.cpus| && !a.CpuDown? && !(a.Invoke? && d == a.cpu)
    ensures d < |After(s, a).cpus| && Queue(s.cpus[d]) <= Queue(After(s, a).cpus[d])
  {
    hide AllPlain, HotplugExcluded, Queue;
    if a.Register? {
      RegisterQueue(s, a.cpu);
    } else if a.Advance? || a.BatchBegin? || a.BatchEnd? {
      LocalQueue(s, a);
    } else if a.CallFunc? {
      EnqueueIs(s, s.callers[a.p].pc.next, Barrier(s.callers[a.p].pc.next));
    } else if a.CpuUp? {
      SameQueue(s.cpus[a.cpu], After(s, a).cpus[a.cpu]);
    } else if !a.Invoke? {
      assert After(s, a).cpus == s.cpus;
    }
  }

  lemma {:induction false} SameQueue(a: Cpu, b: Cpu)
    requires a.batch == b.batch && a.done == b.done && a.wait == b.wait
    ensures Queue(a) == Queue(b)
  {
  }

  lemma {:induction false} EnqueueIs(s: State, c: nat, cb: Cb)
    requires c < |s.cpus|
    ensures Queue(Enqueue(s, c, cb).cpus[c]) == Queue(s.cpus[c]) + [cb]
  {
  }

  lemma {:induction false} RegisterQueue(s: State, c: nat)
    requires Can(s, Register(c))
    ensures Queue(After(s, Register(c)).cpus[c]) == Queue(s.cpus[c]) + [Plain(s.nextId)]
  {
    EnqueueIs(s, c, Plain(s.nextId));
  }

  lemma {:induction false} LocalQueue(s: State, a: Step)
    requires Can(s, a) && (a.Advance? || a.BatchBegin? || a.BatchEnd?)
    ensures Queue(After(s, a).cpus[a.cpu]) == Queue(s.cpus[a.cpu])
  {
    var cpu := s.cpus[a.cpu];
    if a.Advance? { assert cpu.wait == cpu.wait[..a.k] + cpu.wait[a.k..]; }
  }

  lemma {:induction false} RunAccounts(run: seq<State>)
    requires IsRun(run)
    ensures Accounted(run[|run| - 1])
  {
    if |run| > 1 {
      RunAccounts(run[..|run| - 1]);
      var s := run[|run| - 2];
      var a :| Can(s, a) && run[|run| - 1] == After(s, a);
      AccountedKeeps(s, a);
    }
  }

  /** When _rcu_barrier has returned, by the full path or by the early exit, every callback that was
      outstanding on any CPU when it was called has been invoked, and none of them is outstanding any more. */
  lemma {:induction false} BarrierWaitsForAll(run: seq<State>)
    requires IsRun(run)
    ensures var s := run[|run| - 1];
            forall p, cb :: AtPc(s, p, Returned) && cb in s.callers[p].pre ==>
              cb.Plain? && cb.id in s.invoked && !Outstanding(s, cb)
  {
    RunKeeps(run);
    RunAccounts(run);
    var s := run[|run| - 1];
    forall p, cb | AtPc(s, p, Returned) && cb in s.callers[p].pre
      ensures cb.Plain? && cb.id in s.invoked && !Outstanding(s, cb)
    {
      assert CallerOk(s, p);
      assert cb == Plain(cb.id);
    }
  }

  /** ->qlen counts the listed callbacks and those taken out by the running batch, so that a CPU whose
      ->qlen is zero has nothing outstanding. */
  lemma {:induction false} QlenIsExact(run: seq<State>)
    requires IsRun(run)
    ensures var s := run[|run| - 1];
            forall c :: 0 <= c < |s.cpus| ==> s.cpus[c].qlen == |Queue(s.cpus[c])| + s.cpus[c].count
  {
    RunKeeps(run);
    var s := run[|run| - 1];
    forall c | 0 <= c < |s.cpus| ensures s.cpus[c].qlen == |Queue(s.cpus[c])| + s.cpus[c].count { assert CpuOk(s, c); }
  }

  // ----- one barrier callback for each CPU -----

  /** How often `cb` is outstanding on a CPU, and anywhere. */
  function Copies(cpu: Cpu, cb: Cb): nat { multiset(Queue(cpu))[cb] }

  function CopiesOf(cpus: seq<Cpu>, cb: Cb): nat {
    if cpus == [] then 0 else Copies(cpus[0], cb) + CopiesOf(cpus[1..], cb)
  }

  lemma {:induction false} CopiesUpdate(cpus: seq<Cpu>, c: nat, cpu: Cpu, cb: Cb)
    requires c < |cpus|
    ensures CopiesOf(cpus[c := cpu], cb) == CopiesOf(cpus, cb) - Copies(cpus[c], cb) + Copies(cpu, cb)
  {
    if c == 0 {
      assert cpus[0 := cpu][1..] == cpus[1..];
    } else {
      assert cpus[c := cpu][1..] == cpus[1..][c - 1 := cpu];
      CopiesUpdate(cpus[1..], c - 1, cpu, cb);
    }
  }

  lemma {:induction false} NoBarrierNoCopy(cpus: seq<Cpu>, c: nat)
    requires Total(cpus) == 0
    ensures CopiesOf(cpus, Barrier(c)) == 0
  {
    if cpus != [] {
      var q := Queue(cpus[0]);
      forall k | 0 <= k < |q| ensures q[k] != Barrier(c) { BarriersZero(q, k); }
      NoBarrierNoCopy(cpus[1..], c);
    }
  }

  /** CPU `c`'s one barrier_head is outstanding at most once, wherever adoption has moved it, and not at all while the
      running barrier has still to look at `c`. */
  ghost predicate OnceOk(s: State, c: nat) {
    && CopiesOf(s.cpus, Barrier(c)) <= 1
    && (ActiveRun(s) && StillToVisit(RunPc(s), c) ==> CopiesOf(s.cpus, Barrier(c)) == 0)
  }

  /** What a change of one CPU's queue does to the number of copies. */
  lemma {:induction false} QueueCopies(s: State, s': State, d: nat, cb: Cb)
    requires d < |s.cpus| == |s'.cpus| && s'.cpus == s.cpus[d := s'.cpus[d]]
    ensures Queue(s'.cpus[d]) == Queue(s.cpus[d]) ==> CopiesOf(s'.cpus, cb) == CopiesOf(s.cpus, cb)
    ensures forall e :: Queue(s'.cpus[d]) == Queue(s.cpus[d]) + [e] ==>
      CopiesOf(s'.cpus, cb) == CopiesOf(s.cpus, cb) + if e == cb then 1 else 0
    ensures forall e :: Queue(s.cpus[d]) == [e] + Queue(s'.cpus[d]) ==> CopiesOf(s'.cpus, cb) <= CopiesOf(s.cpus, cb)
  {
    hide Queue;
    CopiesUpdate(s.cpus, d, s'.cpus[d], cb);
  }

  /** The steps of a CPU that move its callbacks along. */
  lemma {:induction false} LocalCopies(s: State, a: Step, cb: Cb)
    requires Can(s, a) && (a.Advance? || a.BatchBegin? || a.BatchEnd?)
    ensures CopiesOf(After(s, a).cpus, cb) == CopiesOf(s.cpus, cb)
  {
    LocalQueue(s, a);
    hide Queue, CopiesOf;
    QueueCopies(s, After(s, a), a.cpu, cb);
  }

  lemma {:induction false} RegisterCopies(s: State, c: nat, d: nat)
    requires Can(s, Register(c))
    ensures CopiesOf(After(s, Register(c)).cpus, Barrier(d)) == CopiesOf(s.cpus, Barrier(d))
  {
    RegisterQueue(s, c);
    hide Queue, CopiesOf;
    QueueCopies(s, After(s, Register(c)), c, Barrier(d));
  }

  lemma {:induction false} CpuUpCopies(s: State, c: nat, cb: Cb)
    requires Can(s, CpuUp(c))
    ensures CopiesOf(After(s, CpuUp(c)).cpus, cb) == CopiesOf(s.cpus, cb)
  {
    hide CopiesOf;
    QueueCopies(s, After(s, CpuUp(c)), c, cb);
  }

  lemma {:induction false} InvokeCopies(s: State, c: nat, cb: Cb)
    requires c < |s.cpus| && s.cpus[c].batch != []
    ensures CopiesOf(AfterInvoke(s, c).cpus, cb) <= CopiesOf(s.cpus, cb)
  {
    var s', cpu := AfterInvoke(s, c), s.cpus[c];
    assert Queue(cpu) == [cpu.batch[0]] + Queue(s'.cpus[c]);
    hide Queue, CopiesOf;
    QueueCopies(s, s', c, cb);
  }

  /** Adoption moves callbacks and makes none. */
  lemma {:induction false} CpuDownCopies(s: State, d: nat, a: nat, cb: Cb)
    requires d < |s.cpus| && a < |s.cpus| && a != d && s.cpus[d].batch == []
    ensures CopiesOf(AfterCpuDown(s, d, a).cpus, cb) == CopiesOf(s.cpus, cb)
  {
    var s' := AfterCpuDown(s, d, a);
    var middle := s.cpus[a := s'.cpus[a]];
    assert s'.cpus == middle[d := s'.cpus[d]];
    AdoptedCopies(s.cpus[d], s.cpus[a], s'.cpus[a], cb);
    assert Queue(s'.cpus[d]) == [];
    hide Queue, CopiesOf;
    CopiesUpdate(s.cpus, a, s'.cpus[a], cb);
    CopiesUpdate(middle, d, s'.cpus[d], cb);
  }

  lemma {:induction false} AdoptedCopies(dead: Cpu, adopter: Cpu, after: Cpu, cb: Cb)
    requires dead.batch == [] && after.batch == adopter.batch
    requires after.done == adopter.done + dead.done && after.wait == adopter.wait + dead.wait
    ensures Copies(after, cb) == Copies(adopter, cb) + Copies(dead, cb)
  {
    assert Queue(dead) == dead.done + dead.wait;
    assert multiset(Queue(after)) == multiset(Queue(adopter)) + multiset(Queue(dead));
  }

  lemma {:induction false} CallFuncCopies(s: State, p: nat, c: nat)
    requires p in s.callers && s.callers[p].pc.Calling? && s.callers[p].pc.next < |s.cpus|
    ensures CopiesOf(AfterCallFunc(s, p).cpus, Barrier(c))
      == CopiesOf(s.cpus, Barrier(c)) + if c == s.callers[p].pc.next then 1 else 0
  {
    var d := s.callers[p].pc.next;
    EnqueueIs(s, d, Barrier(d));
    hide Queue, CopiesOf;
    QueueCopies(s, AfterCallFunc(s, p), d, Barrier(c));
  }

  predicate OfCaller(a: Step) {
    || a.Call? || a.Lock? || a.EarlyExit? || a.Begin? || a.GetOnline?
    || a.Look? || a.PutOnline? || a.Drop? || a.CountDone? || a.Finish?
  }

  /** The steps of callers other than the interrupt: only a new barrier has more CPUs to look at, and it finds no
      barrier callback anywhere. */
  lemma {:induction false} CallerOnce(s: State, a: Step, c: nat)
    requires RunOk(s) && OnceOk(s, c) && Can(s, a) && OfCaller(a) && (a.p in s.callers ==> CallerOk(s, a.p))
    ensures OnceOk(After(s, a), c)
  {
    hide CopiesOf, AllPlain, NoneLeft;
    if !ActiveRun(s) { NoBarrierNoCopy(s.cpus, c); }
  }

  /** The interrupt: the barrier has still to look at the CPU, and so its barrier_head is free. */
  lemma {:induction false} CallFuncOnce(s: State, p: nat, c: nat)
    requires RunOk(s) && OnceOk(s, c) && p in s.callers && CallerOk(s, p)
    requires s.callers[p].pc.Calling? && s.callers[p].pc.next < |s.cpus|
    ensures OnceOk(AfterCallFunc(s, p), c)
    ensures c == s.callers[p].pc.next ==> CopiesOf(s.cpus, Barrier(c)) == 0
  {
    hide CopiesOf;
    CallFuncCopies(s, p, c);
  }

  /** A step that leaves the callers alone and adds no copy. */
  lemma {:induction false} FewerCopies(s: State, s': State, c: nat)
    requires OnceOk(s, c) && s'.callers == s.callers && s'.mutex == s.mutex
    requires CopiesOf(s'.cpus, Barrier(c)) <= CopiesOf(s.cpus, Barrier(c))
    ensures OnceOk(s', c)
  {
    hide CopiesOf;
  }

  predicate OfCpu(a: Step) { !OfCaller(a) && !a.CallFunc? }

  lemma {:induction false} CpuOnce(s: State, a: Step, c: nat)
    requires OnceOk(s, c) && Can(s, a) && OfCpu(a)
    ensures OnceOk(After(s, a), c)
  {
    hide OnceOk, CopiesOf, Queue, HotplugExcluded, AllPlain;
    match a {
      case Register(d) => RegisterCopies(s, d, c);
      case Advance(_, _) => LocalCopies(s, a, Barrier(c));
      case BatchBegin(_) => LocalCopies(s, a, Barrier(c));
      case BatchEnd(_) => LocalCopies(s, a, Barrier(c));
      case Invoke(d) => InvokeCopies(s, d, Barrier(c));
      case CpuUp(d) => CpuUpCopies(s, d, Barrier(c));
      case CpuDown(d, e) => CpuDownCopies(s, d, e, Barrier(c));
    }
    FewerCopies(s, After(s, a), c);
  }

  lemma {:induction false} OnceKeeps(s: State, a: Step, c: nat)
    requires Inv(s) && OnceOk(s, c) && Can(s, a)
    ensures OnceOk(After(s, a), c)
  {
    if OfCpu(a) {
      hide Inv, OnceOk;
      CpuOnce(s, a, c);
    } else {
      assert a.p in s.callers ==> CallerOk(s, a.p);
      hide Inv, OnceOk, CallerOk, RunOk, AllPlain;
      if a.CallFunc? { CallFuncOnce(s, a.p, c); } else { CallerOnce(s, a, c); }
    }
  }

  lemma {:induction false} NextOnce(s: State, s': State, c: nat)
    requires Inv(s) && OnceOk(s, c) && Next(s, s')
    ensures OnceOk(s', c)
  {
    hide Inv, OnceOk;
    var a :| Can(s, a) && s' == After(s, a);
    OnceKeeps(s, a, c);
  }

  lemma {:induction false} InitialOnce(s: State, c: nat)
    requires Initial(s)
    ensures OnceOk(s, c)
  {
    TotalEmpty(s.cpus);
    NoBarrierNoCopy(s.cpus, c);
  }

  lemma {:induction false} RunOnce(run: seq<State>, c: nat)
    requires IsRun(run)
    ensures OnceOk(run[|run| - 1], c)
  {
    hide Inv, OnceOk, Next, Initial;
    var n := |run| - 1;
    if n == 0 {
      InitialOnce(run[0], c);
    } else {
      RunOnce(run[..n], c);
      RunKeeps(run[..n]);
      NextOnce(run[n - 1], run[n], c);
    }
  }

  /** In every run each CPU's barrier_head is outstanding at most once, wherever adoption has moved it. */
  lemma {:induction false} OneBarrierEach(run: seq<State>, c: nat)
    requires IsRun(run)
    ensures CopiesOf(run[|run| - 1].cpus, Barrier(c)) <= 1
  {
    hide CopiesOf;
    RunOnce(run, c);
  }

  /** rcu_barrier_func only queues a barrier_head that is not outstanding: it never links a callback that is still
      linked somewhere. */
  lemma {:induction false} BarrierHeadIsFree(run: seq<State>, p: nat)
    requires IsRun(run) && Can(run[|run| - 1], CallFunc(p))
    ensures var s := run[|run| - 1]; CopiesOf(s.cpus, Barrier(s.callers[p].pc.next)) == 0
  {
    var s := run[|run| - 1];
    RunKeeps(run);
    assert CallerOk(s, p);
    hide Inv, CallerOk, RunOk, OnceOk;
    RunOnce(run, s.callers[p].pc.next);
    CallFuncOnce(s, p, s.callers[p].pc.next);
  }
}
