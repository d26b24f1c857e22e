/**
The sums behind the load average. A task that sleeps uninterruptibly is counted
on the CPU it slept on and discounted on the CPU that wakes it; each CPU folds
the change of its own count into a global one, directly or through one of two
idle slots. Single counters mean little; their sums are exact, up to the sleeps
during which the frozen flag changed.
*/
module LoadAccounting {
  import opened Common

  /** `waking` holds sched_contributes_to_load while the state is TASK_WAKING; `throttled` is the scheduling class's
      reason not to count a queued task in nr_running. History: `counted`, the task's last deactivation was counted
      and it has not been activated since; `frozenThen`, the frozen flag at that deactivation. */
  datatype Task = Task(uninterruptible: bool, frozen: bool, throttled: bool, onRq: bool, cpu: nat,
                       waking: Option<bool>, counted: bool, frozenThen: bool)

  datatype Cpu = Cpu(running: int, uninterruptible: int, active: int)

  /** `inFlight` are the deltas that a CPU, or the global update, has taken and not yet added. `missed` and `extra`
      are history: the activations of a counted task that were not discounted, and of an uncounted one that were. */
  datatype State = State(tasks: seq<Task>, cpus: seq<Cpu>, total: int, idle: seq<int>, inFlight: seq<int>,
                         missed: nat, extra: nat)

  /** task_contributes_to_load. */
  predicate Contributes(t: Task) { t.waking.None? && t.uninterruptible && !t.frozen }

  /** The task is in its CPU's nr_running. */
  predicate Runnable(t: Task) { t.onRq && !t.throttled }

  function Bit(b: bool): int { if b then 1 else 0 }

  // ----- sums -----

  function Sum(s: seq<int>): int { if s == [] then 0 else Sum(s[..|s| - 1]) + s[|s| - 1] }

  function Uninterruptible(cpus: seq<Cpu>): int {
    if cpus == [] then 0 else Uninterruptible(cpus[..|cpus| - 1]) + cpus[|cpus| - 1].uninterruptible
  }

  function Active(cpus: seq<Cpu>): int {
    if cpus == [] then 0 else Active(cpus[..|cpus| - 1]) + cpus[|cpus| - 1].active
  }

  function Running(cpus: seq<Cpu>): int {
    if cpus == [] then 0 else Running(cpus[..|cpus| - 1]) + cpus[|cpus| - 1].running
  }

  /** How many tasks sleep uninterruptibly and have not been activated since. */
  function Sleepers(tasks: seq<Task>): int {
    if tasks == [] then 0 else Sleepers(tasks[..|tasks| - 1]) + Bit(tasks[|tasks| - 1].counted)
  }

  /** How many tasks can run, anywhere. */
  function Queued(tasks: seq<Task>): int {
    if tasks == [] then 0 else Queued(tasks[..|tasks| - 1]) + Bit(Runnable(tasks[|tasks| - 1]))
  }

  /** How many of them are on the runqueue of CPU `c`. */
  function QueuedOn(tasks: seq<Task>, c: nat): int {
    if tasks == [] then 0 else QueuedOn(tasks[..|tasks| - 1], c) + Bit(IsOn(tasks[|tasks| - 1], c))
  }

  predicate IsOn(t: Task, c: nat) { Runnable(t) && t.cpu == c }

  lemma {:induction false} SumUpdate(s: seq<int>, i: nat, v: int)
    requires i < |s|
    ensures Sum(s[i := v]) == Sum(s) - s[i] + v
  {
    var n := |s| - 1;
    if i == n {
      assert s[i := v][..n] == s[..n];
    } else {
      assert s[i := v][..n] == s[..n][i := v];
      SumUpdate(s[..n], i, v);
    }
  }

  lemma {:induction false} CpuUpdate(cpus: seq<Cpu>, i: nat, c: Cpu)
    requires i < |cpus|
    ensures Uninterruptible(cpus[i := c]) == Uninterruptible(cpus) - cpus[i].uninterruptible + c.uninterruptible
    ensures Active(cpus[i := c]) == Active(cpus) - cpus[i].active + c.active
    ensures Running(cpus[i := c]) == Running(cpus) - cpus[i].running + c.running
  {
    var n := |cpus| - 1;
    if i == n {
      assert cpus[i := c][..n] == cpus[..n];
    } else {
      assert cpus[i := c][..n] == cpus[..n][i := c];
      CpuUpdate(cpus[..n], i, c);
    }
  }

  lemma {:induction false} TaskUpdate(tasks: seq<Task>, i: nat, t: Task)
    requires i < |tasks|
    ensures Sleepers(tasks[i := t]) == Sleepers(tasks) - Bit(tasks[i].counted) + Bit(t.counted)
    ensures Queued(tasks[i := t]) == Queued(tasks) - Bit(Runnable(tasks[i])) + Bit(Runnable(t))
  {
    var n := |tasks| - 1;
    if i == n {
      assert tasks[i := t][..n] == tasks[..n];
    } else {
      assert tasks[i := t][..n] == tasks[..n][i := t];
      TaskUpdate(tasks[..n], i, t);
    }
  }

  lemma {:induction false} QueueUpdate(tasks: seq<Task>, i: nat, t: Task, c: nat)
    requires i < |tasks|
    ensures QueuedOn(tasks[i := t], c) == QueuedOn(tasks, c) - Bit(IsOn(tasks[i], c)) + Bit(IsOn(t, c))
  {
    var n := |tasks| - 1;
    if i == n {
      assert tasks[i := t][..n] == tasks[..n];
    } else {
      assert tasks[i := t][..n] == tasks[..n][i := t];
      QueueUpdate(tasks[..n], i, t, c);
    }
  }

  // ----- steps -----

  datatype Step =
    | SetState(p: nat, uninterruptible: bool)
    | SetFrozen(p: nat, frozen: bool)
    | Throttle(p: nat, throttled: bool)
    | Deactivate(p: nat)
    | Activate(p: nat, cpu: nat)
    | StartWaking(p: nat)
    | WakeActivate(p: nat, cpu: nat)
    | Migrate(p: nat, cpu: nat)
    | FoldActive(cpu: nat, agent: nat)
    | FoldIdle(slot: nat, agent: nat)
    | AddToTotal(agent: nat)
    | AddToIdle(agent: nat, slot: nat)

  /** One CPU's counters, changed. */
  function Adjust(cpus: seq<Cpu>, c: nat, running: int, uninterruptible: int): seq<Cpu>
    requires c < |cpus|
  {
    var cpu := cpus[c];
    cpus[c := cpu.(running := cpu.running + running, uninterruptible := cpu.uninterruptible + uninterruptible)]
  }

  ghost predicate Can(s: State, a: Step) {
    match a
    // A task changes its own state, while it is on a runqueue; the flags may change at any time.
    case SetState(p, _) => p < |s.tasks| && s.tasks[p].onRq
    case SetFrozen(p, _) => p < |s.tasks|
    case Throttle(p, _) => p < |s.tasks| && (s.tasks[p].onRq ==> s.tasks[p].cpu < |s.cpus|)
    case Deactivate(p) => p < |s.tasks| && s.tasks[p].onRq && s.tasks[p].cpu < |s.cpus|
    case Activate(p, cpu) => p < |s.tasks| && cpu < |s.cpus| && !s.tasks[p].onRq && s.tasks[p].waking.None?
    case StartWaking(p) => p < |s.tasks| && !s.tasks[p].onRq && s.tasks[p].waking.None?
    case WakeActivate(p, cpu) => p < |s.tasks| && cpu < |s.cpus| && !s.tasks[p].onRq && s.tasks[p].waking.Some?
    case Migrate(p, cpu) => p < |s.tasks| && cpu < |s.cpus| && s.tasks[p].onRq && s.tasks[p].cpu < |s.cpus|
    case FoldActive(cpu, agent) => cpu < |s.cpus| && agent < |s.inFlight| && s.inFlight[agent] == 0
    case FoldIdle(slot, agent) => slot < |s.idle| && agent < |s.inFlight| && s.inFlight[agent] == 0
    case AddToTotal(agent) => agent < |s.inFlight|
    case AddToIdle(agent, slot) => agent < |s.inFlight| && slot < |s.idle|
  }

  /** The task is enqueued on `cpu`, discounted there or not. */
  ghost function Enqueue(s: State, p: nat, cpu: nat, discount: bool): State
    requires p < |s.tasks| && cpu < |s.cpus|
  {
    var t := s.tasks[p];
    s.(tasks := s.tasks[p := t.(onRq := true, cpu := cpu, counted := false, waking := None)],
       cpus := Adjust(s.cpus, cpu, Bit(!t.throttled), -Bit(discount)),
       missed := if t.counted && !discount then s.missed + 1 else s.missed,
       extra := if !t.counted && discount then s.extra + 1 else s.extra)
  }

  ghost function Effect(s: State, a: Step): State
    requires Can(s, a)
  {
    match a
    case SetState(p, u) => s.(tasks := s.tasks[p := s.tasks[p].(uninterruptible := u)])
    case SetFrozen(p, f) => s.(tasks := s.tasks[p := s.tasks[p].(frozen := f)])
    case Throttle(p, on) =>
      var t := s.tasks[p];
      s.(tasks := s.tasks[p := t.(throttled := on)],
         cpus := if t.onRq then Adjust(s.cpus, t.cpu, Bit(!on) - Bit(!t.throttled), 0) else s.cpus)
    // deactivate_task
    case Deactivate(p) =>
      var t := s.tasks[p];
      s.(tasks := s.tasks[p := t.(onRq := false, counted := Contributes(t), frozenThen := t.frozen)],
         cpus := Adjust(s.cpus, t.cpu, -Bit(!t.throttled), Bit(Contributes(t))))
    // activate_task
    case Activate(p, cpu) => Enqueue(s, p, cpu, Contributes(s.tasks[p]))
    // try_to_wake_up, up to TASK_WAKING
    case StartWaking(p) =>
      s.(tasks := s.tasks[p := s.tasks[p].(waking := Some(Contributes(s.tasks[p])), uninterruptible := false)])
    // ttwu_do_activate
    case WakeActivate(p, cpu) => Enqueue(s, p, cpu, s.tasks[p].waking.value)
    // __migrate_task
    case Migrate(p, cpu) =>
      var t := s.tasks[p];
      s.(tasks := s.tasks[p := t.(cpu := cpu)],
         cpus := Adjust(Adjust(s.cpus, t.cpu, -Bit(!t.throttled), 0), cpu, Bit(!t.throttled), 0))
    // calc_load_fold_active
    case FoldActive(cpu, agent) =>
      var now := s.cpus[cpu].running + s.cpus[cpu].uninterruptible;
      s.(cpus := s.cpus[cpu := s.cpus[cpu].(active := now)], inFlight := s.inFlight[agent := now - s.cpus[cpu].active])
    // calc_load_fold_idle
    case FoldIdle(slot, agent) => s.(idle := s.idle[slot := 0], inFlight := s.inFlight[agent := s.idle[slot]])
    // the addition in calc_load_account_active, calc_load_migrate and calc_global_load
    case AddToTotal(agent) => s.(total := s.total + s.inFlight[agent], inFlight := s.inFlight[agent := 0])
    // the addition in calc_load_enter_idle
    case AddToIdle(agent, slot) =>
      s.(idle := s.idle[slot := s.idle[slot] + s.inFlight[agent]], inFlight := s.inFlight[agent := 0])
  }

  ghost predicate Steps(s: State, s': State) { exists a :: Can(s, a) && s' == Effect(s, a) }

  predicate IsNew(t: Task) { !t.uninterruptible && !t.onRq && !t.counted && t.waking.None? }

  ghost predicate Initial(s: State) {
    && (forall p :: 0 <= p < |s.tasks| ==> IsNew(s.tasks[p]))
    && (forall c :: 0 <= c < |s.cpus| ==> s.cpus[c] == Cpu(0, 0, 0))
    && s.total == 0 && s.idle == [0, 0] && (forall i :: 0 <= i < |s.inFlight| ==> s.inFlight[i] == 0)
    && s.missed == s.extra == 0
  }

  ghost predicate IsRun(run: seq<State>) {
    && run != []
    && if |run| == 1 then Initial(run[0])
       else IsRun(run[..|run| - 1]) && Steps(run[|run| - 2], run[|run| - 1])
  }

  // ----- the invariant -----

  ghost predicate TaskOk(s: State, t: Task) {
    && (t.onRq ==> !t.counted && t.waking.None? && t.cpu < |s.cpus|)
    && (!t.onRq && t.waking.None? ==> t.counted == (t.uninterruptible && !t.frozenThen))
  }

  ghost predicate QueuesOk(s: State) {
    forall c :: 0 <= c < |s.cpus| ==> s.cpus[c].running == QueuedOn(s.tasks, c)
  }

  ghost predicate SumsOk(s: State) {
    && Uninterruptible(s.cpus) == Sleepers(s.tasks) + s.missed - s.extra
    && Running(s.cpus) == Queued(s.tasks)
    && s.total + Sum(s.idle) + Sum(s.inFlight) == Active(s.cpus)
  }

  ghost predicate Inv(s: State) {
    (forall p :: 0 <= p < |s.tasks| ==> TaskOk(s, s.tasks[p])) && QueuesOk(s) && SumsOk(s)
  }

  predicate OfTask(a: Step) {
    || a.SetState? || a.SetFrozen? || a.Throttle? || a.Deactivate? || a.Activate?
    || a.StartWaking? || a.WakeActivate? || a.Migrate?
  }

  /** What a change of one task and of the counters of CPUs needs. */
  lemma {:induction false} TaskChanges(s: State, s': State, p: nat)
    requires Inv(s) && p < |s.tasks| && p < |s'.tasks| && s'.tasks == s.tasks[p := s'.tasks[p]] && |s'.cpus| == |s.cpus|
    requires s' == s.(tasks := s'.tasks, cpus := s'.cpus, missed := s'.missed, extra := s'.extra)
    requires TaskOk(s, s'.tasks[p]) && Active(s'.cpus) == Active(s.cpus)
    requires Running(s'.cpus) - Running(s.cpus) == Bit(Runnable(s'.tasks[p])) - Bit(Runnable(s.tasks[p]))
    requires Uninterruptible(s'.cpus) - s'.missed + s'.extra - Bit(s'.tasks[p].counted) ==
             Uninterruptible(s.cpus) - s.missed + s.extra - Bit(s.tasks[p].counted)
    requires forall c :: 0 <= c < |s.cpus| ==>
      s'.cpus[c].running - s.cpus[c].running == Bit(IsOn(s'.tasks[p], c)) - Bit(IsOn(s.tasks[p], c))
    ensures Inv(s')
  {
    TaskUpdate(s.tasks, p, s'.tasks[p]);
    forall c: nat | c < |s.cpus| ensures s'.cpus[c].running == QueuedOn(s'.tasks, c) {
      QueueUpdate(s.tasks, p, s'.tasks[p], c);
    }
    forall q | 0 <= q < |s'.tasks| ensures TaskOk(s', s'.tasks[q]) {
      if q != p { assert TaskOk(s, s.tasks[q]); }
    }
  }

  lemma {:induction false} EnqueueKeeps(s: State, p: nat, cpu: nat, discount: bool)
    requires Inv(s) && p < |s.tasks| && cpu < |s.cpus| && !s.tasks[p].onRq
    ensures Inv(Enqueue(s, p, cpu, discount))
  {
    hide Inv;
    var s' := Enqueue(s, p, cpu, discount);
    CpuUpdate(s.cpus, cpu, s'.cpus[cpu]);
    TaskChanges(s, s', p);
  }

  lemma {:induction false} MigrateKeeps(s: State, p: nat, cpu: nat)
    requires Inv(s) && Can(s, Migrate(p, cpu))
    ensures Inv(Effect(s, Migrate(p, cpu)))
  {
    var t, s' := s.tasks[p], Effect(s, Migrate(p, cpu));
    assert TaskOk(s, t);
    hide Inv;
    var middle := Adjust(s.cpus, t.cpu, -Bit(!t.throttled), 0);
    CpuUpdate(s.cpus, t.cpu, middle[t.cpu]);
    CpuUpdate(middle, cpu, s'.cpus[cpu]);
    TaskChanges(s, s', p);
  }

  lemma {:induction false} DequeueKeeps(s: State, p: nat)
    requires Inv(s) && Can(s, Deactivate(p))
    ensures Inv(Effect(s, Deactivate(p)))
  {
    var t, s' := s.tasks[p], Effect(s, Deactivate(p));
    assert TaskOk(s, t);
    hide Inv;
    CpuUpdate(s.cpus, t.cpu, s'.cpus[t.cpu]);
    TaskChanges(s, s', p);
  }

  lemma {:induction false} ThrottleKeeps(s: State, p: nat, throttled: bool)
    requires Inv(s) && Can(s, Throttle(p, throttled))
    ensures Inv(Effect(s, Throttle(p, throttled)))
  {
    var t, s' := s.tasks[p], Effect(s, Throttle(p, throttled));
    assert TaskOk(s, t);
    hide Inv;
    if t.onRq { CpuUpdate(s.cpus, t.cpu, s'.cpus[t.cpu]); }
    TaskChanges(s, s', p);
  }

  /** The steps of tasks. */
  lemma {:induction false} TaskStepKeeps(s: State, a: Step)
    requires Inv(s) && Can(s, a) && OfTask(a)
    ensures Inv(Effect(s, a))
  {
    assert TaskOk(s, s.tasks[a.p]);
    hide Inv;
    match a
    case Activate(p, cpu) => EnqueueKeeps(s, p, cpu, Contributes(s.tasks[p]));
    case WakeActivate(p, cpu) => EnqueueKeeps(s, p, cpu, s.tasks[p].waking.value);
    case Migrate(p, cpu) => MigrateKeeps(s, p, cpu);
    case Deactivate(p) => DequeueKeeps(s, p);
    case Throttle(p, on) => ThrottleKeeps(s, p, on);
    case SetState(_, _) => TaskChanges(s, Effect(s, a), a.p);
    case SetFrozen(_, _) => TaskChanges(s, Effect(s, a), a.p);
    case StartWaking(_) => TaskChanges(s, Effect(s, a), a.p);
  }

  /** The steps of the load calculation. */
  lemma {:induction false} FoldStepKeeps(s: State, a: Step)
    requires Inv(s) && Can(s, a) && !OfTask(a)
    ensures Inv(Effect(s, a))
  {
    var s' := Effect(s, a);
    if a.FoldActive? { CpuUpdate(s.cpus, a.cpu, s'.cpus[a.cpu]); }
    if a.FoldIdle? || a.AddToIdle? { SumUpdate(s.idle, a.slot, s'.idle[a.slot]); }
    SumUpdate(s.inFlight, a.agent, s'.inFlight[a.agent]);
  }

  lemma {:induction false} ZeroSums(s: State)
    requires Initial(s)
    ensures Inv(s)
  {
    ZeroSum(s.inFlight);
    assert s.idle == [0, 0];
    assert Sum([0, 0]) == Sum([0, 0][..1]) + 0;
    ZeroCpus(s.cpus);
    ZeroTasks(s.tasks);
    forall c: nat ensures QueuedOn(s.tasks, c) == 0 { ZeroQueue(s.tasks, c); }
  }

  lemma {:induction false} ZeroSum(s: seq<int>)
    requires forall i :: 0 <= i < |s| ==> s[i] == 0
    ensures Sum(s) == 0
  {
    if s != [] { ZeroSum(s[..|s| - 1]); }
  }

  lemma {:induction false} ZeroCpus(cpus: seq<Cpu>)
    requires forall c :: 0 <= c < |cpus| ==> cpus[c] == Cpu(0, 0, 0)
    ensures Uninterruptible(cpus) == 0 && Active(cpus) == 0 && Running(cpus) == 0
  {
    if cpus != [] { ZeroCpus(cpus[..|cpus| - 1]); }
  }

  lemma {:induction false} ZeroTasks(tasks: seq<Task>)
    requires forall p :: 0 <= p < |tasks| ==> IsNew(tasks[p])
    ensures Sleepers(tasks) == 0 && Queued(tasks) == 0
  {
    if tasks != [] { ZeroTasks(tasks[..|tasks| - 1]); }
  }

  lemma {:induction false} ZeroQueue(tasks: seq<Task>, c: nat)
    requires forall p :: 0 <= p < |tasks| ==> IsNew(tasks[p])
    ensures QueuedOn(tasks, c) == 0
  {
    if tasks != [] { ZeroQueue(tasks[..|tasks| - 1], c); }
  }

  lemma {:induction false} RunKeeps(run: seq<State>)
    requires IsRun(run)
    ensures Inv(run[|run| - 1])
  {
    if |run| == 1 {
      ZeroSums(run[0]);
    } else {
      RunKeeps(run[..|run| - 1]);
      var s := run[|run| - 2];
      var a :| Can(s, a) && run[|run| - 1] == Effect(s, a);
      if OfTask(a) { TaskStepKeeps(s, a); } else { FoldStepKeeps(s, a); }
    }
  }

  // ----- what the load average relies on -----

  /** Each CPU's nr_running is the number of tasks that can run there, through wakeups, migrations and throttling. */
  lemma {:induction false} RunningIsExact(run: seq<State>)
    requires IsRun(run)
    ensures var s := run[|run| - 1];
      forall c :: 0 <= c < |s.cpus| ==> s.cpus[c].running == QueuedOn(s.tasks, c)
  {
    RunKeeps(run);
  }

  /** Summed over all CPUs, nr_uninterruptible is the number of tasks in uninterruptible sleep, wherever they slept
      and woke, plus the activations that failed to discount one, minus those that discounted a task never counted.
      Both only grow: what one activation gets wrong stays wrong. */
  lemma {:induction false} SleepersAreCounted(run: seq<State>)
    requires IsRun(run)
    ensures var s := run[|run| - 1];
      Uninterruptible(s.cpus) == Sleepers(s.tasks) + s.missed - s.extra
    ensures forall i :: 0 <= i < |run| ==>
      run[i].missed <= run[|run| - 1].missed && run[i].extra <= run[|run| - 1].extra
  {
    RunKeeps(run);
    MiscountsStay(run);
  }

  lemma {:induction false} MiscountsStay(run: seq<State>)
    requires IsRun(run)
    ensures forall i :: 0 <= i < |run| ==>
      run[i].missed <= run[|run| - 1].missed && run[i].extra <= run[|run| - 1].extra
  {
    if |run| > 1 {
      var n := |run| - 1;
      MiscountsStay(run[..n]);
      assert run[..n][n - 1] == run[n - 1];
      var a :| Can(run[n - 1], a) && run[n] == Effect(run[n - 1], a);
      forall i | 0 <= i < n ensures run[i].missed <= run[n].missed && run[i].extra <= run[n].extra {
        assert run[..n][i] == run[i];
      }
    }
  }

  /** No delta is lost or doubled, and once every CPU has folded and nothing is in flight, the total and the idle slots
      hold exactly the runnable tasks and the uninterruptible sleepers, up to the miscounted activations. */
  lemma {:induction false} LoadIsConserved(run: seq<State>)
    requires IsRun(run)
    ensures var s := run[|run| - 1];
      && s.total + Sum(s.idle) + Sum(s.inFlight) == Active(s.cpus)
      && ((forall i :: 0 <= i < |s.inFlight| ==> s.inFlight[i] == 0) && AllFolded(s.cpus) ==>
            s.total + Sum(s.idle) == Queued(s.tasks) + Sleepers(s.tasks) + s.missed - s.extra)
  {
    RunKeeps(run);
    var s := run[|run| - 1];
    if (forall i :: 0 <= i < |s.inFlight| ==> s.inFlight[i] == 0) && AllFolded(s.cpus) {
      ZeroSum(s.inFlight);
      FoldedSum(s.cpus);
    }
  }

  ghost predicate AllFolded(cpus: seq<Cpu>) {
    forall c :: 0 <= c < |cpus| ==> cpus[c].active == cpus[c].running + cpus[c].uninterruptible
  }

  lemma {:induction false} FoldedSum(cpus: seq<Cpu>)
    requires AllFolded(cpus)
    ensures Active(cpus) == Running(cpus) + Uninterruptible(cpus)
  {
    if cpus != [] { FoldedSum(cpus[..|cpus| - 1]); }
  }

  // ----- when everything has been folded -----

  /** A fold takes what has changed since the last: calc_load_active becomes the number of the CPU's runnable tasks plus
      its nr_uninterruptible, and the difference goes into flight. */
  lemma {:induction false} FoldIsExact(run: seq<State>, cpu: nat, agent: nat)
    requires IsRun(run) && Can(run[|run| - 1], FoldActive(cpu, agent))
    ensures var s := run[|run| - 1]; var s' := Effect(s, FoldActive(cpu, agent));
      && s'.cpus[cpu].active == QueuedOn(s.tasks, cpu) + s.cpus[cpu].uninterruptible
      && s'.inFlight[agent] == s'.cpus[cpu].active - s.cpus[cpu].active
  {
    RunKeeps(run);
  }

  /** A step of the load calculation, which leaves the tasks alone. */
  ghost predicate Calculates(s: State, s': State) { exists a :: Can(s, a) && !OfTask(a) && s' == Effect(s, a) }

  ghost predicate Folds(s: State, s': State, cpu: nat) {
    exists agent :: Can(s, FoldActive(cpu, agent)) && s' == Effect(s, FoldActive(cpu, agent))
  }

  predicate Folded(cpu: Cpu) { cpu.active == cpu.running + cpu.uninterruptible }

  lemma {:induction false} FoldedStays(s: State, s': State, c: nat)
    requires Calculates(s, s') && c < |s.cpus|
    ensures |s'.cpus| == |s.cpus| && (Folded(s.cpus[c]) || Folds(s, s', c) ==> Folded(s'.cpus[c]))
  {
  }

  /** Since state `from` no task has moved. */
  ghost predicate Quiet(run: seq<State>, from: nat) {
    forall i :: from <= i < |run| - 1 ==> Calculates(run[i], run[i + 1])
  }

  ghost predicate HasFolded(run: seq<State>, from: nat, c: nat) {
    exists i :: from <= i < |run| - 1 && Folds(run[i], run[i + 1], c)
  }

  ghost predicate NothingInFlight(s: State) { forall k :: 0 <= k < |s.inFlight| ==> s.inFlight[k] == 0 }

  /** Once a CPU has folded, it stays folded until a task moves. */
  lemma {:induction false} FoldedSince(run: seq<State>, i: nat, n: nat, c: nat)
    requires Quiet(run, i) && i < n < |run| && Folds(run[i], run[i + 1], c)
    ensures c < |run[n].cpus| && Folded(run[n].cpus[c])
  {
    assert Calculates(run[n - 1], run[n]);
    hide Calculates, Folds, Folded;
    if n == i + 1 { FoldsOwn(run[i], run[n], c); } else { FoldedSince(run, i, n - 1, c); }
    FoldedStays(run[n - 1], run[n], c);
  }

  lemma {:induction false} FoldsOwn(s: State, s': State, c: nat)
    requires Folds(s, s', c)
    ensures c < |s.cpus|
  {
  }

  /** When, since the last step of a task, every CPU has folded and every delta has been added, then the total and the
      idle slots hold exactly the runnable tasks and the uninterruptible sleepers, up to the miscounted activations. */
  lemma {:induction false} FoldsAddUp(run: seq<State>, from: nat)
    requires IsRun(run) && Quiet(run, from) && NothingInFlight(run[|run| - 1])
    requires forall c: nat :: c < |run[|run| - 1].cpus| ==> HasFolded(run, from, c)
    ensures var s := run[|run| - 1];
      s.total + Sum(s.idle) == Queued(s.tasks) + Sleepers(s.tasks) + s.missed - s.extra
  {
    var s := run[|run| - 1];
    forall c: nat | c < |s.cpus| ensures Folded(s.cpus[c]) {
      assert HasFolded(run, from, c);
      var i :| from <= i < |run| - 1 && Folds(run[i], run[i + 1], c);
      FoldedSince(run, i, |run| - 1, c);
    }
    LoadIsConserved(run);
  }

  // ----- when a wakeup miscounts -----

  /** A wakeup, by activate_task or by try_to_wake_up and ttwu_do_activate, leaves the count exact if and only if the
      task contributes now as it did when it went to sleep. */
  lemma {:induction false} WakeupIsExactIff(s: State, p: nat, cpu: nat)
    requires Can(s, Activate(p, cpu)) && Uninterruptible(s.cpus) == Sleepers(s.tasks)
    ensures var s' := Effect(s, Activate(p, cpu));
      Uninterruptible(s'.cpus) == Sleepers(s'.tasks) <==> Contributes(s.tasks[p]) == s.tasks[p].counted
    ensures Can(s, StartWaking(p)) && Can(Effect(s, StartWaking(p)), WakeActivate(p, cpu))
    ensures var s' := Effect(Effect(s, StartWaking(p)), WakeActivate(p, cpu));
      Uninterruptible(s'.cpus) == Sleepers(s'.tasks) <==> Contributes(s.tasks[p]) == s.tasks[p].counted
  {
    var woken := Effect(s, Activate(p, cpu));
    TaskUpdate(s.tasks, p, woken.tasks[p]);
    CpuUpdate(s.cpus, cpu, woken.cpus[cpu]);
    var waking := Effect(s, StartWaking(p));
    var s' := Effect(waking, WakeActivate(p, cpu));
    assert s'.tasks == s.tasks[p := s'.tasks[p]];
    TaskUpdate(s.tasks, p, s'.tasks[p]);
    CpuUpdate(s.cpus, cpu, s'.cpus[cpu]);
  }

  /** In every run, that is to say: unless the frozen flag of a task in uninterruptible sleep is not what it was when
      the task was deactivated. */
  lemma {:induction false} WakeupIsExactIffFlagHeld(run: seq<State>, p: nat, cpu: nat)
    requires IsRun(run) && Can(run[|run| - 1], Activate(p, cpu))
    requires run[|run| - 1].missed == run[|run| - 1].extra
    ensures var s := run[|run| - 1]; var s' := Effect(s, Activate(p, cpu)); var t := s.tasks[p];
      Uninterruptible(s'.cpus) == Sleepers(s'.tasks) <==> (t.uninterruptible ==> t.frozen == t.frozenThen)
    ensures var s := run[|run| - 1];
      Can(s, StartWaking(p)) && Can(Effect(s, StartWaking(p)), WakeActivate(p, cpu))
    ensures var s := run[|run| - 1]; var t := s.tasks[p];
      var s' := Effect(Effect(s, StartWaking(p)), WakeActivate(p, cpu));
      Uninterruptible(s'.cpus) == Sleepers(s'.tasks) <==> (t.uninterruptible ==> t.frozen == t.frozenThen)
  {
    var s := run[|run| - 1];
    RunKeeps(run);
    assert TaskOk(s, s.tasks[p]);
    hide Inv, Uninterruptible, Sleepers;
    WakeupIsExactIff(s, p, cpu);
  }

  /** No frozen flag changed while its task was off the runqueue. */
  ghost predicate FlagsHold(run: seq<State>) {
    forall i :: 0 <= i < |run| - 1 ==> SleepersHold(run[i], run[i + 1])
  }

  ghost predicate SleepersHold(s: State, s': State) {
    forall p :: 0 <= p < |s.tasks| && p < |s'.tasks| && !s.tasks[p].onRq ==> s'.tasks[p].frozen == s.tasks[p].frozen
  }

  /** A sleeping task was counted exactly if it contributes; a waking one exactly if the wakeup noted so. */
  ghost predicate CountedRight(t: Task) {
    !t.onRq ==> t.counted == if t.waking.Some? then t.waking.value else Contributes(t)
  }

  ghost predicate AllRight(s: State) {
    s.missed == s.extra == 0 && forall p :: 0 <= p < |s.tasks| ==> CountedRight(s.tasks[p])
  }

  lemma {:induction false} StepIsRight(s: State, a: Step)
    requires Inv(s) && AllRight(s) && Can(s, a) && SleepersHold(s, Effect(s, a))
    ensures AllRight(Effect(s, a))
  {
    if OfTask(a) {
      assert TaskOk(s, s.tasks[a.p]);
      assert CountedRight(s.tasks[a.p]) && CountedRight(Effect(s, a).tasks[a.p]);
    }
  }

  lemma {:induction false} StepsAreRight(s: State, s': State)
    requires Inv(s) && AllRight(s) && Steps(s, s') && SleepersHold(s, s')
    ensures AllRight(s')
  {
    hide Inv, AllRight, SleepersHold;
    var a :| Can(s, a) && s' == Effect(s, a);
    StepIsRight(s, a);
  }

  lemma {:induction false} RunIsRight(run: seq<State>)
    requires IsRun(run) && FlagsHold(run)
    ensures AllRight(run[|run| - 1])
  {
    var n := |run| - 1;
    if n > 0 {
      assert SleepersHold(run[n - 1], run[n]) && Steps(run[n - 1], run[n]);
      hide Inv, AllRight, SleepersHold, Steps;
      RunIsRight(run[..n]);
      RunKeeps(run[..n]);
      StepsAreRight(run[n - 1], run[n]);
    }
  }

  /** Then nothing is ever miscounted, and the sums above are exact. */
  lemma {:induction false} ExactWithoutFreezing(run: seq<State>)
    requires IsRun(run) && FlagsHold(run)
    ensures var s := run[|run| - 1];
      && s.missed == s.extra == 0 && Uninterruptible(s.cpus) == Sleepers(s.tasks)
      && forall p :: 0 <= p < |s.tasks| ==> CountedRight(s.tasks[p])
  {
    RunKeeps(run);
    RunIsRight(run);
  }

  /** Frozen while it sleeps, a task is never discounted: the count is too high, and no later step mends it. */
  lemma {:induction false} FreezingASleeperMiscounts() returns (run: seq<State>)
    ensures IsRun(run)
    ensures var s := run[|run| - 1];
      Uninterruptible(s.cpus) == 1 && Sleepers(s.tasks) == 0 && s.missed == 1
  {
    var t := Task(false, false, false, false, 0, None, false, false);
    var s0 := State([t], [Cpu(0, 0, 0)], 0, [0, 0], [], 0, 0);
    run := [s0];
    run := Extend(run, Activate(0, 0));
    run := Extend(run, SetState(0, true));
    run := Extend(run, Deactivate(0));
    run := Extend(run, SetFrozen(0, true));
    run := Extend(run, Activate(0, 0));
    var s := run[5];
    assert s.tasks[..0] == [] && s.cpus[..0] == [];
  }

  lemma {:induction false} Extend(run: seq<State>, a: Step) returns (longer: seq<State>)
    requires IsRun(run) && Can(run[|run| - 1], a)
    ensures IsRun(longer) && longer == run + [Effect(run[|run| - 1], a)]
  {
    longer := run + [Effect(run[|run| - 1], a)];
    assert longer[..|run|] == run;
  }
}
