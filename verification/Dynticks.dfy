/**
The dyntick-idle counters of one CPU.  Every entry and exit first updates
`dynticks_nesting` and only then increments `dynticks`; the two are separate
steps, because an NMI can hit between them.  The remote CPU only ever reads
`dynticks`.

`idle`, `irqs` and `nmi` say what the CPU is really doing: whether its task
level is in the idle loop, how many interrupt handlers taken from the idle loop
are running, and whether an NMI handler is running.
*/
module Dynticks {

  // The values come from rcutree.h, which is not part of this model; all that matters is
  // NEST_VALUE <= EXIT_IDLE < 2 * NEST_VALUE.
  const NEST_VALUE: int := 0x100_0000_0000_0000
  const EXIT_IDLE: int := NEST_VALUE + NEST_VALUE / 4

  /** `oldval & DYNTICK_TASK_NEST_MASK`, in units of DYNTICK_TASK_NEST_VALUE. */
  function NestLevel(nesting: int): int { nesting / NEST_VALUE }

  /** The half-done operation whose increment of `dynticks` is still to come. */
  datatype Pending = Nothing | Entering | Exiting

  datatype Cpu = Cpu(dynticks: nat, nesting: int, nmiNesting: nat, pending: Pending, idle: bool, irqs: nat, nmi: bool)

  datatype Step = IdleEnter | IdleExit | IrqEnter | IrqExit | Increment | NmiEnter | NmiExit

  /** The nesting updates of rcu_eqs_enter, rcu_eqs_exit, rcu_irq_enter and rcu_irq_exit. */
  function EqsEnter(c: Cpu): Cpu {
    c.(nesting := if NestLevel(c.nesting) == 1 then 0 else c.nesting - NEST_VALUE, pending := Entering)
  }

  function EqsExit(c: Cpu): Cpu {
    c.(nesting := if NestLevel(c.nesting) != 0 then c.nesting + NEST_VALUE else EXIT_IDLE, pending := Exiting)
  }

  function IrqIn(c: Cpu): Cpu {
    c.(nesting := c.nesting + 1, pending := if c.nesting == 0 then Exiting else Nothing)
  }

  function IrqOut(c: Cpu): Cpu {
    c.(nesting := c.nesting - 1, pending := if c.nesting - 1 == 0 then Entering else Nothing)
  }

  /** rcu_nmi_enter. */
  function NmiIn(c: Cpu): Cpu {
    if c.nmiNesting == 0 && c.dynticks % 2 == 1 then c
    else c.(nmiNesting := c.nmiNesting + 1, dynticks := c.dynticks + 1)
  }

  /** rcu_nmi_exit. */
  function NmiOut(c: Cpu): Cpu {
    if c.nmiNesting == 0 then c
    else if c.nmiNesting - 1 != 0 then c.(nmiNesting := c.nmiNesting - 1)
    else c.(nmiNesting := 0, dynticks := c.dynticks + 1)
  }

  /** What the kernel around RCU promises: idle entry and exit alternate, interrupts taken from idle are balanced,
      interrupts are off in the middle of an operation, NMIs do not nest.  Outside idle the interrupt count may
      drift, as long as it does not overflow into the task nesting level. */
  predicate Can(c: Cpu, a: Step) {
    match a
    case IdleEnter => c.pending.Nothing? && !c.nmi && !c.idle
    case IdleExit => c.pending.Nothing? && !c.nmi && c.idle && c.irqs == 0
    case IrqEnter =>
      && c.pending.Nothing? && !c.nmi
      && (c.idle ==> c.irqs + 1 < NEST_VALUE) && (!c.idle ==> NestLevel(c.nesting + 1) == 1)
    case IrqExit =>
      && c.pending.Nothing? && !c.nmi
      && (c.idle ==> c.irqs > 0) && (!c.idle ==> NestLevel(c.nesting - 1) == 1)
    case Increment => !c.pending.Nothing? && !c.nmi
    case NmiEnter => !c.nmi
    case NmiExit => c.nmi
  }

  function After(c: Cpu, a: Step): Cpu
    requires Can(c, a)
  {
    match a
    case IdleEnter => EqsEnter(c).(idle := true)
    case IdleExit => EqsExit(c).(idle := false)
    case IrqEnter => IrqIn(c).(irqs := if c.idle then c.irqs + 1 else c.irqs)
    case IrqExit => IrqOut(c).(irqs := if c.idle then c.irqs - 1 else c.irqs)
    case Increment => c.(dynticks := c.dynticks + 1, pending := Nothing)
    case NmiEnter => NmiIn(c).(nmi := true)
    case NmiExit => NmiOut(c).(nmi := false)
  }

  ghost predicate Next(c: Cpu, c': Cpu) { exists a :: Can(c, a) && c' == After(c, a) }

  /** Boot: the CPU runs its boot task. */
  predicate Initial(c: Cpu) { c == Cpu(1, EXIT_IDLE, 0, Nothing, false, 0, false) }

  /** Extended quiescence: idle, no handler running, and RCU has been told. */
  predicate InEqs(c: Cpu) {
    !c.nmi && match c.pending
              case Nothing => c.idle && c.irqs == 0
              case Entering => false
              case Exiting => true
  }

  predicate Inv(c: Cpu) {
    && (c.dynticks % 2 == 0 <==> InEqs(c))
    && (c.idle ==> c.nesting == c.irqs && c.irqs < NEST_VALUE)
    && (!c.idle ==> NestLevel(c.nesting) == 1 && c.irqs == 0)
    && (c.pending.Entering? ==> c.idle && c.irqs == 0)
    && (c.pending.Exiting? ==> if c.idle then c.irqs == 1 else true)
    && (if c.nmi && OtherwiseQuiet(c) then c.nmiNesting == 1 else c.nmiNesting == 0)
  }

  /** Would the CPU be in extended quiescence but for the NMI? */
  predicate OtherwiseQuiet(c: Cpu) { InEqs(c.(nmi := false)) }

  lemma {:induction false} StepKeeps(c: Cpu, a: Step)
    requires Inv(c) && Can(c, a)
    ensures Inv(After(c, a))
    ensures c.dynticks <= After(c, a).dynticks <= c.dynticks + 1
  {
  }

  /** The alternation is needed, for every CPU state: the increment of rcu_eqs_exit leaves ->dynticks odd, and that
      of rcu_eqs_enter leaves it even, exactly if the CPU was in, or out of, extended quiescence.  A second exit in
      a row only raises the nesting level and still increments. */
  lemma {:induction false} UnpairedCallsBreakParity(c: Cpu)
    requires Inv(c) && c.pending.Nothing? && !c.nmi
    ensures (EqsExit(c).dynticks + 1) % 2 == 1 <==> InEqs(c)
    ensures (EqsEnter(c).dynticks + 1) % 2 == 0 <==> !InEqs(c)
    ensures !c.idle ==> NestLevel(EqsExit(c).nesting) == 2
  {
  }

  /** rcu_eqs_enter takes back what rcu_eqs_exit added, at every nesting level. */
  lemma {:induction false} NestingBalances(c: Cpu)
    ensures c.nesting == 0 || NestLevel(c.nesting) > 0 ==> EqsEnter(EqsExit(c)).nesting == c.nesting
  {
  }

  /** That NMIs do not nest is needed too, for every CPU state: a second NMI inside the first leaves ->dynticks odd,
      and after both ->dynticks is as even as it was before, exactly if the CPU was not in extended quiescence;
      the inner exit never increments it. */
  lemma {:induction false} NestedNmisBreakParity(c: Cpu)
    requires Inv(c) && !c.nmi
    ensures NmiIn(NmiIn(c)).dynticks % 2 == 1 <==> !InEqs(c)
    ensures NmiOut(NmiOut(NmiIn(NmiIn(c)))).dynticks % 2 == c.dynticks % 2 <==> !InEqs(c)
    ensures NmiOut(NmiOut(NmiIn(NmiIn(c)))).nmiNesting == c.nmiNesting
    ensures NmiOut(NmiIn(NmiIn(c))).dynticks == NmiIn(NmiIn(c)).dynticks
  {
  }

  ghost predicate IsRun(run: seq<Cpu>) {
    && run != []
    && if |run| == 1 then Initial(run[0])
       else IsRun(run[..|run| - 1]) && Next(run[|run| - 2], run[|run| - 1])
  }

  lemma {:induction false} RunKeeps(run: seq<Cpu>, i: nat)
    requires IsRun(run) && i < |run|
    ensures Inv(run[i])
    ensures i + 1 < |run| ==> run[i].dynticks <= run[i + 1].dynticks <= run[i].dynticks + 1
  {
    if |run| > 1 {
      var n := |run| - 1;
      RunKeeps(run[..n], if i < n then i else n - 1);
      RunKeeps(run[..n], n - 1);
      var a :| Can(run[n - 1], a) && run[n] == After(run[n - 1], a);
      StepKeeps(run[n - 1], a);
    }
  }

  /** In every reachable state, NMIs in mid-operation included, ->dynticks is even exactly in extended quiescence. */
  lemma {:induction false} EvenMeansQuiescent(run: seq<Cpu>)
    requires IsRun(run)
    ensures var c := run[|run| - 1]; c.dynticks % 2 == 0 <==> InEqs(c)
  {
    RunKeeps(run, |run| - 1);
  }

  const UINT: int := 0x1_0000_0000

  /** UINT_CMP_GE on 32-bit counters. */
  predicate UintCmpGe(a: int, b: int) { UINT / 2 - 1 >= (a - b) % UINT }

  /** The test of rcu_implicit_dynticks_qs, on wrapping counters. */
  predicate Credited(curr: nat, snap: nat) {
    var c, s := curr % UINT, snap % UINT;
    c % 2 == 0 || UintCmpGe(c, s + 2)
  }

  lemma {:induction false} CreditMeansEvenOrTwo(curr: nat, snap: nat)
    requires Credited(curr, snap) && snap <= curr
    ensures curr % 2 == 0 || snap + 2 <= curr
  {
  }

  lemma {:induction false} SomewhereEven(run: seq<Cpu>, i: nat, j: nat)
    requires IsRun(run) && i <= j < |run|
    requires run[j].dynticks % 2 == 0 || run[i].dynticks + 2 <= run[j].dynticks
    ensures exists k :: i <= k <= j && run[k].dynticks % 2 == 0
    decreases j - i
  {
    if run[j].dynticks % 2 == 0 || run[i].dynticks % 2 == 0 {
      assert i <= j && (run[j].dynticks % 2 == 0 || run[i].dynticks % 2 == 0);
    } else {
      RunKeeps(run, i);
      if run[i + 1].dynticks % 2 == 1 { SomewhereEven(run, i + 1, j); }
    }
  }

  lemma {:induction false} DynticksGrow(run: seq<Cpu>, i: nat, j: nat)
    requires IsRun(run) && i <= j < |run|
    ensures run[i].dynticks <= run[j].dynticks
    decreases j - i
  {
    if i < j { RunKeeps(run, i); DynticksGrow(run, i + 1, j); }
  }

  /** If the test credits the CPU at state `j` with the snapshot taken at state `i`, the CPU was in extended
      quiescence at some state from `i` to `j`, however often the 32-bit counters have wrapped. */
  lemma {:induction false} CreditIsSound(run: seq<Cpu>, i: nat, j: nat)
    requires IsRun(run) && i <= j < |run|
    requires Credited(run[j].dynticks, run[i].dynticks)
    ensures exists k :: i <= k <= j && InEqs(run[k])
  {
    DynticksGrow(run, i, j);
    CreditMeansEvenOrTwo(run[j].dynticks, run[i].dynticks);
    SomewhereEven(run, i, j);
    var k :| i <= k <= j && run[k].dynticks % 2 == 0;
    RunKeeps(run, k);
  }

  /** The test is right about counters that have been read in order, that is, credits exactly a CPU that is in extended
      quiescence or has been since, if and only if the 32-bit difference has not passed half a word. */
  lemma {:induction false} CreditIsExactIff(curr: nat, snap: nat)
    requires snap <= curr
    ensures (Credited(curr, snap) <==> curr % 2 == 0 || snap + 2 <= curr) <==>
      curr % 2 == 0 || curr < snap + 2 || 2 <= (curr - snap) % UINT <= UINT / 2 + 1
  {
    var c, s, q := curr % UINT, snap % UINT, curr / UINT - snap / UINT;
    assert c % 2 == curr % 2;
    assert c - (s + 2) == (curr - snap - 2) - q * UINT;
    SameRemainder(curr - snap - 2, q);
    HalfAWord(curr - snap);
  }

  lemma {:induction false} SameRemainder(x: int, q: int)
    ensures (x - q * UINT) % UINT == x % UINT
  {
  }

  lemma {:induction false} HalfAWord(d: nat)
    ensures (d - 2) % UINT <= UINT / 2 - 1 <==> 2 <= d % UINT <= UINT / 2 + 1
  {
  }

  /** A CPU that is in extended quiescence at some state from `i` to `j` is credited: at once, by the snapshot at `i`,
      or by the test at `j`, if the counter has not advanced by more than half a word in between. */
  lemma {:induction false} CreditIsComplete(run: seq<Cpu>, i: nat, k: nat, j: nat)
    requires IsRun(run) && i <= k <= j < |run| && InEqs(run[k])
    requires run[j].dynticks - run[i].dynticks <= UINT / 2 + 1
    ensures run[i].dynticks % 2 == 0 || Credited(run[j].dynticks, run[i].dynticks)
  {
    RunKeeps(run, k);
    DynticksGrow(run, i, k);
    DynticksGrow(run, k, j);
    CreditIsExactIff(run[j].dynticks, run[i].dynticks);
  }
}
