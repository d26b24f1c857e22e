/**
Callers of alloc_pidmap in one namespace, all at once. Each reads last_pid, goes
through the bitmap in any way, takes a bit with test_and_set_bit, and then tries
to set last_pid with a loop of compare-and-exchange. Every atomic access is a
step of its own.

Pids are used in a circle. As history, `pos` follows last_pid along a line that
goes round it, one word a lap, and `at` is where it stood when a caller began.
*/
module PidRace {
  import opened Pidmap

  datatype Pc =
    | Searching
    | Setting(pid: nat, prev: nat)  // about to cmpxchg last_pid from prev to pid
    | Done(pid: nat)
    | Freed(pid: nat)

  /** `base` is the last_pid that the caller read at first. */
  datatype Caller = Caller(base: nat, pc: Pc, at: int)

  /** The set bits, last_pid, and the callers. As history, `others` are the pids handed out before these callers came
      and not given back. */
  datatype State = State(bits: set<nat>, last: nat, callers: map<nat, Caller>, pos: int, others: set<nat>)

  const LAP: nat := 0x1_0000_0000

  /** How far behind `base` a pid comes, for pid_before. */
  function Rank(base: nat, pid: nat): nat { (pid - base) % LAP }

  datatype Step = Begin(p: nat) | Try(p: nat, pid: nat) | CmpXchg(p: nat) | Free(p: nat) | FreeOther(pid: nat)

  /** The pid that a caller owns, and whether it does. */
  predicate Owns(c: Caller, pid: nat) { (c.pc.Setting? || c.pc.Done?) && c.pc.pid == pid }

  ghost predicate Can(s: State, a: Step) {
    match a
    case Begin(p) => p !in s.callers
    case Try(p, pid) => p in s.callers && s.callers[p].pc.Searching? && pid < PID_MAX_LIMIT
    case CmpXchg(p) => p in s.callers && s.callers[p].pc.Setting?
    case Free(p) => p in s.callers && s.callers[p].pc.Done?
    // a pid that was handed out before these callers came
    case FreeOther(pid) => pid in s.bits && forall p :: p in s.callers ==> !Owns(s.callers[p], pid)
  }

  function Set(s: State, p: nat, pc: Pc): State
    requires p in s.callers
  {
    s.(callers := s.callers[p := s.callers[p].(pc := pc)])
  }

  ghost function Effect(s: State, a: Step): State
    requires Can(s, a)
  {
    match a
    case Begin(p) => s.(callers := s.callers[p := Caller(s.last, Searching, s.pos)])
    case Try(p, pid) =>
      if pid in s.bits then s else Set(s.(bits := s.bits + {pid}), p, Setting(pid, s.callers[p].base))
    case CmpXchg(p) =>
      var c := s.callers[p];
      if s.last == c.pc.prev then
        Set(s.(last := c.pc.pid, pos := s.pos + Rank(c.base, c.pc.pid) - Rank(c.base, s.last)), p, Done(c.pc.pid))
      else if PidBefore(c.base, s.last, c.pc.pid) then Set(s, p, Setting(c.pc.pid, s.last))
      else Set(s, p, Done(c.pc.pid))
    case Free(p) =>
      var pid := s.callers[p].pc.pid;
      Set(s.(bits := s.bits - {pid}), p, Freed(pid))
    case FreeOther(pid) => s.(bits := s.bits - {pid}, others := s.others - {pid})
  }

  ghost predicate Steps(s: State, s': State) { exists a :: Can(s, a) && s' == Effect(s, a) }

  ghost predicate IsRun(run: seq<State>) {
    && run != []
    && if |run| == 1 then
         run[0].callers == map[] && run[0].pos == run[0].last < PID_MAX_LIMIT && run[0].others == run[0].bits
       else IsRun(run[..|run| - 1]) && Steps(run[|run| - 2], run[|run| - 1])
  }

  // ----- nobody's pid is anybody else's -----

  /** What is owned is taken; and what a caller would replace in last_pid is where it began, or earlier than its pid. */
  ghost predicate CallerOk(s: State, p: nat)
    requires p in s.callers
  {
    var c := s.callers[p];
    && c.base < PID_MAX_LIMIT && (c.pc.Searching? || c.pc.pid < PID_MAX_LIMIT)
    && (forall pid :: Owns(c, pid) ==> pid in s.bits)
    && (c.pc.Setting? ==> c.pc.prev == c.base || PidBefore(c.base, c.pc.prev, c.pc.pid))
  }

  ghost predicate Apart(s: State, p: nat, q: nat)
    requires p in s.callers && q in s.callers
  {
    forall pid :: !(Owns(s.callers[p], pid) && Owns(s.callers[q], pid))
  }

  ghost predicate Inv(s: State) {
    && s.last < PID_MAX_LIMIT
    && (forall p :: p in s.callers ==> CallerOk(s, p))
    && (forall p, q :: p in s.callers && q in s.callers && p != q ==> Apart(s, p, q))
  }

  lemma {:induction false} StepKeeps(s: State, a: Step)
    requires Inv(s) && Can(s, a)
    ensures Inv(Effect(s, a))
  {
    var s' := Effect(s, a);
    forall p | p in s'.callers ensures CallerOk(s', p) {
      if p in s.callers { assert CallerOk(s, p); }
      if a.Free? && p != a.p { assert Apart(s, p, a.p); assert Owns(s.callers[a.p], s.callers[a.p].pc.pid); }
    }
    forall p, q | p in s'.callers && q in s'.callers && p != q ensures Apart(s', p, q) {
      if p in s.callers && q in s.callers { assert CallerOk(s, p) && CallerOk(s, q) && Apart(s, p, q); }
    }
  }

  lemma {:induction false} RunKeeps(run: seq<State>)
    requires IsRun(run)
    ensures Inv(run[|run| - 1])
  {
    if |run| > 1 {
      RunKeeps(run[..|run| - 1]);
      var s := run[|run| - 2];
      var a :| Can(s, a) && run[|run| - 1] == Effect(s, a);
      StepKeeps(s, a);
    }
  }

  /** However the callers interleave, no pid is handed out to two that have not given it back, and each one's bit is
      set. */
  lemma {:induction false} NoneTwice(run: seq<State>)
    requires IsRun(run)
    ensures var s := run[|run| - 1];
      forall p, pid :: p in s.callers && Owns(s.callers[p], pid) ==>
        pid in s.bits && forall q :: q in s.callers && Owns(s.callers[q], pid) ==> q == p
  {
    RunKeeps(run);
    var s := run[|run| - 1];
    forall p, pid | p in s.callers && Owns(s.callers[p], pid)
      ensures pid in s.bits && forall q :: q in s.callers && Owns(s.callers[q], pid) ==> q == p
    {
      assert CallerOk(s, p);
      forall q | q in s.callers && q != p ensures !Owns(s.callers[q], pid) { assert Apart(s, p, q); }
    }
  }

  // ----- no pid is lost -----

  ghost predicate Owned(s: State, pid: nat) { exists p :: p in s.callers && Owns(s.callers[p], pid) }

  /** What is taken was handed out before, or is owned by a caller. */
  ghost predicate Accounted(s: State) { forall pid: nat :: pid in s.bits <==> pid in s.others || Owned(s, pid) }

  lemma {:induction false} TakeAccounts(s: State, a: Step, pid: nat)
    requires Can(s, a) && Accounted(s) && (a.Begin? || a.Try? || a.CmpXchg?)
    ensures var s' := Effect(s, a); pid in s'.bits <==> pid in s'.others || Owned(s', pid)
  {
    var s' := Effect(s, a);
    assert pid in s.bits <==> pid in s.others || Owned(s, pid);
    if Owned(s, pid) {
      var p :| p in s.callers && Owns(s.callers[p], pid);
      assert Owns(s'.callers[p], pid);
    }
    if a.Try? && a.pid == pid && a.pid !in s.bits { assert Owns(s'.callers[a.p], pid); }
  }

  lemma {:induction false} FreeAccounts(s: State, a: Step, pid: nat)
    requires Inv(s) && Can(s, a) && Accounted(s) && (a.Free? || a.FreeOther?)
    requires a.Free? ==> s.callers[a.p].pc.pid !in s.others
    ensures var s' := Effect(s, a); pid in s'.bits <==> pid in s'.others || Owned(s', pid)
  {
    var s' := Effect(s, a);
    assert pid in s.bits <==> pid in s.others || Owned(s, pid);
    if Owned(s, pid) {
      var p :| p in s.callers && Owns(s.callers[p], pid);
      if a.Free? && p != a.p { assert Apart(s, p, a.p) && Owns(s.callers[a.p], s.callers[a.p].pc.pid); }
      if !(a.Free? && p == a.p) { assert Owns(s'.callers[p], pid); }
    }
    if Owned(s', pid) {
      var p :| p in s'.callers && Owns(s'.callers[p], pid);
      assert Owns(s.callers[p], pid);
      if a.Free? { assert Apart(s, p, a.p) && Owns(s.callers[a.p], s.callers[a.p].pc.pid); }
    }
  }

  /** No caller owns a pid that was handed out before and not given back. */
  ghost predicate Separate(s: State) {
    forall p :: p in s.callers && !s.callers[p].pc.Searching? && Owns(s.callers[p], s.callers[p].pc.pid) ==>
      s.callers[p].pc.pid !in s.others
  }

  lemma {:induction false} StepAccounts(s: State, a: Step)
    requires Inv(s) && Can(s, a) && Accounted(s) && Separate(s)
    ensures Accounted(Effect(s, a)) && Separate(Effect(s, a))
  {
    var s' := Effect(s, a);
    forall pid: nat ensures pid in s'.bits <==> pid in s'.others || Owned(s', pid) {
      if a.Free? || a.FreeOther? { FreeAccounts(s, a, pid); } else { TakeAccounts(s, a, pid); }
    }
    assert Separate(s') by {
      hide Inv;
      assert a.Try? ==> (a.pid in s.bits <==> a.pid in s.others || Owned(s, a.pid));
    }
  }

  lemma {:induction false} RunAccounts(run: seq<State>)
    requires IsRun(run)
    ensures Accounted(run[|run| - 1]) && Separate(run[|run| - 1])
  {
    if |run| > 1 {
      RunAccounts(run[..|run| - 1]);
      RunKeeps(run[..|run| - 1]);
      var s := run[|run| - 2];
      var a :| Can(s, a) && run[|run| - 1] == Effect(s, a);
      StepAccounts(s, a);
    }
  }

  /** No pid leaks: in every run the set bits are exactly those of the pids that were handed out before and not given
      back, and of those that a caller owns, and no pid is both; and one given back, by whomever, can be taken again. */
  lemma {:induction false} NoneLeaks(run: seq<State>, a: Step, pid: nat)
    requires IsRun(run) && Can(run[|run| - 1], a)
    ensures var s := run[|run| - 1];
      && (pid in s.bits <==> pid in s.others || Owned(s, pid))
      && !(pid in s.others && Owned(s, pid))
      && (a == FreeOther(pid) || (a.Free? && s.callers[a.p].pc.pid == pid) ==> pid !in Effect(s, a).bits)
  {
    var s := run[|run| - 1];
    RunAccounts(run);
    if Owned(s, pid) {
      var p :| p in s.callers && Owns(s.callers[p], pid);
      assert s.callers[p].pc.pid == pid;
    }
  }

  // ----- last_pid goes forward -----

  /** Whoever changes last_pid sets it to its own pid, and moves it forward in the order of its own search. */
  lemma {:induction false} WritesGoForward(run: seq<State>, a: Step)
    requires IsRun(run) && Can(run[|run| - 1], a)
    ensures var s := run[|run| - 1]; var s' := Effect(s, a);
      s'.last != s.last ==>
        && a.CmpXchg? && Owns(s.callers[a.p], s'.last)
        && Rank(s.callers[a.p].base, s.last) < Rank(s.callers[a.p].base, s'.last)
  {
    RunKeeps(run);
    var s := run[|run| - 1];
    if a.CmpXchg? {
      assert CallerOk(s, a.p);
      OnlyBaseIsFirst(s.callers[a.p].base, s.callers[a.p].pc.pid);
    }
  }

  lemma {:induction false} OnlyBaseIsFirst(base: nat, pid: nat)
    requires base < 0x1_0000_0000 && pid < 0x1_0000_0000
    ensures Rank(base, base) == 0 && (Rank(base, pid) == 0 <==> pid == base)
  {
  }

  predicate Finished(c: Caller) { c.pc.Done? || c.pc.Freed? }

  /** Where on the line the pid of a caller comes. */
  function PosOf(c: Caller): int
    requires !c.pc.Searching?
  {
    c.at + Rank(c.base, c.pc.pid)
  }

  /** A caller began at its base, not after now, and last_pid is not behind it once it has finished. */
  ghost predicate OnLine(s: State, p: nat)
    requires p in s.callers
  {
    var c := s.callers[p];
    (c.at - c.base) % LAP == 0 && c.at <= s.pos && (Finished(c) ==> PosOf(c) <= s.pos)
  }

  ghost predicate LineOk(s: State) {
    (s.pos - s.last) % LAP == 0 && forall p :: p in s.callers ==> OnLine(s, p)
  }

  /** From where a caller began, last_pid has come at least to its rank. */
  lemma {:induction false} RankBelow(at: int, base: nat, pos: int, last: nat)
    requires (at - base) % LAP == 0 && (pos - last) % LAP == 0 && at <= pos
    ensures Rank(base, last) <= pos - at
  {
    var a, q, k := (at - base) / LAP, (pos - last) / LAP, (last - base) / LAP;
    assert at == base + a * LAP && pos == last + q * LAP && last - base == k * LAP + Rank(base, last);
    assert pos - at == Rank(base, last) + (q - a + k) * LAP;
  }

  lemma {:induction false} PosMoves(base: nat, pos: int, last: nat, pid: nat)
    requires (pos - last) % LAP == 0
    ensures (pos + Rank(base, pid) - Rank(base, last) - pid) % LAP == 0
  {
    var q, k, l := (pos - last) / LAP, (last - base) / LAP, (pid - base) / LAP;
    assert pos == last + q * LAP && last - base == k * LAP + Rank(base, last);
    assert pid - base == l * LAP + Rank(base, pid);
    assert pos + Rank(base, pid) - Rank(base, last) - pid == (q + k - l) * LAP;
  }

  lemma {:induction false} CmpXchgLine(s: State, p: nat)
    requires Inv(s) && LineOk(s) && Can(s, CmpXchg(p))
    ensures var s' := Effect(s, CmpXchg(p));
      s.pos <= s'.pos && (s'.pos - s'.last) % LAP == 0 && OnLine(s', p)
  {
    var c := s.callers[p];
    assert CallerOk(s, p) && OnLine(s, p);
    RankBelow(c.at, c.base, s.pos, s.last);
    OnlyBaseIsFirst(c.base, c.pc.pid);
    PosMoves(c.base, s.pos, s.last, c.pc.pid);
  }

  lemma {:induction false} LineKeeps(s: State, a: Step)
    requires Inv(s) && LineOk(s) && Can(s, a)
    ensures LineOk(Effect(s, a)) && s.pos <= Effect(s, a).pos
  {
    var s' := Effect(s, a);
    hide Inv, Rank, PidBefore;
    if a.CmpXchg? { CmpXchgLine(s, a.p); }
    forall p | p in s'.callers ensures OnLine(s', p) {
      if p in s.callers { assert OnLine(s, p); }
    }
  }

  /** Callers from any starting points: along the line, last_pid never goes back, and it is never behind the pid of a
      caller that has finished, wherever that one began. */
  lemma {:induction false} NeverBehind(run: seq<State>)
    requires IsRun(run)
    ensures LineOk(run[|run| - 1])
    ensures forall i :: 0 <= i < |run| ==> run[i].pos <= run[|run| - 1].pos
  {
    var n := |run| - 1;
    if n > 0 {
      NeverBehind(run[..n]);
      RunKeeps(run[..n]);
      var s := run[n - 1];
      var a :| Can(s, a) && run[n] == Effect(s, a);
      LineKeeps(s, a);
      forall i | 0 <= i < n ensures run[i].pos <= run[n].pos { assert run[..n][i].pos <= run[..n][n - 1].pos; }
    }
  }

  // ----- callers from the same starting point -----

  /** All callers so far began at the same last_pid. */
  ghost predicate AllFrom(s: State, base: nat) { forall p :: p in s.callers ==> s.callers[p].base == base }

  /** last_pid is not behind anybody who has finished, and is where all began or the pid of one who has. */
  ghost predicate Latest(s: State, base: nat) {
    && (forall p :: p in s.callers && Finished(s.callers[p]) ==> Rank(base, s.callers[p].pc.pid) <= Rank(base, s.last))
    && (s.last == base || exists p :: p in s.callers && Finished(s.callers[p]) && s.callers[p].pc.pid == s.last)
  }

  /** last_pid moves forward, and past whoever finishes. */
  lemma {:induction false} CmpXchgRanks(s: State, p: nat)
    requires Inv(s) && Can(s, CmpXchg(p))
    ensures var s', base := Effect(s, CmpXchg(p)), s.callers[p].base;
      && Rank(base, s.last) <= Rank(base, s'.last)
      && (Finished(s'.callers[p]) ==> Rank(base, s.callers[p].pc.pid) <= Rank(base, s'.last))
      && (s'.last != s.last ==> Finished(s'.callers[p]) && s'.callers[p].pc.pid == s'.last)
  {
    assert CallerOk(s, p);
    OnlyBaseIsFirst(s.callers[p].base, s.callers[p].pc.pid);
  }

  lemma {:induction false} LatestKeeps(s: State, a: Step, base: nat)
    requires Inv(s) && Latest(s, base) && Can(s, a) && AllFrom(s, base)
    ensures Latest(Effect(s, a), base)
  {
    var s' := Effect(s, a);
    hide Inv, Rank, PidBefore;
    if a.CmpXchg? { CmpXchgRanks(s, a.p); }
    if s'.last == s.last != base {
      var p :| p in s.callers && Finished(s.callers[p]) && s.callers[p].pc.pid == s.last;
      assert Finished(s'.callers[p]) && s'.callers[p].pc.pid == s.last;
    }
  }

  lemma {:induction false} RunLatest(run: seq<State>, base: nat)
    requires IsRun(run) && run[0].last == base && AllFrom(run[|run| - 1], base)
    ensures Latest(run[|run| - 1], base)
  {
    var n := |run| - 1;
    if n > 0 {
      RunKeeps(run[..n]);
      var s := run[n - 1];
      var a :| Can(s, a) && run[n] == Effect(s, a);
      EarlierFrom(s, a, base);
      RunLatest(run[..n], base);
      LatestKeeps(s, a, base);
    }
  }

  lemma {:induction false} EarlierFrom(s: State, a: Step, base: nat)
    requires Can(s, a) && AllFrom(Effect(s, a), base)
    ensures AllFrom(s, base)
  {
    forall p | p in s.callers ensures s.callers[p].base == base { assert Effect(s, a).callers[p].base == base; }
  }

  /** Of callers that race from the same last_pid, the latest prevails, whatever the order of their writes: last_pid
      ends at the pid of one of them, and no other's comes later in the search. */
  lemma {:induction false} LatestWins(run: seq<State>, max: nat)
    requires IsRun(run) && AllFrom(run[|run| - 1], run[0].last) && max <= PID_MAX_LIMIT
    ensures var s, base := run[|run| - 1], run[0].last;
      && (s.last == base || exists p :: p in s.callers && Finished(s.callers[p]) && s.callers[p].pc.pid == s.last)
      && (forall p :: p in s.callers && Finished(s.callers[p]) && base != s.callers[p].pc.pid < max ==>
            s.last != base && Place(base, max, s.callers[p].pc.pid) <= Place(base, max, s.last))
  {
    var s, base := run[|run| - 1], run[0].last;
    RunKeeps(run);
    RunLatest(run, base);
    forall p | p in s.callers && Finished(s.callers[p]) && s.callers[p].pc.pid < max && s.callers[p].pc.pid != base
      ensures s.last != base && Place(base, max, s.callers[p].pc.pid) <= Place(base, max, s.last)
    {
      assert CallerOk(s, p);
      OnlyBaseIsFirst(base, s.callers[p].pc.pid);
      OnlyBaseIsFirst(base, s.last);
      RankIsPlace(base, max, s.callers[p].pc.pid, s.last);
    }
  }

  lemma {:induction false} RankIsPlace(base: nat, max: nat, a: nat, b: nat)
    requires max <= PID_MAX_LIMIT && base < PID_MAX_LIMIT && a < max && b < PID_MAX_LIMIT && a != base && b != base
    requires Rank(base, a) <= Rank(base, b)
    ensures Place(base, max, a) <= Place(base, max, b)
  {
    if b < max { PidBeforeIsTheWalk(base, max, b, a); }
  }
}
