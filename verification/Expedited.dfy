/**
synchronize_sched_expedited: callers take tickets, try to stop all CPUs, and
may return early when somebody else's stop covers them.  Any number of callers
interleave; every atomic access is a step of its own, and so are the beginning
and the end of try_stop_cpus().

The counters are natural numbers and a ticket may always be taken, whatever the
test against a nearly wrapped counter decides. The code's wrapping comparisons
agree with these exactly within half a word (ComparisonIsExactIff).
The times, the ticket log, the log of successful stops and the count of a caller's failed
attempts are history only.
*/
module Expedited {
  import opened Common

  datatype Stop = Stop(begin: nat, end: nat)

  datatype Pc =
    | Ready            // has `snap`, about to try to stop the CPUs
    | Stopping         // inside try_stop_cpus
    | FirstCheck       // the stop failed
    | SecondCheck      // after the delay
    | Refetching       // about to read expedited_start again
    | Reading          // the stop succeeded, about to read expedited_done
    | Swapping(s: nat) // about to cmpxchg expedited_done from s to snap
    | Covered          // returned because expedited_done >= firstsnap
    | Done             // returned after an own successful stop
    | FellBack         // returned after an ordinary grace period

  datatype Caller = Caller(firstsnap: nat, snap: nat, trycount: nat, pc: Pc,
                           ticketTime: nat, stop: Stop, returned: nat, failed: nat)

  datatype State = State(start: nat, done: nat, callers: map<nat, Caller>,
                         now: nat, tickets: seq<nat>, stops: set<Stop>, doneStop: Stop)

  datatype Step =
    | TakeTicket(p: nat)
    | TryBegin(p: nat)
    | TryFail(p: nat)
    | TrySucceed(p: nat)
    | Check(p: nat)
    | Recheck(p: nat)
    | Refetch(p: nat)
    | ReadDone(p: nat)
    | CmpXchg(p: nat)

  const MAX_TRIES: nat := 10

  predicate At(s: State, p: nat, pc: Pc) { p in s.callers && s.callers[p].pc == pc }

  predicate Can(s: State, a: Step) {
    match a
    case TakeTicket(p) => p !in s.callers
    case TryBegin(p) => At(s, p, Ready)
    case TryFail(p) => At(s, p, Stopping)
    case TrySucceed(p) => At(s, p, Stopping)
    case Check(p) => At(s, p, FirstCheck)
    case Recheck(p) => At(s, p, SecondCheck)
    case Refetch(p) => At(s, p, Refetching)
    case ReadDone(p) => At(s, p, Reading)
    case CmpXchg(p) => p in s.callers && s.callers[p].pc.Swapping?
  }

  function Set(s: State, p: nat, c: Caller): State { s.(callers := s.callers[p := c]) }

  function Effect(s: State, a: Step): State
    requires Can(s, a)
  {
    match a
    case TakeTicket(p) =>
      Set(s.(start := s.start + 1, tickets := s.tickets + [s.now]), p,
          Caller(s.start + 1, s.start + 1, 0, Ready, s.now, Stop(0, 0), 0, 0))
    case TryBegin(p) => Set(s, p, s.callers[p].(pc := Stopping, stop := Stop(s.now, s.now)))
    case TryFail(p) => Set(s, p, s.callers[p].(pc := FirstCheck, failed := s.callers[p].failed + 1))
    case TrySucceed(p) =>
      var stop := s.callers[p].stop.(end := s.now);
      Set(s.(stops := s.stops + {stop}), p, s.callers[p].(pc := Reading, stop := stop))
    case Check(p) =>
      var c := s.callers[p];
      Set(s, p, if s.done >= c.firstsnap then c.(pc := Covered, returned := s.now)
                else if c.trycount < MAX_TRIES then c.(pc := SecondCheck, trycount := c.trycount + 1)
                else c.(pc := FellBack, trycount := c.trycount + 1, returned := s.now))
    case Recheck(p) =>
      var c := s.callers[p];
      Set(s, p, if s.done >= c.firstsnap then c.(pc := Covered, returned := s.now) else c.(pc := Refetching))
    case Refetch(p) => Set(s, p, s.callers[p].(pc := Ready, snap := s.start))
    case ReadDone(p) =>
      var c := s.callers[p];
      Set(s, p, if s.done >= c.snap then c.(pc := Done, returned := s.now) else c.(pc := Swapping(s.done)))
    case CmpXchg(p) =>
      var c := s.callers[p];
      if s.done == c.pc.s
      then Set(s.(done := c.snap, doneStop := c.stop), p, c.(pc := Done, returned := s.now))
      else Set(s, p, c.(pc := Reading))
  }

  ghost predicate Next(s: State, s': State) {
    exists a :: Can(s, a) && s' == Effect(s, a).(now := s.now + 1)
  }

  ghost predicate Initial(s: State) {
    s.start == 0 && s.done == 0 && s.callers == map[] && s.tickets == [] && s.stops == {}
  }

  // ----- the invariant -----

  /** Every ticket up to `n` was taken before time `t`. */
  ghost predicate TakenBefore(s: State, n: nat, t: nat) {
    n <= |s.tickets| && forall k :: 0 <= k < n ==> s.tickets[k] < t
  }

  /** The guarantee a returning caller needs: a stop of all CPUs began after its ticket and ended before its return. */
  ghost predicate HadStop(s: State, c: Caller) {
    exists stop :: stop in s.stops && c.ticketTime < stop.begin && stop.end <= c.returned
  }

  ghost predicate CallerOk(s: State, p: nat)
    requires p in s.callers
  {
    var c := s.callers[p];
    && 0 < c.firstsnap <= c.snap <= s.start == |s.tickets|
    && s.tickets[c.firstsnap - 1] == c.ticketTime < s.now
    && (c.pc.Stopping? ==> TakenBefore(s, c.snap, c.stop.begin))
    && (c.pc.Reading? || c.pc.Swapping? ==>
          TakenBefore(s, c.snap, c.stop.begin) && c.stop in s.stops && c.stop.end < s.now)
    && (c.pc.Swapping? ==> c.pc.s < c.snap)
    && (c.pc.Covered? || c.pc.Done? ==> HadStop(s, c))
    && (c.pc.Covered? ==> c.firstsnap <= s.done) && (c.pc.Done? ==> c.snap <= s.done)
    && AttemptsOk(c)
  }

  /** The tries counted are the attempts that failed. */
  predicate AttemptsOk(c: Caller) {
    match c.pc
    case FirstCheck => c.failed == c.trycount + 1 <= 11
    case Covered => c.failed <= 11
    case FellBack => c.failed == 11
    case _ => c.failed == c.trycount <= 10
  }

  ghost predicate Inv(s: State) {
    && s.done <= s.start == |s.tickets|
    && (forall k :: 0 <= k < |s.tickets| ==> s.tickets[k] < s.now)
    && (s.done > 0 ==> TakenBefore(s, s.done, s.doneStop.begin) && s.doneStop in s.stops && s.doneStop.end < s.now)
    && (forall p :: p in s.callers ==> CallerOk(s, p))
  }

  /** What another caller's step leaves of a caller's guarantees. */
  lemma {:induction false} CallerKeeps(s: State, s': State, p: nat)
    requires Inv(s) && p in s.callers && p in s'.callers && s'.callers[p] == s.callers[p]
    requires s.now < s'.now && s.tickets <= s'.tickets && s.stops <= s'.stops && s.start <= s'.start == |s'.tickets|
    requires s.done <= s'.done
    ensures CallerOk(s', p)
  {
    assert CallerOk(s, p);
    var c := s.callers[p];
    if c.pc.Covered? || c.pc.Done? {
      var stop :| stop in s.stops && c.ticketTime < stop.begin && stop.end <= c.returned;
      assert stop in s'.stops;
    }
  }

  lemma {:induction false} TicketKeeps(s: State, p: nat)
    requires Inv(s) && Can(s, TakeTicket(p))
    ensures Inv(Effect(s, TakeTicket(p)).(now := s.now + 1))
  {
    var s' := Effect(s, TakeTicket(p)).(now := s.now + 1);
    forall q | q in s'.callers ensures CallerOk(s', q) {
      if q != p { CallerKeeps(s, s', q); }
    }
  }

  /** A step of `p` has to be checked on `p` and on expedited_done only. */
  lemma {:induction false} OthersKeep(s: State, p: nat, s': State)
    requires Inv(s) && p in s.callers && p in s'.callers && s'.callers == s.callers[p := s'.callers[p]]
    requires s' == s.(callers := s'.callers, done := s'.done, stops := s'.stops, doneStop := s'.doneStop,
                      now := s.now + 1)
    requires s.stops <= s'.stops && s.done <= s'.done <= s.start
    requires s'.done > 0 ==>
      TakenBefore(s', s'.done, s'.doneStop.begin) && s'.doneStop in s'.stops && s'.doneStop.end <= s.now
    requires CallerOk(s', p)
    ensures Inv(s')
  {
    forall q | q in s'.callers ensures CallerOk(s', q) {
      if q != p { CallerKeeps(s, s', q); }
    }
  }

  lemma {:induction false} TryKeeps(s: State, a: Step)
    requires Inv(s) && Can(s, a) && (a.TryBegin? || a.TryFail? || a.TrySucceed? || a.Refetch?)
    ensures Inv(Effect(s, a).(now := s.now + 1))
  {
    var s' := Effect(s, a).(now := s.now + 1);
    assert CallerOk(s, a.p);
    assert CallerOk(s', a.p);
    OthersKeep(s, a.p, s');
  }

  /** Returning because of somebody else's stop: it began after every ticket up to expedited_done was taken. */
  lemma {:induction false} CheckKeeps(s: State, a: Step)
    requires Inv(s) && Can(s, a) && (a.Check? || a.Recheck?)
    ensures Inv(Effect(s, a).(now := s.now + 1))
  {
    var s', c := Effect(s, a).(now := s.now + 1), s.callers[a.p];
    assert CallerOk(s, a.p);
    if s.done >= c.firstsnap { assert s.tickets[c.firstsnap - 1] < s.doneStop.begin && s.doneStop in s'.stops; }
    assert CallerOk(s', a.p);
    OthersKeep(s, a.p, s');
  }

  lemma {:induction false} PublishKeeps(s: State, a: Step)
    requires Inv(s) && Can(s, a) && (a.ReadDone? || a.CmpXchg?)
    ensures Inv(Effect(s, a).(now := s.now + 1))
  {
    var s', c := Effect(s, a).(now := s.now + 1), s.callers[a.p];
    assert CallerOk(s, a.p);
    assert s.tickets[c.firstsnap - 1] < c.stop.begin && c.stop in s'.stops;
    assert CallerOk(s', a.p);
    OthersKeep(s, a.p, s');
  }

  /** A run of callers, every interleaving of their steps allowed. */
  ghost predicate IsRun(run: seq<State>) {
    && run != []
    && if |run| == 1 then Initial(run[0])
       else IsRun(run[..|run| - 1]) && Next(run[|run| - 2], run[|run| - 1])
  }

  lemma {:induction false} RunKeeps(run: seq<State>)
    requires IsRun(run)
    ensures Inv(run[|run| - 1])
  {
    if |run| > 1 {
      RunKeeps(run[..|run| - 1]);
      var s := run[|run| - 2];
      var a :| Can(s, a) && run[|run| - 1] == Effect(s, a).(now := s.now + 1);
      if a.TakeTicket? { TicketKeeps(s, a.p); }
      else if a.Check? || a.Recheck? { CheckKeeps(s, a); }
      else if a.ReadDone? || a.CmpXchg? { PublishKeeps(s, a); }
      else { TryKeeps(s, a); }
    }
  }

  /** Ticket safety: whoever returns without falling back to an ordinary grace period, be it because
      expedited_done has passed its ticket or after its own stop, is covered by a successful stop of all CPUs
      that began after it took its ticket and ended before it returned. */
  lemma {:induction false} TicketSafety(run: seq<State>)
    requires IsRun(run)
    ensures var s := run[|run| - 1];
            forall p :: p in s.callers && (s.callers[p].pc.Covered? || s.callers[p].pc.Done?) ==>
              HadStop(s, s.callers[p])
  {
    RunKeeps(run);
    var s := run[|run| - 1];
    forall p | p in s.callers && (s.callers[p].pc.Covered? || s.callers[p].pc.Done?) ensures HadStop(s, s.callers[p]) {
      assert CallerOk(s, p);
    }
  }

  /** Whoever returns without falling back leaves expedited_done at or past its own ticket, so that nobody with an
      earlier ticket has to stop the CPUs again. */
  lemma {:induction false} ReturnIsPublished(run: seq<State>, p: nat)
    requires IsRun(run) && p in run[|run| - 1].callers
    requires run[|run| - 1].callers[p].pc.Covered? || run[|run| - 1].callers[p].pc.Done?
    ensures run[|run| - 1].callers[p].firstsnap <= run[|run| - 1].done
  {
    RunKeeps(run);
    assert CallerOk(run[|run| - 1], p);
  }

  /** No caller tries more than eleven times, and one falls back to an ordinary grace period exactly if its eleventh
      attempt has failed and it was not covered by then. */
  lemma {:induction false} AttemptsBounded(run: seq<State>, p: nat)
    requires IsRun(run) && p in run[|run| - 1].callers
    ensures var c := run[|run| - 1].callers[p];
      && c.failed <= 11
      && (c.pc.FellBack? <==> c.failed == 11 && !c.pc.FirstCheck? && !c.pc.Covered?)
  {
    RunKeeps(run);
    assert CallerOk(run[|run| - 1], p);
  }

  // ----- one retry helps everybody -----

  ghost predicate Extends(run: seq<State>, run': seq<State>) {
    IsRun(run) && IsRun(run') && |run| <= |run'| && run'[..|run|] == run
  }

  lemma {:induction false} OneMore(run: seq<State>, a: Step) returns (run': seq<State>)
    requires IsRun(run) && Can(run[|run| - 1], a)
    ensures Extends(run, run') && |run'| == |run| + 1
    ensures run'[|run'| - 1] == Effect(run[|run| - 1], a).(now := run[|run| - 1].now + 1)
  {
    var s := run[|run| - 1];
    run' := run + [Effect(s, a).(now := s.now + 1)];
    assert run'[..|run|] == run;
  }

  /** Caller `q` has not moved from `s` to `s'`, and whichever check it comes to there lets it return. */
  predicate Helped(s: State, s': State, q: nat)
    requires q in s.callers
  {
    && q in s'.callers && s'.callers[q] == s.callers[q]
    && (Can(s', Check(q)) ==> Effect(s', Check(q)).callers[q].pc.Covered?)
    && (Can(s', Recheck(q)) ==> Effect(s', Recheck(q)).callers[q].pc.Covered?)
  }

  /** A caller that tries again, and succeeds, covers every ticket taken until it looked at expedited_start once more:
      whoever has failed by then returns at its next check. */
  lemma {:induction false} RetryCoversEveryone(run: seq<State>, p: nat) returns (run': seq<State>)
    requires IsRun(run) && At(run[|run| - 1], p, Refetching)
    ensures Extends(run, run') && At(run'[|run'| - 1], p, Done)
    ensures var s, s' := run[|run| - 1], run'[|run'| - 1];
      forall q :: q in s.callers && q != p ==> Helped(s, s', q)
  {
    RunKeeps(run);
    TicketsAreTaken(run[|run| - 1]);
    var tried := TryAgain(run, p);
    run' := Publish(tried, p);
    hide IsRun, Effect, Inv, Helped;
    assert run'[..|run|] == run;
    var s, s' := run[|run| - 1], run'[|run'| - 1];
    forall q | q in s.callers && q != p
      ensures Helped(s, s', q)
    {
      CheckSees(s, s', q);
    }
  }

  lemma {:induction false} TicketsAreTaken(s: State)
    requires Inv(s)
    ensures forall q :: q in s.callers ==> s.callers[q].firstsnap <= s.start
  {
    forall q | q in s.callers ensures s.callers[q].firstsnap <= s.start { assert CallerOk(s, q); }
  }

  lemma {:induction false} CheckSees(s: State, s': State, q: nat)
    requires q in s.callers && q in s'.callers && s'.callers[q] == s.callers[q] && s.callers[q].firstsnap <= s'.done
    ensures Helped(s, s', q)
  {
  }

  /** A further, successful attempt of `p`, alone: it holds every ticket there is. */
  lemma {:induction false} TryAgain(run: seq<State>, p: nat) returns (run': seq<State>)
    requires IsRun(run) && At(run[|run| - 1], p, Refetching)
    ensures Extends(run, run') && At(run'[|run'| - 1], p, Reading)
    ensures var s, s' := run[|run| - 1], run'[|run'| - 1];
      && s'.callers == s.callers[p := s'.callers[p]] && s'.callers[p].snap == s.start
  {
    run' := OneMore(run, Refetch(p));
    run' := OneMore(run', TryBegin(p));
    run' := OneMore(run', TrySucceed(p));
    hide IsRun;
    assert run'[..|run|] == run;
  }

  lemma {:induction false} Publish(run: seq<State>, p: nat) returns (run': seq<State>)
    requires IsRun(run) && At(run[|run| - 1], p, Reading)
    ensures Extends(run, run') && At(run'[|run'| - 1], p, Done)
    ensures var s, s' := run[|run| - 1], run'[|run'| - 1];
      && s'.callers == s.callers[p := s'.callers[p]] && s.callers[p].snap <= s'.done
  {
    run' := OneMore(run, ReadDone(p));
    if !At(run'[|run'| - 1], p, Done) { run' := OneMore(run', CmpXchg(p)); }
    hide IsRun;
    assert run'[..|run|] == run;
  }

  /** ULONG_CMP_GE, on words of 2 * `half` values. */
  predicate WrappedGe(half: nat, a: int, b: int)
    requires half > 0
  {
    (a - b) % (2 * half) <= half - 1
  }

  /** Two counters less than a word apart are compared rightly if and only if neither is more than half a word ahead. */
  lemma {:induction false} ComparisonIsExactIff(half: nat, a: nat, b: nat)
    requires half > 0 && a < b + 2 * half && b < a + 2 * half
    ensures WrappedGe(half, a, b) == (a >= b) <==> b <= a + half && a < b + half
  {
    var d, w := a - b, 2 * half;
    if d >= 0 { Remainder(d, w, 0); } else { Remainder(d, w, -1); }
  }

  lemma {:induction false} Remainder(d: int, w: nat, q: int)
    requires w > 0 && 0 <= d - q * w < w
    ensures d % w == d - q * w
  {
    var k := d / w;
    assert d == k * w + d % w;
    if k < q { MulLe(k + 1, q, w); } else if q < k { MulLe(q + 1, k, w); }
  }

  /** expedited_done only grows and never passes expedited_start. */
  lemma {:induction false} DoneOnlyGrows(run: seq<State>, s': State)
    requires IsRun(run) && Next(run[|run| - 1], s')
    ensures run[|run| - 1].done <= s'.done <= s'.start
  {
    RunKeeps(run);
    var s := run[|run| - 1];
    var a :| Can(s, a) && s' == Effect(s, a).(now := s.now + 1);
    if a.CmpXchg? { assert CallerOk(s, a.p); }
  }
}
