/**
The kthread worker: works queued under the worker's lock, run one at a time, and
flushed by inserting a marker work at the right place in the list.

Every successful queueing of a work gives one execution, numbered in order. A
flush remembers, as history, the executions it has to wait for: those queued or
running when it was called.
*/
module KthreadWorker {
  import opened Common

  datatype Entry = Work(w: nat, id: nat) | Marker(f: nat)

  /** A flush call: of the work `w`, or of the whole worker. Of one that waits, `upto` is history: the last execution
      queued ahead of its marker, or -1. */
  datatype Caller =
    | Called(w: Option<nat>, target: set<nat>)
    | Waiting(w: Option<nat>, target: set<nat>, upto: int)
    | Returned(target: set<nat>)

  /** `works[id]` is the work that execution `id` belongs to. `current` outlives the execution:
      current_work is only reset at the next dequeue. `bound` are the works that have a worker:
      those that were queued at least once. */
  datatype State = State(
    list: seq<Entry>,
    current: Option<Entry>,
    executing: bool,
    works: seq<nat>,
    ended: set<nat>,
    callers: map<nat, Caller>,
    done: set<nat>,
    bound: set<nat>,
    inserted: nat,
    dequeued: nat)

  // ----- what is queued or running -----

  ghost predicate Pending(s: State, w: nat) {
    exists i :: 0 <= i < |s.list| && s.list[i].Work? && s.list[i].w == w
  }

  /** Execution `id` is on the list or under way. */
  ghost predicate Live(s: State, id: nat) {
    (exists i :: 0 <= i < |s.list| && IsRunOf(s.list[i], id)) || Executes(s, id)
  }

  predicate IsRunOf(e: Entry, id: nat) { e.Work? && e.id == id }

  predicate Executes(s: State, id: nat) { s.executing && s.current.Some? && IsRunOf(s.current.value, id) }

  /** The executions that a flush called now has to wait for. */
  ghost predicate IsTarget(s: State, w: Option<nat>, target: set<nat>) {
    forall id: nat :: id in target <==> id < |s.works| && Live(s, id) && (w.Some? ==> s.works[id] == w.value)
  }

  // ----- steps -----

  function Insert(s: State, k: nat, e: Entry): State
    requires k <= |s.list|
  {
    s.(list := s.list[..k] + [e] + s.list[k..], inserted := s.inserted + 1)
  }

  /** queue_kthread_work of a work that is not pending; otherwise nothing happens. */
  ghost predicate Queue(s: State, s': State, w: nat) {
    if Pending(s, w) then s' == s
    else s' == Insert(s, |s.list|, Work(w, |s.works|)).(works := s.works + [w], bound := s.bound + {w})
  }

  /** The worker's lock section in kthread_worker_fn. */
  ghost predicate Dequeue(s: State, s': State) {
    && !s.executing
    && if s.list == [] then s' == s.(current := None)
       else s' == s.(list := s.list[1..], current := Some(s.list[0]), executing := true, dequeued := s.dequeued + 1)
  }

  /** The work function returns; a marker's function completes its flush. */
  ghost predicate Finish(s: State, s': State) {
    && s.executing && s.current.Some?
    && s' == match s.current.value
             case Work(_, id) => s.(executing := false, ended := s.ended + {id})
             case Marker(f) => s.(executing := false, done := s.done + {f})
  }

  /** A flush is called; it has not taken the lock yet. */
  ghost predicate Call(s: State, s': State, f: nat, w: Option<nat>, target: set<nat>) {
    f !in s.callers && IsTarget(s, w, target) && s' == s.(callers := s.callers[f := Called(w, target)])
  }

  /** The lock section of flush_kthread_work, for a work that has been queued before: the marker goes
      right behind the work if that is pending, to the front if the work is the current one; else
      there is nothing to wait for. */
  ghost predicate FlushWork(s: State, s': State, f: nat, w: nat) {
    && f in s.callers && s.callers[f].Called? && s.callers[f].w == Some(w)
    && var t := s.callers[f].target;
       if Pending(s, w) then
         exists k :: 0 <= k < |s.list| && s.list[k].Work? && s.list[k].w == w
           && s' == Insert(s, k + 1, Marker(f)).(callers := s.callers[f := Waiting(Some(w), t, s.list[k].id)])
       else if s.current.Some? && s.current.value.Work? && s.current.value.w == w then
         s' == Insert(s, 0, Marker(f)).(callers := s.callers[f := Waiting(Some(w), t, -1)])
       else
         s' == s.(callers := s.callers[f := Returned(t)])
  }

  /** flush_kthread_work of a work that has no worker. */
  ghost predicate FlushIdle(s: State, s': State, f: nat, w: nat) {
    && f in s.callers && s.callers[f].Called? && s.callers[f].w == Some(w)
    && w !in s.bound
    && s' == s.(callers := s.callers[f := Returned(s.callers[f].target)])
  }

  /** The lock section of flush_kthread_worker. */
  ghost predicate FlushWorker(s: State, s': State, f: nat) {
    && f in s.callers && s.callers[f].Called? && s.callers[f].w == None
    && var waiting := Waiting(None, s.callers[f].target, |s.works| - 1);
       s' == Insert(s, |s.list|, Marker(f)).(callers := s.callers[f := waiting])
  }

  /** wait_for_completion returns. */
  ghost predicate Wake(s: State, s': State, f: nat) {
    && f in s.callers && s.callers[f].Waiting? && f in s.done
    && s' == s.(callers := s.callers[f := Returned(s.callers[f].target)])
  }

  datatype Step =
    | QueueStep(w: nat) | DequeueStep | FinishStep
    | CallStep(f: nat, flushed: Option<nat>, target: set<nat>)
    | FlushWorkStep(f: nat, w: nat) | FlushIdleStep(f: nat, w: nat) | FlushWorkerStep(f: nat) | WakeStep(f: nat)

  ghost predicate Next(s: State, s': State, a: Step) {
    match a
    case QueueStep(w) => Queue(s, s', w)
    case DequeueStep => Dequeue(s, s')
    case FinishStep => Finish(s, s')
    case CallStep(f, w, t) => Call(s, s', f, w, t)
    case FlushWorkStep(f, w) => FlushWork(s, s', f, w)
    case FlushIdleStep(f, w) => FlushIdle(s, s', f, w)
    case FlushWorkerStep(f) => FlushWorker(s, s', f)
    case WakeStep(f) => Wake(s, s', f)
  }

  ghost predicate Initial(s: State) {
    s == State([], None, false, [], {}, map[], {}, {}, 0, 0)
  }

  ghost predicate Steps(s: State, s': State) { exists a :: Next(s, s', a) }

  ghost predicate IsRun(run: seq<State>) {
    && run != []
    && if |run| == 1 then Initial(run[0])
       else IsRun(run[..|run| - 1]) && Steps(run[|run| - 2], run[|run| - 1])
  }

  // ----- the invariant -----

  /** Each execution is over exactly if it is neither under way nor on the list, and what is under way is not on
      the list as well. */
  ghost predicate IdsOk(s: State) {
    && (s.executing ==> s.current.Some?)
    && (forall id: nat :: id < |s.works| ==> (id in s.ended <==> !Live(s, id)))
    && (forall id :: id in s.ended ==> id < |s.works|)
    && (s.executing && s.current.value.Work? ==> EntryOk(s, s.current.value) && NotListed(s.list, s.current.value.id))
    && (forall i :: 0 <= i < |s.list| && s.list[i].Work? ==> EntryOk(s, s.list[i]))
    && (forall id :: 0 <= id < |s.works| ==> s.works[id] in s.bound)
  }

  ghost predicate NotListed(list: seq<Entry>, id: nat) {
    forall i :: 0 <= i < |list| ==> !IsRunOf(list[i], id)
  }

  /** How many works, not markers, are on the list, and under way. */
  function WorksIn(list: seq<Entry>): nat {
    if list == [] then 0 else (if list[0].Work? then 1 else 0) + WorksIn(list[1..])
  }

  function UnderWay(s: State): nat {
    if s.executing && s.current.Some? && s.current.value.Work? then 1 else 0
  }

  /** Executions are over, under way or pending; insertions are dequeues plus entries on the list. */
  ghost predicate CountsOk(s: State) {
    && |s.works| == |s.ended| + UnderWay(s) + WorksIn(s.list)
    && s.inserted == s.dequeued + |s.list|
  }

  lemma {:induction false} WorksInsert(list: seq<Entry>, k: nat, e: Entry)
    requires k <= |list|
    ensures WorksIn(list[..k] + [e] + list[k..]) == WorksIn(list) + if e.Work? then 1 else 0
  {
    var longer := list[..k] + [e] + list[k..];
    if k == 0 {
      assert longer[1..] == list;
    } else {
      assert longer[1..] == list[1..][..k - 1] + [e] + list[1..][k - 1..];
      WorksInsert(list[1..], k - 1, e);
    }
  }

  ghost predicate EntryOk(s: State, e: Entry)
    requires e.Work?
  {
    e.id < |s.works| && s.works[e.id] == e.w
  }

  /** A work is on the list at most once; a marker is on the list or executing only once, and before its flush is
      done. */
  ghost predicate ListOk(s: State) {
    && NoneTwice(s.list)
    && (forall i :: 0 <= i < |s.list| && s.list[i].Marker? ==> MayRun(s, s.list[i].f) && !Runs(s, s.list[i].f))
    && (s.executing && s.current.Some? && s.current.value.Marker? ==> MayRun(s, s.current.value.f))
    && (forall f :: f in s.done ==> f in s.callers)
  }

  ghost predicate NoneTwice(list: seq<Entry>) {
    forall i, j :: 0 <= i < j < |list| ==> !Same(list[i], list[j])
  }

  /** The same work or the same marker. */
  predicate Same(a: Entry, b: Entry) {
    if a.Work? then b.Work? && a.w == b.w else a == b
  }

  ghost predicate MayRun(s: State, f: nat) { IsWaiting(s, f) && f !in s.done }

  ghost predicate IsWaiting(s: State, f: nat) { f in s.callers && s.callers[f].Waiting? }

  /** The worker is executing the marker of `f`. */
  predicate Runs(s: State, f: nat) { s.executing && s.current == Some(Marker(f)) }

  /** What flush `f` waits for is ahead of its marker. */
  ghost predicate Ahead(s: State, f: nat)
    requires f in s.callers
  {
    forall i, j :: 0 <= i < |s.list| && 0 <= j < |s.list| && HasTarget(s, f, i) && s.list[j] == Marker(f) ==> i < j
  }

  ghost predicate HasTarget(s: State, f: nat, i: nat)
    requires f in s.callers && i < |s.list|
  {
    s.list[i].Work? && s.list[i].id in s.callers[f].target
  }

  /** A flush that has only been called waits for executions of its own work. */
  ghost predicate OnlyOwn(s: State, f: nat)
    requires f in s.callers
  {
    s.callers[f].Called? && s.callers[f].w.Some? ==>
      forall id :: id in s.callers[f].target ==> id < |s.works| && s.works[id] == s.callers[f].w.value
  }

  ghost predicate FlushOk(s: State, f: nat)
    requires f in s.callers
  {
    && (forall id :: id in s.callers[f].target ==> id < |s.works|)
    && (s.callers[f].Returned? || f in s.done || Runs(s, f) ==> s.callers[f].target <= s.ended)
    && (s.callers[f].Called? ==> f !in s.done && !Runs(s, f))
    && Ahead(s, f) && OnlyOwn(s, f)
  }

  ghost predicate FlushesOk(s: State) { forall f :: f in s.callers ==> FlushOk(s, f) }

  ghost predicate Inv(s: State) {
    IdsOk(s) && ListOk(s) && FlushesOk(s) && CountsOk(s)
  }

  // ----- every step keeps it -----

  /** An execution stays what it is if its entries do. */
  lemma {:induction false} LiveStays(s: State, s': State, id: nat)
    requires Executes(s', id) == Executes(s, id)
    requires forall i :: 0 <= i < |s.list| && IsRunOf(s.list[i], id) ==> s.list[i] in s'.list
    requires forall i :: 0 <= i < |s'.list| && IsRunOf(s'.list[i], id) ==> s'.list[i] in s.list
    ensures Live(s, id) == Live(s', id)
  {
    if i :| 0 <= i < |s.list| && IsRunOf(s.list[i], id) {
      var j :| 0 <= j < |s'.list| && s'.list[j] == s.list[i];
      assert IsRunOf(s'.list[j], id);
    }
    if i :| 0 <= i < |s'.list| && IsRunOf(s'.list[i], id) {
      var j :| 0 <= j < |s.list| && s.list[j] == s'.list[i];
      assert IsRunOf(s.list[j], id);
    }
  }

  /** A step that leaves the executions and their entries alone. */
  lemma {:induction false} IdsStay(s: State, s': State)
    requires IdsOk(s) && s'.works == s.works && s'.ended == s.ended && s'.bound == s.bound
    requires s'.executing == s.executing && s'.current == s.current
    requires forall e: Entry :: e.Work? ==> (e in s.list <==> e in s'.list)
    ensures IdsOk(s')
  {
    forall id: nat | id < |s'.works| ensures id in s'.ended <==> !Live(s', id) { LiveStays(s, s', id); }
    forall i | 0 <= i < |s'.list| && s'.list[i].Work?
      ensures EntryOk(s', s'.list[i]) && exists j :: 0 <= j < |s.list| && s.list[j] == s'.list[i]
    {
      assert s'.list[i] in s.list;
    }
  }

  lemma {:induction false} QueueIds(s: State, s': State, w: nat)
    requires IdsOk(s) && Queue(s, s', w) && !Pending(s, w)
    ensures IdsOk(s')
  {
    var n := |s.list|;
    assert s'.list[n] == Work(w, |s.works|) && s'.list[..n] == s.list;
    forall id: nat | id < |s'.works| ensures id in s'.ended <==> !Live(s', id) {
      if id == |s.works| { assert IsRunOf(s'.list[n], id); } else { LiveStays(s, s', id); }
    }
  }

  lemma {:induction false} QueueFlushes(s: State, s': State, w: nat)
    requires FlushesOk(s) && Queue(s, s', w) && !Pending(s, w)
    ensures FlushesOk(s')
  {
    var n := |s.list|;
    assert s'.list[n] == Work(w, |s.works|);
    forall f | f in s'.callers ensures FlushOk(s', f) {
      assert FlushOk(s, f);
      forall i | 0 <= i < |s'.list| && HasTarget(s', f, i) ensures i < n && HasTarget(s, f, i) {}
    }
  }

  lemma {:induction false} QueueKeeps(s: State, s': State, w: nat)
    requires Inv(s) && Queue(s, s', w)
    ensures Inv(s')
  {
    if !Pending(s, w) {
      QueueIds(s, s', w);
      QueueFlushes(s, s', w);
      WorksInsert(s.list, |s.list|, Work(w, |s.works|));
      hide IdsOk, FlushesOk, FlushOk;
    }
  }

  /** A marker at the front of the list of a worker that is not executing has nothing left to wait for. */
  lemma {:induction false} NothingAhead(s: State, f: nat)
    requires Inv(s) && f in s.callers && !s.executing && s.list != [] && s.list[0] == Marker(f)
    ensures s.callers[f].target <= s.ended
  {
    assert FlushOk(s, f);
    forall i | 0 <= i < |s.list| ensures !HasTarget(s, f, i) {}
    forall id | id in s.callers[f].target ensures id in s.ended {
      assert id in s.ended || Live(s, id);
      forall i | 0 <= i < |s.list| ensures !IsRunOf(s.list[i], id) { assert !HasTarget(s, f, i); }
    }
  }

  /** An entry dequeued is on the list no more. */
  lemma {:induction false} DequeuedOnce(s: State)
    requires IdsOk(s) && ListOk(s) && s.list != [] && s.list[0].Work?
    ensures NotListed(s.list[1..], s.list[0].id)
  {
    forall i | 0 <= i < |s.list[1..]| ensures !IsRunOf(s.list[1..][i], s.list[0].id) {
      assert s.list[1..][i] == s.list[i + 1] && !Same(s.list[0], s.list[i + 1]);
    }
  }

  lemma {:induction false} DequeueLive(s: State, s': State, id: nat)
    requires IdsOk(s) && Dequeue(s, s') && s.list != []
    ensures Live(s', id) == Live(s, id)
  {
    if i :| 0 <= i < |s.list| && IsRunOf(s.list[i], id) {
      if i > 0 { assert IsRunOf(s'.list[i - 1], id); }
    }
    if i :| 0 <= i < |s'.list| && IsRunOf(s'.list[i], id) {
      assert IsRunOf(s.list[i + 1], id);
    } else if Executes(s', id) {
      assert IsRunOf(s.list[0], id);
    }
  }

  lemma {:induction false} DequeueKeeps(s: State, s': State)
    requires Inv(s) && Dequeue(s, s')
    ensures Inv(s')
  {
    if s.list != [] {
      if s.list[0].Work? { DequeuedOnce(s); }
      forall id: nat | id < |s'.works| ensures Live(s', id) == Live(s, id) { DequeueLive(s, s', id); }
      forall f | f in s'.callers ensures FlushOk(s', f) {
        assert FlushOk(s, f);
        if s.list[0] == Marker(f) { NothingAhead(s, f); }
        forall i | 0 <= i < |s'.list| && HasTarget(s', f, i) ensures HasTarget(s, f, i + 1) {}
      }
    }
  }

  lemma {:induction false} FinishIds(s: State, s': State)
    requires IdsOk(s) && Finish(s, s')
    ensures IdsOk(s')
  {
    forall id: nat | id < |s'.works| ensures id in s'.ended <==> !Live(s', id) {
      if !Executes(s, id) { LiveStays(s, s', id); }
    }
  }

  lemma {:induction false} FinishCounts(s: State, s': State)
    requires IdsOk(s) && CountsOk(s) && Finish(s, s')
    ensures CountsOk(s')
  {
    if s.current.value.Work? { assert Executes(s, s.current.value.id) && s.current.value.id !in s.ended; }
  }

  lemma {:induction false} FinishLists(s: State, s': State)
    requires ListOk(s) && FlushesOk(s) && Finish(s, s')
    ensures ListOk(s')
  {
    forall f | f in s.callers ensures FlushOk(s, f) {}
  }

  lemma {:induction false} FinishFlushes(s: State, s': State)
    requires FlushesOk(s) && ListOk(s) && Finish(s, s')
    ensures FlushesOk(s')
  {
    forall f | f in s'.callers ensures FlushOk(s', f) {
      assert FlushOk(s, f);
      forall i | 0 <= i < |s'.list| && HasTarget(s', f, i) ensures HasTarget(s, f, i) {}
    }
  }

  lemma {:induction false} FinishKeeps(s: State, s': State)
    requires Inv(s) && Finish(s, s')
    ensures Inv(s')
  {
    hide IdsOk, ListOk, FlushesOk, CountsOk, Finish;
    FinishIds(s, s');
    FinishCounts(s, s');
    FinishLists(s, s');
    FinishFlushes(s, s');
  }

  lemma {:induction false} CallKeeps(s: State, s': State, f: nat, w: Option<nat>, target: set<nat>)
    requires Inv(s) && Call(s, s', f, w, target)
    ensures Inv(s')
  {
    IdsStay(s, s');
    hide IdsOk;
    forall g | g in s'.callers ensures FlushOk(s', g) {
      if g != f {
        assert FlushOk(s, g);
        forall i | 0 <= i < |s'.list| && HasTarget(s', g, i) ensures HasTarget(s, g, i) {}
      }
    }
  }

  /** Where an entry of the longer list comes from. */
  lemma {:induction false} InsertIs(s: State, k: nat, e: Entry)
    requires k <= |s.list|
    ensures var t := Insert(s, k, e).list;
      && |t| == |s.list| + 1 && t[k] == e
      && (forall i :: 0 <= i < k ==> t[i] == s.list[i])
      && (forall i :: k < i < |t| ==> t[i] == s.list[i - 1])
      && (forall i :: k <= i < |s.list| ==> t[i + 1] == s.list[i])
  {
  }

  /** Putting a marker into the list, with everything it waits for ahead of it or over, under way included. */
  lemma {:induction false} MarkerKeeps(s: State, k: nat, f: nat, c: Caller)
    requires Inv(s) && k <= |s.list| && f in s.callers && s.callers[f].Called?
    requires c.Waiting? && c.target == s.callers[f].target
    requires forall i :: k <= i < |s.list| ==> !HasTarget(s, f, i)
    ensures Inv(Insert(s, k, Marker(f)).(callers := s.callers[f := c]))
  {
    var s' := Insert(s, k, Marker(f)).(callers := s.callers[f := c]);
    InsertIs(s, k, Marker(f));
    assert FlushOk(s, f);
    WorksInsert(s.list, k, Marker(f));
    MarkerIds(s, s', k, f, c);
    forall i | 0 <= i < |s.list| ensures s.list[i] != Marker(f) {}
    MarkerListOk(s, s', k, f, c);
    forall g | g in s'.callers ensures FlushOk(s', g) {
      assert FlushOk(s, g);
      MarkerAhead(s, s', k, f, g, c);
    }
  }

  lemma {:induction false} MarkerIds(s: State, s': State, k: nat, f: nat, c: Caller)
    requires IdsOk(s) && k <= |s.list| && f in s.callers
    requires c.Waiting? && c.target == s.callers[f].target
    requires s' == Insert(s, k, Marker(f)).(callers := s.callers[f := c])
    ensures IdsOk(s')
  {
    forall e: Entry | e.Work? ensures e in s.list <==> e in s'.list { InsertedIn(s.list, k, Marker(f), e); }
    hide IdsOk;
    IdsStay(s, s');
  }

  lemma {:induction false} InsertedIn(list: seq<Entry>, k: nat, e: Entry, x: Entry)
    requires k <= |list| && x != e
    ensures x in list <==> x in list[..k] + [e] + list[k..]
  {
    assert list == list[..k] + list[k..];
  }

  lemma {:induction false} MarkerListOk(s: State, s': State, k: nat, f: nat, c: Caller)
    requires IdsOk(s) && ListOk(s) && k <= |s.list| && f in s.callers
    requires s.callers[f].Called? && f !in s.done && !Runs(s, f)
    requires c.Waiting? && c.target == s.callers[f].target
    requires s' == Insert(s, k, Marker(f)).(callers := s.callers[f := c])
    ensures ListOk(s')
  {
    InsertIs(s, k, Marker(f));
    forall i | 0 <= i < |s.list| ensures s.list[i] != Marker(f) && !Same(s.list[i], Marker(f)) {}
    forall i, j | 0 <= i < j < |s'.list| ensures !Same(s'.list[i], s'.list[j]) {
      var i0, j0 := if i < k then i else i - 1, if j < k then j else j - 1;
      if i != k && j != k { assert !Same(s.list[i0], s.list[j0]); }
    }
    forall i | 0 <= i < |s'.list| && s'.list[i].Marker? ensures MayRun(s', s'.list[i].f) && !Runs(s', s'.list[i].f) {
      if i != k { assert s'.list[i] == s.list[if i < k then i else i - 1]; }
    }
  }

  lemma {:induction false} MarkerAhead(s: State, s': State, k: nat, f: nat, g: nat, c: Caller)
    requires k <= |s.list| && f in s.callers && g in s.callers && Ahead(s, g)
    requires c.Waiting? && c.target == s.callers[f].target
    requires s' == Insert(s, k, Marker(f)).(callers := s.callers[f := c])
    requires forall i :: k <= i < |s.list| ==> !HasTarget(s, f, i)
    requires forall i :: 0 <= i < |s.list| ==> s.list[i] != Marker(f)
    ensures Ahead(s', g)
  {
    InsertIs(s, k, Marker(f));
    forall i, j | 0 <= i < |s'.list| && 0 <= j < |s'.list| && HasTarget(s', g, i) && s'.list[j] == Marker(g)
      ensures i < j
    {
      var i0, j0 := if i < k then i else i - 1, if j < k then j else j - 1;
      assert HasTarget(s, g, i0);
      if g != f { assert s.list[j0] == Marker(g); }
    }
  }

  /** Behind the pending work that a flush waits for there is nothing else that it waits for. */
  lemma {:induction false} NoTargetBehind(s: State, f: nat, w: nat, k: nat)
    requires Inv(s) && IsFlushOf(s, f, w) && k < |s.list| && s.list[k].Work? && s.list[k].w == w
    ensures forall i :: k + 1 <= i < |s.list| ==> !HasTarget(s, f, i)
  {
    assert FlushOk(s, f);
    forall i | k + 1 <= i < |s.list| ensures !HasTarget(s, f, i) { assert !Same(s.list[k], s.list[i]); }
  }

  /** What a flush waits for is on the list only if its work is pending, and not over only if its work is pending or
      current. */
  lemma {:induction false} NoTargetListed(s: State, f: nat, w: nat)
    requires Inv(s) && IsFlushOf(s, f, w) && !Pending(s, w)
    ensures forall i :: 0 <= i < |s.list| ==> !HasTarget(s, f, i)
    ensures !(s.current.Some? && s.current.value.Work? && s.current.value.w == w) ==> s.callers[f].target <= s.ended
  {
    assert FlushOk(s, f);
    forall i | 0 <= i < |s.list| ensures !HasTarget(s, f, i) {}
    if !(s.current.Some? && s.current.value.Work? && s.current.value.w == w) {
      forall id | id in s.callers[f].target ensures id in s.ended {
        assert id in s.ended || Live(s, id);
      }
    }
  }

  ghost predicate IsFlushOf(s: State, f: nat, w: nat) {
    f in s.callers && s.callers[f].Called? && s.callers[f].w == Some(w)
  }

  lemma {:induction false} FlushWorkKeeps(s: State, s': State, f: nat, w: nat)
    requires Inv(s) && FlushWork(s, s', f, w)
    ensures Inv(s')
  {
    assert FlushOk(s, f);
    hide Inv;
    if Pending(s, w) {
      var k :| 0 <= k < |s.list| && s.list[k].Work? && s.list[k].w == w
        && s' == Insert(s, k + 1, Marker(f))
                   .(callers := s.callers[f := Waiting(Some(w), s.callers[f].target, s.list[k].id)]);
      NoTargetBehind(s, f, w, k);
      MarkerKeeps(s, k + 1, f, s'.callers[f]);
    } else if s.current.Some? && s.current.value.Work? && s.current.value.w == w {
      NoTargetListed(s, f, w);
      MarkerKeeps(s, 0, f, s'.callers[f]);
    } else {
      NoTargetListed(s, f, w);
      CalledIsNowhere(s, f);
      ReturnKeeps(s, f);
    }
  }

  lemma {:induction false} CalledIsNowhere(s: State, f: nat)
    requires Inv(s) && f in s.callers && s.callers[f].Called?
    ensures !Runs(s, f) && forall i :: 0 <= i < |s.list| ==> s.list[i] != Marker(f)
  {
    assert FlushOk(s, f);
  }

  lemma {:induction false} FlushWorkerKeeps(s: State, s': State, f: nat)
    requires Inv(s) && FlushWorker(s, s', f)
    ensures Inv(s')
  {
    MarkerKeeps(s, |s.list|, f, s'.callers[f]);
  }

  /** A flush may return once everything it waits for is over. */
  lemma {:induction false} ReturnKeeps(s: State, f: nat)
    requires Inv(s) && f in s.callers && s.callers[f].target <= s.ended
    requires forall i :: 0 <= i < |s.list| ==> s.list[i] != Marker(f)
    requires !Runs(s, f)
    ensures Inv(s.(callers := s.callers[f := Returned(s.callers[f].target)]))
  {
    var s' := s.(callers := s.callers[f := Returned(s.callers[f].target)]);
    IdsStay(s, s');
    hide IdsOk;
    forall g | g in s'.callers ensures FlushOk(s', g) {
      assert FlushOk(s, g);
      forall i | 0 <= i < |s'.list| && HasTarget(s', g, i) ensures HasTarget(s, g, i) {}
    }
  }

  lemma {:induction false} NextKeeps(s: State, s': State)
    requires Inv(s) && Steps(s, s')
    ensures Inv(s')
  {
    hide Inv, Queue, Dequeue, Finish, Call, FlushWork, FlushWorker;
    var a :| Next(s, s', a);
    match a
    case QueueStep(w) => QueueKeeps(s, s', w);
    case DequeueStep => DequeueKeeps(s, s');
    case FinishStep => FinishKeeps(s, s');
    case CallStep(f, w, t) => CallKeeps(s, s', f, w, t);
    case FlushWorkStep(f, w) => FlushWorkKeeps(s, s', f, w);
    case FlushIdleStep(f, w) => FlushIdleKeeps(s, s', f, w);
    case FlushWorkerStep(f) => FlushWorkerKeeps(s, s', f);
    case WakeStep(f) => WakeKeeps(s, s', f);
  }

  lemma {:induction false} FlushIdleKeeps(s: State, s': State, f: nat, w: nat)
    requires Inv(s) && FlushIdle(s, s', f, w)
    ensures Inv(s')
  {
    assert FlushOk(s, f);
    ReturnKeeps(s, f);
  }

  lemma {:induction false} WakeKeeps(s: State, s': State, f: nat)
    requires Inv(s) && Wake(s, s', f)
    ensures Inv(s')
  {
    assert FlushOk(s, f);
    ReturnKeeps(s, f);
  }

  lemma {:induction false} RunKeeps(run: seq<State>)
    requires IsRun(run)
    ensures Inv(run[|run| - 1])
  {
    if |run| > 1 {
      RunKeeps(run[..|run| - 1]);
      NextKeeps(run[|run| - 2], run[|run| - 1]);
    }
  }

  // ----- the order of executions -----

  /** Works are listed in the order in which they were queued. */
  ghost predicate Ascending(list: seq<Entry>) {
    forall i, j :: 0 <= i < j < |list| && list[i].Work? && list[j].Work? ==> list[i].id < list[j].id
  }

  /** Every work listed was queued after execution `id`. */
  ghost predicate AllAfter(list: seq<Entry>, id: nat) {
    forall i :: 0 <= i < |list| && list[i].Work? ==> id < list[i].id
  }

  /** Whatever has begun was queued before all that is listed, and what is over before what is under way. */
  ghost predicate BegunFirst(s: State) {
    && (forall id :: id in s.ended ==> AllAfter(s.list, id))
    && (s.executing && s.current.Some? && s.current.value.Work? ==>
          AllAfter(s.list, s.current.value.id) && forall id :: id in s.ended ==> id < s.current.value.id)
  }

  /** Ahead of the marker of `f` there is nothing queued later than `upto`, an execution of the work that is flushed. */
  ghost predicate NothingLater(s: State, f: nat)
    requires f in s.callers
  {
    var c := s.callers[f];
    c.Waiting? ==>
      && c.upto < |s.works| && (c.w.Some? && c.upto >= 0 ==> s.works[c.upto] == c.w.value)
      && Upto(s.list, f, c.upto)
  }

  ghost predicate Upto(list: seq<Entry>, f: nat, upto: int) {
    forall i, j :: 0 <= i < j < |list| && list[i].Work? && list[j] == Marker(f) ==> list[i].id <= upto
  }

  ghost predicate OrderOk(s: State) {
    Ascending(s.list) && BegunFirst(s) && forall f :: f in s.callers ==> NothingLater(s, f)
  }

  lemma {:induction false} QueueOrder(s: State, s': State, w: nat)
    requires IdsOk(s) && OrderOk(s) && Queue(s, s', w)
    ensures OrderOk(s')
  {
    if !Pending(s, w) {
      var n := |s.list|;
      assert s'.list[n] == Work(w, |s.works|) && s'.list[..n] == s.list;
      assert Ascending(s'.list) by { AllQueued(s); }
      forall f | f in s'.callers ensures NothingLater(s', f) {
        assert NothingLater(s, f);
        if s.callers[f].Waiting? { assert Upto(s'.list, f, s.callers[f].upto); }
      }
    }
  }

  lemma {:induction false} DequeueOrder(s: State, s': State)
    requires IdsOk(s) && OrderOk(s) && Dequeue(s, s')
    ensures OrderOk(s')
  {
    if s.list != [] {
      forall i | 0 <= i < |s'.list| ensures s'.list[i] == s.list[i + 1] {}
      forall f | f in s'.callers ensures NothingLater(s', f) {
        assert NothingLater(s, f);
        if s.callers[f].Waiting? { assert Upto(s'.list, f, s.callers[f].upto); }
      }
    }
  }

  lemma {:induction false} FinishOrder(s: State, s': State)
    requires IdsOk(s) && OrderOk(s) && Finish(s, s')
    ensures OrderOk(s')
  {
    forall f | f in s'.callers ensures NothingLater(s', f) { assert NothingLater(s, f); }
  }

  /** A step that only moves a flush caller on, or lets one in. */
  lemma {:induction false} CallerOrder(s: State, s': State, f: nat)
    requires OrderOk(s) && f in s'.callers && s' == s.(callers := s.callers[f := s'.callers[f]])
    requires !s'.callers[f].Waiting?
    ensures OrderOk(s')
  {
    forall g | g in s'.callers ensures NothingLater(s', g) {
      if g != f { assert NothingLater(s, g); }
    }
  }

  /** A marker in the list leaves the order of the works. */
  lemma {:induction false} MarkerAscending(s: State, k: nat, f: nat)
    requires k <= |s.list| && Ascending(s.list)
    ensures Ascending(Insert(s, k, Marker(f)).list)
    ensures forall id :: AllAfter(s.list, id) ==> AllAfter(Insert(s, k, Marker(f)).list, id)
  {
    var t := Insert(s, k, Marker(f)).list;
    InsertIs(s, k, Marker(f));
    forall i | 0 <= i < |t| && i != k ensures t[i] == s.list[if i < k then i else i - 1] {}
  }

  lemma {:induction false} MarkerUpto(s: State, k: nat, f: nat, g: nat, upto: int)
    requires k <= |s.list| && forall i :: 0 <= i < |s.list| ==> s.list[i] != Marker(f)
    requires g != f ==> Upto(s.list, g, upto)
    requires g == f ==> forall i :: 0 <= i < k && s.list[i].Work? ==> s.list[i].id <= upto
    ensures Upto(Insert(s, k, Marker(f)).list, g, upto)
  {
    var t := Insert(s, k, Marker(f)).list;
    InsertIs(s, k, Marker(f));
    forall i | 0 <= i < |t| && i != k ensures t[i] == s.list[if i < k then i else i - 1] {}
    forall i, j | 0 <= i < j < |t| && t[i].Work? && t[j] == Marker(g) ensures t[i].id <= upto {
      if g != f { assert s.list[if j < k then j else j - 1] == Marker(g); }
    }
  }

  lemma {:induction false} MarkerOrder(s: State, s': State, k: nat, f: nat, c: Caller)
    requires OrderOk(s) && k <= |s.list| && f in s.callers && c.Waiting?
    requires s' == Insert(s, k, Marker(f)).(callers := s.callers[f := c])
    requires c.upto < |s.works| && (c.w.Some? && c.upto >= 0 ==> s.works[c.upto] == c.w.value)
    requires forall i :: 0 <= i < k && s.list[i].Work? ==> s.list[i].id <= c.upto
    requires forall i :: 0 <= i < |s.list| ==> s.list[i] != Marker(f)
    ensures OrderOk(s')
  {
    MarkerAscending(s, k, f);
    hide Ascending, AllAfter, Upto;
    forall g | g in s'.callers ensures NothingLater(s', g) {
      if g != f { assert NothingLater(s, g); }
      if s'.callers[g].Waiting? { MarkerUpto(s, k, f, g, s'.callers[g].upto); }
    }
  }

  lemma {:induction false} PendingOrder(s: State, s': State, f: nat, w: nat, k: nat)
    requires IdsOk(s) && OrderOk(s) && f in s.callers && k < |s.list| && s.list[k].Work? && s.list[k].w == w
    requires s' == Insert(s, k + 1, Marker(f))
                     .(callers := s.callers[f := Waiting(Some(w), s.callers[f].target, s.list[k].id)])
    requires forall i :: 0 <= i < |s.list| ==> s.list[i] != Marker(f)
    ensures OrderOk(s')
  {
    assert EntryOk(s, s.list[k]) && Ascending(s.list);
    hide OrderOk, IdsOk;
    MarkerOrder(s, s', k + 1, f, s'.callers[f]);
  }

  lemma {:induction false} FlushWorkOrder(s: State, s': State, f: nat, w: nat)
    requires Inv(s) && OrderOk(s) && FlushWork(s, s', f, w)
    ensures OrderOk(s')
  {
    CalledIsNowhere(s, f);
    assert IdsOk(s) && Ascending(s.list);
    hide Inv, OrderOk, IsTarget;
    if Pending(s, w) {
      var k :| 0 <= k < |s.list| && s.list[k].Work? && s.list[k].w == w
        && s' == Insert(s, k + 1, Marker(f))
                   .(callers := s.callers[f := Waiting(Some(w), s.callers[f].target, s.list[k].id)]);
      PendingOrder(s, s', f, w, k);
    } else if s.current.Some? && s.current.value.Work? && s.current.value.w == w {
      MarkerOrder(s, s', 0, f, s'.callers[f]);
    } else {
      CallerOrder(s, s', f);
    }
  }

  lemma {:induction false} NextOrder(s: State, s': State)
    requires Inv(s) && OrderOk(s) && Steps(s, s')
    ensures OrderOk(s')
  {
    var a :| Next(s, s', a);
    assert IdsOk(s);
    hide OrderOk, IdsOk;
    match a
    case QueueStep(w) => QueueOrder(s, s', w);
    case DequeueStep => DequeueOrder(s, s');
    case FinishStep => FinishOrder(s, s');
    case CallStep(f, w, t) => CallerOrder(s, s', f);
    case FlushWorkStep(f, w) => FlushWorkOrder(s, s', f, w);
    case FlushIdleStep(f, w) => CallerOrder(s, s', f);
    case FlushWorkerStep(f) =>
      CalledIsNowhere(s, f);
      AllQueued(s);
      MarkerOrder(s, s', |s.list|, f, s'.callers[f]);
    case WakeStep(f) => CallerOrder(s, s', f);
  }

  lemma {:induction false} AllQueued(s: State)
    requires IdsOk(s)
    ensures forall i :: 0 <= i < |s.list| && s.list[i].Work? ==> s.list[i].id <= |s.works| - 1
  {
    forall i | 0 <= i < |s.list| && s.list[i].Work? ensures s.list[i].id <= |s.works| - 1 {
      assert EntryOk(s, s.list[i]);
    }
  }

  lemma {:induction false} RunOrder(run: seq<State>)
    requires IsRun(run)
    ensures OrderOk(run[|run| - 1])
  {
    if |run| > 1 {
      RunOrder(run[..|run| - 1]);
      RunKeeps(run[..|run| - 1]);
      hide Inv, OrderOk;
      NextOrder(run[|run| - 2], run[|run| - 1]);
    }
  }

  // ----- what the callers rely on -----

  /** A flush has returned only if every execution that was queued or running when it was called is over. */
  lemma {:induction false} FlushSafety(run: seq<State>)
    requires IsRun(run)
    ensures var s := run[|run| - 1];
      forall f :: f in s.callers && s.callers[f].Returned? ==> s.callers[f].target <= s.ended
  {
    RunKeeps(run);
    var s := run[|run| - 1];
    forall f | f in s.callers && s.callers[f].Returned? ensures s.callers[f].target <= s.ended {
      assert FlushOk(s, f);
    }
  }

  /** No execution is lost and none is doubled: each is over exactly if it is neither under way nor pending, and works
      queued are executions over, under way and pending. Insertions, markers included, are dequeues plus entries. */
  lemma {:induction false} NothingIsLost(run: seq<State>)
    requires IsRun(run)
    ensures var s := run[|run| - 1];
      && (forall id: nat :: id < |s.works| ==> (id in s.ended <==> !Live(s, id)))
      && |s.works| == |s.ended| + UnderWay(s) + WorksIn(s.list)
      && s.inserted == s.dequeued + |s.list|
  {
    RunKeeps(run);
  }

  /** Each queueing is executed at most once: what starts or ends has not ended before, and what is under way is not on
      the list a second time. */
  lemma {:induction false} AtMostOnce(run: seq<State>)
    requires IsRun(run)
    ensures var s := run[|run| - 1];
      && (forall i :: 0 <= i < |s.list| && s.list[i].Work? ==> s.list[i].id !in s.ended)
      && (s.executing && s.current.Some? && s.current.value.Work? ==>
            s.current.value.id !in s.ended && NotListed(s.list, s.current.value.id))
      && (forall i, j :: 0 <= i < j < |s.list| && s.list[i].Work? && s.list[j].Work? ==> s.list[i].id != s.list[j].id)
  {
    RunKeeps(run);
    var s := run[|run| - 1];
    forall i | 0 <= i < |s.list| && s.list[i].Work? ensures s.list[i].id !in s.ended {
      assert IsRunOf(s.list[i], s.list[i].id);
    }
    forall i, j | 0 <= i < j < |s.list| && s.list[i].Work? && s.list[j].Work? ensures s.list[i].id != s.list[j].id {
      assert !Same(s.list[i], s.list[j]);
    }
    if s.executing && s.current.Some? && s.current.value.Work? { assert Executes(s, s.current.value.id); }
  }

  /** Works are executed in the order in which they were queued: the list ascends, and everything on it was queued after
      whatever has begun, and what is under way after whatever is over. */
  lemma {:induction false} FirstQueuedFirstRun(run: seq<State>)
    requires IsRun(run)
    ensures var s := run[|run| - 1];
      && (forall i, j :: 0 <= i < j < |s.list| && s.list[i].Work? && s.list[j].Work? ==> s.list[i].id < s.list[j].id)
      && (forall i, id: nat :: 0 <= i < |s.list| && s.list[i].Work? && (id in s.ended || Executes(s, id)) ==>
            id < s.list[i].id)
      && (forall id, e: nat :: id in s.ended && Executes(s, e) ==> id < e)
  {
    RunOrder(run);
    var s := run[|run| - 1];
    forall i, id: nat | 0 <= i < |s.list| && s.list[i].Work? && (id in s.ended || Executes(s, id))
      ensures id < s.list[i].id
    {
      assert AllAfter(s.list, id);
    }
  }

  /** `f` waits in a flush of one work. */
  predicate FlushesOne(s: State, f: nat) { f in s.callers && s.callers[f].Waiting? && s.callers[f].w.Some? }

  /** A flush of one work waits for nothing that was queued after it: what is ahead of its marker was queued no later
      than an execution of the work itself. */
  lemma {:induction false} FlushWaitsForNoLater(run: seq<State>)
    requires IsRun(run)
    ensures var s := run[|run| - 1];
      forall f, i, j :: FlushesOne(s, f) && 0 <= i < j < |s.list| && s.list[i].Work? && s.list[j] == Marker(f) ==>
        exists id :: s.list[i].id <= id < |s.works| && s.works[id] == s.callers[f].w.value
  {
    RunOrder(run);
    var s := run[|run| - 1];
    forall f, i, j | FlushesOne(s, f) && 0 <= i < j < |s.list| && s.list[i].Work? && s.list[j] == Marker(f)
      ensures exists id :: s.list[i].id <= id < |s.works| && s.works[id] == s.callers[f].w.value
    {
      assert NothingLater(s, f);
      assert s.works[s.callers[f].upto] == s.callers[f].w.value;
    }
  }
}
