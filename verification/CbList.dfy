/**
The per-CPU callback list of tree RCU as a value: one FIFO of callbacks cut
into four segments.  The segments are the callbacks ready to be invoked, those
waiting for grace period `numWait`, those waiting for `numReady`, and those
without a number yet.  `done`, `wait` and `ready` are the positions that
`nxttail[RCU_DONE_TAIL]`, `nxttail[RCU_WAIT_TAIL]` and
`nxttail[RCU_NEXT_READY_TAIL]` point behind; `enabled` is false exactly when
`nxttail[RCU_NEXT_TAIL]` is NULL.
*/
module CbList {

  datatype Segs<T> = Segs(cbs: seq<T>, done: nat, wait: nat, ready: nat, numWait: nat, numReady: nat, enabled: bool)

  /** What the list says about one callback. */
  datatype Status = Done | Numbered(num: nat) | Unnumbered

  predicate Valid<T>(l: Segs<T>) {
    && l.done <= l.wait <= l.ready <= |l.cbs|
    && (l.wait < l.ready ==> l.numWait <= l.numReady)
    && (!l.enabled ==> l.cbs == [])
  }

  function StatusOf<T>(l: Segs<T>, k: nat): Status {
    if k < l.done then Done
    else if k < l.wait then Numbered(l.numWait)
    else if k < l.ready then Numbered(l.numReady)
    else Unnumbered
  }

  /** Status order along the list: done first, then by number, unnumbered last. */
  predicate NotAfter(a: Status, b: Status) {
    a.Done? || b.Unnumbered? || (a.Numbered? && b.Numbered? && a.num <= b.num)
  }

  function Init<T>(l: Segs<T>): Segs<T> {
    Segs([], 0, 0, 0, l.numWait, l.numReady, true)
  }

  function Disable<T>(l: Segs<T>): Segs<T> {
    Segs([], 0, 0, 0, l.numWait, l.numReady, false)
  }

  /** __call_rcu; a callback registered on a CPU without a list is leaked. */
  function Append<T>(l: Segs<T>, x: T): Segs<T> {
    if l.enabled then l.(cbs := l.cbs + [x]) else l
  }

  /** Nothing to do for a CPU without a list or with every callback done. */
  predicate NothingWaiting<T>(l: Segs<T>) { !l.enabled || l.done == |l.cbs| }

  /** The two loops of rcu_advance_cbs before it calls rcu_accelerate_cbs. */
  function Advance<T>(l: Segs<T>, completed: nat): Segs<T> {
    if NothingWaiting(l) || completed < l.numWait then l
    else if completed < l.numReady then
      if l.wait == |l.cbs| then l.(done := l.wait)
      else l.(done := l.wait, wait := l.ready, numWait := l.numReady)
    else l.(done := l.ready, wait := l.ready)
  }

  /** Does rcu_accelerate_cbs find a sublist to put the remaining callbacks into? */
  predicate Accelerates<T>(l: Segs<T>, c: nat) {
    !NothingWaiting(l) && !(l.wait < l.ready && l.numReady < c)
  }

  /** rcu_accelerate_cbs up to its call of rcu_start_future_gp. */
  function Accelerate<T>(l: Segs<T>, c: nat): Segs<T> {
    if !Accelerates(l, c) then l
    else if l.done < l.wait && l.numWait < c then l.(ready := |l.cbs|, numReady := c)
    else l.(wait := |l.cbs|, ready := |l.cbs|, numWait := c, numReady := c)
  }

  /** rcu_start_future_gp, when it gets as far as the root, lowers every number above the root's. */
  function Lower<T>(l: Segs<T>, c: nat): Segs<T> {
    l.(numWait := if c < l.numWait then c else l.numWait, numReady := if c < l.numReady then c else l.numReady)
  }

  /** rcu_do_batch takes the done callbacks out of the list. */
  function DoneCbs<T>(l: Segs<T>): seq<T>
    requires Valid(l)
  {
    l.cbs[..l.done]
  }

  function WaitingCbs<T>(l: Segs<T>): seq<T>
    requires Valid(l)
  {
    l.cbs[l.done..]
  }

  function Extract<T>(l: Segs<T>): Segs<T>
    requires Valid(l)
  {
    l.(cbs := WaitingCbs(l), done := 0, wait := l.wait - l.done, ready := l.ready - l.done)
  }

  /** rcu_do_batch puts the callbacks it did not get to back in front. */
  function Requeue<T>(l: Segs<T>, rest: seq<T>): Segs<T> {
    l.(cbs := rest + l.cbs, done := |rest| + l.done, wait := |rest| + l.wait, ready := |rest| + l.ready)
  }

  /** rcu_adopt_orphan_cbs: `od` were done on the dead CPU, `ow` have to start over. */
  function Adopt<T>(l: Segs<T>, od: seq<T>, ow: seq<T>): Segs<T>
    requires Valid(l)
  {
    l.(cbs := DoneCbs(l) + od + WaitingCbs(l) + ow,
       done := l.done + |od|, wait := l.wait + |od|, ready := l.ready + |od|)
  }

  // ----- what the operations mean for the callbacks -----

  /** The list is ordered by status: a FIFO with nondecreasing grace-period numbers. */
  lemma {:induction false} StatusSorted<T>(l: Segs<T>, j: nat, k: nat)
    requires Valid(l) && j <= k < |l.cbs|
    ensures NotAfter(StatusOf(l, j), StatusOf(l, k))
  {
  }

  /** rcu_advance_cbs makes done exactly the callbacks numbered at most `completed`
      and leaves every other callback's number alone. */
  lemma {:induction false} AdvanceExact<T>(l: Segs<T>, completed: nat, k: nat)
    requires Valid(l) && k < |l.cbs|
    ensures Valid(Advance(l, completed)) && Advance(l, completed).cbs == l.cbs
    ensures StatusOf(Advance(l, completed), k) ==
            if StatusOf(l, k).Numbered? && StatusOf(l, k).num <= completed then Done else StatusOf(l, k)
  {
  }

  /** rcu_accelerate_cbs only ever gives a callback the number asked for, and only to a
      callback that had none or one at least as late; it never touches a done callback. */
  lemma {:induction false} AccelerateNeverEarly<T>(l: Segs<T>, c: nat, k: nat)
    requires Valid(l) && k < |l.cbs|
    ensures Valid(Accelerate(l, c)) && Accelerate(l, c).cbs == l.cbs
    ensures var a, b := StatusOf(l, k), StatusOf(Accelerate(l, c), k);
            a == b || (b == Numbered(c) && (a.Unnumbered? || (a.Numbered? && a.num >= c)))
    ensures Accelerates(l, c) ==>
      var b := StatusOf(Accelerate(l, c), k); b.Done? || (b.Numbered? && b.num <= c)
    ensures Accelerate(Accelerate(l, c), c) == Accelerate(l, c)
  {
  }

  /** The dead CPU's callbacks keep their order, and so do the adopter's own. */
  lemma {:induction false} AdoptKeepsOrder<T>(l: Segs<T>, dead: Segs<T>)
    requires Valid(l) && Valid(dead) && l.enabled
    ensures var a := Adopt(l, DoneCbs(dead), WaitingCbs(dead));
            && Valid(a)
            && multiset(a.cbs) == multiset(l.cbs) + multiset(dead.cbs)
            && DoneCbs(a) == DoneCbs(l) + DoneCbs(dead)
            && WaitingCbs(a) == WaitingCbs(l) + WaitingCbs(dead)
  {
    SpliceParts(DoneCbs(l), DoneCbs(dead), WaitingCbs(l), WaitingCbs(dead));
    MultisetSplit(l.cbs, l.done);
    MultisetSplit(dead.cbs, dead.done);
  }

  lemma {:induction false} SpliceParts<T>(a: seq<T>, b: seq<T>, c: seq<T>, d: seq<T>)
    ensures (a + b + c + d)[..|a| + |b|] == a + b
    ensures (a + b + c + d)[|a| + |b|..] == c + d
    ensures multiset(a + b + c + d) == multiset(a) + multiset(b) + multiset(c) + multiset(d)
  {
    assert a + b + c + d == (a + b) + (c + d);
  }

  lemma {:induction false} MultisetSplit<T>(s: seq<T>, k: nat)
    requires k <= |s|
    ensures multiset(s) == multiset(s[..k]) + multiset(s[k..])
  {
    assert s == s[..k] + s[k..];
  }
}
