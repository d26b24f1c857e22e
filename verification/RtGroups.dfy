/**
Real-time bandwidth of task groups: the goto-driven tree walk, the admission
test it applies to every group, and what a sequence of admitted changes adds
up to.

Groups are numbered in order of creation, group 0 being the root; a new group
goes to the front of its parent's list of children.
*/
module RtGroups {
  import opened Common

  // ----- the tree -----

  ghost predicate IsTree(parent: seq<nat>) {
    parent != [] && forall n :: 0 < n < |parent| ==> parent[n] < n
  }

  // ----- the traversal -----

  datatype Event = Down(n: nat) | Up(n: nat)

  /** Pre- and post-order visits of the subtree of `n`. */
  ghost function Visits(parent: seq<nat>, n: nat): seq<Event>
    requires IsTree(parent) && n < |parent|
    decreases |parent| - n, |parent| + 1
  {
    [Down(n)] + KidVisits(parent, n, |parent|) + [Up(n)]
  }

  /** The visits of those children of `n` that are among the first `k` groups. */
  ghost function KidVisits(parent: seq<nat>, n: nat, k: nat): seq<Event>
    requires IsTree(parent) && n < |parent| && k <= |parent|
    decreases |parent| - n, k
  {
    if k <= 1 then []
    else if parent[k - 1] == n then Visits(parent, k - 1) + KidVisits(parent, n, k - 1)
    else KidVisits(parent, n, k - 1)
  }

  /** `c` is `from` or below it. */
  predicate InSubtree(parent: seq<nat>, from: nat, c: nat)
    requires c < |parent|
  {
    c == from || (from < c && parent[c] < c && InSubtree(parent, from, parent[c]))
  }

  /** What is left of the traversal of `from` after the visits of `c`'s subtree. */
  ghost function After(parent: seq<nat>, from: nat, c: nat): seq<Event>
    requires IsTree(parent) && c < |parent| && InSubtree(parent, from, c)
    decreases c
  {
    if c == from then [] else KidVisits(parent, parent[c], c) + [Up(parent[c])] + After(parent, from, parent[c])
  }

  /** What a visitor returns for an event. */
  function Result(down: nat -> int, up: nat -> int, e: Event): int {
    match e case Down(n) => down(n) case Up(n) => up(n)
  }

  ghost predicate AllPass(down: nat -> int, up: nat -> int, s: seq<Event>) {
    forall i :: 0 <= i < |s| ==> Result(down, up, s[i]) == 0
  }

  /** All visits passed except the last, which returned `ret`. */
  ghost predicate StoppedAt(down: nat -> int, up: nat -> int, s: seq<Event>, ret: int) {
    s != [] && AllPass(down, up, s[..|s| - 1]) && ret == Result(down, up, s[|s| - 1])
  }

  /** What is left once `n` has been entered, or its child `k` left. */
  ghost function Left(parent: seq<nat>, from: nat, n: nat, k: nat): seq<Event>
    requires IsTree(parent) && n < |parent| && InSubtree(parent, from, n) && k <= |parent|
  {
    KidVisits(parent, n, k) + [Up(n)] + After(parent, from, n)
  }

  lemma {:induction false} LeftIs(parent: seq<nat>, from: nat, n: nat, k: nat, c: int)
    requires IsTree(parent) && n < |parent| && InSubtree(parent, from, n) && k <= |parent|
    requires c == -1 ==> KidVisits(parent, n, k) == []
    requires c != -1 ==>
      0 < c < k && parent[c] == n && KidVisits(parent, n, k) == Visits(parent, c) + KidVisits(parent, n, c)
    ensures c == -1 ==> Left(parent, from, n, k) == [Up(n)] + After(parent, from, n)
    ensures c != -1 ==>
      InSubtree(parent, from, c) && Left(parent, from, n, k) == Visits(parent, c) + After(parent, from, c)
  {
    hide Visits, KidVisits;
    SubtreeIsAbove(parent, from, n);
  }

  lemma {:induction false} SubtreeIsAbove(parent: seq<nat>, from: nat, c: nat)
    requires c < |parent| && InSubtree(parent, from, c)
    ensures from <= c
  {
  }

  lemma {:induction false} Entered(parent: seq<nat>, from: nat, n: nat)
    requires IsTree(parent) && n < |parent| && InSubtree(parent, from, n)
    ensures Visits(parent, n) + After(parent, from, n) == [Down(n)] + Left(parent, from, n, |parent|)
    ensures n != from ==>
      InSubtree(parent, from, parent[n]) && After(parent, from, n) == Left(parent, from, parent[n], n)
  {
    hide KidVisits;
  }

  lemma {:induction false} PassMore(down: nat -> int, up: nat -> int, s: seq<Event>, e: Event)
    requires AllPass(down, up, s)
    ensures Result(down, up, e) == 0 ==> AllPass(down, up, s + [e])
    ensures StoppedAt(down, up, s + [e], Result(down, up, e))
  {
    assert (s + [e])[..|s + [e]| - 1] == s;
  }

  /** The first child: the newest one. */
  method FirstChild(parent: seq<nat>, n: nat, k: nat) returns (c: int)
    requires IsTree(parent) && n < |parent| && k <= |parent|
    ensures c == -1 ==> KidVisits(parent, n, k) == []
    ensures c != -1 ==>
      0 < c < k && parent[c] == n && KidVisits(parent, n, k) == Visits(parent, c) + KidVisits(parent, n, c)
  {
    c := k - 1;
    while c > 0 && parent[c] != n
      invariant -1 <= c < k && (k > 0 ==> c >= 0)
      invariant KidVisits(parent, n, k) == KidVisits(parent, n, c + 1)
    {
      c := c - 1;
    }
    if c == 0 { c := -1; }
  }

  /** walk_tg_tree_from: the visitors are called in pre- and post-order, up to the first that fails. */
  method WalkTgTreeFrom(parent: seq<nat>, from: nat, down: nat -> int, up: nat -> int)
    returns (ret: int, ghost trace: seq<Event>)
    requires IsTree(parent) && from < |parent|
    ensures ret == 0 ==> trace == Visits(parent, from) && AllPass(down, up, trace)
    ensures ret != 0 ==> trace <= Visits(parent, from) && StoppedAt(down, up, trace, ret)
  {
    ghost var all := Visits(parent, from);
    trace := [];
    var n: nat := from;
    var goingDown := true;
    ghost var rest := all;
    hide Visits, KidVisits, After, AllPass, StoppedAt, Left, InSubtree, IsTree;
    AfterRoot(parent, from);
    NothingYet(down, up);
    while true
      invariant n < |parent| && InSubtree(parent, from, n)
      invariant rest == (if goingDown then Visits(parent, n) else [Up(n)]) + After(parent, from, n)
      invariant all == trace + rest && AllPass(down, up, trace)
      decreases |all| - |trace|
    {
      Entered(parent, from, n);
      var k: nat := |parent|;
      if goingDown {
        ret := down(n);
        Visited(down, up, all, trace, Down(n), Left(parent, from, n, |parent|));
        trace, rest := trace + [Down(n)], Left(parent, from, n, |parent|);
        if ret != 0 { return; }
      } else {
        ret := up(n);
        Visited(down, up, all, trace, Up(n), After(parent, from, n));
        trace, rest := trace + [Up(n)], After(parent, from, n);
        if ret != 0 { return; }
        if n == from {
          assert trace + [] == trace;
          return;
        }
        n, k := parent[n], n;
      }
      var next := FirstChild(parent, n, k);
      LeftIs(parent, from, n, k, next);
      goingDown := next != -1;
      if next != -1 { n := next; }
    }
  }

  /** One more visit. */
  lemma {:induction false} Visited(down: nat -> int, up: nat -> int, all: seq<Event>, s: seq<Event>, e: Event,
                                   t: seq<Event>)
    requires all == s + ([e] + t) && AllPass(down, up, s)
    ensures all == (s + [e]) + t && s + [e] <= all
    ensures Result(down, up, e) == 0 ==> AllPass(down, up, s + [e])
    ensures StoppedAt(down, up, s + [e], Result(down, up, e))
  {
    hide AllPass, StoppedAt;
    PassMore(down, up, s, e);
    Shift(all, s, e, t);
  }

  lemma {:induction false} Shift(all: seq<Event>, s: seq<Event>, e: Event, t: seq<Event>)
    requires all == s + ([e] + t)
    ensures all == (s + [e]) + t && s + [e] <= all
  {
  }

  lemma {:induction false} AfterRoot(parent: seq<nat>, from: nat)
    requires IsTree(parent) && from < |parent|
    ensures After(parent, from, from) == []
  {
  }

  lemma {:induction false} NothingYet(down: nat -> int, up: nat -> int)
    ensures AllPass(down, up, [])
  {
  }

  // ----- ratios -----

  const RUNTIME_INF: nat := 0xFFFF_FFFF_FFFF_FFFF
  const WORD: nat := 0x1_0000_0000_0000_0000
  const EINVAL: int := 22
  const EBUSY: int := 16

  /** More groups than any memory holds. */
  const MAX_GROUPS: nat := 0x800_0000_0000

  /** to_ratio, on 64-bit words: the runtime as a fraction of the period, in units of 2^-20. */
  function ToRatio(period: nat, runtime: nat): nat
    requires period > 0
  {
    if runtime == RUNTIME_INF then 0x10_0000 else (runtime * 0x10_0000) % WORD / period
  }

  /** The ratio is the rounded-down fraction exactly while the shifted runtime fits a word: below 2^44 ns, about 4.9
      hours. */
  lemma {:induction false} RatioIsExact(period: nat, runtime: nat)
    requires 0 < period < WORD && runtime < RUNTIME_INF
    ensures ToRatio(period, runtime) == runtime * 0x10_0000 / period <==> runtime < 0x1000_0000_0000
  {
    var a := runtime * 0x10_0000;
    if runtime >= 0x1000_0000_0000 {
      var w := a % WORD;
      assert w + WORD <= a;
      QuotientGap(w, a, period);
    }
  }

  /** Unlimited runtime counts as the whole period. */
  lemma {:induction false} UnlimitedIsWhole(period: nat)
    requires 0 < period < 0x1000_0000_0000
    ensures ToRatio(period, RUNTIME_INF) == ToRatio(period, period) == 0x10_0000
  {
    var a := period * 0x10_0000;
    assert a < WORD;
    assert a / period == 0x10_0000 by { Times(0x10_0000, period); }
  }

  lemma {:induction false} Times(q: nat, p: nat)
    requires p > 0
    ensures p * q / p == q
  {
    var x := p * q / p;
    assert x * p <= p * q < x * p + p;
    if x < q { MulLe(x + 1, q, p); } else if q < x { MulLe(q + 1, x, p); }
  }

  /** Numbers at least one period apart have different quotients. */
  lemma {:induction false} QuotientGap(x: nat, y: nat, p: nat)
    requires 0 < p && x + p <= y
    ensures x / p < y / p
  {
  }

  /** The bandwidth settings of all groups. */
  datatype Bandwidth = Bandwidth(period: seq<nat>, runtime: seq<nat>) {

    predicate Fits(n: nat) {
      |period| == |runtime| == n && forall i :: 0 <= i < n ==> period[i] > 0
    }

    function Ratio(i: nat): nat
      requires Fits(|period|) && i < |period|
    {
      ToRatio(period[i], runtime[i])
    }
  }

  /** The ratios of those children of `n` that are among the first `k` groups, added up. */
  function KidRatios(parent: seq<nat>, b: Bandwidth, n: nat, k: nat): nat
    requires b.Fits(|parent|) && k <= |parent|
  {
    if k <= 1 then 0
    else KidRatios(parent, b, n, k - 1) + if parent[k - 1] == n then b.Ratio(k - 1) else 0
  }

  /** The limits on group `n`: its runtime fits its period, its ratio the global one, and its children's ratios its
      own. */
  ghost predicate GroupFits(parent: seq<nat>, b: Bandwidth, limit: nat, n: nat)
    requires b.Fits(|parent|) && n < |parent|
  {
    && (b.runtime[n] <= b.period[n] || b.runtime[n] == RUNTIME_INF)
    && b.Ratio(n) <= limit
    && KidRatios(parent, b, n, |parent|) <= b.Ratio(n)
  }

  ghost predicate AllFit(parent: seq<nat>, b: Bandwidth, limit: nat)
    requires b.Fits(|parent|)
  {
    forall n :: 0 <= n < |parent| ==> GroupFits(parent, b, limit, n)
  }

  /** tg_rt_schedulable of group `n` under the settings `b`, the sum of the children's ratios in a 64-bit word;
      `starving` are the groups with real-time tasks. */
  function Check(parent: seq<nat>, b: Bandwidth, limit: nat, enabled: bool, starving: set<nat>, n: nat): int
    requires b.Fits(|parent|)
  {
    if n >= |parent| then 0
    else if b.runtime[n] > b.period[n] && b.runtime[n] != RUNTIME_INF then -EINVAL
    else if enabled && b.runtime[n] == 0 && n in starving then -EBUSY
    else if b.Ratio(n) > limit then -EINVAL
    else if KidRatios(parent, b, n, |parent|) % WORD > b.Ratio(n) then -EINVAL
    else 0
  }

  /** No group with real-time tasks is left without runtime. */
  ghost predicate Fed(parent: seq<nat>, b: Bandwidth, starving: set<nat>)
    requires b.Fits(|parent|)
  {
    forall n :: 0 <= n < |parent| && n in starving ==> b.runtime[n] != 0
  }

  ghost predicate Admissible(parent: seq<nat>, b: Bandwidth, limit: nat, enabled: bool, starving: set<nat>)
    requires b.Fits(|parent|)
  {
    AllFit(parent, b, limit) && (enabled ==> Fed(parent, b, starving))
  }

  /** What an error says: that some group with real-time tasks would be left without runtime, or that some group would
      not fit. */
  ghost predicate Refused(err: int, parent: seq<nat>, b: Bandwidth, limit: nat, enabled: bool, starving: set<nat>)
    requires b.Fits(|parent|)
  {
    && (err == -EBUSY || err == -EINVAL)
    && (err == -EBUSY ==> enabled && !Fed(parent, b, starving))
    && (err == -EINVAL ==> !AllFit(parent, b, limit))
  }

  lemma {:induction false} CheckSays(parent: seq<nat>, b: Bandwidth, limit: nat, enabled: bool, starving: set<nat>,
                                     n: nat)
    requires b.Fits(|parent|) && n < |parent| && Check(parent, b, limit, enabled, starving, n) != 0
    ensures Refused(Check(parent, b, limit, enabled, starving, n), parent, b, limit, enabled, starving)
  {
    assert AllFit(parent, b, limit) ==> GroupFits(parent, b, limit, n);
  }

  /** Groups that are within the limit have children whose ratios fit a word, if there are not too many. */
  lemma {:induction false} SumFits(parent: seq<nat>, b: Bandwidth, limit: nat, n: nat, k: nat)
    requires b.Fits(|parent|) && k <= |parent| && forall i :: 0 <= i < |parent| ==> b.Ratio(i) <= limit
    ensures KidRatios(parent, b, n, k) <= k * limit
  {
    if k > 1 {
      SumFits(parent, b, limit, n, k - 1);
      assert k * limit == (k - 1) * limit + limit;
    }
  }

  /** The test of all groups is exact although the sums may wrap: what makes a sum wrap does not pass on its own. */
  lemma {:induction false} ChecksMean(parent: seq<nat>, b: Bandwidth, limit: nat, enabled: bool, starving: set<nat>,
                                      check: nat -> int)
    requires b.Fits(|parent|) && forall n: nat :: check(n) == Check(parent, b, limit, enabled, starving, n)
    requires |parent| * limit < WORD
    ensures (forall n :: 0 <= n < |parent| ==> check(n) == 0) <==> Admissible(parent, b, limit, enabled, starving)
  {
    if forall n :: 0 <= n < |parent| ==> check(n) == 0 {
      forall n | 0 <= n < |parent| ensures b.Ratio(n) <= limit { assert check(n) == 0; }
      forall n | 0 <= n < |parent|
        ensures GroupFits(parent, b, limit, n) && !(enabled && b.runtime[n] == 0 && n in starving)
      {
        assert check(n) == 0;
        SumFits(parent, b, limit, n, |parent|);
      }
    } else if Admissible(parent, b, limit, enabled, starving) {
      forall n | 0 <= n < |parent| ensures b.Ratio(n) <= limit { assert GroupFits(parent, b, limit, n); }
      forall n | 0 <= n < |parent| ensures check(n) == 0 {
        assert GroupFits(parent, b, limit, n);
        SumFits(parent, b, limit, n, |parent|);
      }
    }
  }

  /** A runtime within its period is at most the whole. */
  lemma {:induction false} AtMostWhole(period: nat, runtime: nat)
    requires period > 0 && (runtime <= period || runtime == RUNTIME_INF)
    ensures ToRatio(period, runtime) <= 0x10_0000
  {
    if runtime != RUNTIME_INF {
      var a := runtime * 0x10_0000;
      var w := a % WORD;
      assert w <= a <= 0x10_0000 * period;
      Quotient(w, period, 0x10_0000);
    }
  }

  lemma {:induction false} Quotient(x: nat, p: nat, q: nat)
    requires p > 0 && x <= q * p
    ensures x / p <= q
  {
    var y := x / p;
    assert y * p <= x;
    if y > q { MulLe(q + 1, y, p); }
  }

  lemma {:induction false} NotTooMany(groups: nat, limit: nat)
    requires groups <= MAX_GROUPS && limit <= 0x10_0000
    ensures groups * limit < WORD
  {
    MulLe(groups, MAX_GROUPS, limit);
    MulLe(limit, 0x10_0000, MAX_GROUPS);
  }

  // ----- every group is visited -----

  lemma {:induction false} KidIsVisited(parent: seq<nat>, n: nat, k: nat, c: nat, e: Event)
    requires IsTree(parent) && n < |parent| && k <= |parent| && 0 < c < k && parent[c] == n && e in Visits(parent, c)
    ensures e in KidVisits(parent, n, k)
  {
    if c < k - 1 { KidIsVisited(parent, n, k - 1, c, e); }
  }

  lemma {:induction false} AllAreVisited(parent: seq<nat>, c: nat, e: Event)
    requires IsTree(parent) && c < |parent| && e in Visits(parent, c)
    ensures e in Visits(parent, 0)
  {
    if c > 0 {
      KidIsVisited(parent, parent[c], |parent|, c, e);
      AllAreVisited(parent, parent[c], e);
    }
  }

  lemma {:induction false} OnlyGroupsAreVisited(parent: seq<nat>, n: nat, k: nat)
    requires IsTree(parent) && n < |parent| && k <= |parent|
    ensures forall e :: e in KidVisits(parent, n, k) ==> e.n < |parent|
    decreases |parent| - n, k
  {
    if k > 1 {
      if parent[k - 1] == n { OnlyGroupsAreVisited(parent, k - 1, |parent|); }
      OnlyGroupsAreVisited(parent, n, k - 1);
    }
  }

  /** A walk from the root that never fails on the way up decides whether all groups pass. */
  lemma {:induction false} WalkDecides(parent: seq<nat>, down: nat -> int, up: nat -> int, ret: int, trace: seq<Event>)
    requires IsTree(parent) && forall n: nat :: up(n) == 0
    requires ret == 0 ==> trace == Visits(parent, 0) && AllPass(down, up, trace)
    requires ret != 0 ==> trace <= Visits(parent, 0) && StoppedAt(down, up, trace, ret)
    ensures ret == 0 <==> forall n :: 0 <= n < |parent| ==> down(n) == 0
    ensures ret != 0 ==> exists n :: 0 <= n < |parent| && down(n) == ret
  {
    if ret == 0 {
      forall n | 0 <= n < |parent| ensures down(n) == 0 {
        assert Visits(parent, n)[0] == Down(n);
        AllAreVisited(parent, n, Down(n));
        var i :| 0 <= i < |trace| && trace[i] == Down(n);
        assert Result(down, up, trace[i]) == 0;
      }
    } else {
      var e := trace[|trace| - 1];
      OnlyGroupsAreVisited(parent, 0, |parent|);
      assert Visits(parent, 0)[|trace| - 1] == e;
      assert e.Down? && down(e.n) != 0;
    }
  }

  /** A change of the settings, as user space asks for it. */
  datatype Change =
    | SetGroup(tg: nat, period: nat, runtime: nat, starving: set<nat>)
    | SetLimits(period: nat, runtime: nat, starving: set<nat>)
    | Create(parent: nat, period: nat, oom: bool)

  class Groups {
    const nrCpus: nat
    var parent: seq<nat>
    var bw: Bandwidth
    var globalPeriod: nat
    var globalRuntime: nat

    /** rt_rq[cpu]->rt_runtime of each group. */
    var copies: seq<seq<nat>>

    /** Every group fits, under the current global limit, and every CPU has the group's runtime. */
    ghost predicate Valid()
      reads this
    {
      && IsTree(parent) && |parent| <= MAX_GROUPS && bw.Fits(|parent|)
      && globalPeriod > 0 && (globalRuntime <= globalPeriod || globalRuntime == RUNTIME_INF)
      && AllFit(parent, bw, ToRatio(globalPeriod, globalRuntime))
      && Copied(bw.runtime, copies, nrCpus)
    }

    /** The root group starts with the global settings. */
    constructor (period: nat, runtime: nat, nrCpus: nat)
      requires period > 0 && (runtime <= period || runtime == RUNTIME_INF)
      ensures Valid() && parent == [0] && bw == Bandwidth([period], [runtime])
    {
      this.nrCpus := nrCpus;
      parent := [0];
      bw := Bandwidth([period], [runtime]);
      globalPeriod, globalRuntime := period, runtime;
      copies := [seq(nrCpus, _ => runtime)];
    }

    /** tg_rt_schedulable, with the settings of group `tg`, if there is one, replaced. */
    method TgRtSchedulable(n: nat, tg: int, period: nat, runtime: nat, limit: nat, enabled: bool, starving: set<nat>)
      returns (r: int)
      requires bw.Fits(|parent|) && n < |parent| && period > 0
      ensures r == Check(parent, Changed(tg, period, runtime), limit, enabled, starving, n)
    {
      var p, t := bw.period[n], bw.runtime[n];
      if n == tg { p, t := period, runtime; }
      if t > p && t != RUNTIME_INF { return -EINVAL; }
      if enabled && t == 0 && n in starving { return -EBUSY; }
      var total := ToRatio(p, t);
      if total > limit { return -EINVAL; }
      var sum := SumKids(n, tg, period, runtime);
      if sum > total { return -EINVAL; }
      r := 0;
    }

    /** The loop over the children of `n`, newest first. */
    method SumKids(n: nat, tg: int, period: nat, runtime: nat) returns (sum: nat)
      requires bw.Fits(|parent|) && n < |parent| && period > 0
      ensures sum == KidRatios(parent, Changed(tg, period, runtime), n, |parent|) % WORD
    {
      hide ToRatio;
      sum := 0;
      ghost var b := Changed(tg, period, runtime);
      ghost var exact := 0;
      var k: nat := |parent|;
      while k > 1
        invariant k <= |parent| && exact == KidRatios(parent, b, n, |parent|) - KidRatios(parent, b, n, k)
        invariant exact >= 0 && sum == exact % WORD
      {
        k := k - 1;
        if parent[k] == n {
          var cp, ct := bw.period[k], bw.runtime[k];
          if k == tg { cp, ct := period, runtime; }
          var ratio := ToRatio(cp, ct);
          WrappedSum(exact, ratio);
          sum, exact := (sum + ratio) % WORD, exact + ratio;
        }
      }
    }

    /** __rt_schedulable: every group passes the test under the changed settings, or the first failure is reported. */
    method RtSchedulable(tg: int, period: nat, runtime: nat, limit: nat, enabled: bool, starving: set<nat>)
      returns (ret: int)
      requires IsTree(parent) && bw.Fits(|parent|) && period > 0 && |parent| <= MAX_GROUPS && limit <= 0x10_0000
      ensures ret == 0 <==> Admissible(parent, Changed(tg, period, runtime), limit, enabled, starving)
      ensures ret != 0 ==> Refused(ret, parent, Changed(tg, period, runtime), limit, enabled, starving)
    {
      var b, p := Changed(tg, period, runtime), parent;
      var down := (n: nat) => if b.Fits(|p|) then Check(p, b, limit, enabled, starving, n) else 0;
      var up := (n: nat) => 0;
      ghost var trace;
      ret, trace := WalkTgTreeFrom(parent, 0, down, up);
      WalkDecides(parent, down, up, ret, trace);
      assert forall n: nat :: down(n) == Check(parent, b, limit, enabled, starving, n);
      NotTooMany(|parent|, limit);
      ChecksMean(parent, b, limit, enabled, starving, down);
      if ret != 0 {
        ghost var n :| 0 <= n < |parent| && down(n) == ret;
        CheckSays(parent, b, limit, enabled, starving, n);
      }
    }

    function Changed(tg: int, period: nat, runtime: nat): Bandwidth
      reads this
    {
      if 0 <= tg < |bw.period| && tg < |bw.runtime| then Bandwidth(bw.period[tg := period], bw.runtime[tg := runtime])
      else bw
    }

    /** tg_set_rt_bandwidth. */
    method SetRtBandwidth(tg: nat, period: nat, runtime: nat, starving: set<nat>) returns (err: int)
      requires Valid() && tg < |parent| && period > 0
      modifies `bw, `copies
      ensures Valid()
      ensures err == 0 ==> bw == old(Changed(tg, period, runtime))
      ensures err != 0 ==> bw == old(bw)
      ensures err == 0 <==>
        Admissible(parent, old(Changed(tg, period, runtime)), ToRatio(globalPeriod, globalRuntime),
                   globalRuntime != RUNTIME_INF, starving)
      ensures err != 0 ==>
        Refused(err, parent, old(Changed(tg, period, runtime)), ToRatio(globalPeriod, globalRuntime),
                globalRuntime != RUNTIME_INF, starving)
    {
      AtMostWhole(globalPeriod, globalRuntime);
      err := RtSchedulable(tg, period, runtime, ToRatio(globalPeriod, globalRuntime),
                           globalRuntime != RUNTIME_INF, starving);
      if err == 0 {
        bw := Bandwidth(bw.period[tg := period], bw.runtime[tg := runtime]);
        CopyRuntime(tg, runtime);
      }
    }

    /** Every CPU gets its copy. */
    method CopyRuntime(tg: nat, runtime: nat)
      requires tg < |copies| && |copies[tg]| == nrCpus
      modifies `copies
      ensures copies == old(copies)[tg := seq(nrCpus, _ => runtime)]
    {
      var i := 0;
      while i < nrCpus
        invariant 0 <= i <= nrCpus && tg < |copies| && |copies[tg]| == nrCpus
        invariant copies == old(copies)[tg := copies[tg]]
        invariant forall j :: 0 <= j < i ==> copies[tg][j] == runtime
      {
        var row: seq<nat> := copies[tg];
        row := row[i := runtime];
        copies := copies[tg := row];
        i := i + 1;
      }
      assert copies[tg] == seq(nrCpus, _ => runtime);
    }

    /** sched_rt_global_constraints, for new global settings, which are taken back if they do not pass. */
    method SetGlobal(period: nat, runtime: nat, starving: set<nat>) returns (err: int)
      requires Valid()
      modifies `globalPeriod, `globalRuntime
      ensures Valid()
      ensures err == 0 ==> globalPeriod == period && globalRuntime == runtime
      ensures err != 0 ==> globalPeriod == old(globalPeriod) && globalRuntime == old(globalRuntime)
      ensures err == 0 <==>
        period > 0 && (runtime <= period || runtime == RUNTIME_INF)
        && Admissible(parent, bw, ToRatio(period, runtime), runtime != RUNTIME_INF, starving)
      ensures err != 0 ==>
        || (err == -EINVAL && (period == 0 || (runtime > period && runtime != RUNTIME_INF)))
        || (period > 0 && Refused(err, parent, bw, ToRatio(period, runtime), runtime != RUNTIME_INF, starving))
    {
      if period == 0 || (runtime > period && runtime != RUNTIME_INF) { return -EINVAL; }
      AtMostWhole(period, runtime);
      err := RtSchedulable(-1, 1, 0, ToRatio(period, runtime), runtime != RUNTIME_INF, starving);
      if err == 0 {
        globalPeriod, globalRuntime := period, runtime;
      }
    }

    /** A new group: no runtime yet. */
    method NewGroup(p: nat, period: nat, oom: bool) returns (tg: Option<nat>)
      requires Valid() && p < |parent| && period > 0
      modifies `parent, `bw, `copies
      ensures Valid()
      ensures tg.Some? <==> !oom && |old(parent)| < MAX_GROUPS
      ensures tg.Some? ==>
        && tg.value == |old(parent)| && parent == old(parent) + [p]
        && bw == Bandwidth(old(bw).period + [period], old(bw).runtime + [0])
      ensures tg.None? ==> parent == old(parent) && bw == old(bw) && copies == old(copies)
    {
      if oom || |parent| >= MAX_GROUPS { return None; }
      tg := Some(|parent|);
      var b := Bandwidth(bw.period + [period], bw.runtime + [0]);
      ZeroKeepsFit(parent, bw, ToRatio(globalPeriod, globalRuntime), p, period);
      parent, bw, copies := parent + [p], b, copies + [seq(nrCpus, _ => 0)];
    }

    /** Whatever has been asked for, in whatever order, and admitted or not: the ratios of mutually unrelated groups
        add up to no more than the root's, and that is within the global limit. */
    method RunChanges(changes: seq<Change>)
      requires Valid()
      modifies this
      ensures Valid()
      ensures forall s: set<nat> :: Unrelated(parent, s) ==>
        TotalRatio(bw, s, |parent|) <= bw.Ratio(0) <= ToRatio(globalPeriod, globalRuntime)
    {
      for i := 0 to |changes|
        invariant Valid()
      {
        match changes[i]
        case SetGroup(tg, period, runtime, starving) =>
          if tg < |parent| && period > 0 { var err := SetRtBandwidth(tg, period, runtime, starving); }
        case SetLimits(period, runtime, starving) =>
          var err := SetGlobal(period, runtime, starving);
        case Create(p, period, oom) =>
          if p < |parent| && period > 0 { var tg := NewGroup(p, period, oom); }
      }
      forall s: set<nat> | Unrelated(parent, s)
        ensures TotalRatio(bw, s, |parent|) <= bw.Ratio(0) <= ToRatio(globalPeriod, globalRuntime)
      {
        UnrelatedGroupsFit(parent, bw, ToRatio(globalPeriod, globalRuntime), s);
      }
    }
  }

  /** Every CPU's copy is the group's runtime. */
  ghost predicate Copied(runtime: seq<nat>, copies: seq<seq<nat>>, nrCpus: nat) {
    && |copies| == |runtime|
    && (forall g :: 0 <= g < |copies| ==> |copies[g]| == nrCpus)
    && (forall g, i :: 0 <= g < |copies| && 0 <= i < |copies[g]| ==> copies[g][i] == runtime[g])
  }

  lemma {:induction false} WrappedSum(a: nat, b: nat)
    ensures (a % WORD + b) % WORD == (a + b) % WORD
  {
  }

  lemma {:induction false} KidRatiosGrow(parent: seq<nat>, b: Bandwidth, p: nat, period: nat, n: nat, k: nat)
    requires b.Fits(|parent|) && k <= |parent| && period > 0
    ensures KidRatios(parent + [p], Bandwidth(b.period + [period], b.runtime + [0]), n, k) == KidRatios(parent, b, n, k)
  {
    if k > 1 { KidRatiosGrow(parent, b, p, period, n, k - 1); }
  }

  lemma {:induction false} ZeroKeepsFit(parent: seq<nat>, b: Bandwidth, limit: nat, p: nat, period: nat)
    requires IsTree(parent) && b.Fits(|parent|) && AllFit(parent, b, limit) && p < |parent| && period > 0
    ensures AllFit(parent + [p], Bandwidth(b.period + [period], b.runtime + [0]), limit)
  {
    var q, c := parent + [p], Bandwidth(b.period + [period], b.runtime + [0]);
    var z := |parent|;
    assert c.Ratio(z) == 0;
    forall n | 0 <= n < |q| ensures GroupFits(q, c, limit, n) {
      KidRatiosGrow(parent, b, p, period, n, z);
      if n < z {
        assert GroupFits(parent, b, limit, n);
      } else {
        NoKids(q, c, z, z);
      }
    }
  }

  lemma {:induction false} NoKids(parent: seq<nat>, b: Bandwidth, n: nat, k: nat)
    requires IsTree(parent) && b.Fits(|parent|) && k <= n && k <= |parent|
    ensures KidRatios(parent, b, n, k) == 0
  {
    if k > 1 { NoKids(parent, b, n, k - 1); }
  }

  // ----- unrelated groups -----

  /** `a` is above `c`. */
  predicate Ancestor(parent: seq<nat>, a: nat, c: nat)
    requires c < |parent|
  {
    0 < c && parent[c] < c && (parent[c] == a || Ancestor(parent, a, parent[c]))
  }

  /** Groups none of which is above another. */
  ghost predicate Unrelated(parent: seq<nat>, s: set<nat>) {
    && (forall a :: a in s ==> a < |parent|)
    && (forall a, c :: a in s && c in s ==> !Ancestor(parent, a, c))
  }

  function Weight(b: Bandwidth, s: set<nat>, n: nat): nat
    requires b.Fits(|b.period|) && n < |b.period|
  {
    if n in s then b.Ratio(n) else 0
  }

  /** The ratios of the groups of `s` among the first `k`, added up. */
  function TotalRatio(b: Bandwidth, s: set<nat>, k: nat): nat
    requires b.Fits(|b.period|) && k <= |b.period|
  {
    if k == 0 then 0 else TotalRatio(b, s, k - 1) + Weight(b, s, k - 1)
  }

  /** The same, over the subtree of `n`. */
  ghost function Subtotal(parent: seq<nat>, b: Bandwidth, s: set<nat>, n: nat): nat
    requires IsTree(parent) && b.Fits(|parent|) && n < |parent|
    decreases |parent| - n, |parent| + 1
  {
    Weight(b, s, n) + KidSubtotals(parent, b, s, n, |parent|)
  }

  ghost function KidSubtotals(parent: seq<nat>, b: Bandwidth, s: set<nat>, n: nat, k: nat): nat
    requires IsTree(parent) && b.Fits(|parent|) && n < |parent| && k <= |parent|
    decreases |parent| - n, k
  {
    if k <= 1 then 0
    else KidSubtotals(parent, b, s, n, k - 1) + if parent[k - 1] == n then Subtotal(parent, b, s, k - 1) else 0
  }

  lemma {:induction false} AncestorStep(parent: seq<nat>, p: nat, c: nat, x: nat)
    requires c < |parent| && 0 < c && parent[c] == p < c && x < |parent| && Ancestor(parent, c, x)
    ensures Ancestor(parent, p, x)
  {
    if parent[x] != c { AncestorStep(parent, p, c, parent[x]); }
  }

  /** A subtree with no group of `s` in it adds nothing. */
  lemma {:induction false} NothingBelow(parent: seq<nat>, b: Bandwidth, s: set<nat>, n: nat, k: nat)
    requires IsTree(parent) && b.Fits(|parent|) && n < |parent| && k <= |parent|
    requires forall x :: x in s ==> x < |parent| && !Ancestor(parent, n, x)
    ensures KidSubtotals(parent, b, s, n, k) == 0
    decreases |parent| - n, k
  {
    if k > 1 {
      NothingBelow(parent, b, s, n, k - 1);
      if parent[k - 1] == n {
        forall x | x in s ensures !Ancestor(parent, k - 1, x) {
          if Ancestor(parent, k - 1, x) { AncestorStep(parent, n, k - 1, x); }
        }
        NothingBelow(parent, b, s, k - 1, |parent|);
      }
    }
  }

  /** Unrelated groups below `n` do not add up to more than `n`. */
  lemma {:induction false} SubtotalFits(parent: seq<nat>, b: Bandwidth, limit: nat, s: set<nat>, n: nat)
    requires IsTree(parent) && b.Fits(|parent|) && AllFit(parent, b, limit) && Unrelated(parent, s) && n < |parent|
    ensures Subtotal(parent, b, s, n) <= b.Ratio(n)
    decreases |parent| - n, |parent| + 1
  {
    if n in s {
      NothingBelow(parent, b, s, n, |parent|);
    } else {
      KidSubtotalsFit(parent, b, limit, s, n, |parent|);
      assert GroupFits(parent, b, limit, n);
    }
  }

  lemma {:induction false} KidSubtotalsFit(parent: seq<nat>, b: Bandwidth, limit: nat, s: set<nat>, n: nat, k: nat)
    requires IsTree(parent) && b.Fits(|parent|) && AllFit(parent, b, limit) && Unrelated(parent, s)
    requires n < |parent| && k <= |parent|
    ensures KidSubtotals(parent, b, s, n, k) <= KidRatios(parent, b, n, k)
    decreases |parent| - n, k
  {
    if k > 1 {
      KidSubtotalsFit(parent, b, limit, s, n, k - 1);
      if parent[k - 1] == n { SubtotalFits(parent, b, limit, s, k - 1); }
    }
  }

  /** The subtotals of the groups from `k` to `j` whose parent is before `k`. */
  ghost function Frontier(parent: seq<nat>, b: Bandwidth, s: set<nat>, k: nat, j: nat): nat
    requires IsTree(parent) && b.Fits(|parent|) && j <= |parent|
  {
    if j <= k then 0
    else Frontier(parent, b, s, k, j - 1) + if parent[j - 1] < k then Subtotal(parent, b, s, j - 1) else 0
  }

  lemma {:induction false} FrontierMoves(parent: seq<nat>, b: Bandwidth, s: set<nat>, k: nat, j: nat)
    requires IsTree(parent) && b.Fits(|parent|) && 0 < k < j <= |parent|
    ensures Frontier(parent, b, s, k, j) + KidSubtotals(parent, b, s, k, j)
      == Frontier(parent, b, s, k + 1, j) + Subtotal(parent, b, s, k)
  {
    if j == k + 1 {
      NoKidsYet(parent, b, s, k, j);
    } else {
      FrontierMoves(parent, b, s, k, j - 1);
    }
  }

  lemma {:induction false} NoKidsYet(parent: seq<nat>, b: Bandwidth, s: set<nat>, n: nat, k: nat)
    requires IsTree(parent) && b.Fits(|parent|) && n < |parent| && k <= n + 1
    ensures KidSubtotals(parent, b, s, n, k) == 0
  {
    if k > 1 { NoKidsYet(parent, b, s, n, k - 1); }
  }

  /** Cutting the tree anywhere in the order of creation leaves the same total. */
  lemma {:induction false} CutAnywhere(parent: seq<nat>, b: Bandwidth, s: set<nat>, k: nat)
    requires IsTree(parent) && b.Fits(|parent|) && 0 < k <= |parent|
    ensures TotalRatio(b, s, k) + Frontier(parent, b, s, k, |parent|) == TotalRatio(b, s, |parent|)
    decreases |parent| - k
  {
    if k < |parent| {
      FrontierMoves(parent, b, s, k, |parent|);
      CutAnywhere(parent, b, s, k + 1);
    }
  }

  lemma {:induction false} FrontierOfRoot(parent: seq<nat>, b: Bandwidth, s: set<nat>, j: nat)
    requires IsTree(parent) && b.Fits(|parent|) && j <= |parent|
    ensures Frontier(parent, b, s, 1, j) == KidSubtotals(parent, b, s, 0, j)
  {
    if j > 1 { FrontierOfRoot(parent, b, s, j - 1); }
  }

  /** Whatever has been admitted: the ratios of mutually unrelated groups add up to no more than
      the root's ratio, and that is within the global limit. */
  lemma {:induction false} UnrelatedGroupsFit(parent: seq<nat>, b: Bandwidth, limit: nat, s: set<nat>)
    requires IsTree(parent) && b.Fits(|parent|) && AllFit(parent, b, limit) && Unrelated(parent, s)
    ensures TotalRatio(b, s, |parent|) <= b.Ratio(0) <= limit
  {
    CutAnywhere(parent, b, s, 1);
    FrontierOfRoot(parent, b, s, |parent|);
    SubtotalFits(parent, b, limit, s, 0);
    assert TotalRatio(b, s, 1) == Weight(b, s, 0);
    assert GroupFits(parent, b, limit, 0);
  }
}
