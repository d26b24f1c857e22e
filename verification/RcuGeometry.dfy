/**
The shape of the rcu_node tree: how many levels and nodes it gets
(rcu_init_geometry), how the children are spread (the balanced
rcu_init_levelspread), and the node array itself (rcu_init_one).
*/
module RcuGeometry {
  import opened Common
  import RcuTree

  const MAX_LVLS: nat := 4
  const BITS_PER_LONG: nat := 64

  /** DIV_ROUND_UP. */
  function CeilDiv(a: nat, b: nat): nat
    requires b > 0
  {
    (a + b - 1) / b
  }

  /** rcu_capacity[k]: how many CPUs a tree of k levels can handle. */
  function Capacity(fanout: nat, leaf: nat, k: nat): nat {
    if k == 0 then 1 else if k == 1 then leaf else Capacity(fanout, leaf, k - 1) * fanout
  }

  function Sum(s: seq<nat>): nat { if s == [] then 0 else s[0] + Sum(s[1..]) }

  function Product(s: seq<nat>): nat { if s == [] then 1 else s[0] * Product(s[1..]) }

  // ----- arithmetic -----

  lemma {:induction false} CeilDivIs(a: nat, b: nat, q: nat)
    requires b > 0
    ensures CeilDiv(a, b) <= q <==> a <= q * b
  {
    var c := CeilDiv(a, b);
    DivMod(a + b - 1, b);
    assert (c - 1) * b == c * b - b;
    assert (c - 1) * b < a <= c * b;
    if c <= q { MulLe(c, q, b); }
    if q < c { MulLe(q, c - 1, b); }
  }

  lemma {:induction false} DivMod(a: nat, b: nat)
    requires b > 0
    ensures a == a / b * b + a % b && 0 <= a % b < b
  {
  }

  /** `m` groups of at most `f` hold `k` children, and `m - 1` groups would not. */
  predicate Fits(m: nat, f: nat, k: nat) { 0 < m && (m - 1) * f < k <= m * f }

  /** Rounding up in two steps is rounding up once. */
  lemma {:induction false} CeilTwice(n: nat, c: nat, f: nat)
    requires n > 0 && c > 0 && f > 0
    ensures c * f > 0 && Fits(CeilDiv(n, c * f), f, CeilDiv(n, c))
  {
    assert c * f > 0;
    var m := CeilDiv(n, c * f);
    CeilDivIs(n, c * f, 0);
    assert (m - 1) * (c * f) == ((m - 1) * f) * c && m * (c * f) == (m * f) * c;
    CeilDivIs(n, c * f, m - 1);
    CeilDivIs(n, c * f, m);
    CeilDivIs(n, c, (m - 1) * f);
    CeilDivIs(n, c, m * f);
  }

  /** Balancing keeps the fanout and leaves no group empty. */
  lemma {:induction false} BalancedFits(m: nat, f: nat, k: nat)
    requires Fits(m, f, k)
    ensures CeilDiv(k, m) <= f && Fits(m, CeilDiv(k, m), k)
  {
    var s := CeilDiv(k, m);
    assert k <= f * m;
    CeilDivIs(k, m, f);
    CeilDivIs(k, m, s);
    MulLe(s, f, m - 1);
    assert (m - 1) * s <= (m - 1) * f;
  }

  // ----- rcu_init_geometry -----

  /** The numbers rcu_init_geometry accepts. */
  predicate Accepts(n: nat, fanout: nat, leaf: nat, configLeaf: nat) {
    configLeaf <= leaf <= BITS_PER_LONG && n <= Capacity(fanout, leaf, MAX_LVLS)
  }

  lemma {:induction false} CapacityPositive(fanout: nat, leaf: nat, k: nat)
    requires fanout > 0 && leaf > 0
    ensures Capacity(fanout, leaf, k) > 0
  {
    if k > 1 { CapacityPositive(fanout, leaf, k - 1); }
  }

  /** The level counts: enough nodes at every level for all CPUs, with as few levels as possible. */
  ghost predicate Counts(n: nat, fanout: nat, leaf: nat, cnt: seq<nat>) {
    && 0 < n && 0 < fanout && 0 < leaf
    && 1 <= |cnt| <= MAX_LVLS
    && n <= Capacity(fanout, leaf, |cnt|)
    && (|cnt| > 1 ==> Capacity(fanout, leaf, |cnt| - 1) < n)
    && forall j :: 0 <= j < |cnt| ==>
         Capacity(fanout, leaf, |cnt| - j) > 0 && cnt[j] == CeilDiv(n, Capacity(fanout, leaf, |cnt| - j))
  }

  method Capacities(fanout: nat, leaf: nat) returns (capacity: array<nat>)
    ensures fresh(capacity) && capacity.Length == MAX_LVLS + 1
    ensures forall k :: 0 <= k <= MAX_LVLS ==> capacity[k] == Capacity(fanout, leaf, k)
  {
    capacity := new nat[MAX_LVLS + 1];
    capacity[0], capacity[1] := 1, leaf;
    for i := 2 to MAX_LVLS + 1
      invariant forall k :: 0 <= k < i ==> capacity[k] == Capacity(fanout, leaf, k)
    {
      capacity[i] := capacity[i - 1] * fanout;
    }
  }

  method Total(lvl: seq<nat>) returns (total: nat)
    ensures total == Sum(lvl)
  {
    total := 0;
    for j := 0 to |lvl|
      invariant total == Sum(lvl[..j])
    {
      SumAppend(lvl[..j], lvl[j]);
      assert lvl[..j + 1] == lvl[..j] + [lvl[j]];
      total := total + lvl[j];
    }
    assert lvl[..|lvl|] == lvl;
  }

  /** rcu_init_geometry. */
  method InitGeometry(n: nat, fanout: nat, leaf: nat, configLeaf: nat) returns (ok: bool, cnt: seq<nat>, numNodes: nat)
    requires 0 < n && 0 < fanout && 0 < configLeaf
    ensures ok <==> Accepts(n, fanout, leaf, configLeaf)
    ensures ok ==> Counts(n, fanout, leaf, cnt) && numNodes == Sum(cnt)
  {
    cnt, numNodes := [], 0;
    var capacity := Capacities(fanout, leaf);
    if leaf < configLeaf || leaf > BITS_PER_LONG || n > capacity[MAX_LVLS] {
      return false, [], 0;
    }
    forall k ensures Capacity(fanout, leaf, k) > 0 { CapacityPositive(fanout, leaf, k); }
    var i := 1;
    while n > capacity[i]
      invariant 1 <= i <= MAX_LVLS
      invariant i > 1 ==> Capacity(fanout, leaf, i - 1) < n
      decreases MAX_LVLS - i
    {
      i := i + 1;
    }
    var lvl: seq<nat> := [];
    for j := 0 to i + 1
      invariant |lvl| == j
      invariant forall k :: 0 <= k < j ==> lvl[k] == CeilDiv(n, Capacity(fanout, leaf, i - k))
    {
      lvl := lvl + [CeilDiv(n, capacity[i - j])];
    }
    // The last entry counts the CPUs themselves.
    var total := Total(lvl);
    assert lvl == lvl[..i] + [lvl[i]];
    SumAppend(lvl[..i], lvl[i]);
    assert lvl[i] == CeilDiv(n, 1) == n;
    ok, cnt, numNodes := true, lvl[..i], total - n;
  }

  lemma {:induction false} SumAppend(s: seq<nat>, x: nat)
    ensures Sum(s + [x]) == Sum(s) + x
  {
    if s == [] {
      assert s + [x] == [x];
    } else {
      assert (s + [x])[1..] == s[1..] + [x];
      SumAppend(s[1..], x);
    }
  }

  // ----- rcu_init_levelspread -----

  /** How many children level `i` has to hold: the nodes of the next level, or the CPUs. */
  function Below(cnt: seq<nat>, n: nat, i: nat): nat
    requires i < |cnt|
  {
    if i + 1 < |cnt| then cnt[i + 1] else n
  }

  /** rcu_init_levelspread, the balancing variant. */
  method InitLevelspread(cnt: seq<nat>, n: nat) returns (spread: seq<nat>)
    requires forall i :: 0 <= i < |cnt| ==> cnt[i] > 0
    ensures |spread| == |cnt|
    ensures forall i :: 0 <= i < |cnt| ==> spread[i] == CeilDiv(Below(cnt, n, i), cnt[i])
  {
    spread := [];
    var cprv := n;
    for i := |cnt| downto 0
      invariant |spread| == |cnt| - i
      invariant cprv == if i < |cnt| then cnt[i] else n
      invariant forall k :: i <= k < |cnt| ==> spread[k - i] == CeilDiv(Below(cnt, n, k), cnt[k])
    {
      var ccur := cnt[i];
      spread := [CeilDiv(cprv, ccur)] + spread;
      cprv := ccur;
    }
  }

  /** What balancing gives the rest of the tree to rely on. */
  ghost predicate Balanced(n: nat, cnt: seq<nat>, spread: seq<nat>) {
    && 0 < |cnt| == |spread|
    && cnt[0] == 1
    && forall i :: 0 <= i < |cnt| ==> 0 < spread[i] && Fits(cnt[i], spread[i], Below(cnt, n, i))
  }

  /** One root; no level exceeds its fanout; no node goes without children. */
  lemma {:induction false} SpreadIsBalanced(n: nat, fanout: nat, leaf: nat, cnt: seq<nat>, spread: seq<nat>)
    requires Counts(n, fanout, leaf, cnt) && |spread| == |cnt|
    requires forall i :: 0 <= i < |cnt| ==> cnt[i] > 0 ==> spread[i] == CeilDiv(Below(cnt, n, i), cnt[i])
    ensures Balanced(n, cnt, spread)
    ensures forall i :: 0 <= i < |cnt| ==> spread[i] <= if i == |cnt| - 1 then leaf else fanout
  {
    var l := |cnt|;
    CeilDivIs(n, Capacity(fanout, leaf, l), 1);
    CeilDivIs(n, Capacity(fanout, leaf, l), 0);
    forall i | 0 <= i < l
      ensures 0 < spread[i] <= (if i == l - 1 then leaf else fanout) && Fits(cnt[i], spread[i], Below(cnt, n, i))
    {
      SpreadFits(n, fanout, leaf, cnt, i);
    }
  }

  lemma {:induction false} SpreadFits(n: nat, fanout: nat, leaf: nat, cnt: seq<nat>, i: nat)
    requires Counts(n, fanout, leaf, cnt) && i < |cnt| && cnt[i] > 0
    ensures var spread := CeilDiv(Below(cnt, n, i), cnt[i]);
      0 < spread <= (if i == |cnt| - 1 then leaf else fanout) && Fits(cnt[i], spread, Below(cnt, n, i))
  {
    if i == |cnt| - 1 {
      CeilTwice(n, 1, leaf);
      BalancedFits(cnt[i], leaf, n);
    } else {
      CeilTwice(n, Capacity(fanout, leaf, |cnt| - i - 1), fanout);
      BalancedFits(cnt[i], fanout, cnt[i + 1]);
    }
  }

  // ----- rcu_init_one -----

  /** `parent` is the index in the node array; the root's is -1. */
  datatype Info = Info(level: nat, grplo: nat, grphi: int, grpnum: nat, parent: int)

  /** rsp->level[i]. */
  function Base(cnt: seq<nat>, i: nat): nat
    requires i <= |cnt|
  {
    Sum(cnt[..i])
  }

  /** How many CPUs a node of level `i` covers. */
  function Stride(spread: seq<nat>, i: nat): nat
    requires i <= |spread|
  {
    Product(spread[i..])
  }

  function Clip(x: int, nrCpus: nat): int { if x >= nrCpus then nrCpus - 1 else x }

  /** The `j`-th node of level `i`. */
  function InfoOf(cnt: seq<nat>, spread: seq<nat>, nrCpus: nat, i: nat, j: nat): Info
    requires i < |cnt| == |spread|
    requires i > 0 ==> spread[i - 1] > 0
  {
    var st := Stride(spread, i);
    Info(i, j * st, Clip((j + 1) * st - 1, nrCpus),
         if i == 0 then 0 else j % spread[i - 1],
         if i == 0 then -1 else Base(cnt, i - 1) + j / spread[i - 1])
  }

  /** The leaf of a CPU. */
  function LeafOf(cnt: seq<nat>, spread: seq<nat>, c: nat): nat
    requires 0 < |cnt| == |spread| && spread[|spread| - 1] > 0
  {
    Base(cnt, |cnt| - 1) + c / spread[|spread| - 1]
  }

  lemma {:induction false} BaseNext(cnt: seq<nat>, i: nat)
    requires i < |cnt|
    ensures Base(cnt, i + 1) == Base(cnt, i) + cnt[i]
  {
    assert cnt[..i + 1] == cnt[..i] + [cnt[i]];
    SumAppend(cnt[..i], cnt[i]);
  }

  lemma {:induction false} BaseMono(cnt: seq<nat>, i: nat, k: nat)
    requires i <= k <= |cnt|
    ensures Base(cnt, i) <= Base(cnt, k)
    decreases k - i
  {
    if i < k {
      BaseNext(cnt, i);
      BaseMono(cnt, i + 1, k);
    }
  }

  lemma {:induction false} StrideNext(spread: seq<nat>, i: nat)
    requires i < |spread|
    ensures Stride(spread, i) == spread[i] * Stride(spread, i + 1)
  {
    assert spread[i..][1..] == spread[i + 1..];
  }

  /** Every index of the node array is the `j`-th node of one level. */
  lemma {:induction false} Locate(cnt: seq<nat>, x: nat, k: nat) returns (i: nat, j: nat)
    requires k <= |cnt| && x < Base(cnt, k)
    ensures i < k && j < cnt[i] && x == Base(cnt, i) + j
  {
    BaseNext(cnt, k - 1);
    if Base(cnt, k - 1) <= x {
      i, j := k - 1, x - Base(cnt, k - 1);
    } else {
      i, j := Locate(cnt, x, k - 1);
    }
  }

  ghost predicate NodeBuilt(nodes: seq<Info>, cnt: seq<nat>, spread: seq<nat>, nrCpus: nat, i: nat, j: nat)
    requires i < |cnt| == |spread|
    requires i > 0 ==> spread[i - 1] > 0
  {
    Base(cnt, i) + j < |nodes| && nodes[Base(cnt, i) + j] == InfoOf(cnt, spread, nrCpus, i, j)
  }

  ghost predicate LevelBuilt(nodes: seq<Info>, cnt: seq<nat>, spread: seq<nat>, nrCpus: nat, i: nat)
    requires i < |cnt| == |spread|
    requires forall k :: 0 <= k < |cnt| ==> spread[k] > 0
  {
    forall j :: 0 <= j < cnt[i] ==> NodeBuilt(nodes, cnt, spread, nrCpus, i, j)
  }

  /** The node array that rcu_init_one leaves behind. */
  ghost predicate Built(nodes: seq<Info>, cnt: seq<nat>, spread: seq<nat>, nrCpus: nat) {
    && |cnt| == |spread| && |nodes| == Base(cnt, |cnt|)
    && (forall k :: 0 <= k < |cnt| ==> spread[k] > 0)
    && (forall i :: 0 <= i < |cnt| ==> LevelBuilt(nodes, cnt, spread, nrCpus, i))
  }

  /** The fields of the `j`-th node of level `i`. */
  method InitNode(cnt: seq<nat>, spread: seq<nat>, nrCpus: nat, i: nat, j: nat, cpustride: nat) returns (rnp: Info)
    requires i < |cnt| == |spread| && (i > 0 ==> spread[i - 1] > 0) && cpustride == Stride(spread, i)
    ensures rnp == InfoOf(cnt, spread, nrCpus, i, j)
  {
    hide Stride, Base;
    var grphi: int := (j + 1) * cpustride - 1;
    if grphi >= nrCpus { grphi := nrCpus - 1; }
    if i == 0 {
      rnp := Info(i, j * cpustride, grphi, 0, -1);
    } else {
      rnp := Info(i, j * cpustride, grphi, j % spread[i - 1], Base(cnt, i - 1) + j / spread[i - 1]);
    }
  }

  /** The inner loop of rcu_init_one: the nodes of one level. */
  method BuildLevel(nodes: array<Info>, cnt: seq<nat>, spread: seq<nat>, nrCpus: nat, i: nat, cpustride: nat)
    requires i < |cnt| == |spread| && nodes.Length == Base(cnt, |cnt|)
    requires forall k :: 0 <= k < |cnt| ==> spread[k] > 0
    requires cpustride == Stride(spread, i)
    modifies nodes
    ensures LevelBuilt(nodes[..], cnt, spread, nrCpus, i)
    ensures forall x :: 0 <= x < nodes.Length && !(Base(cnt, i) <= x < Base(cnt, i) + cnt[i]) ==>
      nodes[x] == old(nodes[x])
  {
    BaseNext(cnt, i);
    BaseMono(cnt, i + 1, |cnt|);
    hide Stride, Base, InfoOf;
    var rnp := Base(cnt, i);
    for j := 0 to cnt[i]
      invariant forall k :: 0 <= k < j ==> nodes[rnp + k] == InfoOf(cnt, spread, nrCpus, i, k)
      invariant forall x :: 0 <= x < nodes.Length && !(rnp <= x < rnp + cnt[i]) ==> nodes[x] == old(nodes[x])
    {
      var node := InitNode(cnt, spread, nrCpus, i, j, cpustride);
      nodes[rnp + j] := node;
    }
  }

  /** rcu_init_one's loop over the levels, from the leaves up. */
  method BuildNodes(cnt: seq<nat>, spread: seq<nat>, nrCpus: nat) returns (nodes: array<Info>)
    requires |cnt| == |spread|
    requires forall k :: 0 <= k < |cnt| ==> spread[k] > 0
    ensures fresh(nodes) && Built(nodes[..], cnt, spread, nrCpus)
  {
    nodes := new Info[Base(cnt, |cnt|)](_ => Info(0, 0, 0, 0, -1));
    var cpustride := 1;
    for i := |cnt| downto 0
      invariant cpustride == Stride(spread, i)
      invariant forall k :: i <= k < |cnt| ==> LevelBuilt(nodes[..], cnt, spread, nrCpus, k)
    {
      StrideNext(spread, i);
      cpustride := cpustride * spread[i];
      ghost var before := nodes[..];
      BuildLevel(nodes, cnt, spread, nrCpus, i, cpustride);
      forall k | i < k < |cnt| ensures LevelBuilt(nodes[..], cnt, spread, nrCpus, k) {
        assert LevelBuilt(before, cnt, spread, nrCpus, k);
        BaseNext(cnt, i);
        BaseMono(cnt, i + 1, k);
        forall j | 0 <= j < cnt[k]
          ensures NodeBuilt(nodes[..], cnt, spread, nrCpus, k, j)
        {
          assert NodeBuilt(before, cnt, spread, nrCpus, k, j);
        }
      }
    }
  }

  /** rcu_init_one's last loop: each possible CPU finds the leaf whose range it is in. */
  method AssignLeaves(nodes: array<Info>, n: nat, cnt: seq<nat>, spread: seq<nat>, nrCpus: nat, possible: seq<bool>)
    returns (mynode: seq<int>)
    requires Built(nodes[..], cnt, spread, nrCpus) && Balanced(n, cnt, spread)
    requires |possible| == n <= nrCpus
    ensures |mynode| == n
    ensures forall c :: 0 <= c < n && possible[c] ==> mynode[c] == LeafOf(cnt, spread, c)
  {
    var last := |cnt| - 1;
    var st := spread[last];
    BaseNext(cnt, last);
    StrideNext(spread, last);
    assert Stride(spread, last) == st;
    assert LevelBuilt(nodes[..], cnt, spread, nrCpus, last);
    assert Fits(cnt[last], st, n);
    var rnp := Base(cnt, last);
    ghost var q := 0;
    mynode := [];
    for c := 0 to n
      invariant |mynode| == c && q < cnt[last] && rnp == Base(cnt, last) + q && q * st <= c
      invariant forall k :: 0 <= k < c && possible[k] ==> mynode[k] == LeafOf(cnt, spread, k)
    {
      if possible[c] {
        while c > nodes[rnp].grphi
          invariant q < cnt[last] && rnp == Base(cnt, last) + q && q * st <= c
          decreases cnt[last] - q
        {
          assert NodeBuilt(nodes[..], cnt, spread, nrCpus, last, q);
          assert (q + 1) * st <= c < cnt[last] * st;
          LessFactor(q + 1, cnt[last], st);
          rnp, q := rnp + 1, q + 1;
        }
        assert NodeBuilt(nodes[..], cnt, spread, nrCpus, last, q);
        QuotientIs(c, st, q);
        mynode := mynode + [rnp];
      } else {
        mynode := mynode + [-1];
      }
    }
  }

  lemma {:induction false} LessFactor(a: nat, b: nat, c: nat)
    requires a * c < b * c
    ensures a < b
  {
    if b <= a { MulLe(b, a, c); }
  }

  lemma {:induction false} QuotientIs(c: nat, st: nat, q: nat)
    requires 0 < st && q * st <= c < (q + 1) * st
    ensures c / st == q
  {
    DivMod(c, st);
    if c / st < q { MulLe(c / st + 1, q, st); }
    if c / st > q { MulLe(q + 1, c / st, st); }
  }

  lemma {:induction false} CountsPositive(n: nat, fanout: nat, leaf: nat, cnt: seq<nat>)
    requires Counts(n, fanout, leaf, cnt)
    ensures forall i :: 0 <= i < |cnt| ==> cnt[i] > 0
  {
    forall i | 0 <= i < |cnt| ensures cnt[i] > 0 {
      CeilDivIs(n, Capacity(fanout, leaf, |cnt| - i), 0);
    }
  }

  /** rcu_init_one, on the level counts that rcu_init_geometry computed. */
  method InitOne(n: nat, ghost fanout: nat, ghost leaf: nat, cnt: seq<nat>, nrCpus: nat, possible: seq<bool>)
    returns (nodes: array<Info>, spread: seq<nat>, mynode: seq<int>)
    requires Counts(n, fanout, leaf, cnt) && |possible| == n <= nrCpus
    ensures Balanced(n, cnt, spread) && Built(nodes[..], cnt, spread, nrCpus)
    ensures forall i :: 0 <= i < |cnt| ==> spread[i] <= if i == |cnt| - 1 then leaf else fanout
    ensures |mynode| == n
    ensures forall c :: 0 <= c < n && possible[c] ==> mynode[c] == LeafOf(cnt, spread, c)
  {
    CountsPositive(n, fanout, leaf, cnt);
    spread := InitLevelspread(cnt, n);
    SpreadIsBalanced(n, fanout, leaf, cnt, spread);
    nodes := BuildNodes(cnt, spread, nrCpus);
    mynode := AssignLeaves(nodes, n, cnt, spread, nrCpus, possible);
  }

  // ----- it is a proper tree -----

  /** Node `x` is the root, or hangs off an earlier node one level up, under a bit below
      that level's spread, and its CPU range is nonempty and inside its parent's. */
  ghost predicate ProperNode(nodes: seq<Info>, spread: seq<nat>, x: nat)
    requires x < |nodes|
  {
    var me := nodes[x];
    && me.level < |spread| && me.grplo <= me.grphi
    && (me.level == 0 <==> x == 0)
    && (x == 0 ==> me.parent == -1)
    && (x > 0 ==>
          && 0 <= me.parent < x
          && nodes[me.parent].level == me.level - 1
          && me.grpnum < spread[me.level - 1]
          && nodes[me.parent].grplo <= me.grplo && me.grphi <= nodes[me.parent].grphi)
  }

  lemma {:induction false} At(nodes: seq<Info>, cnt: seq<nat>, spread: seq<nat>, nrCpus: nat, i: nat, j: nat)
    requires Built(nodes, cnt, spread, nrCpus) && i < |cnt| && j < cnt[i]
    ensures Base(cnt, i) + j < |nodes| && nodes[Base(cnt, i) + j] == InfoOf(cnt, spread, nrCpus, i, j)
  {
    assert LevelBuilt(nodes, cnt, spread, nrCpus, i);
    assert NodeBuilt(nodes, cnt, spread, nrCpus, i, j);
  }

  /** The first child of the `j`-th group exists, and it is in that group. */
  lemma {:induction false} FirstChild(m: nat, s: nat, k: nat, j: nat)
    requires Fits(m, s, k) && j < m && s > 0
    ensures j * s < k && (j * s) / s == j
  {
    MulLe(j, m - 1, s);
    assert (j + 1) * s == j * s + s;
    QuotientIs(j * s, s, j);
  }

  /** Every child's group exists. */
  lemma {:induction false} GroupExists(m: nat, s: nat, k: nat, j: nat)
    requires Fits(m, s, k) && j < k && s > 0
    ensures j / s < m
  {
    DivMod(j, s);
    LessFactor(j / s, m, s);
  }

  lemma {:induction false} Assoc(a: nat, b: nat, c: nat)
    ensures a * (b * c) == (a * b) * c
  {
  }

  lemma {:induction false} Positive(a: nat, b: nat)
    requires a > 0 && b > 0
    ensures a * b > 0
  {
  }

  /** A node's range starts at a CPU that exists: some leaf below it is in use. */
  lemma {:induction false} RangeStartsBelow(n: nat, cnt: seq<nat>, spread: seq<nat>, i: nat, j: nat)
    requires Balanced(n, cnt, spread) && i < |cnt| && j < cnt[i]
    ensures Stride(spread, i) > 0 && j * Stride(spread, i) < n
    decreases |cnt| - i
  {
    hide Fits, Stride;
    var s, t := spread[i], Stride(spread, i + 1);
    StrideNext(spread, i);
    assert Fits(cnt[i], s, Below(cnt, n, i));
    FirstChild(cnt[i], s, Below(cnt, n, i), j);
    FirstChild(cnt[i], s, Below(cnt, n, i), 0);
    if i == |cnt| - 1 {
      StrideEnd(spread);
    } else {
      RangeStartsBelow(n, cnt, spread, i + 1, j * s);
      Assoc(j, s, t);
      Positive(s, t);
    }
  }

  lemma {:induction false} StrideEnd(spread: seq<nat>)
    ensures Stride(spread, |spread|) == 1
  {
  }

  /** Scaling by the stride keeps a child's range inside its parent's. */
  lemma {:induction false} RangeInside(j: nat, s: nat, t: nat)
    requires s > 0
    ensures (j / s) * (s * t) <= j * t && (j + 1) * t <= (j / s + 1) * (s * t)
  {
    var p := j / s;
    DivMod(j, s);
    Assoc(p, s, t);
    Assoc(p + 1, s, t);
    assert (p + 1) * s == p * s + s;
    MulLe(p * s, j, t);
    MulLe(j + 1, (p + 1) * s, t);
  }

  lemma {:induction false} NodeIsProper(nodes: seq<Info>, n: nat, cnt: seq<nat>, spread: seq<nat>, nrCpus: nat,
                                        i: nat, j: nat)
    requires Built(nodes, cnt, spread, nrCpus) && Balanced(n, cnt, spread) && n <= nrCpus
    requires i < |cnt| && j < cnt[i]
    ensures Base(cnt, i) + j < |nodes| && ProperNode(nodes, spread, Base(cnt, i) + j)
  {
    hide Fits, Stride, Base, Below, LevelBuilt;
    At(nodes, cnt, spread, nrCpus, i, j);
    var t := Stride(spread, i);
    RangeStartsBelow(n, cnt, spread, i, j);
    assert (j + 1) * t == j * t + t;
    BaseZero(cnt);
    if i > 0 {
      var s := spread[i - 1];
      assert Fits(cnt[i - 1], s, Below(cnt, n, i - 1));
      BelowIs(cnt, n, i);
      GroupExists(cnt[i - 1], s, cnt[i], j);
      At(nodes, cnt, spread, nrCpus, i - 1, j / s);
      BaseNext(cnt, i - 1);
      StrideNext(spread, i - 1);
      RangeInside(j, s, t);
      DivMod(j, s);
    }
  }

  lemma {:induction false} BaseZero(cnt: seq<nat>)
    ensures Base(cnt, 0) == 0
  {
  }

  lemma {:induction false} BaseEnd(cnt: seq<nat>)
    ensures Base(cnt, |cnt|) == Sum(cnt)
  {
    assert cnt[..|cnt|] == cnt;
  }

  lemma {:induction false} BelowIs(cnt: seq<nat>, n: nat, i: nat)
    requires i < |cnt|
    ensures Below(cnt, n, |cnt| - 1) == n
    ensures i > 0 ==> Below(cnt, n, i - 1) == cnt[i]
  {
  }

  /** Siblings have different bits. */
  lemma {:induction false} SiblingsDiffer(nodes: seq<Info>, n: nat, cnt: seq<nat>, spread: seq<nat>, nrCpus: nat,
                                          x: nat, y: nat)
    requires Built(nodes, cnt, spread, nrCpus) && Balanced(n, cnt, spread) && n <= nrCpus
    requires 0 < x < y < |nodes| && nodes[x].parent == nodes[y].parent
    ensures nodes[x].grpnum != nodes[y].grpnum
  {
    hide Fits, Stride, Base, Below, LevelBuilt;
    var i, j := Locate(cnt, x, |cnt|);
    var i', k := Locate(cnt, y, |cnt|);
    NodeIsProper(nodes, n, cnt, spread, nrCpus, i, j);
    NodeIsProper(nodes, n, cnt, spread, nrCpus, i', k);
    At(nodes, cnt, spread, nrCpus, i, j);
    At(nodes, cnt, spread, nrCpus, i', k);
    DivMod(j, spread[i - 1]);
    DivMod(k, spread[i - 1]);
  }

  /** Every CPU lies in its leaf's range, at a bit below the leaf spread. */
  lemma {:induction false} CpuInLeaf(nodes: seq<Info>, n: nat, cnt: seq<nat>, spread: seq<nat>, nrCpus: nat, c: nat)
    requires Built(nodes, cnt, spread, nrCpus) && Balanced(n, cnt, spread) && c < n <= nrCpus
    ensures LeafOf(cnt, spread, c) < |nodes|
    ensures var me := nodes[LeafOf(cnt, spread, c)];
            me.level == |cnt| - 1 && me.grplo <= c <= me.grphi && c - me.grplo < spread[|cnt| - 1]
  {
    hide Fits, Stride, Base, Below, LevelBuilt;
    var last := |cnt| - 1;
    var s := spread[last];
    var q := c / s;
    assert Fits(cnt[last], s, Below(cnt, n, last));
    BelowIs(cnt, n, last);
    GroupExists(cnt[last], s, n, c);
    At(nodes, cnt, spread, nrCpus, last, q);
    StrideNext(spread, last);
    StrideEnd(spread);
    DivMod(c, s);
    assert (q + 1) * s == q * s + s;
  }

  /** Every interior node has a child, and every leaf a CPU. */
  lemma {:induction false} NobodyIsChildless(nodes: seq<Info>, n: nat, cnt: seq<nat>, spread: seq<nat>, nrCpus: nat,
                                             x: nat)
    requires Built(nodes, cnt, spread, nrCpus) && Balanced(n, cnt, spread) && n <= nrCpus
    requires x < |nodes|
    ensures nodes[x].level < |cnt| - 1 ==> exists y :: x < y < |nodes| && nodes[y].parent == x
    ensures nodes[x].level == |cnt| - 1 ==> exists c: nat :: c < n && LeafOf(cnt, spread, c) == x
  {
    hide Fits, Stride, Base, Below, LevelBuilt;
    var i, j := Locate(cnt, x, |cnt|);
    At(nodes, cnt, spread, nrCpus, i, j);
    var first := j * spread[i];
    assert Fits(cnt[i], spread[i], Below(cnt, n, i));
    FirstChild(cnt[i], spread[i], Below(cnt, n, i), j);
    if i < |cnt| - 1 {
      BelowIs(cnt, n, i + 1);
      At(nodes, cnt, spread, nrCpus, i + 1, first);
      NodeIsProper(nodes, n, cnt, spread, nrCpus, i + 1, first);
    } else {
      BelowIs(cnt, n, i);
      assert LeafOf(cnt, spread, first) == x;
    }
  }

  /** The tree that the grace-period protocol runs on. */
  function TopologyOf(nodes: seq<Info>, n: nat, cnt: seq<nat>, spread: seq<nat>): RcuTree.Topology
    requires 0 < |cnt| == |spread| && spread[|spread| - 1] > 0
  {
    RcuTree.Topology(seq(|nodes|, x requires 0 <= x < |nodes| => if nodes[x].parent < 0 then 0 else nodes[x].parent),
                     seq(n, c requires 0 <= c < n => LeafOf(cnt, spread, c)))
  }

  lemma {:induction false} AllProper(nodes: seq<Info>, n: nat, cnt: seq<nat>, spread: seq<nat>, nrCpus: nat)
    requires Built(nodes, cnt, spread, nrCpus) && Balanced(n, cnt, spread) && n <= nrCpus
    ensures forall x :: 0 <= x < |nodes| ==> ProperNode(nodes, spread, x)
    ensures 0 < |nodes| == Sum(cnt)
  {
    hide Fits, Stride, Base, Below, LevelBuilt, ProperNode;
    forall x | 0 <= x < |nodes| ensures ProperNode(nodes, spread, x) {
      var i, j := Locate(cnt, x, |cnt|);
      NodeIsProper(nodes, n, cnt, spread, nrCpus, i, j);
    }
    NodeIsProper(nodes, n, cnt, spread, nrCpus, 0, 0);
    BaseEnd(cnt);
  }

  /** Every accepted geometry is a topology the protocol's proofs apply to, whose leaves are the nodes of the last
      level. */
  lemma {:induction false} GeometryIsATopology(nodes: seq<Info>, n: nat, cnt: seq<nat>, spread: seq<nat>, nrCpus: nat)
    requires Built(nodes, cnt, spread, nrCpus) && Balanced(n, cnt, spread) && n <= nrCpus
    ensures RcuTree.ValidTopology(TopologyOf(nodes, n, cnt, spread))
    ensures forall x :: 0 <= x < |nodes| ==>
      (RcuTree.IsLeaf(TopologyOf(nodes, n, cnt, spread), x) <==> nodes[x].level == |cnt| - 1)
  {
    hide Fits, Stride, Base, Below, LevelBuilt, LeafOf, Sum;
    var tp := TopologyOf(nodes, n, cnt, spread);
    AllProper(nodes, n, cnt, spread, nrCpus);
    forall x | 0 <= x < |nodes| ensures RcuTree.IsLeaf(tp, x) <==> nodes[x].level == |cnt| - 1 {
      assert ProperNode(nodes, spread, x);
      NobodyIsChildless(nodes, n, cnt, spread, nrCpus, x);
      if nodes[x].level < |cnt| - 1 {
        var y :| x < y < |nodes| && nodes[y].parent == x;
        assert tp.parent[y] == x;
      } else {
        forall m | 0 < m < |tp.parent| ensures tp.parent[m] != x {
          assert ProperNode(nodes, spread, m);
        }
      }
    }
    forall c | 0 <= c < n ensures tp.leafOf[c] < |nodes| && RcuTree.IsLeaf(tp, tp.leafOf[c]) {
      CpuInLeaf(nodes, n, cnt, spread, nrCpus, c);
    }
    forall x | 0 < x < |tp.parent| ensures tp.parent[x] < x {
      assert ProperNode(nodes, spread, x);
    }
  }
}
