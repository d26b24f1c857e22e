/**
The shared-memory policy tree: an interval tree, edited in place, that has to act
as a map from page indices to policies.

The tree is a binary search tree over half-open ranges. A node is named by its
place in the in-order walk, which is what rb_next and rb_prev follow. Rebalancing
may give the tree any shape that keeps the in-order walk.
*/
module SharedPolicy {
  import opened Common

  /** One past the largest unsigned long. */
  const WORD: nat := 0x1_0000_0000_0000_0000

  const ENOMEM: int := 12

  type Policy = nat

  /** sp_node: the policy of the pages in [start, end). */
  datatype Range = Range(start: nat, end: nat, policy: Policy)

  datatype Tree = Nil | Node(left: Tree, item: Range, right: Tree)

  function InOrder(t: Tree): seq<Range> {
    match t
    case Nil => []
    case Node(l, r, u) => InOrder(l) + [r] + InOrder(u)
  }

  // ----- the map that a sequence of ranges stands for -----

  /** The policy of page `x`: that of the first range that has it. */
  function PolicyAt(s: seq<Range>, x: nat): Option<Policy> {
    if s == [] then None
    else if s[0].start <= x < s[0].end then Some(s[0].policy)
    else PolicyAt(s[1..], x)
  }

  /** Nonempty ranges that fit a word. */
  predicate Proper(s: seq<Range>) {
    forall i :: 0 <= i < |s| ==> s[i].start < s[i].end < WORD
  }

  /** Disjoint, in ascending order. */
  predicate Ascending(s: seq<Range>) {
    forall i, j :: 0 <= i < j < |s| ==> s[i].end <= s[j].start
  }

  predicate Ordered(s: seq<Range>) { Proper(s) && Ascending(s) }

  predicate Clear(r: Range, start: nat, end: nat) { r.end <= start || end <= r.start }

  predicate AllClear(s: seq<Range>, start: nat, end: nat) {
    forall i :: 0 <= i < |s| ==> Clear(s[i], start, end)
  }

  /** `t` is `s` except that the pages in [start, end) have the policy `pol`, or none. */
  ghost predicate Overrides(t: seq<Range>, s: seq<Range>, start: nat, end: nat, pol: Option<Policy>) {
    forall x: nat :: PolicyAt(t, x) == if start <= x < end then pol else PolicyAt(s, x)
  }

  /** `t` and `s` agree outside [start, end). */
  ghost predicate AgreeOutside(t: seq<Range>, s: seq<Range>, start: nat, end: nat) {
    forall x: nat :: !(start <= x < end) ==> PolicyAt(t, x) == PolicyAt(s, x)
  }

  lemma {:induction false} PolicyAtConcat(s: seq<Range>, t: seq<Range>, x: nat)
    ensures PolicyAt(s + t, x) == if PolicyAt(s, x).Some? then PolicyAt(s, x) else PolicyAt(t, x)
  {
    if s == [] {
      assert s + t == t;
    } else {
      assert (s + t)[1..] == s[1..] + t;
      PolicyAtConcat(s[1..], t, x);
    }
  }

  lemma {:induction false} ClearHasNone(s: seq<Range>, start: nat, end: nat, x: nat)
    requires AllClear(s, start, end) && start <= x < end
    ensures PolicyAt(s, x) == None
  {
    if s != [] { ClearHasNone(s[1..], start, end, x); }
  }

  /** Exchanging a middle part that agrees outside the range. */
  lemma {:induction false} Exchange(a: seq<Range>, m: seq<Range>, m': seq<Range>, b: seq<Range>, start: nat, end: nat)
    requires AgreeOutside(m', m, start, end)
    ensures AgreeOutside(a + m' + b, a + m + b, start, end)
  {
    forall x: nat | !(start <= x < end) ensures PolicyAt(a + m' + b, x) == PolicyAt(a + m + b, x) {
      PolicyAtConcat(a + m', b, x);
      PolicyAtConcat(a + m, b, x);
      PolicyAtConcat(a, m', x);
      PolicyAtConcat(a, m, x);
    }
  }

  /** A range put where nothing is left covers exactly its pages. */
  lemma {:induction false} Covers(a: seq<Range>, b: seq<Range>, r: Range)
    requires AllClear(a, r.start, r.end) && AllClear(b, r.start, r.end)
    ensures Overrides(a + [r] + b, a + b, r.start, r.end, Some(r.policy))
  {
    forall x: nat
      ensures PolicyAt(a + [r] + b, x) == if r.start <= x < r.end then Some(r.policy) else PolicyAt(a + b, x)
    {
      PolicyAtConcat(a + [r], b, x);
      PolicyAtConcat(a, [r], x);
      PolicyAtConcat(a, b, x);
      if r.start <= x < r.end { ClearHasNone(a, r.start, r.end, x); }
    }
  }

  lemma {:induction false} NothingInside(s: seq<Range>, start: nat, end: nat)
    requires AllClear(s, start, end)
    ensures forall x :: start <= x < end ==> PolicyAt(s, x) == None
  {
    forall x | start <= x < end ensures PolicyAt(s, x) == None { ClearHasNone(s, start, end, x); }
  }

  /** In an ordered sequence, the range that has `x` decides. */
  lemma {:induction false} PolicyOf(s: seq<Range>, k: nat, x: nat)
    requires Ordered(s) && k < |s| && s[k].start <= x < s[k].end
    ensures PolicyAt(s, x) == Some(s[k].policy)
  {
    if k > 0 {
      assert s[0].end <= s[k].start;
      PolicyOf(s[1..], k - 1, x);
    }
  }

  // ----- the tree -----

  function SetAt(t: Tree, k: nat, r: Range): Tree
    requires k < |InOrder(t)|
  {
    var n := |InOrder(t.left)|;
    if k < n then t.(left := SetAt(t.left, k, r))
    else if k == n then t.(item := r)
    else t.(right := SetAt(t.right, k - n - 1, r))
  }

  lemma {:induction false} SetAtIs(t: Tree, k: nat, r: Range)
    requires k < |InOrder(t)|
    ensures InOrder(SetAt(t, k, r)) == InOrder(t)[k := r]
  {
    var n := |InOrder(t.left)|;
    if k < n { SetAtIs(t.left, k, r); }
    if k > n { SetAtIs(t.right, k - n - 1, r); }
  }

  function Join(l: Tree, r: Tree): (u: Tree)
    ensures InOrder(u) == InOrder(l) + InOrder(r)
  {
    if l.Nil? then r else l.(right := Join(l.right, r))
  }

  function EraseAt(t: Tree, k: nat): Tree
    requires k < |InOrder(t)|
  {
    var n := |InOrder(t.left)|;
    if k < n then t.(left := EraseAt(t.left, k))
    else if k == n then Join(t.left, t.right)
    else t.(right := EraseAt(t.right, k - n - 1))
  }

  lemma {:induction false} EraseAtIs(t: Tree, k: nat)
    requires k < |InOrder(t)|
    ensures InOrder(EraseAt(t, k)) == InOrder(t)[..k] + InOrder(t)[k + 1..]
  {
    var l, u := InOrder(t.left), InOrder(t.right);
    var n := |l|;
    if k < n {
      EraseAtIs(t.left, k);
      CutLeft(l, t.item, u, k);
    } else if k == n {
      CutItem(l, t.item, u);
    } else {
      EraseAtIs(t.right, k - n - 1);
      CutRight(l, t.item, u, k - n - 1);
    }
  }

  lemma {:induction false} CutLeft(l: seq<Range>, r: Range, u: seq<Range>, k: nat)
    requires k < |l|
    ensures var s := l + [r] + u; s[..k] + s[k + 1..] == l[..k] + l[k + 1..] + [r] + u
  {
  }

  lemma {:induction false} CutItem(l: seq<Range>, r: Range, u: seq<Range>)
    ensures var s := l + [r] + u; s[..|l|] + s[|l| + 1..] == l + u
  {
  }

  lemma {:induction false} CutRight(l: seq<Range>, r: Range, u: seq<Range>, k: nat)
    requires k < |u|
    ensures var s := l + [r] + u; s[..|l| + 1 + k] + s[|l| + 1 + k + 1..] == l + [r] + (u[..k] + u[k + 1..])
  {
  }

  /** A link of the tree: the turns taken from the root, true for right. */
  type Link = seq<bool>

  /** Is there a link `p` in `t`, and what hangs there? */
  predicate HasLink(t: Tree, p: Link) {
    p == [] || (t.Node? && HasLink(if p[0] then t.right else t.left, p[1..]))
  }

  function At(t: Tree, p: Link): Tree
    requires HasLink(t, p)
  {
    if p == [] then t else At(if p[0] then t.right else t.left, p[1..])
  }

  /** What the in-order walk meets before and after the subtree at `p`. */
  function Before(t: Tree, p: Link): seq<Range>
    requires HasLink(t, p)
  {
    if p == [] then []
    else if p[0] then InOrder(t.left) + [t.item] + Before(t.right, p[1..])
    else Before(t.left, p[1..])
  }

  function After(t: Tree, p: Link): seq<Range>
    requires HasLink(t, p)
  {
    if p == [] then [] else if p[0] then After(t.right, p[1..]) else After(t.left, p[1..]) + [t.item] + InOrder(t.right)
  }

  /** rb_link_node: `u` hung at `p`. */
  function Hang(t: Tree, p: Link, u: Tree): Tree
    requires HasLink(t, p)
  {
    if p == [] then u
    else if p[0] then t.(right := Hang(t.right, p[1..], u))
    else t.(left := Hang(t.left, p[1..], u))
  }

  lemma {:induction false} Regroup(l: seq<Range>, a: seq<Range>, u: seq<Range>, b: seq<Range>, r: seq<Range>)
    ensures l + (a + u + b) == (l + a) + u + b
    ensures (a + u + b) + r == a + u + (b + r)
  {
  }

  lemma {:induction false} HangIs(t: Tree, p: Link, u: Tree)
    requires HasLink(t, p)
    ensures InOrder(Hang(t, p, u)) == Before(t, p) + InOrder(u) + After(t, p)
  {
    if p != [] {
      var c := if p[0] then t.right else t.left;
      HangIs(c, p[1..], u);
      Regroup(InOrder(t.left) + [t.item], Before(c, p[1..]), InOrder(u), After(c, p[1..]), [t.item] + InOrder(t.right));
    }
  }

  lemma {:induction false} Around(t: Tree, p: Link)
    requires HasLink(t, p)
    ensures InOrder(t) == Before(t, p) + InOrder(At(t, p)) + After(t, p)
  {
    if p != [] { Around(if p[0] then t.right else t.left, p[1..]); }
  }

  /** One turn further down. */
  lemma {:induction false} Turn(t: Tree, p: Link, right: bool)
    requires HasLink(t, p) && At(t, p).Node?
    ensures HasLink(t, p + [right])
    ensures var n := At(t, p);
            && At(t, p + [right]) == (if right then n.right else n.left)
            && Before(t, p + [right]) == Before(t, p) + (if right then InOrder(n.left) + [n.item] else [])
            && After(t, p + [right]) == (if right then [] else [n.item] + InOrder(n.right)) + After(t, p)
  {
    if p == [] {
      assert p + [right] == [right];
    } else {
      assert (p + [right])[1..] == p[1..] + [right];
      Turn(if p[0] then t.right else t.left, p[1..], right);
    }
  }

  /** A link where [start, end) belongs: what comes before ends by `start`, what comes after starts from `end`. */
  ghost predicate Slot(t: Tree, p: Link, start: nat, end: nat) {
    && HasLink(t, p)
    && (forall r :: r in Before(t, p) ==> r.end <= start)
    && (forall r :: r in After(t, p) ==> end <= r.start)
  }

  lemma {:induction false} ItemIsListed(t: Tree, p: Link, start: nat, end: nat)
    requires HasLink(t, p) && At(t, p).Node?
    requires Ordered(InOrder(t)) && AllClear(InOrder(t), start, end)
    ensures At(t, p).item.start < At(t, p).item.end && Clear(At(t, p).item, start, end)
  {
    Around(t, p);
    var k := |Before(t, p)| + |InOrder(At(t, p).left)|;
    assert InOrder(t)[k] == At(t, p).item;
  }

  /** Ranges left of a node end by its start; ranges right of it start from its end. */
  lemma {:induction false} SidesOf(a: seq<Range>, t: Tree, b: seq<Range>)
    requires t.Node? && Ordered(a + InOrder(t) + b)
    ensures t.item.start < t.item.end
    ensures forall r :: r in InOrder(t.left) ==> r.end <= t.item.start
    ensures forall r :: r in InOrder(t.right) ==> t.item.end <= r.start
  {
    var l, u := InOrder(t.left), InOrder(t.right);
    var s, k := a + InOrder(t) + b, |a| + |l|;
    assert InOrder(t) == l + [t.item] + u;
    hide InOrder;
    assert s[k] == t.item;
    forall i | 0 <= i < |l| ensures l[i].end <= t.item.start { assert s[|a| + i] == l[i]; }
    forall i | 0 <= i < |u| ensures t.item.end <= u[i].start { assert s[k + 1 + i] == u[i]; }
  }

  lemma {:induction false} Descend(t: Tree, p: Link, start: nat, end: nat, right: bool)
    requires Ordered(InOrder(t)) && Slot(t, p, start, end) && At(t, p).Node?
    requires if right then At(t, p).item.end <= start else end <= At(t, p).item.start
    ensures Slot(t, p + [right], start, end)
    ensures At(t, p + [right]) == if right then At(t, p).right else At(t, p).left
  {
    Around(t, p);
    SidesOf(Before(t, p), At(t, p), After(t, p));
    Turn(t, p, right);
  }

  /** The rebalancing of the red-black tree library: any that keeps the in-order walk. */
  ghost predicate KeepsOrder(balance: Tree -> Tree) {
    forall t: Tree :: InOrder(balance(t)) == InOrder(t)
  }

  /** `t` is `s` with `r` put in somewhere. */
  ghost predicate Inserted(t: seq<Range>, s: seq<Range>, r: Range) {
    exists k :: 0 <= k <= |s| && t == s[..k] + [r] + s[k..]
  }

  lemma {:induction false} EmptyLink(t: Tree, start: nat, end: nat)
    ensures HasLink(t, []) && Slot(t, [], start, end)
  {
  }

  /** A range hung where it belongs leaves the walk ordered. */
  lemma {:induction false} HungInSlot(t: Tree, p: Link, r: Range)
    requires Slot(t, p, r.start, r.end) && At(t, p).Nil? && Ordered(InOrder(t)) && r.start < r.end < WORD
    ensures var u := InOrder(Hang(t, p, Node(Nil, r, Nil))); Ordered(u) && Inserted(u, InOrder(t), r)
  {
    Around(t, p);
    HangIs(t, p, Node(Nil, r, Nil));
    assert InOrder(Node(Nil, r, Nil)) == [r];
    assert InOrder(t) == Before(t, p) + After(t, p);
    PutBetween(Before(t, p), After(t, p), r);
  }

  lemma {:induction false} PutBetween(a: seq<Range>, b: seq<Range>, r: Range)
    requires Ordered(a + b) && r.start < r.end < WORD
    requires forall q :: q in a ==> q.end <= r.start
    requires forall q :: q in b ==> r.end <= q.start
    ensures Ordered(a + [r] + b) && Inserted(a + [r] + b, a + b, r)
  {
    var s, t := a + b, a + [r] + b;
    assert s[..|a|] == a && s[|a|..] == b;
    forall i | 0 <= i < |t| ensures t[i] == r || (t[i] in s && t[i] == if i < |a| then s[i] else s[i - 1]) {}
    forall i, j | 0 <= i < j < |t| ensures t[i].end <= t[j].start {
      if j == |a| { assert t[i] in a; } else if i == |a| { assert t[j] in b; } else { PairStays(s, |a|, i, j); }
    }
  }

  lemma {:induction false} PairStays(s: seq<Range>, k: nat, i: nat, j: nat)
    requires Ordered(s) && i < j <= |s| && i != k && j != k && k <= |s|
    ensures s[if i < k then i else i - 1].end <= s[if j < k then j else j - 1].start
  {
  }

  lemma {:induction false} AgreeTrans(t: seq<Range>, s: seq<Range>, q: seq<Range>, start: nat, end: nat)
    requires AgreeOutside(t, s, start, end) && AgreeOutside(s, q, start, end)
    ensures AgreeOutside(t, q, start, end)
  {
  }

  /** A range that reaches out on both sides is the first that meets [start, end). */
  lemma {:induction false} SpannedIsFirst(s: seq<Range>, n: nat, start: nat, end: nat)
    requires Ordered(s) && n < |s| && !Clear(s[n], start, end)
    ensures Spanned(s, start, end) <==> s[n].start < start && end < s[n].end
  {
    if Spanned(s, start, end) {
      var i :| 0 <= i < |s| && s[i].start < start && end < s[i].end;
    }
  }

  /** Shortening the `n`-th range to what it has outside [start, end). */
  lemma {:induction false} Trimmed(s: seq<Range>, n: nat, r: Range, start: nat, end: nat)
    requires Ordered(s) && n < |s|
    requires r.policy == s[n].policy && s[n].start <= r.start < r.end <= s[n].end
    requires r.start == s[n].start || (start <= s[n].start && r.start <= end)
    requires r.end == s[n].end || (start <= r.end && s[n].end <= end)
    ensures Ordered(s[n := r]) && AgreeOutside(s[n := r], s, start, end)
  {
    assert s == s[..n] + [s[n]] + s[n + 1..];
    assert s[n := r] == s[..n] + [r] + s[n + 1..];
    assert AgreeOutside([r], [s[n]], start, end);
    Exchange(s[..n], [s[n]], [r], s[n + 1..], start, end);
  }

  /** Dropping the `n`-th range, all of it inside [start, end). */
  lemma {:induction false} Dropped(s: seq<Range>, n: nat, start: nat, end: nat)
    requires Ordered(s) && n < |s| && start <= s[n].start && s[n].end <= end
    ensures Ordered(s[..n] + s[n + 1..]) && AgreeOutside(s[..n] + s[n + 1..], s, start, end)
  {
    assert s == s[..n] + [s[n]] + s[n + 1..];
    assert s[..n] + [] + s[n + 1..] == s[..n] + s[n + 1..];
    Exchange(s[..n], [s[n]], [], s[n + 1..], start, end);
  }

  /** The walk through the ranges that meet [start, end) has come to the `n`-th. */
  ghost predicate Swept(cur: seq<Range>, s: seq<Range>, n: nat, start: nat, end: nat) {
    && Ordered(cur) && n <= |cur| && AgreeOutside(cur, s, start, end)
    && (forall i :: 0 <= i < n ==> Clear(cur[i], start, end))
    && (forall i :: n < i < |cur| ==> start <= cur[i].start)
  }

  lemma {:induction false} SweepStarts(s: seq<Range>, n: nat, start: nat, end: nat)
    requires Ordered(s) && n < |s| && !Clear(s[n], start, end)
    requires forall i :: 0 <= i < n ==> s[i].end <= start
    ensures Swept(s, s, n, start, end)
  {
  }

  lemma {:induction false} SweptOrdered(cur: seq<Range>, s: seq<Range>, n: nat, start: nat, end: nat)
    requires Swept(cur, s, n, start, end)
    ensures n <= |cur| && AgreeOutside(cur, s, start, end) && Ordered(cur) && (n < |cur| ==> cur[n].start < cur[n].end)
  {
  }

  lemma {:induction false} SweepDrops(cur: seq<Range>, s: seq<Range>, n: nat, start: nat, end: nat)
    requires Swept(cur, s, n, start, end) && n < |cur| && start <= cur[n].start && cur[n].end <= end
    ensures Swept(cur[..n] + cur[n + 1..], s, n, start, end)
    ensures n + 1 < |cur| ==> start <= cur[n + 1].start
  {
    Dropped(cur, n, start, end);
    AgreeTrans(cur[..n] + cur[n + 1..], cur, s, start, end);
  }

  lemma {:induction false} SweepTrims(cur: seq<Range>, r: Range, s: seq<Range>, n: nat, start: nat, end: nat)
    requires Swept(cur, s, n, start, end) && n < |cur| && cur[n].start < end
    requires (r == cur[n].(start := end) && start <= cur[n].start && end < cur[n].end)
          || (r == cur[n].(end := start) && cur[n].start < start && cur[n].end <= end && start < cur[n].end)
    ensures Swept(cur[n := r], s, n + 1, start, end)
    ensures n + 1 < |cur| ==> start <= cur[n + 1].start
  {
    Trimmed(cur, n, r, start, end);
    AgreeTrans(cur[n := r], cur, s, start, end);
  }

  lemma {:induction false} SweepEnds(cur: seq<Range>, s: seq<Range>, n: nat, start: nat, end: nat)
    requires Swept(cur, s, n, start, end) && (n < |cur| ==> end <= cur[n].start)
    ensures AllClear(cur, start, end)
  {
    forall i | n < i < |cur| ensures end <= cur[i].start {
      assert cur[n].end <= cur[i].start;
    }
  }

  /** Cutting [start, end) out of the middle of the `n`-th range. */
  lemma {:induction false} Split(s: seq<Range>, n: nat, t: seq<Range>, start: nat, end: nat)
    requires Ordered(s) && n < |s| && s[n].start < start < end < s[n].end
    requires Inserted(t, s[n := s[n].(end := start)], Range(end, s[n].end, s[n].policy))
    ensures AgreeOutside(t, s, start, end)
  {
    var c, r := s[n := s[n].(end := start)], Range(end, s[n].end, s[n].policy);
    Trimmed(s, n, c[n], start, s[n].end);
    forall i | 0 <= i < |c| ensures Clear(c[i], r.start, r.end) {
      assert i > n ==> s[n].end <= s[i].start;
    }
    InsertedOverrides(t, c, r);
    forall x: nat | !(start <= x < end) ensures PolicyAt(t, x) == PolicyAt(s, x) {
      if end <= x < s[n].end { PolicyOf(s, n, x); }
    }
  }

  /** Once cut, the range leaves both [start, end) and the pages behind it free. */
  lemma {:induction false} SplitLeavesRoom(s: seq<Range>, n: nat, start: nat, end: nat)
    requires Ordered(s) && n < |s| && s[n].start < start < end < s[n].end
    ensures AllClear(s[n := s[n].(end := start)], start, end)
    ensures AllClear(s[n := s[n].(end := start)], end, s[n].end)
  {
    forall i | n < i < |s| ensures s[n].end <= s[i].start {}
    forall i | 0 <= i < n ensures s[i].end <= s[n].start {}
  }

  lemma {:induction false} InsertedClear(t: seq<Range>, s: seq<Range>, r: Range, start: nat, end: nat)
    requires Inserted(t, s, r) && AllClear(s, start, end) && Clear(r, start, end)
    ensures AllClear(t, start, end)
  {
  }

  lemma {:induction false} InsertedOverrides(t: seq<Range>, s: seq<Range>, r: Range)
    requires Inserted(t, s, r) && AllClear(s, r.start, r.end)
    ensures Overrides(t, s, r.start, r.end, Some(r.policy))
  {
    var k :| 0 <= k <= |s| && t == s[..k] + [r] + s[k..];
    assert s == s[..k] + s[k..];
    forall i | 0 <= i < |s[k..]| ensures Clear(s[k..][i], r.start, r.end) { assert s[k..][i] == s[k + i]; }
    Covers(s[..k], s[k..], r);
  }

  /** Some range reaches out of [start, end) on both sides. */
  ghost predicate Spanned(s: seq<Range>, start: nat, end: nat) {
    exists i :: 0 <= i < |s| && s[i].start < start && end < s[i].end
  }

  /** The second loop of sp_lookup: back to the first range that meets [start, end). */
  method WalkBack(s: seq<Range>, n0: nat, start: nat, end: nat) returns (n: nat)
    requires Ordered(s) && n0 < |s| && !Clear(s[n0], start, end)
    ensures n < |s| && !Clear(s[n], start, end) && forall i :: 0 <= i < n ==> s[i].end <= start
  {
    n := n0;
    while n > 0 && s[n - 1].end > start
      invariant 0 <= n < |s| && !Clear(s[n], start, end)
    {
      n := n - 1;
    }
  }

  class Store {
    var root: Tree
    const balance: Tree -> Tree

    constructor (balance: Tree -> Tree)
      requires KeepsOrder(balance)
      ensures Valid() && root == Nil && this.balance == balance
    {
      this.balance := balance;
      root := Nil;
    }

    ghost predicate Valid() reads this { KeepsOrder(balance) && Ordered(InOrder(root)) }

    /** sp_lookup: the first range that meets [start, end), or -1. */
    method SpLookup(start: nat, end: nat) returns (n: int)
      requires Valid()
      ensures n == -1 ==> AllClear(InOrder(root), start, end)
      ensures n != -1 ==> 0 <= n < |InOrder(root)| && !Clear(InOrder(root)[n], start, end)
      ensures n != -1 ==> forall i :: 0 <= i < n ==> InOrder(root)[i].end <= start
    {
      var p: Link := [];
      while At(root, p).Node? && Clear(At(root, p).item, start, end)
        invariant Slot(root, p, start, end)
        decreases At(root, p)
      {
        var right := start >= At(root, p).item.end;
        Descend(root, p, start, end, right);
        p := p + [right];
      }
      Around(root, p);
      if At(root, p).Nil? { return -1; }
      n := |Before(root, p)| + |InOrder(At(root, p).left)|;
      assert InOrder(root)[n] == At(root, p).item;
      n := WalkBack(InOrder(root), n, start, end);
    }

    /** mpol_shared_policy_lookup; the index one past `idx` wraps. */
    method Lookup(idx: nat) returns (pol: Option<Policy>)
      requires Valid() && idx < WORD
      ensures pol == PolicyAt(InOrder(root), idx)
    {
      if root.Nil? { return None; }
      var n := SpLookup(idx, (idx + 1) % WORD);
      if n == -1 {
        if idx + 1 < WORD {
          NothingInside(InOrder(root), idx, idx + 1);
        } else {
          PastTheEnd(InOrder(root), idx);
        }
        return None;
      }
      PolicyOf(InOrder(root), n, idx);
      pol := Some(InOrder(root)[n].policy);
    }

    /** sp_insert: the ranges keep their order, and the BUG is not reached. */
    method SpInsert(r: Range)
      requires Valid() && AllClear(InOrder(root), r.start, r.end) && r.start < r.end < WORD
      modifies `root
      ensures Valid()
      ensures Inserted(InOrder(root), old(InOrder(root)), r)
    {
      hide InOrder, Before, After, HasLink, Slot, Inserted, Ordered;
      var p: Link := [];
      EmptyLink(root, r.start, r.end);
      while At(root, p).Node?
        invariant root == old(root) && HasLink(root, p) && Slot(root, p, r.start, r.end)
        decreases At(root, p)
      {
        var nd := At(root, p).item;
        ItemIsListed(root, p, r.start, r.end);
        if r.start < nd.start {
          Descend(root, p, r.start, r.end, false);
          p := p + [false];
        } else if r.end > nd.end {
          Descend(root, p, r.start, r.end, true);
          p := p + [true];
        } else {
          assert false;
        }
      }
      HungInSlot(root, p, r);
      root := balance(Hang(root, p, Node(Nil, r, Nil)));
    }

    /** Cut [start, end) out of the middle of range `n`: it keeps its beginning, and its end becomes a range of its
        own. */
    method SplitAt(n: nat, start: nat, end: nat)
      requires Valid() && n < |InOrder(root)| && InOrder(root)[n].start < start < end < InOrder(root)[n].end
      modifies `root
      ensures Valid()
      ensures AllClear(InOrder(root), start, end) && AgreeOutside(InOrder(root), old(InOrder(root)), start, end)
    {
      hide InOrder, AgreeOutside, Inserted;
      var cur := InOrder(root);
      var r := cur[n];
      Trimmed(cur, n, r.(end := start), start, r.end);
      SetAtIs(root, n, r.(end := start));
      root := SetAt(root, n, r.(end := start));
      ghost var c := InOrder(root);
      SplitLeavesRoom(cur, n, start, end);
      SpInsert(Range(end, r.end, r.policy));
      Split(cur, n, InOrder(root), start, end);
      InsertedClear(InOrder(root), c, Range(end, r.end, r.policy), start, end);
    }

    /** One range that [start, end) does not split: it goes, or gives up its part of [start, end). */
    method SweepOne(n0: nat, ghost s: seq<Range>, start: nat, end: nat) returns (n: nat)
      requires Valid() && start < end && Swept(InOrder(root), s, n0, start, end) && n0 < |InOrder(root)|
      requires var r := InOrder(root)[n0]; r.start < end && start < r.end && (start <= r.start || r.end <= end)
      modifies `root
      ensures Valid() && Swept(InOrder(root), s, n, start, end)
      ensures (n < |InOrder(root)| ==> start <= InOrder(root)[n].start)
      ensures n <= |InOrder(root)| && |InOrder(root)| - n == |old(InOrder(root))| - n0 - 1
    {
      hide InOrder, AgreeOutside, Swept;
      n := n0;
      var cur := InOrder(root);
      var r := cur[n];
      SweptOrdered(cur, s, n, start, end);
      if r.start >= start && r.end <= end {
        SweepDrops(cur, s, n, start, end);
        EraseAtIs(root, n);
        root := balance(EraseAt(root, n));
      } else {
        var trimmed := if r.start >= start then r.(start := end) else r.(end := start);
        SweepTrims(cur, trimmed, s, n, start, end);
        SetAtIs(root, n, trimmed);
        root := SetAt(root, n, trimmed);
        n := n + 1;
      }
      SweptOrdered(InOrder(root), s, n, start, end);
    }

    /** The first half of shared_policy_replace, under the lock: no old range is left in
        [start, end), unless a node has to be allocated first; then nothing has changed yet. */
    method ClearRange(start: nat, end: nat, haveNew: bool) returns (allocNew: bool)
      requires Valid() && start < end < WORD
      modifies `root
      ensures Valid()
      ensures allocNew <==> !haveNew && Spanned(old(InOrder(root)), start, end)
      ensures allocNew ==> root == old(root)
      ensures !allocNew ==>
        AllClear(InOrder(root), start, end) && AgreeOutside(InOrder(root), old(InOrder(root)), start, end)
    {
      allocNew := false;
      var n := SpLookup(start, end);
      if n == -1 { return; }
      hide InOrder, AgreeOutside, Spanned, Swept;
      ghost var s := InOrder(root);
      ghost var first := true;
      SpannedIsFirst(s, n, start, end);
      SweepStarts(s, n, start, end);
      while n < |InOrder(root)| && InOrder(root)[n].start < end
        invariant Valid() && 0 <= n && Swept(InOrder(root), s, n, start, end)
        invariant first ==> root == old(root) && n < |s| && !Clear(s[n], start, end)
        invariant first ==> (Spanned(s, start, end) <==> s[n].start < start && end < s[n].end)
        invariant !first ==> haveNew || !Spanned(s, start, end)
        invariant !first && n < |InOrder(root)| ==> start <= InOrder(root)[n].start < InOrder(root)[n].end
        decreases |InOrder(root)| - n
      {
        if InOrder(root)[n].start < start && end < InOrder(root)[n].end {
          if !haveNew { return true; }
          SplitAt(n, start, end);
          return;
        }
        n := SweepOne(n, s, start, end);
        SweptOrdered(InOrder(root), s, n, start, end);
        first := false;
      }
      SweptOrdered(InOrder(root), s, n, start, end);
      SweepEnds(InOrder(root), s, n, start, end);
    }

    /** shared_policy_replace. `gotNode` and `gotPolicy` say whether the two allocations succeed,
        `meanwhile` is the tree found when the lock is taken again after them. */
    method Replace(start: nat, end: nat, pol: Option<Policy>, gotNode: bool, gotPolicy: bool, meanwhile: Tree)
      returns (ret: int)
      requires Valid() && start < end < WORD && Ordered(InOrder(meanwhile))
      modifies `root
      ensures Valid()
      ensures ret == 0 || ret == -ENOMEM
      ensures ret != 0 <==> Spanned(old(InOrder(root)), start, end) && !(gotNode && gotPolicy)
      ensures ret != 0 ==> root == old(root)
      ensures ret == 0 && !Spanned(old(InOrder(root)), start, end) ==>
        Overrides(InOrder(root), old(InOrder(root)), start, end, pol)
      ensures ret == 0 && Spanned(old(InOrder(root)), start, end) ==>
        Overrides(InOrder(root), InOrder(meanwhile), start, end, pol)
    {
      var haveNew := false;
      ghost var s := InOrder(root);
      while true
        invariant Valid() && s == InOrder(root)
        invariant !haveNew ==> root == old(root)
        invariant haveNew ==> s == InOrder(meanwhile) && gotNode && gotPolicy && Spanned(old(InOrder(root)), start, end)
        decreases !haveNew
      {
        var allocNew := ClearRange(start, end, haveNew);
        if !allocNew { break; }
        if !gotNode { return -ENOMEM; }
        if !gotPolicy { return -ENOMEM; }
        haveNew, root, s := true, meanwhile, InOrder(meanwhile);
      }
      ret := 0;
      NothingInside(InOrder(root), start, end);
      if pol.Some? {
        ghost var c := InOrder(root);
        SpInsert(Range(start, end, pol.value));
        InsertedOverrides(InOrder(root), c, Range(start, end, pol.value));
      }
    }
  }

  lemma {:induction false} PastTheEnd(s: seq<Range>, x: nat)
    requires Proper(s) && x + 1 >= WORD
    ensures PolicyAt(s, x) == None
  {
    if s != [] { PastTheEnd(s[1..], x); }
  }
}
