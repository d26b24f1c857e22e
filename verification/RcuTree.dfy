/**
The rcu_node combining tree of tree RCU as a state machine.

A grace period is started, recorded in the nodes one node at a time, waited for
while quiescent states climb the tree one lock-held hop at a time, and then
recorded as completed one node at a time.  CPUs enter and leave the tree's
`qsmaskinit` masks concurrently, one hop at a time, under `onoff_mutex`.
Every lock-held section of the kernel code is one step.

Masks are sets of children: a leaf's bits are CPU numbers, an interior node's
bits are the indices of its child nodes.
*/
module RcuTree {

  /** The `node[]` array's shape: parents precede children, node 0 is the root. */
  datatype Topology = Topology(parent: seq<nat>, leafOf: seq<nat>)

  predicate IsLeaf(tp: Topology, n: nat) {
    forall m :: 0 < m < |tp.parent| ==> tp.parent[m] != n
  }

  predicate ValidTopology(tp: Topology) {
    && 0 < |tp.parent|
    && (forall n :: 0 < n < |tp.parent| ==> tp.parent[n] < n)
    && (forall c :: 0 <= c < |tp.leafOf| ==> tp.leafOf[c] < |tp.parent| && IsLeaf(tp, tp.leafOf[c]))
  }

  /** Is `b` a bit of node `n`'s masks? */
  predicate IsBit(tp: Topology, n: nat, b: nat) {
    if IsLeaf(tp, n) then b < |tp.leafOf| && tp.leafOf[b] == n
    else 0 < b < |tp.parent| && tp.parent[b] == n
  }

  datatype Node = Node(gpnum: nat, completed: nat, qsmask: set<nat>, qsmaskinit: set<nat>)

  /** Where the grace-period kthread stands; `Init` holds `onoff_mutex`. */
  datatype Kthread = Idle | Starting | Init(next: nat) | Waiting | Cleanup(next: nat)

  /** The CPU-hotplug operation in flight, holding `onoff_mutex`:
      it is about to lock node `at` and change the bit `bit` there. */
  datatype Hotplug = NoHotplug | Online(cpu: nat, at: nat, bit: nat) | Offline(cpu: nat, at: nat, bit: nat)

  /** `walks` holds the upward reports in flight: each has emptied the node it
      maps to and is about to lock that node's parent. */
  datatype Tree = Tree(tp: Topology, gpnum: nat, completed: nat, nodes: seq<Node>,
                       kt: Kthread, hp: Hotplug, walks: map<nat, nat>)

  // ----- the steps -----

  function SetNode(t: Tree, n: nat, node: Node): Tree
    requires n < |t.nodes|
  {
    t.(nodes := t.nodes[n := node])
  }

  predicate CanGpStart(t: Tree) { t.kt.Idle? && t.gpnum == t.completed }

  function GpStart(t: Tree): Tree {
    t.(gpnum := t.gpnum + 1, kt := Starting)
  }

  predicate CanLockOnoff(t: Tree) { t.kt.Starting? && t.hp.NoHotplug? }

  function LockOnoff(t: Tree): Tree { t.(kt := Init(0)) }

  predicate CanInitNode(t: Tree) { t.kt.Init? && t.kt.next < |t.nodes| }

  function InitNode(t: Tree): Tree
    requires CanInitNode(t)
  {
    var n := t.kt.next;
    SetNode(t, n, t.nodes[n].(qsmask := t.nodes[n].qsmaskinit, gpnum := t.gpnum, completed := t.completed))
      .(kt := Init(n + 1))
  }

  predicate CanInitDone(t: Tree) { t.kt.Init? && t.kt.next == |t.nodes| }

  function InitDone(t: Tree): Tree { t.(kt := Waiting) }

  /** One iteration of rcu_report_qs_rnp under node `n`'s lock, run by walker `w`. */
  function Hop(t: Tree, n: nat, mask: set<nat>, w: nat): Tree
    requires n < |t.nodes|
  {
    var node := t.nodes[n];
    if node.qsmask * mask == {} then t                       // reported before
    else
      var t' := SetNode(t, n, node.(qsmask := node.qsmask - mask));
      if node.qsmask - mask != {} then t'                    // the node still waits for others
      else if n == 0 then t'                                 // rcu_report_qs_rsp wakes the kthread
      else t'.(walks := t'.walks[w := n])
  }

  /** A report of quiescent states to a leaf. */
  predicate CanReport(t: Tree, n: nat, mask: set<nat>, w: nat) {
    n < |t.nodes| && IsLeaf(t.tp, n) && w !in t.walks && mask != {} && mask <= t.nodes[n].qsmask
  }

  function Report(t: Tree, n: nat, mask: set<nat>, w: nat): Tree
    requires CanReport(t, n, mask, w)
  {
    Hop(t, n, mask, w)
  }

  predicate CanWalk(t: Tree, w: nat) {
    w in t.walks && 0 < t.walks[w] < |t.tp.parent| && t.tp.parent[t.walks[w]] < |t.nodes|
  }

  /** A report in flight locks the parent of the node it emptied. */
  function Walk(t: Tree, w: nat): Tree
    requires CanWalk(t, w)
  {
    var child := t.walks[w];
    Hop(t.(walks := t.walks - {w}), t.tp.parent[child], {child}, w)
  }

  predicate CanGpEnd(t: Tree) { t.kt.Waiting? && 0 < |t.nodes| && t.nodes[0].qsmask == {} }

  function GpEnd(t: Tree): Tree { t.(kt := Cleanup(0)) }

  predicate CanCleanupNode(t: Tree) { t.kt.Cleanup? && t.kt.next < |t.nodes| }

  function CleanupNode(t: Tree): Tree
    requires CanCleanupNode(t)
  {
    var n := t.kt.next;
    SetNode(t, n, t.nodes[n].(completed := t.gpnum)).(kt := Cleanup(n + 1))
  }

  predicate CanCleanupDone(t: Tree) { t.kt.Cleanup? && t.kt.next == |t.nodes| }

  function CleanupDone(t: Tree): Tree { t.(completed := t.gpnum, kt := Idle) }

  /** rcu_init_percpu_data takes `onoff_mutex` and starts at the CPU's leaf. */
  predicate CanOnline(t: Tree, cpu: nat) {
    t.hp.NoHotplug? && !t.kt.Init? && cpu < |t.tp.leafOf|
  }

  function OnlineStart(t: Tree, cpu: nat): Tree
    requires CanOnline(t, cpu)
  {
    t.(hp := Online(cpu, t.tp.leafOf[cpu], cpu))
  }

  predicate CanOnlineHop(t: Tree) {
    t.hp.Online? && t.hp.at < |t.nodes| == |t.tp.parent| && (t.hp.at > 0 ==> t.tp.parent[t.hp.at] < |t.nodes|)
  }

  function OnlineHop(t: Tree): Tree
    requires CanOnlineHop(t)
  {
    var n := t.hp.at;
    var t' := SetNode(t, n, t.nodes[n].(qsmaskinit := t.nodes[n].qsmaskinit + {t.hp.bit}));
    if n == 0 || n in t'.nodes[t.tp.parent[n]].qsmaskinit then t'.(hp := NoHotplug)
    else t'.(hp := Online(t.hp.cpu, t.tp.parent[n], n))
  }

  /** rcu_cleanup_dead_cpu takes `onoff_mutex` and starts at the CPU's leaf. */
  predicate CanOffline(t: Tree, cpu: nat) {
    && t.hp.NoHotplug? && !t.kt.Init? && cpu < |t.tp.leafOf|
    && t.tp.leafOf[cpu] < |t.nodes| && cpu in t.nodes[t.tp.leafOf[cpu]].qsmaskinit
  }

  function OfflineStart(t: Tree, cpu: nat): Tree
    requires CanOffline(t, cpu)
  {
    t.(hp := Offline(cpu, t.tp.leafOf[cpu], cpu))
  }

  predicate CanOfflineHop(t: Tree) {
    t.hp.Offline? && t.hp.at < |t.nodes| == |t.tp.parent| && (t.hp.at > 0 ==> t.tp.parent[t.hp.at] < |t.nodes|)
  }

  function OfflineHop(t: Tree): Tree
    requires CanOfflineHop(t)
  {
    var n := t.hp.at;
    var left := t.nodes[n].qsmaskinit - {t.hp.bit};
    var t' := SetNode(t, n, t.nodes[n].(qsmaskinit := left));
    if left != {} || n == 0 then t'.(hp := NoHotplug)
    else t'.(hp := Offline(t.hp.cpu, t.tp.parent[n], n))
  }

  ghost predicate Next(t: Tree, t': Tree) {
    || (CanGpStart(t) && t' == GpStart(t))
    || (CanLockOnoff(t) && t' == LockOnoff(t))
    || (CanInitNode(t) && t' == InitNode(t))
    || (CanInitDone(t) && t' == InitDone(t))
    || (exists n, mask, w :: CanReport(t, n, mask, w) && t' == Report(t, n, mask, w))
    || (exists w :: CanWalk(t, w) && t' == Walk(t, w))
    || (CanGpEnd(t) && t' == GpEnd(t))
    || (CanCleanupNode(t) && t' == CleanupNode(t))
    || (CanCleanupDone(t) && t' == CleanupDone(t))
    || (exists cpu :: CanOnline(t, cpu) && t' == OnlineStart(t, cpu))
    || (CanOnlineHop(t) && t' == OnlineHop(t))
    || (exists cpu :: CanOffline(t, cpu) && t' == OfflineStart(t, cpu))
    || (CanOfflineHop(t) && t' == OfflineHop(t))
  }

  /** rcu_init_one: every node idle and empty, no CPU online yet. */
  ghost predicate Initial(t: Tree) {
    && ValidTopology(t.tp)
    && |t.nodes| == |t.tp.parent|
    && t.gpnum == t.completed
    && (forall n :: 0 <= n < |t.nodes| ==> t.nodes[n] == Node(t.gpnum, t.completed, {}, {}))
    && t.kt.Idle? && t.hp.NoHotplug? && t.walks == map[]
  }

  // ----- the invariant -----

  /** Has the current grace period been recorded in node `n`? */
  predicate Begun(t: Tree, n: nat) {
    match t.kt
    case Idle => false
    case Starting => false
    case Init(i) => n < i
    case Waiting => true
    case Cleanup(_) => true
  }

  /** Has the end of the current grace period been recorded in node `n`? */
  predicate Ended(t: Tree, n: nat) { t.kt.Cleanup? && n < t.kt.next }

  /** Is the current grace period still collecting quiescent states? */
  predicate Active(t: Tree) { t.kt.Init? || t.kt.Waiting? }

  ghost predicate HasWalk(t: Tree, n: nat) { exists w :: w in t.walks && t.walks[w] == n }

  ghost predicate Shape(t: Tree) {
    && ValidTopology(t.tp)
    && |t.nodes| == |t.tp.parent|
    && (t.kt.Init? || t.kt.Cleanup? ==> t.kt.next <= |t.nodes|)
    && (t.kt.Init? ==> t.hp.NoHotplug?)
    && t.gpnum == (if t.kt.Idle? then t.completed else t.completed + 1)
  }

  ghost predicate NumbersAt(t: Tree, n: nat)
    requires n < |t.nodes|
  {
    && t.nodes[n].gpnum == (if Begun(t, n) then t.gpnum else t.completed)
    && t.nodes[n].completed == (if Ended(t, n) then t.gpnum else t.completed)
  }

  ghost predicate BitsAt(t: Tree, n: nat)
    requires n < |t.nodes|
  {
    && (forall b :: b in t.nodes[n].qsmask ==> IsBit(t.tp, n, b))
    && (forall b :: b in t.nodes[n].qsmaskinit ==> IsBit(t.tp, n, b))
  }

  /** A node is awaited by its parent exactly while it still waits for someone
      itself or its own report is on its way up. */
  ghost predicate MaskAt(t: Tree, n: nat)
    requires Shape(t) && n < |t.nodes|
  {
    && (!(Active(t) && Begun(t, n)) ==> t.nodes[n].qsmask == {} && !HasWalk(t, n))
    && (HasWalk(t, n) ==> 0 < n && t.nodes[n].qsmask == {})
    && (0 < n && Active(t) && Begun(t, n) ==>
          ((t.nodes[n].qsmask != {} || HasWalk(t, n)) <==> n in t.nodes[t.tp.parent[n]].qsmask))
    && (0 < n && Active(t) && !Begun(t, n) && Begun(t, t.tp.parent[n]) ==>
          (n in t.nodes[t.tp.parent[n]].qsmask <==> n in t.nodes[t.tp.parent[n]].qsmaskinit))
  }

  ghost predicate WalksOk(t: Tree) {
    && (forall w :: w in t.walks ==> 0 < t.walks[w] < |t.nodes|)
    && (forall v, w :: v in t.walks && w in t.walks && t.walks[v] == t.walks[w] ==> v == w)
  }

  /** The hotplug operation's pending child, if it has left the leaf level. */
  predicate Pending(t: Tree, n: nat) {
    match t.hp
    case NoHotplug => false
    case Online(cpu, at, bit) => cpu < |t.tp.leafOf| && at != t.tp.leafOf[cpu] && n == bit
    case Offline(cpu, at, bit) => cpu < |t.tp.leafOf| && at != t.tp.leafOf[cpu] && n == bit
  }

  /** A node has CPUs exactly if its parent knows, but for the hotplug
      operation's pending child, where the two disagree in the known direction. */
  ghost predicate InitMaskAt(t: Tree, n: nat)
    requires Shape(t) && 0 < n < |t.nodes|
  {
    if Pending(t, n) then
      if t.hp.Online? then t.nodes[n].qsmaskinit != {} && n !in t.nodes[t.tp.parent[n]].qsmaskinit
      else t.nodes[n].qsmaskinit == {} && n in t.nodes[t.tp.parent[n]].qsmaskinit
    else t.nodes[n].qsmaskinit != {} <==> n in t.nodes[t.tp.parent[n]].qsmaskinit
  }

  ghost predicate HotplugOk(t: Tree)
    requires Shape(t)
  {
    match t.hp
    case NoHotplug => true
    case Online(cpu, at, bit) => cpu < |t.tp.leafOf| && at < |t.nodes| && HopBit(t.tp, cpu, at, bit)
    case Offline(cpu, at, bit) =>
      cpu < |t.tp.leafOf| && at < |t.nodes| && HopBit(t.tp, cpu, at, bit) && bit in t.nodes[at].qsmaskinit
  }

  predicate HopBit(tp: Topology, cpu: nat, at: nat, bit: nat)
    requires cpu < |tp.leafOf|
  {
    if at == tp.leafOf[cpu] then bit == cpu else 0 < bit < |tp.parent| && tp.parent[bit] == at
  }

  ghost predicate Inv(t: Tree) {
    && Shape(t)
    && WalksOk(t)
    && HotplugOk(t)
    && (forall n :: 0 <= n < |t.nodes| ==> NumbersAt(t, n))
    && (forall n :: 0 <= n < |t.nodes| ==> BitsAt(t, n))
    && (forall n :: 0 <= n < |t.nodes| ==> MaskAt(t, n))
    && (forall n :: 0 < n < |t.nodes| ==> InitMaskAt(t, n))
  }

  lemma {:induction false} InitialInv(t: Tree)
    requires Initial(t)
    ensures Inv(t)
  {
  }

  // ----- every step keeps the invariant -----

  /** A step that leaves the nodes, the reports and the hotplug operation alone. */
  lemma {:induction false} KthreadOnlyKeeps(t: Tree, t': Tree)
    requires Inv(t) && Shape(t')
    requires t' == t.(gpnum := t'.gpnum, completed := t'.completed, kt := t'.kt)
    requires forall n :: 0 <= n < |t.nodes| ==> NumbersAt(t', n)
    requires forall n :: 0 <= n < |t.nodes| ==> (Active(t) && Begun(t, n) <==> Active(t') && Begun(t', n))
    requires Active(t') ==> (t'.kt.Init? && t'.kt.next == 0) || (t.kt.Init? && t.kt.next == |t.nodes|)
    ensures Inv(t')
  {
    forall n | 0 <= n < |t.nodes| ensures MaskAt(t', n) {
      assert MaskAt(t, n);
      assert HasWalk(t', n) == HasWalk(t, n);
    }
    forall n | 0 <= n < |t.nodes| ensures BitsAt(t', n) { assert BitsAt(t, n); }
    forall n | 0 < n < |t.nodes| ensures InitMaskAt(t', n) { assert InitMaskAt(t, n); }
  }

  lemma {:induction false} GpStartKeeps(t: Tree)
    requires Inv(t) && CanGpStart(t)
    ensures Inv(GpStart(t))
  {
    forall n | 0 <= n < |t.nodes| ensures NumbersAt(GpStart(t), n) { assert NumbersAt(t, n); }
    KthreadOnlyKeeps(t, GpStart(t));
  }

  lemma {:induction false} LockOnoffKeeps(t: Tree)
    requires Inv(t) && CanLockOnoff(t)
    ensures Inv(LockOnoff(t))
  {
    forall n | 0 <= n < |t.nodes| ensures NumbersAt(LockOnoff(t), n) { assert NumbersAt(t, n); }
    KthreadOnlyKeeps(t, LockOnoff(t));
  }

  lemma {:induction false} InitDoneKeeps(t: Tree)
    requires Inv(t) && CanInitDone(t)
    ensures Inv(InitDone(t))
  {
    forall n | 0 <= n < |t.nodes| ensures NumbersAt(InitDone(t), n) { assert NumbersAt(t, n); }
    KthreadOnlyKeeps(t, InitDone(t));
  }

  lemma {:induction false} CleanupDoneKeeps(t: Tree)
    requires Inv(t) && CanCleanupDone(t)
    ensures Inv(CleanupDone(t))
  {
    forall n | 0 <= n < |t.nodes| ensures NumbersAt(CleanupDone(t), n) { assert NumbersAt(t, n); }
    KthreadOnlyKeeps(t, CleanupDone(t));
  }

  lemma {:induction false} InitNodeKeeps(t: Tree)
    requires Inv(t) && CanInitNode(t)
    ensures Inv(InitNode(t))
  {
    var t', k := InitNode(t), t.kt.next;
    forall n | 0 <= n < |t.nodes| ensures NumbersAt(t', n) { assert NumbersAt(t, n); }
    forall n | 0 <= n < |t.nodes| ensures BitsAt(t', n) { assert BitsAt(t, n); }
    forall n | 0 < n < |t.nodes| ensures InitMaskAt(t', n) { assert InitMaskAt(t, n); }
    forall n | 0 <= n < |t.nodes| ensures MaskAt(t', n) {
      assert MaskAt(t, n);
      assert HasWalk(t', n) == HasWalk(t, n);
      if n > 0 { assert InitMaskAt(t, n); }
    }
  }

  lemma {:induction false} CleanupNodeKeeps(t: Tree)
    requires Inv(t) && CanCleanupNode(t)
    ensures Inv(CleanupNode(t))
  {
    var t' := CleanupNode(t);
    forall n | 0 <= n < |t.nodes| ensures NumbersAt(t', n) { assert NumbersAt(t, n); }
    forall n | 0 <= n < |t.nodes| ensures BitsAt(t', n) { assert BitsAt(t, n); }
    forall n | 0 < n < |t.nodes| ensures InitMaskAt(t', n) { assert InitMaskAt(t, n); }
    forall n | 0 <= n < |t.nodes| ensures MaskAt(t', n) {
      assert MaskAt(t, n);
      assert HasWalk(t', n) == HasWalk(t, n);
    }
  }

  /** The combining-tree theorem: once the root is empty nobody is awaited
      anywhere and no report is in flight. */
  lemma {:induction false} RootEmptyMeansAllEmpty(t: Tree, n: nat)
    requires Inv(t) && t.kt.Waiting? && t.nodes[0].qsmask == {} && n < |t.nodes|
    ensures t.nodes[n].qsmask == {} && !HasWalk(t, n)
    decreases n
  {
    assert MaskAt(t, n);
    if n > 0 { RootEmptyMeansAllEmpty(t, t.tp.parent[n]); }
  }

  lemma {:induction false} GpEndKeeps(t: Tree)
    requires Inv(t) && CanGpEnd(t)
    ensures Inv(GpEnd(t))
    ensures t.walks == map[]
  {
    var t' := GpEnd(t);
    forall n | 0 <= n < |t.nodes| ensures t.nodes[n].qsmask == {} && !HasWalk(t, n) { RootEmptyMeansAllEmpty(t, n); }
    assert forall w :: w in t.walks ==> HasWalk(t, t.walks[w]);
    forall n | 0 <= n < |t.nodes| ensures NumbersAt(t', n) { assert NumbersAt(t, n); }
    forall n | 0 <= n < |t.nodes| ensures BitsAt(t', n) { assert BitsAt(t, n); }
    forall n | 0 < n < |t.nodes| ensures InitMaskAt(t', n) { assert InitMaskAt(t, n); }
    forall n | 0 <= n < |t.nodes| ensures MaskAt(t', n) {
      assert MaskAt(t, n);
      assert HasWalk(t', n) == HasWalk(t, n);
    }
  }

  /** The state before one iteration of rcu_report_qs_rnp at node `n`: the
      invariant, except that `n`'s children in `mask` owe it nothing more. */
  ghost predicate BeforeHop(t: Tree, n: nat, mask: set<nat>) {
    && Shape(t) && WalksOk(t) && HotplugOk(t) && n < |t.nodes|
    && (forall m :: 0 <= m < |t.nodes| ==> NumbersAt(t, m))
    && (forall m :: 0 <= m < |t.nodes| ==> BitsAt(t, m))
    && (forall m :: 0 < m < |t.nodes| ==> InitMaskAt(t, m))
    && Active(t) && Begun(t, n)
    && mask <= t.nodes[n].qsmask && mask != {}
    && (forall m :: 0 <= m < |t.nodes| ==> if Reported(t, n, mask, m) then Settled(t, m) else MaskAt(t, m))
  }

  predicate Reported(t: Tree, n: nat, mask: set<nat>, m: nat) {
    0 < m < |t.tp.parent| && t.tp.parent[m] == n && m in mask
  }

  ghost predicate Settled(t: Tree, m: nat)
    requires m < |t.nodes|
  {
    Begun(t, m) && t.nodes[m].qsmask == {} && !HasWalk(t, m)
  }

  lemma {:induction false} HopMask(t: Tree, n: nat, mask: set<nat>, w: nat, m: nat)
    requires BeforeHop(t, n, mask) && w !in t.walks && m < |t.nodes|
    ensures Shape(Hop(t, n, mask, w)) && MaskAt(Hop(t, n, mask, w), m)
  {
    var t' := Hop(t, n, mask, w);
    assert t.nodes[n].qsmask * mask == mask;
    var emptied := t.nodes[n].qsmask - mask == {} && n > 0;
    WalkAdded(t, t', m, n, w, emptied);
    if m == n {
      assert MaskAt(t, n);
    } else if Reported(t, n, mask, m) {
      assert Settled(t, m);
    } else {
      assert MaskAt(t, m);
      assert 0 < m && t.tp.parent[m] == n ==> m !in mask;
    }
  }

  /** What rcu_report_qs_rnp does at a node keeps the invariant. */
  lemma {:induction false} HopKeeps(t: Tree, n: nat, mask: set<nat>, w: nat)
    requires BeforeHop(t, n, mask) && w !in t.walks
    ensures Inv(Hop(t, n, mask, w))
  {
    var t' := Hop(t, n, mask, w);
    assert t.nodes[n].qsmask * mask == mask;
    assert MaskAt(t, n);
    assert forall v :: v in t.walks ==> HasWalk(t, t.walks[v]);
    forall m | 0 <= m < |t.nodes| ensures NumbersAt(t', m) && BitsAt(t', m) && (m > 0 ==> InitMaskAt(t', m)) {
      HopRest(t, n, mask, w, m);
    }
    forall m | 0 <= m < |t.nodes| ensures MaskAt(t', m) { HopMask(t, n, mask, w, m); }
    hide NumbersAt, BitsAt, InitMaskAt, MaskAt;
  }

  lemma {:induction false} HopRest(t: Tree, n: nat, mask: set<nat>, w: nat, m: nat)
    requires BeforeHop(t, n, mask) && w !in t.walks && m < |t.nodes|
    ensures var t' := Hop(t, n, mask, w);
      Shape(t') && NumbersAt(t', m) && BitsAt(t', m) && (m > 0 ==> InitMaskAt(t', m))
  {
    assert NumbersAt(t, m) && BitsAt(t, m) && (m > 0 ==> InitMaskAt(t, m));
  }

  lemma {:induction false} WalkAdded(t: Tree, t': Tree, m: nat, n: nat, w: nat, added: bool)
    requires w !in t.walks
    requires t'.walks == if added then t.walks[w := n] else t.walks
    ensures HasWalk(t', m) <==> (HasWalk(t, m) || (added && m == n))
  {
    if HasWalk(t, m) {
      var v :| v in t.walks && t.walks[v] == m;
      assert v in t'.walks && t'.walks[v] == m;
    }
    if added { assert w in t'.walks && t'.walks[w] == n; }
  }

  lemma {:induction false} ReportKeeps(t: Tree, n: nat, mask: set<nat>, w: nat)
    requires Inv(t) && CanReport(t, n, mask, w)
    ensures Inv(Report(t, n, mask, w))
  {
    assert MaskAt(t, n);
    HopKeeps(t, n, mask, w);
  }

  lemma {:induction false} WalkKeeps(t: Tree, w: nat)
    requires Inv(t) && CanWalk(t, w)
    ensures Inv(Walk(t, w))
  {
    var child := t.walks[w];
    var n := t.tp.parent[child];
    assert HasWalk(t, child) && MaskAt(t, child);
    var u := t.(walks := t.walks - {w});
    forall m | 0 <= m < |t.nodes| ensures HasWalk(u, m) <==> (HasWalk(t, m) && m != child) {
      WalkAdded(u, t, m, child, w, true);
    }
    forall m | 0 <= m < |t.nodes| ensures NumbersAt(u, m) && BitsAt(u, m) { assert NumbersAt(t, m) && BitsAt(t, m); }
    forall m | 0 < m < |t.nodes| ensures InitMaskAt(u, m) { assert InitMaskAt(t, m); }
    forall m | 0 <= m < |t.nodes| && m != child ensures MaskAt(u, m) { assert MaskAt(t, m); }
    HopKeeps(u, n, {child}, w);
  }

  // ----- CPU hotplug -----

  /** A hotplug step changes one node's qsmaskinit, and not while a grace period is being recorded. */
  lemma {:induction false} HotplugMasks(t: Tree, t': Tree, k: nat)
    requires Inv(t) && Shape(t') && k < |t.nodes| == |t'.nodes| && !t.kt.Init?
    requires t' == t.(hp := t'.hp, nodes := t.nodes[k := t.nodes[k].(qsmaskinit := t'.nodes[k].qsmaskinit)])
    requires forall b :: b in t'.nodes[k].qsmaskinit ==> IsBit(t.tp, k, b)
    ensures forall n :: 0 <= n < |t.nodes| ==> NumbersAt(t', n)
    ensures forall n :: 0 <= n < |t.nodes| ==> BitsAt(t', n)
    ensures forall n :: 0 <= n < |t.nodes| ==> MaskAt(t', n)
    ensures WalksOk(t')
  {
    forall n | 0 <= n < |t.nodes| ensures NumbersAt(t', n) && BitsAt(t', n) && MaskAt(t', n) {
      assert NumbersAt(t, n) && BitsAt(t, n) && MaskAt(t, n);
      assert HasWalk(t', n) == HasWalk(t, n);
    }
  }

  lemma {:induction false} HotplugStartKeeps(t: Tree, cpu: nat, t': Tree)
    requires Inv(t)
    requires (CanOnline(t, cpu) && t' == OnlineStart(t, cpu)) || (CanOffline(t, cpu) && t' == OfflineStart(t, cpu))
    ensures Inv(t')
  {
    assert t' == t.(hp := t'.hp, nodes := t.nodes[0 := t.nodes[0].(qsmaskinit := t'.nodes[0].qsmaskinit)]);
    assert BitsAt(t, 0);
    HotplugMasks(t, t', 0);
    forall n | 0 < n < |t.nodes| ensures InitMaskAt(t', n) { assert InitMaskAt(t, n); }
  }

  lemma {:induction false} OnlineHopKeeps(t: Tree)
    requires Inv(t) && CanOnlineHop(t)
    ensures Inv(OnlineHop(t))
  {
    var t', k := OnlineHop(t), t.hp.at;
    assert BitsAt(t, k);
    HotplugMasks(t, t', k);
    forall n | 0 < n < |t.nodes| ensures InitMaskAt(t', n) { assert InitMaskAt(t, n); }
  }

  lemma {:induction false} OfflineHopKeeps(t: Tree)
    requires Inv(t) && CanOfflineHop(t)
    ensures Inv(OfflineHop(t))
  {
    var t', k := OfflineHop(t), t.hp.at;
    assert BitsAt(t, k);
    assert k > 0 ==> InitMaskAt(t, k);
    HotplugMasks(t, t', k);
    forall n | 0 < n < |t.nodes| ensures InitMaskAt(t', n) { assert InitMaskAt(t, n); }
  }

  // ----- whole runs -----

  lemma {:induction false} NextKeeps(t: Tree, t': Tree)
    requires Inv(t) && Next(t, t')
    ensures Inv(t')
  {
    if CanGpStart(t) && t' == GpStart(t) { GpStartKeeps(t); }
    else if CanLockOnoff(t) && t' == LockOnoff(t) { LockOnoffKeeps(t); }
    else if CanInitNode(t) && t' == InitNode(t) { InitNodeKeeps(t); }
    else if CanInitDone(t) && t' == InitDone(t) { InitDoneKeeps(t); }
    else if n, mask, w :| CanReport(t, n, mask, w) && t' == Report(t, n, mask, w) { ReportKeeps(t, n, mask, w); }
    else if w :| CanWalk(t, w) && t' == Walk(t, w) { WalkKeeps(t, w); }
    else if CanGpEnd(t) && t' == GpEnd(t) { GpEndKeeps(t); }
    else if CanCleanupNode(t) && t' == CleanupNode(t) { CleanupNodeKeeps(t); }
    else if CanCleanupDone(t) && t' == CleanupDone(t) { CleanupDoneKeeps(t); }
    else if cpu :| CanOnline(t, cpu) && t' == OnlineStart(t, cpu) { HotplugStartKeeps(t, cpu, t'); }
    else if CanOnlineHop(t) && t' == OnlineHop(t) { OnlineHopKeeps(t); }
    else if cpu :| CanOffline(t, cpu) && t' == OfflineStart(t, cpu) { HotplugStartKeeps(t, cpu, t'); }
    else { OfflineHopKeeps(t); }
  }

  /** A run of the machine; its last state is a reachable state. */
  ghost predicate IsRun(run: seq<Tree>) {
    && run != []
    && if |run| == 1 then Initial(run[0])
       else IsRun(run[..|run| - 1]) && Next(run[|run| - 2], run[|run| - 1])
  }

  lemma {:induction false} RunKeeps(run: seq<Tree>)
    requires IsRun(run)
    ensures Inv(run[|run| - 1])
  {
    if |run| == 1 {
      InitialInv(run[0]);
    } else {
      RunKeeps(run[..|run| - 1]);
      NextKeeps(run[|run| - 2], run[|run| - 1]);
    }
  }

  /** In every reachable state every node's numbers lie between the global ones,
      which are never more than one apart. */
  lemma {:induction false} NumberChain(run: seq<Tree>)
    requires IsRun(run)
    ensures var t := run[|run| - 1];
            forall n :: 0 <= n < |t.nodes| ==>
              t.completed <= t.nodes[n].completed <= t.nodes[n].gpnum <= t.gpnum <= t.completed + 1
  {
    RunKeeps(run);
    var t := run[|run| - 1];
    forall n | 0 <= n < |t.nodes|
      ensures t.completed <= t.nodes[n].completed <= t.nodes[n].gpnum <= t.gpnum <= t.completed + 1
    {
      assert NumbersAt(t, n);
    }
  }

  /** In every reachable state a waiting child is awaited by its parent and, in the end, by the root. */
  lemma {:induction false} WaitingChildIsAwaited(run: seq<Tree>)
    requires IsRun(run)
    ensures var t := run[|run| - 1];
            && Shape(t)
            && forall n :: 0 < n < |t.nodes| && t.nodes[n].qsmask != {} ==>
                 n in t.nodes[t.tp.parent[n]].qsmask && t.nodes[0].qsmask != {}
  {
    RunKeeps(run);
    var t := run[|run| - 1];
    forall n | 0 < n < |t.nodes| && t.nodes[n].qsmask != {}
      ensures n in t.nodes[t.tp.parent[n]].qsmask && t.nodes[0].qsmask != {}
    {
      RootAwaits(t, n);
    }
  }

  lemma {:induction false} RootAwaits(t: Tree, n: nat)
    requires Inv(t) && n < |t.nodes| && (t.nodes[n].qsmask != {} || HasWalk(t, n))
    ensures t.nodes[0].qsmask != {}
    ensures n > 0 ==> n in t.nodes[t.tp.parent[n]].qsmask
    decreases n
  {
    assert MaskAt(t, n);
    if n > 0 { RootAwaits(t, t.tp.parent[n]); }
  }

  /** In every reachable state the code's own warnings stay silent: a node is initialised only
      when it has caught up with the last grace period; a report in flight finds its bit still set in
      the parent and the child it emptied still empty; no report, and so no emptying of the root, happens
      outside a grace period; and the grace period cannot be declared over under a report in flight. */
  lemma {:induction false} WarningsSilent(run: seq<Tree>)
    requires IsRun(run)
    ensures var t := run[|run| - 1];
            && (CanInitNode(t) ==> t.nodes[t.kt.next].completed == t.completed)
            && (forall w :: w in t.walks ==>
                  && CanWalk(t, w) && t.walks[w] < |t.nodes|
                  && t.nodes[t.walks[w]].qsmask == {}
                  && t.walks[w] in t.nodes[t.tp.parent[t.walks[w]]].qsmask
                  && t.gpnum != t.completed && !CanGpEnd(t))
            && (forall n, mask, w :: CanReport(t, n, mask, w) ==> t.gpnum != t.completed)
  {
    RunKeeps(run);
    var t := run[|run| - 1];
    if CanInitNode(t) { assert NumbersAt(t, t.kt.next); }
    forall w | w in t.walks
      ensures && CanWalk(t, w) && t.walks[w] < |t.nodes|
              && t.nodes[t.walks[w]].qsmask == {}
              && t.walks[w] in t.nodes[t.tp.parent[t.walks[w]]].qsmask
              && t.gpnum != t.completed && !CanGpEnd(t)
    {
      var n := t.walks[w];
      assert HasWalk(t, n) && MaskAt(t, n);
      RootAwaits(t, n);
    }
    forall n, mask, w | CanReport(t, n, mask, w) ensures t.gpnum != t.completed { assert MaskAt(t, n); }
  }

  // ----- whom the tree knows -----

  /** Node `m` is `n` or below it. */
  predicate Under(tp: Topology, n: nat, m: nat)
    requires m < |tp.parent|
    decreases m
  {
    m == n || (0 < m && tp.parent[m] < m && Under(tp, n, tp.parent[m]))
  }

  /** While no hotplug operation is in flight, a node's mask of CPUs and children is nonempty exactly if some leaf below
      it has a CPU. */
  lemma {:induction false} NodeKnowsItsLeaves(t: Tree, n: nat)
    requires Inv(t) && t.hp.NoHotplug? && n < |t.nodes|
    ensures t.nodes[n].qsmaskinit != {} <==>
      exists l :: 0 <= l < |t.nodes| && IsLeaf(t.tp, l) && Under(t.tp, n, l) && t.nodes[l].qsmaskinit != {}
  {
    if t.nodes[n].qsmaskinit != {} {
      var l := LeafBelow(t, n);
    }
    forall l | 0 <= l < |t.nodes| && Under(t.tp, n, l) && t.nodes[l].qsmaskinit != {}
      ensures t.nodes[n].qsmaskinit != {}
    {
      KnownAbove(t, n, l);
    }
  }

  lemma {:induction false} LeafBelow(t: Tree, n: nat) returns (l: nat)
    requires Inv(t) && t.hp.NoHotplug? && n < |t.nodes| && t.nodes[n].qsmaskinit != {}
    ensures l < |t.nodes| && IsLeaf(t.tp, l) && Under(t.tp, n, l) && t.nodes[l].qsmaskinit != {}
    decreases |t.nodes| - n
  {
    if IsLeaf(t.tp, n) {
      l := n;
    } else {
      var b :| b in t.nodes[n].qsmaskinit;
      assert BitsAt(t, n);
      assert InitMaskAt(t, b);
      l := LeafBelow(t, b);
      UnderParent(t.tp, n, b, l);
    }
  }

  lemma {:induction false} UnderParent(tp: Topology, n: nat, b: nat, m: nat)
    requires 0 < b < |tp.parent| && tp.parent[b] == n < b && m < |tp.parent| && Under(tp, b, m)
    ensures Under(tp, n, m)
    decreases m
  {
    if m != b { UnderParent(tp, n, b, tp.parent[m]); }
  }

  lemma {:induction false} KnownAbove(t: Tree, n: nat, m: nat)
    requires Inv(t) && t.hp.NoHotplug? && m < |t.nodes| && Under(t.tp, n, m) && t.nodes[m].qsmaskinit != {}
    ensures n < |t.nodes| && t.nodes[n].qsmaskinit != {}
    decreases m
  {
    if m != n {
      assert InitMaskAt(t, m);
      KnownAbove(t, n, t.tp.parent[m]);
    }
  }

  // ----- a grace period can always end -----

  /** While the root waits, a leaf waits for a CPU or a report is on its way up. */
  lemma {:induction false} NeverStuck(t: Tree, n: nat)
    requires Inv(t) && t.kt.Waiting? && n < |t.nodes| && t.nodes[n].qsmask != {}
    ensures t.walks != map[] || exists l :: 0 <= l < |t.nodes| && IsLeaf(t.tp, l) && t.nodes[l].qsmask != {}
    decreases |t.nodes| - n
  {
    if !IsLeaf(t.tp, n) {
      var b :| b in t.nodes[n].qsmask;
      assert BitsAt(t, n);
      assert MaskAt(t, b);
      if HasWalk(t, b) {
        var w :| w in t.walks && t.walks[w] == b;
      } else {
        NeverStuck(t, b);
      }
    }
  }

  /** How many bits all nodes together still wait for. */
  ghost function Awaited(nodes: seq<Node>): nat {
    if nodes == [] then 0 else Awaited(nodes[..|nodes| - 1]) + |nodes[|nodes| - 1].qsmask|
  }

  lemma {:induction false} AwaitedUpdate(nodes: seq<Node>, n: nat, node: Node)
    requires n < |nodes|
    ensures Awaited(nodes[n := node]) == Awaited(nodes) - |nodes[n].qsmask| + |node.qsmask|
  {
    var k := |nodes| - 1;
    if n == k {
      assert nodes[n := node][..k] == nodes[..k];
    } else {
      assert nodes[n := node][..k] == nodes[..k][n := node];
      AwaitedUpdate(nodes[..k], n, node);
    }
  }

  /** A report clears its bits, and nothing else in any mask. */
  lemma {:induction false} HopClears(t: Tree, n: nat, mask: set<nat>, w: nat)
    requires n < |t.nodes| && t.nodes[n].qsmask * mask != {}
    ensures var t' := Hop(t, n, mask, w);
      && t'.nodes == t.nodes[n := t.nodes[n].(qsmask := t.nodes[n].qsmask - mask)]
      && Awaited(t'.nodes) < Awaited(t.nodes)
      && t'.kt == t.kt
  {
    var left := t.nodes[n].qsmask - mask;
    AwaitedUpdate(t.nodes, n, t.nodes[n].(qsmask := left));
    var b :| b in t.nodes[n].qsmask * mask;
    assert left <= t.nodes[n].qsmask - {b};
    Smaller(left, t.nodes[n].qsmask - {b});
  }

  lemma {:induction false} Smaller(a: set<nat>, b: set<nat>)
    requires a <= b
    ensures |a| <= |b|
  {
    if a != {} {
      var x :| x in a;
      Smaller(a - {x}, b - {x});
    }
  }

  lemma {:induction false} FreshWalker(s: set<nat>) returns (w: nat)
    ensures forall x :: x in s ==> x < w
  {
    if s == {} {
      w := 0;
    } else {
      var x :| x in s;
      var v := FreshWalker(s - {x});
      w := if x < v then v else x + 1;
      forall y | y in s ensures y < w { assert y == x || y in s - {x}; }
    }
  }

  /** From every state in which a grace period waits, reports alone can end it: `steps` leads to an empty root. */
  lemma {:induction false} CanAlwaysEnd(t: Tree) returns (steps: seq<Tree>)
    requires Inv(t) && t.kt.Waiting?
    ensures steps != [] && steps[0] == t && CanGpEnd(steps[|steps| - 1])
    ensures forall i :: 0 <= i < |steps| - 1 ==> Next(steps[i], steps[i + 1])
    decreases Awaited(t.nodes)
  {
    if t.nodes[0].qsmask == {} {
      steps := [t];
    } else {
      NeverStuck(t, 0);
      var t' := OneReport(t);
      var rest := CanAlwaysEnd(t');
      steps := [t] + rest;
    }
  }

  lemma {:induction false} OneReport(t: Tree) returns (t': Tree)
    requires Inv(t) && t.kt.Waiting?
    requires t.walks != map[] || exists l :: 0 <= l < |t.nodes| && IsLeaf(t.tp, l) && t.nodes[l].qsmask != {}
    ensures Next(t, t') && Inv(t') && t'.kt.Waiting? && Awaited(t'.nodes) < Awaited(t.nodes)
  {
    if t.walks != map[] {
      var w :| w in t.walks;
      var child := t.walks[w];
      assert HasWalk(t, child) && MaskAt(t, child);
      WalkKeeps(t, w);
      assert child in t.nodes[t.tp.parent[child]].qsmask * {child};
      HopClears(t.(walks := t.walks - {w}), t.tp.parent[child], {child}, w);
      t' := Walk(t, w);
    } else {
      var l :| 0 <= l < |t.nodes| && IsLeaf(t.tp, l) && t.nodes[l].qsmask != {};
      var w := FreshWalker(t.walks.Keys);
      ReportKeeps(t, l, t.nodes[l].qsmask, w);
      HopClears(t, l, t.nodes[l].qsmask, w);
      t' := Report(t, l, t.nodes[l].qsmask, w);
    }
  }
}
