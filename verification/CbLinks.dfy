/**
The callback lists of tree RCU as the kernel keeps them: singly linked through
the callbacks' own `next` fields, cut into segments by pointers to the link
cells (`nxttail[]`), and spliced by assigning through those pointers.  Every
operation is proved to do to the list what the corresponding function of
CbList does to the segmented FIFO, and to touch no link cell of another list.
*/
module CbLinks {
  import opened CbList

  /** The address of a link cell: a list head, or the `next` field of a callback. */
  datatype Loc = NoLoc | Nxtlist(cpu: nat) | BatchList(cpu: nat) | OrphanNxtlist | OrphanDonelist | Next(cb: nat)

  datatype Ptr = Null | To(cb: nat)

  const DONE := 0
  const WAIT := 1
  const NEXT_READY := 2
  const NEXT := 3

  /** The link cells of memory. */
  class Memory {
    var cell: map<Loc, Ptr>
    constructor ()
      ensures cell == map[]
    {
      cell := map[];
    }
  }

  /** The address of the cell behind the first `k` callbacks of the list that starts at `head`. */
  function At(head: Loc, cbs: seq<nat>, k: nat): Loc
    requires k <= |cbs|
  {
    if k == 0 then head else Next(cbs[k - 1])
  }

  /** The cell behind the first `k` callbacks points to the next one. */
  predicate Points(cell: map<Loc, Ptr>, head: Loc, cbs: seq<nat>, k: nat)
    requires k <= |cbs|
  {
    var l := At(head, cbs, k);
    l in cell && cell[l] == if k < |cbs| then To(cbs[k]) else Null
  }

  /** The cells reachable from `head` spell out the list `cbs`. */
  ghost predicate Chain(cell: map<Loc, Ptr>, head: Loc, cbs: seq<nat>) {
    forall k :: 0 <= k <= |cbs| ==> Points(cell, head, cbs, k)
  }

  ghost predicate Distinct(cbs: seq<nat>) {
    forall i, j :: 0 <= i < j < |cbs| ==> cbs[i] != cbs[j]
  }

  ghost predicate Disjoint(a: seq<nat>, b: seq<nat>) {
    forall x :: x in a ==> x !in b
  }

  lemma {:induction false} DistinctConcat(a: seq<nat>, b: seq<nat>)
    requires Distinct(a) && Distinct(b) && Disjoint(a, b)
    ensures Distinct(a + b)
  {
    forall i, j | 0 <= i < j < |a + b| ensures (a + b)[i] != (a + b)[j] {
      if i < |a| <= j { assert a[i] in a && b[j - |a|] in b; }
    }
  }

  predicate IsHead(l: Loc) { !l.Next? && !l.NoLoc? }

  /** The cells of a list. */
  predicate Owns(head: Loc, cbs: seq<nat>, l: Loc) {
    l == head || (l.Next? && l.cb in cbs)
  }

  /** A chain depends on its own cells only. */
  lemma {:induction false} ChainFrame(cell: map<Loc, Ptr>, cell': map<Loc, Ptr>, head: Loc, cbs: seq<nat>)
    requires Chain(cell, head, cbs)
    requires forall l :: Owns(head, cbs, l) && l in cell ==> l in cell' && cell'[l] == cell[l]
    ensures Chain(cell', head, cbs)
  {
    forall k | 0 <= k <= |cbs| ensures Points(cell', head, cbs, k) {
      assert Points(cell, head, cbs, k);
      assert Owns(head, cbs, At(head, cbs, k));
    }
  }

  lemma {:induction false} AtInjective(head: Loc, cbs: seq<nat>, i: nat, j: nat)
    requires IsHead(head) && Distinct(cbs) && i <= |cbs| && j <= |cbs|
    ensures At(head, cbs, i) == At(head, cbs, j) <==> i == j
  {
  }

  lemma {:induction false} AtPrepend(head: Loc, cbs: seq<nat>, batch: seq<nat>, k: nat)
    requires batch != [] && k <= |cbs|
    ensures At(head, batch + cbs, |batch| + k) == if k == 0 then Next(batch[|batch| - 1]) else At(head, cbs, k)
  {
  }

  lemma {:induction false} AtInsert(head: Loc, cbs: seq<nat>, k: nat, b: seq<nat>, j: nat)
    requires b != [] && k <= j <= |cbs|
    ensures At(head, cbs[..k] + b + cbs[k..], |b| + j) == if j == k then Next(b[|b| - 1]) else At(head, cbs, j)
  {
  }

  lemma {:induction false} AtApart(h1: Loc, a: seq<nat>, i: nat, h2: Loc, b: seq<nat>, j: nat)
    requires Apart(h1, a, h2, b) && i <= |a| && j <= |b|
    ensures At(h1, a, i) != At(h2, b, j)
  {
    if i > 0 && j > 0 { assert a[i - 1] in a && b[j - 1] in b; }
  }

  /** A CPU's two lists, the registered callbacks and the batch being invoked, are laid out in memory. */
  ghost predicate Cells(cell: map<Loc, Ptr>, cpu: nat, cbs: seq<nat>, batch: seq<nat>) {
    && Distinct(cbs) && Distinct(batch) && Disjoint(cbs, batch)
    && Chain(cell, Nxtlist(cpu), cbs)
    && Chain(cell, BatchList(cpu), batch)
  }

  /** No cell outside the two lists has changed. */
  ghost predicate Framed(cell: map<Loc, Ptr>, cell': map<Loc, Ptr>, cpu: nat, cbs: seq<nat>, batch: seq<nat>) {
    forall l :: l in cell && !Owns(Nxtlist(cpu), cbs, l) && !Owns(BatchList(cpu), batch, l) ==>
      l in cell' && cell'[l] == cell[l]
  }

  lemma {:induction false} ChainAppend(cell: map<Loc, Ptr>, head: Loc, cbs: seq<nat>, x: nat)
    requires IsHead(head) && Chain(cell, head, cbs) && Distinct(cbs) && x !in cbs
    ensures Chain(cell[Next(x) := Null][At(head, cbs, |cbs|) := To(x)], head, cbs + [x])
  {
    var cell', cbs' := cell[Next(x) := Null][At(head, cbs, |cbs|) := To(x)], cbs + [x];
    forall k | 0 <= k <= |cbs'| ensures Points(cell', head, cbs', k) {
      if k < |cbs| {
        assert Points(cell, head, cbs, k);
        AtInjective(head, cbs, k, |cbs|);
      }
    }
  }

  /** Assigning a fresh callback through the tail pointer appends it. */
  lemma {:induction false} AppendCells(cell: map<Loc, Ptr>, cpu: nat, cbs: seq<nat>, batch: seq<nat>, x: nat)
    requires Cells(cell, cpu, cbs, batch) && x !in cbs && x !in batch
    ensures var cell' := cell[Next(x) := Null][At(Nxtlist(cpu), cbs, |cbs|) := To(x)];
            Cells(cell', cpu, cbs + [x], batch) && Framed(cell, cell', cpu, cbs + [x], batch)
  {
    var cell' := cell[Next(x) := Null][At(Nxtlist(cpu), cbs, |cbs|) := To(x)];
    ChainAppend(cell, Nxtlist(cpu), cbs, x);
    ChainFrame(cell, cell', BatchList(cpu), batch);
  }

  /** Clearing the link of a callback that is in neither list. */
  lemma {:induction false} ClearCells(cell: map<Loc, Ptr>, cpu: nat, cbs: seq<nat>, batch: seq<nat>, x: nat)
    requires Cells(cell, cpu, cbs, batch) && x !in cbs && x !in batch
    ensures Cells(cell[Next(x) := Null], cpu, cbs, batch) && Framed(cell, cell[Next(x) := Null], cpu, cbs + [x], batch)
  {
    ChainFrame(cell, cell[Next(x) := Null], Nxtlist(cpu), cbs);
    ChainFrame(cell, cell[Next(x) := Null], BatchList(cpu), batch);
  }

  /** Two lists that share no cell. */
  ghost predicate Apart(h1: Loc, a: seq<nat>, h2: Loc, b: seq<nat>) {
    IsHead(h1) && IsHead(h2) && h1 != h2 && Distinct(a) && Distinct(b) && Disjoint(a, b)
  }

  /** Cutting the first `k` callbacks off into the empty list `h2`. */
  lemma {:induction false} SplitChain(cell: map<Loc, Ptr>, h1: Loc, a: seq<nat>, k: nat, h2: Loc)
    requires Apart(h1, a, h2, []) && Chain(cell, h1, a) && 0 < k <= |a|
    ensures At(h1, a, k) in cell && h1 in cell
    ensures var cell' := cell[h2 := cell[h1]][h1 := cell[At(h1, a, k)]][At(h1, a, k) := Null];
            Chain(cell', h1, a[k..]) && Chain(cell', h2, a[..k])
  {
    assert At(h1, a, 0) == h1 && Points(cell, h1, a, 0) && Points(cell, h1, a, k);
    var cell' := cell[h2 := cell[h1]][h1 := cell[At(h1, a, k)]][At(h1, a, k) := Null];
    forall i | 0 <= i <= |a[k..]| ensures Points(cell', h1, a[k..], i) {
      assert Points(cell, h1, a, i + k);
      AtInjective(h1, a, i + k, k);
      AtInjective(h1, a, k, 0);
      assert i > 0 ==> At(h1, a[k..], i) == At(h1, a, i + k);
    }
    forall i | 0 <= i <= k ensures Points(cell', h2, a[..k], i) {
      assert Points(cell, h1, a, i);
      AtInjective(h1, a, i, k);
      AtApart(h1, a, k, h2, [], 0);
      assert i > 0 ==> At(h2, a[..k], i) == At(h1, a, i);
    }
  }

  /** Inserting the whole nonempty list `b` behind the first `k` callbacks of `a`. */
  lemma {:induction false} InsertChain(cell: map<Loc, Ptr>, h1: Loc, a: seq<nat>, k: nat, h2: Loc, b: seq<nat>)
    requires Apart(h1, a, h2, b) && Chain(cell, h1, a) && Chain(cell, h2, b) && k <= |a| && b != []
    ensures At(h1, a, k) in cell && h2 in cell
    ensures var cell' := cell[At(h2, b, |b|) := cell[At(h1, a, k)]][At(h1, a, k) := cell[h2]][h2 := Null];
            Chain(cell', h1, a[..k] + b + a[k..]) && Chain(cell', h2, [])
  {
    assert At(h2, b, 0) == h2 && Points(cell, h2, b, 0) && Points(cell, h1, a, k);
    var c := a[..k] + b + a[k..];
    var cell' := cell[At(h2, b, |b|) := cell[At(h1, a, k)]][At(h1, a, k) := cell[h2]][h2 := Null];
    AtApart(h1, a, k, h2, b, |b|);
    AtApart(h1, a, k, h2, b, 0);
    AtInjective(h2, b, 0, |b|);
    forall i | 0 <= i <= |c| ensures Points(cell', h1, c, i) {
      if i <= k {
        assert Points(cell, h1, a, i) && At(h1, c, i) == At(h1, a, i);
        AtInjective(h1, a, i, k);
        AtApart(h1, a, i, h2, b, |b|);
        AtApart(h1, a, i, h2, b, 0);
      } else if i <= k + |b| {
        assert Points(cell, h2, b, i - k) && At(h1, c, i) == At(h2, b, i - k);
        AtInjective(h2, b, i - k, |b|);
        AtInjective(h2, b, i - k, 0);
        AtApart(h1, a, k, h2, b, i - k);
      } else {
        assert Points(cell, h1, a, i - |b|) && At(h1, c, i) == At(h1, a, i - |b|);
        AtInjective(h1, a, i - |b|, k);
        AtApart(h1, a, i - |b|, h2, b, |b|);
        AtApart(h1, a, i - |b|, h2, b, 0);
      }
    }
    assert Points(cell', h2, [], 0);
  }

  /** Moving the callbacks behind the first `k` of `a` to the end of `b`. */
  lemma {:induction false} MoveSuffix(cell: map<Loc, Ptr>, h1: Loc, a: seq<nat>, k: nat, h2: Loc, b: seq<nat>)
    requires Apart(h1, a, h2, b) && Chain(cell, h1, a) && Chain(cell, h2, b) && k < |a|
    ensures At(h1, a, k) in cell
    ensures var cell' := cell[At(h2, b, |b|) := cell[At(h1, a, k)]][At(h1, a, k) := Null];
            Chain(cell', h1, a[..k]) && Chain(cell', h2, b + a[k..])
  {
    assert Points(cell, h1, a, k);
    var c := b + a[k..];
    var cell' := cell[At(h2, b, |b|) := cell[At(h1, a, k)]][At(h1, a, k) := Null];
    AtApart(h1, a, k, h2, b, |b|);
    forall i | 0 <= i <= k ensures Points(cell', h1, a[..k], i) {
      assert Points(cell, h1, a, i) && At(h1, a[..k], i) == At(h1, a, i);
      AtInjective(h1, a, i, k);
      AtApart(h1, a, i, h2, b, |b|);
    }
    forall i | 0 <= i <= |c| ensures Points(cell', h2, c, i) {
      if i <= |b| {
        assert Points(cell, h2, b, i) && At(h2, c, i) == At(h2, b, i);
        AtInjective(h2, b, i, |b|);
        AtApart(h1, a, k, h2, b, i);
      } else {
        var j := i - |b| + k;
        assert Points(cell, h1, a, j) && At(h2, c, i) == At(h1, a, j);
        AtInjective(h1, a, j, k);
        AtApart(h1, a, j, h2, b, |b|);
      }
    }
  }

  /** rcu_do_batch takes the first `k` callbacks out of the list. */
  lemma {:induction false} SplitCells(cell: map<Loc, Ptr>, cpu: nat, cbs: seq<nat>, k: nat)
    requires Cells(cell, cpu, cbs, []) && 0 < k <= |cbs|
    ensures At(Nxtlist(cpu), cbs, k) in cell && Nxtlist(cpu) in cell
    ensures var h, b := Nxtlist(cpu), BatchList(cpu);
            var cell' := cell[b := cell[h]][h := cell[At(h, cbs, k)]][At(h, cbs, k) := Null];
            Cells(cell', cpu, cbs[k..], cbs[..k]) && Framed(cell, cell', cpu, cbs, [])
  {
    SplitChain(cell, Nxtlist(cpu), cbs, k, BatchList(cpu));
  }

  /** rcu_do_batch steps to the next callback of the batch. */
  lemma {:induction false} InvokeCells(cell: map<Loc, Ptr>, cpu: nat, cbs: seq<nat>, batch: seq<nat>)
    requires Cells(cell, cpu, cbs, batch) && batch != []
    ensures BatchList(cpu) in cell && cell[BatchList(cpu)] == To(batch[0]) && Next(batch[0]) in cell
    ensures var cell' := cell[BatchList(cpu) := cell[Next(batch[0])]];
            Cells(cell', cpu, cbs, batch[1..]) && Framed(cell, cell', cpu, cbs, batch)
  {
    var b := BatchList(cpu);
    assert At(b, batch, 0) == b && Points(cell, b, batch, 0) && Points(cell, b, batch, 1);
    var cell' := cell[b := cell[Next(batch[0])]];
    ChainFrame(cell, cell', Nxtlist(cpu), cbs);
    forall i | 0 <= i <= |batch[1..]| ensures Points(cell', b, batch[1..], i) {
      assert Points(cell, b, batch, i + 1);
      assert i > 0 ==> At(b, batch[1..], i) == At(b, batch, i + 1);
    }
  }

  /** rcu_do_batch puts the rest of the batch back in front of the list. */
  lemma {:induction false} JoinCells(cell: map<Loc, Ptr>, cpu: nat, cbs: seq<nat>, batch: seq<nat>)
    requires Cells(cell, cpu, cbs, batch) && batch != []
    ensures Nxtlist(cpu) in cell && BatchList(cpu) in cell && cell[BatchList(cpu)] != Null
    ensures var h, b := Nxtlist(cpu), BatchList(cpu);
            var cell' := cell[At(b, batch, |batch|) := cell[h]][h := cell[b]][b := Null];
            Cells(cell', cpu, batch + cbs, []) && Framed(cell, cell', cpu, cbs, batch)
  {
    var h, b := Nxtlist(cpu), BatchList(cpu);
    assert At(b, batch, 0) == b && Points(cell, b, batch, 0);
    assert At(h, cbs, 0) == h;
    InsertChain(cell, h, cbs, 0, b, batch);
    assert cbs[..0] + batch + cbs[0..] == batch + cbs;
    DistinctConcat(batch, cbs);
  }

  /** Reading through a pointer into the list tells whether it points behind the last callback. */
  lemma {:induction false} ReadAt(cell: map<Loc, Ptr>, cpu: nat, cbs: seq<nat>, batch: seq<nat>, k: nat)
    requires Cells(cell, cpu, cbs, batch) && k <= |cbs|
    ensures Points(cell, Nxtlist(cpu), cbs, k)
  {
  }

  /** Two pointers into the list are equal exactly if they point behind the same callback. */
  lemma {:induction false} SameAt(cell: map<Loc, Ptr>, cpu: nat, cbs: seq<nat>, batch: seq<nat>, i: nat, j: nat)
    requires Cells(cell, cpu, cbs, batch) && i <= |cbs| && j <= |cbs|
    ensures At(Nxtlist(cpu), cbs, i) == At(Nxtlist(cpu), cbs, j) <==> i == j
  {
  }

  lemma {:induction false} SameAtAll(cell: map<Loc, Ptr>, cpu: nat, cbs: seq<nat>)
    requires Cells(cell, cpu, cbs, [])
    ensures Distinct(cbs)
  {
  }

  lemma {:induction false} BatchNull(cell: map<Loc, Ptr>, cpu: nat, cbs: seq<nat>, batch: seq<nat>)
    requires Cells(cell, cpu, cbs, batch)
    ensures BatchList(cpu) in cell && (cell[BatchList(cpu)] == Null <==> batch == [])
  {
    assert At(BatchList(cpu), batch, 0) == BatchList(cpu) && Points(cell, BatchList(cpu), batch, 0);
  }

  /** The orphanage's two lists are laid out in memory, apart from a CPU's list. */
  ghost predicate OrphanCells(cell: map<Loc, Ptr>, nxt: seq<nat>, done: seq<nat>) {
    && Distinct(nxt) && Distinct(done) && Disjoint(nxt, done)
    && Chain(cell, OrphanNxtlist, nxt)
    && Chain(cell, OrphanDonelist, done)
  }

  ghost predicate AllApart(cbs: seq<nat>, nxt: seq<nat>, done: seq<nat>) {
    Disjoint(cbs, nxt) && Disjoint(cbs, done) && Disjoint(nxt, done)
  }

  /** No cell outside the CPU's list and the orphanage has changed. */
  ghost predicate FramedOrphans(cell: map<Loc, Ptr>, cell': map<Loc, Ptr>, cpu: nat,
                                cbs: seq<nat>, nxt: seq<nat>, done: seq<nat>)
  {
    forall l :: l in cell && !Owns(Nxtlist(cpu), cbs, l)
      && !Owns(OrphanNxtlist, nxt, l) && !Owns(OrphanDonelist, done, l)
      ==> l in cell' && cell'[l] == cell[l]
  }

  /** The cells after rcu_send_cbs_to_orphanage has moved everything from place `k` on. */
  function OrphanWaiting(cell: map<Loc, Ptr>, cpu: nat, cbs: seq<nat>, k: nat, nxt: seq<nat>): map<Loc, Ptr>
    requires k <= |cbs| && At(Nxtlist(cpu), cbs, k) in cell
  {
    if k == |cbs| then cell
    else cell[At(OrphanNxtlist, nxt, |nxt|) := cell[At(Nxtlist(cpu), cbs, k)]][At(Nxtlist(cpu), cbs, k) := Null]
  }

  /** rcu_send_cbs_to_orphanage: the ready callbacks, and the reset of the list head. */
  function OrphanDone(cell: map<Loc, Ptr>, cpu: nat, cbs: seq<nat>, done: seq<nat>): map<Loc, Ptr>
    requires Nxtlist(cpu) in cell
  {
    if cbs == [] then cell[Nxtlist(cpu) := Null]
    else cell[At(OrphanDonelist, done, |done|) := cell[Nxtlist(cpu)]][Nxtlist(cpu) := Null]
  }

  lemma {:induction false} OrphanWaitingCells(cell: map<Loc, Ptr>, cpu: nat, cbs: seq<nat>, k: nat,
                                              nxt: seq<nat>, done: seq<nat>)
    requires Cells(cell, cpu, cbs, []) && OrphanCells(cell, nxt, done) && AllApart(cbs, nxt, done) && k <= |cbs|
    ensures At(Nxtlist(cpu), cbs, k) in cell
    ensures var cell' := OrphanWaiting(cell, cpu, cbs, k, nxt);
            && Cells(cell', cpu, cbs[..k], []) && OrphanCells(cell', nxt + cbs[k..], done)
            && AllApart(cbs[..k], nxt + cbs[k..], done)
            && FramedOrphans(cell, cell', cpu, cbs, nxt, done)
  {
    assert Points(cell, Nxtlist(cpu), cbs, k);
    if k == |cbs| {
      assert cbs[..k] == cbs && nxt + cbs[k..] == nxt;
    } else {
      var cell' := OrphanWaiting(cell, cpu, cbs, k, nxt);
      MoveSuffix(cell, Nxtlist(cpu), cbs, k, OrphanNxtlist, nxt);
      ChainFrame(cell, cell', BatchList(cpu), []);
      ChainFrame(cell, cell', OrphanDonelist, done);
      DistinctConcat(nxt, cbs[k..]);
      assert forall x :: x in cbs[..k] ==> x !in cbs[k..];
    }
  }

  lemma {:induction false} OrphanDoneCells(cell: map<Loc, Ptr>, cpu: nat, cbs: seq<nat>, nxt: seq<nat>, done: seq<nat>)
    requires Cells(cell, cpu, cbs, []) && OrphanCells(cell, nxt, done) && AllApart(cbs, nxt, done)
    ensures Nxtlist(cpu) in cell && (cell[Nxtlist(cpu)] == Null <==> cbs == [])
    ensures var cell' := OrphanDone(cell, cpu, cbs, done);
            && Cells(cell', cpu, [], []) && OrphanCells(cell', nxt, done + cbs)
            && FramedOrphans(cell, cell', cpu, cbs, nxt, done)
  {
    var h := Nxtlist(cpu);
    assert At(h, cbs, 0) == h && Points(cell, h, cbs, 0);
    var cell' := OrphanDone(cell, cpu, cbs, done);
    if cbs == [] {
      assert done + cbs == done;
      assert cell' == cell;
    } else {
      MoveSuffix(cell, h, cbs, 0, OrphanDonelist, done);
      assert cbs[..0] == [] && cbs[0..] == cbs;
      ChainFrame(cell, cell', BatchList(cpu), []);
      ChainFrame(cell, cell', OrphanNxtlist, nxt);
      DistinctConcat(done, cbs);
    }
  }

  /** The cells once rcu_adopt_orphan_cbs has put the done orphans at place `k`. */
  lemma {:induction false} AdoptDoneCells(cell: map<Loc, Ptr>, cpu: nat, cbs: seq<nat>, k: nat, nxt: seq<nat>,
                                          done: seq<nat>)
    requires Cells(cell, cpu, cbs, []) && OrphanCells(cell, nxt, done)
    requires AllApart(cbs, nxt, done) && k <= |cbs| && done != []
    ensures At(Nxtlist(cpu), cbs, k) in cell && OrphanDonelist in cell
    ensures var cbs' := cbs[..k] + done + cbs[k..];
            var cell' := cell[At(OrphanDonelist, done, |done|) := cell[At(Nxtlist(cpu), cbs, k)]]
                             [At(Nxtlist(cpu), cbs, k) := cell[OrphanDonelist]][OrphanDonelist := Null];
            && Cells(cell', cpu, cbs', []) && OrphanCells(cell', nxt, []) && AllApart(cbs', nxt, [])
            && FramedOrphans(cell, cell', cpu, cbs, nxt, done)
  {
    var h, o := Nxtlist(cpu), OrphanDonelist;
    InsertChain(cell, h, cbs, k, o, done);
    var cell' := cell[At(o, done, |done|) := cell[At(h, cbs, k)]][At(h, cbs, k) := cell[o]][o := Null];
    ChainFrame(cell, cell', BatchList(cpu), []);
    ChainFrame(cell, cell', OrphanNxtlist, nxt);
    assert forall x :: x in cbs[..k] ==> x !in cbs[k..];
    DistinctConcat(done, cbs[k..]);
    DistinctConcat(cbs[..k], done + cbs[k..]);
    assert cbs[..k] + (done + cbs[k..]) == cbs[..k] + done + cbs[k..];
    assert forall x :: x in cbs[..k] + done + cbs[k..] ==> x in cbs || x in done;
  }

  /** The cells once it has put the other orphans at the end. */
  lemma {:induction false} AdoptWaitingCells(cell: map<Loc, Ptr>, cpu: nat, cbs: seq<nat>, nxt: seq<nat>)
    requires Cells(cell, cpu, cbs, []) && OrphanCells(cell, nxt, []) && AllApart(cbs, nxt, []) && nxt != []
    ensures OrphanNxtlist in cell
    ensures var cell' := cell[At(Nxtlist(cpu), cbs, |cbs|) := cell[OrphanNxtlist]][OrphanNxtlist := Null];
            && Cells(cell', cpu, cbs + nxt, []) && OrphanCells(cell', [], [])
            && FramedOrphans(cell, cell', cpu, cbs, nxt, [])
  {
    var h, o := Nxtlist(cpu), OrphanNxtlist;
    assert At(o, nxt, 0) == o;
    MoveSuffix(cell, o, nxt, 0, h, cbs);
    assert nxt[..0] == [] && nxt[0..] == nxt;
    var cell' := cell[At(h, cbs, |cbs|) := cell[o]][o := Null];
    ChainFrame(cell, cell', BatchList(cpu), []);
    ChainFrame(cell, cell', OrphanDonelist, []);
    DistinctConcat(cbs, nxt);
  }

  lemma {:induction false} OrphanHeads(cell: map<Loc, Ptr>, nxt: seq<nat>, done: seq<nat>)
    requires OrphanCells(cell, nxt, done)
    ensures OrphanNxtlist in cell && (cell[OrphanNxtlist] == Null <==> nxt == [])
    ensures OrphanDonelist in cell && (cell[OrphanDonelist] == Null <==> done == [])
  {
    assert Points(cell, OrphanNxtlist, nxt, 0) && Points(cell, OrphanDonelist, done, 0);
  }

  lemma {:induction false} FramedTwice(a: map<Loc, Ptr>, b: map<Loc, Ptr>, c: map<Loc, Ptr>, cpu: nat,
                                       cbs: seq<nat>, nxt: seq<nat>, done: seq<nat>,
                                       cbs': seq<nat>, nxt': seq<nat>, done': seq<nat>)
    requires FramedOrphans(a, b, cpu, cbs, nxt, done) && FramedOrphans(b, c, cpu, cbs', nxt', done')
    requires forall x :: x in cbs' || x in nxt' || x in done' ==> x in cbs || x in nxt || x in done
    ensures FramedOrphans(a, c, cpu, cbs, nxt, done)
  {
  }

  lemma {:induction false} AtStart()
    ensures forall head :: At(head, [], 0) == head
  {
  }

  /** Adopting the ready callbacks and then the waiting ones is adopting both. */
  lemma {:induction false} AdoptTwice(l: Segs<nat>, done: seq<nat>, nxt: seq<nat>)
    requires CbList.Valid(l) && l.enabled
    ensures var l1 := Adopt(l, done, []); l1.(cbs := l1.cbs + nxt) == Adopt(l, done, nxt)
  {
  }

  class RcuData {
    const cpu: nat
    const mem: Memory
    var nxttail: array<Loc>
    var nxtcompleted: array<nat>
    var qlen: int
    // rcu_do_batch's local variables while a batch is running
    var tail: Loc
    var count: nat
    // what the lists hold
    ghost var segs: Segs<nat>
    ghost var batch: seq<nat>

    ghost predicate Tails()
      reads this, nxttail, nxtcompleted
    {
      && nxttail.Length == 4 && nxtcompleted.Length == 4
      && CbList.Valid(segs)
      && (segs.enabled ==> nxttail[NEXT] == At(Nxtlist(cpu), segs.cbs, |segs.cbs|))
      && (!segs.enabled ==> nxttail[NEXT] == NoLoc)
      && nxttail[DONE] == At(Nxtlist(cpu), segs.cbs, segs.done)
      && nxttail[WAIT] == At(Nxtlist(cpu), segs.cbs, segs.wait)
      && nxttail[NEXT_READY] == At(Nxtlist(cpu), segs.cbs, segs.ready)
      && nxtcompleted[WAIT] == segs.numWait && nxtcompleted[NEXT_READY] == segs.numReady
    }

    ghost predicate Valid()
      reads this, mem, nxttail, nxtcompleted
    {
      && Tails()
      && Cells(mem.cell, cpu, segs.cbs, batch)
      && (batch != [] ==> tail == At(BatchList(cpu), batch, |batch|))
      && (batch != [] ==> segs.enabled)
      && qlen == |segs.cbs| + |batch| + count
    }

    /** rcu_boot_init_percpu_data. */
    constructor (cpu: nat, mem: Memory)
      modifies mem
      ensures Valid() && this.cpu == cpu && this.mem == mem && fresh(nxttail) && fresh(nxtcompleted)
      ensures batch == [] && segs == Segs([], 0, 0, 0, 0, 0, true)
      ensures mem.cell == old(mem.cell)[Nxtlist(cpu) := Null][BatchList(cpu) := Null]
    {
      this.cpu, this.mem := cpu, mem;
      nxttail := new Loc[4](_ => Nxtlist(cpu));
      nxtcompleted := new nat[4](_ => 0);
      qlen, tail, count := 0, NoLoc, 0;
      segs, batch := Segs([], 0, 0, 0, 0, 0, true), [];
      new;
      mem.cell := mem.cell[Nxtlist(cpu) := Null][BatchList(cpu) := Null];
    }

    /** init_callback_list: the list head and the tail pointers; the callbacks have been moved away. */
    method InitCallbackList()
      requires nxttail.Length == 4
      modifies this`segs, mem, nxttail
      ensures segs == Init(old(segs))
      ensures mem.cell == old(mem.cell)[Nxtlist(cpu) := Null]
      ensures forall i :: DONE <= i <= NEXT ==> nxttail[i] == Nxtlist(cpu)
    {
      mem.cell := mem.cell[Nxtlist(cpu) := Null];
      for i := 0 to 4
        modifies nxttail
        invariant forall m :: 0 <= m < i ==> nxttail[m] == Nxtlist(cpu)
      {
        nxttail[i] := Nxtlist(cpu);
      }
      segs := Init(segs);
    }

    /** __call_rcu. */
    method CallRcu(head: nat) returns (queued: bool)
      requires Valid() && head !in segs.cbs && head !in batch
      modifies this, nxttail, mem
      ensures Valid() && batch == old(batch) && nxttail == old(nxttail) && nxtcompleted == old(nxtcompleted)
      ensures queued == old(segs.enabled) && segs == Append(old(segs), head)
      ensures Framed(old(mem.cell), mem.cell, cpu, old(segs.cbs) + [head], batch)
    {
      hide Cells, Framed;
      mem.cell := mem.cell[Next(head) := Null];
      if nxttail[NEXT] == NoLoc {
        ClearCells(old(mem.cell), cpu, segs.cbs, batch, head);
        return false;
      }
      AppendCells(old(mem.cell), cpu, segs.cbs, batch, head);
      qlen := qlen + 1;
      mem.cell := mem.cell[nxttail[NEXT] := To(head)];
      nxttail[NEXT] := Next(head);
      segs := Append(segs, head);
      return true;
    }

    /** rcu_advance_cbs up to its call of rcu_accelerate_cbs. */
    method AdvanceCbs(completed: nat)
      requires Valid()
      modifies this`segs, nxttail, nxtcompleted
      ensures Valid()
      ensures segs == Advance(old(segs), completed)
    {
      hide Cells;
      ReadAt(mem.cell, cpu, segs.cbs, batch, segs.done);
      if nxttail[NEXT] == NoLoc || mem.cell[nxttail[DONE]] == Null {
        return;
      }
      ghost var tails, nums := nxttail[..], nxtcompleted[..];

      // The sublists whose grace period is over join the done segment.
      var i := WAIT;
      while i < NEXT && nxtcompleted[i] <= completed
        modifies nxttail
        invariant WAIT <= i <= NEXT
        invariant nxttail[DONE] == tails[i - 1]
        invariant forall m :: WAIT <= m <= NEXT ==> nxttail[m] == tails[m]
        invariant forall m :: WAIT <= m < i ==> nums[m] <= completed
      {
        nxttail[DONE] := nxttail[i];
        i := i + 1;
      }
      // Their own tails now lie before the done tail, and follow it.
      ghost var tails1 := nxttail[..];
      var j := WAIT;
      while j < i
        modifies nxttail
        invariant WAIT <= j <= i
        invariant nxttail[DONE] == tails1[DONE]
        invariant forall m :: WAIT <= m <= NEXT ==> nxttail[m] == if m < j then tails1[DONE] else tails1[m]
      {
        nxttail[j] := nxttail[DONE];
        j := j + 1;
      }
      assert nxttail[DONE] == At(Nxtlist(cpu), segs.cbs, Before(i));
      CopyDown(i, completed);
    }

    /** Where the sublist before sublist `i` ends. */
    ghost function Before(i: int): nat
      reads this
    {
      if i == WAIT then segs.done else if i == NEXT_READY then segs.wait else segs.ready
    }

    /** rcu_advance_cbs's last loop: the sublists before `first` are empty now, and the nonempty ones move
        into their places. */
    method CopyDown(first: int, ghost completed: nat)
      requires WAIT <= first <= NEXT
      requires nxttail.Length == 4 && nxtcompleted.Length == 4
      requires CbList.Valid(segs) && segs.enabled && segs.done < |segs.cbs|
      requires Cells(mem.cell, cpu, segs.cbs, batch)
      requires first < NEXT ==> completed < nxtcompleted[first]
      requires forall m :: WAIT <= m < first ==> nxtcompleted[m] <= completed
      requires nxtcompleted[WAIT] == segs.numWait && nxtcompleted[NEXT_READY] == segs.numReady
      requires nxttail[NEXT] == At(Nxtlist(cpu), segs.cbs, |segs.cbs|)
      requires nxttail[DONE] == At(Nxtlist(cpu), segs.cbs, Before(first))
      requires nxttail[WAIT] == if first == WAIT then At(Nxtlist(cpu), segs.cbs, segs.wait) else nxttail[DONE]
      requires nxttail[NEXT_READY] == At(Nxtlist(cpu), segs.cbs, segs.ready)
      modifies this`segs, nxttail, nxtcompleted
      ensures Tails() && segs == Advance(old(segs), completed)
    {
      hide Cells;
      SameAt(mem.cell, cpu, segs.cbs, batch, segs.wait, |segs.cbs|);
      SameAt(mem.cell, cpu, segs.cbs, batch, segs.ready, |segs.cbs|);
      ghost var tails, nums := nxttail[..], nxtcompleted[..];
      var i, j := first, WAIT;
      while i < NEXT && nxttail[j] != nxttail[NEXT]
        modifies nxttail, nxtcompleted
        invariant WAIT <= j <= i <= NEXT && i - j == first - WAIT
        invariant nxttail[DONE] == tails[DONE] && nxttail[NEXT] == tails[NEXT]
        invariant WAIT < j ==> tails[WAIT] != tails[NEXT]
        invariant nxttail[WAIT] == (if WAIT < j then tails[first] else tails[WAIT])
        invariant nxttail[NEXT_READY] == tails[NEXT_READY]
        invariant nxtcompleted[WAIT] == (if WAIT < j then nums[first] else nums[WAIT])
        invariant nxtcompleted[NEXT_READY] == nums[NEXT_READY]
      {
        nxttail[j] := nxttail[i];
        nxtcompleted[j] := nxtcompleted[i];
        i, j := i + 1, j + 1;
      }
      segs := Advance(segs, completed);
    }

    /** rcu_accelerate_cbs up to its call of rcu_start_future_gp. */
    method AccelerateCbs(c: nat) returns (accelerated: bool)
      requires Valid()
      modifies this`segs, nxttail, nxtcompleted
      ensures Valid()
      ensures accelerated == Accelerates(old(segs), c) && segs == Accelerate(old(segs), c)
    {
      hide Cells;
      ReadAt(mem.cell, cpu, segs.cbs, batch, segs.done);
      if nxttail[NEXT] == NoLoc || mem.cell[nxttail[DONE]] == Null {
        return false;
      }
      SameAt(mem.cell, cpu, segs.cbs, batch, segs.done, segs.wait);
      SameAt(mem.cell, cpu, segs.cbs, batch, segs.wait, segs.ready);
      var i := NEXT - 1;
      while i > DONE && !(nxttail[i] != nxttail[i - 1] && nxtcompleted[i] < c)
        invariant DONE <= i < NEXT
        invariant forall m :: i < m < NEXT ==> nxttail[m] == nxttail[m - 1] || nxtcompleted[m] >= c
      {
        i := i - 1;
      }
      i := i + 1;
      if i >= NEXT {
        return false;
      }
      ghost var tails, nums, first := nxttail[..], nxtcompleted[..], i;
      while i <= NEXT
        modifies nxttail, nxtcompleted
        invariant first <= i <= NEXT + 1
        invariant forall m :: DONE <= m <= NEXT ==> nxttail[m] == if first <= m < i then tails[NEXT] else tails[m]
        invariant forall m :: DONE <= m <= NEXT ==> nxtcompleted[m] == if first <= m < i then c else nums[m]
      {
        nxttail[i] := nxttail[NEXT];
        nxtcompleted[i] := c;
        i := i + 1;
      }
      segs := Accelerate(segs, c);
      return true;
    }

    /** The loop of rcu_start_future_gp over the grace-period numbers. */
    method LowerNumbers(c: nat)
      requires Valid()
      modifies this`segs, nxtcompleted
      ensures Valid()
      ensures segs == Lower(old(segs), c)
    {
      ghost var nums := nxtcompleted[..];
      hide Cells;
      for i := DONE to NEXT
        modifies nxtcompleted
        invariant forall m :: DONE <= m <= NEXT ==> nxtcompleted[m] == if m < i && c < nums[m] then c else nums[m]
      {
        if c < nxtcompleted[i] { nxtcompleted[i] := c; }
      }
      segs := Lower(segs, c);
    }

    /** Every tail pointer that equals the done tail gets the value `l`. */
    method RetargetDone(l: Loc)
      requires nxttail.Length == 4
      modifies nxttail
      ensures forall m :: DONE <= m <= NEXT ==>
        nxttail[m] == if old(nxttail[m]) == old(nxttail[DONE]) then l else old(nxttail[m])
    {
      for i := 4 downto 0
        invariant forall m :: DONE <= m <= NEXT ==>
          nxttail[m] == if i <= m && old(nxttail[m]) == old(nxttail[DONE]) then l else old(nxttail[m])
      {
        if nxttail[i] == nxttail[DONE] { nxttail[i] := l; }
      }
    }

    /** The tail pointers after the orphans `b`, the last of which ends at `l`, are put behind the done callbacks. */
    method AdoptTails(l: Loc, ghost b: seq<nat>)
      requires Tails() && segs.enabled && Distinct(segs.cbs) && b != [] && l == Next(b[|b| - 1])
      modifies nxttail, this`segs
      ensures Tails() && segs == Adopt(old(segs), b, [])
      ensures segs.cbs == old(segs.cbs)[..old(segs.done)] + b + old(segs.cbs)[old(segs.done)..]
    {
      ghost var h, s := Nxtlist(cpu), segs;
      AtInjective(h, s.cbs, s.wait, s.done);
      AtInjective(h, s.cbs, s.ready, s.done);
      AtInjective(h, s.cbs, |s.cbs|, s.done);
      RetargetDone(l);
      AtInsert(h, s.cbs, s.done, b, s.done);
      AtInsert(h, s.cbs, s.done, b, s.wait);
      AtInsert(h, s.cbs, s.done, b, s.ready);
      AtInsert(h, s.cbs, s.done, b, |s.cbs|);
      segs := Adopt(s, b, []);
      assert segs.cbs == s.cbs[..s.done] + b + s.cbs[s.done..];
    }

    /** The leading tail pointers that equal the list head get the value `l`. */
    method RetargetHead(l: Loc)
      requires nxttail.Length == 4
      requires forall m :: DONE < m <= NEXT && nxttail[m] == Nxtlist(cpu) ==> nxttail[m - 1] == Nxtlist(cpu)
      modifies nxttail
      ensures forall m :: DONE <= m <= NEXT ==>
        nxttail[m] == if old(nxttail[m]) == Nxtlist(cpu) then l else old(nxttail[m])
    {
      ghost var tails := nxttail[..];
      var i := 0;
      while i < 4 && nxttail[i] == Nxtlist(cpu)
        invariant 0 <= i <= 4
        invariant forall m :: DONE <= m <= NEXT ==> nxttail[m] == if m < i then l else old(nxttail[m])
        invariant forall m :: DONE <= m < i ==> old(nxttail[m]) == Nxtlist(cpu)
      {
        nxttail[i] := l;
        i := i + 1;
      }
      assert forall m :: DONE < m <= NEXT && tails[m] == Nxtlist(cpu) ==> tails[m - 1] == Nxtlist(cpu);
      assert i < 4 ==> tails[i] != Nxtlist(cpu);
      assert i + 1 < 4 ==> tails[i + 1] != Nxtlist(cpu);
      assert i + 2 < 4 ==> tails[i + 2] != Nxtlist(cpu);
      assert i + 3 < 4 ==> tails[i + 3] != Nxtlist(cpu);
    }

    /** The beginning of rcu_do_batch: the done segment becomes the batch. */
    method BatchBegin()
      requires Valid() && batch == [] && count == 0
      modifies this, nxttail, mem
      ensures Valid() && count == 0 && nxttail == old(nxttail) && nxtcompleted == old(nxtcompleted)
      ensures batch == DoneCbs(old(segs)) && segs == Extract(old(segs))
      ensures Framed(old(mem.cell), mem.cell, cpu, old(segs.cbs), [])
    {
      hide Cells;
      var h := Nxtlist(cpu);
      SameAt(mem.cell, cpu, segs.cbs, batch, segs.done, 0);
      if nxttail[DONE] == h {
        assert segs.cbs[0..] == segs.cbs;
        return;
      }
      BatchExtract();
    }

    /** The callbacks are spliced off the list onto the batch. */
    method BatchExtract()
      requires Valid() && batch == [] && count == 0 && segs.done > 0
      modifies this, nxttail, mem
      ensures Valid() && count == 0 && nxttail == old(nxttail) && nxtcompleted == old(nxtcompleted)
      ensures batch == DoneCbs(old(segs)) && segs == Extract(old(segs))
      ensures Framed(old(mem.cell), mem.cell, cpu, old(segs.cbs), [])
    {
      hide Cells, Framed;
      var h := Nxtlist(cpu);
      SplitCells(mem.cell, cpu, segs.cbs, segs.done);
      SameAt(mem.cell, cpu, segs.cbs, batch, segs.done, segs.wait);
      SameAt(mem.cell, cpu, segs.cbs, batch, segs.done, segs.ready);
      SameAt(mem.cell, cpu, segs.cbs, batch, segs.done, |segs.cbs|);
      var list := mem.cell[h];
      mem.cell := mem.cell[BatchList(cpu) := list];
      mem.cell := mem.cell[h := mem.cell[nxttail[DONE]]];
      mem.cell := mem.cell[nxttail[DONE] := Null];
      tail := nxttail[DONE];
      RetargetDone(h);
      batch := DoneCbs(segs);
      segs := Extract(segs);
    }

    /** rcu_do_batch: invoke the next callback of the batch. */
    method Invoke() returns (cb: nat)
      requires Valid() && batch != []
      modifies this, mem
      ensures Valid() && cb == old(batch)[0] && batch == old(batch)[1..] && segs == old(segs)
      ensures nxttail == old(nxttail) && nxtcompleted == old(nxtcompleted) && count == old(count) + 1
      ensures Framed(old(mem.cell), mem.cell, cpu, segs.cbs, old(batch))
    {
      hide Cells;
      InvokeCells(mem.cell, cpu, segs.cbs, batch);
      cb := mem.cell[BatchList(cpu)].cb;
      mem.cell := mem.cell[BatchList(cpu) := mem.cell[Next(cb)]];
      batch := batch[1..];
      count := count + 1;
    }

    /** rcu_do_batch: requeue the remaining callbacks. */
    method RequeueBatch()
      requires Valid() && batch != []
      modifies this, nxttail, mem
      ensures Valid() && batch == [] && segs == Requeue(old(segs), old(batch))
      ensures nxttail == old(nxttail) && nxtcompleted == old(nxtcompleted) && qlen == old(qlen) && count == old(count)
      ensures Framed(old(mem.cell), mem.cell, cpu, old(segs.cbs), old(batch))
    {
      hide Cells, Framed;
      var h := Nxtlist(cpu);
      SameAt(mem.cell, cpu, segs.cbs, batch, segs.done, 0);
      SameAt(mem.cell, cpu, segs.cbs, batch, segs.wait, 0);
      SameAt(mem.cell, cpu, segs.cbs, batch, segs.ready, 0);
      SameAt(mem.cell, cpu, segs.cbs, batch, |segs.cbs|, 0);
      JoinLists();
      RetargetHead(tail);
      AtPrepend(h, segs.cbs, batch, segs.done);
      AtPrepend(h, segs.cbs, batch, segs.wait);
      AtPrepend(h, segs.cbs, batch, segs.ready);
      AtPrepend(h, segs.cbs, batch, |segs.cbs|);
      segs := Requeue(segs, batch);
      batch := [];
    }

    /** The rest of the batch is linked in front of the list. */
    method JoinLists()
      requires Valid() && batch != []
      modifies mem
      ensures Cells(mem.cell, cpu, batch + segs.cbs, []) && Framed(old(mem.cell), mem.cell, cpu, segs.cbs, batch)
    {
      hide Cells, Framed, Tails;
      JoinCells(mem.cell, cpu, segs.cbs, batch);
      var h := Nxtlist(cpu);
      var list := mem.cell[BatchList(cpu)];
      mem.cell := mem.cell[tail := mem.cell[h]];
      mem.cell := mem.cell[h := list];
      mem.cell := mem.cell[BatchList(cpu) := Null];
    }

    /** rcu_do_batch: update the count after requeueing any remaining callbacks. */
    method BatchEnd()
      requires Valid()
      modifies this, nxttail, mem
      ensures Valid() && batch == [] && segs == Requeue(old(segs), old(batch))
      ensures nxttail == old(nxttail) && nxtcompleted == old(nxtcompleted)
      ensures qlen == old(qlen) - old(count) && count == 0 && qlen == |segs.cbs|
      ensures Framed(old(mem.cell), mem.cell, cpu, old(segs.cbs), old(batch))
    {
      hide Cells;
      BatchNull(mem.cell, cpu, segs.cbs, batch);
      assert batch == [] ==> batch + segs.cbs == segs.cbs;
      if mem.cell[BatchList(cpu)] != Null {
        RequeueBatch();
      }
      qlen := qlen - count;
      count := 0;
    }
  }

  /** The orphanage of rcu_state: the callbacks of CPUs that went offline. */
  class Orphanage {
    const mem: Memory
    var nxttail: Loc
    var donetail: Loc
    var qlen: int
    ghost var nxt: seq<nat>
    ghost var done: seq<nat>

    ghost predicate Valid()
      reads this, mem
    {
      && OrphanCells(mem.cell, nxt, done)
      && nxttail == At(OrphanNxtlist, nxt, |nxt|) && donetail == At(OrphanDonelist, done, |done|)
      && qlen == |nxt| + |done|
    }

    constructor (mem: Memory)
      modifies mem
      ensures Valid() && this.mem == mem && nxt == [] && done == []
      ensures mem.cell == old(mem.cell)[OrphanNxtlist := Null][OrphanDonelist := Null]
    {
      this.mem := mem;
      nxttail, donetail, qlen := OrphanNxtlist, OrphanDonelist, 0;
      nxt, done := [], [];
      new;
      mem.cell := mem.cell[OrphanNxtlist := Null][OrphanDonelist := Null];
    }

    /** The first half of rcu_send_cbs_to_orphanage: everything but the done segment moves; the CPU's own tail
        pointers still have to follow. */
    method SendWaiting(rdp: RcuData)
      requires rdp.Tails() && rdp.mem == mem
      requires Points(mem.cell, Nxtlist(rdp.cpu), rdp.segs.cbs, rdp.segs.done)
      requires nxttail == At(OrphanNxtlist, nxt, |nxt|)
      modifies this, mem
      ensures rdp.Tails() && mem.cell == OrphanWaiting(old(mem.cell), rdp.cpu, rdp.segs.cbs, rdp.segs.done, old(nxt))
      ensures nxt == old(nxt) + WaitingCbs(rdp.segs) && done == old(done)
      ensures qlen == old(qlen) && donetail == old(donetail)
      ensures nxttail == At(OrphanNxtlist, nxt, |nxt|)
    {
      ghost var l := rdp.segs;
      if mem.cell[rdp.nxttail[DONE]] != Null {
        mem.cell := mem.cell[nxttail := mem.cell[rdp.nxttail[DONE]]];
        nxttail := rdp.nxttail[NEXT];
        mem.cell := mem.cell[rdp.nxttail[DONE] := Null];
      }
      nxt := nxt + WaitingCbs(l);
    }

    /** The second half: the done segment moves. */
    method SendDone(rdp: RcuData)
      requires rdp.Tails() && rdp.mem == mem && Nxtlist(rdp.cpu) in mem.cell
      requires mem.cell[Nxtlist(rdp.cpu)] == Null <==> rdp.segs.done == 0
      requires donetail == At(OrphanDonelist, done, |done|)
      modifies this, rdp`segs, rdp.nxttail, mem
      ensures rdp.Tails() && rdp.segs == Init(old(rdp.segs))
      ensures mem.cell == OrphanDone(old(mem.cell), rdp.cpu, DoneCbs(old(rdp.segs)), old(done))
      ensures done == old(done) + DoneCbs(old(rdp.segs)) && nxt == old(nxt)
      ensures qlen == old(qlen) && nxttail == old(nxttail)
      ensures donetail == At(OrphanDonelist, done, |done|)
    {
      var h := Nxtlist(rdp.cpu);
      ghost var l := rdp.segs;
      if mem.cell[h] != Null {
        mem.cell := mem.cell[donetail := mem.cell[h]];
        donetail := rdp.nxttail[DONE];
      }
      done := done + DoneCbs(l);
      rdp.InitCallbackList();
    }

    /** rcu_send_cbs_to_orphanage: the dead CPU's callbacks, in order, end up in the orphanage and nowhere else. */
    method SendCbs(rdp: RcuData)
      requires Valid() && rdp.Valid() && rdp.mem == mem && rdp.batch == [] && rdp.count == 0
      requires AllApart(rdp.segs.cbs, nxt, done)
      modifies this, rdp, rdp.nxttail, mem
      ensures Valid() && rdp.Valid() && rdp.batch == [] && rdp.count == 0
      ensures rdp.nxttail == old(rdp.nxttail) && rdp.nxtcompleted == old(rdp.nxtcompleted)
      ensures nxt == old(nxt) + WaitingCbs(old(rdp.segs)) && done == old(done) + DoneCbs(old(rdp.segs))
      ensures rdp.segs == Init(old(rdp.segs)) && rdp.qlen == 0 && qlen == old(qlen) + old(rdp.qlen)
      ensures FramedOrphans(old(mem.cell), mem.cell, rdp.cpu, old(rdp.segs.cbs), old(nxt), old(done))
    {
      hide Cells, OrphanCells, AllApart, FramedOrphans, Disjoint;
      ghost var l := rdp.segs;
      ReadAt(mem.cell, rdp.cpu, l.cbs, [], 0);
      ReadAt(mem.cell, rdp.cpu, l.cbs, [], l.done);
      OrphanWaitingCells(mem.cell, rdp.cpu, l.cbs, l.done, nxt, done);
      ghost var cell1 := OrphanWaiting(mem.cell, rdp.cpu, l.cbs, l.done, nxt);
      OrphanDoneCells(cell1, rdp.cpu, DoneCbs(l), nxt + WaitingCbs(l), done);
      if mem.cell[Nxtlist(rdp.cpu)] != Null {
        qlen := qlen + rdp.qlen;
        rdp.qlen := 0;
      }
      SendWaiting(rdp);
      SendDone(rdp);
      FramedTwice(old(mem.cell), cell1, mem.cell, rdp.cpu, l.cbs, old(nxt), old(done), DoneCbs(l), nxt, old(done));
    }

    /** The first half of rcu_adopt_orphan_cbs: done orphans join the done segment. */
    method AdoptDone(rdp: RcuData)
      requires Valid() && rdp.Tails() && rdp.segs.enabled && rdp.mem == mem
      requires Cells(mem.cell, rdp.cpu, rdp.segs.cbs, []) && AllApart(rdp.segs.cbs, nxt, done)
      modifies this, rdp`segs, rdp.nxttail, mem
      ensures rdp.Tails() && rdp.segs == Adopt(old(rdp.segs), old(done), [])
      ensures Cells(mem.cell, rdp.cpu, rdp.segs.cbs, [])
      ensures OrphanCells(mem.cell, nxt, []) && AllApart(rdp.segs.cbs, nxt, [])
      ensures done == [] && donetail == OrphanDonelist && nxt == old(nxt)
      ensures nxttail == old(nxttail) && qlen == old(qlen)
      ensures FramedOrphans(old(mem.cell), mem.cell, rdp.cpu, old(rdp.segs.cbs), nxt, old(done))
    {
      OrphanHeads(mem.cell, nxt, done);
      if mem.cell[OrphanDonelist] == Null {
        var l := rdp.segs;
        assert l.cbs[..l.done] + [] + l.cbs[l.done..] + [] == l.cbs;
        return;
      }
      AdoptDoneNonempty(rdp);
    }

    method AdoptDoneNonempty(rdp: RcuData)
      requires Valid() && rdp.Tails() && rdp.segs.enabled && rdp.mem == mem && done != []
      requires Cells(mem.cell, rdp.cpu, rdp.segs.cbs, []) && AllApart(rdp.segs.cbs, nxt, done)
      modifies this, rdp`segs, rdp.nxttail, mem
      ensures rdp.Tails() && rdp.segs == Adopt(old(rdp.segs), old(done), [])
      ensures Cells(mem.cell, rdp.cpu, rdp.segs.cbs, [])
      ensures OrphanCells(mem.cell, nxt, []) && AllApart(rdp.segs.cbs, nxt, [])
      ensures done == [] && donetail == OrphanDonelist && nxt == old(nxt)
      ensures nxttail == old(nxttail) && qlen == old(qlen)
      ensures FramedOrphans(old(mem.cell), mem.cell, rdp.cpu, old(rdp.segs.cbs), nxt, old(done))
    {
      hide Cells, OrphanCells, AllApart, FramedOrphans, Disjoint;
      ghost var l := rdp.segs;
      AdoptDoneCells(mem.cell, rdp.cpu, l.cbs, l.done, nxt, done);
      assert Distinct(l.cbs) by { SameAtAll(mem.cell, rdp.cpu, l.cbs); }
      var list := mem.cell[OrphanDonelist];
      mem.cell := mem.cell[donetail := mem.cell[rdp.nxttail[DONE]]];
      mem.cell := mem.cell[rdp.nxttail[DONE] := list];
      rdp.AdoptTails(donetail, done);
      mem.cell := mem.cell[OrphanDonelist := Null];
      donetail := OrphanDonelist;
      done := [];
    }

    /** The second half: the other orphans join the end of the list. */
    method AdoptWaiting(rdp: RcuData)
      requires rdp.Tails() && rdp.segs.enabled && rdp.mem == mem && done == []
      requires OrphanCells(mem.cell, nxt, []) && nxttail == At(OrphanNxtlist, nxt, |nxt|)
      requires Cells(mem.cell, rdp.cpu, rdp.segs.cbs, []) && AllApart(rdp.segs.cbs, nxt, [])
      modifies this, rdp`segs, rdp.nxttail, mem
      ensures rdp.Tails() && rdp.segs == old(rdp.segs).(cbs := old(rdp.segs.cbs) + old(nxt))
      ensures Cells(mem.cell, rdp.cpu, rdp.segs.cbs, []) && OrphanCells(mem.cell, [], [])
      ensures nxt == [] && nxttail == OrphanNxtlist && done == [] && donetail == old(donetail) && qlen == old(qlen)
      ensures FramedOrphans(old(mem.cell), mem.cell, rdp.cpu, old(rdp.segs.cbs), old(nxt), [])
    {
      OrphanHeads(mem.cell, nxt, []);
      ghost var l := rdp.segs;
      if mem.cell[OrphanNxtlist] == Null {
        assert l.cbs + nxt == l.cbs;
        return;
      }
      AdoptWaitingCells(mem.cell, rdp.cpu, l.cbs, nxt);
      hide Cells, OrphanCells, AllApart, FramedOrphans, Disjoint;
      mem.cell := mem.cell[rdp.nxttail[NEXT] := mem.cell[OrphanNxtlist]];
      rdp.nxttail[NEXT] := nxttail;
      mem.cell := mem.cell[OrphanNxtlist := Null];
      nxttail := OrphanNxtlist;
      rdp.segs := l.(cbs := l.cbs + nxt);
      nxt := [];
    }

    /** rcu_adopt_orphan_cbs: the adopter gets every orphan exactly once, its own callbacks and the orphans each in
        their old order, and the callback count moves with them. */
    method AdoptCbs(rdp: RcuData)
      requires Valid() && rdp.Valid() && rdp.segs.enabled && rdp.mem == mem && rdp.batch == []
      requires AllApart(rdp.segs.cbs, nxt, done)
      modifies this, rdp, rdp.nxttail, mem
      ensures Valid() && rdp.Valid() && rdp.batch == [] && rdp.count == old(rdp.count)
      ensures rdp.nxttail == old(rdp.nxttail) && rdp.nxtcompleted == old(rdp.nxtcompleted)
      ensures rdp.segs == Adopt(old(rdp.segs), old(done), old(nxt)) && nxt == [] && done == [] && qlen == 0
      ensures FramedOrphans(old(mem.cell), mem.cell, rdp.cpu, old(rdp.segs.cbs), old(nxt), old(done))
    {
      hide Cells, OrphanCells, AllApart, FramedOrphans, Disjoint, At;
      ghost var l := rdp.segs;
      rdp.qlen := rdp.qlen + qlen;
      AdoptDone(rdp);
      ghost var cell1, l1 := mem.cell, rdp.segs;
      AdoptWaiting(rdp);
      qlen := 0;
      AdoptTwice(l, old(done), old(nxt));
      AtStart();
      FramedTwice(old(mem.cell), cell1, mem.cell, rdp.cpu, l.cbs, old(nxt), old(done), l1.cbs, old(nxt), []);
    }
  }
}
