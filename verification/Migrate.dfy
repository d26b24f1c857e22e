/**
do_migrate_pages: pages are moved one source node at a time, in an order found
by rescanning the nodes still to be emptied, yet the outcome is the one
simultaneous remap of every page.

Node masks are sets of node numbers below `max` (MAX_NUMNODES).
*/
module Migrate {

  // ----- node_remap -----

  /** How many members of `mask` are below `s`. */
  function Rank(mask: set<nat>, s: nat): nat {
    if s == 0 then 0 else Rank(mask, s - 1) + if s - 1 in mask then 1 else 0
  }

  /** The position of the `k`-th member at or above `i`, or `max`. */
  function OrdToPos(mask: set<nat>, k: nat, i: nat, max: nat): nat
    decreases max - i
  {
    if i >= max then max
    else if i !in mask then OrdToPos(mask, k, i + 1, max)
    else if k == 0 then i
    else OrdToPos(mask, k - 1, i + 1, max)
  }

  /** node_remap: the k-th member of `from` goes to the (k mod weight)-th member of `to`. */
  function Remap(s: nat, from: set<nat>, to: set<nat>, max: nat): nat {
    if s !in from || Rank(to, max) == 0 then s
    else OrdToPos(to, Rank(from, s) % Rank(to, max), 0, max)
  }

  lemma {:induction false} RankMono(mask: set<nat>, a: nat, b: nat)
    requires a <= b
    ensures Rank(mask, a) <= Rank(mask, b)
    ensures a < b && a in mask ==> Rank(mask, a) < Rank(mask, b)
  {
    if a < b { RankMono(mask, a, b - 1); }
  }

  lemma {:induction false} OrdToPosIs(mask: set<nat>, k: nat, i: nat, max: nat)
    requires i <= max && Rank(mask, i) + k < Rank(mask, max)
    ensures var d := OrdToPos(mask, k, i, max); i <= d < max && d in mask && Rank(mask, d) == Rank(mask, i) + k
    decreases max - i
  {
    if i in mask {
      if k > 0 { OrdToPosIs(mask, k - 1, i + 1, max); }
    } else if i < max {
      OrdToPosIs(mask, k, i + 1, max);
    }
  }

  /** A remapped node is the member of `to` whose rank is the node's own, modulo the weight of `to`; nodes outside
      `from` stay, and so do all if `to` is empty. With equal weights the rank is kept. */
  lemma {:induction false} RemapIs(s: nat, from: set<nat>, to: set<nat>, max: nat)
    ensures s !in from || Rank(to, max) == 0 ==> Remap(s, from, to, max) == s
    ensures s in from && Rank(to, max) > 0 ==>
      var d := Remap(s, from, to, max); d in to && d < max && Rank(to, d) == Rank(from, s) % Rank(to, max)
    ensures s in from && s < max && Rank(from, max) == Rank(to, max) > 0 ==>
      Rank(to, Remap(s, from, to, max)) == Rank(from, s)
  {
    if s in from && Rank(to, max) > 0 {
      if s < max { RankMono(from, s, max); }
      OrdToPosIs(to, Rank(from, s) % Rank(to, max), 0, max);
    }
  }

  /** The members of `mask` below `s`. */
  function Below(mask: set<nat>, s: nat): set<nat> { set x | x in mask && x < s }

  lemma {:induction false} RankCounts(mask: set<nat>, s: nat)
    ensures Rank(mask, s) == |Below(mask, s)|
  {
    if s == 0 {
      assert Below(mask, 0) == {};
    } else {
      RankCounts(mask, s - 1);
      assert Below(mask, s) == Below(mask, s - 1) + if s - 1 in mask then {s - 1} else {};
    }
  }

  /** With equal weights the remap preserves the order of the nodes. */
  lemma {:induction false} RemapOrdered(s: nat, t: nat, from: set<nat>, to: set<nat>, max: nat)
    requires Rank(from, max) == Rank(to, max)
    requires s in from && t in from && s < t < max
    ensures Remap(s, from, to, max) < Remap(t, from, to, max)
  {
    RankMono(from, s, t);
    RankMono(from, t, max);
    RemapIs(s, from, to, max);
    RemapIs(t, from, to, max);
    var d, e := Remap(s, from, to, max), Remap(t, from, to, max);
    if e <= d { RankMono(to, e, d); }
  }

  // ----- which nodes move, and where -----

  /** Does the scan consider moving node `s`? */
  predicate Moves(s: nat, from: set<nat>, to: set<nat>, max: nat) {
    && !(Rank(from, max) != Rank(to, max) && s in to)
    && Remap(s, from, to, max) != s
  }

  /** The simultaneous remap: where a page on `s` belongs. */
  function Target(s: nat, from: set<nat>, to: set<nat>, max: nat): nat {
    if s in from && Moves(s, from, to, max) then Remap(s, from, to, max) else s
  }

  /** Where do_migrate_pages promises a page on `s` to be: the k-th node of `from` goes to the (k mod weight)-th node of
      `to`; but if the weights differ, the nodes of `to` keep their pages. */
  predicate Lands(s: nat, d: nat, from: set<nat>, to: set<nat>, max: nat) {
    var weight := |Below(to, max)|;
    if s !in from || weight == 0 || (|Below(from, max)| != weight && s in to) then d == s
    else d in to && d < max && |Below(to, d)| == |Below(from, s)| % weight
  }

  /** There is one such place, and it is the target. */
  lemma {:induction false} TargetLands(s: nat, d: nat, from: set<nat>, to: set<nat>, max: nat)
    ensures Lands(s, d, from, to, max) <==> d == Target(s, from, to, max)
  {
    RankCounts(to, max);
    RankCounts(from, max);
    RankCounts(from, s);
    RankCounts(to, d);
    RemapIs(s, from, to, max);
    var e := Remap(s, from, to, max);
    RankCounts(to, e);
    if d < e { RankMono(to, d, e); } else if e < d { RankMono(to, e, d); }
  }

  /** An order-preserving bijection has no nontrivial cycle: following the remap from any node
      that moves leads out of `tmp`, at a node that can move right away. */
  lemma {:induction false} FreeDestination(s: nat, tmp: set<nat>, from: set<nat>, to: set<nat>, max: nat)
    returns (f: nat)
    requires Rank(from, max) == Rank(to, max) && tmp <= from
    requires forall x :: x in from ==> x < max
    requires s in tmp && Moves(s, from, to, max)
    ensures f in tmp && Moves(f, from, to, max) && Remap(f, from, to, max) !in tmp
    decreases if Remap(s, from, to, max) > s then max - s else s
  {
    var d := Remap(s, from, to, max);
    if d !in tmp {
      f := s;
    } else {
      if s < d { RemapOrdered(s, d, from, to, max); } else { RemapOrdered(d, s, from, to, max); }
      f := FreeDestination(d, tmp, from, to, max);
    }
  }

  /** What the scan of `tmp` finds: nothing if no node is left to move, else the first node
      whose destination is not waiting itself, else the last node that moves. */
  ghost predicate Picked(source: int, dest: nat, tmp: set<nat>, from: set<nat>, to: set<nat>, max: nat) {
    if source == -1 then
      forall s :: s in tmp && s < max ==> !Moves(s, from, to, max)
    else
      && 0 <= source < max && source in tmp && Moves(source, from, to, max) && dest == Remap(source, from, to, max)
      && if dest !in tmp then
           forall s :: s in tmp && s < source && Moves(s, from, to, max) ==> Remap(s, from, to, max) in tmp
         else
           forall s :: s in tmp && s < max && Moves(s, from, to, max) ==> s <= source && Remap(s, from, to, max) in tmp
  }

  /** The scan of `tmp` for the next pair of nodes. */
  method Pick(tmp: set<nat>, from: set<nat>, to: set<nat>, max: nat) returns (source: int, dest: nat)
    ensures Picked(source, dest, tmp, from, to, max)
  {
    source, dest := -1, 0;
    for s := 0 to max
      invariant source == -1 ==> forall x :: x in tmp && x < s ==> !Moves(x, from, to, max)
      invariant source != -1 ==>
        && 0 <= source < s && source in tmp && Moves(source, from, to, max) && dest == Remap(source, from, to, max)
        && dest in tmp
        && forall x :: x in tmp && x < s && Moves(x, from, to, max) ==> x <= source && Remap(x, from, to, max) in tmp
    {
      if s !in tmp { continue; }
      if Rank(from, max) != Rank(to, max) && s in to { continue; }
      var d := Remap(s, from, to, max);
      if s == d { continue; }
      source, dest := s, d;
      if dest !in tmp { break; }
    }
  }

  /** Whatever was picked, its destination will not be emptied later. */
  lemma {:induction false} PickedIsFinal(source: int, dest: nat, tmp: set<nat>, from: set<nat>, to: set<nat>, max: nat)
    requires Picked(source, dest, tmp, from, to, max) && source != -1
    requires tmp <= from && forall x :: x in from ==> x < max
    ensures !(dest in tmp && Moves(dest, from, to, max))
  {
    if Rank(from, max) == Rank(to, max) {
      if dest in tmp {
        var f := FreeDestination(source, tmp, from, to, max);
      }
    } else {
      RemapIs(source, from, to, max);
    }
  }

  // ----- the pages -----

  type Page = nat

  /** Where the pages are and how often each has moved. `stuck` are the pages that will not
      move when asked to, `broken` the source nodes whose migration fails as a whole. */
  class Memory {
    var at: map<Page, nat>
    var moves: map<Page, nat>
    const stuck: set<Page>
    const broken: set<nat>

    constructor (at: map<Page, nat>, stuck: set<Page>, broken: set<nat>)
      ensures Valid() && this.at == at && this.stuck == stuck && this.broken == broken
      ensures forall p :: p in moves ==> moves[p] == 0
    {
      this.at, this.stuck, this.broken := at, stuck, broken;
      moves := map p | p in at :: 0;
    }

    ghost predicate Valid() reads this { at.Keys == moves.Keys }

    /** migrate_to_node: every page on `source` that can move goes to `dest`; the result is the
        number that could not, or -1. */
    method MigrateToNode(source: nat, dest: nat) returns (err: int)
      requires Valid()
      modifies this
      ensures Valid() && at.Keys == old(at).Keys
      ensures err < 0 <==> source in broken
      ensures err < 0 ==> at == old(at) && moves == old(moves)
      ensures err >= 0 ==> err == |Held(old(at), source)|
      ensures err >= 0 ==> forall p :: p in at ==>
        if old(at)[p] == source && p !in stuck then at[p] == dest && moves[p] == old(moves)[p] + 1
        else at[p] == old(at)[p] && moves[p] == old(moves)[p]
    {
      if source in broken { return -1; }
      moves := map p | p in moves :: if at[p] == source && p !in stuck then moves[p] + 1 else moves[p];
      err := |Held(at, source)|;
      at := map p | p in at :: if at[p] == source && p !in stuck then dest else at[p];
    }

    /** The pages on `source` that will not move. */
    function Held(where: map<Page, nat>, source: nat): set<Page>
    {
      set p | p in where && where[p] == source && p in stuck
    }

    /** The pages that should have left their node and could not. */
    function AllHeld(where: map<Page, nat>, left: set<nat>): set<Page>
    {
      set p | p in where && where[p] in left && p in stuck
    }

    /** Page `p`, first on node `s`, once the nodes in `left` have been emptied. */
    ghost predicate PageIs(p: Page, s: nat, left: set<nat>, from: set<nat>, to: set<nat>, max: nat)
      requires p in at && p in moves
      reads this
    {
      if s in left && p !in stuck then at[p] == Remap(s, from, to, max) && moves[p] == 1
      else at[p] == s && moves[p] == 0
    }

    /** The destination of `s` will not be emptied. */
    ghost predicate Settled(s: nat, tmp: set<nat>, from: set<nat>, to: set<nat>, max: nat) {
      var d := Remap(s, from, to, max);
      !(d in tmp && Moves(d, from, to, max))
    }

    /** The nodes emptied so far, none of which received pages that would move again. */
    ghost predicate Progress(origin: map<Page, nat>, tmp: set<nat>, from: set<nat>, to: set<nat>, max: nat)
      reads this
    {
      && Valid() && at.Keys == origin.Keys && tmp <= from
      && (forall s :: s in from && s !in tmp ==> Moves(s, from, to, max) && Settled(s, tmp, from, to, max))
      && (forall p :: p in at ==> PageIs(p, origin[p], from - tmp, from, to, max))
    }

    /** One round of do_migrate_pages: empty the node that was picked. */
    method EmptyNode(ghost origin: map<Page, nat>, tmp: set<nat>, source: nat, dest: nat,
                     from: set<nat>, to: set<nat>, max: nat)
      returns (err: int)
      requires Progress(origin, tmp, from, to, max) && source in tmp
      requires Moves(source, from, to, max) && dest == Remap(source, from, to, max)
      requires Settled(source, tmp, from, to, max)
      modifies this
      ensures err < 0 ==> Progress(origin, tmp, from, to, max) && source in broken
      ensures err >= 0 ==> Progress(origin, tmp - {source}, from, to, max)
      ensures err >= 0 ==> err == |Held(origin, source)|
    {
      ghost var before := at;
      hide Moves, Remap;
      forall p | p in at ensures at[p] == source <==> origin[p] == source {
        assert PageIs(p, origin[p], from - tmp, from, to, max);
        if origin[p] in from - tmp { assert Settled(origin[p], tmp, from, to, max); }
      }
      assert Held(at, source) == Held(origin, source);
      err := MigrateToNode(source, dest);
      if err >= 0 {
        forall p | p in at ensures PageIs(p, origin[p], from - (tmp - {source}), from, to, max) {
          assert before[p] == source <==> origin[p] == source;
        }
        forall s | s in from && s !in tmp - {source} ensures Settled(s, tmp - {source}, from, to, max) {
          assert s != source ==> Settled(s, tmp, from, to, max);
        }
      }
    }

    lemma {:induction false} HeldGrows(origin: map<Page, nat>, left: set<nat>, source: nat)
      requires source !in left
      ensures |AllHeld(origin, left + {source})| == |AllHeld(origin, left)| + |Held(origin, source)|
    {
      assert AllHeld(origin, left + {source}) == AllHeld(origin, left) + Held(origin, source);
      assert AllHeld(origin, left) !! Held(origin, source);
    }

    /** do_migrate_pages: if no node fails, every page ends where the simultaneous remap puts it,
        after one move if that is another node and none otherwise; only stuck pages stay behind,
        and the result counts them. If a node fails, each page is in its old or its final place. */
    method DoMigratePages(from: set<nat>, to: set<nat>, max: nat) returns (busy: int)
      requires Valid() && forall p :: p in moves ==> moves[p] == 0
      requires forall x :: x in from ==> x < max
      modifies this
      ensures at.Keys == old(at).Keys && at.Keys == moves.Keys
      ensures forall p :: p in at && p in stuck ==> at[p] == old(at)[p]
      ensures forall p :: p in at ==> moves[p] == if at[p] == old(at)[p] then 0 else 1
      ensures forall p :: p in at ==> at[p] == old(at)[p] || Lands(old(at)[p], at[p], from, to, max)
      ensures busy >= 0 ==> forall p :: p in at && p !in stuck ==> Lands(old(at)[p], at[p], from, to, max)
      ensures busy >= 0 ==> busy == |Misplaced(old(at), from, to, max)|
      ensures busy < 0 ==> exists s :: s in broken && s in from && !Lands(s, s, from, to, max)
    {
      busy := 0;
      var tmp := from;
      while tmp != {}
        invariant Progress(old(at), tmp, from, to, max)
        invariant busy >= 0 && busy == |AllHeld(old(at), from - tmp)|
        decreases tmp
      {
        var source, dest := Pick(tmp, from, to, max);
        if source == -1 { break; }
        PickedIsFinal(source, dest, tmp, from, to, max);
        var err := EmptyNode(old(at), tmp, source, dest, from, to, max);
        if err < 0 {
          Outcome(old(at), tmp, from, to, max);
          TargetLands(source, source, from, to, max);
          return err;
        }
        HeldGrows(old(at), from - tmp, source);
        assert from - tmp + {source} == from - (tmp - {source});
        tmp := tmp - {source};
        busy := busy + err;
      }
      assert from - tmp == set s | s in from && Moves(s, from, to, max);
      Outcome(old(at), tmp, from, to, max);
      HeldAreMisplaced(old(at), from, to, max);
    }

    /** The pages that should have left their node and could not, said of where they belong. */
    function Misplaced(where: map<Page, nat>, from: set<nat>, to: set<nat>, max: nat): set<Page>
    {
      set p | p in where && p in stuck && !Lands(where[p], where[p], from, to, max)
    }

    lemma {:induction false} HeldAreMisplaced(where: map<Page, nat>, from: set<nat>, to: set<nat>, max: nat)
      ensures AllHeld(where, set s | s in from && Moves(s, from, to, max)) == Misplaced(where, from, to, max)
    {
      forall s ensures !Lands(s, s, from, to, max) <==> s in from && Moves(s, from, to, max) {
        TargetLands(s, s, from, to, max);
      }
    }

    /** Where the pages are once the nodes outside `tmp` have been emptied. */
    lemma {:induction false} Outcome(origin: map<Page, nat>, tmp: set<nat>, from: set<nat>, to: set<nat>, max: nat)
      requires Progress(origin, tmp, from, to, max)
      ensures forall p :: p in at && p in stuck ==> at[p] == origin[p]
      ensures forall p :: p in at ==> moves[p] == if at[p] == origin[p] then 0 else 1
      ensures forall p :: p in at ==> at[p] == origin[p] || Lands(origin[p], at[p], from, to, max)
      ensures forall p :: p in at && p !in stuck && (origin[p] in tmp ==> !Moves(origin[p], from, to, max)) ==>
        Lands(origin[p], at[p], from, to, max)
    {
      forall p | p in at
        ensures PageIs(p, origin[p], from - tmp, from, to, max)
        ensures Lands(origin[p], at[p], from, to, max) <==> at[p] == Target(origin[p], from, to, max)
      {
        TargetLands(origin[p], at[p], from, to, max);
      }
    }
  }
}
