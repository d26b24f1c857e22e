/**
Pids in nested namespaces: alloc_pid takes a number at every level and hashes
them all or gives everything back, free_pid takes them out of the hash before
their bits are cleared, and find_ge_pid steps through the bitmap to the next
hashed number.

Namespaces are named by their index in `spaces`; a pid's `levels` are the
namespace it lives in, last, and that one's ancestors before it.
*/
module PidTable {
  import opened Common
  import opened Pidmap

  /** No two namespaces share their bitmaps. */
  ghost predicate Apart(a: PidNs, b: PidNs) {
    && a != b && a.bits != b.bits && a.nrFree != b.nrFree && a.present != b.present
    && a.bits != b.present && b.bits != a.present
  }

  ghost predicate AllApart(chain: seq<PidNs>) {
    forall i, j :: 0 <= i < |chain| && 0 <= j < |chain| && i != j ==> Apart(chain[i], chain[j])
  }

  /** Giving back undoes taking. */
  lemma {:induction false} ClearUndoesSet(m: Bitmap, nr: nat)
    requires m.Fits() && nr < PID_MAX_LIMIT && !m.bits[nr]
    ensures m.Set(nr).Fits() && m.Set(nr).Clear(nr) == m
  {
  }

  ghost function Maps(chain: seq<PidNs>): set<object> {
    (set i | 0 <= i < |chain| :: chain[i].bits as object) + (set i | 0 <= i < |chain| :: chain[i].nrFree as object)
    + (set i | 0 <= i < |chain| :: chain[i].present as object)
  }

  ghost predicate AllValid(chain: seq<PidNs>)
    reads chain, Maps(chain)
  {
    forall i :: 0 <= i < |chain| ==> chain[i].Valid()
  }

  /** The bitmaps of all namespaces, their last pids, and their counts of hashed pids. */
  ghost function Bitmaps(chain: seq<PidNs>): (s: seq<Bitmap>)
    reads Maps(chain)
    ensures |s| == |chain|
  {
    seq(|chain|, i requires 0 <= i < |chain| reads Maps(chain) => Now(chain[i]))
  }

  ghost function Lasts(chain: seq<PidNs>): (s: seq<nat>)
    reads chain
    ensures |s| == |chain|
  {
    seq(|chain|, i requires 0 <= i < |chain| reads chain => chain[i].lastPid)
  }

  /** nr_hashed of all namespaces: the count and the flag. */
  ghost function HashedCounts(chain: seq<PidNs>): (s: seq<(int, bool)>)
    reads chain
    ensures |s| == |chain|
  {
    seq(|chain|, i requires 0 <= i < |chain| reads chain => (chain[i].nrHashed, chain[i].adding))
  }

  /** alloc_pidmap at one level leaves the others alone. */
  method TakeAt(chain: seq<PidNs>, i: nat, max: nat, oom: bool) returns (nr: int)
    requires AllApart(chain) && AllValid(chain) && i < |chain| && RESERVED_PIDS < max <= PID_MAX_LIMIT
    modifies chain, Maps(chain)
    ensures AllValid(chain) && HashedCounts(chain) == old(HashedCounts(chain))
    ensures old(Bitmaps(chain))[i].Fits()
    ensures nr < 0 ==> Bitmaps(chain) == old(Bitmaps(chain))
    ensures nr < 0 && !oom ==> Exhausted(old(Bitmaps(chain))[i].bits, old(Lasts(chain))[i], max)
    ensures nr >= 0 ==> NextFit(old(Bitmaps(chain))[i].bits, old(Lasts(chain))[i], max, nr)
    ensures nr >= 0 ==> Bitmaps(chain) == old(Bitmaps(chain))[i := old(Bitmaps(chain))[i].Set(nr)]
    ensures nr >= 0 ==> Lasts(chain) == old(Lasts(chain))[i := nr]
  {
    nr := chain[i].AllocPidmap(max, oom);
    forall j | 0 <= j < |chain| && j != i ensures Now(chain[j]) == old(Now(chain[j])) && chain[j].Valid() {
      assert Apart(chain[i], chain[j]);
    }
  }

  /** free_pidmap at one level leaves the others alone. */
  method GiveBackAt(chain: seq<PidNs>, i: nat, nr: nat)
    requires AllApart(chain) && AllValid(chain) && i < |chain| && nr < PID_MAX_LIMIT && chain[i].bits[nr]
    modifies Maps(chain)
    ensures AllValid(chain)
    ensures old(Bitmaps(chain))[i].Fits()
    ensures Bitmaps(chain) == old(Bitmaps(chain))[i := old(Bitmaps(chain))[i].Clear(nr)]
  {
    chain[i].FreePidmap(nr);
    forall j | 0 <= j < |chain| && j != i ensures Now(chain[j]) == old(Now(chain[j])) && chain[j].Valid() {
      assert Apart(chain[i], chain[j]);
    }
  }

  // ----- several levels -----

  ghost predicate LevelsOk(levels: seq<nat>, n: nat) {
    && levels != []
    && (forall j :: 0 <= j < |levels| ==> levels[j] < n)
    && (forall i, j :: 0 <= i < j < |levels| ==> levels[i] != levels[j])
  }

  /** Every namespace is as it `was`, except that the levels from `from` on have their number taken. */
  ghost predicate Holding(now: seq<Bitmap>, was: seq<Bitmap>, levels: seq<nat>, numbers: seq<nat>, from: nat) {
    && |now| == |was| && LevelsOk(levels, |was|) && |numbers| == |levels| && from <= |levels|
    && (forall j :: from <= j < |levels| ==> HoldsAt(now[levels[j]], was[levels[j]], numbers[j]))
    && (forall k :: 0 <= k < |was| && k !in levels[from..] ==> now[k] == was[k])
  }

  ghost predicate HoldsAt(now: Bitmap, was: Bitmap, nr: nat) {
    was.Fits() && nr < PID_MAX_LIMIT && !was.bits[nr] && now == was.Set(nr)
  }

  lemma {:induction false} HoldMore(now: seq<Bitmap>, was: seq<Bitmap>, levels: seq<nat>, numbers: seq<nat>, i: nat,
                                    nr: nat)
    requires Holding(now, was, levels, numbers, i + 1) && i < |levels|
    ensures now[levels[i]] == was[levels[i]]
    ensures was[levels[i]].Fits() && nr < PID_MAX_LIMIT && !was[levels[i]].bits[nr] ==>
      Holding(now[levels[i] := was[levels[i]].Set(nr)], was, levels, numbers[i := nr], i)
  {
    assert levels[i..] == [levels[i]] + levels[i + 1..];
  }

  lemma {:induction false} HoldLess(now: seq<Bitmap>, was: seq<Bitmap>, levels: seq<nat>, numbers: seq<nat>, i: nat)
    requires Holding(now, was, levels, numbers, i) && i < |levels|
    ensures HoldsAt(now[levels[i]], was[levels[i]], numbers[i]) && now[levels[i]].Fits()
    ensures Holding(now[levels[i] := now[levels[i]].Clear(numbers[i])], was, levels, numbers, i + 1)
  {
    assert HoldsAt(now[levels[i]], was[levels[i]], numbers[i]);
    assert levels[i..] == [levels[i]] + levels[i + 1..];
    ClearUndoesSet(was[levels[i]], numbers[i]);
  }

  lemma {:induction false} HoldNone(now: seq<Bitmap>, was: seq<Bitmap>, levels: seq<nat>, numbers: seq<nat>)
    requires Holding(now, was, levels, numbers, |levels|)
    ensures now == was
  {
  }

  /** The error path of alloc_pid. */
  method Rollback(spaces: seq<PidNs>, levels: seq<nat>, numbers: seq<nat>, from: nat, ghost was: seq<Bitmap>)
    requires AllApart(spaces) && AllValid(spaces) && |was| == |spaces|
    requires Holding(Bitmaps(spaces), was, levels, numbers, from)
    modifies Maps(spaces)
    ensures AllValid(spaces) && Bitmaps(spaces) == was
    ensures HashedCounts(spaces) == old(HashedCounts(spaces))
  {
    for i := from to |levels|
      invariant AllValid(spaces) && Holding(Bitmaps(spaces), was, levels, numbers, i)
    {
      HoldLess(Bitmaps(spaces), was, levels, numbers, i);
      GiveBackAt(spaces, levels[i], numbers[i]);
    }
    HoldNone(Bitmaps(spaces), was, levels, numbers);
  }

  /** The next-fit numbers of all levels. */
  ghost predicate AllNextFit(was: seq<Bitmap>, lasts: seq<nat>, levels: seq<nat>, numbers: seq<nat>, from: nat,
                             max: nat)
    requires |was| == |lasts| && LevelsOk(levels, |was|) && |numbers| == |levels|
  {
    forall j :: from <= j < |levels| ==>
      max <= |was[levels[j]].bits| && NextFit(was[levels[j]].bits, lasts[levels[j]], max, numbers[j])
  }

  /** Some level has no number left. */
  ghost predicate SomeExhausted(was: seq<Bitmap>, lasts: seq<nat>, levels: seq<nat>, max: nat)
    requires |was| == |lasts| && LevelsOk(levels, |was|)
  {
    exists j :: 0 <= j < |levels| && max <= |was[levels[j]].bits|
      && Exhausted(was[levels[j]].bits, lasts[levels[j]], max)
  }

  /** The first loop of alloc_pid: a number at every level, or none at all. */
  method TakeNumbers(spaces: seq<PidNs>, levels: seq<nat>, max: nat, oom: bool, ghost was: seq<Bitmap>,
                     ghost lasts: seq<nat>)
    returns (ok: bool, numbers: seq<nat>)
    requires AllApart(spaces) && AllValid(spaces) && LevelsOk(levels, |spaces|) && RESERVED_PIDS < max <= PID_MAX_LIMIT
    requires was == Bitmaps(spaces) && lasts == Lasts(spaces)
    modifies spaces, Maps(spaces)
    ensures AllValid(spaces) && HashedCounts(spaces) == old(HashedCounts(spaces))
    ensures !ok ==> Bitmaps(spaces) == was
    ensures !ok && !oom ==> SomeExhausted(was, lasts, levels, max)
    ensures ok ==> Holding(Bitmaps(spaces), was, levels, numbers, 0)
    ensures ok ==> AllNextFit(was, lasts, levels, numbers, 0, max)
  {
    hide Exhausted, NextFit, Holding, Bitmaps, Lasts, HashedCounts, AllValid, AllApart, AllNextFit, Maps, Bitmap.Set;
    ok := true;
    numbers := seq(|levels|, _ => 0);
    HoldStarts(was, lasts, levels, numbers, max);
    for i := |levels| downto 0
      invariant AllValid(spaces) && HashedCounts(spaces) == old(HashedCounts(spaces))
      invariant |numbers| == |levels| && Holding(Bitmaps(spaces), was, levels, numbers, i)
      invariant forall j :: 0 <= j < i ==> Lasts(spaces)[levels[j]] == lasts[levels[j]]
      invariant AllNextFit(was, lasts, levels, numbers, i, max)
    {
      HoldMore(Bitmaps(spaces), was, levels, numbers, i, 0);
      Distinct(levels, |spaces|, i);
      ghost var now := Bitmaps(spaces);
      var nr := TakeAt(spaces, levels[i], max, oom);
      if nr < 0 {
        Rollback(spaces, levels, numbers, i + 1, was);
        return false, [];
      }
      FitIsFree(was[levels[i]], lasts[levels[i]], max, nr);
      HoldMore(now, was, levels, numbers, i, nr);
      FitMore(was, lasts, levels, numbers, i, max, nr);
      numbers := numbers[i := nr];
    }
  }

  lemma {:induction false} Distinct(levels: seq<nat>, n: nat, i: nat)
    requires LevelsOk(levels, n) && i < |levels|
    ensures levels[i] < n && forall j :: 0 <= j < i ==> levels[j] != levels[i]
  {
  }

  lemma {:induction false} HoldStarts(was: seq<Bitmap>, lasts: seq<nat>, levels: seq<nat>, numbers: seq<nat>, max: nat)
    requires |was| == |lasts| && LevelsOk(levels, |was|) && |numbers| == |levels|
    ensures Holding(was, was, levels, numbers, |levels|) && AllNextFit(was, lasts, levels, numbers, |levels|, max)
  {
  }

  lemma {:induction false} FitMore(was: seq<Bitmap>, lasts: seq<nat>,
                                   levels: seq<nat>, numbers: seq<nat>, i: nat, max: nat, nr: nat)
    requires |was| == |lasts| && LevelsOk(levels, |was|) && |numbers| == |levels| && i < |levels|
    requires AllNextFit(was, lasts, levels, numbers, i + 1, max)
    requires max <= |was[levels[i]].bits| && NextFit(was[levels[i]].bits, lasts[levels[i]], max, nr)
    ensures AllNextFit(was, lasts, levels, numbers[i := nr], i, max)
  {
  }

  lemma {:induction false} FitIsFree(was: Bitmap, last: nat, max: nat, nr: nat)
    requires was.Fits() && max <= PID_MAX_LIMIT && NextFit(was.bits, last, max, nr)
    ensures nr < PID_MAX_LIMIT && !was.bits[nr]
  {
  }

  // ----- the hash -----

  /** A number of the pid `pid` in one namespace, as it hangs in the hash. */
  datatype Upid = Upid(nr: nat, ns: nat, pid: nat)

  /** The chains of pid_hash; `fn` is the hash function before it is cut to the table's size. */
  datatype Hash = Hash(chains: seq<seq<Upid>>, fn: (nat, nat) -> nat) {

    function Bucket(nr: nat, ns: nat): nat
      requires chains != []
    {
      fn(nr, ns) % |chains|
    }

    ghost predicate Has(u: Upid) { chains != [] && u in chains[Bucket(u.nr, u.ns)] }

    ghost predicate Free(nr: nat, ns: nat) { forall u: Upid :: Has(u) && u.nr == nr ==> u.ns != ns }

    /** Every entry is on its own chain, and no two have the same number in the same namespace. */
    ghost predicate Ok() {
      && chains != []
      && forall b :: 0 <= b < |chains| ==> ChainOk(b)
    }

    ghost predicate ChainOk(b: nat)
      requires b < |chains|
    {
      && (forall i :: 0 <= i < |chains[b]| ==> Bucket(chains[b][i].nr, chains[b][i].ns) == b)
      && (forall i, j :: 0 <= i < j < |chains[b]| ==>
            !(chains[b][i].nr == chains[b][j].nr && chains[b][i].ns == chains[b][j].ns))
    }

    /** hlist_add_head_rcu. */
    function Add(u: Upid): Hash
      requires chains != []
    {
      var b := Bucket(u.nr, u.ns);
      Hash(chains[b := [u] + chains[b]], fn)
    }

    lemma {:induction false} AddIs(u: Upid)
      requires Ok() && Free(u.nr, u.ns)
      ensures Add(u).Ok() && forall v: Upid :: Add(u).Has(v) <==> Has(v) || v == u
    {
      var h := Add(u);
      var c := Bucket(u.nr, u.ns);
      forall b | 0 <= b < |h.chains| ensures h.ChainOk(b) {
        assert ChainOk(b);
        if b == c {
          forall i | 0 < i < |h.chains[b]| ensures !(h.chains[b][i].nr == u.nr && h.chains[b][i].ns == u.ns) {
            assert h.chains[b][i] == chains[b][i - 1] && Has(chains[b][i - 1]);
          }
        }
      }
    }

    /** hlist_del_rcu. */
    function Remove(u: Upid): Hash
      requires chains != []
    {
      var b := Bucket(u.nr, u.ns);
      Hash(chains[b := Without(chains[b], u)], fn)
    }

    lemma {:induction false} RemoveIs(u: Upid)
      requires Ok() && Has(u)
      ensures Remove(u).Ok() && forall v: Upid :: Remove(u).Has(v) <==> Has(v) && v != u
    {
      var h := Remove(u);
      RemoveKeepsChains(u);
      forall v: Upid ensures h.Has(v) <==> Has(v) && v != u { RemoveHas(u, v); }
    }

    lemma {:induction false} RemoveHas(u: Upid, v: Upid)
      requires Ok() && Has(u)
      ensures Remove(u).Has(v) <==> Has(v) && v != u
    {
      var c := Bucket(u.nr, u.ns);
      assert ChainOk(c);
      var s := chains[c];
      var k := WithoutIs(s, u);
      assert s == s[..k] + [u] + s[k + 1..];
      assert v in s[..k] || v in s[k + 1..] ==> v != u;
    }

    lemma {:induction false} RemoveKeepsChains(u: Upid)
      requires Ok() && Has(u)
      ensures Remove(u).Ok()
    {
      var h, c := Remove(u), Bucket(u.nr, u.ns);
      var k := WithoutIs(chains[c], u);
      forall b | 0 <= b < |h.chains| ensures h.ChainOk(b) {
        assert ChainOk(b);
      }
    }

    lemma {:induction false} SameKey(u: Upid, v: Upid)
      requires Ok() && Has(u) && Has(v) && u.nr == v.nr && u.ns == v.ns
      ensures u == v
    {
      assert ChainOk(Bucket(u.nr, u.ns));
    }
  }

  function Without(s: seq<Upid>, u: Upid): seq<Upid> {
    if s == [] then [] else if s[0] == u then s[1..] else [s[0]] + Without(s[1..], u)
  }

  lemma {:induction false} WithoutIs(s: seq<Upid>, u: Upid) returns (k: nat)
    requires u in s
    ensures k < |s| && s[k] == u && Without(s, u) == s[..k] + s[k + 1..]
  {
    if s[0] == u {
      k := 0;
    } else {
      var j := WithoutIs(s[1..], u);
      k := j + 1;
      assert s[..k] == [s[0]] + s[1..][..j] && s[k + 1..] == s[1..][j + 1..];
    }
  }

  // ----- how many of a namespace are hashed -----

  function InChain(s: seq<Upid>, ns: nat): nat {
    if s == [] then 0 else (if s[0].ns == ns then 1 else 0) + InChain(s[1..], ns)
  }

  function InChains(chains: seq<seq<Upid>>, ns: nat): nat {
    if chains == [] then 0 else InChain(chains[0], ns) + InChains(chains[1..], ns)
  }

  lemma {:induction false} InChainsUpdate(chains: seq<seq<Upid>>, b: nat, s: seq<Upid>, ns: nat)
    requires b < |chains|
    ensures InChains(chains[b := s], ns) == InChains(chains, ns) - InChain(chains[b], ns) + InChain(s, ns)
  {
    if b == 0 {
      assert chains[0 := s][1..] == chains[1..];
    } else {
      assert chains[b := s][1..] == chains[1..][b - 1 := s];
      InChainsUpdate(chains[1..], b - 1, s, ns);
    }
  }

  lemma {:induction false} InChainWithout(s: seq<Upid>, u: Upid, ns: nat)
    requires u in s
    ensures InChain(Without(s, u), ns) == InChain(s, ns) - if u.ns == ns then 1 else 0
  {
    if s[0] != u {
      InChainWithout(s[1..], u, ns);
      assert ([s[0]] + Without(s[1..], u))[1..] == Without(s[1..], u);
    }
  }

  lemma {:induction false} NothingHashed(chains: seq<seq<Upid>>, ns: nat)
    requires forall b :: 0 <= b < |chains| ==> chains[b] == []
    ensures InChains(chains, ns) == 0
  {
    if chains != [] { NothingHashed(chains[1..], ns); }
  }

  /** nr_hashed of every namespace is the number of its entries in the hash. */
  ghost predicate Tallied(h: Hash, counts: seq<(int, bool)>) {
    forall k :: 0 <= k < |counts| ==> counts[k].0 == InChains(h.chains, k)
  }

  lemma {:induction false} AddTallied(h: Hash, counts: seq<(int, bool)>, u: Upid)
    requires h.chains != [] && Tallied(h, counts) && u.ns < |counts|
    ensures Tallied(h.Add(u), counts[u.ns := (counts[u.ns].0 + 1, counts[u.ns].1)])
  {
    var b := h.Bucket(u.nr, u.ns);
    forall k: nat | k < |counts| ensures InChains(h.Add(u).chains, k) == counts[k].0 + if k == u.ns then 1 else 0 {
      InChainsUpdate(h.chains, b, [u] + h.chains[b], k);
      assert ([u] + h.chains[b])[1..] == h.chains[b];
    }
  }

  lemma {:induction false} RemoveTallied(h: Hash, counts: seq<(int, bool)>, u: Upid)
    requires h.Has(u) && Tallied(h, counts) && u.ns < |counts|
    ensures Tallied(h.Remove(u), counts[u.ns := (counts[u.ns].0 - 1, counts[u.ns].1)])
  {
    var b := h.Bucket(u.nr, u.ns);
    forall k: nat | k < |counts| ensures InChains(h.Remove(u).chains, k) == counts[k].0 - if k == u.ns then 1 else 0 {
      InChainsUpdate(h.chains, b, Without(h.chains[b], u), k);
      InChainWithout(h.chains[b], u, k);
    }
  }

  // ----- the table -----

  /** Every hashed number is a set bit of its namespace. */
  ghost predicate Backed(h: Hash, maps: seq<Bitmap>) {
    forall u: Upid :: h.Has(u) ==> u.ns < |maps| && u.nr < |maps[u.ns].bits| && maps[u.ns].bits[u.nr]
  }

  /** `u` is one of the numbers of the new pid, of the levels from `from` on. */
  ghost predicate Among(u: Upid, levels: seq<nat>, numbers: seq<nat>, pid: nat, from: nat)
    requires |levels| == |numbers|
  {
    exists j :: from <= j < |levels| && u == Upid(numbers[j], levels[j], pid)
  }

  ghost predicate Added(h: Hash, was: Hash, levels: seq<nat>, numbers: seq<nat>, pid: nat, from: nat)
    requires |levels| == |numbers|
  {
    forall u: Upid :: h.Has(u) <==> was.Has(u) || Among(u, levels, numbers, pid, from)
  }

  ghost predicate Counted(now: seq<(int, bool)>, was: seq<(int, bool)>, levels: seq<nat>, from: nat, delta: int)
    requires from <= |levels|
  {
    |now| == |was| && forall k :: 0 <= k < |was| ==>
      now[k] == (if k in levels[from..] then was[k].0 + delta else was[k].0, was[k].1)
  }

  /** A number that was free in every level is not in the hash, nor among the numbers of other levels. */
  lemma {:induction false} NextIsFree(h: Hash, h0: Hash, was: seq<Bitmap>, now: seq<Bitmap>,
                                      levels: seq<nat>, numbers: seq<nat>, pid: nat, i: nat)
    requires Backed(h0, was) && Holding(now, was, levels, numbers, 0) && i < |levels|
    requires Added(h, h0, levels, numbers, pid, i + 1)
    ensures h.Free(numbers[i], levels[i])
  {
    forall u: Upid | h.Has(u) && u.nr == numbers[i] ensures u.ns != levels[i] {
      assert HoldsAt(now[levels[i]], was[levels[i]], numbers[i]);
      if !h0.Has(u) {
        assert Among(u, levels, numbers, pid, i + 1);
      }
    }
  }

  lemma {:induction false} NoneYet(h: Hash, counts: seq<(int, bool)>, levels: seq<nat>, numbers: seq<nat>, pid: nat)
    requires |levels| == |numbers|
    ensures Added(h, h, levels, numbers, pid, |levels|)
    ensures forall delta :: Counted(counts, counts, levels, |levels|, delta)
  {
  }

  lemma {:induction false} AddMore(h: Hash, h0: Hash, levels: seq<nat>, numbers: seq<nat>, pid: nat, i: nat)
    requires |levels| == |numbers| && i < |levels| && h.Ok() && h.Free(numbers[i], levels[i])
    requires Added(h, h0, levels, numbers, pid, i + 1)
    ensures var h' := h.Add(Upid(numbers[i], levels[i], pid)); h'.Ok() && Added(h', h0, levels, numbers, pid, i)
  {
    var v := Upid(numbers[i], levels[i], pid);
    h.AddIs(v);
    forall u: Upid ensures Among(u, levels, numbers, pid, i) <==> Among(u, levels, numbers, pid, i + 1) || u == v {}
  }

  lemma {:induction false} HashMore(h: Hash, h0: Hash, was: seq<Bitmap>, now: seq<Bitmap>,
                                    levels: seq<nat>, numbers: seq<nat>, pid: nat, i: nat)
    requires Backed(h0, was) && Holding(now, was, levels, numbers, 0) && i < |levels|
    requires h.Ok() && Added(h, h0, levels, numbers, pid, i + 1)
    ensures levels[i] < |was| && h.chains != []
    ensures var h' := h.Add(Upid(numbers[i], levels[i], pid)); h'.Ok() && Added(h', h0, levels, numbers, pid, i)
  {
    NextIsFree(h, h0, was, now, levels, numbers, pid, i);
    AddMore(h, h0, levels, numbers, pid, i);
  }

  lemma {:induction false} CountMore(now: seq<(int, bool)>, was: seq<(int, bool)>, levels: seq<nat>, i: nat, delta: int)
    requires LevelsOk(levels, |was|) && i < |levels| && Counted(now, was, levels, i + 1, delta)
    ensures Counted(now[levels[i] := (now[levels[i]].0 + delta, now[levels[i]].1)], was, levels, i, delta)
  {
    assert levels[i..] == [levels[i]] + levels[i + 1..];
  }

  /** With all numbers hashed, hashed numbers are still set bits. */
  lemma {:induction false} StillBacked(h: Hash, h0: Hash, was: seq<Bitmap>, now: seq<Bitmap>,
                                       levels: seq<nat>, numbers: seq<nat>, pid: nat)
    requires Backed(h0, was) && Holding(now, was, levels, numbers, 0)
    requires Added(h, h0, levels, numbers, pid, 0)
    ensures Backed(h, now)
  {
    forall u: Upid | h.Has(u) ensures u.ns < |now| && u.nr < |now[u.ns].bits| && now[u.ns].bits[u.nr] {
      assert levels[0..] == levels;
      if u.ns in levels {
        var j :| 0 <= j < |levels| && levels[j] == u.ns;
        assert HoldsAt(now[levels[j]], was[levels[j]], numbers[j]);
      }
      if !h0.Has(u) {
        var j :| 0 <= j < |levels| && u == Upid(numbers[j], levels[j], pid);
        assert HoldsAt(now[levels[j]], was[levels[j]], numbers[j]);
      }
    }
  }

  // ----- free_pid -----

  /** The first `upto` numbers of the pid are no longer hashed. */
  ghost predicate Unhashed(h: Hash, was: Hash, levels: seq<nat>, numbers: seq<nat>, pid: nat, upto: nat)
    requires |levels| == |numbers| && upto <= |levels|
  {
    forall u: Upid :: h.Has(u) <==> was.Has(u) && !Among(u, levels[..upto], numbers[..upto], pid, 0)
  }

  /** The first `upto` levels have their number given back, and nothing else has changed. */
  ghost predicate Given(now: seq<Bitmap>, was: seq<Bitmap>, levels: seq<nat>, numbers: seq<nat>, upto: nat) {
    && |now| == |was| && LevelsOk(levels, |was|) && |numbers| == |levels| && upto <= |levels|
    && (forall j :: 0 <= j < upto ==> GivenAt(now[levels[j]], was[levels[j]], numbers[j]))
    && (forall k :: 0 <= k < |was| && k !in levels[..upto] ==> now[k] == was[k])
  }

  ghost predicate GivenAt(now: Bitmap, was: Bitmap, nr: nat) {
    was.Fits() && nr < PID_MAX_LIMIT && was.bits[nr] && now == was.Clear(nr)
  }

  ghost predicate CountedUpto(now: seq<(int, bool)>, was: seq<(int, bool)>, levels: seq<nat>, upto: nat, delta: int)
    requires upto <= |levels|
  {
    |now| == |was| && forall k :: 0 <= k < |was| ==>
      now[k] == (if k in levels[..upto] then was[k].0 + delta else was[k].0, was[k].1)
  }

  lemma {:induction false} CountUpto(now: seq<(int, bool)>, was: seq<(int, bool)>, levels: seq<nat>, i: nat, delta: int)
    requires LevelsOk(levels, |was|) && i < |levels| && CountedUpto(now, was, levels, i, delta)
    ensures CountedUpto(now[levels[i] := (now[levels[i]].0 + delta, now[levels[i]].1)], was, levels, i + 1, delta)
  {
    assert levels[..i + 1] == levels[..i] + [levels[i]];
  }

  lemma {:induction false} NoneGiven(was: seq<Bitmap>, levels: seq<nat>, numbers: seq<nat>)
    requires LevelsOk(levels, |was|) && |numbers| == |levels|
    ensures Given(was, was, levels, numbers, 0)
  {
  }

  lemma {:induction false} UnhashMore(h: Hash, h0: Hash, levels: seq<nat>, numbers: seq<nat>, pid: nat, i: nat)
    requires |levels| == |numbers| && i < |levels|
    requires h.Ok() && Unhashed(h, h0, levels, numbers, pid, i) && h0.Has(Upid(numbers[i], levels[i], pid))
    requires forall j :: 0 <= j < i ==> levels[j] != levels[i]
    ensures h.chains != []
    ensures var h' := h.Remove(Upid(numbers[i], levels[i], pid));
      h'.Ok() && Unhashed(h', h0, levels, numbers, pid, i + 1)
  {
    var v := Upid(numbers[i], levels[i], pid);
    h.RemoveIs(v);
    forall u: Upid
      ensures Among(u, levels[..i + 1], numbers[..i + 1], pid, 0) <==>
        Among(u, levels[..i], numbers[..i], pid, 0) || u == v
    {
      if u == v { assert u == Upid(numbers[..i + 1][i], levels[..i + 1][i], pid); }
    }
  }

  /** Freeing what was allocated brings every bitmap back. */
  lemma {:induction false} FreeUndoesAlloc(was: seq<Bitmap>, now: seq<Bitmap>, after: seq<Bitmap>,
                                           levels: seq<nat>, numbers: seq<nat>)
    requires Holding(now, was, levels, numbers, 0) && Given(after, now, levels, numbers, |levels|)
    ensures after == was
  {
    assert levels[0..] == levels && levels[..|levels|] == levels;
    forall k | 0 <= k < |was| ensures after[k] == was[k] {
      if k in levels {
        var j :| 0 <= j < |levels| && levels[j] == k;
        assert HoldsAt(now[levels[j]], was[levels[j]], numbers[j]);
        assert GivenAt(after[levels[j]], now[levels[j]], numbers[j]);
        ClearUndoesSet(was[k], numbers[j]);
      }
    }
  }

  /** Clearing the bit of a number that is no longer hashed. */
  lemma {:induction false} GiveMoreIs(h: Hash, h0: Hash, now: seq<Bitmap>, was: seq<Bitmap>,
                                      levels: seq<nat>, numbers: seq<nat>, pid: nat, i: nat)
    requires Given(now, was, levels, numbers, i) && i < |levels| && Backed(h, now) && h.Free(numbers[i], levels[i])
    requires Backed(h0, was) && h0.Has(Upid(numbers[i], levels[i], pid))
    ensures numbers[i] < |now[levels[i]].bits| && now[levels[i]].bits[numbers[i]]
    ensures now[levels[i]].Fits() ==>
      var n := now[levels[i] := now[levels[i]].Clear(numbers[i])]; Given(n, was, levels, numbers, i + 1) && Backed(h, n)
  {
    assert levels[..i + 1] == levels[..i] + [levels[i]];
    assert was[levels[i]].bits[numbers[i]];
  }

  lemma {:induction false} GoneIsFree(h: Hash, h0: Hash, levels: seq<nat>, numbers: seq<nat>, pid: nat, i: nat)
    requires |levels| == |numbers| && i < |levels| && h0.Ok() && h0.Has(Upid(numbers[i], levels[i], pid))
    requires Unhashed(h, h0, levels, numbers, pid, |levels|)
    ensures h.Free(numbers[i], levels[i])
  {
    var v := Upid(numbers[i], levels[i], pid);
    assert levels[..|levels|] == levels && numbers[..|numbers|] == numbers;
    assert Among(v, levels, numbers, pid, 0);
    forall u: Upid | h.Has(u) && u.nr == v.nr ensures u.ns != v.ns {
      if u.ns == v.ns { h0.SameKey(u, v); }
    }
  }

  class Table {
    const spaces: seq<PidNs>
    var hash: Hash

    constructor (spaces: seq<PidNs>, buckets: nat, fn: (nat, nat) -> nat)
      requires AllApart(spaces) && AllValid(spaces) && buckets > 0
      requires forall k :: 0 <= k < |spaces| ==> spaces[k].nrHashed == 0
      ensures Valid() && this.spaces == spaces && forall u: Upid :: !hash.Has(u)
    {
      this.spaces := spaces;
      hash := Hash(seq(buckets, _ => []), fn);
      new;
      forall k: nat ensures InChains(hash.chains, k) == 0 { NothingHashed(hash.chains, k); }
    }

    /** Hashed numbers are set bits, and each namespace's nr_hashed is the number of its entries. */
    ghost predicate Valid()
      reads this, spaces, Maps(spaces)
    {
      && AllApart(spaces) && AllValid(spaces) && hash.Ok() && Backed(hash, Bitmaps(spaces))
      && Tallied(hash, HashedCounts(spaces))
    }

    /** alloc_pid. `noStruct` says that the pid structure cannot be allocated, `procFails` that the
        namespace's first pid could not set up its proc mount. */
    method AllocPid(levels: seq<nat>, pid: nat, max: nat, noStruct: bool, oom: bool, procFails: bool)
      returns (ok: bool, numbers: seq<nat>)
      requires Valid() && LevelsOk(levels, |spaces|) && RESERVED_PIDS < max <= PID_MAX_LIMIT
      modifies this, spaces, Maps(spaces)
      ensures Valid()
      ensures !ok ==> hash == old(hash) && Bitmaps(spaces) == old(Bitmaps(spaces))
      ensures !ok ==> HashedCounts(spaces) == old(HashedCounts(spaces))
      ensures !ok && !noStruct && !oom && !procFails && old(HashedCounts(spaces))[levels[|levels| - 1]].1 ==>
        SomeExhausted(old(Bitmaps(spaces)), old(Lasts(spaces)), levels, max)
      ensures ok ==> !noStruct && !procFails && old(HashedCounts(spaces))[levels[|levels| - 1]].1
      ensures ok ==> Holding(Bitmaps(spaces), old(Bitmaps(spaces)), levels, numbers, 0)
      ensures ok ==> AllNextFit(old(Bitmaps(spaces)), old(Lasts(spaces)), levels, numbers, 0, max)
      ensures ok ==> Added(hash, old(hash), levels, numbers, pid, 0)
      ensures ok ==> Counted(HashedCounts(spaces), old(HashedCounts(spaces)), levels, 0, 1)
    {
      numbers := [];
      if noStruct { return false, []; }
      ghost var was, lasts := Bitmaps(spaces), Lasts(spaces);
      ok, numbers := TakeNumbers(spaces, levels, max, oom, was, lasts);
      if !ok { return; }
      hide Holding, AllNextFit, Backed, AllApart, AllValid, SomeExhausted, Tallied;
      assert HashedCounts(spaces)[levels[|levels| - 1]].1 == spaces[levels[|levels| - 1]].adding;
      if procFails || !spaces[levels[|levels| - 1]].adding {
        Rollback(spaces, levels, numbers, 0, was);
        return false, [];
      }
      HashAll(levels, numbers, pid, was);
    }

    /** The second loop of alloc_pid, under pidmap_lock. */
    method HashAll(levels: seq<nat>, numbers: seq<nat>, pid: nat, ghost was: seq<Bitmap>)
      requires AllApart(spaces) && AllValid(spaces) && hash.Ok() && Backed(hash, was)
      requires Holding(Bitmaps(spaces), was, levels, numbers, 0) && Tallied(hash, HashedCounts(spaces))
      modifies this, spaces
      ensures AllValid(spaces) && hash.Ok() && Backed(hash, Bitmaps(spaces)) && Tallied(hash, HashedCounts(spaces))
      ensures Bitmaps(spaces) == old(Bitmaps(spaces))
      ensures Added(hash, old(hash), levels, numbers, pid, 0)
      ensures Counted(HashedCounts(spaces), old(HashedCounts(spaces)), levels, 0, 1)
    {
      ghost var now, h0, c0 := Bitmaps(spaces), hash, HashedCounts(spaces);
      NoneYet(hash, c0, levels, numbers, pid);
      hide Holding, Added, Backed, AllApart, AllValid, Counted, Bitmaps, HashedCounts, Maps, Among, Hash.Ok, Tallied;
      for i := |levels| downto 0
        invariant AllValid(spaces) && hash.Ok() && Bitmaps(spaces) == now && Tallied(hash, HashedCounts(spaces))
        invariant Added(hash, h0, levels, numbers, pid, i)
        invariant Counted(HashedCounts(spaces), c0, levels, i, 1)
      {
        HashOne(levels, numbers, pid, i, was, h0, c0);
      }
      StillBacked(hash, h0, was, now, levels, numbers, pid);
    }

    /** Hash the number of level `i`. */
    method HashOne(levels: seq<nat>, numbers: seq<nat>, pid: nat, i: nat,
                   ghost was: seq<Bitmap>, ghost h0: Hash, ghost c0: seq<(int, bool)>)
      requires AllApart(spaces) && AllValid(spaces) && hash.Ok() && Backed(h0, was) && i < |levels| && |c0| == |spaces|
      requires Holding(Bitmaps(spaces), was, levels, numbers, 0) && Tallied(hash, HashedCounts(spaces))
      requires Added(hash, h0, levels, numbers, pid, i + 1) && Counted(HashedCounts(spaces), c0, levels, i + 1, 1)
      modifies this, spaces
      ensures AllValid(spaces) && hash.Ok() && Bitmaps(spaces) == old(Bitmaps(spaces))
      ensures Tallied(hash, HashedCounts(spaces))
      ensures Added(hash, h0, levels, numbers, pid, i) && Counted(HashedCounts(spaces), c0, levels, i, 1)
    {
      hide Added, Backed, Counted, Among, Hash.Ok, Hash.Add, HashedCounts, Tallied;
      HashMore(hash, h0, was, Bitmaps(spaces), levels, numbers, pid, i);
      CountMore(HashedCounts(spaces), c0, levels, i, 1);
      AddTallied(hash, HashedCounts(spaces), Upid(numbers[i], levels[i], pid));
      hash := hash.Add(Upid(numbers[i], levels[i], pid));
      CountAt(levels, i, 1);
    }

    /** One namespace's nr_hashed changes; the rest stays. */
    method CountAt(levels: seq<nat>, i: nat, delta: int)
      requires AllApart(spaces) && AllValid(spaces) && LevelsOk(levels, |spaces|) && i < |levels|
      modifies spaces
      ensures AllValid(spaces) && Bitmaps(spaces) == old(Bitmaps(spaces)) && hash == old(hash)
      ensures var was := old(HashedCounts(spaces));
        HashedCounts(spaces) == was[levels[i] := (was[levels[i]].0 + delta, was[levels[i]].1)]
    {
      var ns := spaces[levels[i]];
      ns.nrHashed := ns.nrHashed + delta;
      forall j | 0 <= j < |spaces| && j != levels[i] ensures spaces[j].nrHashed == old(spaces[j].nrHashed) {
        assert Apart(spaces[levels[i]], spaces[j]);
      }
    }

    /** free_pid. */
    method FreePid(levels: seq<nat>, numbers: seq<nat>, pid: nat)
      requires Valid() && LevelsOk(levels, |spaces|) && |numbers| == |levels|
      requires forall j :: 0 <= j < |levels| ==> hash.Has(Upid(numbers[j], levels[j], pid))
      modifies this, spaces, Maps(spaces)
      ensures Valid()
      ensures Unhashed(hash, old(hash), levels, numbers, pid, |levels|)
      ensures Given(Bitmaps(spaces), old(Bitmaps(spaces)), levels, numbers, |levels|)
      ensures Counted(HashedCounts(spaces), old(HashedCounts(spaces)), levels, 0, -1)
    {
      ghost var h0 := hash;
      UnhashAll(levels, numbers, pid);
      hide Unhashed, Among, Given, Backed, AllApart, AllValid, Bitmaps, HashedCounts, Counted, Hash.Ok;
      GiveAllBack(levels, numbers, pid, h0);
    }

    /** The first loop of free_pid, under pidmap_lock; the bits stay set. */
    method UnhashAll(levels: seq<nat>, numbers: seq<nat>, pid: nat)
      requires Valid() && LevelsOk(levels, |spaces|) && |numbers| == |levels|
      requires forall j :: 0 <= j < |levels| ==> hash.Has(Upid(numbers[j], levels[j], pid))
      modifies this, spaces
      ensures Valid() && Bitmaps(spaces) == old(Bitmaps(spaces))
      ensures Unhashed(hash, old(hash), levels, numbers, pid, |levels|)
      ensures Counted(HashedCounts(spaces), old(HashedCounts(spaces)), levels, 0, -1)
    {
      ghost var now, h0, c0 := Bitmaps(spaces), hash, HashedCounts(spaces);
      for i := 0 to |levels|
        invariant AllValid(spaces) && hash.Ok() && Bitmaps(spaces) == now && Tallied(hash, HashedCounts(spaces))
        invariant Unhashed(hash, h0, levels, numbers, pid, i)
        invariant CountedUpto(HashedCounts(spaces), c0, levels, i, -1)
      {
        UnhashOne(levels, numbers, pid, i, h0, c0);
      }
      assert levels[..|levels|] == levels[0..];
    }

    method UnhashOne(levels: seq<nat>, numbers: seq<nat>, pid: nat, i: nat, ghost h0: Hash, ghost c0: seq<(int, bool)>)
      requires AllApart(spaces) && AllValid(spaces) && hash.Ok()
      requires LevelsOk(levels, |spaces|) && |numbers| == |levels| && i < |levels|
      requires |c0| == |spaces| && h0.Has(Upid(numbers[i], levels[i], pid))
      requires Unhashed(hash, h0, levels, numbers, pid, i) && CountedUpto(HashedCounts(spaces), c0, levels, i, -1)
      requires Tallied(hash, HashedCounts(spaces))
      modifies this, spaces
      ensures AllValid(spaces) && hash.Ok() && Bitmaps(spaces) == old(Bitmaps(spaces))
      ensures Tallied(hash, HashedCounts(spaces))
      ensures Unhashed(hash, h0, levels, numbers, pid, i + 1)
      ensures CountedUpto(HashedCounts(spaces), c0, levels, i + 1, -1)
    {
      UnhashMore(hash, h0, levels, numbers, pid, i);
      CountUpto(HashedCounts(spaces), c0, levels, i, -1);
      RemoveTallied(hash, HashedCounts(spaces), Upid(numbers[i], levels[i], pid));
      hide Unhashed, CountedUpto, Among, Hash.Ok, Hash.Remove, Tallied;
      hash := hash.Remove(Upid(numbers[i], levels[i], pid));
      CountAt(levels, i, -1);
    }

    /** The second loop of free_pid. */
    method GiveAllBack(levels: seq<nat>, numbers: seq<nat>, pid: nat, ghost h0: Hash)
      requires AllApart(spaces) && AllValid(spaces) && hash.Ok() && Backed(hash, Bitmaps(spaces))
      requires LevelsOk(levels, |spaces|) && |numbers| == |levels|
      requires h0.Ok() && Backed(h0, Bitmaps(spaces)) && Unhashed(hash, h0, levels, numbers, pid, |levels|)
      requires forall j :: 0 <= j < |levels| ==> h0.Has(Upid(numbers[j], levels[j], pid))
      modifies Maps(spaces)
      ensures AllValid(spaces) && Backed(hash, Bitmaps(spaces)) && HashedCounts(spaces) == old(HashedCounts(spaces))
      ensures Given(Bitmaps(spaces), old(Bitmaps(spaces)), levels, numbers, |levels|)
    {
      ghost var was := Bitmaps(spaces);
      NoneGiven(was, levels, numbers);
      hide Unhashed, Among, Given, Backed, AllApart, AllValid, Bitmaps, HashedCounts, Maps, Hash.Ok, LevelsOk;
      for i := 0 to |levels|
        invariant AllValid(spaces) && HashedCounts(spaces) == old(HashedCounts(spaces))
        invariant Given(Bitmaps(spaces), was, levels, numbers, i) && Backed(hash, Bitmaps(spaces))
      {
        GiveOne(levels, numbers, pid, i, h0, was);
      }
    }

    method GiveOne(levels: seq<nat>, numbers: seq<nat>, pid: nat, i: nat, ghost h0: Hash, ghost was: seq<Bitmap>)
      requires AllApart(spaces) && AllValid(spaces) && LevelsOk(levels, |spaces|)
      requires |numbers| == |levels| && i < |levels|
      requires h0.Ok() && Backed(h0, was) && h0.Has(Upid(numbers[i], levels[i], pid))
      requires Unhashed(hash, h0, levels, numbers, pid, |levels|)
      requires Given(Bitmaps(spaces), was, levels, numbers, i) && Backed(hash, Bitmaps(spaces))
      modifies Maps(spaces)
      ensures AllValid(spaces) && HashedCounts(spaces) == old(HashedCounts(spaces))
      ensures Given(Bitmaps(spaces), was, levels, numbers, i + 1) && Backed(hash, Bitmaps(spaces))
    {
      GoneIsFree(hash, h0, levels, numbers, pid, i);
      GiveMoreIs(hash, h0, Bitmaps(spaces), was, levels, numbers, pid, i);
      hide Unhashed, Among, Given, Backed, Hash.Ok, Bitmap.Clear;
      assert Bitmaps(spaces)[levels[i]] == Now(spaces[levels[i]]);
      GiveBackAt(spaces, levels[i], numbers[i]);
    }

    /** find_pid_ns. */
    method FindPid(nr: nat, ns: nat) returns (r: Option<nat>)
      requires hash.Ok()
      ensures r.None? <==> hash.Free(nr, ns)
      ensures r.Some? ==> hash.Has(Upid(nr, ns, r.value))
    {
      var chain := hash.chains[hash.Bucket(nr, ns)];
      for i := 0 to |chain|
        invariant forall j :: 0 <= j < i ==> !(chain[j].nr == nr && chain[j].ns == ns)
      {
        if chain[i].nr == nr && chain[i].ns == ns {
          assert hash.Has(chain[i]);
          return Some(chain[i].pid);
        }
      }
      r := None;
    }

    /** find_ge_pid: the pid with the least hashed number from `nr` on. */
    method FindGePid(nr: nat, ns: nat) returns (r: Option<nat>, ghost least: nat)
      requires Valid() && ns < |spaces|
      ensures r.None? ==> forall x: nat :: nr <= x ==> hash.Free(x, ns)
      ensures r.Some? ==> nr <= least && hash.Has(Upid(least, ns, r.value))
      ensures r.Some? ==> forall x: nat :: nr <= x < least ==> hash.Free(x, ns)
    {
      var n: int := nr;
      least := nr;
      while true
        invariant 0 <= n && nr <= n && forall x: nat :: nr <= x < n ==> hash.Free(x, ns)
        decreases PID_MAX_LIMIT - n
      {
        r := FindPid(n, ns);
        least := n;
        if r.Some? { break; }
        var next := spaces[ns].NextPidmap(n);
        ClearIsFree(n, next, ns);
        n := next;
        if n <= 0 { break; }
      }
    }

    /** A number whose bit is clear is not hashed. */
    lemma {:induction false} ClearIsFree(n: nat, next: int, ns: nat)
      requires Valid() && ns < |spaces| && spaces[ns].Valid() && hash.Free(n, ns)
      requires next == -1 || n < next < PID_MAX_LIMIT
      requires forall x :: n < x < PID_MAX_LIMIT && (next == -1 || x < next) ==> !spaces[ns].bits[x]
      ensures forall x: nat :: n <= x && (next == -1 || x < next) ==> hash.Free(x, ns)
    {
      forall x: nat | n <= x && (next == -1 || x < next) ensures hash.Free(x, ns) {
        forall u: Upid | hash.Has(u) && u.nr == x ensures u.ns != ns {
          assert Bitmaps(spaces)[u.ns].bits[u.nr];
        }
      }
    }
  }
}
