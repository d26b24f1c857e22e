/**
The pid bitmap of one namespace: pages of bits with a free count each, searched
next-fit from the last pid handed out, with wraparound above the reserved pids.

The pages lie behind each other in one array of bits; a page that has not been
allocated is all clear.
*/
module Pidmap {

  const BITS_PER_PAGE: nat := 32768
  const PIDMAP_ENTRIES: nat := 128
  const PID_MAX_LIMIT: nat := PIDMAP_ENTRIES * BITS_PER_PAGE
  const RESERVED_PIDS: nat := 300

  // ----- counting clear bits -----

  function Zeros(s: seq<bool>, lo: nat, hi: nat): nat
    requires hi <= |s|
  {
    if hi <= lo then 0 else Zeros(s, lo, hi - 1) + if s[hi - 1] then 0 else 1
  }

  lemma {:induction false} ZerosUpdate(s: seq<bool>, lo: nat, hi: nat, x: nat, b: bool)
    requires hi <= |s| && x < |s|
    ensures Zeros(s[x := b], lo, hi) ==
      if lo <= x < hi && s[x] != b then Zeros(s, lo, hi) + (if b then -1 else 1) else Zeros(s, lo, hi)
  {
    if lo < hi { ZerosUpdate(s, lo, hi - 1, x, b); }
  }

  lemma {:induction false} NoZeros(s: seq<bool>, lo: nat, hi: nat)
    requires hi <= |s|
    ensures Zeros(s, lo, hi) == 0 <==> forall x :: lo <= x < hi ==> s[x]
  {
    if lo < hi { NoZeros(s, lo, hi - 1); }
  }

  // ----- the order of the search -----

  /** Does the search ever try pid `p`? */
  predicate Tried(last: nat, max: nat, p: nat) {
    last < p < max || (RESERVED_PIDS <= p < max && !(p == RESERVED_PIDS == last && last + 1 < max))
  }

  /** When it tries it: last+1 up to max-1 first, then from RESERVED_PIDS up to last. */
  function Place(last: nat, max: nat, p: nat): nat {
    if last < p then p - last - 1 else max + p
  }

  /** The free pid that comes first in the order of the search. */
  ghost predicate NextFit(s: seq<bool>, last: nat, max: nat, r: nat)
    requires max <= |s|
  {
    && r < max && Tried(last, max, r) && !s[r]
    && forall q :: 0 <= q < max && Tried(last, max, q) && Place(last, max, q) < Place(last, max, r) ==> s[q]
  }

  /** No pid the search tries is free. */
  ghost predicate Exhausted(s: seq<bool>, last: nat, max: nat)
    requires max <= |s|
  {
    forall q :: 0 <= q < max && Tried(last, max, q) ==> s[q]
  }

  predicate AllSet(s: seq<bool>, lo: nat, hi: nat)
    requires hi <= |s|
  {
    forall x :: lo <= x < hi ==> s[x]
  }

  /** Where the search starts. */
  function First(last: nat, max: nat): nat {
    if last + 1 >= max then RESERVED_PIDS else last + 1
  }

  function Min(a: nat, b: nat): nat { if a < b then a else b }

  /** max_scan. */
  function MaxScan(last: nat, max: nat): int {
    (max + BITS_PER_PAGE - 1) / BITS_PER_PAGE - if First(last, max) % BITS_PER_PAGE == 0 then 1 else 0
  }

  /** How far the search has come at the start of scan `i`: it is about to scan from `pid`
      on page `k`. In lap 0 it has not wrapped yet; in lap 2 it has wrapped twice. */
  ghost predicate Scanned(s: seq<bool>, last: nat, max: nat, lap: nat, i: nat, k: nat, pid: nat)
    requires max <= |s|
  {
    var first, pages := First(last, max), (max - 1) / BITS_PER_PAGE + 1;
    && k < pages && pid < max && pid / BITS_PER_PAGE == k
    && (lap == 0 ==>
          && first <= pid && AllSet(s, first, pid)
          && i == k - first / BITS_PER_PAGE
          && (pid == first || pid == k * BITS_PER_PAGE))
    && (lap > 0 ==>
          && AllSet(s, first, max) && !(last == RESERVED_PIDS && last + 1 < max)
          && (pid == RESERVED_PIDS || pid == k * BITS_PER_PAGE > RESERVED_PIDS))
    && (lap == 1 ==> AllSet(s, RESERVED_PIDS, pid) && i == pages - first / BITS_PER_PAGE + k)
    && (lap == 2 ==> AllSet(s, RESERVED_PIDS, max) && i == pages + 1)
  }

  lemma {:induction false} ScanStarts(s: seq<bool>, last: nat, max: nat)
    requires RESERVED_PIDS < max <= |s|
    ensures Scanned(s, last, max, 0, 0, First(last, max) / BITS_PER_PAGE, First(last, max))
  {
  }

  lemma {:induction false} ScanMovesOn(s: seq<bool>, last: nat, max: nat, lap: nat, i: nat, k: nat, pid: nat)
    requires RESERVED_PIDS < max <= |s| && lap <= 2 && Scanned(s, last, max, lap, i, k, pid) && i <= MaxScan(last, max)
    requires AllSet(s, pid, Min(max, (k + 1) * BITS_PER_PAGE))
    ensures lap <= 1
    ensures k < (max - 1) / BITS_PER_PAGE ==> Scanned(s, last, max, lap, i + 1, k + 1, (k + 1) * BITS_PER_PAGE)
    ensures k >= (max - 1) / BITS_PER_PAGE && last != RESERVED_PIDS ==>
      Scanned(s, last, max, lap + 1, i + 1, 0, RESERVED_PIDS)
    ensures k >= (max - 1) / BITS_PER_PAGE && last == RESERVED_PIDS ==> Exhausted(s, last, max)
  {
  }

  /** After that many scans every pid has been tried. */
  lemma {:induction false} ScansSuffice(s: seq<bool>, last: nat, max: nat, lap: nat, i: nat, k: nat, pid: nat)
    requires RESERVED_PIDS < max <= |s| && lap <= 2
    requires Scanned(s, last, max, lap, i, k, pid)
    requires i > MaxScan(last, max)
    ensures Exhausted(s, last, max)
  {
  }

  /** The pid about to be tried is the first one left, if it is free. */
  lemma {:induction false} FoundIsNextFit(s: seq<bool>, last: nat, max: nat, lap: nat, i: nat, k: nat, pid: nat, r: nat)
    requires RESERVED_PIDS < max <= |s| && lap <= 2 && i <= MaxScan(last, max)
    requires Scanned(s, last, max, lap, i, k, pid) && pid <= r < max && AllSet(s, pid, r) && !s[r]
    ensures NextFit(s, last, max, r)
  {
  }

  /** The same, by page and offset. */
  ghost predicate Position(s: seq<bool>, last: nat, max: nat, lap: nat, i: nat, k: nat, offset: nat)
    requires max <= |s|
  {
    && lap <= 2 && k < PIDMAP_ENTRIES && offset < BITS_PER_PAGE && k * BITS_PER_PAGE + offset < max
    && Scanned(s, last, max, lap, i, k, k * BITS_PER_PAGE + offset)
  }

  lemma {:induction false} FirstPosition(s: seq<bool>, last: nat, max: nat)
    requires RESERVED_PIDS < max <= PID_MAX_LIMIT == |s|
    ensures var first := First(last, max);
            Position(s, last, max, 0, 0, first / BITS_PER_PAGE, first % BITS_PER_PAGE)
  {
    ScanStarts(s, last, max);
  }

  lemma {:induction false} PositionInBounds(s: seq<bool>, last: nat, max: nat, lap: nat, i: nat, k: nat, offset: nat)
    requires max <= |s| && Position(s, last, max, lap, i, k, offset)
    ensures lap <= 2 && k < PIDMAP_ENTRIES && offset < BITS_PER_PAGE && k * BITS_PER_PAGE + offset < max
    ensures Scanned(s, last, max, lap, i, k, k * BITS_PER_PAGE + offset)
  {
  }

  /** From one scan to the next. */
  lemma {:induction false} PositionMovesOn(s: seq<bool>, last: nat, max: nat, lap: nat, i: nat, k: nat, offset: nat)
    requires RESERVED_PIDS < max <= PID_MAX_LIMIT == |s|
    requires Position(s, last, max, lap, i, k, offset) && i <= MaxScan(last, max)
    requires AllSet(s, k * BITS_PER_PAGE + offset, Min(max, (k + 1) * BITS_PER_PAGE))
    ensures k < (max - 1) / BITS_PER_PAGE ==> Position(s, last, max, lap, i + 1, k + 1, 0)
    ensures k >= (max - 1) / BITS_PER_PAGE && last != RESERVED_PIDS ==>
      Position(s, last, max, lap + 1, i + 1, 0, RESERVED_PIDS)
    ensures k >= (max - 1) / BITS_PER_PAGE && last == RESERVED_PIDS ==> Exhausted(s, last, max)
  {
    hide Scanned, AllSet, Exhausted, MaxScan;
    ScanMovesOn(s, last, max, lap, i, k, k * BITS_PER_PAGE + offset);
  }

  /** The bitmap of a namespace as a value. */
  datatype Bitmap = Bitmap(bits: seq<bool>, nrFree: seq<int>) {

    predicate Fits() { |bits| == PID_MAX_LIMIT && |nrFree| == PIDMAP_ENTRIES }

    function Set(nr: nat): Bitmap
      requires Fits() && nr < PID_MAX_LIMIT
    {
      Bitmap(bits[nr := true], nrFree[nr / BITS_PER_PAGE := nrFree[nr / BITS_PER_PAGE] - 1])
    }

    function Clear(nr: nat): Bitmap
      requires Fits() && nr < PID_MAX_LIMIT
    {
      Bitmap(bits[nr := false], nrFree[nr / BITS_PER_PAGE := nrFree[nr / BITS_PER_PAGE] + 1])
    }
  }

  ghost function Now(ns: PidNs): Bitmap
    reads ns.bits, ns.nrFree
  {
    Bitmap(ns.bits[..], ns.nrFree[..])
  }

  class PidNs {
    const bits: array<bool>
    const nrFree: array<int>
    const present: array<bool>
    var lastPid: nat

    /** nr_hashed: the count, and the PIDNS_HASH_ADDING flag kept in its top bit. */
    var nrHashed: int
    var adding: bool

    ghost function Maps(): set<object> { var b: object := bits; {b, nrFree, present} }

    ghost function Repr(): set<object> { {this} + Maps() }

    /** Each page's free count is the number of its clear bits, and a missing page is clear. */
    ghost predicate Valid()
      reads Repr()
      ensures Valid() ==> Now(this).Fits()
    {
      && bits != present && bits.Length == PID_MAX_LIMIT
      && nrFree.Length == present.Length == PIDMAP_ENTRIES
      && (forall k :: 0 <= k < PIDMAP_ENTRIES ==> PageOk(k))
    }

    ghost predicate PageOk(k: nat)
      requires k < PIDMAP_ENTRIES && bits.Length == PID_MAX_LIMIT && nrFree.Length == present.Length == PIDMAP_ENTRIES
      reads bits, nrFree, present
    {
      && nrFree[k] == Zeros(bits[..], k * BITS_PER_PAGE, (k + 1) * BITS_PER_PAGE)
      && (!present[k] ==> forall x :: k * BITS_PER_PAGE <= x < (k + 1) * BITS_PER_PAGE ==> !bits[x])
    }

    constructor ()
      ensures Valid() && fresh(Repr()) && nrHashed == 0 && adding
      ensures forall p :: 0 <= p < bits.Length ==> !bits[p]
    {
      bits := new bool[PID_MAX_LIMIT](_ => false);
      nrFree := new int[PIDMAP_ENTRIES](_ => BITS_PER_PAGE);
      present := new bool[PIDMAP_ENTRIES](_ => false);
      lastPid, nrHashed, adding := 0, 0, true;
      new;
      forall k | 0 <= k < PIDMAP_ENTRIES ensures PageOk(k) {
        AllClear(bits[..], k * BITS_PER_PAGE, (k + 1) * BITS_PER_PAGE);
      }
    }

    /** find_next_zero_bit on page `k`. */
    method FindNextZero(k: nat, offset: nat) returns (o: nat)
      requires Valid() && k < PIDMAP_ENTRIES && offset <= BITS_PER_PAGE
      ensures offset <= o <= BITS_PER_PAGE
      ensures AllSet(bits[..], k * BITS_PER_PAGE + offset, k * BITS_PER_PAGE + o)
      ensures o < BITS_PER_PAGE ==> !bits[k * BITS_PER_PAGE + o]
    {
      o := offset;
      while o < BITS_PER_PAGE && bits[k * BITS_PER_PAGE + o]
        invariant offset <= o <= BITS_PER_PAGE
        invariant AllSet(bits[..], k * BITS_PER_PAGE + offset, k * BITS_PER_PAGE + o)
      {
        o := o + 1;
      }
    }

    /** The effect of test_and_set_bit and atomic_dec on a clear bit. */
    method Take(p: nat)
      requires Valid() && p < PID_MAX_LIMIT && !bits[p] && present[p / BITS_PER_PAGE]
      modifies bits, nrFree
      ensures Valid() && Now(this) == old(Now(this)).Set(p)
    {
      ghost var s := bits[..];
      bits[p] := true;
      nrFree[p / BITS_PER_PAGE] := nrFree[p / BITS_PER_PAGE] - 1;
      assert bits[..] == s[p := true];
      forall k | 0 <= k < PIDMAP_ENTRIES ensures PageOk(k) {
        assert old(PageOk(k));
        ZerosUpdate(s, k * BITS_PER_PAGE, (k + 1) * BITS_PER_PAGE, p, true);
      }
    }

    /** One pass over page `k` from bit `offset`: the first free pid, taken, or -1. */
    method ScanPage(k: nat, offset: nat, max: nat) returns (pid: int)
      requires Valid() && k < PIDMAP_ENTRIES && present[k] && offset < BITS_PER_PAGE
      requires k * BITS_PER_PAGE + offset < max <= PID_MAX_LIMIT
      modifies bits, nrFree
      ensures Valid()
      ensures pid == -1 ==> Now(this) == old(Now(this))
      ensures pid == -1 ==> AllSet(bits[..], k * BITS_PER_PAGE + offset, Min(max, (k + 1) * BITS_PER_PAGE))
      ensures pid != -1 ==>
        && k * BITS_PER_PAGE + offset <= pid < Min(max, (k + 1) * BITS_PER_PAGE)
        && !old(Now(this)).bits[pid] && AllSet(old(Now(this)).bits, k * BITS_PER_PAGE + offset, pid)
        && Now(this) == old(Now(this)).Set(pid)
    {
      if nrFree[k] == 0 {
        assert PageOk(k);
        NoZeros(bits[..], k * BITS_PER_PAGE, (k + 1) * BITS_PER_PAGE);
        return -1;
      }
      var o := offset;
      pid := k * BITS_PER_PAGE + o;
      while true
        invariant Valid() && present[k] && offset <= o < BITS_PER_PAGE && pid == k * BITS_PER_PAGE + o < max
        invariant Now(this) == old(Now(this))
        invariant AllSet(bits[..], k * BITS_PER_PAGE + offset, pid)
        decreases BITS_PER_PAGE - o, if bits[pid] then 0 else 1
      {
        if !bits[pid] {
          Take(pid);
          return;
        }
        o := FindNextZero(k, o);
        if o >= BITS_PER_PAGE { break; }
        pid := k * BITS_PER_PAGE + o;
        if pid >= max { break; }
      }
      pid := -1;
    }

    /** A fresh zeroed page for entry `k`. */
    method Install(k: nat)
      requires Valid() && k < PIDMAP_ENTRIES && !present[k]
      modifies present
      ensures Valid() && present[..] == old(present[..])[k := true]
    {
      present[k] := true;
      forall j | 0 <= j < PIDMAP_ENTRIES ensures PageOk(j) {
        assert old(PageOk(j));
      }
    }

    /** Get page `k` if it is missing, and scan it. */
    method VisitPage(k: nat, offset: nat, max: nat, oom: bool) returns (missing: bool, pid: int)
      requires Valid() && k < PIDMAP_ENTRIES && offset < BITS_PER_PAGE
      requires k * BITS_PER_PAGE + offset < max <= PID_MAX_LIMIT
      modifies bits, nrFree, present
      ensures Valid()
      ensures missing ==> oom && pid == -1
      ensures pid == -1 ==> Now(this) == old(Now(this))
      ensures pid == -1 && !missing ==>
        AllSet(old(Now(this)).bits, k * BITS_PER_PAGE + offset, Min(max, (k + 1) * BITS_PER_PAGE))
      ensures pid != -1 ==>
        && k * BITS_PER_PAGE + offset <= pid < max
        && !old(Now(this)).bits[pid] && AllSet(old(Now(this)).bits, k * BITS_PER_PAGE + offset, pid)
        && Now(this) == old(Now(this)).Set(pid)
    {
      if !present[k] {
        if !oom { Install(k); }
        if !present[k] { return true, -1; }
      }
      missing := false;
      pid := ScanPage(k, offset, max);
    }

    /** set_last_pid, with nobody else at work. */
    method SetLastPid(pid: nat)
      requires Valid()
      modifies this`lastPid
      ensures Valid() && lastPid == pid && Now(this) == old(Now(this))
    {
      lastPid := pid;
      forall k | 0 <= k < PIDMAP_ENTRIES ensures PageOk(k) { assert old(PageOk(k)); }
    }

    /** The scans of alloc_pidmap, from bit `offset` of page `k` on. */
    method Scan(last: nat, k0: nat, offset0: nat, max: nat, maxScan: int, oom: bool) returns (pid: int)
      requires Valid() && RESERVED_PIDS < max <= PID_MAX_LIMIT && maxScan == MaxScan(last, max)
      requires Position(Now(this).bits, last, max, 0, 0, k0, offset0)
      modifies bits, nrFree, present
      ensures Valid()
      ensures pid >= 0 ==> NextFit(old(Now(this)).bits, last, max, pid) && Now(this) == old(Now(this)).Set(pid)
      ensures pid < 0 ==> pid == -1 && Now(this) == old(Now(this))
      ensures pid < 0 && !oom ==> Exhausted(old(Now(this)).bits, last, max)
    {
      ghost var was := Now(this);
      hide Now, Bitmap.Set, Valid, Position, Scanned, Exhausted, NextFit, AllSet, First, MaxScan;
      var k: nat, offset: nat, i: nat := k0, offset0, 0;
      ghost var lap: nat := 0;
      while i <= maxScan
        invariant Valid() && Now(this) == was && Position(was.bits, last, max, lap, i, k, offset)
      {
        PositionInBounds(was.bits, last, max, lap, i, k, offset);
        var missing;
        missing, pid := VisitPage(k, offset, max, oom);
        if missing { return; }
        if pid != -1 {
          FoundIsNextFit(was.bits, last, max, lap, i, k, k * BITS_PER_PAGE + offset, pid);
          return;
        }
        PositionMovesOn(was.bits, last, max, lap, i, k, offset);
        if k < (max - 1) / BITS_PER_PAGE {
          k := k + 1;
          offset := 0;
        } else {
          k := 0;
          offset := RESERVED_PIDS;
          lap := lap + 1;
          if last == offset { return; }
        }
        i := i + 1;
      }
      PositionInBounds(was.bits, last, max, lap, i, k, offset);
      ScansSuffice(was.bits, last, max, lap, i, k, k * BITS_PER_PAGE + offset);
      pid := -1;
    }

    /** alloc_pidmap, with nobody else at work. `oom` says that no missing page can be had. */
    method AllocPidmap(max: nat, oom: bool) returns (pid: int)
      requires Valid() && RESERVED_PIDS < max <= PID_MAX_LIMIT
      modifies this`lastPid, bits, nrFree, present
      ensures Valid()
      ensures pid >= 0 ==> NextFit(old(Now(this)).bits, old(lastPid), max, pid) && lastPid == pid
      ensures pid >= 0 ==> Now(this) == old(Now(this)).Set(pid)
      ensures pid < 0 ==> pid == -1 && Now(this) == old(Now(this)) && lastPid == old(lastPid)
      ensures pid < 0 && !oom ==> Exhausted(old(Now(this)).bits, old(lastPid), max)
    {
      var last := lastPid;
      pid := last + 1;
      if pid >= max { pid := RESERVED_PIDS; }
      var offset: nat := pid % BITS_PER_PAGE;
      var k: nat := pid / BITS_PER_PAGE;
      var maxScan := (max + BITS_PER_PAGE - 1) / BITS_PER_PAGE - if offset == 0 then 1 else 0;
      FirstPosition(Now(this).bits, last, max);
      hide Valid, Position, Scanned, Exhausted, NextFit, AllSet;
      pid := Scan(last, k, offset, max, maxScan, oom);
      if pid != -1 { SetLastPid(pid); }
    }

    /** find_next_bit on page `k`. */
    method FindNextSet(k: nat, offset: nat) returns (o: nat)
      requires Valid() && k < PIDMAP_ENTRIES && offset <= BITS_PER_PAGE
      ensures offset <= o <= BITS_PER_PAGE
      ensures forall x :: k * BITS_PER_PAGE + offset <= x < k * BITS_PER_PAGE + o ==> !bits[x]
      ensures o < BITS_PER_PAGE ==> bits[k * BITS_PER_PAGE + o]
    {
      o := offset;
      while o < BITS_PER_PAGE && !bits[k * BITS_PER_PAGE + o]
        invariant offset <= o <= BITS_PER_PAGE
        invariant forall x :: k * BITS_PER_PAGE + offset <= x < k * BITS_PER_PAGE + o ==> !bits[x]
      {
        o := o + 1;
      }
    }

    /** next_pidmap: the least pid above `last` whose bit is set, or -1. */
    method NextPidmap(last: nat) returns (nr: int)
      requires Valid()
      ensures nr == -1 ==> forall x :: last < x < PID_MAX_LIMIT ==> !bits[x]
      ensures nr != -1 ==> last < nr < PID_MAX_LIMIT && bits[nr] && forall x :: last < x < nr ==> !bits[x]
    {
      if last >= PID_MAX_LIMIT { return -1; }
      var offset: nat := (last + 1) % BITS_PER_PAGE;
      var k: nat := (last + 1) / BITS_PER_PAGE;
      while k < PIDMAP_ENTRIES
        invariant offset < BITS_PER_PAGE && last < k * BITS_PER_PAGE + offset && (k >= PIDMAP_ENTRIES ==> offset == 0)
        invariant k <= PIDMAP_ENTRIES
        invariant forall x :: last < x < k * BITS_PER_PAGE + offset ==> !bits[x]
        decreases PIDMAP_ENTRIES - k
      {
        if present[k] {
          offset := FindNextSet(k, offset);
          if offset < BITS_PER_PAGE { return k * BITS_PER_PAGE + offset; }
        } else {
          assert PageOk(k);
        }
        k, offset := k + 1, 0;
      }
      nr := -1;
    }

    /** free_pidmap. */
    method FreePidmap(nr: nat)
      requires Valid() && nr < PID_MAX_LIMIT && bits[nr]
      modifies bits, nrFree
      ensures Valid() && Now(this) == old(Now(this)).Clear(nr)
    {
      ghost var s := bits[..];
      bits[nr] := false;
      nrFree[nr / BITS_PER_PAGE] := nrFree[nr / BITS_PER_PAGE] + 1;
      assert bits[..] == s[nr := false];
      forall k | 0 <= k < PIDMAP_ENTRIES ensures PageOk(k) {
        assert old(PageOk(k));
        ZerosUpdate(s, k * BITS_PER_PAGE, (k + 1) * BITS_PER_PAGE, nr, false);
      }
    }
  }

  lemma {:induction false} AllClear(s: seq<bool>, lo: nat, hi: nat)
    requires lo <= hi <= |s| && forall x :: lo <= x < hi ==> !s[x]
    ensures Zeros(s, lo, hi) == hi - lo
  {
    if lo < hi { AllClear(s, lo, hi - 1); }
  }

  // ----- the search order -----

  /** RESERVED_PIDS, once handed out and free again, is passed over: the search fails although it is free. */
  lemma {:induction false} ReservedIsNotRetried(max: nat)
    requires RESERVED_PIDS + 1 < max
    ensures var s := seq(max, x => x != RESERVED_PIDS); Exhausted(s, RESERVED_PIDS, max) && !s[RESERVED_PIDS]
  {
  }

  /** The search fails exactly when every pid from the starting point, and every unreserved one, is taken;
      RESERVED_PIDS itself does not count when it is the last pid and not the highest. */
  lemma {:induction false} ExhaustedIs(s: seq<bool>, last: nat, max: nat)
    requires RESERVED_PIDS < max <= |s|
    ensures Exhausted(s, last, max) <==>
      AllSet(s, First(last, max), max) && (last == RESERVED_PIDS || AllSet(s, RESERVED_PIDS, max))
  {
    if Exhausted(s, last, max) {
      forall q | First(last, max) <= q < max ensures s[q] { assert Tried(last, max, q); }
      if last != RESERVED_PIDS {
        forall q | RESERVED_PIDS <= q < max ensures s[q] { assert Tried(last, max, q); }
      }
    }
  }

  /** pid_before, on 32-bit words. */
  predicate PidBefore(base: nat, a: nat, b: nat) {
    (a - base) % 0x1_0000_0000 < (b - base) % 0x1_0000_0000
  }

  /** pid_before is the order of the search, whichever pid it started from. */
  lemma {:induction false} PidBeforeIsTheWalk(last: nat, max: nat, a: nat, b: nat)
    requires max <= PID_MAX_LIMIT && last < PID_MAX_LIMIT && a < max && b < max && a != last && b != last
    ensures PidBefore(last, a, b) <==> Place(last, max, a) < Place(last, max, b)
  {
    assert (a - last) % 0x1_0000_0000 == if a >= last then a - last else a - last + 0x1_0000_0000;
    assert (b - last) % 0x1_0000_0000 == if b >= last then b - last else b - last + 0x1_0000_0000;
  }
}
