/** Cleaning the low-level cache when it takes up too much memory: objects are discarded
    in the order of their value, and none that is needed (content/llcache.c). */
module CacheCleaning {
  import opened CacheObjects

  /** The sum of sizes is a number of 32 bits. */
  const WORD: nat := 0x1_0000_0000

  /** Memory that objects take up besides their data: the structure itself, which is as
      large for all, and the URL, headers and certificates. */
  datatype Costs = Costs(base: nat, extra: Id -> nat)

  /** What is there, and the sum of sizes as far as it is known. */
  datatype State = State(m: Table, size: nat)

  /** total_object_size */
  function SizeAt(m: Table, o: Id, c: Costs): nat {
    if o !in m then 0 else c.base + c.extra(o) + if m[o].inRam then m[o].size else 0
  }

  /** The memory that the objects take up. */
  function Total(m: Table, list: seq<Id>, c: Costs): nat {
    if list == [] then 0 else SizeAt(m, list[0], c) + Total(m, list[1..], c)
  }

  predicate NoRepeat(list: seq<Id>) {
    forall i, j :: 0 <= i < j < |list| ==> list[i] != list[j]
  }

  /** The two lists have every object once. */
  ghost predicate Lists(m: Table, uncached: seq<Id>, cached: seq<Id>) {
    && NoRepeat(uncached + cached)
    && (forall o :: o in m <==> o in uncached + cached)
    && (forall o :: o in m ==> (o in cached <==> m[o].cached))
  }

  /** An object that some user, some fetch or some other object needs. */
  predicate Needed(x: Obj) {
    x.users != {} || x.candidates > 0 || x.fetching
  }

  /** The guard under which objects are discarded. */
  predicate IsIdle(x: Obj): (b: bool)
    ensures b == !Needed(x)
  {
    x.users == {} && x.candidates == 0 && !x.fetching
  }

  // ---------------------------------------------------------------------
  // Useless objects
  // ---------------------------------------------------------------------

  /** One object in the first two loops: it is discarded, or its size is added. */
  function Look(s: State, o: Id, stale: Id -> bool, c: Costs): State {
    if o in s.m && IsIdle(s.m[o]) && stale(o) then State(s.m - {o}, s.size)
    else State(s.m, (s.size + SizeAt(s.m, o, c)) % WORD)
  }

  function Looked(s: State, list: seq<Id>, stale: Id -> bool, c: Costs): State
    decreases |list|
  {
    if list == [] then s else Looked(Look(s, list[0], stale, c), list[1..], stale, c)
  }

  /** What is left when the useless objects of the list are gone. */
  function Remaining(m: Table, list: seq<Id>, stale: Id -> bool): Table {
    map o | o in m && (o in list && stale(o) ==> !IsIdle(m[o])) :: m[o]
  }

  /** The first two loops discard just the useless objects, and add up the sizes of the
      others. */
  lemma {:induction false} LookedIs(s: State, list: seq<Id>, stale: Id -> bool, c: Costs)
    requires NoRepeat(list) && s.size < WORD && forall o :: o in list ==> o in s.m
    ensures var r := Looked(s, list, stale, c);
            r.m == Remaining(s.m, list, stale) && r.size == (s.size + Total(r.m, list, c)) % WORD
    decreases |list|
  {
    if list != [] {
      hide Remaining, SizeAt, Look, NoRepeat;
      var rest := list[1..];
      LookIs(s, list, stale, c);
      LookedIs(Look(s, list[0], stale, c), rest, stale, c);
      var m := Remaining(s.m, list, stale);
      PlusBoth(s.size, SizeAt(m, list[0], c), Total(m, rest, c));
    } else {
      assert Remaining(s.m, list, stale) == s.m;
    }
  }

  lemma PlusBoth(a: int, b: int, d: int)
    ensures ((a + b) % WORD + d) % WORD == (a + (b + d)) % WORD
  {
  }

  lemma LookIs(s: State, list: seq<Id>, stale: Id -> bool, c: Costs)
    requires list != [] && NoRepeat(list) && s.size < WORD && forall o :: o in list ==> o in s.m
    ensures var s1, r, rest := Look(s, list[0], stale, c), Remaining(s.m, list, stale), list[1..];
            && Remaining(s1.m, rest, stale) == r && s1.size == (s.size + SizeAt(r, list[0], c)) % WORD
            && NoRepeat(rest) && forall o :: o in rest ==> o in s1.m
  {
    assert list[0] !in list[1..] && list == [list[0]] + list[1..];
  }

  lemma {:induction false} TotalOfBoth(m: Table, a: seq<Id>, b: seq<Id>, c: Costs)
    ensures Total(m, a + b, c) == Total(m, a, c) + Total(m, b, c)
  {
    if a == [] {
      assert a + b == b;
    } else {
      TotalOfBoth(m, a[1..], b, c);
      assert (a + b)[1..] == a[1..] + b;
    }
  }

  lemma {:induction false} SameTotal(m: Table, n: Table, list: seq<Id>, c: Costs)
    requires forall o :: o in list ==> SizeAt(m, o, c) == SizeAt(n, o, c)
    ensures Total(m, list, c) == Total(n, list, c)
  {
    if list != [] { SameTotal(m, n, list[1..], c); }
  }

  /** A change to one object changes the sum by what it changes its size. */
  lemma {:induction false} TotalChange(m: Table, n: Table, list: seq<Id>, o: Id, c: Costs)
    requires NoRepeat(list) && o in list && forall p :: p in list && p != o ==> SizeAt(m, p, c) == SizeAt(n, p, c)
    ensures Total(n, list, c) == Total(m, list, c) - SizeAt(m, o, c) + SizeAt(n, o, c)
  {
    var rest := list[1..];
    assert list == [list[0]] + rest;
    if list[0] == o {
      assert o !in rest;
      SameTotal(m, n, rest, c);
    } else {
      TotalChange(m, n, rest, o, c);
    }
  }

  /** Every object of the first list is useless if it is not needed. */
  predicate Always(o: Id) { true }

  /** What the first two loops leave, and the sum that they find. */
  function Kept(m: Table, uncached: seq<Id>, cached: seq<Id>, stale: Id -> bool): Table {
    Remaining(Remaining(m, uncached, Always), cached, stale)
  }

  lemma ListsApart(m: Table, uncached: seq<Id>, cached: seq<Id>)
    requires Lists(m, uncached, cached)
    ensures NoRepeat(uncached) && NoRepeat(cached) && forall o :: o in uncached ==> o !in cached
  {
    var all := uncached + cached;
    assert forall i :: 0 <= i < |uncached| ==> all[i] == uncached[i];
    assert forall i :: 0 <= i < |cached| ==> all[|uncached| + i] == cached[i];
  }

  lemma RemainingTotal(m: Table, list: seq<Id>, stale: Id -> bool, others: seq<Id>, c: Costs)
    requires forall o :: o in others ==> o !in list
    ensures Total(Remaining(m, list, stale), others, c) == Total(m, others, c)
  {
    SameTotal(m, Remaining(m, list, stale), others, c);
  }

  lemma KeptIs(m: Table, uncached: seq<Id>, cached: seq<Id>, stale: Id -> bool, c: Costs)
    requires Lists(m, uncached, cached)
    ensures var n := Kept(m, uncached, cached, stale);
            && Looked(Looked(State(m, 0), uncached, Always, c), cached, stale, c)
               == State(n, Total(n, uncached + cached, c) % WORD)
            && (forall o :: o in n <==> o in m && (Needed(m[o]) || (m[o].cached && !stale(o))))
            && (forall o :: o in n ==> n[o] == m[o])
  {
    hide Looked, Total, SizeAt;
    ListsApart(m, uncached, cached);
    var s1, n := Looked(State(m, 0), uncached, Always, c), Kept(m, uncached, cached, stale);
    LookedIs(State(m, 0), uncached, Always, c);
    LookedIs(s1, cached, stale, c);
    RemainingTotal(s1.m, cached, stale, uncached, c);
    TotalOfBoth(n, uncached, cached, c);
  }

  // ---------------------------------------------------------------------
  // Writing objects out
  // ---------------------------------------------------------------------

  predicate IsWritable(x: Obj) {
    x.cached && x.candidates == 0 && !x.fetching && !x.onDisc
  }

  /** llcache_persist; `written` says which of the objects that can be written are
      written, in the time that there is, and without an error. They keep their memory. */
  function Written(m: Table, written: Id -> bool): Table {
    map o | o in m :: if IsWritable(m[o]) && written(o) then m[o].(onDisc := true) else m[o]
  }

  // ---------------------------------------------------------------------
  // Discarding by value
  // ---------------------------------------------------------------------

  /** The last three loops: they free the data of objects that are on disc, discard what
      is left of these, and discard objects that are in memory only. */
  datatype Loop = FreeData | DropBacked | DropFresh

  predicate IsFor(l: Loop, x: Obj) {
    IsIdle(x) &&
    match l
    case FreeData => x.onDisc
    case DropBacked => x.onDisc && !x.inRam
    case DropFresh => !x.onDisc
  }

  function Minus(a: nat, b: nat): nat { (a - b) % WORD }

  /** One object in one of these loops. */
  function Drop(l: Loop, s: State, o: Id, c: Costs): State {
    if o !in s.m || !IsFor(l, s.m[o]) then s
    else
      match l
      case FreeData => State(s.m[o := s.m[o].(inRam := false)], Minus(s.size, s.m[o].size))
      case DropBacked => State(s.m - {o}, Minus(s.size, SizeAt(s.m, o, c)))
      case DropFresh => State(s.m - {o}, Minus(s.size, s.m[o].size + c.base))
  }

  /** A loop, which ends when the sum is within the limit. */
  function Pass(l: Loop, s: State, list: seq<Id>, limit: nat, c: Costs): State
    decreases |list|
  {
    if list == [] || s.size <= limit then s else Pass(l, Drop(l, s, list[0], c), list[1..], limit, c)
  }

  /** The loop without a limit. */
  function All(l: Loop, s: State, list: seq<Id>, c: Costs): State
    decreases |list|
  {
    if list == [] then s else All(l, Drop(l, s, list[0], c), list[1..], c)
  }

  /** The loop ends after `j` objects: then the sum is within the limit for the first time,
      or there are no more. */
  predicate EndsAt(l: Loop, s: State, list: seq<Id>, limit: nat, c: Costs, j: nat) {
    && j <= |list| && Pass(l, s, list, limit, c) == All(l, s, list[..j], c)
    && (j < |list| ==> All(l, s, list[..j], c).size <= limit)
    && forall i :: 0 <= i < j ==> All(l, s, list[..i], c).size > limit
  }

  /** The loop discards no more than it has to. */
  lemma {:induction false} PassEnds(l: Loop, s: State, list: seq<Id>, limit: nat, c: Costs) returns (j: nat)
    ensures EndsAt(l, s, list, limit, c, j)
    decreases |list|
  {
    if list == [] || s.size <= limit {
      assert list[..0] == [];
      j := 0;
    } else {
      var s1, rest := Drop(l, s, list[0], c), list[1..];
      var k := PassEnds(l, s1, rest, limit, c);
      j := k + 1;
      forall i | 0 <= i <= k ensures All(l, s, list[..i + 1], c) == All(l, s1, rest[..i], c) {
        assert list[..i + 1][1..] == rest[..i];
      }
      forall i | 0 <= i < j ensures All(l, s, list[..i], c).size > limit {
        if i > 0 { assert All(l, s, list[..(i - 1) + 1], c) == All(l, s1, rest[..i - 1], c); }
      }
    }
  }

  /** What a loop may change: nothing but objects of the list that it is for. */
  ghost predicate ChangedBy(l: Loop, list: seq<Id>, was: Table, now: Table) {
    && now.Keys <= was.Keys
    && forall o :: o in was ==>
         if o in list && IsFor(l, was[o]) then
           if l.FreeData? then o in now && (now[o] == was[o] || now[o] == was[o].(inRam := false))
           else o in now ==> now[o] == was[o]
         else o in now && now[o] == was[o]
  }

  /** The loop has reached all objects that it is for. */
  ghost predicate Finished(l: Loop, list: seq<Id>, now: Table) {
    forall o :: o in list && o in now && IsFor(l, now[o]) ==> l.FreeData? && !now[o].inRam
  }

  lemma {:induction false} PassChanges(l: Loop, s: State, list: seq<Id>, limit: nat, c: Costs)
    requires NoRepeat(list)
    ensures var r := Pass(l, s, list, limit, c);
            && ChangedBy(l, list, s.m, r.m) && (s.size <= limit ==> r == s)
            && (r.size <= limit || Finished(l, list, r.m))
    decreases |list|
  {
    if list != [] && s.size > limit {
      var s1, rest, r := Drop(l, s, list[0], c), list[1..], Pass(l, s, list, limit, c);
      assert list == [list[0]] + rest && list[0] !in rest;
      PassChanges(l, s1, rest, limit, c);
      forall o | o in s.m
        ensures if o in list && IsFor(l, s.m[o]) then
                  if l.FreeData? then o in r.m && (r.m[o] == s.m[o] || r.m[o] == s.m[o].(inRam := false))
                  else o in r.m ==> r.m[o] == s.m[o]
                else o in r.m && r.m[o] == s.m[o]
      {
        assert o in s1.m ==> (o in rest ==> o != list[0]);
      }
    }
  }

  // ---------------------------------------------------------------------
  // Is the sum right?
  // ---------------------------------------------------------------------

  /** The data of objects that the loop frees although it is not in memory any more. */
  function FreedTwice(s: State, list: seq<Id>, limit: nat, c: Costs): nat
    decreases |list|
  {
    if list == [] || s.size <= limit then 0
    else
      var o := list[0];
      Missing(s.m, o) + FreedTwice(Drop(FreeData, s, o, c), list[1..], limit, c)
  }

  function Missing(m: Table, o: Id): nat {
    if o in m && IsFor(FreeData, m[o]) && !m[o].inRam then m[o].size else 0
  }

  lemma DropCounts(l: Loop, s: State, o: Id, all: seq<Id>, c: Costs)
    requires NoRepeat(all) && o in all && o in s.m && IsFor(l, s.m[o])
    ensures Total(Drop(l, s, o, c).m, all, c) ==
            Total(s.m, all, c) - if l.FreeData? then if s.m[o].inRam then s.m[o].size else 0 else SizeAt(s.m, o, c)
  {
    TotalChange(s.m, Drop(l, s, o, c).m, all, o, c);
  }

  /** What is missing from the sum after the data has been freed is what was freed twice. */
  lemma {:induction false} SumIsShort(s: State, list: seq<Id>, limit: nat, all: seq<Id>, c: Costs)
    requires NoRepeat(all) && (forall o :: o in list ==> o in all) && s.size < WORD
    ensures var r := Pass(FreeData, s, list, limit, c);
            && r.size < WORD
            && (r.size - Total(r.m, all, c)) % WORD ==
               (s.size - Total(s.m, all, c) - FreedTwice(s, list, limit, c)) % WORD
    decreases |list|
  {
    if list != [] && s.size > limit {
      var o := list[0];
      var s1 := Drop(FreeData, s, o, c);
      DropIsShort(s, o, all, c);
      hide Drop, Total, IsFor, Missing;
      SumIsShort(s1, list[1..], limit, all, c);
      MinusBoth(s1.size - Total(s1.m, all, c), s.size - Total(s.m, all, c) - Missing(s.m, o), FreedTwice(s1, list[1..], limit, c));
    }
  }

  lemma MinusBoth(a: int, b: int, d: int)
    requires a % WORD == b % WORD
    ensures (a - d) % WORD == (b - d) % WORD
  {
  }

  lemma DropIsShort(s: State, o: Id, all: seq<Id>, c: Costs)
    requires NoRepeat(all) && o in all && s.size < WORD
    ensures var s1 := Drop(FreeData, s, o, c);
            && s1.size < WORD
            && (s1.size - Total(s1.m, all, c)) % WORD == (s.size - Total(s.m, all, c) - Missing(s.m, o)) % WORD
  {
    hide Total;
    if o in s.m && IsFor(FreeData, s.m[o]) {
      DropCounts(FreeData, s, o, all, c);
    }
  }

  /** So the sum is right just if nothing was freed twice, but for 2^32 bytes or a multiple
      of that. */
  lemma SumIsRightIff(s: State, list: seq<Id>, limit: nat, all: seq<Id>, c: Costs)
    requires NoRepeat(all) && (forall o :: o in list ==> o in all) && s.size == Total(s.m, all, c) % WORD
    ensures var r := Pass(FreeData, s, list, limit, c);
            r.size == Total(r.m, all, c) % WORD <==> FreedTwice(s, list, limit, c) % WORD == 0
  {
    hide Total, Pass, FreedTwice;
    SumIsShort(s, list, limit, all, c);
  }

  /** The sum is right. */
  predicate IsExact(s: State, all: seq<Id>, c: Costs) {
    s.size == Total(s.m, all, c) < WORD
  }

  /** The sum is not too small. The last loop does not take off all of the sizes that the
      first two have added. */
  predicate IsEnough(s: State, all: seq<Id>, c: Costs) {
    Total(s.m, all, c) <= s.size < WORD
  }

  /** No object of the list has had its data freed before. */
  ghost predicate HasData(m: Table, list: seq<Id>) {
    forall o :: o in list && o in m && IsFor(FreeData, m[o]) && m[o].size > 0 ==> m[o].inRam
  }

  /** Objects that are in memory only have their data there. */
  predicate InMemory(m: Table) {
    forall o :: o in m && !m[o].onDisc && m[o].size > 0 ==> m[o].inRam
  }

  lemma SizeInTotal(m: Table, o: Id, all: seq<Id>, c: Costs)
    requires o in all
    ensures SizeAt(m, o, c) <= Total(m, all, c)
  {
    if all[0] != o { SizeInTotal(m, o, all[1..], c); }
  }

  lemma {:induction false} PassIsExact(l: Loop, s: State, list: seq<Id>, limit: nat, all: seq<Id>, c: Costs)
    requires NoRepeat(all) && NoRepeat(list) && forall o :: o in list ==> o in all
    requires l.FreeData? ==> HasData(s.m, list)
    requires InMemory(s.m)
    ensures !l.DropFresh? && IsExact(s, all, c) ==> IsExact(Pass(l, s, list, limit, c), all, c)
    ensures l.DropFresh? && IsEnough(s, all, c) ==> IsEnough(Pass(l, s, list, limit, c), all, c)
    ensures InMemory(Pass(l, s, list, limit, c).m)
    decreases |list|
  {
    if list != [] && s.size > limit {
      DropIsExact(l, s, list, all, c);
      hide Drop, Total, HasData, InMemory;
      assert list[0] in all;
      PassIsExact(l, Drop(l, s, list[0], c), list[1..], limit, all, c);
    }
  }

  lemma DropIsExact(l: Loop, s: State, list: seq<Id>, all: seq<Id>, c: Costs)
    requires NoRepeat(all) && NoRepeat(list) && list != [] && list[0] in all && InMemory(s.m)
    requires l.FreeData? ==> HasData(s.m, list)
    ensures var s1, rest := Drop(l, s, list[0], c), list[1..];
            && NoRepeat(rest) && InMemory(s1.m) && (l.FreeData? ==> HasData(s1.m, rest))
            && (!l.DropFresh? && IsExact(s, all, c) ==> IsExact(s1, all, c))
            && (l.DropFresh? && IsEnough(s, all, c) ==> IsEnough(s1, all, c))
  {
    hide Total;
    var o := list[0];
    assert list == [o] + list[1..] && o !in list[1..];
    if o in s.m && IsFor(l, s.m[o]) {
      DropCounts(l, s, o, all, c);
      SizeInTotal(s.m, o, all, c);
    }
  }

  /** URLs, headers and certificates of the objects of the list that are gone. */
  function Extras(was: Table, now: Table, list: seq<Id>, c: Costs): nat {
    if list == [] then 0
    else (if list[0] in was && list[0] !in now then c.extra(list[0]) else 0) + Extras(was, now, list[1..], c)
  }

  lemma {:induction false} SameExtras(a: Table, b: Table, now: Table, list: seq<Id>, c: Costs)
    requires forall o :: o in list ==> (o in a <==> o in b)
    ensures Extras(a, now, list, c) == Extras(b, now, list, c)
  {
    if list != [] { SameExtras(a, b, now, list[1..], c); }
  }

  /** The last loop takes off all but the extras of what it discards, so that it may discard
      more than it has to. */
  lemma {:induction false} FreshLeaves(s: State, list: seq<Id>, limit: nat, all: seq<Id>, c: Costs)
    requires NoRepeat(all) && NoRepeat(list) && (forall o :: o in list ==> o in all)
    requires InMemory(s.m) && IsEnough(s, all, c)
    ensures var r := Pass(DropFresh, s, list, limit, c);
            r.size == Total(r.m, all, c) + s.size - Total(s.m, all, c) + Extras(s.m, r.m, list, c)
    decreases |list|
  {
    var r := Pass(DropFresh, s, list, limit, c);
    if list != [] && s.size > limit {
      var o, rest := list[0], list[1..];
      var s1 := Drop(DropFresh, s, o, c);
      assert list == [o] + rest && o !in rest && o in all;
      DropIsExact(DropFresh, s, list, all, c);
      FreshLeaves(s1, rest, limit, all, c);
      PassChanges(DropFresh, s1, rest, limit, c);
      SameExtras(s.m, s1.m, r.m, rest, c);
      DropLeaves(s, o, all, c);
    } else {
      NoExtras(s.m, list, c);
    }
  }

  lemma DropLeaves(s: State, o: Id, all: seq<Id>, c: Costs)
    requires NoRepeat(all) && o in all && InMemory(s.m) && IsEnough(s, all, c)
    ensures var s1 := Drop(DropFresh, s, o, c);
            s1.size - Total(s1.m, all, c) ==
            s.size - Total(s.m, all, c) + if o in s.m && IsFor(DropFresh, s.m[o]) then c.extra(o) else 0
  {
    hide Total;
    if o in s.m && IsFor(DropFresh, s.m[o]) {
      DropCounts(DropFresh, s, o, all, c);
      SizeInTotal(s.m, o, all, c);
    }
  }

  lemma {:induction false} NoExtras(m: Table, list: seq<Id>, c: Costs)
    ensures Extras(m, m, list, c) == 0
  {
    if list != [] { NoExtras(m, list[1..], c); }
  }

  // ---------------------------------------------------------------------
  // Cleaning
  // ---------------------------------------------------------------------

  /** llcache_clean. The limit is 0 if all that can be discarded is to go. */
  function Cleaned(m: Table, uncached: seq<Id>, cached: seq<Id>, stale: Id -> bool, written: Id -> bool,
                   limit: nat, c: Costs): State
  {
    var s := Looked(Looked(State(m, 0), uncached, Always, c), cached, stale, c);
    if s.size <= limit then s
    else ByValue(State(Written(s.m, written), s.size), cached, limit, c)
  }

  function ByValue(s: State, cached: seq<Id>, limit: nat, c: Costs): State {
    Pass(DropFresh, Pass(DropBacked, Pass(FreeData, s, cached, limit, c), cached, limit, c), cached, limit, c)
  }

  /** Objects that are needed stay, with their data. */
  ghost predicate KeepsNeeded(was: Table, now: Table) {
    && now.Keys <= was.Keys
    && forall o :: o in was ==>
         && (Needed(was[o]) ==> o in now)
         && (o in now ==> now[o] == was[o].(inRam := now[o].inRam, onDisc := now[o].onDisc)
                          && (Needed(was[o]) ==> now[o].inRam == was[o].inRam) && (was[o].onDisc ==> now[o].onDisc))
  }

  /** An object goes only after all that are worth less: if another one stays that is on
      disc and not needed, it is on disc itself, and the data of the other is freed. */
  ghost predicate IsByValue(was: Table, now: Table, cached: seq<Id>) {
    forall o, p :: o in was && o !in now && p in cached && p in now && IsFor(FreeData, now[p]) ==>
      was[o].onDisc && !now[p].inRam
  }

  /** What the three loops do, each of which starts when those before have reached all. */
  ghost predicate AreLoops(was: Table, a: Table, b: Table, now: Table, cached: seq<Id>) {
    && ChangedBy(FreeData, cached, was, a) && ChangedBy(DropBacked, cached, a, b) && ChangedBy(DropFresh, cached, b, now)
    && (b == a || Finished(FreeData, cached, a)) && (now == b || (Finished(FreeData, cached, a) && Finished(DropBacked, cached, b)))
  }

  lemma LoopsAt(was: Table, a: Table, b: Table, now: Table, cached: seq<Id>, o: Id)
    requires AreLoops(was, a, b, now, cached) && o in was
    ensures o in now ==> o in a && o in b && now[o] == was[o].(inRam := now[o].inRam) && a[o] == b[o] == now[o]
    ensures o !in cached || Needed(was[o]) ==> o in now && now[o] == was[o]
    ensures o !in now ==> Finished(FreeData, cached, a) && (!was[o].onDisc ==> Finished(DropBacked, cached, b))
  {
  }

  lemma LoopsKeepNeeded(was: Table, a: Table, b: Table, now: Table, cached: seq<Id>)
    requires AreLoops(was, a, b, now, cached)
    ensures KeepsNeeded(was, now)
  {
    forall o | o in was
      ensures Needed(was[o]) ==> o in now
      ensures o in now ==> now[o] == was[o].(inRam := now[o].inRam, onDisc := now[o].onDisc)
                           && (Needed(was[o]) ==> now[o].inRam == was[o].inRam) && (was[o].onDisc ==> now[o].onDisc)
    {
      LoopsAt(was, a, b, now, cached, o);
    }
  }

  lemma LoopsGoByValue(was: Table, a: Table, b: Table, now: Table, cached: seq<Id>)
    requires AreLoops(was, a, b, now, cached)
    ensures IsByValue(was, now, cached)
  {
    forall o, p | o in was && o !in now && p in cached && p in now && IsFor(FreeData, now[p])
      ensures was[o].onDisc && !now[p].inRam
    {
      LoopsAt(was, a, b, now, cached, o);
      LoopsAt(was, a, b, now, cached, p);
    }
  }

  lemma ByValueIs(s: State, cached: seq<Id>, limit: nat, c: Costs)
    requires NoRepeat(cached)
    ensures var r := ByValue(s, cached, limit, c);
            && KeepsNeeded(s.m, r.m) && IsByValue(s.m, r.m, cached)
            && (forall o :: o in s.m && (o !in cached || Needed(s.m[o])) ==> o in r.m && r.m[o] == s.m[o])
            && (r.size > limit ==> forall o :: o in cached && o in r.m ==> Needed(r.m[o]))
  {
    hide Pass, ChangedBy, KeepsNeeded, IsByValue, Needed;
    var s1 := Pass(FreeData, s, cached, limit, c);
    var s2 := Pass(DropBacked, s1, cached, limit, c);
    var s3 := Pass(DropFresh, s2, cached, limit, c);
    PassChanges(FreeData, s, cached, limit, c);
    PassChanges(DropBacked, s1, cached, limit, c);
    PassChanges(DropFresh, s2, cached, limit, c);
    LoopsKeepNeeded(s.m, s1.m, s2.m, s3.m, cached);
    LoopsGoByValue(s.m, s1.m, s2.m, s3.m, cached);
    forall o | o in s.m ensures o !in cached || Needed(s.m[o]) ==> o in s3.m && s3.m[o] == s.m[o] {
      LoopsAt(s.m, s1.m, s2.m, s3.m, cached, o);
    }
    if s3.size > limit {
      forall o | o in cached && o in s3.m ensures Needed(s3.m[o]) {
        AllReached(s.m, s1.m, s2.m, s3.m, cached, o);
      }
    }
  }

  lemma AllReached(was: Table, a: Table, b: Table, now: Table, cached: seq<Id>, o: Id)
    requires AreLoops(was, a, b, now, cached) && o in cached && o in now
    requires Finished(FreeData, cached, a) && Finished(DropBacked, cached, b) && Finished(DropFresh, cached, now)
    ensures Needed(now[o])
  {
    LoopsAt(was, a, b, now, cached, o);
  }

  /** What cleaning leaves. `left` is what is there when the useless objects are gone. */
  ghost predicate IsClean(was: Table, left: Table, now: Table, uncached: seq<Id>, cached: seq<Id>, stale: Id -> bool,
                          written: Id -> bool, limit: nat, c: Costs)
  {
    && KeepsNeeded(was, now)
    // Nothing useless is left.
    && (forall o :: o in now ==> Needed(was[o]) || (was[o].cached && !stale(o)))
    // Other objects go in the order of their value, and only if there is too much.
    && IsByValue(Written(left, written), now, cached)
    && (Total(left, uncached + cached, c) <= limit < WORD ==> now == left)
  }

  /** The limit is kept, or everything that can go is gone. */
  ghost predicate IsWithin(now: Table, all: seq<Id>, limit: nat, c: Costs) {
    Total(now, all, c) <= limit || forall o :: o in now ==> Needed(now[o])
  }

  lemma WrittenIs(m: Table, written: Id -> bool, list: seq<Id>, all: seq<Id>, c: Costs)
    requires InMemory(m)
    ensures var n := Written(m, written);
            && Total(n, all, c) == Total(m, all, c) && InMemory(n) && (HasData(m, list) ==> HasData(n, list))
            && n.Keys == m.Keys
            && forall o :: o in m ==>
                 && n[o] == m[o].(onDisc := n[o].onDisc)
                 && (n[o].onDisc <==> m[o].onDisc || (m[o].cached && m[o].candidates == 0 && !m[o].fetching && written(o)))
  {
    SameTotal(m, Written(m, written), all, c);
  }

  /** With all data there that is to be freed, the sum is never too small. */
  lemma SumIsEnough(s: State, cached: seq<Id>, limit: nat, all: seq<Id>, c: Costs)
    requires NoRepeat(all) && NoRepeat(cached) && forall o :: o in cached ==> o in all
    requires HasData(s.m, cached) && InMemory(s.m) && IsExact(s, all, c)
    ensures Total(ByValue(s, cached, limit, c).m, all, c) <= ByValue(s, cached, limit, c).size
  {
    hide Pass, Total, HasData, InMemory;
    var s1 := Pass(FreeData, s, cached, limit, c);
    var s2 := Pass(DropBacked, s1, cached, limit, c);
    PassIsExact(FreeData, s, cached, limit, all, c);
    PassIsExact(DropBacked, s1, cached, limit, all, c);
    PassIsExact(DropFresh, s2, cached, limit, all, c);
  }

  /** From what is there at first, `left` has lost the useless objects. */
  ghost predicate IsLeft(was: Table, left: Table, cached: seq<Id>, stale: Id -> bool) {
    && (forall o :: o in left <==> o in was && (Needed(was[o]) || (was[o].cached && !stale(o))))
    && (forall o :: o in left ==> left[o] == was[o] && (o in cached <==> was[o].cached))
  }

  lemma KeepsThroughout(was: Table, left: Table, written: Id -> bool, now: Table, cached: seq<Id>, stale: Id -> bool)
    requires IsLeft(was, left, cached, stale) && KeepsNeeded(Written(left, written), now)
    ensures KeepsNeeded(was, now)
    ensures forall o :: o in now ==> Needed(was[o]) || (was[o].cached && !stale(o))
  {
  }

  lemma CleanedIs(m: Table, uncached: seq<Id>, cached: seq<Id>, stale: Id -> bool, written: Id -> bool, limit: nat, c: Costs)
    requires Lists(m, uncached, cached) && AllDataOk(m)
    ensures var left, r := Kept(m, uncached, cached, stale), Cleaned(m, uncached, cached, stale, written, limit, c).m;
            && IsClean(m, left, r, uncached, cached, stale, written, limit, c)
            && (Total(left, uncached + cached, c) < WORD && HasData(left, cached) ==> IsWithin(r, uncached + cached, limit, c))
  {
    var left, all := Kept(m, uncached, cached, stale), uncached + cached;
    LeftIs(m, uncached, cached, stale, c);
    hide Lists, NoRepeat, Looked, Kept, Total, HasData, InMemory, ByValue, IsLeft, IsClean, IsWithin, AllDataOk, Written;
    StaysAsLeft(m, left, uncached, cached, stale, written, limit, c);
    if Total(left, all, c) % WORD > limit {
      GoesByValue(m, left, uncached, cached, stale, written, limit, c);
    }
  }

  lemma LeftIs(m: Table, uncached: seq<Id>, cached: seq<Id>, stale: Id -> bool, c: Costs)
    requires Lists(m, uncached, cached) && AllDataOk(m)
    ensures var left, all := Kept(m, uncached, cached, stale), uncached + cached;
            && Looked(Looked(State(m, 0), uncached, Always, c), cached, stale, c) == State(left, Total(left, all, c) % WORD)
            && IsLeft(m, left, cached, stale) && InMemory(left)
            && NoRepeat(all) && NoRepeat(cached) && forall o :: o in cached ==> o in all
  {
    hide Looked, Total, Kept;
    KeptIs(m, uncached, cached, stale, c);
    ListsApart(m, uncached, cached);
    var left := Kept(m, uncached, cached, stale);
    forall o | o in left ensures !left[o].onDisc && left[o].size > 0 ==> left[o].inRam {
      assert DataAt(m, o);
    }
  }

  lemma AllNeeded(was: Table, left: Table, written: Id -> bool, now: Table, cached: seq<Id>, stale: Id -> bool)
    requires IsLeft(was, left, cached, stale) && KeepsNeeded(Written(left, written), now)
    requires forall o :: o in cached && o in now ==> Needed(now[o])
    ensures forall o :: o in now ==> Needed(now[o])
  {
  }

  lemma StaysAsLeft(m: Table, left: Table, uncached: seq<Id>, cached: seq<Id>, stale: Id -> bool, written: Id -> bool,
                    limit: nat, c: Costs)
    requires IsLeft(m, left, cached, stale)
    ensures IsClean(m, left, left, uncached, cached, stale, written, limit, c)
    ensures Total(left, uncached + cached, c) % WORD <= limit && Total(left, uncached + cached, c) < WORD ==>
              IsWithin(left, uncached + cached, limit, c)
  {
    hide Total;
  }

  lemma GoesByValue(m: Table, left: Table, uncached: seq<Id>, cached: seq<Id>, stale: Id -> bool, written: Id -> bool,
                    limit: nat, c: Costs)
    requires NoRepeat(uncached + cached) && NoRepeat(cached) && forall o :: o in cached ==> o in uncached + cached
    requires IsLeft(m, left, cached, stale) && InMemory(left) && Total(left, uncached + cached, c) % WORD > limit
    ensures var all := uncached + cached;
            var r := ByValue(State(Written(left, written), Total(left, all, c) % WORD), cached, limit, c).m;
            && IsClean(m, left, r, uncached, cached, stale, written, limit, c)
            && (Total(left, all, c) < WORD && HasData(left, cached) ==> IsWithin(r, all, limit, c))
  {
    var all := uncached + cached;
    WrittenIs(left, written, cached, all, c);
    hide *;
    var s := State(Written(left, written), Total(left, all, c) % WORD);
    var r := ByValue(s, cached, limit, c);
    ByValueIs(s, cached, limit, c);
    KeepsThroughout(m, left, written, r.m, cached, stale);
    IsCleanIf(m, left, r.m, uncached, cached, stale, written, limit, c);
    if Total(left, all, c) < WORD && HasData(left, cached) {
      IsExactIf(s, all, c);
      SumIsEnough(s, cached, limit, all, c);
      if r.size > limit {
        AllNeeded(m, left, written, r.m, cached, stale);
      }
      IsWithinIf(r, all, limit, c);
    }
  }

  lemma IsCleanIf(was: Table, left: Table, now: Table, uncached: seq<Id>, cached: seq<Id>, stale: Id -> bool, written: Id -> bool,
                  limit: nat, c: Costs)
    requires KeepsNeeded(was, now) && forall o :: o in now ==> Needed(was[o]) || (was[o].cached && !stale(o))
    requires IsByValue(Written(left, written), now, cached) && Total(left, uncached + cached, c) % WORD > limit
    ensures IsClean(was, left, now, uncached, cached, stale, written, limit, c)
  {
    hide Total, IsByValue, Needed, Written;
  }

  lemma IsExactIf(s: State, all: seq<Id>, c: Costs)
    requires Total(s.m, all, c) < WORD && s.size == Total(s.m, all, c) % WORD
    ensures IsExact(s, all, c)
  {
    hide Total;
  }

  lemma IsWithinIf(r: State, all: seq<Id>, limit: nat, c: Costs)
    requires Total(r.m, all, c) <= r.size && (r.size > limit ==> forall o :: o in r.m ==> Needed(r.m[o]))
    ensures IsWithin(r.m, all, limit, c)
  {
    hide Total, Needed;
  }

  /** An object on disc, whose data was freed by an earlier cleaning, and one in memory
      only. The size of the first is taken off although it was not added, so cleaning
      ends with the limit exceeded, and with objects that could go. */
  lemma LimitIsMissed()
    ensures var c := Costs(1, Never);
            && Lists(EXAMPLE, [], [0, 1])
            && Cleaned(EXAMPLE, [], [0, 1], Nothing, Nothing, 500, c).m == EXAMPLE && !IsWithin(EXAMPLE, [0, 1], 500, c)
  {
    var m, list, c := EXAMPLE, [0, 1], Costs(1, Never);
    assert [] + list == list && list[1..] == [1] && list[1..][1..] == [];
    assert Total(m, [1], c) == SizeAt(m, 1, c) == 1001;
    assert Total(m, list, c) == 1002;
    var s1, s := State(m, 1), State(m, 1002);
    assert Looked(State(m, 0), list, Nothing, c) == s by {
      assert Look(State(m, 0), 0, Nothing, c) == s1 && Look(s1, 1, Nothing, c) == s;
      assert Looked(s1, [1], Nothing, c) == s;
    }
    assert Written(m, Nothing) == m;
    assert Pass(FreeData, s, list, 500, c) == State(m, 402) by {
      assert m[0 := m[0].(inRam := false)] == m;
      assert Drop(FreeData, s, 0, c) == State(m, 402);
    }
  }

  const EXAMPLE: Table := map[0 := Obj("x", true, {}, false, true, false, 600, 0, None, 0),
                              1 := Obj("y", true, {}, false, false, true, 1000, 0, None, 0)]

  predicate Nothing(o: Id) { false }
  function Never(o: Id): nat { 0 }

  // ---------------------------------------------------------------------
  // The loops
  // ---------------------------------------------------------------------

  /** One of the first two loops. */
  method LookAt(cache: ObjectCache, list: seq<Id>, stale: Id -> bool, size0: nat, c: Costs) returns (size: nat)
    requires cache.Valid()
    modifies cache`m
    ensures cache.Valid() && State(cache.m, size) == Looked(State(old(cache.m), size0), list, stale, c)
  {
    hide CandidatesOk, UsersOk, AllDataOk;
    size := size0;
    var i := 0;
    while i < |list|
      invariant i <= |list| && cache.Valid()
      invariant Looked(State(cache.m, size), list[i..], stale, c) == Looked(State(old(cache.m), size0), list, stale, c)
    {
      var o := list[i];
      assert list[i..][1..] == list[i + 1..];
      if o in cache.m && IsIdle(cache.m[o]) && stale(o) {
        GuardIsSafe(cache.m, cache.owner, o);
        cache.m := cache.m - {o};
      } else {
        size := (size + SizeAt(cache.m, o, c)) % WORD;
      }
      i := i + 1;
    }
  }

  lemma WriteKeeps(m: Table, owner: map<Client, Id>, o: Id)
    requires TableOk(m, owner) && o in m && IsWritable(m[o])
    ensures TableOk(m[o := m[o].(onDisc := true)], owner)
  {
    assert DataAt(m, o);
    DataChangeKeeps(m, owner, o, m[o].(onDisc := true));
  }

  /** The objects up to the `i`th have been written, if they can be. */
  ghost predicate WrittenTo(was: Table, now: Table, list: seq<Id>, i: nat, written: Id -> bool)
    requires i <= |list|
  {
    && now.Keys == was.Keys
    && forall o :: o in was ==>
         now[o] == if o in list[..i] && IsWritable(was[o]) && written(o) then was[o].(onDisc := true) else was[o]
  }

  lemma AllWritten(was: Table, now: Table, list: seq<Id>, written: Id -> bool)
    requires WrittenTo(was, now, list, |list|, written) && forall o :: o in was && was[o].cached ==> o in list
    ensures now == Written(was, written)
  {
    assert list[..|list|] == list;
  }

  lemma NextWritten(was: Table, now: Table, list: seq<Id>, i: nat, written: Id -> bool)
    requires i < |list| && WrittenTo(was, now, list, i, written)
    ensures var o := list[i];
            && (o in now && IsWritable(now[o]) && written(o) ==>
                  WrittenTo(was, now[o := now[o].(onDisc := true)], list, i + 1, written))
            && (!(o in now && IsWritable(now[o]) && written(o)) ==> WrittenTo(was, now, list, i + 1, written))
  {
    assert list[..i + 1] == list[..i] + [list[i]];
  }

  /** llcache_persist */
  method Persist(cache: ObjectCache, list: seq<Id>, written: Id -> bool)
    requires cache.Valid() && forall o :: o in cache.m && cache.m[o].cached ==> o in list
    modifies cache`m
    ensures cache.Valid() && cache.m == Written(old(cache.m), written)
  {
    hide TableOk, WrittenTo, IsWritable, Written;
    StartWriting(cache.m, list, written);
    var i := 0;
    while i < |list|
      invariant i <= |list| && cache.Valid() && WrittenTo(old(cache.m), cache.m, list, i, written)
    {
      var o := list[i];
      NextWritten(old(cache.m), cache.m, list, i, written);
      if o in cache.m && IsWritable(cache.m[o]) && written(o) {
        WriteKeeps(cache.m, cache.owner, o);
        cache.m := cache.m[o := cache.m[o].(onDisc := true)];
      }
      i := i + 1;
    }
    AllWritten(old(cache.m), cache.m, list, written);
  }

  lemma StartWriting(m: Table, list: seq<Id>, written: Id -> bool)
    ensures WrittenTo(m, m, list, 0, written)
  {
  }

  /** One of the last three loops. */
  method DropWhileOver(l: Loop, cache: ObjectCache, list: seq<Id>, limit: nat, size0: nat, c: Costs) returns (size: nat)
    requires cache.Valid()
    modifies cache`m
    ensures cache.Valid() && State(cache.m, size) == Pass(l, State(old(cache.m), size0), list, limit, c)
  {
    hide CandidatesOk, UsersOk, AllDataOk;
    size := size0;
    var i := 0;
    while i < |list| && limit < size
      invariant i <= |list| && cache.Valid()
      invariant Pass(l, State(cache.m, size), list[i..], limit, c) == Pass(l, State(old(cache.m), size0), list, limit, c)
    {
      var o := list[i];
      assert list[i..][1..] == list[i + 1..];
      if o in cache.m && IsFor(l, cache.m[o]) {
        var x := cache.m[o];
        match l {
          case FreeData =>
            DataChangeKeeps(cache.m, cache.owner, o, x.(inRam := false));
            cache.m := cache.m[o := x.(inRam := false)];
            size := Minus(size, x.size);
          case DropBacked =>
            size := Minus(size, SizeAt(cache.m, o, c));
            GuardIsSafe(cache.m, cache.owner, o);
            cache.m := cache.m - {o};
          case DropFresh =>
            size := Minus(size, x.size + c.base);
            GuardIsSafe(cache.m, cache.owner, o);
            cache.m := cache.m - {o};
        }
      }
      i := i + 1;
    }
  }

  /** llcache_clean. Nothing that is needed goes; what is useless goes at once; and if
      there is too much then, other objects go in the order of their value. If none of
      these had its data freed before, the limit is kept, or all that can go is gone. */
  method Clean(cache: ObjectCache, uncached: seq<Id>, cached: seq<Id>, stale: Id -> bool, written: Id -> bool, limit: nat, c: Costs)
    requires cache.Valid() && Lists(cache.m, uncached, cached)
    modifies cache`m
    ensures cache.Valid()
    ensures cache.m == Cleaned(old(cache.m), uncached, cached, stale, written, limit, c).m
    ensures var left := Kept(old(cache.m), uncached, cached, stale);
            && IsClean(old(cache.m), left, cache.m, uncached, cached, stale, written, limit, c)
            && (Total(left, uncached + cached, c) < WORD && HasData(left, cached) ==>
                  IsWithin(cache.m, uncached + cached, limit, c))
  {
    hide Lists, Looked, Written, Pass, IsClean, HasData, Total, Kept, IsWithin, CandidatesOk, UsersOk, AllDataOk;
    CleanedIs(cache.m, uncached, cached, stale, written, limit, c);
    StillListed(cache.m, uncached, cached, stale, c);
    var size := LookAt(cache, uncached, Always, 0, c);
    size := LookAt(cache, cached, stale, size, c);
    if limit < size {
      Persist(cache, cached, written);
      size := DropWhileOver(FreeData, cache, cached, limit, size, c);
      size := DropWhileOver(DropBacked, cache, cached, limit, size, c);
      size := DropWhileOver(DropFresh, cache, cached, limit, size, c);
    }
  }

  lemma StillListed(m: Table, uncached: seq<Id>, cached: seq<Id>, stale: Id -> bool, c: Costs)
    requires Lists(m, uncached, cached)
    ensures var n := Looked(Looked(State(m, 0), uncached, Always, c), cached, stale, c).m;
            forall o :: o in n && n[o].cached ==> o in cached
  {
    KeptIs(m, uncached, cached, stale, c);
  }
}
