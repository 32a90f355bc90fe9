/** The objects of the low-level cache: who uses them, and which objects may stand in
    for others that are being fetched (content/llcache.c). */
module CacheObjects {

  type Id = nat
  type Client = nat

  datatype Option<T> = None | Some(value: T)

  /** llcache_object. `users` are the handles of its users. An object that is being
      fetched names the `candidate` that is to be used if that is still fresh.
      `candidates` is candidate_count; `inRam` means that source_data is not NULL. */
  datatype Obj = Obj(url: string, cached: bool, users: set<Client>, fetching: bool, onDisc: bool, inRam: bool,
                     size: nat, reqTime: int, candidate: Option<Id>, candidates: nat)

  type Table = map<Id, Obj>

  /** The objects that name `c`. */
  function Namers(m: Table, c: Id): set<Id> {
    set o | o in m && m[o].candidate == Some(c)
  }

  predicate CountOk(m: Table, o: Id)
    requires o in m
  {
    m[o].candidates >= |Namers(m, o)|
  }

  /** A named candidate exists. */
  predicate CandidateOk(m: Table, o: Id)
    requires o in m
  {
    m[o].candidate.Some? ==> m[o].candidate.value in m && m[o].candidate.value != o
  }

  /** The count is never too small. */
  predicate CandidatesOk(m: Table) {
    forall o :: o in m ==> CountOk(m, o) && CandidateOk(m, o)
  }

  /** The users of `o` point to it. */
  predicate UsersAt(m: Table, owner: map<Client, Id>, o: Id)
    requires o in m
  {
    forall h :: h in m[o].users ==> h in owner && owner[h] == o
  }

  /** The object that a handle points to has it as a user. */
  predicate OwnerAt(m: Table, owner: map<Client, Id>, h: Client)
    requires h in owner
  {
    owner[h] in m && h in m[owner[h]].users
  }

  /** Each handle is a user of just the object that it points to. */
  predicate UsersOk(m: Table, owner: map<Client, Id>) {
    && (forall o :: o in m ==> UsersAt(m, owner, o))
    && (forall h :: h in owner ==> OwnerAt(m, owner, h))
  }

  /** Only an object that nobody needs has its data on disc alone. */
  predicate DataOk(x: Obj) {
    && (!x.onDisc && x.size > 0 ==> x.inRam)
    && (x.onDisc && x.size > 0 && !x.inRam ==> x.users == {} && x.candidates == 0)
  }

  predicate DataAt(m: Table, o: Id)
    requires o in m
  {
    DataOk(m[o])
  }

  predicate AllDataOk(m: Table) {
    forall o :: o in m ==> DataAt(m, o)
  }

  predicate TableOk(m: Table, owner: map<Client, Id>) {
    CandidatesOk(m) && UsersOk(m, owner) && AllDataOk(m)
  }

  // ---------------------------------------------------------------------
  // Changes to the table
  // ---------------------------------------------------------------------

  /** A change to an object that has nothing to do with candidates. */
  lemma SameCandidate(m: Table, o: Id, x: Obj)
    requires CandidatesOk(m) && o in m && x.candidate == m[o].candidate && x.candidates >= m[o].candidates
    ensures CandidatesOk(m[o := x])
  {
    var n := m[o := x];
    forall c | c in n ensures CountOk(n, c) && CandidateOk(n, c) {
      assert CountOk(m, c) && CandidateOk(m, c);
      assert Namers(n, c) == Namers(m, c);
    }
  }

  /** Nobody names an object that does not exist. */
  lemma NoNamers(m: Table, o: Id)
    requires CandidatesOk(m) && o !in m
    ensures Namers(m, o) == {}
  {
    forall p | p in m ensures m[p].candidate != Some(o) {
      assert CandidateOk(m, p);
    }
  }

  /** A new object that names none. */
  lemma NewObject(m: Table, o: Id, x: Obj)
    requires CandidatesOk(m) && o !in m && x.candidate.None?
    ensures CandidatesOk(m[o := x])
  {
    var n := m[o := x];
    NoNamers(m, o);
    forall c | c in n ensures CountOk(n, c) && CandidateOk(n, c) {
      assert c != o ==> CountOk(m, c) && CandidateOk(m, c);
      assert Namers(n, c) == Namers(m, c);
    }
  }

  /** The table with the new object `o`, which names `c`. */
  function WithCandidate(m: Table, o: Id, x: Obj, c: Id): Table
    requires c in m && x.candidate == Some(c)
  {
    m[c := m[c].(candidates := m[c].candidates + 1)][o := x]
  }

  lemma NewObjectWithCandidate(m: Table, o: Id, x: Obj, c: Id)
    requires CandidatesOk(m) && o !in m && c in m && x.candidate == Some(c)
    ensures CandidatesOk(WithCandidate(m, o, x, c))
  {
    var n := WithCandidate(m, o, x, c);
    NoNamers(m, o);
    forall d | d in n ensures CountOk(n, d) && CandidateOk(n, d) {
      assert d != o ==> CountOk(m, d) && CandidateOk(m, d);
      NamersWith(m, o, x, c, d);
      hide Namers;
      assert d == c ==> |Namers(m, d) + {o}| <= |Namers(m, d)| + 1;
    }
  }

  lemma NamersWith(m: Table, o: Id, x: Obj, c: Id, d: Id)
    requires o !in m && c in m && x.candidate == Some(c)
    ensures Namers(WithCandidate(m, o, x, c), d) == if d == c then Namers(m, d) + {o} else Namers(m, d)
  {
  }

  /** The count of references is a number of 32 bits. */
  function Less(n: nat): nat {
    if n > 0 then n - 1 else 0xffff_ffff
  }

  /** The state after `o` has given up its candidate. */
  function WithoutCandidate(m: Table, o: Id): Table
    requires o in m && CandidateOk(m, o)
  {
    match m[o].candidate
    case None => m
    case Some(c) => m[c := m[c].(candidates := Less(m[c].candidates))][o := m[o].(candidate := None)]
  }

  /** The state after the fetch of `o` has come to nothing. */
  function Stopped(m: Table, o: Id): Table
    requires o in m && CandidateOk(m, o)
  {
    WithoutCandidate(m, o)[o := m[o].(candidate := None, fetching := false)]
  }

  /** The candidate of `o`, if there was one, is counted once less. */
  predicate OneLess(was: Table, now: Table, o: Id)
    requires o in was
  {
    was[o].candidate.Some? ==>
      var c := was[o].candidate.value;
      c in was && c in now && now[c].candidates == was[c].candidates - 1
  }

  /** Giving up a candidate keeps the counts right; the count does not run below 0. */
  lemma GiveUpCandidate(m: Table, o: Id)
    requires CandidatesOk(m) && o in m && CandidateOk(m, o)
    ensures CandidatesOk(WithoutCandidate(m, o))
    ensures m[o].candidate.Some? ==> m[m[o].candidate.value].candidates > 0
    ensures OneLess(m, WithoutCandidate(m, o), o)
  {
    if m[o].candidate.Some? {
      var c := m[o].candidate.value;
      var n := WithoutCandidate(m, o);
      assert o in Namers(m, c) && CountOk(m, c);
      forall d | d in n ensures CountOk(n, d) && CandidateOk(n, d) {
        assert CountOk(m, d) && CandidateOk(m, d);
        assert Namers(n, d) == if d == c then Namers(m, d) - {o} else Namers(m, d);
      }
    }
  }

  /** An object without a count can be destroyed: nobody names it. */
  lemma DestroyKeepsCandidates(m: Table, o: Id)
    requires CandidatesOk(m) && o in m && Namers(m, o) == {}
    ensures CandidatesOk(m - {o})
  {
    var n := m - {o};
    forall c | c in n ensures CountOk(n, c) && CandidateOk(n, c) {
      assert CountOk(m, c) && CandidateOk(m, c);
      assert c !in Namers(m, o);
      Fewer(Namers(n, c), Namers(m, c));
    }
  }

  lemma {:induction false} Fewer(a: set<Id>, b: set<Id>)
    requires a <= b
    ensures |a| <= |b|
  {
    if a != {} {
      var x :| x in a;
      Fewer(a - {x}, b - {x});
    }
  }

  // ---------------------------------------------------------------------
  // Users
  // ---------------------------------------------------------------------

  function WithUsers(m: Table, o: Id, users: set<Client>): Table
    requires o in m
  {
    m[o := m[o].(users := users)]
  }

  /** The owners when all users of `o` have moved to `d`. */
  function Moved(owner: map<Client, Id>, o: Id, d: Id): map<Client, Id> {
    map h | h in owner :: if owner[h] == o then d else owner[h]
  }

  lemma AddUserUsers(m: Table, owner: map<Client, Id>, o: Id, h: Client)
    requires UsersOk(m, owner) && o in m && h !in owner
    ensures UsersOk(WithUsers(m, o, m[o].users + {h}), owner[h := o])
  {
    var n, now := WithUsers(m, o, m[o].users + {h}), owner[h := o];
    forall p | p in n ensures UsersAt(n, now, p) {
      assert UsersAt(m, owner, p);
    }
    forall g | g in now ensures OwnerAt(n, now, g) {
      assert g != h ==> OwnerAt(m, owner, g);
    }
  }

  lemma RemoveUserUsers(m: Table, owner: map<Client, Id>, h: Client)
    requires UsersOk(m, owner) && h in owner && OwnerAt(m, owner, h)
    ensures UsersOk(WithUsers(m, owner[h], m[owner[h]].users - {h}), owner - {h})
  {
    var o := owner[h];
    var n, now := WithUsers(m, o, m[o].users - {h}), owner - {h};
    forall p | p in n ensures UsersAt(n, now, p) {
      assert UsersAt(m, owner, p);
    }
    forall g | g in now ensures OwnerAt(n, now, g) {
      assert OwnerAt(m, owner, g);
    }
  }

  /** The table when all users of `o` have moved to `d`. */
  function MoveAll(m: Table, o: Id, d: Id): Table
    requires o in m && d in m
  {
    if o == d then m else WithUsers(WithUsers(m, d, m[d].users + m[o].users), o, {})
  }

  lemma MoveAllUsers(m: Table, owner: map<Client, Id>, o: Id, d: Id)
    requires UsersOk(m, owner) && o in m && d in m
    ensures UsersOk(MoveAll(m, o, d), Moved(owner, o, d))
  {
    var n, now := MoveAll(m, o, d), Moved(owner, o, d);
    assert UsersAt(m, owner, o);
    forall p | p in n ensures UsersAt(n, now, p) {
      assert UsersAt(m, owner, p);
    }
    forall g | g in now ensures OwnerAt(n, now, g) {
      assert OwnerAt(m, owner, g);
    }
  }

  /** A change that leaves all users where they are. */
  lemma SameUsers(m: Table, owner: map<Client, Id>, n: Table)
    requires UsersOk(m, owner)
    requires forall o :: o in m ==> o in n && n[o].users == m[o].users
    requires forall o :: o in n && o !in m ==> n[o].users == {}
    ensures UsersOk(n, owner)
  {
    forall p | p in n ensures UsersAt(n, owner, p) {
      assert p in m ==> UsersAt(m, owner, p);
    }
    forall g | g in owner ensures OwnerAt(n, owner, g) {
      assert OwnerAt(m, owner, g);
    }
  }

  lemma DestroyUsers(m: Table, owner: map<Client, Id>, o: Id)
    requires UsersOk(m, owner) && o in m
    ensures UsersOk(m - {o}, owner) <==> m[o].users == {}
  {
    var n := m - {o};
    if m[o].users == {} {
      forall p | p in n ensures UsersAt(n, owner, p) {
        assert UsersAt(m, owner, p);
      }
      forall g | g in owner ensures OwnerAt(n, owner, g) {
        assert OwnerAt(m, owner, g);
      }
    } else {
      var h :| h in m[o].users;
      assert UsersAt(m, owner, o) && h in owner && !OwnerAt(n, owner, h);
    }
  }

  lemma DestroyCandidates(m: Table, o: Id)
    requires CandidatesOk(m) && o in m
    ensures CandidatesOk(m - {o}) <==> Namers(m, o) == {}
  {
    if Namers(m, o) == {} {
      DestroyKeepsCandidates(m, o);
    } else {
      var p :| p in Namers(m, o);
      assert CandidateOk(m, p) && p in m - {o} && !CandidateOk(m - {o}, p);
    }
  }

  /** A change to one object that keeps its data in order. */
  lemma DataUpdate(m: Table, o: Id, x: Obj)
    requires AllDataOk(m) && DataOk(x)
    ensures AllDataOk(m[o := x])
  {
    forall p | p in m && p != o ensures DataAt(m[o := x], p) {
      assert DataAt(m, p);
    }
  }

  lemma DataWithout(m: Table, o: Id)
    requires AllDataOk(m)
    ensures AllDataOk(m - {o})
  {
    forall p | p in m && p != o ensures DataAt(m - {o}, p) {
      assert DataAt(m, p);
    }
  }

  // ---------------------------------------------------------------------
  // Steps
  // ---------------------------------------------------------------------

  /** The data is where a user can get at it. */
  predicate Usable(x: Obj) {
    x.onDisc && x.size > 0 ==> x.inRam
  }

  lemma AddUserKeeps(m: Table, owner: map<Client, Id>, o: Id, h: Client)
    requires TableOk(m, owner) && o in m && h !in owner && Usable(m[o])
    ensures TableOk(WithUsers(m, o, m[o].users + {h}), owner[h := o])
  {
    var x := m[o].(users := m[o].users + {h});
    SameCandidate(m, o, x);
    AddUserUsers(m, owner, o, h);
    assert DataAt(m, o);
    DataUpdate(m, o, x);
  }

  lemma RemoveUserKeeps(m: Table, owner: map<Client, Id>, h: Client)
    requires TableOk(m, owner) && h in owner
    ensures OwnerAt(m, owner, h)
    ensures TableOk(WithUsers(m, owner[h], m[owner[h]].users - {h}), owner - {h})
  {
    assert OwnerAt(m, owner, h);
    var o := owner[h];
    var x := m[o].(users := m[o].users - {h});
    SameCandidate(m, o, x);
    RemoveUserUsers(m, owner, h);
    assert DataAt(m, o);
    DataUpdate(m, o, x);
  }

  lemma MoveAllKeeps(m: Table, owner: map<Client, Id>, o: Id, d: Id)
    requires TableOk(m, owner) && o in m && d in m && Usable(m[d])
    ensures TableOk(MoveAll(m, o, d), Moved(owner, o, d))
  {
    MoveAllUsers(m, owner, o, d);
    if o != d {
      var x, y := m[d].(users := m[d].users + m[o].users), m[o].(users := {});
      SameCandidate(m, d, x);
      SameCandidate(m[d := x], o, y);
      assert DataAt(m, o) && DataAt(m, d);
      DataUpdate(m, d, x);
      DataUpdate(m[d := x], o, y);
    }
  }

  /** An object can be destroyed just if it has no users and nobody names it. */
  lemma DestroyIsSafeIff(m: Table, owner: map<Client, Id>, o: Id)
    requires TableOk(m, owner) && o in m
    ensures TableOk(m - {o}, owner) <==> m[o].users == {} && Namers(m, o) == {}
  {
    DestroyUsers(m, owner, o);
    DestroyCandidates(m, o);
    DataWithout(m, o);
  }

  /** An object with an empty body on disc, which has a user, is one that must not be
      destroyed without a look at its users. */
  lemma EmptyBodyIsMissed()
    ensures var x := Obj("u", true, {1}, false, true, false, 0, 0, None, 0);
            && x.onDisc && !x.inRam && TableOk(map[0 := x], map[1 := 0]) && !TableOk(map[0 := x] - {0}, map[1 := 0])
  {
    var x := Obj("u", true, {1}, false, true, false, 0, 0, None, 0);
    var m, owner := map[0 := x], map[1 := 0];
    assert UsersAt(m, owner, 0) && OwnerAt(m, owner, 1) && DataAt(m, 0) && CandidateOk(m, 0);
    assert Namers(m, 0) == {};
    assert CountOk(m, 0);
    DestroyIsSafeIff(m, owner, 0);
  }

  /** The guard under which llcache_clean destroys an object. */
  lemma GuardIsSafe(m: Table, owner: map<Client, Id>, o: Id)
    requires TableOk(m, owner) && o in m && m[o].users == {} && m[o].candidates == 0
    ensures TableOk(m - {o}, owner)
  {
    assert CountOk(m, o) && |Namers(m, o)| == 0;
    DestroyIsSafeIff(m, owner, o);
  }

  /** An object with a body, whose data is on disc alone, may be destroyed without
      another look at it. */
  lemma DiscAloneIsSafe(m: Table, owner: map<Client, Id>, o: Id)
    requires TableOk(m, owner) && o in m && m[o].onDisc && !m[o].inRam && m[o].size > 0
    ensures TableOk(m - {o}, owner)
  {
    assert DataAt(m, o);
    GuardIsSafe(m, owner, o);
  }

  lemma NewKeeps(m: Table, owner: map<Client, Id>, o: Id, x: Obj)
    requires TableOk(m, owner) && o !in m && x.users == {} && DataOk(x) && x.candidate.None?
    ensures TableOk(m[o := x], owner)
  {
    NewObject(m, o, x);
    SameUsers(m, owner, m[o := x]);
    DataUpdate(m, o, x);
  }

  lemma NewWithCandidateKeeps(m: Table, owner: map<Client, Id>, o: Id, x: Obj, c: Id)
    requires TableOk(m, owner) && o !in m && x.users == {} && DataOk(x) && x.candidate == Some(c)
    requires c in m && Usable(m[c])
    ensures TableOk(WithCandidate(m, o, x, c), owner)
  {
    NewObjectWithCandidate(m, o, x, c);
    SameUsers(m, owner, WithCandidate(m, o, x, c));
    assert DataAt(m, c);
    DataUpdate(m, c, m[c].(candidates := m[c].candidates + 1));
    DataUpdate(m[c := m[c].(candidates := m[c].candidates + 1)], o, x);
  }

  lemma GiveUpData(m: Table, o: Id)
    requires AllDataOk(m) && o in m && CandidateOk(m, o)
    requires m[o].candidate.Some? ==> m[m[o].candidate.value].candidates > 0
    ensures AllDataOk(WithoutCandidate(m, o))
  {
    if m[o].candidate.Some? {
      var c := m[o].candidate.value;
      assert DataAt(m, o) && DataAt(m, c);
      hide AllDataOk;
      var x := m[c].(candidates := Less(m[c].candidates));
      DataUpdate(m, c, x);
      DataUpdate(m[c := x], o, m[o].(candidate := None));
    }
  }

  /** Giving up a candidate touches no users and no data. */
  lemma GiveUpUsers(m: Table, owner: map<Client, Id>, o: Id)
    requires UsersOk(m, owner) && o in m && CandidateOk(m, o)
    ensures UsersOk(WithoutCandidate(m, o), owner) && Kept(m, WithoutCandidate(m, o), None)
    ensures o in WithoutCandidate(m, o) && WithoutCandidate(m, o)[o] == m[o].(candidate := None)
  {
    hide UsersOk;
    var n := WithoutCandidate(m, o);
    forall p | p in m ensures p in n && n[p].users == m[p].users && KeptAt(m, n, p) {
    }
    assert n.Keys == m.Keys;
    hide WithoutCandidate;
    SameUsers(m, owner, n);
  }

  lemma GiveUpKeeps(m: Table, owner: map<Client, Id>, o: Id)
    requires TableOk(m, owner) && o in m
    ensures CandidateOk(m, o) && TableOk(WithoutCandidate(m, o), owner) && OneLess(m, WithoutCandidate(m, o), o)
    ensures Kept(m, WithoutCandidate(m, o), None) && WithoutCandidate(m, o).Keys == m.Keys
    ensures o in WithoutCandidate(m, o) && WithoutCandidate(m, o)[o] == m[o].(candidate := None)
  {
    assert CandidateOk(m, o);
    GiveUpCandidate(m, o);
    GiveUpData(m, o);
    GiveUpUsers(m, owner, o);
  }

  lemma KeptFurther(was: Table, now: Table, o: Id, x: Obj)
    requires Kept(was, now, None) && o in now && SameButFetch(x, now[o])
    ensures Kept(was, now[o := x], None)
  {
    forall p | p in was ensures KeptAt(was, now[o := x], p) {
      assert KeptAt(was, now, p);
    }
  }

  /** A change to the data of an object. */
  lemma DataChangeKeeps(m: Table, owner: map<Client, Id>, o: Id, x: Obj)
    requires TableOk(m, owner) && o in m && DataOk(x)
    requires x.users == m[o].users && x.candidate == m[o].candidate && x.candidates == m[o].candidates
    ensures TableOk(m[o := x], owner)
  {
    SameCandidate(m, o, x);
    SameUsers(m, owner, m[o := x]);
    DataUpdate(m, o, x);
  }

  lemma FetchOver(m: Table, owner: map<Client, Id>, o: Id)
    requires TableOk(m, owner) && o in m
    ensures TableOk(m[o := m[o].(fetching := false)], owner)
  {
    assert DataAt(m, o);
    DataChangeKeeps(m, owner, o, m[o].(fetching := false));
  }

  lemma OwnerExists(m: Table, owner: map<Client, Id>, h: Client)
    requires TableOk(m, owner) && h in owner
    ensures OwnerAt(m, owner, h)
  {
  }

  lemma StopKeeps(m: Table, owner: map<Client, Id>, o: Id)
    requires TableOk(m, owner) && o in m
    ensures CandidateOk(m, o) && TableOk(Stopped(m, o), owner)
    ensures Kept(m, Stopped(m, o), None) && Stopped(m, o).Keys == m.Keys
    ensures OneLess(m, Stopped(m, o), o)
  {
    GiveUpKeeps(m, owner, o);
    var n := WithoutCandidate(m, o);
    assert DataAt(n, o);
    hide TableOk, WithoutCandidate, Kept;
    DataChangeKeeps(n, owner, o, n[o].(fetching := false));
    KeptFurther(m, n, o, n[o].(fetching := false));
  }

  // ---------------------------------------------------------------------
  // The cache
  // ---------------------------------------------------------------------

  function NewObj(url: string, cached: bool, time: int, candidate: Option<Id>): Obj {
    Obj(url, cached, {}, true, false, false, 0, time, candidate, 0)
  }

  /** Is this a match for a search, at least as new as all others? */
  ghost predicate IsNewest(m: Table, url: string, r: Option<Id>) {
    match r
    case None => forall o :: o in m ==> !(m[o].cached && m[o].url == url)
    case Some(n) =>
      && n in m && m[n].cached && m[n].url == url
      && forall o :: o in m && m[o].cached && m[o].url == url ==> m[o].reqTime <= m[n].reqTime
  }

  /** All objects but `lost` stay. Nothing changes in them but what has to do with
      candidates and the fetch, and whether the data is in memory. */
  predicate Kept(was: Table, now: Table, lost: Option<Id>) {
    forall o :: o in was && lost != Some(o) ==> KeptAt(was, now, o)
  }

  predicate KeptAt(was: Table, now: Table, o: Id)
    requires o in was
  {
    o in now && SameButFetch(now[o], was[o])
  }

  predicate SameButFetch(x: Obj, y: Obj) {
    && x.url == y.url && x.cached == y.cached && x.users == y.users && x.onDisc == y.onDisc && x.size == y.size
    && x.reqTime == y.reqTime && (y.inRam ==> x.inRam)
  }

  lemma KeptTwice(a: Table, b: Table, c: Table, lost: Option<Id>)
    requires Kept(a, b, None) && Kept(b, c, lost)
    ensures Kept(a, c, lost)
  {
    forall o | o in a && lost != Some(o) ensures KeptAt(a, c, o) {
      assert KeptAt(a, b, o) && KeptAt(b, c, o);
    }
  }

  /** What is known of an object in the backing store. */
  datatype Stored = Stored(size: nat, reqTime: int)

  /** What the world outside says in the course of one retrieval: the metadata that the
      backing store has for the URL, whether the object found is fresh, whether its data
      can be read back, whether a fetch starts, and the time. */
  datatype Answers = Answers(stored: Option<Stored>, isFresh: bool, canRead: bool, starts: bool, time: int)

  predicate InMemory(x: Obj) {
    x.inRam || !x.onDisc
  }

  /** There is an object for the URL, in the cache or in the backing store. */
  predicate IsFound(newest: Option<Id>, a: Answers) {
    newest.Some? || a.stored.Some?
  }

  /** The data of the object found is in memory, or can be read back. */
  predicate IsRead(m: Table, newest: Option<Id>, a: Answers)
    requires newest.Some? ==> newest.value in m
  {
    a.canRead || (newest.Some? && InMemory(m[newest.value]))
  }

  /** `r` is the object that was there, or else one that was read from the store. */
  predicate IsThat(was: Table, newest: Option<Id>, r: Option<Id>) {
    r.Some? && if newest.Some? then r == newest else r.value !in was
  }

  /** An object that was read from the store is as it was stored, and in the cache. */
  predicate IsAsStored(was: Table, now: Table, url: string, r: Option<Id>, stored: Option<Stored>) {
    r.Some? && r.value !in was && r.value in now && stored.Some? ==>
      var x := now[r.value];
      x.url == url && x.cached && x.onDisc && x.size == stored.value.size && x.reqTime == stored.value.reqTime
  }

  /** `o` is a new object that is being fetched since `time`, has no data yet, and names
      `candidate`. It is in the cache if it is `cachable`. */
  predicate IsFetched(was: Table, now: Table, o: Id, candidate: Option<Id>, cachable: bool, time: int) {
    && o !in was && o in now && now[o].fetching && now[o].candidate == candidate
    && now[o].cached == cachable && now[o].reqTime == time
    && now[o].size == 0 && !now[o].inRam && !now[o].onDisc
  }

  /** What a search of the cache has given. An object is lost just if it was found and
      its data cannot be read. One that is found and fresh is given itself; one that is
      found and not fresh becomes the candidate of a new object. */
  ghost predicate FromCache(was: Table, now: Table, url: string, a: Answers, newest: Option<Id>,
                            r: Option<Id>, lost: Option<Id>) {
    && IsNewest(was, url, newest)
    && (lost.Some? <==> IsFound(newest, a) && !IsRead(was, newest, a))
    && (lost.Some? ==> IsThat(was, newest, lost) && lost.value !in now)
    && (r.Some? <==> a.starts || (IsFound(newest, a) && a.isFresh && lost.None?))
    && (r.Some? ==>
          if !IsFound(newest, a) || lost.Some? then IsFetched(was, now, r.value, None, true, a.time)
          else if a.isFresh then IsThat(was, newest, r) && IsAsStored(was, now, url, r, a.stored)
          else r.value in now && IsThat(was, newest, now[r.value].candidate)
               && IsAsStored(was, now, url, now[r.value].candidate, a.stored)
               && IsFetched(was, now, r.value, now[r.value].candidate, true, a.time))
  }

  /** What a retrieval has given. */
  ghost predicate Retrieved(was: Table, now: Table, url: string, cachable: bool, a: Answers,
                            newest: Option<Id>, r: Option<Id>, lost: Option<Id>) {
    && (r.Some? ==> r.value in now && Usable(now[r.value]) && now[r.value].url == url)
    && if cachable then FromCache(was, now, url, a, newest, r, lost)
       else lost.None? && (r.Some? <==> a.starts) && (r.Some? ==> IsFetched(was, now, r.value, None, false, a.time))
  }

  lemma LostIsOnDisc(was: Table, now: Table, url: string, cachable: bool, a: Answers,
                     newest: Option<Id>, r: Option<Id>, lost: Option<Id>)
    requires Retrieved(was, now, url, cachable, a, newest, r, lost) && lost.Some?
    ensures lost.value !in now && (lost.value in was ==> was[lost.value].onDisc && !was[lost.value].inRam)
  {
  }

  lemma GivenIsUsable(was: Table, now: Table, url: string, cachable: bool, a: Answers,
                      newest: Option<Id>, r: Option<Id>, lost: Option<Id>)
    requires Retrieved(was, now, url, cachable, a, newest, r, lost) && r.Some?
    ensures r.value in now && Usable(now[r.value])
  {
  }

  /** When users move, this changes nothing in what was given. */
  lemma RetrievedAndMoved(was: Table, now: Table, url: string, cachable: bool, a: Answers,
                          newest: Option<Id>, r: Option<Id>, lost: Option<Id>, o: Id, d: Id)
    requires Retrieved(was, now, url, cachable, a, newest, r, lost) && o in now && d in now
    ensures Retrieved(was, MoveAll(now, o, d), url, cachable, a, newest, r, lost)
  {
  }

  /** What a search has given for a cachable URL is in the cache. An object that had to be
      fetched is as new as the retrieval. */
  lemma GivenIsCached(was: Table, now: Table, url: string, a: Answers, newest: Option<Id>, r: Option<Id>, lost: Option<Id>)
    requires Retrieved(was, now, url, true, a, newest, r, lost) && Kept(was, now, lost) && r.Some?
    ensures now[r.value].cached && now[r.value].url == url
    ensures newest.None? && a.stored.None? ==> now[r.value].reqTime == a.time
  {
    if newest.Some? && r == newest {
      assert KeptAt(was, now, r.value);
    }
  }

  /** Two retrievals of the same URL. What the first one has given is found by the second,
      or else something at least as new. It is given if it is fresh, and becomes the
      candidate of another fetch if it is not. */
  lemma SecondFindsFirst(was: Table, mid: Table, now: Table, url: string, a: Answers, first: Option<Id>, lost: Option<Id>,
                         newest: Option<Id>, b: Answers, second: Option<Id>, lost2: Option<Id>, found: Option<Id>)
    requires Retrieved(was, mid, url, true, a, newest, first, lost) && Kept(was, mid, lost) && first.Some?
    requires Retrieved(mid, now, url, true, b, found, second, lost2)
    ensures found.Some? && found.value in mid && mid[found.value].cached && mid[found.value].url == url
    ensures mid[found.value].reqTime >= mid[first.value].reqTime
    ensures IsRead(mid, found, b) ==>
              && lost2.None? && (b.isFresh ==> second == found)
              && (!b.isFresh && b.starts ==> second.Some? && second.value in now && now[second.value].candidate == found)
  {
    GivenIsCached(was, mid, url, a, newest, first, lost);
  }

  /** A handle to `o` has been aborted and points to `n`: the fetch is over if it still is the
      same object; if not, the handle is just not a user any more. Nothing else changes. */
  predicate IsAborted(was: Table, now: Table, o: Id, n: Id, h: Client) {
    forall p :: p in was ==>
      p in now && now[p] == if p != o then was[p]
                            else if o == n then was[o].(fetching := false)
                            else was[o].(users := was[o].users - {h})
  }

  lemma AbortedIs(m: Table, o: Id, h: Client)
    requires o in m
    ensures IsAborted(m, m[o := m[o].(fetching := false)], o, o, h)
  {
  }

  lemma LeftIs(was: Table, mid: Table, now: Table, o: Id, n: Id, h: Client)
    requires o in was && n !in was && n in mid && n in now && mid == was[n := mid[n]]
    requires now == WithUsers(mid, o, mid[o].users - {h})[n := now[n]]
    ensures IsAborted(was, now, o, n, h)
  {
  }

  /** llcache, without cleaning. */
  class ObjectCache {
    var m: Table
    var owner: map<Client, Id>
    var nextId: Id

    ghost predicate IdsOk()
      reads this
    {
      forall o :: o in m ==> o < nextId
    }

    ghost predicate Valid()
      reads this
    {
      TableOk(m, owner) && IdsOk()
    }

    constructor ()
      ensures Valid() && m == map[] && owner == map[]
    {
      m, owner, nextId := map[], map[], 0;
    }

    /** llcache_object_new and llcache_object_add_to_list */
    method AddNew(x: Obj) returns (o: Id)
      requires IdsOk() && x.users == {} && DataOk(x)
      requires x.candidate.Some? ==> x.candidate.value in m && Usable(m[x.candidate.value])
      modifies this`m, this`nextId
      ensures IdsOk() && o !in old(m) && o == old(nextId)
      ensures m == if x.candidate.Some? then WithCandidate(old(m), o, x, x.candidate.value) else old(m)[o := x]
      ensures old(Valid()) ==> Valid()
    {
      o := nextId;
      if x.candidate.Some? {
        if Valid() { NewWithCandidateKeeps(m, owner, o, x, x.candidate.value); }
        m := WithCandidate(m, o, x, x.candidate.value);
      } else {
        if Valid() { NewKeeps(m, owner, o, x); }
        m := m[o := x];
      }
      nextId := nextId + 1;
    }

    /** The search through the cached objects. */
    method FindNewest(url: string) returns (r: Option<Id>)
      ensures IsNewest(m, url, r)
    {
      r := None;
      var rest := m.Keys;
      while rest != {}
        invariant rest <= m.Keys
        invariant r.Some? ==> r.value in m && m[r.value].cached && m[r.value].url == url
        invariant forall o :: o in m && o !in rest && m[o].cached && m[o].url == url ==>
                    r.Some? && m[o].reqTime <= m[r.value].reqTime
        decreases rest
      {
        var o :| o in rest;
        rest := rest - {o};
        if m[o].cached && m[o].url == url && (r.None? || m[o].reqTime > m[r.value].reqTime) {
          r := Some(o);
        }
      }
    }

    /** llcache_retrieve_persisted_data */
    method RetrievePersisted(o: Id, canRead: bool) returns (ok: bool)
      requires Valid() && o in m
      modifies this`m
      ensures Valid() && o in m && (ok ==> Usable(m[o])) && (ok <==> InMemory(old(m)[o]) || canRead)
      ensures m == old(m)[o := old(m)[o].(inRam := m[o].inRam)] && (!ok ==> m == old(m)) && Kept(old(m), m, None)
    {
      ok := InMemory(m[o]) || canRead;
      if !InMemory(m[o]) && canRead {
        assert DataAt(m, o);
        DataChangeKeeps(m, owner, o, m[o].(inRam := true));
        m := m[o := m[o].(inRam := true)];
      } else {
        assert m[o := m[o].(inRam := m[o].inRam)] == m;
      }
    }

    /** An object that is taken from the list and destroyed without a look at its
        users. This is safe just if there are none, and nobody names the object. */
    method DestroyUnguarded(o: Id)
      requires Valid() && o in m && m[o].onDisc && !m[o].inRam
      modifies this`m
      ensures m == old(m) - {o}
      ensures Valid() <==> !InUse(old(m), o)
      ensures old(m)[o].size > 0 ==> Valid()
    {
      DestroyIsSafeIff(m, owner, o);
      if m[o].size > 0 { DiscAloneIsSafe(m, owner, o); }
      m := m - {o};
    }

    /** Start a fetch for a new object, which may fail. */
    method StartFetch(url: string, cached: bool, candidate: Option<Id>, a: Answers) returns (r: Option<Id>)
      requires IdsOk() && (candidate.Some? ==> candidate.value in m && Usable(m[candidate.value]))
      modifies this`m, this`nextId
      ensures IdsOk() && (old(Valid()) ==> Valid())
      ensures (r.Some? <==> a.starts) && (r.None? ==> m == old(m)) && (r.Some? ==> r.value == old(nextId))
      ensures r.Some? ==> IsFetched(old(m), m, r.value, candidate, cached, a.time) && Usable(m[r.value]) && m[r.value].url == url
      ensures r.Some? ==> m[r.value].users == {}
      ensures r.Some? && candidate.None? ==> m == old(m)[r.value := m[r.value]]
      ensures Kept(old(m), m, None)
    {
      if !a.starts { return None; }
      var o := AddNew(NewObj(url, cached, a.time, candidate));
      r := Some(o);
    }

    /** The data of an object is lost, so a new one is fetched. */
    method FetchAfterLoss(url: string, lost: Id, a: Answers) returns (r: Option<Id>)
      requires Valid() && lost in m && m[lost].onDisc && !m[lost].inRam
      modifies this`m, this`nextId
      ensures IdsOk() && lost !in m && if InUse(old(m), lost) then Dangling(m, owner, lost) else Valid()
      ensures r.Some? <==> a.starts
      ensures r.Some? ==> IsFetched(old(m), m, r.value, None, true, a.time) && Usable(m[r.value]) && m[r.value].url == url
      ensures r.Some? ==> m[r.value].users == {}
      ensures Kept(old(m), m, Some(lost))
    {
      hide CandidatesOk, UsersOk, AllDataOk;
      ghost var before := m;
      assert lost < nextId;
      DestroyUnguarded(lost);
      r := StartFetch(url, true, None, a);
      if InUse(before, lost) { DestroyedIsMissed(before, owner, lost, m); }
    }

    /** A matching object is used as it is, or as a candidate for a new one, unless
        its data is lost. */
    method Reuse(url: string, n: Id, a: Answers) returns (r: Option<Id>, ghost lost: Option<Id>)
      requires Valid() && n in m && m[n].url == url
      modifies this`m, this`nextId
      ensures IdsOk() && if lost.Some? && InUse(old(m), n) then Dangling(m, owner, n) else Valid()
      ensures lost == if InMemory(old(m)[n]) || a.canRead then None else Some(n)
      ensures lost.Some? ==> n !in m
      ensures r.Some? <==> a.starts || (a.isFresh && lost.None?)
      ensures r.Some? ==> r.value in m && Usable(m[r.value]) && m[r.value].url == url
      ensures r.Some? ==> if a.isFresh && lost.None? then r.value == n
                          else IsFetched(old(m), m, r.value, if lost.None? then Some(n) else None, true, a.time)
      ensures r.Some? && r.value !in old(m) ==> m[r.value].users == {}
      ensures Kept(old(m), m, lost)
    {
      hide CandidatesOk, UsersOk, AllDataOk, Namers, Dangling;
      lost := None;
      var ok := RetrievePersisted(n, a.canRead);
      ghost var mid := m;
      if !ok {
        lost := Some(n);
        r := FetchAfterLoss(url, n, a);
      } else if a.isFresh {
        r := Some(n);
      } else {
        r := StartFetch(url, true, Some(n), a);
        KeptTwice(old(m), mid, m, None);
      }
    }

    /** llcache_object_fetch_persistent. The new object has its data on disc. */
    method LoadMetadata(url: string, a: Answers) returns (r: Option<Id>)
      requires Valid()
      modifies this`m, this`nextId
      ensures Valid() && (r.Some? <==> a.stored.Some?) && (r.None? ==> m == old(m))
      ensures r.Some? ==> r.value !in old(m) && r.value in m && m == old(m)[r.value := m[r.value]]
      ensures r.Some? ==> !InUse(m, r.value) && m[r.value].url == url && !InMemory(m[r.value]) && m[r.value].users == {}
      ensures IsAsStored(old(m), m, url, r, a.stored) && (r.Some? ==> !m[r.value].fetching)
    {
      if a.stored.None? { return None; }
      NoNamers(m, nextId);
      var o := AddNew(Obj(url, true, {}, false, true, false, a.stored.value.size, a.stored.value.reqTime, None, 0));
      assert Namers(m, o) == Namers(old(m), o);
      r := Some(o);
    }

    /** llcache_object_retrieve_from_cache. `lost` is an object that was destroyed
        because its data could not be read back from disc. */
    method RetrieveFromCache(url: string, a: Answers)
      returns (r: Option<Id>, ghost lost: Option<Id>, ghost newest: Option<Id>)
      requires Valid()
      modifies this`m, this`nextId
      ensures IdsOk() && if lost.Some? && InUse(old(m), lost.value) then Dangling(m, owner, lost.value) else Valid()
      ensures Retrieved(old(m), m, url, true, a, newest, r, lost) && Kept(old(m), m, lost)
      ensures r.Some? && r.value !in old(m) ==> m[r.value].users == {}
    {
      lost := None;
      var found := FindNewest(url);
      newest := found;
      if found.None? {
        found := LoadMetadata(url, a);
      }
      if found.Some? {
        r, lost := Reuse(url, found.value, a);
      } else {
        r := StartFetch(url, true, None, a);
      }
    }

    /** llcache_object_retrieve, for an object that may be cached or not. */
    method Retrieve(url: string, cachable: bool, a: Answers)
      returns (r: Option<Id>, ghost lost: Option<Id>, ghost newest: Option<Id>)
      requires Valid()
      modifies this`m, this`nextId
      ensures IdsOk() && if lost.Some? && InUse(old(m), lost.value) then Dangling(m, owner, lost.value) else Valid()
      ensures Retrieved(old(m), m, url, cachable, a, newest, r, lost) && Kept(old(m), m, lost)
      ensures r.Some? && r.value !in old(m) ==> m[r.value].users == {}
    {
      lost, newest := None, None;
      if cachable {
        r, lost, newest := RetrieveFromCache(url, a);
      } else {
        r := StartFetch(url, false, None, a);
      }
    }

    /** llcache_handle_retrieve. The handle becomes a user of the object retrieved. Nothing
        is retrieved if no fetcher can fetch the URL, even if it is in the cache. */
    method HandleRetrieve(url: string, cachable: bool, h: Client, canFetch: bool, a: Answers)
      returns (r: Option<Id>, ghost lost: Option<Id>, ghost newest: Option<Id>)
      requires Valid() && h !in owner
      modifies this
      ensures Valid() <==> !(lost.Some? && InUse(old(m), lost.value))
      ensures owner == if r.Some? then old(owner)[h := r.value] else old(owner)
      ensures if canFetch then Retrieved(old(m), m, url, cachable, a, newest, r, lost)
              else r.None? && lost.None? && m == old(m)
      ensures r.Some? ==> m[r.value].users == (if r.value in old(m) then old(m)[r.value].users else {}) + {h}
      ensures forall o :: o in old(m) && r != Some(o) && lost != Some(o) ==> KeptAt(old(m), m, o)
    {
      hide CandidatesOk, UsersOk, AllDataOk, Namers, Dangling;
      r, lost, newest := None, None, None;
      if !canFetch { return; }
      r, lost, newest := Retrieve(url, cachable, a);
      if r.Some? {
        var o := r.value;
        if lost.Some? && InUse(old(m), lost.value) {
          AddUserMendsNothing(m, owner, o, h, lost.value);
        } else {
          AddUserKeeps(m, owner, o, h);
        }
        m := WithUsers(m, o, m[o].users + {h});
        owner := owner[h := o];
      }
      if lost.Some? && InUse(old(m), lost.value) { DanglingIsBad(m, owner, lost.value); }
    }

    // -------------------------------------------------------------------
    // Events
    // -------------------------------------------------------------------

    method GiveUp(o: Id)
      requires Valid() && o in m
      modifies this`m
      ensures Valid() && m == WithoutCandidate(old(m), o) && CandidateOk(old(m), o)
      ensures o in m && m[o] == old(m)[o].(candidate := None) && Kept(old(m), m, None)
      ensures OneLess(old(m), m, o)
    {
      hide CandidatesOk, UsersOk, AllDataOk, WithoutCandidate, Kept, OneLess;
      GiveUpKeeps(m, owner, o);
      m := WithoutCandidate(m, o);
    }

    /** The first data, an error, a timeout: the candidate will not be needed. */
    method FetchData(o: Id, len: nat)
      requires Valid() && o in m && m[o].fetching
      modifies this`m
      ensures Valid() && o in m
      ensures m[o] == old(m)[o].(candidate := None, size := old(m)[o].size + len, inRam := true)
      ensures CandidateOk(old(m), o) && m == WithoutCandidate(old(m), o)[o := m[o]] && OneLess(old(m), m, o)
    {
      GiveUp(o);
      var x := m[o].(size := m[o].size + len, inRam := true);
      assert DataAt(m, o);
      DataChangeKeeps(m, owner, o, x);
      m := m[o := x];
    }

    /** The end of a fetch. */
    method FetchFinished(o: Id, failed: bool)
      requires Valid() && o in m
      modifies this`m
      ensures Valid() && o in m && !m[o].fetching
      ensures failed ==> CandidateOk(old(m), o) && m == Stopped(old(m), o)
      ensures !failed ==> m == old(m)[o := old(m)[o].(fetching := false)]
    {
      if failed {
        GiveUp(o);
      }
      FetchOver(m, owner, o);
      m := m[o := m[o].(fetching := false)];
    }

    /** The fetch of `o` has come to nothing. */
    method StopFetch(o: Id)
      requires Valid() && o in m
      modifies this`m
      ensures Valid() && CandidateOk(old(m), o) && m == Stopped(old(m), o)
      ensures Kept(old(m), m, None) && forall p :: p in m ==> p in old(m)
      ensures o in m && m[o] == old(m)[o].(candidate := None, fetching := false)
      ensures OneLess(old(m), m, o)
    {
      hide CandidatesOk, UsersOk, AllDataOk, WithoutCandidate, Kept, OneLess;
      StopKeeps(m, owner, o);
      m := Stopped(m, o);
    }

    /** llcache_fetch_notmodified: the users move to the candidate. */
    method NotModified(o: Id)
      requires Valid() && o in m
      modifies this`m, this`owner
      ensures Valid() && o in m && m[o].candidate.None? && !m[o].fetching
      ensures old(m)[o].candidate.Some? ==>
                var c := old(m)[o].candidate.value;
                && c in m && c in old(m) && m[c].users == old(m)[c].users + old(m)[o].users && m[o].users == {}
                && owner == Moved(old(owner), o, c)
      ensures old(m)[o].candidate.None? ==> m[o].users == old(m)[o].users && owner == old(owner)
    {
      assert CandidateOk(m, o);
      hide CandidatesOk, UsersOk, AllDataOk, Moved;
      if m[o].candidate.Some? {
        var c := m[o].candidate.value;
        NamedIsUsable(m, o, owner);
        MoveUsers(o, c);
      }
      ghost var before := m;
      StopFetch(o);
      assert forall p :: p in before ==> KeptAt(before, m, p);
    }

    method MoveUsers(o: Id, d: Id)
      requires IdsOk() && o in m && d in m && Usable(m[d])
      modifies this`m, this`owner
      ensures m == MoveAll(old(m), o, d) && owner == Moved(old(owner), o, d)
      ensures old(Valid()) ==> Valid()
    {
      if Valid() { MoveAllKeeps(m, owner, o, d); }
      m, owner := MoveAll(m, o, d), Moved(owner, o, d);
    }

    /** The users of `o` move to the object for another URL. They stay where they are if
        no object is given, or if `o` itself was destroyed. */
    method Follow(o: Id, url: string, cachable: bool, a: Answers)
      returns (dest: Option<Id>, ghost lost: Option<Id>, ghost newest: Option<Id>)
      requires Valid() && o in m
      modifies this
      ensures Valid() <==> !(lost.Some? && InUse(old(m), lost.value))
      ensures Retrieved(old(m), m, url, cachable, a, newest, dest, lost)
      ensures AreMoved(old(m), m, old(owner), owner, o, dest, lost)
    {
      hide TableOk, IdsOk, Retrieved, Dangling, InUse, Kept, AreMoved, MoveAll, Moved;
      dest, lost, newest := Retrieve(url, cachable, a);
      ghost var missed := lost.Some? && InUse(old(m), lost.value);
      if lost.Some? { LostIsOnDisc(old(m), m, url, cachable, a, newest, dest, lost); }
      if dest.Some? {
        GivenIsUsable(old(m), m, url, cachable, a, newest, dest, lost);
      }
      UsersAreMoved(old(m), m, owner, o, dest, lost);
      if dest.Some? && o in m {
        if missed { MoveMendsNothing(m, owner, o, dest.value, lost.value); }
        RetrievedAndMoved(old(m), m, url, cachable, a, newest, dest, lost, o, dest.value);
        MoveUsers(o, dest.value);
      }
      if missed { DanglingIsBad(m, owner, lost.value); }
    }

    /** llcache_fetch_redirect: if the redirect is followed, the users move to the object
        for the new URL. All is in order afterwards just if no object was destroyed that
        is in use by more than the candidate given up here. */
    method Redirect(o: Id, url: string, cachable: bool, follow: bool, a: Answers)
      returns (dest: Option<Id>, ghost lost: Option<Id>, ghost newest: Option<Id>)
      requires Valid() && o in m
      modifies this
      ensures CandidateOk(old(m), o)
      ensures Valid() <==> !(lost.Some? && InUse(Stopped(old(m), o), lost.value))
      ensures lost.Some? && InUse(Stopped(old(m), o), lost.value) ==> Stopped(old(m), o)[lost.value].size == 0
      ensures !follow ==> dest.None? && lost.None? && m == Stopped(old(m), o) && owner == old(owner)
      ensures follow ==> Retrieved(Stopped(old(m), o), m, url, cachable, a, newest, dest, lost)
                         && AreMoved(Stopped(old(m), o), m, old(owner), owner, o, dest, lost)
    {
      hide CandidatesOk, UsersOk, AllDataOk, Retrieved, AreMoved, WithoutCandidate;
      dest, lost, newest := None, None, None;
      StopFetch(o);
      if follow {
        ghost var before := m;
        assert o in before;
        dest, lost, newest := Follow(o, url, cachable, a);
        if lost.Some? && InUse(before, lost.value) {
          LostIsOnDisc(before, m, url, cachable, a, newest, dest, lost);
          UnneededUnlessEmpty(before, old(owner), lost.value);
        }
      }
    }

    // -------------------------------------------------------------------
    // Releases and aborts
    // -------------------------------------------------------------------

    /** llcache_handle_release */
    method HandleRelease(h: Client)
      requires Valid() && h in owner
      modifies this`m, this`owner
      ensures Valid() && owner == old(owner) - {h}
      ensures old(owner)[h] in old(m)
      ensures m == WithUsers(old(m), old(owner)[h], old(m)[old(owner)[h]].users - {h})
    {
      RemoveUserKeeps(m, owner, h);
      m, owner := WithUsers(m, owner[h], m[owner[h]].users - {h}), owner - {h};
    }

    /** llcache_handle_abort. If there are other users, the handle gets a copy of the
        object, whose data is in memory. */
    method HandleAbort(h: Client)
      requires Valid() && h in owner
      modifies this
      ensures Valid() && h in owner && owner == old(owner)[h := owner[h]]
      ensures owner[h] in m && !m[owner[h]].fetching && m[owner[h]].size == old(m)[old(owner)[h]].size
      ensures old(m)[old(owner)[h]].users == {h} <==> owner[h] == old(owner)[h]
      ensures owner[h] == old(owner)[h] || (owner[h] !in old(m) && m[owner[h]].users == {h})
      ensures IsAborted(old(m), m, old(owner)[h], owner[h], h)
    {
      hide IsAborted, CandidatesOk, UsersOk, AllDataOk;
      OwnerExists(m, owner, h);
      AbortedIs(m, owner[h], h);
      var o := owner[h];
      if m[o].users == {h} {
        FetchOver(m, owner, o);
        m := m[o := m[o].(fetching := false)];
        return;
      }
      var n := Snapshot(o);
      ghost var mid := m;
      Reassign(h, n);
      LeftIs(old(m), mid, m, o, n, h);
    }

    /** llcache_object_snapshot. What is copied is in memory, since there are users. */
    method Snapshot(o: Id) returns (n: Id)
      requires Valid() && o in m && m[o].users != {}
      modifies this`m, this`nextId
      ensures Valid() && n !in old(m) && n in m && m == old(m)[n := m[n]]
      ensures m[n].url == m[o].url && m[n].size == m[o].size && (m[n].size > 0 ==> m[n].inRam) && Usable(m[n])
      ensures m[n].users == {} && !m[n].fetching && !m[n].cached && !m[n].onDisc && m[n].candidate.None? && m[n].candidates == 0
    {
      assert DataAt(m, o) && (m[o].size > 0 ==> m[o].inRam);
      n := AddNew(Obj(m[o].url, false, {}, false, false, m[o].size > 0, m[o].size, 0, None, 0));
    }

    /** A handle moves to another object. */
    method Reassign(h: Client, n: Id)
      requires Valid() && h in owner && n in m && Usable(m[n]) && owner[h] != n && m[n].users == {}
      modifies this`m, this`owner
      ensures Valid() && owner == old(owner)[h := n] && n in m && m[n] == old(m)[n].(users := {h})
      ensures old(owner)[h] in old(m)
      ensures m == WithUsers(old(m), old(owner)[h], old(m)[old(owner)[h]].users - {h})[n := m[n]]
    {
      hide CandidatesOk, UsersOk, AllDataOk;
      HandleRelease(h);
      AddTo(n, h);
      assert owner == old(owner)[h := n];
    }

    /** llcache_object_add_user */
    method AddTo(o: Id, h: Client)
      requires Valid() && o in m && h !in owner && Usable(m[o])
      modifies this`m, this`owner
      ensures Valid() && owner == old(owner)[h := o]
      ensures m == WithUsers(old(m), o, old(m)[o].users + {h})
    {
      AddUserKeeps(m, owner, o, h);
      m, owner := WithUsers(m, o, m[o].users + {h}), owner[h := o];
    }
  }

  /** The users of `o` have moved to `dest`, unless that was not given, or `o` is `lost`. */
  ghost predicate AreMoved(was: Table, now: Table, before: map<Client, Id>, owner: map<Client, Id>,
                           o: Id, dest: Option<Id>, lost: Option<Id>)
    requires o in was
  {
    if dest.None? || lost == Some(o) then owner == before
    else
      && dest.value in now && o in now && owner == Moved(before, o, dest.value)
      && (dest.value != o ==> now[o].users == {})
      && now[dest.value].users == (if dest.value in was then was[dest.value].users else {}) + was[o].users
  }

  lemma UsersAreMoved(was: Table, now: Table, owner: map<Client, Id>, o: Id, dest: Option<Id>, lost: Option<Id>)
    requires Kept(was, now, lost) && o in was && (lost.Some? ==> lost.value !in now)
    requires dest.Some? ==> dest.value in now && (dest.value !in was ==> now[dest.value].users == {})
    ensures o in now <==> lost != Some(o)
    ensures dest.Some? && o in now ==>
              AreMoved(was, MoveAll(now, o, dest.value), owner, Moved(owner, o, dest.value), o, dest, lost)
    ensures dest.None? || o !in now ==> AreMoved(was, now, owner, owner, o, dest, lost)
  {
    assert lost != Some(o) ==> KeptAt(was, now, o);
    if dest.Some? && dest.value in was {
      assert KeptAt(was, now, dest.value);
    }
  }

  /** Is the object needed by anyone? */
  predicate InUse(m: Table, o: Id) {
    o in m && (m[o].users != {} || Namers(m, o) != {})
  }

  /** An object that may be destroyed although it is needed has an empty body. */
  lemma UnneededUnlessEmpty(m: Table, owner: map<Client, Id>, o: Id)
    requires TableOk(m, owner) && o in m && m[o].onDisc && !m[o].inRam && InUse(m, o)
    ensures m[o].size == 0
  {
    assert DataAt(m, o) && CountOk(m, o);
    assert m[o].users == {} ==> Namers(m, o) != {};
  }

  /** Some handle or some object refers to `d`, which does not exist. */
  predicate Dangling(m: Table, owner: map<Client, Id>, d: Id) {
    d !in m && ((exists h :: h in owner && owner[h] == d) || (exists p :: p in m && m[p].candidate == Some(d)))
  }

  lemma DanglingIsBad(m: Table, owner: map<Client, Id>, d: Id)
    requires Dangling(m, owner, d)
    ensures !TableOk(m, owner)
  {
    if h :| h in owner && owner[h] == d {
      assert !OwnerAt(m, owner, h);
    } else {
      var p :| p in m && m[p].candidate == Some(d);
      assert !CandidateOk(m, p);
    }
  }

  /** An object in use is missed, whatever is added. */
  lemma DestroyedIsMissed(m: Table, owner: map<Client, Id>, d: Id, now: Table)
    requires TableOk(m, owner) && InUse(m, d) && d !in now
    requires forall p :: p in m && p != d ==> p in now && now[p].candidate == m[p].candidate
    ensures Dangling(now, owner, d)
  {
    if m[d].users != {} {
      var h :| h in m[d].users;
      assert UsersAt(m, owner, d);
    } else {
      var p :| p in Namers(m, d);
      assert CandidateOk(m, p) && p in now;
    }
  }

  /** Nothing but a new object for `d` would mend this. */
  lemma MoveMendsNothing(m: Table, owner: map<Client, Id>, o: Id, e: Id, d: Id)
    requires Dangling(m, owner, d) && o in m && e in m
    ensures Dangling(MoveAll(m, o, e), Moved(owner, o, e), d)
  {
    var n, now := MoveAll(m, o, e), Moved(owner, o, e);
    if h :| h in owner && owner[h] == d {
      assert now[h] == d;
    } else {
      var p :| p in m && m[p].candidate == Some(d);
      assert n[p].candidate == Some(d);
    }
  }

  lemma AddUserMendsNothing(m: Table, owner: map<Client, Id>, o: Id, h: Client, d: Id)
    requires Dangling(m, owner, d) && o in m && h !in owner
    ensures Dangling(WithUsers(m, o, m[o].users + {h}), owner[h := o], d)
  {
    var n, now := WithUsers(m, o, m[o].users + {h}), owner[h := o];
    if g :| g in owner && owner[g] == d {
      assert now[g] == d;
    } else {
      var p :| p in m && m[p].candidate == Some(d);
      assert n[p].candidate == Some(d);
    }
  }

  /** A candidate has its data where its users can get at it. */
  lemma NamedIsUsable(m: Table, o: Id, owner: map<Client, Id>)
    requires TableOk(m, owner) && o in m && m[o].candidate.Some?
    ensures CandidateOk(m, o) && Usable(m[m[o].candidate.value])
  {
    assert CandidateOk(m, o);
    var c := m[o].candidate.value;
    assert DataAt(m, c) && CountOk(m, c) && o in Namers(m, c);
  }
}
