/** How the low-level cache brings its clients up to date with a fetch
    (content/llcache.c). A client may refuse an event to be sent it again later, it
    may release its handle or abort the fetch while it is called. */
module Delivery {

  datatype FetchState = Init | Headers | Data | Complete

  function Rank(s: FetchState): nat {
    match s
    case Init => 0
    case Headers => 1
    case Data => 2
    case Complete => 3
  }

  datatype Event = GotCerts | HadHeaders | HadData(text: string) | Done

  /** All data in a list of events. */
  function Text(log: seq<Event>): string {
    if log == [] then ""
    else
      var e := log[|log| - 1];
      Text(log[..|log| - 1]) + (if e.HadData? then e.text else "")
  }

  lemma TextAppend(log: seq<Event>, e: Event)
    ensures Text(log + [e]) == Text(log) + (if e.HadData? then e.text else "")
  {
    assert (log + [e])[..|log|] == log;
  }

  /** HAD_HEADERS, and any number of HAD_DATA. */
  predicate IsOpen(log: seq<Event>) {
    log != [] && log[0] == HadHeaders && forall i :: 0 < i < |log| ==> log[i].HadData?
  }

  /** The events that a handle in this state has accepted. */
  predicate IsLog(log: seq<Event>, state: FetchState) {
    match state
    case Init => log == []
    case Headers => log == []
    case Data => IsOpen(log)
    case Complete => log != [] && log[|log| - 1] == Done && IsOpen(log[..|log| - 1])
  }

  /** HAD_HEADERS HAD_DATA* DONE. Certificates are not among these events. */
  predicate IsWhole(log: seq<Event>) {
    IsLog(log, Complete)
  }

  /** Whatever the state, the events are the first ones of a whole list. */
  lemma LogIsPrefix(log: seq<Event>, state: FetchState)
    requires IsLog(log, state)
    ensures exists rest :: IsWhole(log + rest)
  {
    var rest := if state.Complete? then [] else if state.Data? then [Done] else [HadHeaders, Done];
    var all := log + rest;
    assert all[..|all| - 1] == if state.Complete? then log[..|log| - 1] else if state.Data? then log else [HadHeaders];
    assert IsWhole(log + rest);
  }

  datatype Reply = Ok | NeedData | Failed

  datatype Deed = Nothing | Release | Abort

  /** What a client does when it is called. */
  datatype Answer = Answer(reply: Reply, deed: Deed)

  /** llcache_handle. What its client answers to the `k`th call is `client(k)`; `seen` are
      all events that it was called with, `log` those of them that it accepted, but for
      certificates. `lost` is set when data was refused that is not sent again. */
  class Handle {
    const client: nat -> Answer
    var state: FetchState
    var bytes: nat
    var calls: nat
    ghost var seen: seq<Event>
    ghost var log: seq<Event>
    ghost var lost: bool

    constructor (client: nat -> Answer)
      ensures this.client == client && state == Init && bytes == 0 && calls == 0 && seen == [] && log == [] && !lost
    {
      this.client, state, bytes, calls, seen, log, lost := client, Init, 0, 0, [], [], false;
    }

    ghost function View(): HandleView
      reads this
    {
      HandleView(state, bytes, calls)
    }
  }

  datatype HandleView = HandleView(state: FetchState, bytes: nat, calls: nat)

  /** The part of llcache_object that has to do with its users. `received` is all
      data that came for it. */
  class Object {
    var state: FetchState
    var data: string
    var streaming: bool
    var certs: bool
    var users: seq<Handle>
    ghost var received: string

    constructor (state: FetchState, data: string, certs: bool, users: seq<Handle>, ghost received: string)
      ensures this.state == state && this.data == data && this.users == users && !streaming
      ensures this.certs == certs && this.received == received
    {
      this.state, this.data, this.users, this.received := state, data, users, received;
      streaming, this.certs := false, certs;
    }
  }

  /** A handle in this state has accepted its share of what the object has received,
      and what is left of it is behind `bytes`. */
  ghost predicate HandleAt(state: FetchState, bytes: nat, log: seq<Event>, lost: bool, o: Object)
    reads o`state, o`data, o`streaming, o`received
  {
    && IsLog(log, state) && bytes <= |o.data|
    && (Rank(state) >= 2 ==> Rank(state) <= Rank(o.state))
    && (Rank(state) < 2 ==> bytes == 0 && !lost)
    && (state.Complete? ==> bytes == |o.data|)
    && (lost ==> o.streaming)
    && (!lost ==> Text(log) + o.data[bytes..] == o.received)
  }

  ghost predicate HandleOk(h: Handle, o: Object)
    reads h, o`state, o`data, o`streaming, o`received
  {
    HandleAt(h.state, h.bytes, h.log, h.lost, o)
  }

  /** All is well, except perhaps for the handle `x`. */
  ghost predicate ObjectOkBut(o: Object, x: Handle?)
    reads o, o.users
  {
    && (forall i :: 0 <= i < |o.users| && o.users[i] != x ==> HandleOk(o.users[i], o))
    && NoRepeat(o.users)
    && (!o.streaming ==> o.received == o.data)
    && (o.streaming ==> |o.users| <= 1)
  }

  predicate NoRepeat(users: seq<Handle>) {
    forall i, j :: 0 <= i < j < |users| ==> users[i] != users[j]
  }

  ghost predicate ObjectOk(o: Object)
    reads o, o.users
  {
    ObjectOkBut(o, null)
  }

  /** `n` and `o` have no users in common. */
  ghost predicate Apart(n: Object, o: Object)
    reads n, o
  {
    n != o && forall i :: 0 <= i < |n.users| ==> n.users[i] !in o.users
  }

  /** What a client has accepted of an object that is not streamed: the data up to
      `bytes`. It has seen DONE only after all of it. */
  lemma AcceptedIsPrefix(h: Handle, o: Object)
    requires ObjectOk(o) && h in o.users && !o.streaming
    ensures Text(h.log) == o.data[..h.bytes]
    ensures h.state.Complete? ==> Text(h.log) == o.data && o.state.Complete?
  {
    assert HandleOk(h, o);
    assert o.data == o.data[..h.bytes] + o.data[h.bytes..];
  }

  // ---------------------------------------------------------------------
  // Events of the fetch
  // ---------------------------------------------------------------------

  /** FETCH_HEADER, which comes before all data. */
  method FetchHeader(o: Object)
    requires ObjectOk(o) && Rank(o.state) < 2
    modifies o`state
    ensures ObjectOk(o) && o.state == Headers
  {
    o.state := Headers;
  }

  /** llcache_fetch_process_data */
  method FetchData(o: Object, text: string)
    requires ObjectOk(o) && !o.state.Complete?
    modifies o`state, o`data, o`received
    ensures ObjectOk(o) && o.state == Data && o.received == old(o.received) + text
  {
    ghost var data, received := o.data, o.received;
    o.state := Data;
    o.data := o.data + text;
    o.received := o.received + text;
    forall i | 0 <= i < |o.users| ensures HandleOk(o.users[i], o) {
      var h := o.users[i];
      assert old(HandleOk(h, o));
      assert Text(h.log) + (data[h.bytes..] + text) == (Text(h.log) + data[h.bytes..]) + text;
      assert o.data[h.bytes..] == data[h.bytes..] + text;
    }
  }

  /** FETCH_FINISHED, or the end by an error or an abort. */
  method FetchFinished(o: Object)
    requires ObjectOk(o)
    modifies o`state
    ensures ObjectOk(o) && o.state == Complete
  {
    o.state := Complete;
  }

  /** A user that has been shown nothing that is counted. */
  ghost predicate IsEarly(h: Handle)
    reads h
  {
    Rank(h.state) < 2 && h.bytes == 0 && h.log == [] && !h.lost
  }

  /** Early users can join an object unless it is streamed; then one can join it, while
      it has no other user and has kept all data. */
  predicate CanJoin(joining: nat, present: nat, streaming: bool, whole: bool) {
    joining == 0 || !streaming || (joining == 1 && present == 0 && whole)
  }

  /** `front` are early users that have joined those that the object had. */
  ghost predicate Joined(o: Object, front: seq<Handle>, back: seq<Handle>)
    reads o, front, back
  {
    && o.users == front + back && NoRepeat(front) && NoRepeat(back) && (forall i :: 0 <= i < |front| ==> front[i] !in back)
    && (forall i :: 0 <= i < |front| ==> IsEarly(front[i])) && (forall i :: 0 <= i < |back| ==> HandleOk(back[i], o))
    && (!o.streaming ==> o.received == o.data) && (o.streaming ==> |back| <= 1)
  }

  /** An object stays in order just if the users could join it. */
  lemma JoinedIsOkIff(o: Object, front: seq<Handle>, back: seq<Handle>)
    requires Joined(o, front, back)
    ensures ObjectOk(o) <==> CanJoin(|front|, |back|, o.streaming, o.received == o.data)
  {
    forall i | 0 <= i < |front| ensures HandleOk(front[i], o) <==> o.received == o.data {
      EarlyFitsIff(front[i], o);
    }
    if front != [] {
      assert o.users[0] == front[0];
    }
    forall i | 0 <= i < |o.users| ensures o.users[i] == if i < |front| then front[i] else back[i - |front|] {
    }
  }

  lemma EarlyFitsIff(h: Handle, o: Object)
    requires IsEarly(h)
    ensures HandleOk(h, o) <==> o.received == o.data
  {
    assert o.data[0..] == o.data;
  }

  lemma NoneJoined(o: Object)
    requires ObjectOk(o)
    ensures Joined(o, [], o.users)
  {
  }

  /** llcache_object_add_user, for a user that is new, or comes from another object. */
  method TakeUser(o: Object, h: Handle, ghost front: seq<Handle>, ghost back: seq<Handle>)
    requires Joined(o, front, back) && IsEarly(h) && h !in o.users
    modifies o`users
    ensures o.users == [h] + old(o.users) && Joined(o, [h] + front, back)
  {
    o.users := [h] + o.users;
    assert [h] + (front + back) == ([h] + front) + back;
  }

  /** A new user (in llcache_handle_retrieve). */
  method AddUser(o: Object, client: nat -> Answer) returns (h: Handle)
    requires ObjectOk(o)
    modifies o`users
    ensures fresh(h) && h.client == client && h.state == Init && o.users == [h] + old(o.users)
    ensures ObjectOk(o) <==> CanJoin(1, |old(o.users)|, o.streaming, o.received == o.data)
  {
    ghost var back := o.users;
    h := new Handle(client);
    NoneJoined(o);
    TakeUser(o, h, [], back);
    JoinedIsOkIff(o, [h] + [], back);
  }

  /** llcache_handle_clone. The clone is in the state of the handle, but has been shown
      nothing: it gets the right events only if that handle has not either, and not all
      of them if the object is streamed. */
  method CloneHandle(o: Object, i: nat, client: nat -> Answer) returns (c: Handle)
    requires ObjectOk(o) && i < |o.users|
    modifies o`users
    ensures fresh(c) && o.users == [c] + old(o.users) && c.state == old(o.users)[i].state
    ensures ObjectOk(o) <==> Rank(c.state) < 2 && !o.streaming
  {
    var h := o.users[i];
    assert HandleOk(h, o);
    c := new Handle(client);
    c.state := h.state;
    o.users := [c] + o.users;
    forall j | 0 < j < |o.users| ensures HandleOk(o.users[j], o) {
      assert o.users[j] == old(o.users)[j - 1];
    }
    assert o.users[0] == c;
  }

  /** No user has been shown headers. */
  ghost predicate AllEarly(o: Object)
    reads o, o.users
  {
    forall i :: 0 <= i < |o.users| ==> Rank(o.users[i].state) < 2
  }

  /** The users of `o` move to `dest`, because of a redirect, or because `dest` is
      still fresh. That is before there is any data. */
  method MoveUsers(o: Object, dest: Object)
    requires ObjectOk(o) && ObjectOk(dest) && Apart(o, dest) && AllEarly(o)
    modifies o`users, dest`users
    ensures ObjectOk(o) && o.users == []
    ensures multiset(dest.users) == multiset(old(o.users)) + multiset(old(dest.users))
    ensures ObjectOk(dest) <==> CanJoin(|old(o.users)|, |old(dest.users)|, dest.streaming, dest.received == dest.data)
  {
    ghost var all, size, front, back := multiset(o.users) + multiset(dest.users), |o.users|, [], dest.users;
    NoneJoined(dest);
    while o.users != []
      invariant ObjectOk(o) && Joined(dest, front, back) && Apart(o, dest) && AllEarly(o)
      invariant multiset(o.users) + multiset(dest.users) == all && |front| + |o.users| == size
      decreases |o.users|
    {
      front := MoveFirst(o, dest, front, back);
    }
    assert multiset(o.users) == multiset{};
    JoinedIsOkIff(dest, front, back);
  }

  method MoveFirst(o: Object, dest: Object, ghost front: seq<Handle>, ghost back: seq<Handle>) returns (ghost front': seq<Handle>)
    requires ObjectOk(o) && Joined(dest, front, back) && Apart(o, dest) && AllEarly(o) && o.users != []
    modifies o`users, dest`users
    ensures ObjectOk(o) && Joined(dest, front', back) && Apart(o, dest) && AllEarly(o)
    ensures o.users == old(o.users)[1..] && front' == [old(o.users)[0]] + front
    ensures multiset(o.users) + multiset(dest.users) == multiset(old(o.users)) + multiset(old(dest.users))
  {
    FirstIsEarly(o, dest);
    hide ObjectOkBut, Apart, AllEarly, Joined;
    var h := o.users[0];
    ghost var a, b := o.users, dest.users;
    RemoveUser(o, 0);
    assert Joined(dest, front, back);
    TakeUser(dest, h, front, back);
    front' := [h] + front;
    MovedMultiset(a, b);
    EarlyRest(o, a);
    StillApart(o, dest, a, b);
  }

  lemma FirstIsEarly(o: Object, dest: Object)
    requires ObjectOk(o) && Apart(o, dest) && AllEarly(o) && o.users != []
    ensures var h := o.users[0];
            && HandleOk(h, o) && ObjectOkBut(o, h) && h !in dest.users && o != dest
            && IsEarly(h) && Without(o.users, 0) == o.users[1..]
    ensures NoRepeat(o.users) && (forall i :: 0 <= i < |o.users| ==> Rank(o.users[i].state) < 2 && o.users[i] !in dest.users)
  {
  }

  lemma StillApart(o: Object, dest: Object, a: seq<Handle>, b: seq<Handle>)
    requires o != dest && a != [] && NoRepeat(a) && (forall i :: 0 <= i < |a| ==> a[i] !in b)
    requires o.users == a[1..] && dest.users == [a[0]] + b
    ensures Apart(o, dest)
  {
  }

  lemma MovedMultiset(a: seq<Handle>, b: seq<Handle>)
    requires a != []
    ensures multiset(a[1..]) + multiset([a[0]] + b) == multiset(a) + multiset(b)
  {
    assert a == [a[0]] + a[1..];
  }

  lemma EarlyRest(o: Object, all: seq<Handle>)
    requires all != [] && o.users == all[1..] && forall i :: 0 <= i < |all| ==> Rank(all[i].state) < 2
    ensures AllEarly(o)
  {
    assert forall i :: 0 <= i < |o.users| ==> o.users[i] == all[i + 1];
  }

  /** Streaming starts only with a single user (llcache_handle_force_stream). */
  method ForceStream(o: Object)
    requires ObjectOk(o)
    modifies o`streaming
    ensures ObjectOk(o) && o.streaming == (old(o.streaming) || |o.users| <= 1)
  {
    if |o.users| > 1 {
      return;
    }
    o.streaming := true;
  }

  // ---------------------------------------------------------------------
  // Releases and aborts
  // ---------------------------------------------------------------------

  /** `users` without the `i`th. */
  function Without(users: seq<Handle>, i: nat): (r: seq<Handle>)
    requires i < |users|
    ensures |r| == |users| - 1
    ensures forall j :: 0 <= j < |r| ==> r[j] == users[if j < i then j else j + 1]
  {
    users[..i] + users[i + 1..]
  }

  /** llcache_object_remove_user */
  method RemoveUser(o: Object, i: nat)
    requires i < |o.users| && ObjectOkBut(o, o.users[i])
    modifies o`users
    ensures ObjectOk(o) && o.users == Without(old(o.users), i) && old(o.users)[i] !in o.users
  {
    o.users := Without(o.users, i);
  }

  /** `n` is a complete copy of `o`, for the handle `h` alone. */
  ghost predicate IsSnapshot(n: Object, o: Object, h: Handle)
    reads n, o
  {
    && n.users == [h] && n.state.Complete? && !n.streaming
    && n.data == o.data && n.certs == o.certs && n.received == o.received
  }

  /** llcache_handle_abort. If there are other users, the handle moves to a snapshot
      of the object; this is left as it is. */
  method AbortHandle(o: Object, i: nat) returns (n: Object?)
    requires i < |o.users| && ObjectOkBut(o, o.users[i])
    modifies o`state, o`users
    ensures ObjectOkBut(o, old(o.users)[i])
    ensures if |old(o.users)| == 1 then n == null && o.users == old(o.users) && o.state == Complete
            else
              && n != null && fresh(n) && IsSnapshot(n, o, old(o.users)[i])
              && o.users == Without(old(o.users), i) && old(o.users)[i] !in o.users && o.state == old(o.state)
  {
    n := null;
    if |o.users| > 1 {
      var h := o.users[i];
      n := new Object(Complete, o.data, o.certs, [h], o.received);
      RemoveUser(o, i);
    } else {
      o.state := Complete;
    }
  }

  /** An abort from outside a callback. The data that came before it is still to be
      delivered. */
  method Abort(o: Object, i: nat) returns (n: Object?)
    requires ObjectOk(o) && i < |o.users|
    modifies o`state, o`users
    ensures ObjectOk(o) && (n != null ==> fresh(n) && ObjectOk(n) && n.users == [old(o.users)[i]])
    ensures n == null ==> o.users == old(o.users) && o.state == Complete
  {
    assert HandleOk(o.users[i], o);
    n := AbortHandle(o, i);
  }

  // ---------------------------------------------------------------------
  // What catching up means for one handle
  // ---------------------------------------------------------------------

  /** How a part of the work on a user ends: it goes `On`, or with the `Next` user,
      perhaps because this one is `Removed`, or it stops with an error. */
  datatype Outcome = On | Next | Removed | Stopped

  function OutcomeOf(a: Answer, gone: bool): Outcome {
    if gone then (if a.reply.Ok? then Removed else Stopped)
    else if a.reply.NeedData? then Next
    else if a.reply.Failed? then Stopped
    else On
  }

  /** What does not change while a user is brought up to date: the state that the object
      had at first, and whether there are other users. */
  datatype Context = Context(objState: FetchState, streaming: bool, certs: bool, alone: bool, client: nat -> Answer)

  /** How far a handle has been brought up to date: its fields, the data of the object,
      the events that its client has been called with and those that it accepted. It is
      `gone` from the object if it was released, or has `moved` to a snapshot because it
      was aborted; the fetch is `ended` if it was alone. An event is `missed` if it was
      refused by a client that aborted its handle. */
  datatype Progress = Progress(v: HandleView, data: string, lost: bool, seen: seq<Event>, accepted: seq<Event>, out: Outcome,
                               gone: bool, moved: bool, ended: bool, missed: bool)

  function Start(v: HandleView, data: string, lost: bool): Progress {
    Progress(v, data, lost, [], [], On, false, false, false, false)
  }

  /** Has the client taken the event? Certificates are not kept a record of. */
  predicate Accepts(a: Answer, e: Event) { !a.reply.NeedData? && !e.GotCerts? }

  /** The client is called with an event. */
  function Called(p: Progress, e: Event, c: Context): Progress {
    var a := c.client(p.v.calls);
    var moved := a.deed.Abort? && !c.alone;
    var gone := a.deed.Release? || moved;
    p.(v := p.v.(calls := p.v.calls + 1), seen := p.seen + [e],
       accepted := if Accepts(a, e) then p.accepted + [e] else p.accepted,
       out := OutcomeOf(a, gone), gone := gone, moved := moved, ended := p.ended || (a.deed.Abort? && c.alone),
       missed := moved && a.reply.NeedData? && !e.GotCerts?)
  }

  /** User: INIT, object: later. If there are certificates, the client is shown them once
      only, even if it refuses them. */
  function AfterCerts(p: Progress, c: Context): Progress {
    if !p.v.state.Init? || c.objState.Init? then p
    else
      var q := p.(v := p.v.(state := Headers));
      if c.certs then Called(q, GotCerts, c) else q
  }

  /** User: HEADERS, object: DATA or COMPLETE. */
  function AfterHeaders(p: Progress, c: Context): Progress {
    if !p.v.state.Headers? || Rank(c.objState) <= 1 then p
    else
      var q := Called(p.(v := p.v.(state := Data)), HadHeaders, c);
      if q.out.Next? then q.(v := q.v.(state := Headers)) else q
  }

  /** User: DATA, object: DATA or COMPLETE, and there is more data. When streaming, the
      object forgets it, and it cannot be shown again. */
  function AfterData(p: Progress, c: Context): Progress {
    if !p.v.state.Data? || Rank(c.objState) < 2 || |p.data| <= p.v.bytes then p
    else
      var taken := if c.streaming then p.(data := "", v := p.v.(bytes := 0)) else p.(v := p.v.(bytes := |p.data|));
      var q := Called(taken, HadData(p.data[p.v.bytes..]), c);
      if !q.out.Next? then q
      else if c.streaming then q.(lost := true)
      else q.(v := q.v.(bytes := p.v.bytes))
  }

  /** User: DATA, object: COMPLETE. */
  function AfterDone(p: Progress, c: Context): Progress {
    if !p.v.state.Data? || Rank(c.objState) <= 2 then p
    else
      var q := Called(p.(v := p.v.(state := Complete)), Done, c);
      if q.out.Next? then q.(v := q.v.(state := Data)) else q
  }

  /** One turn of the loop over the users. */
  function TurnOf(p: Progress, c: Context): Progress {
    var p1 := AfterCerts(p, c);
    if !p1.out.On? then p1 else
      var p2 := AfterHeaders(p1, c);
      if !p2.out.On? then p2 else
        var p3 := AfterData(p2, c);
        if !p3.out.On? then p3 else AfterDone(p3, c)
  }

  /** The client has answered that all is well, and let its handle be; an abort of the
      only handle leaves that, too. */
  predicate WellAt(client: nat -> Answer, k: nat, alone: bool) {
    client(k).reply.Ok? && (client(k).deed.Nothing? || (client(k).deed.Abort? && alone))
  }

  predicate AllWell(client: nat -> Answer, from: nat, to: nat, alone: bool) {
    forall k :: from <= k < to ==> WellAt(client, k, alone)
  }

  /** In this part of the work the client has been called at most once, and the work goes
      on just if it said that all was well. */
  predicate IsPart(p: Progress, q: Progress, c: Context) {
    && p.v.calls <= q.v.calls <= p.v.calls + 1 && |q.seen| - |p.seen| == q.v.calls - p.v.calls
    && (q.out.On? <==> q.v.calls == p.v.calls || WellAt(c.client, p.v.calls, c.alone))
  }

  lemma CertsArePart(p: Progress, c: Context)
    requires p.out.On?
    ensures IsPart(p, AfterCerts(p, c), c)
  {
  }

  lemma HeadersArePart(p: Progress, c: Context)
    requires p.out.On?
    ensures IsPart(p, AfterHeaders(p, c), c)
  {
  }

  lemma DataIsPart(p: Progress, c: Context)
    requires p.out.On?
    ensures IsPart(p, AfterData(p, c), c)
  {
  }

  lemma DoneIsPart(p: Progress, c: Context)
    requires p.out.On?
    ensures IsPart(p, AfterDone(p, c), c)
  {
  }

  /** The client has been called at most four times, and the work on the user went on to
      the end just if it said that all was well each time. */
  lemma WellIffOn(p: Progress, c: Context)
    requires p.out.On?
    ensures var q := TurnOf(p, c);
            && p.v.calls <= q.v.calls <= p.v.calls + 4 && |q.seen| - |p.seen| == q.v.calls - p.v.calls
            && (q.out.On? <==> AllWell(c.client, p.v.calls, q.v.calls, c.alone))
  {
    hide AfterCerts, AfterHeaders, AfterData, AfterDone, WellAt;
    var p1 := AfterCerts(p, c);
    CertsArePart(p, c);
    if p1.out.On? {
      var p2 := AfterHeaders(p1, c);
      HeadersArePart(p1, c);
      if p2.out.On? {
        var p3 := AfterData(p2, c);
        DataIsPart(p2, c);
        if p3.out.On? { DoneIsPart(p3, c); }
      }
    }
  }

  predicate IsCaughtUp(p: Progress, c: Context) {
    && Rank(p.v.state) >= Rank(c.objState) && (p.v.state.Init? ==> c.objState.Init?)
    && (Rank(c.objState) >= 2 ==> p.v.bytes == |p.data|)
  }

  /** A handle has not read more than there is, and all of it when it is complete. */
  predicate Fits(p: Progress) {
    p.v.bytes <= |p.data| && (p.v.state.Complete? ==> p.v.bytes == |p.data|)
  }

  lemma CertsFirst(p: Progress, c: Context)
    requires Fits(p)
    ensures Fits(AfterCerts(p, c)) && (AfterCerts(p, c).v.state.Init? ==> c.objState.Init?)
  {
  }

  lemma ThenHeaders(p: Progress, c: Context)
    requires Fits(p) && (p.v.state.Init? ==> c.objState.Init?)
    ensures var q := AfterHeaders(p, c);
            q.out.On? ==> Fits(q) && (Rank(q.v.state) >= Rank(c.objState) || q.v.state.Data?)
  {
  }

  lemma ThenData(p: Progress, c: Context)
    requires Fits(p) && (Rank(p.v.state) >= Rank(c.objState) || p.v.state.Data?)
    ensures var q := AfterData(p, c);
            q.out.On? ==>
              && (Rank(q.v.state) >= Rank(c.objState) || q.v.state.Data?)
              && (Rank(c.objState) >= 2 ==> q.v.bytes == |q.data|)
  {
  }

  lemma ThenDone(p: Progress, c: Context)
    requires (Rank(p.v.state) >= Rank(c.objState) || p.v.state.Data?) && (Rank(c.objState) >= 2 ==> p.v.bytes == |p.data|)
    ensures AfterDone(p, c).out.On? ==> IsCaughtUp(AfterDone(p, c), c)
  {
  }

  /** If it went on to the end, the client has seen all that there was to show. */
  lemma OnIsCaughtUp(p: Progress, c: Context)
    requires p.out.On? && Fits(p)
    ensures TurnOf(p, c).out.On? ==> IsCaughtUp(TurnOf(p, c), c)
  {
    hide AfterCerts, AfterHeaders, AfterData, AfterDone, IsCaughtUp, Fits;
    var p1 := AfterCerts(p, c);
    CertsFirst(p, c);
    if p1.out.On? {
      var p2 := AfterHeaders(p1, c);
      ThenHeaders(p1, c);
      if p2.out.On? {
        ThenData(p2, c);
        if AfterData(p2, c).out.On? { ThenDone(AfterData(p2, c), c); }
      }
    }
  }

  /** The client refused its last event and aborted its handle, which others use too.
      Certificates do not matter. */
  predicate MissesLast(p: Progress, q: Progress, c: Context) {
    && p.v.calls < q.v.calls && q.seen != [] && !q.seen[|q.seen| - 1].GotCerts? && !c.alone
    && c.client(q.v.calls - 1) == Answer(NeedData, Deed.Abort)
  }

  lemma PartMisses(p: Progress, c: Context)
    requires p.out.On? && !p.missed
    ensures AfterCerts(p, c).missed <==> MissesLast(p, AfterCerts(p, c), c)
    ensures AfterHeaders(p, c).missed <==> MissesLast(p, AfterHeaders(p, c), c)
  {
  }

  lemma DataMisses(p: Progress, c: Context)
    requires p.out.On? && !p.missed
    ensures AfterData(p, c).missed <==> MissesLast(p, AfterData(p, c), c)
  {
  }

  lemma DoneMisses(p: Progress, c: Context)
    requires p.out.On? && !p.missed
    ensures AfterDone(p, c).missed <==> MissesLast(p, AfterDone(p, c), c)
  {
  }

  /** An answer after which the work goes on is not one of these. */
  lemma OnMissesNothing(p: Progress, q: Progress, c: Context)
    requires IsPart(p, q, c) && q.out.On?
    ensures !MissesLast(p, q, c)
  {
  }

  /** An event is missed just if the last answer was to refuse it and to abort. */
  lemma MissedIff(p: Progress, c: Context)
    requires p.out.On? && !p.missed
    ensures TurnOf(p, c).missed <==> MissesLast(p, TurnOf(p, c), c)
  {
    hide AfterCerts, AfterHeaders, AfterData, AfterDone, MissesLast, WellAt;
    var p1 := AfterCerts(p, c);
    PartMisses(p, c);
    CertsArePart(p, c);
    if p1.out.On? {
      OnMissesNothing(p, p1, c);
      var p2 := AfterHeaders(p1, c);
      PartMisses(p1, c);
      HeadersArePart(p1, c);
      if p2.out.On? {
        OnMissesNothing(p1, p2, c);
        var p3 := AfterData(p2, c);
        DataMisses(p2, c);
        DataIsPart(p2, c);
        if p3.out.On? {
          OnMissesNothing(p2, p3, c);
          DoneMisses(p3, c);
          DoneIsPart(p3, c);
          LastPart(p, p3, AfterDone(p3, c), c);
        } else {
          LastPart(p, p2, p3, c);
        }
      } else {
        LastPart(p, p1, p2, c);
      }
    }
  }

  /** Of several parts, the last one decides. */
  lemma LastPart(p: Progress, q: Progress, r: Progress, c: Context)
    requires p.v.calls <= q.v.calls && IsPart(q, r, c) && q.out.On?
    requires p.v.calls < q.v.calls ==> WellAt(c.client, q.v.calls - 1, c.alone)
    ensures MissesLast(q, r, c) <==> MissesLast(p, r, c)
  {
  }

  /** The events that are due to a user, for the state of the object, when all is well:
      certificates if it has not got past its first state, headers once the data has begun,
      the data that it has not read, and the end when there is no more to come. */
  function Due(v: HandleView, data: string, c: Context): seq<Event> {
    var begun := Rank(c.objState) >= 2;
    var after := if v.state.Init? && !c.objState.Init? then Headers else v.state;
    var open := after.Data? || (after.Headers? && begun);
    (if v.state.Init? && !c.objState.Init? && c.certs then [GotCerts] else [])
    + (if after.Headers? && begun then [HadHeaders] else [])
    + (if open && begun && |data| > v.bytes then [HadData(data[v.bytes..])] else [])
    + (if open && c.objState.Complete? then [Done] else [])
  }

  /** From `p` to `q` the client has been called with the first events that were due; with
      all of them, if the work goes on. */
  predicate ShowsDue(p: Progress, q: Progress, c: Context) {
    var due, m := Due(p.v, p.data, c), q.v.calls - p.v.calls;
    0 <= m <= |due| && q.seen == p.seen + due[..m] && (q.out.On? ==> m == |due|)
  }

  /** What is due next, and what after that, if the client says that all is well. */
  lemma DueFirst(p: Progress, c: Context)
    requires p.out.On?
    ensures var q, due := AfterCerts(p, c), Due(p.v, p.data, c);
            && (q.v.calls == p.v.calls ==> q.seen == p.seen && Due(q.v, q.data, c) == due && q.out.On?)
            && (q.v.calls != p.v.calls ==> due != [] && q.seen == p.seen + [due[0]] && Due(q.v, q.data, c) == due[1..])
            && (q.v.state.Init? ==> c.objState.Init?)
  {
  }

  lemma DueSecond(p: Progress, c: Context)
    requires p.out.On? && (p.v.state.Init? ==> c.objState.Init?)
    ensures var q, due := AfterHeaders(p, c), Due(p.v, p.data, c);
            && (q.v.calls == p.v.calls ==> q.seen == p.seen && Due(q.v, q.data, c) == due && q.out.On?)
            && (q.v.calls != p.v.calls ==> due != [] && q.seen == p.seen + [due[0]])
            && (q.v.calls != p.v.calls && q.out.On? ==> Due(q.v, q.data, c) == due[1..])
            && (q.out.On? ==> (q.v.state.Init? ==> c.objState.Init?) && (q.v.state.Headers? ==> Rank(c.objState) <= 1))
  {
  }

  lemma DueThird(p: Progress, c: Context)
    requires p.out.On? && (p.v.state.Init? ==> c.objState.Init?) && (p.v.state.Headers? ==> Rank(c.objState) <= 1)
    ensures var q, due := AfterData(p, c), Due(p.v, p.data, c);
            && (q.v.calls == p.v.calls ==> q == p && (due == [] || due == [Done]))
            && (q.v.calls != p.v.calls ==> due != [] && q.seen == p.seen + [due[0]])
            && (q.v.calls != p.v.calls && q.out.On? ==> Due(q.v, q.data, c) == due[1..] && (due[1..] == [] || due[1..] == [Done]))
            && (q.out.On? ==> (q.v.state.Init? ==> c.objState.Init?) && (q.v.state.Headers? ==> Rank(c.objState) <= 1))
  {
    hide OutcomeOf, Due;
    DueBehindHeaders(p.v, p.data, c);
    var q := AfterData(p, c);
    if q.out.On? && q.v.calls != p.v.calls { DueBehindHeaders(q.v, q.data, c); }
  }

  lemma DueBehindHeaders(v: HandleView, data: string, c: Context)
    requires (v.state.Init? ==> c.objState.Init?) && (v.state.Headers? ==> Rank(c.objState) <= 1)
    ensures Due(v, data, c)
         == (if v.state.Data? && Rank(c.objState) >= 2 && |data| > v.bytes then [HadData(data[v.bytes..])] else [])
            + (if v.state.Data? && c.objState.Complete? then [Done] else [])
  {
  }

  lemma DueLast(p: Progress, c: Context)
    requires p.out.On? && (p.v.state.Init? ==> c.objState.Init?) && (p.v.state.Headers? ==> Rank(c.objState) <= 1)
    requires Due(p.v, p.data, c) == [] || Due(p.v, p.data, c) == [Done]
    ensures var q, due := AfterDone(p, c), Due(p.v, p.data, c);
            && (q.v.calls == p.v.calls ==> due == [] && q.seen == p.seen)
            && (q.v.calls != p.v.calls ==> due == [Done] && q.seen == p.seen + [Done])
  {
    var due := Due(p.v, p.data, c);
    if due != [] {
      assert due[0] == Done;
      assert p.v.state.Data? && c.objState.Complete?;
    }
  }

  /** One more event of those that are due, or none. */
  lemma ShowsMore(p: Progress, q: Progress, r: Progress, due: seq<Event>, rest: seq<Event>, m: nat)
    requires m <= |due| && q.seen == p.seen + due[..m] && rest == due[m..]
    requires r.seen == q.seen || (rest != [] && r.seen == q.seen + [rest[0]])
    ensures r.seen == p.seen + due[..m + |r.seen| - |q.seen|] && m + |r.seen| - |q.seen| <= |due|
    ensures rest != [] ==> rest[1..] == due[m + 1..]
  {
    if r.seen != q.seen {
      assert due[..m + 1] == due[..m] + [due[m]];
    }
  }

  /** A turn shows the client just what is due, in this order, until it says that something
      is not well. */
  lemma TurnShowsDue(p: Progress, c: Context)
    requires p.out.On?
    ensures ShowsDue(p, TurnOf(p, c), c)
  {
    hide AfterCerts, AfterHeaders, AfterData, AfterDone, Due, WellAt;
    var due := Due(p.v, p.data, c);
    var p1 := AfterCerts(p, c);
    DueFirst(p, c);
    CertsArePart(p, c);
    assert due[..0] == [] && due[0..] == due;
    ShowsMore(p, p, p1, due, due, 0);
    if p1.out.On? {
      var m1, due1, p2 := p1.v.calls - p.v.calls, Due(p1.v, p1.data, c), AfterHeaders(p1, c);
      DueSecond(p1, c);
      HeadersArePart(p1, c);
      ShowsMore(p, p1, p2, due, due1, m1);
      if p2.out.On? {
        var m2, due2, p3 := p2.v.calls - p.v.calls, Due(p2.v, p2.data, c), AfterData(p2, c);
        DueThird(p2, c);
        DataIsPart(p2, c);
        ShowsMore(p, p2, p3, due, due2, m2);
        if p3.out.On? {
          DueLast(p3, c);
          DoneIsPart(p3, c);
          ShowsMore(p, p3, AfterDone(p3, c), due, Due(p3.v, p3.data, c), p3.v.calls - p.v.calls);
        }
      }
    }
  }

  /** The last event was refused, and can be shown again: it was not certificates, nor data
      of a streamed object. */
  predicate IsRefused(q: Progress, c: Context) {
    q.out.Next? && q.seen != [] &&
    var e := q.seen[|q.seen| - 1];
    !e.GotCerts? && !(c.streaming && e.HadData?)
  }

  lemma PartRefused(p: Progress, c: Context)
    requires p.out.On?
    ensures var q := AfterCerts(p, c); !q.out.On? ==> !IsRefused(q, c)
    ensures var q := AfterHeaders(p, c);
            IsRefused(q, c) ==> Due(q.v, q.data, c) == Due(p.v, p.data, c) && q.v.calls == p.v.calls + 1
  {
  }

  lemma DataRefused(p: Progress, c: Context)
    requires p.out.On?
    ensures var q := AfterData(p, c);
            IsRefused(q, c) ==> Due(q.v, q.data, c) == Due(p.v, p.data, c) && q.v.calls == p.v.calls + 1
  {
  }

  lemma DoneRefused(p: Progress, c: Context)
    requires p.out.On?
    ensures var q := AfterDone(p, c);
            IsRefused(q, c) ==> Due(q.v, q.data, c) == Due(p.v, p.data, c) && q.v.calls == p.v.calls + 1
  {
  }

  /** An event that was refused is the next to be shown, with all that was due behind it. */
  lemma RefusedIsDueAgain(p: Progress, c: Context)
    requires p.out.On? && IsRefused(TurnOf(p, c), c)
    ensures var q, due := TurnOf(p, c), Due(p.v, p.data, c);
            var m := q.v.calls - p.v.calls;
            0 < m <= |due| && Due(q.v, q.data, c) == due[m - 1..]
  {
    hide AfterCerts, AfterHeaders, AfterData, AfterDone, Due, WellAt, IsRefused;
    var due := Due(p.v, p.data, c);
    TurnShowsDue(p, c);
    assert due[0..] == due;
    var p1 := AfterCerts(p, c);
    DueFirst(p, c);
    CertsArePart(p, c);
    PartRefused(p, c);
    if p1.out.On? {
      var p2 := AfterHeaders(p1, c);
      DueSecond(p1, c);
      HeadersArePart(p1, c);
      PartRefused(p1, c);
      if p2.out.On? {
        DueThird(p2, c);
        DataIsPart(p2, c);
        DataRefused(p2, c);
        if AfterData(p2, c).out.On? {
          DoneIsPart(AfterData(p2, c), c);
          DoneRefused(AfterData(p2, c), c);
        }
      }
    }
  }

  /** By this answer the handle leaves the object: it was released, or it was aborted and
      others use the object. */
  predicate Leaves(a: Answer, alone: bool) {
    a.deed.Release? || (a.deed.Abort? && !alone)
  }

  /** After this answer no more users are served: it was an error, or an event was refused
      by a handle that leaves. */
  predicate StopsLoop(a: Answer, alone: bool) {
    a.reply.Failed? || (a.reply.NeedData? && Leaves(a, alone))
  }

  /** How the work from `p` to `q` has ended is what the last answer says, if there was one. */
  predicate EndsAsAnswered(p: Progress, q: Progress, c: Context) {
    var called, k := p.v.calls < q.v.calls, q.v.calls - 1;
    && (q.out.Stopped? <==> called && StopsLoop(c.client(k), c.alone))
    && (q.gone <==> called && Leaves(c.client(k), c.alone))
    && (q.moved <==> called && c.client(k).deed.Abort? && !c.alone)
  }

  lemma PartEnds(p: Progress, c: Context)
    requires p.out.On? && !p.gone && !p.moved
    ensures EndsAsAnswered(p, AfterCerts(p, c), c)
    ensures EndsAsAnswered(p, AfterHeaders(p, c), c)
  {
  }

  lemma DataEnds(p: Progress, c: Context)
    requires p.out.On? && !p.gone && !p.moved
    ensures EndsAsAnswered(p, AfterData(p, c), c)
  {
  }

  lemma DoneEnds(p: Progress, c: Context)
    requires p.out.On? && !p.gone && !p.moved
    ensures EndsAsAnswered(p, AfterDone(p, c), c)
  {
  }

  /** After answers that all was well, only what follows counts. */
  lemma EndsLater(p: Progress, q: Progress, r: Progress, c: Context)
    requires p.v.calls <= q.v.calls && IsPart(q, r, c) && EndsAsAnswered(q, r, c)
    requires p.v.calls < q.v.calls ==> WellAt(c.client, q.v.calls - 1, c.alone)
    ensures EndsAsAnswered(p, r, c)
  {
  }

  /** A part after which the work goes on. */
  lemma GoneOn(p: Progress, q: Progress, r: Progress, c: Context)
    requires p.v.calls <= q.v.calls && IsPart(q, r, c) && EndsAsAnswered(q, r, c) && r.out.On?
    requires p.v.calls < q.v.calls ==> WellAt(c.client, q.v.calls - 1, c.alone)
    ensures !r.gone && !r.moved && p.v.calls <= r.v.calls
    ensures p.v.calls < r.v.calls ==> WellAt(c.client, r.v.calls - 1, c.alone)
  {
  }

  /** A turn stops the loop, or makes the handle leave, just if its last answer says so. */
  lemma TurnEndsAsAnswered(p: Progress, c: Context)
    requires p.out.On? && !p.gone && !p.moved
    ensures EndsAsAnswered(p, TurnOf(p, c), c)
  {
    hide AfterCerts, AfterHeaders, AfterData, AfterDone, EndsAsAnswered, IsPart, WellAt;
    var p1 := AfterCerts(p, c);
    PartEnds(p, c);
    CertsArePart(p, c);
    if p1.out.On? {
      GoneOn(p, p, p1, c);
      var p2 := AfterHeaders(p1, c);
      PartEnds(p1, c);
      HeadersArePart(p1, c);
      EndsLater(p, p1, p2, c);
      if p2.out.On? {
        GoneOn(p, p1, p2, c);
        var p3 := AfterData(p2, c);
        DataEnds(p2, c);
        DataIsPart(p2, c);
        EndsLater(p, p2, p3, c);
        if p3.out.On? {
          GoneOn(p, p2, p3, c);
          DoneEnds(p3, c);
          DoneIsPart(p3, c);
          EndsLater(p, p3, AfterDone(p3, c), c);
        }
      }
    }
  }

  /** A client that refuses HAD_HEADERS and aborts its handle, although there are other
      users, is left with a handle that has passed the headers without them. */
  lemma RefusedAndAborted(data: string, certs: bool)
    ensures var p := TurnOf(Start(HandleView(Headers, 0, 0), data, false),
                            Context(Data, false, certs, false, _ => Answer(NeedData, Deed.Abort)));
            && p.moved && p.missed && p.seen == [HadHeaders] && p.v.state.Data? && p.accepted == []
            && !IsLog(p.accepted, p.v.state)
  {
  }

  // ---------------------------------------------------------------------
  // Catching up
  // ---------------------------------------------------------------------

  /** What a handle had accepted and seen, and the state of the object, at first. */
  datatype Base = Base(log: seq<Event>, seen: seq<Event>, state: FetchState)

  /** The handle and the object stand where the progress says. */
  ghost predicate Stands(o: Object, h: Handle, p: Progress, c: Context, b: Base)
    reads o, h
  {
    && h.View() == p.v && h.client == c.client && h.lost == p.lost
    && o.data == p.data && o.streaming == c.streaming && o.certs == c.certs
    && h.log == b.log + p.accepted && h.seen == b.seen + p.seen
    && c.objState == b.state && o.state == (if p.ended then Complete else b.state)
  }

  /** Call the client of the `i`th user. It is `gone` from the object if it has
      released its handle, or has moved to the snapshot `n`. */
  method Call(o: Object, i: nat, e: Event, ghost alone: bool) returns (a: Answer, gone: bool, n: Object?)
    requires i < |o.users| && ObjectOkBut(o, o.users[i]) && alone == (|o.users| == 1)
    modifies o`state, o`users, {o.users[i]}`calls, {o.users[i]}`seen
    ensures var h := old(o.users)[i];
            && a == h.client(old(h.calls)) && h.calls == old(h.calls) + 1 && h.seen == old(h.seen) + [e]
    ensures ObjectOkBut(o, old(o.users)[i]) && gone == (a.deed.Release? || (a.deed.Abort? && !alone))
    ensures o.users == (if gone then Without(old(o.users), i) else old(o.users)) && (gone ==> old(o.users)[i] !in o.users)
    ensures o.state == if a.deed.Abort? && alone then Complete else old(o.state)
    ensures n != null <==> a.deed.Abort? && !alone
    ensures n != null ==> fresh(n) && IsSnapshot(n, o, old(o.users)[i])
  {
    var h := o.users[i];
    a := h.client(h.calls);
    h.calls, h.seen := h.calls + 1, h.seen + [e];
    gone, n := false, null;
    match a.deed
    case Nothing =>
    case Release =>
      RemoveUser(o, i);
      gone := true;
    case Abort =>
      n := AbortHandle(o, i);
      gone := n != null;
  }

  /** Would the handle be in order with a snapshot of the object, having accepted these
      events? */
  ghost predicate FitsSnapshot(v: HandleView, log: seq<Event>, lost: bool, data: string, received: string) {
    && IsLog(log, v.state) && v.bytes <= |data| && !lost
    && (Rank(v.state) < 2 ==> v.bytes == 0) && (v.state.Complete? ==> v.bytes == |data|)
    && Text(log) + data[v.bytes..] == received
  }

  /** A snapshot is in order just if its handle is. */
  lemma SnapshotOkIff(n: Object, o: Object, h: Handle)
    requires IsSnapshot(n, o, h) && !o.streaming && o.received == o.data
    ensures ObjectOk(n) <==> FitsSnapshot(h.View(), h.log, h.lost, o.data, o.received)
  {
    assert n.users[0] == h;
    assert ObjectOk(n) <==> HandleOk(h, n);
  }

  /** The same, as a step of the progress. An event is not recorded yet. */
  method CallAs(o: Object, i: nat, e: Event, ghost p: Progress, ghost c: Context, ghost b: Base, ghost log: seq<Event>)
    returns (a: Answer, gone: bool, n: Object?)
    requires i < |o.users| && ObjectOkBut(o, o.users[i]) && c.alone == (|o.users| == 1)
    requires var h := o.users[i]; Stands(o, h, p, c, b) && HandleAt(h.state, h.bytes, log, h.lost, o)
    modifies o`state, o`users, {o.users[i]}`calls, {o.users[i]}`seen
    ensures var q, h := Called(p, e, c), old(o.users)[i];
            && a == c.client(p.v.calls) && gone == q.gone && q.out == OutcomeOf(a, gone)
            && Stands(o, h, q.(accepted := p.accepted), c, b) && ObjectOkBut(o, h)
            && o.users == (if q.gone then Without(old(o.users), i) else old(o.users)) && (q.gone ==> h !in o.users)
            && (n != null <==> q.moved) && (n != null ==> fresh(n) && IsSnapshot(n, o, h))
            && HandleAt(h.state, h.bytes, log, h.lost, o)
    ensures o.data == old(o.data) && o.received == old(o.received) && o.streaming == old(o.streaming)
    ensures var h := old(o.users)[i];
            && h.View() == HandleView(old(h.state), old(h.bytes), old(h.calls) + 1) && h.log == old(h.log)
            && h.state == old(h.state) && h.bytes == old(h.bytes) && h.lost == old(h.lost)
  {
    hide ObjectOkBut, IsLog, Text;
    a, gone, n := Call(o, i, e, c.alone);
    assert (b.seen + p.seen) + [e] == b.seen + (p.seen + [e]);
  }

  /** Record that the client of `h` has accepted an event. */
  ghost method Record(o: Object, h: Handle, e: Event, p: Progress, c: Context, b: Base)
    requires Stands(o, h, p.(accepted := p.accepted), c, b) && ObjectOkBut(o, h)
    requires HandleAt(h.state, h.bytes, h.log + [e], h.lost, o)
    modifies h`log
    ensures h.log == old(h.log) + [e] && h.View() == old(h.View())
    ensures Stands(o, h, p.(accepted := p.accepted + [e]), c, b) && ObjectOk(o) && HandleOk(h, o)
  {
    assert (b.log + p.accepted) + [e] == b.log + (p.accepted + [e]);
    h.log := h.log + [e];
    assert HandleOk(h, o);
  }

  /** What an answer other than to certificates comes to. */
  lemma CalledFacts(p: Progress, e: Event, c: Context)
    requires !e.GotCerts?
    ensures var q, a := Called(p, e, c), c.client(p.v.calls);
            && q.accepted == (if a.reply.NeedData? then p.accepted else p.accepted + [e])
            && q == q.(accepted := p.accepted).(accepted := q.accepted)
            && (q.missed <==> q.moved && a.reply.NeedData?) && (q.out.Next? <==> !q.gone && a.reply.NeedData?)
            && (q.moved ==> !c.alone)
  {
  }

  lemma NoExceptions(o: Object, h: Handle)
    requires ObjectOkBut(o, h) && h !in o.users
    ensures ObjectOk(o)
  {
  }

  lemma CompanyIsNotStreaming(o: Object, h: Handle)
    requires ObjectOkBut(o, h) && |o.users| > 1
    ensures !o.streaming && o.received == o.data
  {
  }

  /** The handle is in the state that it has when the event is accepted, and would not be
      in order without the event. */
  ghost predicate NeedsEvent(o: Object, h: Handle, e: Event)
    reads h, o
  {
    && HandleAt(h.state, h.bytes, h.log + [e], h.lost, o)
    && (!o.streaming ==> !FitsSnapshot(h.View(), h.log, h.lost, o.data, o.received))
  }

  /** Whether the handle would be in order with a snapshot, once the event has been
      accepted, or refused. */
  lemma FitsEither(h: Handle, e: Event, o: Object, calls: nat)
    requires NeedsEvent(o, h, e) && !o.streaming
    ensures var v := HandleView(h.state, h.bytes, calls);
            && FitsSnapshot(v, h.log + [e], h.lost, o.data, o.received)
            && !FitsSnapshot(v, h.log, h.lost, o.data, o.received)
  {
  }

  lemma NeedsIt(h: Handle, e: Event, o: Object)
    requires NeedsEvent(o, h, e)
    ensures HandleAt(h.state, h.bytes, h.log + [e], h.lost, o)
  {
  }

  /** Emit an event. The handle is in the state that it has when the event is accepted. */
  method Emit(o: Object, i: nat, e: Event, ghost p: Progress, ghost c: Context, ghost b: Base)
    returns (a: Answer, gone: bool, n: Object?)
    requires i < |o.users| && ObjectOkBut(o, o.users[i]) && c.alone == (|o.users| == 1) && !e.GotCerts?
    requires Stands(o, o.users[i], p, c, b) && NeedsEvent(o, o.users[i], e)
    modifies o`state, o`users, {o.users[i]}`log, {o.users[i]}`calls, {o.users[i]}`seen
    ensures var q, h := Called(p, e, c), old(o.users)[i];
            && gone == q.gone && q.out == OutcomeOf(a, gone)
            && Stands(o, h, q, c, b) && (if q.out.Next? then ObjectOkBut(o, h) else ObjectOk(o))
            && (q.out.Next? ==> h.log == old(h.log) && HandleAt(h.state, h.bytes, h.log + [e], h.lost, o))
            && o.users == (if q.gone then Without(old(o.users), i) else old(o.users)) && (q.gone ==> h !in o.users)
            && (n != null <==> q.moved)
            && (n != null ==> fresh(n) && IsSnapshot(n, o, h) && (ObjectOk(n) <==> !q.missed))
  {
    hide *;
    ghost var h, q := o.users[i], Called(p, e, c);
    CalledFacts(p, e, c);
    ghost var log := h.log;
    if |o.users| > 1 {
      CompanyIsNotStreaming(o, h);
      FitsEither(h, e, o, h.calls + 1);
    }
    NeedsIt(h, e, o);
    a, gone, n := CallAs(o, i, e, p, c, b, log + [e]);
    if !a.reply.NeedData? {
      Record(o, h, e, q.(accepted := p.accepted), c, b);
    }
    if n != null {
      SnapshotOkIff(n, o, h);
    }
    if gone && a.reply.NeedData? { NoExceptions(o, h); }
  }

  /** The `i`th user may be worked on. */
  ghost predicate IsReady(o: Object, i: nat, p: Progress, c: Context, b: Base)
    reads o, o.users
  {
    && ObjectOk(o) && i < |o.users| && c.alone == (|o.users| == 1) && Rank(c.objState) <= Rank(o.state)
    && Stands(o, o.users[i], p, c, b) && p.out.On? && !p.gone && !p.moved && !p.missed
  }

  /** The work on the user `h` of `was` has come to this. */
  ghost predicate IsWorked(o: Object, was: seq<Handle>, i: nat, q: Progress, c: Context, b: Base, n: Object?)
    requires i < |was|
    reads o, o.users, was, if n == null then {} else {n}, if n == null then [] else n.users
  {
    && ObjectOk(o) && Stands(o, was[i], q, c, b) && o.users == (if q.gone then Without(was, i) else was)
    && (q.gone ==> was[i] !in o.users) && (n != null <==> q.moved)
    && (n != null ==> IsSnapshot(n, o, was[i]) && (ObjectOk(n) <==> !q.missed))
  }

  lemma NothingToDo(o: Object, i: nat, p: Progress, c: Context, b: Base)
    requires IsReady(o, i, p, c, b)
    ensures IsWorked(o, o.users, i, p, c, b, null) && HandleOk(o.users[i], o)
    ensures o.users[i].View() == p.v && c.client == o.users[i].client && o.data == p.data && o.streaming == c.streaming
  {
  }

  method ShowCerts(o: Object, i: nat, objState: FetchState, ghost p: Progress, ghost c: Context, ghost b: Base)
    returns (out: Outcome, n: Object?)
    requires IsReady(o, i, p, c, b) && objState == c.objState
    modifies o`state, o`users, {o.users[i]}`state, {o.users[i]}`calls, {o.users[i]}`seen
    ensures IsWorked(o, old(o.users), i, AfterCerts(p, c), c, b, n) && out == AfterCerts(p, c).out && (n != null ==> fresh(n))
  {
    var h := o.users[i];
    out, n := On, null;
    NothingToDo(o, i, p, c, b);
    if h.state != Init || objState == Init {
      return;
    }
    h.state := Headers;
    assert HandleOk(h, o) && o.certs == c.certs;
    if o.certs {
      var a, gone;
      if |o.users| > 1 {
        CompanyIsNotStreaming(o, h);
        EarlyFits(h, o);
      }
      ghost var q := p.(v := p.v.(state := Headers));
      a, gone, n := CallAs(o, i, GotCerts, q, c, b, h.log);
      out := OutcomeOf(a, gone);
      if n != null { SnapshotOkIff(n, o, h); }
      if gone { NoExceptions(o, h); } else { assert HandleOk(h, o); }
    }
  }

  lemma EarlyFits(h: Handle, o: Object)
    requires HandleOk(h, o) && Rank(h.state) < 2 && !o.streaming && o.data == o.received
    ensures forall calls :: FitsSnapshot(HandleView(h.state, h.bytes, calls), h.log, h.lost, o.data, o.received)
  {
  }

  /** An event that the handle is put into a later state for. */
  lemma HeadersAreNeeded(h: Handle, o: Object)
    requires HandleAt(Headers, h.bytes, h.log, h.lost, o) && h.state.Data? && Rank(o.state) >= 2
    ensures NeedsEvent(o, h, HadHeaders) && h.log == [] && h.bytes == 0 && !h.lost
  {
    TextAppend(h.log, HadHeaders);
  }

  /** Put the handle into another state. */
  method SetState(h: Handle, state: FetchState, ghost o: Object, ghost p: Progress, ghost c: Context, ghost b: Base)
    requires Stands(o, h, p, c, b) && ObjectOkBut(o, h)
    modifies h`state
    ensures h.state == state && Stands(o, h, p.(v := p.v.(state := state)), c, b) && ObjectOkBut(o, h)
  {
    h.state := state;
  }

  lemma WorkedIs(o: Object, was: seq<Handle>, i: nat, q: Progress, c: Context, b: Base, n: Object?)
    requires i < |was| && Stands(o, was[i], q, c, b) && ObjectOk(o)
    requires o.users == (if q.gone then Without(was, i) else was) && (q.gone ==> was[i] !in o.users)
    requires (n != null <==> q.moved) && (n != null ==> IsSnapshot(n, o, was[i]) && (ObjectOk(n) <==> !q.missed))
    ensures IsWorked(o, was, i, q, c, b, n)
  {
  }

  lemma ReadyToWork(o: Object, i: nat, p: Progress, c: Context, b: Base)
    requires IsReady(o, i, p, c, b)
    ensures i < |o.users| && p.out.On? && !p.gone && !p.moved && !p.missed
    ensures var h := o.users[i];
            && HandleOk(h, o) && HandleAt(h.state, h.bytes, h.log, h.lost, o) && ObjectOkBut(o, h) && Stands(o, h, p, c, b)
            && IsWorked(o, o.users, i, p, c, b, null)
    ensures o.users[i].View() == p.v && c.alone == (|o.users| == 1) && Rank(c.objState) <= Rank(o.state)
    ensures c.client == o.users[i].client && o.data == p.data && o.streaming == c.streaming && o.certs == c.certs
    ensures p.v.state == o.users[i].state && p.v.bytes == o.users[i].bytes
  {
  }

  lemma HeadersDef(p: Progress, c: Context)
    ensures AfterHeaders(p, c) ==
            if !p.v.state.Headers? || Rank(c.objState) <= 1 then p
            else
              var q := Called(p.(v := p.v.(state := Data)), HadHeaders, c);
              if q.out.Next? then q.(v := q.v.(state := Headers)) else q
    ensures var q := Called(p.(v := p.v.(state := Data)), HadHeaders, c); q.out.Next? ==> !q.gone && !q.moved && q.v.state.Data?
  {
  }

  method ShowHeaders(o: Object, i: nat, objState: FetchState, ghost p: Progress, ghost c: Context, ghost b: Base)
    returns (out: Outcome, n: Object?)
    requires IsReady(o, i, p, c, b) && objState == c.objState
    modifies o`state, o`users, {o.users[i]}`state, {o.users[i]}`log, {o.users[i]}`calls, {o.users[i]}`seen
    ensures IsWorked(o, old(o.users), i, AfterHeaders(p, c), c, b, n) && out == AfterHeaders(p, c).out && (n != null ==> fresh(n))
  {
    hide *;
    ReadyToWork(o, i, p, c, b);
    HeadersDef(p, c);
    var h := o.users[i];
    ghost var was := o.users;
    out, n := On, null;
    if h.state != Headers || Rank(objState) <= 1 {
      return;
    }
    SetState(h, Data, o, p, c, b);
    HeadersAreNeeded(h, o);
    ghost var q := Called(p.(v := p.v.(state := Data)), HadHeaders, c);
    var a, gone;
    a, gone, n := Emit(o, i, HadHeaders, p.(v := p.v.(state := Data)), c, b);
    out := OutcomeOf(a, gone);
    if out.Next? {
      SetState(h, Headers, o, q, c, b);
      BackToHeaders(h, o);
      q := q.(v := q.v.(state := Headers));
    }
    WorkedIs(o, was, i, q, c, b, n);
  }

  lemma BackToHeaders(h: Handle, o: Object)
    requires ObjectOkBut(o, h) && h.state.Headers? && HandleAt(Data, h.bytes, h.log + [HadHeaders], h.lost, o) && h.log == []
    requires h.bytes == 0 && !h.lost
    ensures ObjectOk(o)
  {
    TextAppend(h.log, HadHeaders);
    assert HandleOk(h, o);
  }

  // Data

  /** The data that the client has not seen. The handle is moved behind it; when
      streaming, the object forgets it. */
  method TakeData(o: Object, i: nat, ghost p: Progress, ghost c: Context, ghost b: Base) returns (text: string, before: nat)
    requires ObjectOk(o) && i < |o.users| && o.users[i].state.Data? && |o.data| > o.users[i].bytes && Rank(o.state) >= 2
    requires Stands(o, o.users[i], p, c, b)
    modifies o`data, {o.users[i]}`bytes
    ensures var h := o.users[i];
            && ObjectOkBut(o, h) && NeedsEvent(o, h, HadData(text)) && Stands(o, h, Taken(p, c), c, b)
            && text == old(o.data)[old(h.bytes)..] && h.bytes == |o.data| && before <= |o.data|
            && before == (if o.streaming then 0 else old(h.bytes)) && (!o.streaming ==> o.data[before..] == text)
  {
    hide IsLog, Text;
    var h := o.users[i];
    assert HandleOk(h, o);
    text, before := o.data[h.bytes..], 0;
    TextAppend(h.log, HadData(text));
    if o.streaming {
      o.data, h.bytes := "", 0;
    } else {
      before := h.bytes;
      h.bytes := |o.data|;
    }
    DataIsNeeded(o, h, text);
  }

  lemma DataIsNeeded(o: Object, h: Handle, text: string)
    requires IsLog(h.log, Data) && h.state.Data? && Rank(o.state) >= 2 && h.bytes == |o.data| && text != ""
    requires (h.lost ==> o.streaming) && (!h.lost ==> Text(h.log) + text == o.received)
    requires Text(h.log + [HadData(text)]) == Text(h.log) + text
    ensures NeedsEvent(o, h, HadData(text))
  {
    assert o.data[h.bytes..] == "";
    assert |Text(h.log) + text| > |Text(h.log)|;
  }

  function Taken(p: Progress, c: Context): Progress {
    if c.streaming then p.(data := "", v := p.v.(bytes := 0)) else p.(v := p.v.(bytes := |p.data|))
  }

  lemma DataDef(p: Progress, c: Context)
    ensures AfterData(p, c) ==
            if !p.v.state.Data? || Rank(c.objState) < 2 || |p.data| <= p.v.bytes then p
            else
              var q := Called(Taken(p, c), HadData(p.data[p.v.bytes..]), c);
              if q.out.Next? then q.(v := q.v.(bytes := if c.streaming then 0 else p.v.bytes), lost := q.lost || c.streaming)
              else q
    ensures p.v.bytes <= |p.data| ==>
              var q := Called(Taken(p, c), HadData(p.data[p.v.bytes..]), c);
              && (q.out.Next? ==> !q.gone && !q.moved && q.v.bytes == Taken(p, c).v.bytes) && q.lost == p.lost
              && q.out == OutcomeOf(c.client(p.v.calls), q.gone)
  {
  }

  /** The client has refused the data: it will be shown it again, unless the object
      has forgotten it. */
  method PutBack(o: Object, h: Handle, before: nat, ghost text: string, ghost p: Progress, ghost c: Context, ghost b: Base)
    requires h in o.users && ObjectOkBut(o, h) && h.state.Data? && before <= |o.data| && h.bytes == |o.data|
    requires HandleAt(Data, h.bytes, h.log + [HadData(text)], h.lost, o)
    requires Stands(o, h, p, c, b) && (!o.streaming ==> o.data[before..] == text)
    modifies h`bytes, h`lost
    ensures ObjectOk(o) && Stands(o, h, p.(v := p.v.(bytes := before), lost := p.lost || c.streaming), c, b)
  {
    TextAppend(h.log, HadData(text));
    assert IsOpen(h.log) by {
      assert (h.log + [HadData(text)])[0] == HadHeaders;
      assert forall i :: 0 < i < |h.log| ==> h.log[i] == (h.log + [HadData(text)])[i];
    }
    h.bytes := before;
    h.lost := h.lost || o.streaming;
    assert HandleOk(h, o);
  }

  method ShowData(o: Object, i: nat, objState: FetchState, ghost p: Progress, ghost c: Context, ghost b: Base)
    returns (out: Outcome, n: Object?)
    requires IsReady(o, i, p, c, b) && objState == c.objState
    modifies o`state, o`users, o`data
    modifies {o.users[i]}`bytes, {o.users[i]}`log, {o.users[i]}`lost, {o.users[i]}`calls, {o.users[i]}`seen
    ensures IsWorked(o, old(o.users), i, AfterData(p, c), c, b, n) && out == AfterData(p, c).out && (n != null ==> fresh(n))
  {
    hide *;
    ReadyToWork(o, i, p, c, b);
    DataDef(p, c);
    var h := o.users[i];
    ghost var was := o.users;
    out, n := On, null;
    if h.state != Data || Rank(objState) < 2 || |o.data| <= h.bytes {
      return;
    }
    var text, before := TakeData(o, i, p, c, b);
    ghost var q := Called(Taken(p, c), HadData(text), c);
    var a, gone;
    a, gone, n := Emit(o, i, HadData(text), Taken(p, c), c, b);
    out := OutcomeOf(a, gone);
    if out.Next? {
      PutBack(o, h, before, text, q, c, b);
      q := q.(v := q.v.(bytes := before), lost := q.lost || c.streaming);
    }
    WorkedIs(o, was, i, q, c, b, n);
  }

  // DONE

  lemma DoneIsNeeded(o: Object, h: Handle)
    requires HandleAt(Data, h.bytes, h.log, h.lost, o) && h.state.Complete? && o.state.Complete? && h.bytes == |o.data|
    ensures NeedsEvent(o, h, Done)
  {
    TextAppend(h.log, Done);
    assert (h.log + [Done])[..|h.log|] == h.log;
    assert !IsLog(h.log, Complete);
  }

  lemma BackToData(h: Handle, o: Object)
    requires ObjectOkBut(o, h) && h.state.Data? && HandleAt(Complete, h.bytes, h.log + [Done], h.lost, o)
    ensures ObjectOk(o)
  {
    TextAppend(h.log, Done);
    assert (h.log + [Done])[..|h.log|] == h.log;
    assert HandleOk(h, o);
  }

  lemma DoneDef(p: Progress, c: Context)
    ensures AfterDone(p, c) ==
            if !p.v.state.Data? || Rank(c.objState) <= 2 then p
            else
              var q := Called(p.(v := p.v.(state := Complete)), Done, c);
              if q.out.Next? then q.(v := q.v.(state := Data)) else q
    ensures var q := Called(p.(v := p.v.(state := Complete)), Done, c); q.out.Next? ==> !q.gone && !q.moved && q.v.state.Complete?
  {
  }

  method ShowDone(o: Object, i: nat, objState: FetchState, ghost p: Progress, ghost c: Context, ghost b: Base)
    returns (out: Outcome, n: Object?)
    requires IsReady(o, i, p, c, b) && objState == c.objState && (Rank(objState) >= 2 ==> p.v.bytes == |p.data|)
    modifies o`state, o`users, {o.users[i]}`state, {o.users[i]}`log, {o.users[i]}`calls, {o.users[i]}`seen
    ensures IsWorked(o, old(o.users), i, AfterDone(p, c), c, b, n) && out == AfterDone(p, c).out && (n != null ==> fresh(n))
  {
    hide *;
    ReadyToWork(o, i, p, c, b);
    DoneDef(p, c);
    var h := o.users[i];
    ghost var was := o.users;
    out, n := On, null;
    if h.state != Data || Rank(objState) <= 2 {
      return;
    }
    RankIs(objState, o.state);
    SetState(h, Complete, o, p, c, b);
    DoneIsNeeded(o, h);
    ghost var q := Called(p.(v := p.v.(state := Complete)), Done, c);
    var a, gone;
    a, gone, n := Emit(o, i, Done, p.(v := p.v.(state := Complete)), c, b);
    out := OutcomeOf(a, gone);
    if out.Next? {
      SetState(h, Data, o, q, c, b);
      BackToData(h, o);
      q := q.(v := q.v.(state := Data));
    }
    WorkedIs(o, was, i, q, c, b, n);
  }

  lemma RankIs(s: FetchState, t: FetchState)
    requires Rank(s) <= Rank(t) && Rank(s) > 2
    ensures t.Complete?
  {
  }

  // ---------------------------------------------------------------------
  // One turn, and all turns
  // ---------------------------------------------------------------------

  /** No part of the work that goes on has lost the handle. */
  lemma OnIsHere(p: Progress, c: Context)
    requires p.out.On? && !p.gone && !p.moved && !p.missed
    ensures AfterCerts(p, c).out.On? ==> IsHere(AfterCerts(p, c))
    ensures AfterHeaders(p, c).out.On? ==> IsHere(AfterHeaders(p, c))
    ensures AfterData(p, c).out.On? ==> IsHere(AfterData(p, c))
  {
  }

  predicate IsHere(p: Progress) { !p.gone && !p.moved && !p.missed }

  /** One turn of the loop over the users. */
  method BringUpToDate(o: Object, i: nat, ghost p: Progress, ghost c: Context, ghost b: Base) returns (out: Outcome, n: Object?)
    requires IsReady(o, i, p, c, b) && c.objState == o.state && Fits(p)
    modifies o`state, o`users, o`data
    modifies {o.users[i]}`state, {o.users[i]}`bytes, {o.users[i]}`log, {o.users[i]}`lost, {o.users[i]}`calls, {o.users[i]}`seen
    ensures IsWorked(o, old(o.users), i, TurnOf(p, c), c, b, n) && out == TurnOf(p, c).out && (n != null ==> fresh(n))
  {
    hide IsReady, IsWorked, AfterCerts, AfterHeaders, AfterData, AfterDone, Fits;
    var objState := o.state;
    ghost var was := o.users;
    ReadyToWork(o, i, p, c, b);
    CertsFirst(p, c);
    OnIsHere(p, c);
    out, n := ShowCerts(o, i, objState, p, c, b);
    if !out.On? { return; }
    ghost var p1 := AfterCerts(p, c);
    GoOn(o, was, i, p1, c, b, n);
    ThenHeaders(p1, c);
    OnIsHere(p1, c);
    out, n := ShowHeaders(o, i, objState, p1, c, b);
    if !out.On? { return; }
    ghost var p2 := AfterHeaders(p1, c);
    GoOn(o, was, i, p2, c, b, n);
    ThenData(p2, c);
    OnIsHere(p2, c);
    out, n := ShowData(o, i, objState, p2, c, b);
    if !out.On? { return; }
    ghost var p3 := AfterData(p2, c);
    GoOn(o, was, i, p3, c, b, n);
    out, n := ShowDone(o, i, objState, p3, c, b);
  }

  /** The user is still there, and may be worked on further. */
  lemma GoOn(o: Object, was: seq<Handle>, i: nat, q: Progress, c: Context, b: Base, n: Object?)
    requires i < |was| && IsWorked(o, was, i, q, c, b, n) && q.out.On? && IsHere(q) && c.alone == (|was| == 1)
    ensures o.users == was && IsReady(o, i, q, c, b)
  {
  }

  // The loop

  /** A user before the loop. */
  datatype User = User(v: HandleView, lost: bool, client: nat -> Answer)

  ghost function UserOf(h: Handle): User
    reads h
  {
    User(h.View(), h.lost, h.client)
  }

  ghost function UsersOf(hs: seq<Handle>): (us: seq<User>)
    reads hs
    ensures |us| == |hs| && forall i :: 0 <= i < |hs| ==> us[i] == UserOf(hs[i])
  {
    seq(|hs|, i requires 0 <= i < |hs| reads hs => UserOf(hs[i]))
  }

  /** What becomes of users that are brought up to date one after the other: how far each
      one that is reached has come, and whether none has stopped the work. */
  datatype Round = Round(turns: seq<Progress>, ok: bool)

  function RoundOf(us: seq<User>, objState: FetchState, data: string, streaming: bool, certs: bool, count: int): (r: Round)
    ensures |r.turns| <= |us| && (r.ok ==> |r.turns| == |us|)
  {
    hide TurnOf, Start;
    if us == [] then Round([], true)
    else
      var p := TurnOf(Start(us[0].v, data, us[0].lost), Context(objState, streaming, certs, count == 1, us[0].client));
      if p.out.Stopped? then Round([p], false)
      else
        var rest := RoundOf(us[1..], objState, p.data, streaming, certs, if p.gone then count - 1 else count);
        Round([p] + rest.turns, rest.ok)
  }

  /** Only the last turn has stopped the round, and just if it has ended early. */
  predicate StopsLast(r: Round) {
    && (!r.ok ==> r.turns != [])
    && forall j :: 0 <= j < |r.turns| ==> (r.turns[j].out.Stopped? <==> !r.ok && j == |r.turns| - 1)
  }

  lemma {:induction false} RoundStopsIff(us: seq<User>, objState: FetchState, data: string, streaming: bool, certs: bool, count: int)
    ensures StopsLast(RoundOf(us, objState, data, streaming, certs, count))
    decreases |us|
  {
    if us != [] {
      hide *;
      var p := TurnFor(us[0], objState, data, streaming, certs, count);
      var left := if p.gone then count - 1 else count;
      RoundIs(us, objState, data, streaming, certs, count);
      RoundStopsIff(us[1..], objState, p.data, streaming, certs, left);
      StopsLastNext(p, RoundOf(us[1..], objState, p.data, streaming, certs, left));
    }
  }

  lemma StopsLastNext(p: Progress, rest: Round)
    requires StopsLast(rest)
    ensures StopsLast(if p.out.Stopped? then Round([p], false) else Round([p] + rest.turns, rest.ok))
  {
    var turns := [p] + rest.turns;
    assert forall j :: 0 < j < |turns| ==> turns[j] == rest.turns[j - 1];
  }

  /** Those users that are still there. */
  function Kept(us: seq<Handle>, turns: seq<Progress>): (r: seq<Handle>)
    requires |us| == |turns|
    ensures |r| <= |us| && forall x :: x in r ==> x in us
  {
    if us == [] then []
    else
      var k := |us| - 1;
      Kept(us[..k], turns[..k]) + if turns[k].gone then [] else [us[k]]
  }

  /** A user whose turn it has been. */
  ghost predicate Reached(h: Handle, p: Progress, log: seq<Event>, seen: seq<Event>)
    reads h
  {
    h.View() == p.v && h.lost == p.lost && h.log == log + p.accepted && h.seen == seen + p.seen
  }

  /** A user whose turn it has not been. */
  ghost predicate Waits(h: Handle, u: User, log: seq<Event>, seen: seq<Event>)
    reads h
  {
    UserOf(h) == u && h.log == log && h.seen == seen
  }

  /** The snapshot that a handle has moved to, if it has, is in order just if no event was
      missed. */
  ghost predicate HasMoved(n: Object?, p: Progress, h: Handle)
    reads n, h
  {
    (n != null <==> p.moved) && (n != null ==> n.users == [h] && (ObjectOk(n) <==> !p.missed))
  }

  /** The handle has seen all that an object in this state has to show. */
  ghost predicate CaughtUp(h: Handle, objState: FetchState, length: nat)
    reads h
  {
    && Rank(h.state) >= Rank(objState) && (h.state.Init? ==> objState.Init?)
    && (Rank(objState) >= 2 ==> h.bytes == length)
  }

  function TurnFor(u: User, objState: FetchState, data: string, streaming: bool, certs: bool, count: int): Progress {
    TurnOf(Start(u.v, data, u.lost), Context(objState, streaming, certs, count == 1, u.client))
  }

  /** The `i`th user's turn. */
  method Turn(o: Object, i: nat) returns (out: Outcome, ghost p: Progress, ghost n: Object?)
    requires ObjectOk(o) && i < |o.users|
    modifies o`state, o`users, o`data, {o.users[i]}
    ensures p == TurnFor(old(UserOf(o.users[i])), old(o.state), old(o.data), old(o.streaming), old(o.certs), |old(o.users)|)
    ensures out == p.out && ObjectOk(o) && o.users == if p.gone then Without(old(o.users), i) else old(o.users)
    ensures var h := old(o.users)[i];
            Reached(h, p, old(h.log), old(h.seen)) && HasMoved(n, p, h) && (p.out.On? ==> CaughtUp(h, old(o.state), |o.data|))
    ensures n != null ==> fresh(n)
    ensures o.data == p.data && (!o.streaming ==> p.data == old(o.data))
    ensures |old(o.users)| > 1 ==> o.state == old(o.state)
  {
    var h := o.users[i];
    ghost var was := o.users;
    ghost var c := Context(o.state, o.streaming, o.certs, |o.users| == 1, h.client);
    ghost var b := Base(h.log, h.seen, o.state);
    ghost var start := Start(h.View(), o.data, h.lost);
    p := TurnOf(start, c);
    assert HandleOk(h, o);
    assert IsReady(o, i, start, c, b) && Fits(start);
    OnIsCaughtUp(start, c);
    DataIsKept(start, c);
    hide TurnOf, ObjectOkBut, IsReady;
    var m;
    out, m := BringUpToDate(o, i, start, c, b);
    n := m;
  }

  /** Only streaming forgets data, and only the abort of the only handle ends a fetch. */
  lemma DataIsKept(p: Progress, c: Context)
    requires !p.ended
    ensures !c.streaming ==> TurnOf(p, c).data == p.data
    ensures !c.alone ==> !TurnOf(p, c).ended
  {
    hide AfterCerts, AfterHeaders, AfterData, AfterDone;
    PartsKeepData(p, c);
    var p1 := AfterCerts(p, c);
    PartsKeepData(p1, c);
    var p2 := AfterHeaders(p1, c);
    PartsKeepData(p2, c);
    PartsKeepData(AfterData(p2, c), c);
  }

  predicate KeepsData(p: Progress, q: Progress, c: Context) {
    (!c.streaming ==> q.data == p.data) && (!c.alone ==> q.ended == p.ended)
  }

  lemma PartsKeepData(p: Progress, c: Context)
    ensures KeepsData(p, AfterCerts(p, c), c) && KeepsData(p, AfterHeaders(p, c), c)
    ensures KeepsData(p, AfterData(p, c), c) && KeepsData(p, AfterDone(p, c), c)
  {
  }

  lemma KeptSnoc(us: seq<Handle>, k: nat, turns: seq<Progress>, p: Progress)
    requires k < |us| && |turns| == k
    ensures us[..k + 1][..k] == us[..k] && (turns + [p])[..k] == turns
    ensures Kept(us[..k + 1], turns + [p]) == Kept(us[..k], turns) + if p.gone then [] else [us[k]]
  {
  }

  /** The users once the turn of the next one is over. */
  lemma UsersAfterTurn(us: seq<Handle>, k: nat, turns: seq<Progress>, p: Progress)
    requires k < |us| && |turns| == k
    ensures var kept := Kept(us[..k], turns);
            var now, i := kept + us[k..], |kept|;
            && i < |now| && now[i] == us[k]
            && (if p.gone then Without(now, i) else now) == Kept(us[..k + 1], turns + [p]) + us[k + 1..]
  {
    hide Kept;
    KeptSnoc(us, k, turns, p);
    OneTakenOut(Kept(us[..k], turns), us[k], us[k + 1..]);
    assert us[k..] == [us[k]] + us[k + 1..];
  }

  lemma OneTakenOut(a: seq<Handle>, x: Handle, b: seq<Handle>)
    ensures var all := a + ([x] + b);
            all[|a|] == x && Without(all, |a|) == a + [] + b && all == a + [x] + b
  {
    var all := a + ([x] + b);
    assert all[..|a|] == a && all[|a| + 1..] == b;
  }

  /** The round `r` is the turn `p`, and if that does not stop the work, the `rest`. */
  predicate IsNextRound(r: Round, p: Progress, rest: Round, turns: seq<Progress>) {
    if p.out.Stopped? then turns + r.turns == turns + [p] && !r.ok
    else turns + r.turns == (turns + [p]) + rest.turns && r.ok == rest.ok
  }

  /** What is left of the round after the next turn. */
  lemma RoundStep(us: seq<User>, k: nat, objState: FetchState, data: string, streaming: bool, certs: bool, count: int,
                  turns: seq<Progress>)
    requires k < |us|
    ensures var p := TurnFor(us[k], objState, data, streaming, certs, count);
            var r := RoundOf(us[k..], objState, data, streaming, certs, count);
            var rest := RoundOf(us[k + 1..], objState, p.data, streaming, certs, if p.gone then count - 1 else count);
            IsNextRound(r, p, rest, turns)
  {
    hide TurnFor, RoundOf;
    var all := us[k..];
    assert all[0] == us[k] && all[1..] == us[k + 1..];
    RoundIs(all, objState, data, streaming, certs, count);
    var p := TurnFor(us[k], objState, data, streaming, certs, count);
    var rest := RoundOf(us[k + 1..], objState, p.data, streaming, certs, if p.gone then count - 1 else count);
    Regrouped(turns, [p], rest.turns);
  }

  lemma RoundIs(us: seq<User>, objState: FetchState, data: string, streaming: bool, certs: bool, count: int)
    requires us != []
    ensures var p := TurnFor(us[0], objState, data, streaming, certs, count);
            var rest := RoundOf(us[1..], objState, p.data, streaming, certs, if p.gone then count - 1 else count);
            RoundOf(us, objState, data, streaming, certs, count) ==
            if p.out.Stopped? then Round([p], false) else Round([p] + rest.turns, rest.ok)
  {
    hide TurnOf, Start;
  }

  lemma Regrouped<T>(a: seq<T>, b: seq<T>, c: seq<T>)
    ensures a + (b + c) == (a + b) + c
  {
  }

  // The users before and after the one whose turn it is

  ghost predicate AllReached(us: seq<Handle>, turns: seq<Progress>, logs: seq<seq<Event>>, seens: seq<seq<Event>>)
    reads us
  {
    && |turns| <= |us| == |logs| == |seens|
    && forall j :: 0 <= j < |turns| ==> Reached(us[j], turns[j], logs[j], seens[j])
  }

  ghost predicate AllWait(us: seq<Handle>, k: nat, views: seq<User>, logs: seq<seq<Event>>, seens: seq<seq<Event>>)
    reads us
  {
    && |us| == |views| == |logs| == |seens|
    && forall j :: k <= j < |us| ==> Waits(us[j], views[j], logs[j], seens[j])
  }

  ghost predicate AllMoved(us: seq<Handle>, turns: seq<Progress>, moved: seq<Object?>)
    reads us, moved
  {
    |moved| == |turns| <= |us| && forall j :: 0 <= j < |turns| ==> HasMoved(moved[j], turns[j], us[j])
  }

  ghost predicate AllCaughtUp(us: seq<Handle>, turns: seq<Progress>, objState: FetchState, length: nat)
    reads us
  {
    |turns| <= |us| && forall j :: 0 <= j < |turns| && turns[j].out.On? ==> CaughtUp(us[j], objState, length)
  }

  lemma NextIsReached(us: seq<Handle>, turns: seq<Progress>, logs: seq<seq<Event>>, seens: seq<seq<Event>>,
                      moved: seq<Object?>, objState: FetchState, length: nat, p: Progress, n: Object?)
    requires |turns| < |us| && AllReached(us, turns, logs, seens) && AllMoved(us, turns, moved)
    requires AllCaughtUp(us, turns, objState, length)
    requires var k := |turns|;
             Reached(us[k], p, logs[k], seens[k]) && HasMoved(n, p, us[k]) && (p.out.On? ==> CaughtUp(us[k], objState, length))
    ensures AllReached(us, turns + [p], logs, seens) && AllMoved(us, turns + [p], moved + [n])
    ensures AllCaughtUp(us, turns + [p], objState, length)
  {
    hide Reached, HasMoved, CaughtUp;
  }

  lemma NextWaits(us: seq<Handle>, k: nat, views: seq<User>, logs: seq<seq<Event>>, seens: seq<seq<Event>>)
    requires k < |us| && AllWait(us, k, views, logs, seens)
    ensures UserOf(us[k]) == views[k] && us[k].log == logs[k] && us[k].seen == seens[k]
    ensures AllWait(us, k + 1, views, logs, seens)
  {
  }

  lemma NextIsApart(us: seq<Handle>, k: nat)
    requires NoRepeat(us) && k < |us|
    ensures forall j :: 0 <= j < |us| && j != k ==> us[j] != us[k]
  {
  }

  /** Beside the user whose turn it is, all others stay as they are. */
  method TurnAmong(o: Object, i: nat, ghost us: seq<Handle>, ghost turns: seq<Progress>, ghost moved: seq<Object?>,
                   ghost views: seq<User>, ghost logs: seq<seq<Event>>, ghost seens: seq<seq<Event>>, ghost objState: FetchState,
                   ghost length: nat)
    returns (out: Outcome, ghost p: Progress, ghost n: Object?)
    requires ObjectOk(o) && i < |o.users| && NoRepeat(us) && |turns| < |us| && o.users[i] == us[|turns|]
    requires AllReached(us, turns, logs, seens) && AllMoved(us, turns, moved) && o !in moved
    requires AllWait(us, |turns| + 1, views, logs, seens) && AllCaughtUp(us, turns, objState, length)
    modifies o`state, o`users, o`data, {o.users[i]}
    ensures AllReached(us, turns, logs, seens) && AllMoved(us, turns, moved)
    ensures AllWait(us, |turns| + 1, views, logs, seens) && AllCaughtUp(us, turns, objState, length)
    ensures p == TurnFor(old(UserOf(o.users[i])), old(o.state), old(o.data), old(o.streaming), old(o.certs), |old(o.users)|)
    ensures out == p.out && ObjectOk(o) && o.users == if p.gone then Without(old(o.users), i) else old(o.users)
    ensures var h := old(o.users)[i];
            Reached(h, p, old(h.log), old(h.seen)) && HasMoved(n, p, h) && (p.out.On? ==> CaughtUp(h, old(o.state), |o.data|))
    ensures (n != null ==> fresh(n)) && o.data == p.data && (!o.streaming ==> p.data == old(o.data))
    ensures |old(o.users)| > 1 ==> o.state == old(o.state)
  {
    NextIsApart(us, |turns|);
    hide ObjectOkBut, Reached, HasMoved, CaughtUp, Waits, TurnFor, NoRepeat, UserOf, Without;
    out, p, n := Turn(o, i);
  }

  /** What does not change during the loop: the users and what was known of them, the
      state of the object, and what the round comes to. */
  datatype Plan = Plan(us: seq<Handle>, views: seq<User>, logs: seq<seq<Event>>, seens: seq<seq<Event>>,
                       objState: FetchState, full: Round)

  /** After these turns the object has the users `now`, and the next is the `i`th. */
  predicate AreLeft(us: seq<Handle>, turns: seq<Progress>, i: nat, now: seq<Handle>) {
    |turns| <= |us| && i == |Kept(us[..|turns|], turns)| && now == Kept(us[..|turns|], turns) + us[|turns|..]
  }

  /** These turns and the rest, from the next of the users on, are the full round. */
  predicate IsFull(full: Round, turns: seq<Progress>, rest: Round) {
    turns + rest.turns == full.turns && rest.ok == full.ok
  }

  function RestFrom(plan: Plan, k: nat, data: string, streaming: bool, certs: bool, count: int): Round
    requires k <= |plan.views|
  {
    RoundOf(plan.views[k..], plan.objState, data, streaming, certs, count)
  }

  /** The loop stands before the `i`th user. */
  predicate InRound(plan: Plan, turns: seq<Progress>, i: nat, now: seq<Handle>, data: string, streaming: bool, certs: bool) {
    && |plan.us| == |plan.views| && AreLeft(plan.us, turns, i, now)
    && IsFull(plan.full, turns, RestFrom(plan, |turns|, data, streaming, certs, |now|))
  }

  /** The round has ended with these turns. */
  predicate RoundStops(plan: Plan, turns: seq<Progress>, i: nat, now: seq<Handle>) {
    AreLeft(plan.us, turns, i, now) && plan.full == Round(turns, false)
  }

  /** The `i`th user is the next one. */
  lemma NextUser(plan: Plan, turns: seq<Progress>, i: nat, now: seq<Handle>, data: string, streaming: bool, certs: bool)
    requires InRound(plan, turns, i, now, data, streaming, certs) && i < |now|
    ensures var us, k := plan.us, |turns|;
            k < |us| == |plan.views| && now[i] == us[k] && (k + 1 < |us| ==> |now| > 1)
  {
    hide RestFrom, Kept;
    assert plan.us[|turns|..][0] == plan.us[|turns|];
  }

  /** The round after the turn `p` of the `i`th user. */
  lemma NextInRound(plan: Plan, turns: seq<Progress>, i: nat, was: seq<Handle>, data: string, streaming: bool, certs: bool,
                    p: Progress, now: seq<Handle>)
    requires InRound(plan, turns, i, was, data, streaming, certs) && i < |was|
    requires |turns| < |plan.views| && p == TurnFor(plan.views[|turns|], plan.objState, data, streaming, certs, |was|)
    requires now == if p.gone then Without(was, i) else was
    ensures var i' := if p.gone then i else i + 1;
            if p.out.Stopped? then RoundStops(plan, turns + [p], i', now)
            else InRound(plan, turns + [p], i', now, p.data, streaming, certs)
  {
    hide AreLeft, IsFull, RestFrom, Without, TurnFor;
    NowLeft(plan.us, turns, was, i, now, p);
    NextRound(plan, turns, data, streaming, certs, |was|, p);
  }

  /** The users that are left, and how many of them are behind. */
  lemma NowLeft(us: seq<Handle>, turns: seq<Progress>, was: seq<Handle>, i: nat, now: seq<Handle>, p: Progress)
    requires |turns| < |us| && AreLeft(us, turns, i, was) && i < |was| && now == if p.gone then Without(was, i) else was
    ensures AreLeft(us, turns + [p], if p.gone then i else i + 1, now) && |now| == (if p.gone then |was| - 1 else |was|)
  {
    hide Kept, Without;
    UsersAfterTurn(us, |turns|, turns, p);
    KeptSnoc(us, |turns|, turns, p);
  }

  lemma NextRound(plan: Plan, turns: seq<Progress>, data: string, streaming: bool, certs: bool, count: int, p: Progress)
    requires |turns| < |plan.views| && p == TurnFor(plan.views[|turns|], plan.objState, data, streaming, certs, count)
    requires IsFull(plan.full, turns, RestFrom(plan, |turns|, data, streaming, certs, count))
    ensures if p.out.Stopped? then plan.full == Round(turns + [p], false)
            else
              var left := if p.gone then count - 1 else count;
              IsFull(plan.full, turns + [p], RestFrom(plan, |turns + [p]|, p.data, streaming, certs, left))
  {
    hide RoundOf, TurnFor;
    RoundStep(plan.views, |turns|, plan.objState, data, streaming, certs, count, turns);
  }

  /** What is known of the users after these turns. */
  ghost predicate SoFar(plan: Plan, turns: seq<Progress>, moved: seq<Object?>, length: nat)
    reads plan.us, moved
  {
    && AllReached(plan.us, turns, plan.logs, plan.seens) && AllWait(plan.us, |turns|, plan.views, plan.logs, plan.seens)
    && AllMoved(plan.us, turns, moved) && AllCaughtUp(plan.us, turns, plan.objState, length)
  }

  /** The loop stands before the `i`th user. */
  ghost predicate Going(o: Object, i: nat, plan: Plan, turns: seq<Progress>, moved: seq<Object?>)
    reads o, o.users, plan.us, moved
  {
    && ObjectOk(o) && NoRepeat(plan.us) && o !in moved
    && InRound(plan, turns, i, o.users, o.data, o.streaming, o.certs) && SoFar(plan, turns, moved, |o.data|)
    && (|turns| < |plan.us| ==> o.state == plan.objState) && (o.streaming ==> |plan.us| <= 1)
  }

  /** The loop over. */
  ghost predicate Gone(o: Object, plan: Plan, turns: seq<Progress>, moved: seq<Object?>, ok: bool)
    reads o, o.users, plan.us, moved
  {
    var us, k := plan.us, |turns|;
    && ObjectOk(o) && k <= |us| && o.users == Kept(us[..k], turns) + us[k..] && plan.full == Round(turns, ok)
    && AllReached(us, turns, plan.logs, plan.seens) && AllWait(us, k, plan.views, plan.logs, plan.seens)
    && AllMoved(us, turns, moved) && AllCaughtUp(us, turns, plan.objState, |o.data|)
  }

  ghost function PlanFor(o: Object): Plan
    reads o, o.users
  {
    Plan(o.users, UsersOf(o.users), LogsOf(o.users), SeensOf(o.users), o.state,
         RoundOf(UsersOf(o.users), o.state, o.data, o.streaming, o.certs, |o.users|))
  }

  lemma AtTheStart(o: Object)
    requires ObjectOk(o)
    ensures Going(o, 0, PlanFor(o), [], []) && PlanFor(o).us == o.users
  {
    hide RoundOf, InRound, SoFar, UsersOf, LogsOf, SeensOf, ObjectOkBut;
    var plan := PlanFor(o);
    assert !o.streaming || |plan.us| <= 1 by { OneIfStreaming(o); }
    NoRepeatIn(o);
    NothingSoFar(o.users, o.state, plan.full, |o.data|);
    StartsInRound(plan, o.data, o.streaming, o.certs);
  }

  lemma OneIfStreaming(o: Object)
    requires ObjectOk(o)
    ensures !o.streaming || |o.users| <= 1
  {
  }

  lemma NoRepeatIn(o: Object)
    requires ObjectOk(o)
    ensures NoRepeat(o.users)
  {
  }

  lemma NothingSoFar(us: seq<Handle>, state: FetchState, full: Round, length: nat)
    ensures SoFar(Plan(us, UsersOf(us), LogsOf(us), SeensOf(us), state, full), [], [], length)
  {
    hide UsersOf, LogsOf, SeensOf;
  }

  lemma StartsInRound(plan: Plan, data: string, streaming: bool, certs: bool)
    requires |plan.us| == |plan.views|
    requires plan.full == RoundOf(plan.views, plan.objState, data, streaming, certs, |plan.us|)
    ensures InRound(plan, [], 0, plan.us, data, streaming, certs)
  {
    hide RoundOf;
    assert plan.views[0..] == plan.views && plan.us[0..] == plan.us;
    assert [] + plan.us == plan.us && [] + plan.full.turns == plan.full.turns;
  }

  lemma AtTheEnd(o: Object, i: nat, plan: Plan, turns: seq<Progress>, moved: seq<Object?>)
    requires Going(o, i, plan, turns, moved) && i >= |o.users|
    ensures Gone(o, plan, turns, moved, true)
  {
    hide AllReached, AllWait, AllMoved, AllCaughtUp, ObjectOkBut, TurnOf;
    assert plan.views[|turns|..] == [];
  }

  /** One turn of the loop. */
  method OneTurn(o: Object, i: nat, ghost plan: Plan, ghost turns: seq<Progress>, ghost moved: seq<Object?>)
    returns (out: Outcome, ghost p: Progress, ghost n: Object?)
    requires Going(o, i, plan, turns, moved) && i < |o.users|
    modifies o`state, o`users, o`data, {o.users[i]}
    ensures out == p.out && (n != null ==> fresh(n)) && (p.gone ==> !out.On? && !out.Next?) && (!p.gone ==> !out.Removed?)
    ensures if out.Stopped? then Gone(o, plan, turns + [p], moved + [n], false)
            else Going(o, if p.gone then i else i + 1, plan, turns + [p], moved + [n])
  {
    hide *;
    ghost var us, k, views := plan.us, |turns|, plan.views;
    ghost var data, was := o.data, o.users;
    GoingParts(o, i, plan, turns, moved);
    NextUser(plan, turns, i, was, data, o.streaming, o.certs);
    NextWaits(us, k, views, plan.logs, plan.seens);
    out, p, n := TurnAmong(o, i, us, turns, moved, views, plan.logs, plan.seens, plan.objState, |data|);
    if o.streaming { NoneCaughtUp(us, turns, plan.objState, |o.data|); }
    NextIsReached(us, turns, plan.logs, plan.seens, moved, plan.objState, |o.data|, p, n);
    SettledTurn(p, views[k], plan.objState, data, o.streaming, o.certs, |was|);
    NextInRound(plan, turns, i, was, data, o.streaming, o.certs, p, o.users);
    TurnIsOver(o, i, plan, turns, moved, p, n);
  }

  /** After the turn, the loop goes on, or has stopped. */
  lemma TurnIsOver(o: Object, i: nat, plan: Plan, turns: seq<Progress>, moved: seq<Object?>, p: Progress, n: Object?)
    requires ObjectOk(o) && NoRepeat(plan.us) && o !in moved && o != n
    requires if p.out.Stopped? then RoundStops(plan, turns + [p], if p.gone then i else i + 1, o.users)
             else InRound(plan, turns + [p], if p.gone then i else i + 1, o.users, o.data, o.streaming, o.certs)
    requires AllReached(plan.us, turns + [p], plan.logs, plan.seens)
    requires AllWait(plan.us, |turns| + 1, plan.views, plan.logs, plan.seens)
    requires AllMoved(plan.us, turns + [p], moved + [n]) && AllCaughtUp(plan.us, turns + [p], plan.objState, |o.data|)
    requires (|turns| + 1 < |plan.us| ==> o.state == plan.objState) && (o.streaming ==> |plan.us| <= 1)
    ensures if p.out.Stopped? then Gone(o, plan, turns + [p], moved + [n], false)
            else Going(o, if p.gone then i else i + 1, plan, turns + [p], moved + [n])
  {
    hide ObjectOkBut, NoRepeat, Kept, InRound, AllReached, AllWait, AllMoved, AllCaughtUp;
  }

  lemma GoingParts(o: Object, i: nat, plan: Plan, turns: seq<Progress>, moved: seq<Object?>)
    requires Going(o, i, plan, turns, moved)
    ensures ObjectOk(o) && NoRepeat(plan.us) && o !in moved && |turns| <= |plan.us| == |plan.views|
    ensures InRound(plan, turns, i, o.users, o.data, o.streaming, o.certs)
    ensures AllReached(plan.us, turns, plan.logs, plan.seens) && AllWait(plan.us, |turns|, plan.views, plan.logs, plan.seens)
    ensures AllMoved(plan.us, turns, moved) && AllCaughtUp(plan.us, turns, plan.objState, |o.data|)
    ensures (|turns| < |plan.us| ==> o.state == plan.objState) && (o.streaming ==> |plan.us| <= 1)
  {
  }

  /** Before the first turn, nobody could have been caught up. */
  lemma NoneCaughtUp(us: seq<Handle>, turns: seq<Progress>, objState: FetchState, length: nat)
    ensures |turns| == 0 ==> AllCaughtUp(us, turns, objState, length)
  {
  }

  lemma SettledTurn(p: Progress, u: User, objState: FetchState, data: string, streaming: bool, certs: bool, count: int)
    requires p == TurnFor(u, objState, data, streaming, certs, count)
    ensures (p.gone ==> p.out.Removed? || p.out.Stopped?) && (!p.gone ==> !p.out.Removed?)
  {
    hide TurnOf;
    TurnIsSettled(Start(u.v, data, u.lost), Context(objState, streaming, certs, count == 1, u.client));
  }

  /** A handle that is gone has been removed, or has stopped the work. */
  predicate IsSettled(p: Progress) {
    (p.gone ==> p.out.Removed? || p.out.Stopped?) && (!p.gone ==> !p.out.Removed?)
  }

  lemma PartsAreSettled(p: Progress, c: Context)
    requires p.out.On? && !p.gone
    ensures IsSettled(AfterCerts(p, c)) && IsSettled(AfterHeaders(p, c))
  {
  }

  lemma LaterPartsAreSettled(p: Progress, c: Context)
    requires p.out.On? && !p.gone
    ensures IsSettled(AfterData(p, c)) && IsSettled(AfterDone(p, c))
  {
  }

  lemma TurnIsSettled(p: Progress, c: Context)
    requires p.out.On? && !p.gone
    ensures IsSettled(TurnOf(p, c))
  {
    hide AfterCerts, AfterHeaders, AfterData, AfterDone;
    PartsAreSettled(p, c);
    var p1 := AfterCerts(p, c);
    if p1.out.On? {
      PartsAreSettled(p1, c);
      var p2 := AfterHeaders(p1, c);
      if p2.out.On? {
        LaterPartsAreSettled(p2, c);
        if AfterData(p2, c).out.On? { LaterPartsAreSettled(AfterData(p2, c), c); }
      }
    }
  }

  /** llcache_object_notify_users. The users are brought up to date one after the other,
      whatever their clients answer; `turns` is how far each of them has come, and `moved`
      are the snapshots that some of them have moved to. */
  method NotifyUsers(o: Object) returns (ok: bool, ghost turns: seq<Progress>, ghost moved: seq<Object?>)
    requires ObjectOk(o)
    modifies o`state, o`users, o`data, o.users
    ensures Gone(o, old(PlanFor(o)), turns, moved, ok) && forall x :: x in moved && x != null ==> fresh(x)
  {
    ghost var plan := PlanFor(o);
    hide *;
    AtTheStart(o);
    var i := 0;
    turns, moved := [], [];
    while i < |o.users|
      invariant Going(o, i, plan, turns, moved)
      invariant forall x :: x in moved && x != null ==> fresh(x)
      decreases |plan.us| - |turns|
    {
      NextIsUser(o, i, plan, turns, moved);
      var out;
      ghost var p, n;
      out, p, n := OneTurn(o, i, plan, turns, moved);
      turns, moved := turns + [p], moved + [n];
      match out
      case On => i := i + 1;
      case Next => i := i + 1;
      case Removed =>
      case Stopped => return false, turns, moved;
    }
    AtTheEnd(o, i, plan, turns, moved);
    ok := true;
  }

  lemma NextIsUser(o: Object, i: nat, plan: Plan, turns: seq<Progress>, moved: seq<Object?>)
    requires Going(o, i, plan, turns, moved) && i < |o.users|
    ensures |turns| < |plan.us| && o.users[i] in plan.us
  {
    NextUser(plan, turns, i, o.users, o.data, o.streaming, o.certs);
    assert plan.us[|turns|] in plan.us;
  }

  ghost function LogsOf(hs: seq<Handle>): (l: seq<seq<Event>>)
    reads hs
    ensures |l| == |hs| && forall i :: 0 <= i < |hs| ==> l[i] == hs[i].log
  {
    seq(|hs|, i requires 0 <= i < |hs| reads hs => hs[i].log)
  }

  ghost function SeensOf(hs: seq<Handle>): (l: seq<seq<Event>>)
    reads hs
    ensures |l| == |hs| && forall i :: 0 <= i < |hs| ==> l[i] == hs[i].seen
  {
    seq(|hs|, i requires 0 <= i < |hs| reads hs => hs[i].seen)
  }

  // What the round means for each user

  /** Each turn is that of its user, with the data that there was and the users that were
      left. */
  lemma {:induction false} EachTurn(us: seq<User>, objState: FetchState, data: string, streaming: bool, certs: bool,
                                    count: int, k: nat)
    returns (data': string, count': int)
    requires k < |RoundOf(us, objState, data, streaming, certs, count).turns|
    ensures RoundOf(us, objState, data, streaming, certs, count).turns[k]
         == TurnFor(us[k], objState, data', streaming, certs, count')
    decreases k
  {
    hide TurnOf;
    data', count' := data, count;
    if k > 0 {
      var p := TurnFor(us[0], objState, data, streaming, certs, count);
      data', count' := EachTurn(us[1..], objState, p.data, streaming, certs, if p.gone then count - 1 else count, k - 1);
    }
  }

  /** A user that was reached, and has only answered that all is well, has seen all that
      there was to show, and is still there. */
  lemma WellUserIsCaughtUp(o: Object, plan: Plan, turns: seq<Progress>, moved: seq<Object?>, ok: bool, k: nat,
                           data: string, streaming: bool, certs: bool, count: int)
    requires Gone(o, plan, turns, moved, ok) && k < |turns|
    requires plan.full == RoundOf(plan.views, plan.objState, data, streaming, certs, count) && |plan.views| == |plan.us|
    requires AllWell(plan.views[k].client, plan.views[k].v.calls, plan.us[k].calls, false)
    ensures CaughtUp(plan.us[k], plan.objState, |o.data|) && turns[k].out.On?
  {
    hide *;
    GoneParts(o, plan, turns, moved, ok, k);
    var d, n := EachTurn(plan.views, plan.objState, data, streaming, certs, count, k);
    WellTurnIsOn(plan.views[k], plan.objState, d, streaming, certs, n);
    OneCaughtUp(plan.us, turns, plan.objState, |o.data|, k);
  }

  lemma GoneParts(o: Object, plan: Plan, turns: seq<Progress>, moved: seq<Object?>, ok: bool, k: nat)
    requires Gone(o, plan, turns, moved, ok) && k < |turns|
    ensures plan.full == Round(turns, ok) && AllCaughtUp(plan.us, turns, plan.objState, |o.data|)
    ensures |turns| <= |plan.us| && plan.us[k].calls == turns[k].v.calls
  {
    hide ObjectOkBut, RoundOf;
    assert Reached(plan.us[k], turns[k], plan.logs[k], plan.seens[k]);
  }

  lemma WellAlone(client: nat -> Answer, from: nat, to: nat, alone: bool)
    requires AllWell(client, from, to, false)
    ensures AllWell(client, from, to, alone)
  {
    forall k | from <= k < to ensures WellAt(client, k, alone) {
      assert WellAt(client, k, false);
    }
  }

  lemma WellTurnIsOn(u: User, objState: FetchState, data: string, streaming: bool, certs: bool, count: int)
    requires AllWell(u.client, u.v.calls, TurnFor(u, objState, data, streaming, certs, count).v.calls, false)
    ensures TurnFor(u, objState, data, streaming, certs, count).out.On?
  {
    hide TurnOf;
    var start, c := Start(u.v, data, u.lost), Context(objState, streaming, certs, count == 1, u.client);
    WellIffOn(start, c);
    WellAlone(u.client, u.v.calls, TurnOf(start, c).v.calls, count == 1);
  }

  lemma OneCaughtUp(us: seq<Handle>, turns: seq<Progress>, objState: FetchState, length: nat, k: nat)
    requires AllCaughtUp(us, turns, objState, length) && k < |turns| && turns[k].out.On?
    ensures CaughtUp(us[k], objState, length)
  {
  }

  // What the answers say of the round

  /** How many of these users have gone. */
  function GoneIn(turns: seq<Progress>): nat {
    if turns == [] then 0 else (if turns[0].gone then 1 else 0) + GoneIn(turns[1..])
  }

  /** The last answer of the `k`th user that was reached, if it was called at all. */
  predicate LastAnswerIs(us: seq<User>, turns: seq<Progress>, k: nat, isSo: (Answer, bool) -> bool, count: int)
    requires k < |turns| <= |us|
  {
    us[k].v.calls < turns[k].v.calls && isSo(us[k].client(turns[k].v.calls - 1), count - GoneIn(turns[..k]) == 1)
  }

  /** A turn ends as the last answer says, for the number of users that are left by then. */
  lemma {:induction false} TurnOfRound(us: seq<User>, objState: FetchState, data: string, streaming: bool, certs: bool,
                                       count: int, k: nat)
    requires k < |RoundOf(us, objState, data, streaming, certs, count).turns|
    ensures var turns := RoundOf(us, objState, data, streaming, certs, count).turns;
            && (turns[k].gone <==> LastAnswerIs(us, turns, k, Leaves, count))
            && (turns[k].out.Stopped? <==> LastAnswerIs(us, turns, k, StopsLoop, count))
    decreases k
  {
    hide TurnOf, RoundOf, Leaves, StopsLoop;
    var turns := RoundOf(us, objState, data, streaming, certs, count).turns;
    var p := TurnFor(us[0], objState, data, streaming, certs, count);
    var left := if p.gone then count - 1 else count;
    RoundIs(us, objState, data, streaming, certs, count);
    if k == 0 {
      TurnEndsAsAnswered(Start(us[0].v, data, us[0].lost), Context(objState, streaming, certs, count == 1, us[0].client));
    } else {
      var rest := RoundOf(us[1..], objState, p.data, streaming, certs, left).turns;
      TurnOfRound(us[1..], objState, p.data, streaming, certs, left, k - 1);
      GoneBehind(p, rest, k);
    }
  }

  lemma GoneBehind(p: Progress, rest: seq<Progress>, k: nat)
    requires 0 < k <= |rest|
    ensures ([p] + rest)[k] == rest[k - 1]
    ensures GoneIn(([p] + rest)[..k]) == (if p.gone then 1 else 0) + GoneIn(rest[..k - 1])
  {
    var front := ([p] + rest)[..k];
    assert front[0] == p && front[1..] == rest[..k - 1];
  }

  /** The loop serves every user just if no last answer stops it: none is an error, and none
      refuses an event for a handle that leaves. */
  lemma AllAreServedIff(us: seq<User>, objState: FetchState, data: string, streaming: bool, certs: bool, count: int)
    ensures var r := RoundOf(us, objState, data, streaming, certs, count);
            && (r.ok <==> forall k :: 0 <= k < |r.turns| ==> !LastAnswerIs(us, r.turns, k, StopsLoop, count))
            && (r.ok ==> |r.turns| == |us|)
            && forall k :: 0 <= k < |r.turns| - 1 ==> !LastAnswerIs(us, r.turns, k, StopsLoop, count)
  {
    var r := RoundOf(us, objState, data, streaming, certs, count);
    RoundStopsIff(us, objState, data, streaming, certs, count);
    hide RoundOf, LastAnswerIs;
    forall k | 0 <= k < |r.turns|
      ensures r.turns[k].out.Stopped? <==> LastAnswerIs(us, r.turns, k, StopsLoop, count)
    {
      TurnOfRound(us, objState, data, streaming, certs, count, k);
    }
    if !r.ok {
      assert r.turns[|r.turns| - 1].out.Stopped?;
    }
  }

  lemma {:induction false} KeptIff(us: seq<Handle>, turns: seq<Progress>, j: nat)
    requires NoRepeat(us) && j < |us| == |turns|
    ensures us[j] in Kept(us, turns) <==> !turns[j].gone
  {
    var k := |us| - 1;
    if j < k {
      KeptIff(us[..k], turns[..k], j);
      assert us[j] != us[k];
    } else {
      assert us[k] !in us[..k];
    }
  }

  /** After the loop, a user that was reached is gone just if its last answer says so. If
      that does not stop the loop, as when a handle is released without an error, the next
      user has been served, too. */
  lemma UserLeavesIff(o: Object, plan: Plan, turns: seq<Progress>, moved: seq<Object?>, ok: bool, k: nat,
                      data: string, streaming: bool, certs: bool)
    requires Gone(o, plan, turns, moved, ok) && k < |turns| && NoRepeat(plan.us) && |plan.views| == |plan.us|
    requires plan.full == RoundOf(plan.views, plan.objState, data, streaming, certs, |plan.us|)
    ensures turns[k].v.calls == plan.us[k].calls
    ensures plan.us[k] !in o.users <==> LastAnswerIs(plan.views, turns, k, Leaves, |plan.us|)
    ensures !LastAnswerIs(plan.views, turns, k, StopsLoop, |plan.us|) && k + 1 < |plan.us| ==> k + 1 < |turns|
    ensures ok <==> forall j :: 0 <= j < |turns| ==> !LastAnswerIs(plan.views, turns, j, StopsLoop, |plan.us|)
  {
    hide RoundOf, LastAnswerIs, Kept, AllReached, AllWait, AllMoved, AllCaughtUp, ObjectOkBut;
    GoneParts(o, plan, turns, moved, ok, k);
    AllAreServedIff(plan.views, plan.objState, data, streaming, certs, |plan.us|);
    TurnOfRound(plan.views, plan.objState, data, streaming, certs, |plan.us|, k);
    var n := |turns|;
    KeptIff(plan.us[..n], turns, k);
    assert plan.us[k] !in plan.us[n..];
  }
}
