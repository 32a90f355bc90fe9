/** The scheduling of fetches: a ring of active fetches and a ring of queued ones, with a
    limit for all and a limit for each host (content/fetch.c, utils/ring.h). A ring is
    the sequence of its elements from the head on. */
module FetchScheduler {

  datatype Option<T> = None | Some(value: T)

  /** struct fetch. An URL need not have a host. */
  class Fetch {
    const host: Option<string>
    const fetcherd: nat
    var isActive: bool

    constructor (host: Option<string>, fetcherd: nat)
      ensures this.host == host && this.fetcherd == fetcherd && !isActive
    {
      this.host, this.fetcherd, isActive := host, fetcherd, false;
    }
  }

  /** Fetches from a host in a ring. */
  function Count(ring: seq<Fetch>, host: Option<string>): nat {
    if ring == [] then 0
    else Count(ring[..|ring| - 1], host) + (if ring[|ring| - 1].host == host then 1 else 0)
  }

  /** The places of the fetches from a host. */
  ghost function PlacesOf(ring: seq<Fetch>, host: Option<string>): set<nat> {
    set i: nat | i < |ring| && ring[i].host == host
  }

  lemma {:induction false} CountIsSize(ring: seq<Fetch>, host: Option<string>)
    ensures Count(ring, host) == |PlacesOf(ring, host)|
  {
    if ring == [] {
      assert PlacesOf(ring, host) == {};
    } else {
      var n := |ring| - 1;
      CountIsSize(ring[..n], host);
      assert PlacesOf(ring, host) == PlacesOf(ring[..n], host) + if ring[n].host == host then {n} else {};
    }
  }

  lemma {:induction false} CountConcat(a: seq<Fetch>, b: seq<Fetch>, host: Option<string>)
    ensures Count(a + b, host) == Count(a, host) + Count(b, host)
  {
    if b == [] {
      assert a + b == a;
    } else {
      var n := |b| - 1;
      assert (a + b)[..|a| + n] == a + b[..n];
      CountConcat(a, b[..n], host);
    }
  }

  /** `ring` without its `i`th element. */
  function Without(ring: seq<Fetch>, i: nat): (r: seq<Fetch>)
    requires i < |ring|
    ensures |r| == |ring| - 1 && forall j :: 0 <= j < |r| ==> r[j] == ring[if j < i then j else j + 1]
  {
    ring[..i] + ring[i + 1..]
  }

  lemma WithoutCount(ring: seq<Fetch>, i: nat, host: Option<string>)
    requires i < |ring|
    ensures Count(Without(ring, i), host) <= Count(ring, host)
    ensures multiset(ring) == multiset(Without(ring, i)) + multiset{ring[i]}
  {
    CountConcat(ring[..i], ring[i + 1..], host);
    CountConcat(ring[..i] + [ring[i]], ring[i + 1..], host);
    CountConcat(ring[..i], [ring[i]], host);
    assert ring == ring[..i] + [ring[i]] + ring[i + 1..];
  }

  /** RING_COUNTBYLWCHOST */
  method CountByHost(ring: seq<Fetch>, host: Option<string>) returns (n: nat)
    ensures n == Count(ring, host)
  {
    n := 0;
    var i := 0;
    while i < |ring|
      invariant i <= |ring| && n == Count(ring[..i], host)
    {
      assert ring[..i + 1][..i] == ring[..i];
      if ring[i].host == host { n := n + 1; }
      i := i + 1;
    }
    assert ring[..i] == ring;
  }

  // ---------------------------------------------------------------------
  // The choice of a fetch
  // ---------------------------------------------------------------------

  predicate HasRoom(active: seq<Fetch>, host: Option<string>, maxPerHost: int) {
    Count(active, host) < maxPerHost
  }

  /** The first queued fetch from a host that has room: what a scan of all of them one
      by one finds. */
  function FirstWithRoom(queue: seq<Fetch>, active: seq<Fetch>, maxPerHost: int, i: nat): (k: nat)
    requires i <= |queue|
    ensures i <= k <= |queue| && (k < |queue| ==> Count(active, queue[k].host) < maxPerHost)
    ensures forall j :: i <= j < k ==> Count(active, queue[j].host) >= maxPerHost
    decreases |queue| - i
  {
    if i < |queue| && !HasRoom(active, queue[i].host, maxPerHost)
    then FirstWithRoom(queue, active, maxPerHost, i + 1) else i
  }

  /** The scan in fetch_choose_and_dispatch: it goes past all fetches that come in a row
      from a host without room. */
  method SkippingScan(queue: seq<Fetch>, active: seq<Fetch>, maxPerHost: int) returns (k: nat)
    requires queue != []
    ensures k == FirstWithRoom(queue, active, maxPerHost, 0)
  {
    k := 0;
    while k < |queue|
      invariant k <= |queue| && FirstWithRoom(queue, active, maxPerHost, 0) == FirstWithRoom(queue, active, maxPerHost, k)
    {
      var count := CountByHost(active, queue[k].host);
      if count < maxPerHost { return; }
      var sameHost := true;
      ghost var from := k;
      while sameHost && k + 1 < |queue|
        invariant from <= k < |queue| && queue[k].host == queue[from].host
        invariant FirstWithRoom(queue, active, maxPerHost, from) == FirstWithRoom(queue, active, maxPerHost, k)
        decreases |queue| - k, sameHost
      {
        sameHost := queue[k].host == queue[k + 1].host;
        if sameHost { k := k + 1; }
      }
      k := k + 1;
    }
  }

  // ---------------------------------------------------------------------
  // The scheduler
  // ---------------------------------------------------------------------

  /** The element that is put in last has no equal before it. */
  predicate NoRepeat(ring: seq<Fetch>) {
    forall i, j :: 0 <= i < j < |ring| ==> ring[i] != ring[j]
  }

  /** No limit is exceeded. */
  ghost predicate LimitsOk(active: seq<Fetch>, maxFetchers: int, maxPerHost: int) {
    && (active != [] ==> |active| <= maxFetchers)
    && (forall host :: HostOk(active, host, maxPerHost))
  }

  predicate HostOk(active: seq<Fetch>, host: Option<string>, maxPerHost: int) {
    Count(active, host) > 0 ==> Count(active, host) <= maxPerHost
  }

  lemma AppendKeepsLimits(active: seq<Fetch>, f: Fetch, maxFetchers: int, maxPerHost: int)
    requires LimitsOk(active, maxFetchers, maxPerHost) && |active| < maxFetchers
    requires HasRoom(active, f.host, maxPerHost)
    ensures LimitsOk(active + [f], maxFetchers, maxPerHost)
  {
    assert (active + [f])[..|active|] == active;
    forall host ensures HostOk(active + [f], host, maxPerHost) {
      assert HostOk(active, host, maxPerHost);
    }
  }

  lemma RemoveKeepsLimits(active: seq<Fetch>, i: nat, maxFetchers: int, maxPerHost: int)
    requires LimitsOk(active, maxFetchers, maxPerHost) && i < |active|
    ensures LimitsOk(Without(active, i), maxFetchers, maxPerHost)
  {
    forall host ensures HostOk(Without(active, i), host, maxPerHost) {
      assert HostOk(active, host, maxPerHost);
      WithoutCount(active, i, host);
    }
  }

  const MAX_FETCHERS := 10

  /** The fetches that use a fetcher. */
  ghost function Uses(live: set<Fetch>, d: nat): set<Fetch> {
    set f | f in live && f.fetcherd == d
  }

  lemma UsesWithout(live: set<Fetch>, f: Fetch)
    requires f in live
    ensures forall d: nat :: |Uses(live, d)| == |Uses(live - {f}, d)| + (if d == f.fetcherd then 1 else 0)
  {
    forall d: nat ensures |Uses(live, d)| == |Uses(live - {f}, d)| + (if d == f.fetcherd then 1 else 0) {
      if d == f.fetcherd {
        assert Uses(live, d) == Uses(live - {f}, d) + {f};
      } else {
        assert Uses(live, d) == Uses(live - {f}, d);
      }
    }
  }

  /** How the search for more work ends. */
  datatype Stop = Empty | Full | NoRoom | StartFailed

  /** The rings after dispatching, the number of times that a fetcher has been asked to
      start a fetch, and why dispatching ended. */
  datatype Outcome = Outcome(queue: seq<Fetch>, active: seq<Fetch>, calls: nat, stop: Stop)

  /** What dispatching does, if `answers(i)` is what a fetcher says the `i`th time: one
      by one, the first queued fetch from a host with room is started. */
  function Dispatched(queue: seq<Fetch>, active: seq<Fetch>, maxFetchers: int, maxPerHost: int,
                      answers: nat -> bool, calls: nat): (o: Outcome)
    ensures o.calls >= calls
    decreases |queue|
  {
    if queue == [] then Outcome(queue, active, calls, Empty)
    else if |active| >= maxFetchers then Outcome(queue, active, calls, Full)
    else
      var k := FirstWithRoom(queue, active, maxPerHost, 0);
      if k == |queue| then Outcome(queue, active, calls, NoRoom)
      else if !answers(calls) then Outcome(Without(queue, k) + [queue[k]], active, calls + 1, StartFailed)
      else Dispatched(Without(queue, k), active + [queue[k]], maxFetchers, maxPerHost, answers, calls + 1)
  }

  lemma DispatchedLast(queue: seq<Fetch>, active: seq<Fetch>, maxFetchers: int, maxPerHost: int,
                       answers: nat -> bool, calls: nat)
    requires queue == [] || |active| >= maxFetchers
    ensures var o := Dispatched(queue, active, maxFetchers, maxPerHost, answers, calls);
            o.queue == queue && o.active == active && o.calls == calls
  {
  }

  lemma DispatchedNext(queue: seq<Fetch>, active: seq<Fetch>, maxFetchers: int, maxPerHost: int,
                       answers: nat -> bool, calls: nat)
    requires queue != [] && |active| < maxFetchers
    ensures var o, k := Dispatched(queue, active, maxFetchers, maxPerHost, answers, calls), FirstWithRoom(queue, active, maxPerHost, 0);
            if k == |queue| then o.queue == queue && o.active == active && o.calls == calls && o.stop.NoRoom?
            else if answers(calls) then
              && |Without(queue, k)| == |queue| - 1
              && o == Dispatched(Without(queue, k), active + [queue[k]], maxFetchers, maxPerHost, answers, calls + 1)
            else o.queue == Without(queue, k) + [queue[k]] && o.active == active && o.calls == calls + 1 && o.stop.StartFailed?
  {
    hide FirstWithRoom, Without;
  }

  /** The reason for which dispatching ended holds of the rings. If a fetch did not start,
      that was the last one tried: it is at the end of the queue, and there was room. */
  predicate IsStopped(o: Outcome, maxFetchers: int, maxPerHost: int, answers: nat -> bool) {
    match o.stop
    case Empty => o.queue == []
    case Full => o.queue != [] && |o.active| >= maxFetchers
    case NoRoom => o.queue != [] && forall i :: 0 <= i < |o.queue| ==> Count(o.active, o.queue[i].host) >= maxPerHost
    case StartFailed =>
      && o.calls > 0 && !answers(o.calls - 1) && |o.active| < maxFetchers
      && o.queue != [] && Count(o.active, o.queue[|o.queue| - 1].host) < maxPerHost
  }

  /** Dispatching ends for the reason given. */
  lemma {:induction false} DispatchingStops(queue: seq<Fetch>, active: seq<Fetch>, maxFetchers: int, maxPerHost: int,
                                            answers: nat -> bool, calls: nat)
    ensures IsStopped(Dispatched(queue, active, maxFetchers, maxPerHost, answers, calls), maxFetchers, maxPerHost, answers)
    decreases |queue|
  {
    hide FirstWithRoom, HasRoom;
    if queue != [] && |active| < maxFetchers {
      var k := FirstWithRoom(queue, active, maxPerHost, 0);
      if k < |queue| && answers(calls) {
        DispatchingStops(Without(queue, k), active + [queue[k]], maxFetchers, maxPerHost, answers, calls + 1);
      }
    }
  }

  /** Just those fetches have become active that were asked to start and did. */
  lemma {:induction false} DispatchingStarts(queue: seq<Fetch>, active: seq<Fetch>, maxFetchers: int, maxPerHost: int,
                                             answers: nat -> bool, calls: nat)
    ensures var o := Dispatched(queue, active, maxFetchers, maxPerHost, answers, calls);
            && active <= o.active && o.calls - calls == |o.active| - |active| + (if o.stop.StartFailed? then 1 else 0)
            && forall i :: calls <= i < calls + |o.active| - |active| ==> answers(i)
    decreases |queue|
  {
    if queue != [] && |active| < maxFetchers {
      hide Dispatched, FirstWithRoom, Without;
      DispatchedNext(queue, active, maxFetchers, maxPerHost, answers, calls);
      var k := FirstWithRoom(queue, active, maxPerHost, 0);
      if k < |queue| && answers(calls) {
        DispatchingStarts(Without(queue, k), active + [queue[k]], maxFetchers, maxPerHost, answers, calls + 1);
      }
    }
  }

  /** No fetch is lost, and none doubled. */
  lemma {:induction false} DispatchingKeepsAll(queue: seq<Fetch>, active: seq<Fetch>, maxFetchers: int, maxPerHost: int,
                                               answers: nat -> bool, calls: nat)
    ensures var o := Dispatched(queue, active, maxFetchers, maxPerHost, answers, calls);
            multiset(o.queue) + multiset(o.active) == multiset(queue) + multiset(active)
    decreases |queue|
  {
    hide FirstWithRoom, HasRoom;
    if queue != [] && |active| < maxFetchers {
      var k := FirstWithRoom(queue, active, maxPerHost, 0);
      if k < |queue| {
        WithoutCount(queue, k, None);
        if answers(calls) {
          DispatchingKeepsAll(Without(queue, k), active + [queue[k]], maxFetchers, maxPerHost, answers, calls + 1);
        }
      }
    }
  }

  /** The first free slot `d` has been taken for a scheme, and no other. */
  predicate TakesSlot(refs: seq<int>, refs': seq<int>, schemes: seq<string>, schemes': seq<string>, d: nat, scheme: string) {
    && d < |refs| == |schemes| && (forall i :: 0 <= i < d ==> refs[i] != 0) && refs[d] == 0
    && refs' == refs[d := 1] && schemes' == schemes[d := scheme]
  }

  class Scheduler {
    const maxFetchers: int
    const maxPerHost: int
    var queue: seq<Fetch>
    var active: seq<Fetch>
    /** What fetchers say when they are asked to start a fetch, each time that they are,
        and how often they have been. */
    const answers: nat -> bool
    var calls: nat

    const refs: array<int>
    const schemes: array<string>
    /** The fetches that have been started and not been freed, and for each fetcher
        whether it holds a reference to itself. */
    ghost var live: set<Fetch>
    ghost var own: seq<nat>

    constructor (maxFetchers: int, maxPerHost: int, answers: nat -> bool)
      ensures Valid() && RefsOk() && queue == [] && active == [] && calls == 0 && this.answers == answers
      ensures this.maxFetchers == maxFetchers && this.maxPerHost == maxPerHost && fresh(refs) && fresh(schemes)
    {
      this.answers, calls := answers, 0;
      this.maxFetchers, this.maxPerHost, queue, active := maxFetchers, maxPerHost, [], [];
      refs := new int[MAX_FETCHERS](_ => 0);
      schemes := new string[MAX_FETCHERS](_ => "");
      live, own := {}, seq(MAX_FETCHERS, _ => 0);
    }

    /** Each fetch is in one ring, at one place, and knows in which. */
    ghost predicate RingsOk()
      reads this`queue, this`active, queue, active
    {
      && NoRepeat(queue) && NoRepeat(active)
      && (forall i :: 0 <= i < |queue| ==> !queue[i].isActive)
      && (forall i :: 0 <= i < |active| ==> active[i].isActive)
    }

    ghost predicate Valid()
      reads this`queue, this`active, queue, active
    {
      RingsOk() && LimitsOk(active, maxFetchers, maxPerHost)
    }

    ghost function All(): multiset<Fetch>
      reads this
    {
      multiset(queue) + multiset(active)
    }

    /** Ask the fetcher to start a fetch, which may fail. */
    method Start(f: Fetch) returns (ok: bool)
      modifies this`calls
      ensures ok == answers(old(calls)) && calls == old(calls) + 1
    {
      ok := answers(calls);
      calls := calls + 1;
    }

    /** Take the `k`th fetch out of the queue. */
    method TakeOut(k: nat) returns (f: Fetch)
      requires Valid() && k < |queue|
      modifies this`queue
      ensures Valid() && f == old(queue)[k]
      ensures queue == Without(old(queue), k) && multiset(queue) + multiset{f} == multiset(old(queue))
      ensures f !in queue && f !in active && !f.isActive
    {
      f := queue[k];
      forall i | 0 <= i < |active| ensures active[i] != f {
        assert active[i].isActive != f.isActive;
      }
      WithoutCount(queue, k, None);
      queue := Without(queue, k);
    }

    /** fetch_dispatch_job, for the `k`th queued fetch. */
    method DispatchJob(k: nat) returns (ok: bool)
      requires Valid() && k < |queue| && |active| < maxFetchers && HasRoom(active, queue[k].host, maxPerHost)
      modifies this`queue, this`active, this`calls, {queue[k]}`isActive
      ensures Valid() && All() == old(All()) && forall i :: 0 <= i < |queue| ==> queue[i] in old(queue)
      ensures ok == answers(old(calls)) && calls == old(calls) + 1
      ensures var f := old(queue)[k];
              if ok then queue == Without(old(queue), k) && active == old(active) + [f]
              else queue == Without(old(queue), k) + [f] && active == old(active)
    {
      hide RingsOk, LimitsOk, HasRoom, Without;
      var f := TakeOut(k);
      ok := Start(f);
      if !ok {
        PutBack(f);
      } else {
        Activate(f);
      }
    }

    /** A fetch has not started. */
    method PutBack(f: Fetch)
      requires Valid() && f !in queue && f !in active && !f.isActive
      modifies this`queue
      ensures Valid() && queue == old(queue) + [f]
    {
      queue := queue + [f];
    }

    /** A fetch has started. */
    method Activate(f: Fetch)
      requires Valid() && |active| < maxFetchers && HasRoom(active, f.host, maxPerHost)
      requires f !in queue && f !in active
      modifies this`active, f`isActive
      ensures Valid() && active == old(active) + [f]
    {
      AppendKeepsLimits(active, f, maxFetchers, maxPerHost);
      active := active + [f];
      f.isActive := true;
    }

    /** What dispatching will do. */
    ghost function Outlook(): Outcome
      reads this
    {
      Dispatched(queue, active, maxFetchers, maxPerHost, answers, calls)
    }

    /** fetch_choose_and_dispatch: the first queued fetch from a host with room is asked to
        start. It fails if there is none, or if that does not start. */
    method ChooseAndDispatch() returns (ok: bool)
      requires Valid() && queue != [] && |active| < maxFetchers
      modifies this`queue, this`active, this`calls, queue`isActive
      ensures Valid() && All() == old(All()) && forall i :: 0 <= i < |queue| ==> queue[i] in old(queue)
      ensures var q, a := old(queue), old(active);
              var k := FirstWithRoom(q, a, maxPerHost, 0);
              && (ok <==> k < |q| && answers(old(calls)))
              && calls == old(calls) + (if k < |q| then 1 else 0)
              && queue == (if k == |q| then q else if ok then Without(q, k) else Without(q, k) + [q[k]])
              && active == (if ok then a + [q[k]] else a)
    {
      var k := SkippingScan(queue, active, maxPerHost);
      if k == |queue| {
        return false;
      }
      ok := DispatchJob(k);
    }

    /** fetch_dispatch_jobs. It ends when nothing is queued, when no more fetches may be
        active, when no queued fetch has room, or when one did not start. */
    method DispatchJobs() returns (any: bool)
      requires Valid()
      modifies this`queue, this`active, this`calls, queue`isActive
      ensures Valid() && All() == old(All())
      ensures var o := old(Outlook());
              && queue == o.queue && active == o.active && calls == o.calls
              && IsStopped(o, maxFetchers, maxPerHost, answers)
      ensures any == (active != [])
    {
      hide Valid, All, Dispatched, IsStopped, FirstWithRoom, HasRoom, Without;
      var queued, running := |queue|, |active|;
      ghost var goal := Outlook();
      DispatchingStops(queue, active, maxFetchers, maxPerHost, answers, calls);
      var ok := true;
      while queued != 0 && running < maxFetchers && ok
        invariant Valid() && queued == |queue| && running == |active| && All() == old(All())
        invariant forall i :: 0 <= i < |queue| ==> queue[i] in old(queue)
        invariant if ok then Outlook() == goal else queue == goal.queue && active == goal.active && calls == goal.calls
        decreases queued, ok
      {
        DispatchedNext(queue, active, maxFetchers, maxPerHost, answers, calls);
        ok := ChooseAndDispatch();
        if ok {
          queued, running := queued - 1, running + 1;
        }
      }
      if ok { DispatchedLast(queue, active, maxFetchers, maxPerHost, answers, calls); }
      any := running > 0;
    }

    // -------------------------------------------------------------------
    // Fetches come and go
    // -------------------------------------------------------------------

    /** Each fetcher counts the fetches that use it. */
    ghost predicate RefsOk()
      reads this, refs
    {
      && refs.Length == MAX_FETCHERS && schemes.Length == MAX_FETCHERS && |own| == MAX_FETCHERS
      && (forall d :: 0 <= d < MAX_FETCHERS ==> refs[d] == own[d] + |Uses(live, d)|)
      && (forall f :: f in live ==> f.fetcherd < MAX_FETCHERS)
      && (forall f :: f in All() ==> f in live)
    }

    /** get_fetcher_for_scheme */
    method GetFetcher(scheme: string) returns (d: int)
      requires RefsOk()
      ensures d == -1 || (0 <= d < MAX_FETCHERS && refs[d] > 0 && schemes[d] == scheme)
      ensures d == -1 ==> forall i :: 0 <= i < MAX_FETCHERS ==> !(refs[i] > 0 && schemes[i] == scheme)
    {
      d := 0;
      while d < MAX_FETCHERS
        invariant 0 <= d <= MAX_FETCHERS
        invariant forall i :: 0 <= i < d ==> !(refs[i] > 0 && schemes[i] == scheme)
      {
        if refs[d] > 0 && schemes[d] == scheme { return; }
        d := d + 1;
      }
      d := -1;
    }

    /** fetcher_add. Whether the fetcher can be initialised is up to it. */
    method AddFetcher(scheme: string, initialises: bool) returns (ok: bool)
      requires Valid() && RefsOk()
      modifies refs, schemes, this`own
      ensures Valid() && RefsOk()
      ensures ok <==> initialises && exists d :: 0 <= d < MAX_FETCHERS && old(refs[d]) == 0
      ensures !ok ==> refs[..] == old(refs[..]) && schemes[..] == old(schemes[..])
      ensures ok ==> exists d: nat :: d < MAX_FETCHERS && TakesSlot(old(refs[..]), refs[..], old(schemes[..]), schemes[..], d, scheme)
    {
      var d := 0;
      while d < MAX_FETCHERS && refs[d] != 0
        invariant 0 <= d <= MAX_FETCHERS && forall i :: 0 <= i < d ==> refs[i] != 0
      {
        d := d + 1;
      }
      if d == MAX_FETCHERS || !initialises { return false; }
      schemes[d] := scheme;
      refs[d] := refs[d] + 1;
      own := own[d := own[d] + 1];
      ok := true;
      assert TakesSlot(old(refs[..]), refs[..], old(schemes[..]), schemes[..], d, scheme);
    }

    /** The new fetch is queued. */
    method Enqueue(host: Option<string>, d: nat) returns (f: Fetch)
      requires Valid() && RefsOk() && d < MAX_FETCHERS
      modifies this`queue, this`live, refs
      ensures Valid() && RefsOk() && fresh(f) && f.host == host && f.fetcherd == d
      ensures queue == old(queue) + [f] && live == old(live) + {f} && refs[d] == old(refs[d]) + 1
    {
      f := new Fetch(host, d);
      UsesWithout(live + {f}, f);
      assert live + {f} - {f} == live;
      refs[d] := refs[d] + 1;
      live := live + {f};
      queue := queue + [f];
    }

    /** Is there a fetcher for the scheme? */
    predicate HasFetcher(scheme: string)
      requires refs.Length == MAX_FETCHERS && schemes.Length == MAX_FETCHERS
      reads this, refs, schemes
    {
      exists i :: 0 <= i < MAX_FETCHERS && refs[i] > 0 && schemes[i] == scheme
    }

    /** fetch_start. Whether the fetcher can set up a fetch for the URL is up to it. */
    method FetchStart(scheme: string, host: Option<string>, setsUp: bool) returns (f: Fetch?)
      requires Valid() && RefsOk()
      modifies this`queue, this`active, this`calls, this`live, refs, queue`isActive
      ensures Valid() && RefsOk()
      ensures f == null <==> !old(HasFetcher(scheme)) || !setsUp
      ensures f == null ==> refs[..] == old(refs[..]) && live == old(live) && queue == old(queue) && active == old(active)
      ensures f != null ==>
                && fresh(f) && f.host == host && live == old(live) + {f} && All() == old(All()) + multiset{f}
                && old(refs[..])[f.fetcherd] > 0 && schemes[f.fetcherd] == scheme && refs[f.fetcherd] == old(refs[..])[f.fetcherd] + 1
      ensures f != null ==>
                var o := Dispatched(old(queue) + [f], old(active), maxFetchers, maxPerHost, answers, old(calls));
                && queue == o.queue && active == o.active && calls == o.calls
                && IsStopped(o, maxFetchers, maxPerHost, answers)
    {
      hide RingsOk, LimitsOk, IsStopped, Dispatched;
      var d := GetFetcher(scheme);
      if d == -1 || !setsUp { return null; }
      f := Enqueue(host, d);
      assert All() == old(All()) + multiset{f};
      var any := DispatchJobs();
    }

    /** Take the `i`th fetch out of the active ones. */
    method TakeOutActive(i: nat)
      requires Valid() && i < |active|
      modifies this`active
      ensures Valid() && active == Without(old(active), i)
      ensures multiset(active) + multiset{old(active)[i]} == multiset(old(active))
      ensures old(active)[i] !in queue && old(active)[i] !in active
    {
      var f := active[i];
      forall j | 0 <= j < |queue| ensures queue[j] != f {
        assert queue[j].isActive != f.isActive;
      }
      WithoutCount(active, i, None);
      RemoveKeepsLimits(active, i, maxFetchers, maxPerHost);
      active := Without(active, i);
    }

    /** Take a fetch out of the ring that it is in. */
    method TakeOutOfRing(f: Fetch)
      requires Valid() && f in All()
      modifies this`queue, this`active
      ensures Valid() && All() + multiset{f} == old(All()) && f !in All()
    {
      if f.isActive {
        assert f !in queue;
        var i := IndexOf(active, f);
        TakeOutActive(i);
      } else {
        assert f !in active;
        var i := IndexOf(queue, f);
        var g := TakeOut(i);
      }
    }

    /** fetch_remove_from_queues */
    method RemoveFromQueues(f: Fetch)
      requires Valid() && RefsOk() && f in All()
      modifies this`queue, this`active
      ensures Valid() && RefsOk() && All() + multiset{f} == old(All()) && f !in All() && f in live && live == old(live)
    {
      hide Valid;
      TakeOutOfRing(f);
      assert forall g :: g in All() ==> g in old(All());
    }

    /** fetch_free. The fetcher that the fetch used was still there; it may go now, if no
        other fetch uses it. */
    method FetchFree(f: Fetch) returns (finalised: bool)
      requires Valid() && RefsOk() && f in live && f !in All()
      modifies this`live, refs
      ensures Valid() && RefsOk() && live == old(live) - {f} && old(refs[f.fetcherd]) > 0
      ensures refs[..] == old(refs[..])[f.fetcherd := old(refs[..])[f.fetcherd] - 1]
      ensures finalised <==> refs[f.fetcherd] == 0
      ensures finalised ==> forall g :: g in live ==> g.fetcherd != f.fetcherd
    {
      var d := f.fetcherd;
      UsesWithout(live, f);
      refs[d] := refs[d] - 1;
      live := live - {f};
      finalised := refs[d] == 0;
      forall g | g in live && finalised ensures g.fetcherd != d {
        assert |Uses(live, d)| == 0 && g !in Uses(live, d);
      }
    }
  }

  method IndexOf(ring: seq<Fetch>, f: Fetch) returns (i: nat)
    requires f in ring
    ensures i < |ring| && ring[i] == f
  {
    i := 0;
    while ring[i] != f
      invariant i < |ring| && f in ring[i..]
      decreases |ring| - i
    {
      i := i + 1;
    }
  }
}
