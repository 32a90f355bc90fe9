/** How the memory of stored objects is held over a run: each store and fetch takes a
    reference, each release gives one back (content/fs_backing_store.c). */
module HeldMemory {
  import opened StoreDisk
  import opened StoreSpec
  import opened BackingStore

  /** A use of an element. */
  datatype Use = Fetching(u: Url, k: Kind, now: int) | Releasing(u: Url, k: Kind, now: int)

  predicate IsUseOf(s: Use, u: Url, k: Kind) {
    s.u == u && s.k == k
  }

  /** The store after a use, as fetch and release leave it. */
  function AfterUse(v: View, hash: Url -> nat, s: Use): View {
    if s.u !in v.entries then v
    else if s.Fetching? then v.(entries := v.entries[s.u := FetchEntry(v, hash, s.u, s.k, s.now)])
    else ReleasedView(v, hash, s.u, s.k, s.now)
  }

  function AfterUses(v: View, hash: Url -> nat, run: seq<Use>): View {
    if run == [] then v else AfterUse(AfterUses(v, hash, run[..|run| - 1]), hash, run[|run| - 1])
  }

  /** What the count of references should be after a run. */
  function Balance(refs: nat, run: seq<Use>, u: Url, k: Kind): nat {
    if run == [] then refs
    else
      var s, n := run[|run| - 1], Balance(refs, run[..|run| - 1], u, k);
      if !IsUseOf(s, u, k) then n
      else if s.Fetching? then n + 1
      else if n > 0 then n - 1 else 0
  }

  /** How often the element is fetched, or released. */
  function Count(run: seq<Use>, u: Url, k: Kind, fetching: bool): nat {
    if run == [] then 0
    else
      var s := run[|run| - 1];
      Count(run[..|run| - 1], u, k, fetching) + (if IsUseOf(s, u, k) && s.Fetching? == fetching then 1 else 0)
  }

  ghost function Held(v: View, u: Url, k: Kind): nat {
    if u in v.entries then References(v, u, k) else 0
  }

  /** At no time are there more references than can be counted. */
  ghost predicate CanCount(v: View, run: seq<Use>) {
    forall n, u, k :: 0 <= n <= |run| ==> Balance(Held(v, u, k), run[..n], u, k) < REF_LIMIT
  }

  /** The element was stored, and its entry has not been invalidated. */
  ghost predicate IsThere(v: View, hash: Url -> nat, u: Url, k: Kind) {
    u in v.entries && !v.entries[u].invalid && IsStored(v, hash, u, k)
  }

  /** No element has more references than the run accounts for, and one that was stored has
      just as many. */
  ghost predicate Balanced(v: View, w: View, hash: Url -> nat, run: seq<Use>) {
    && Inv(w, hash)
    && (forall u, k :: Held(w, u, k) <= Balance(Held(v, u, k), run, u, k))
    && (forall u, k :: IsThere(v, hash, u, k) ==>
          IsThere(w, hash, u, k) && Held(w, u, k) == Balance(Held(v, u, k), run, u, k))
  }

  /** From `v` to `w` the count is changed by one if the use is one of this element; for a
      fetch, if the element was stored. */
  ghost predicate IsCounted(v: View, w: View, hash: Url -> nat, s: Use, u: Url, k: Kind) {
    var n := Held(v, u, k);
    && (!IsUseOf(s, u, k) ==> Held(w, u, k) == n)
    && (IsUseOf(s, u, k) && s.Fetching? ==> Held(w, u, k) <= n + 1)
    && (IsUseOf(s, u, k) && s.Releasing? ==> Held(w, u, k) == if n > 0 then n - 1 else 0)
    && (IsThere(v, hash, u, k) && IsUseOf(s, u, k) && s.Fetching? ==> Held(w, u, k) == n + 1)
    && (IsThere(v, hash, u, k) ==> IsThere(w, hash, u, k))
  }

  lemma UseOfNone(v: View, hash: Url -> nat, s: Use, u: Url, k: Kind)
    requires s.u !in v.entries
    ensures IsCounted(v, AfterUse(v, hash, s), hash, s, u, k)
  {
  }

  /** If an element is as it was, but for the memory, it is still there. */
  lemma StillThere(v: View, w: View, hash: Url -> nat, u: Url, k: Kind)
    requires IsThere(v, hash, u, k) && u in w.entries && IsStored(w, hash, u, k)
    requires w.entries[u].invalid == v.entries[u].invalid
    ensures IsThere(w, hash, u, k)
  {
  }

  lemma SameDisc(v: View, w: View, hash: Url -> nat, u: Url, k: Kind)
    requires u in v.entries && u in w.entries && IsStored(v, hash, u, k) && w.disk == v.disk && w.last == v.last
    requires w.entries[u].Get(k).size == v.entries[u].Get(k).size && w.entries[u].Get(k).block == v.entries[u].Get(k).block
    ensures IsStored(w, hash, u, k)
  {
  }

  /** What was stored to other elements is still there when an entry is removed. */
  lemma RemovedKeepsStored(v: View, hash: Url -> nat, gone: Url, u: Url, k: Kind)
    requires Inv(v, hash) && gone in v.entries && u in v.entries && u != gone && IsStored(v, hash, u, k)
    ensures IsStored(Removed(v, hash, gone), hash, u, k)
  {
    assert Distinct(v, hash, gone, u);
    hide Inv, Distinct;
    var now := Removed(v, hash, gone);
    assert now.disk.blocks == v.disk.blocks && now.entries[u] == v.entries[u];
    assert now.Read(hash, u, k) == v.Read(hash, u, k);
  }

  lemma ReleaseKeepsStored(v: View, hash: Url -> nat, s: Use, u: Url, k: Kind)
    requires Inv(v, hash) && s.u in v.entries && u in v.entries && IsStored(v, hash, u, k)
    requires u in ReleasedView(v, hash, s.u, s.k, s.now).entries
    ensures IsStored(ReleasedView(v, hash, s.u, s.k, s.now), hash, u, k)
  {
    ReleaseKeepsInv(v, hash, s.u, s.k, s.now);
    hide Inv, IsStored, Removed;
    var x := ReleasedEntry(Touched(v.entries[s.u], s.now), s.k);
    var w, z := v.(entries := v.entries[s.u := x]), ReleasedView(v, hash, s.u, s.k, s.now);
    SameDisc(v, w, hash, u, k);
    if x.invalid && !x.InMemory() {
      RemovedEntries(w, hash, s.u);
      RemovedKeepsStored(w, hash, s.u, u, k);
    } else {
      SameDisc(w, z, hash, u, k);
    }
  }

  lemma RemovedEntries(v: View, hash: Url -> nat, u: Url)
    requires u in v.entries
    ensures Removed(v, hash, u).entries == v.entries - {u}
  {
  }

  lemma FetchChanges(v: View, hash: Url -> nat, s: Use, u: Url, k: Kind)
    requires Inv(v, hash) && s.Fetching? && s.u in v.entries && Held(v, s.u, s.k) + 1 < REF_LIMIT
    ensures IsCounted(v, AfterUse(v, hash, s), hash, s, u, k)
  {
    hide Inv, FetchEntry, FetchResult, IsStored;
    FetchIsLast(v, hash, s.u, s.k);
    FetchedIsHeld(v, hash, s.u, s.k, s.now);
    if IsThere(v, hash, u, k) {
      SameDisc(v, AfterUse(v, hash, s), hash, u, k);
      StillThere(v, AfterUse(v, hash, s), hash, u, k);
    }
  }

  lemma ReleaseChanges(v: View, hash: Url -> nat, s: Use, u: Url, k: Kind)
    requires Inv(v, hash) && s.Releasing? && s.u in v.entries
    ensures IsCounted(v, AfterUse(v, hash, s), hash, s, u, k)
  {
    hide Inv, ReleasedView, IsStored;
    ReleasedIsHeld(v, hash, s.u, s.k, s.now);
    if IsThere(v, hash, u, k) {
      ReleaseKeepsStored(v, hash, s, u, k);
      StillThere(v, AfterUse(v, hash, s), hash, u, k);
    }
  }

  /** One use changes the count by one, and no other count. */
  lemma UseChanges(v: View, hash: Url -> nat, s: Use, u: Url, k: Kind)
    requires Inv(v, hash) && (s.u in v.entries && s.Fetching? ==> Held(v, s.u, s.k) + 1 < REF_LIMIT)
    ensures IsCounted(v, AfterUse(v, hash, s), hash, s, u, k)
  {
    hide Inv, IsThere, AfterUse, Held;
    if s.u !in v.entries {
      UseOfNone(v, hash, s, u, k);
    } else if s.Fetching? {
      FetchChanges(v, hash, s, u, k);
    } else {
      ReleaseChanges(v, hash, s, u, k);
    }
  }

  lemma UseKeepsInv(v: View, hash: Url -> nat, s: Use)
    requires Inv(v, hash) && (s.u in v.entries && s.Fetching? ==> Held(v, s.u, s.k) + 1 < REF_LIMIT)
    ensures Inv(AfterUse(v, hash, s), hash)
  {
    if s.u in v.entries {
      if s.Fetching? {
        FetchBelowLimit(v, hash, s.u, s.k, s.now);
      } else {
        ReleaseKeepsInv(v, hash, s.u, s.k, s.now);
        var w := v.(entries := v.entries[s.u := ReleasedEntry(Touched(v.entries[s.u], s.now), s.k)]);
        InvalidatedKeepsInv(w, hash, s.u);
      }
    }
  }

  /** Over any run, counts of references are what was taken and given back. */
  lemma {:induction false} RunIsBalanced(v: View, hash: Url -> nat, run: seq<Use>)
    requires Inv(v, hash) && CanCount(v, run)
    ensures Balanced(v, AfterUses(v, hash, run), hash, run)
    decreases |run|
  {
    if run != [] {
      hide Inv, IsThere, AfterUse;
      var n := |run| - 1;
      var front, s := run[..n], run[n];
      FrontCanCount(v, run);
      RunIsBalanced(v, hash, front);
      var w := AfterUses(v, hash, front);
      assert run[..n + 1] == run;
      assert s.Fetching? ==> Balance(Held(v, s.u, s.k), run, s.u, s.k) == Balance(Held(v, s.u, s.k), front, s.u, s.k) + 1;
      UseKeepsInv(w, hash, s);
      forall u, k
        ensures Held(AfterUse(w, hash, s), u, k) <= Balance(Held(v, u, k), run, u, k)
        ensures IsThere(v, hash, u, k) ==>
                  && IsThere(AfterUse(w, hash, s), hash, u, k)
                  && Held(AfterUse(w, hash, s), u, k) == Balance(Held(v, u, k), run, u, k)
      {
        UseChanges(w, hash, s, u, k);
      }
    }
  }

  lemma FrontCanCount(v: View, run: seq<Use>)
    requires run != [] && CanCount(v, run)
    ensures CanCount(v, run[..|run| - 1])
  {
    var front := run[..|run| - 1];
    forall n, u, k | 0 <= n <= |front| ensures Balance(Held(v, u, k), front[..n], u, k) < REF_LIMIT {
      assert front[..n] == run[..n];
    }
  }

  /** Nothing is released more often than it was stored or fetched. */
  ghost predicate NeverTooMany(refs: nat, run: seq<Use>, u: Url, k: Kind) {
    forall n :: 0 <= n <= |run| ==> Count(run[..n], u, k, false) <= refs + Count(run[..n], u, k, true)
  }

  lemma {:induction false} BalanceCounts(refs: nat, run: seq<Use>, u: Url, k: Kind)
    requires NeverTooMany(refs, run, u, k)
    ensures Balance(refs, run, u, k) + Count(run, u, k, false) == refs + Count(run, u, k, true)
  {
    if run != [] {
      var front := run[..|run| - 1];
      forall n | 0 <= n <= |front| ensures Count(front[..n], u, k, false) <= refs + Count(front[..n], u, k, true) {
        assert front[..n] == run[..n];
      }
      BalanceCounts(refs, front, u, k);
      assert run[..|run|] == run;
    }
  }

  /** After as many releases as there were stores and fetches, the memory is gone, and no
      sooner. */
  lemma AllGivenBackIff(v: View, hash: Url -> nat, run: seq<Use>, u: Url, k: Kind)
    requires Inv(v, hash) && CanCount(v, run) && IsThere(v, hash, u, k) && NeverTooMany(Held(v, u, k), run, u, k)
    ensures var w := AfterUses(v, hash, run);
            && u in w.entries
            && (w.entries[u].Get(k).heap <==> Count(run, u, k, false) < Held(v, u, k) + Count(run, u, k, true))
  {
    RunIsBalanced(v, hash, run);
    BalanceCounts(Held(v, u, k), run, u, k);
    var w := AfterUses(v, hash, run);
    assert IsThere(w, hash, u, k) && ElemOk(w, hash, u, k);
  }

  /** Memory that has been given back does not make a store fail, whatever is evicted
      before it. */
  lemma NextStoreIsAccepted(v: View, mid: View, u: Url, k: Kind)
    requires Evicted(v.entries, mid.entries) && (u in v.entries ==> !v.entries[u].Get(k).heap)
    ensures !EntryOf(mid, u).Get(k).heap
  {
    if u in mid.entries {
      assert KeptOrNot(v.entries, mid.entries, u);
    }
  }
}
