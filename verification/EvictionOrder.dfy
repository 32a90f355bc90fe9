/** The order in which the backing store evicts entries, and the sizes that it keeps
    account of (content/fs_backing_store.c). */
module EvictionOrder {
  import opened StoreDisk
  import opened StoreSpec

  // ---------------------------------------------------------------------
  // Sizes
  // ---------------------------------------------------------------------

  /** Bytes of all entries. */
  ghost function Total(entries: map<Url, Entry>): nat
    decreases entries.Keys
  {
    if entries == map[] then 0
    else
      var u :| u in entries;
      assert entries.Keys > (entries - {u}).Keys by { assert u in entries.Keys; }
      entries[u].Size() + Total(entries - {u})
  }

  lemma {:induction false} TotalWithout(entries: map<Url, Entry>, u: Url)
    requires u in entries
    ensures Total(entries) == entries[u].Size() + Total(entries - {u})
    decreases entries.Keys
  {
    var w :| w in entries && Total(entries) == entries[w].Size() + Total(entries - {w});
    if w != u {
      assert entries.Keys > (entries - {w}).Keys by { assert w in entries.Keys; }
      assert entries.Keys > (entries - {u}).Keys by { assert u in entries.Keys; }
      TotalWithout(entries - {w}, u);
      TotalWithout(entries - {u}, w);
      assert entries - {w} - {u} == entries - {u} - {w};
    }
  }

  lemma TotalUpdate(entries: map<Url, Entry>, u: Url, x: Entry)
    ensures Total(entries[u := x]) == Total(entries) - (if u in entries then entries[u].Size() else 0) + x.Size()
  {
    var now := entries[u := x];
    TotalWithout(now, u);
    assert now - {u} == entries - {u};
    if u in entries {
      TotalWithout(entries, u);
    } else {
      assert entries - {u} == entries;
    }
  }

  // ---------------------------------------------------------------------
  // Order
  // ---------------------------------------------------------------------

  /** compar */
  function Compar(a: Entry, b: Entry): int {
    if !a.dataElem.heap && b.dataElem.heap then -1
    else if a.dataElem.heap && !b.dataElem.heap then 1
    else if !a.metaElem.heap && b.metaElem.heap then -1
    else if a.metaElem.heap && !b.metaElem.heap then 1
    else if a.useCount < b.useCount then -1
    else if a.useCount > b.useCount then 1
    else if a.lastUsed < b.lastUsed then -1
    else if a.lastUsed > b.lastUsed then 1
    else 0
  }

  /** `x` has been used less often than `y`, or as often and not later. */
  predicate LessUsed(x: Entry, y: Entry) {
    x.useCount < y.useCount || (x.useCount == y.useCount && x.lastUsed <= y.lastUsed)
  }

  /** A total preorder, in which entries that hold no memory come first, those used less
      before others. */
  lemma ComparIsPreorder(a: Entry, b: Entry, c: Entry)
    ensures Compar(a, b) == -Compar(b, a)
    ensures Compar(a, b) <= 0 && Compar(b, c) <= 0 ==> Compar(a, c) <= 0
    ensures !a.InMemory() && b.InMemory() ==> Compar(a, b) < 0
    ensures !a.InMemory() && !b.InMemory() ==> (Compar(a, b) <= 0 <==> LessUsed(a, b))
  {
  }

  /** `order` lists the entries, in the order of `Compar`. */
  ghost predicate IsOrder(order: seq<Url>, entries: map<Url, Entry>) {
    && (forall u :: u in order <==> u in entries)
    && NoRepeat(order) && IsSorted(order, entries)
  }

  predicate NoRepeat(order: seq<Url>) {
    forall i, j :: 0 <= i < j < |order| ==> order[i] != order[j]
  }

  predicate IsSorted(order: seq<Url>, entries: map<Url, Entry>) {
    && (forall i :: 0 <= i < |order| ==> order[i] in entries)
    && (forall i, j :: 0 <= i < j < |order| ==> Compar(entries[order[i]], entries[order[j]]) <= 0)
  }

  /** `order` with `u` put in its place. */
  function Insert(order: seq<Url>, u: Url, entries: map<Url, Entry>): (r: seq<Url>)
    requires IsSorted(order, entries) && NoRepeat(order) && u in entries && u !in order
    ensures forall w :: w in r <==> w == u || w in order
    ensures |r| == |order| + 1
    ensures IsSorted(r, entries) && NoRepeat(r)
  {
    if order == [] || Compar(entries[u], entries[order[0]]) <= 0 then
      InsertFirst(order, u, entries);
      [u] + order
    else
      var rest := Insert(order[1..], u, entries);
      InsertLater(order, rest, u, entries);
      [order[0]] + rest
  }

  lemma InsertFirst(order: seq<Url>, u: Url, entries: map<Url, Entry>)
    requires IsSorted(order, entries) && u in entries
    requires order == [] || Compar(entries[u], entries[order[0]]) <= 0
    ensures IsSorted([u] + order, entries)
  {
    var r := [u] + order;
    forall i, j | 0 <= i < j < |r| ensures Compar(entries[r[i]], entries[r[j]]) <= 0 {
      if i == 0 {
        ComparIsPreorder(entries[u], entries[order[0]], entries[r[j]]);
      }
    }
  }

  lemma InsertLater(order: seq<Url>, rest: seq<Url>, u: Url, entries: map<Url, Entry>)
    requires IsSorted(order, entries) && u in entries && order != [] && IsSorted(rest, entries)
    requires NoRepeat(order) && NoRepeat(rest) && u !in order
    requires Compar(entries[u], entries[order[0]]) > 0
    requires forall w :: w in rest <==> w == u || w in order[1..]
    ensures IsSorted([order[0]] + rest, entries) && NoRepeat([order[0]] + rest)
    ensures forall w :: w in [order[0]] + rest <==> w == u || w in order
  {
    var r := [order[0]] + rest;
    assert order[0] !in order[1..];
    forall i, j | 0 <= i < j < |r| ensures Compar(entries[r[i]], entries[r[j]]) <= 0 {
      if i == 0 {
        assert r[j] in rest;
        ComparIsPreorder(entries[order[0]], entries[u], entries[u]);
      }
    }
  }

  /** The list of entries that store_evict makes and sorts. */
  method ListEntries(entries: map<Url, Entry>) returns (order: seq<Url>)
    ensures IsOrder(order, entries)
  {
    order := [];
    var rest := entries.Keys;
    while rest != {}
      invariant rest <= entries.Keys
      invariant forall u :: u in order <==> u in entries && u !in rest
      invariant IsSorted(order, entries) && NoRepeat(order)
      decreases rest
    {
      var u :| u in rest;
      order := Insert(order, u, entries);
      rest := rest - {u};
    }
  }

  /** An entry in memory comes after all entries that are not. */
  lemma UnreferencedFirst(order: seq<Url>, entries: map<Url, Entry>, i: nat, n: nat)
    requires IsOrder(order, entries) && i < |order| && n < |order|
    requires entries[order[i]].InMemory() && !entries[order[n]].InMemory()
    ensures n < i
  {
    ComparIsPreorder(entries[order[n]], entries[order[i]], entries[order[n]]);
  }
}
