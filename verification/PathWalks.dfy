/** The walks over a tree of paths that need no stack: they go down to the first
    child, on to the next sibling, and up by the parent links
    (content/urldb.c). */
module PathWalks {
  import opened PathTree

  // ---------------------------------------------------------------------
  // What a walk should visit
  // ---------------------------------------------------------------------

  /** The leaves below `h`, left to right. */
  ghost function Leaves(h: PathNode, s: set<PathNode>, root: PathNode, count: nat): seq<PathNode>
    requires PathsOk(s, root, count) && h in s
    reads s
    decreases count - h.born, 1, 0
  {
    assert NodeOk(h, s, root, count);
    if h.kids == [] then [h] else LeavesFrom(h, 0, s, root, count)
  }

  /** The leaves below the children of `h`, from the `i`th on. */
  ghost function LeavesFrom(h: PathNode, i: nat, s: set<PathNode>, root: PathNode, count: nat): seq<PathNode>
    requires PathsOk(s, root, count) && h in s && i <= |h.kids|
    reads s
    decreases count - h.born, 0, |h.kids| - i
  {
    assert NodeOk(h, s, root, count);
    if i == |h.kids| then []
    else
      assert NodeOk(h.kids[i], s, root, count);
      Leaves(h.kids[i], s, root, count) + LeavesFrom(h, i + 1, s, root, count)
  }

  /** Climbing from `p` leads to `top`. */
  ghost predicate Below(p: PathNode, top: PathNode, s: set<PathNode>, root: PathNode, count: nat)
    requires PathsOk(s, root, count) && p in s
    reads s
    decreases p.born
  {
    assert NodeOk(p, s, root, count);
    p == top ||
    (p != root && (assert NodeOk(p.parent, s, root, count); Below(p.parent, top, s, root, count)))
  }

  /** The position of a node among its siblings. */
  ghost function IndexOf(p: PathNode, s: set<PathNode>, root: PathNode, count: nat): (i: nat)
    requires PathsOk(s, root, count) && p in s && p != root
    reads s
    ensures p.parent != null && p.parent in s && i < |p.parent.kids| && p.parent.kids[i] == p
  {
    assert NodeOk(p, s, root, count);
    var i: nat :| i < |p.parent.kids| && p.parent.kids[i] == p;
    i
  }

  /** The leaves below `top` that come after the subtree of `p`. */
  ghost function After(p: PathNode, top: PathNode, s: set<PathNode>, root: PathNode, count: nat): seq<PathNode>
    requires PathsOk(s, root, count) && p in s && top in s && Below(p, top, s, root, count)
    reads s
    decreases p.born
  {
    if p == top then []
    else
      var i := IndexOf(p, s, root, count);
      assert NodeOk(p.parent, s, root, count);
      LeavesFrom(p.parent, i + 1, s, root, count) + After(p.parent, top, s, root, count)
  }

  /** The leaves below `top` from the subtree of `p` on. */
  ghost function Rest(p: PathNode, top: PathNode, s: set<PathNode>, root: PathNode, count: nat): seq<PathNode>
    requires PathsOk(s, root, count) && p in s && top in s && Below(p, top, s, root, count)
    reads s
  {
    Leaves(p, s, root, count) + After(p, top, s, root, count)
  }

  lemma {:induction false} BelowIsYounger(p: PathNode, top: PathNode, s: set<PathNode>, root: PathNode, count: nat)
    requires PathsOk(s, root, count) && p in s && Below(p, top, s, root, count)
    ensures top.born <= p.born
    decreases p.born
  {
    assert NodeOk(p, s, root, count);
    if p != top {
      assert NodeOk(p.parent, s, root, count);
      BelowIsYounger(p.parent, top, s, root, count);
    }
  }

  /** The `i`th child of a node. */
  lemma ChildIsBelow(p: PathNode, i: nat, top: PathNode, s: set<PathNode>, root: PathNode, count: nat)
    requires PathsOk(s, root, count) && p in s && i < |p.kids| && Below(p, top, s, root, count)
    ensures var c := p.kids[i];
            && c in s && c != root && c.parent == p && c != top && c.born > p.born
            && IndexOf(c, s, root, count) == i && Below(c, top, s, root, count)
  {
    var c := p.kids[i];
    assert NodeOk(p, s, root, count);
    assert NodeOk(c, s, root, count);
    BelowIsYounger(p, top, s, root, count);
    SiblingsAreDistinct(p.kids, p);
  }

  /** Going down to the first child. */
  lemma DownStep(p: PathNode, top: PathNode, s: set<PathNode>, root: PathNode, count: nat)
    requires PathsOk(s, root, count) && p in s && top in s && Below(p, top, s, root, count)
    requires p.children != null
    ensures var c := p.children;
            && c in s && c != top && p.born < c.born < count && Below(c, top, s, root, count)
            && Rest(p, top, s, root, count) == Rest(c, top, s, root, count)
  {
    assert NodeOk(p, s, root, count);
    var c := p.kids[0];
    assert NodeOk(c, s, root, count);
    ChildIsBelow(p, 0, top, s, root, count);
    calc {
      Leaves(p, s, root, count) + After(p, top, s, root, count);
      (Leaves(c, s, root, count) + LeavesFrom(p, 1, s, root, count)) + After(p, top, s, root, count);
      Leaves(c, s, root, count) + (LeavesFrom(p, 1, s, root, count) + After(p, top, s, root, count));
      Leaves(c, s, root, count) + After(c, top, s, root, count);
    }
  }

  /** Going on to the next sibling. */
  lemma NextStep(p: PathNode, top: PathNode, s: set<PathNode>, root: PathNode, count: nat)
    requires PathsOk(s, root, count) && p in s && top in s && p != top && Below(p, top, s, root, count)
    ensures p != root && p.parent in s && p.parent.born < p.born
    ensures Below(p.parent, top, s, root, count)
    ensures if p.next == null then After(p, top, s, root, count) == After(p.parent, top, s, root, count)
            else
              && p.next in s && p.next != top && Below(p.next, top, s, root, count)
              && After(p, top, s, root, count) == Rest(p.next, top, s, root, count)
  {
    assert NodeOk(p, s, root, count);
    var i, q := IndexOf(p, s, root, count), p.parent;
    assert NodeOk(q, s, root, count) && LinkOk(q.kids, i);
    if p.next != null {
      ChildIsBelow(q, i + 1, top, s, root, count);
      calc {
        After(p, top, s, root, count);
        LeavesFrom(q, i + 1, s, root, count) + After(q, top, s, root, count);
        (Leaves(p.next, s, root, count) + LeavesFrom(q, i + 2, s, root, count)) + After(q, top, s, root, count);
        Leaves(p.next, s, root, count) + (LeavesFrom(q, i + 2, s, root, count) + After(q, top, s, root, count));
      }
    }
  }

  // ---------------------------------------------------------------------
  // Counting and visiting
  // ---------------------------------------------------------------------

  /** An URL is saved if it is persistent, or was visited after the expiry. */
  predicate Saved(p: PathNode, expiry: int)
    reads p
  {
    p.persistent || (p.lastVisit > expiry && p.visits > 0)
  }

  ghost function CountSaved(leaves: seq<PathNode>, expiry: int): nat
    reads leaves
  {
    if leaves == [] then 0
    else
      var n := |leaves| - 1;
      CountSaved(leaves[..n], expiry) + (if Saved(leaves[n], expiry) then 1 else 0)
  }

  /** The second half of each of the walks: from a leaf, find the next node. It
      is `top` if nothing is left. */
  method NextNode(leaf: PathNode, top: PathNode, ghost s: set<PathNode>, ghost root: PathNode, ghost count: nat)
    returns (p: PathNode)
    requires PathsOk(s, root, count) && leaf in s && top in s && Below(leaf, top, s, root, count)
    ensures p in s && Below(p, top, s, root, count)
    ensures After(leaf, top, s, root, count) == if p == top then [] else Rest(p, top, s, root, count)
  {
    p := leaf;
    while p != top
      invariant p in s && Below(p, top, s, root, count)
      invariant After(leaf, top, s, root, count) == After(p, top, s, root, count)
      decreases p.born
    {
      NextStep(p, top, s, root, count);
      if p.next != null {
        p := p.next;
        break;
      }
      p := p.parent;
    }
  }

  /** The walk below `top` stands at `p` and has seen the leaves `done`; `more`
      tells whether it goes on. */
  ghost predicate Walked(p: PathNode, more: bool, done: seq<PathNode>, top: PathNode,
      s: set<PathNode>, root: PathNode, count: nat)
    reads s
  {
    && PathsOk(s, root, count) && top in s && p in s && p.born < count && Below(p, top, s, root, count)
    && Leaves(top, s, root, count) == done + (if more then Rest(p, top, s, root, count) else [])
  }

  lemma WalkInTree(p: PathNode, more: bool, done: seq<PathNode>, top: PathNode,
      s: set<PathNode>, root: PathNode, count: nat)
    requires Walked(p, more, done, top, s, root, count)
    ensures PathsOk(s, root, count) && top in s && p in s && p.born < count && Below(p, top, s, root, count)
    ensures !more ==> done == Leaves(top, s, root, count)
  {
  }

  lemma WalkStarts(top: PathNode, s: set<PathNode>, root: PathNode, count: nat)
    requires PathsOk(s, root, count) && top in s
    ensures Walked(top, true, [], top, s, root, count)
  {
    assert NodeOk(top, s, root, count);
    var leaves := Leaves(top, s, root, count);
    assert leaves == [] + (leaves + []);
  }

  lemma WalkGoesDown(p: PathNode, done: seq<PathNode>, top: PathNode, s: set<PathNode>, root: PathNode, count: nat)
    requires Walked(p, true, done, top, s, root, count) && p.children != null
    ensures p.children in s && p.children != top && p.children.born > p.born
    ensures Walked(p.children, true, done, top, s, root, count)
  {
    DownStep(p, top, s, root, count);
  }

  lemma WalkVisits(p: PathNode, q: PathNode, done: seq<PathNode>, top: PathNode,
      s: set<PathNode>, root: PathNode, count: nat)
    requires Walked(p, true, done, top, s, root, count) && p.children == null
    requires q in s && Below(q, top, s, root, count)
    requires After(p, top, s, root, count) == if q == top then [] else Rest(q, top, s, root, count)
    ensures Walked(q, q != top, done + [p], top, s, root, count)
    ensures |done| < |Leaves(top, s, root, count)| && Leaves(top, s, root, count)[|done|] == p
  {
    assert NodeOk(p, s, root, count);
    assert NodeOk(q, s, root, count);
    var after := After(p, top, s, root, count);
    assert Rest(p, top, s, root, count) == [p] + after;
    assert done + ([p] + after) == (done + [p]) + after;
  }

  lemma CountNext(done: seq<PathNode>, p: PathNode, expiry: int)
    ensures CountSaved(done + [p], expiry) == CountSaved(done, expiry) + if Saved(p, expiry) then 1 else 0
  {
    assert (done + [p])[..|done|] == done;
  }

  /** Count a leaf, if it is to be saved, and go on to the next node. */
  method CountLeaf(p: PathNode, top: PathNode, expiry: int, n: nat, ghost done: seq<PathNode>,
      ghost s: set<PathNode>, ghost root: PathNode, ghost count: nat)
    returns (q: PathNode, n': nat)
    requires Walked(p, true, done, top, s, root, count) && p.children == null && n == CountSaved(done, expiry)
    ensures Walked(q, q != top, done + [p], top, s, root, count) && n' == CountSaved(done + [p], expiry)
    ensures |done| < |Leaves(top, s, root, count)|
  {
    hide Walked, PathsOk, Below, CountSaved;
    WalkInTree(p, true, done, top, s, root, count);
    q := NextNode(p, top, s, root, count);
    WalkVisits(p, q, done, top, s, root, count);
    CountNext(done, p, expiry);
    n' := n;
    if Saved(p, expiry) {
      n' := n + 1;
    }
  }

  /** urldb_count_urls */
  method CountUrls(top: PathNode, expiry: int, ghost s: set<PathNode>, ghost root: PathNode, ghost count: nat)
    returns (n: nat)
    requires PathsOk(s, root, count) && top in s
    ensures n == CountSaved(Leaves(top, s, root, count), expiry)
  {
    n := 0;
    var p: PathNode, more := top, true;
    ghost var done: seq<PathNode> := [];
    WalkStarts(top, s, root, count);
    ghost var total := |Leaves(top, s, root, count)|;
    assert n == CountSaved(done, expiry);
    hide Walked, PathsOk, Below, CountSaved;
    while more
      invariant Walked(p, more, done, top, s, root, count) && n == CountSaved(done, expiry)
      decreases total - |done|, more, count - p.born
    {
      WalkInTree(p, true, done, top, s, root, count);
      if p.children != null {
        WalkGoesDown(p, done, top, s, root, count);
        p := p.children;
      } else {
        ghost var leaf := p;
        p, n := CountLeaf(p, top, expiry, n, done, s, root, count);
        done := done + [leaf];
      }
      more := p != top;
    }
    WalkInTree(p, false, done, top, s, root, count);
  }

  ghost predicate AllGo(seen: seq<PathNode>, goOn: PathNode -> bool) {
    seen == [] || (goOn(seen[|seen| - 1]) && AllGo(seen[..|seen| - 1], goOn))
  }

  /** The leaves shown to a callback: all of them if it never says stop, else
      those up to the first stop. */
  ghost predicate Shown(leaves: seq<PathNode>, seen: seq<PathNode>, goOn: PathNode -> bool, all: bool) {
    seen <= leaves &&
    if all then seen == leaves && AllGo(seen, goOn)
    else seen != [] && AllGo(seen[..|seen| - 1], goOn) && !goOn(seen[|seen| - 1])
  }

  /** The next leaf is shown. */
  lemma ShowNext(p: PathNode, q: PathNode, seen: seq<PathNode>, goOn: PathNode -> bool, top: PathNode,
      s: set<PathNode>, root: PathNode, count: nat)
    requires Walked(q, q != top, seen + [p], top, s, root, count) && AllGo(seen, goOn)
    ensures if goOn(p) then AllGo(seen + [p], goOn)
            else Shown(Leaves(top, s, root, count), seen + [p], goOn, false)
  {
    assert (seen + [p])[..|seen|] == seen && (seen + [p])[|seen|] == p;
  }

  lemma LeafHasUrl(p: PathNode, top: PathNode, s: set<PathNode>, root: PathNode, count: nat)
    requires PathsOk(s, root, count) && LeavesHaveUrl(s, root, root)
    requires p in s && p.born < count && Below(p, top, s, root, count)
    requires p.children == null && (top == root ==> root.children != null)
    ensures p.hasUrl
  {
    assert NodeOk(p, s, root, count);
  }

  ghost predicate HaveUrl(seen: seq<PathNode>)
    reads seen
  {
    forall i :: 0 <= i < |seen| ==> seen[i].hasUrl
  }

  /** Show a leaf to the callback, and go on to the next node. */
  method ShowLeaf(p: PathNode, goOn: PathNode -> bool, top: PathNode, ghost seen: seq<PathNode>,
      ghost s: set<PathNode>, ghost root: PathNode, ghost count: nat)
    returns (q: PathNode, go: bool)
    requires Walked(p, true, seen, top, s, root, count) && p.children == null
    requires LeavesHaveUrl(s, root, root) && (top == root ==> root.children != null)
    requires AllGo(seen, goOn) && HaveUrl(seen)
    ensures Walked(q, q != top, seen + [p], top, s, root, count) && HaveUrl(seen + [p])
    ensures |seen| < |Leaves(top, s, root, count)|
    ensures if go then AllGo(seen + [p], goOn) else Shown(Leaves(top, s, root, count), seen + [p], goOn, false)
  {
    hide Walked, PathsOk, Below, AllGo, Shown;
    WalkInTree(p, true, seen, top, s, root, count);
    q := NextNode(p, top, s, root, count);
    WalkVisits(p, q, seen, top, s, root, count);
    ShowNext(p, q, seen, goOn, top, s, root, count);
    LeafHasUrl(p, top, s, root, count);
    go := goOn(p);
  }

  /** urldb_iterate_entries_path, for the callback that looks at URLs. Every node
      that is shown has an URL. */
  method IterateEntries(top: PathNode, goOn: PathNode -> bool,
      ghost s: set<PathNode>, ghost root: PathNode, ghost count: nat)
    returns (all: bool, seen: seq<PathNode>)
    requires PathsOk(s, root, count) && top in s && LeavesHaveUrl(s, root, root)
    requires top == root ==> root.children != null
    ensures Shown(Leaves(top, s, root, count), seen, goOn, all) && HaveUrl(seen)
  {
    var p: PathNode, more := top, true;
    seen := [];
    WalkStarts(top, s, root, count);
    ghost var total := |Leaves(top, s, root, count)|;
    while more
      invariant Walked(p, more, seen, top, s, root, count) && AllGo(seen, goOn) && HaveUrl(seen)
      decreases total - |seen|, more, count - p.born
    {
      if p.children != null {
        WalkGoesDown(p, seen, top, s, root, count);
        p := p.children;
      } else {
        var q, go := ShowLeaf(p, goOn, top, seen, s, root, count);
        seen := seen + [p];
        if !go { return false, seen; }
        p := q;
      }
      more := p != top;
    }
    return true, seen;
  }

  // ---------------------------------------------------------------------
  // Saving
  // ---------------------------------------------------------------------

  /** The lines written for an URL. */
  datatype Record = Record(scheme: string, port: nat, path: string, visits: nat, lastVisit: int)

  /** The segments from the root to `p`, joined by slashes. The root has an empty
      segment. */
  ghost function PathText(p: PathNode): string
    decreases p.born
  {
    if p.parent == null || p.parent.born >= p.born then p.segment
    else PathText(p.parent) + "/" + p.segment
  }

  ghost function RecordOf(p: PathNode): Record
    reads p
  {
    Record(p.scheme, p.port, PathText(p), p.visits, p.lastVisit)
  }

  /** The records of the leaves that are to be saved, in order. */
  ghost function SavedRecords(leaves: seq<PathNode>, expiry: int): (r: seq<Record>)
    reads leaves
    ensures |r| == CountSaved(leaves, expiry)
  {
    if leaves == [] then []
    else
      var n := |leaves| - 1;
      SavedRecords(leaves[..n], expiry) + (if Saved(leaves[n], expiry) then [RecordOf(leaves[n])] else [])
  }

  lemma SavedNext(done: seq<PathNode>, p: PathNode, expiry: int)
    ensures SavedRecords(done + [p], expiry)
         == SavedRecords(done, expiry) + (if Saved(p, expiry) then [RecordOf(p)] else [])
  {
    assert (done + [p])[..|done|] == done;
  }

  /** The text of the path when the walk comes to `p`. */
  ghost function TextBefore(p: PathNode, root: PathNode): string {
    if p == root || p.parent == null then "" else PathText(p.parent) + "/"
  }

  lemma TextStep(p: PathNode, s: set<PathNode>, root: PathNode, count: nat)
    requires PathsOk(s, root, count) && p in s
    ensures PathText(p) == TextBefore(p, root) + p.segment
    ensures p.children != null ==> TextBefore(p.children, root) == PathText(p) + "/"
    ensures p.next != null && p != root ==> TextBefore(p.next, root) == TextBefore(p, root)
  {
    assert NodeOk(p, s, root, count);
    if p.children != null {
      assert NodeOk(p.children, s, root, count);
    }
    if p != root {
      var q := p.parent;
      assert NodeOk(q, s, root, count);
      var i: nat :| i < |q.kids| && q.kids[i] == p;
      assert LinkOk(q.kids, i);
      if p.next != null { assert NodeOk(p.next, s, root, count); }
    }
  }

  /** Climbing from a leaf to the next node, with the text of the path cut back
      on the way. */
  method NextNodeAndText(leaf: PathNode, root: PathNode, text: string, ghost s: set<PathNode>, ghost count: nat)
    returns (p: PathNode, path: string)
    requires PathsOk(s, root, count) && leaf in s && Below(leaf, root, s, root, count)
    requires text == PathText(leaf)
    ensures p in s && Below(p, root, s, root, count)
    ensures After(leaf, root, s, root, count) == if p == root then [] else Rest(p, root, s, root, count)
    ensures p != root ==> path == TextBefore(p, root)
  {
    p, path := leaf, text;
    while p != root
      invariant p in s && Below(p, root, s, root, count) && path == PathText(p)
      invariant After(leaf, root, s, root, count) == After(p, root, s, root, count)
      decreases p.born
    {
      NextStep(p, root, s, root, count);
      TextStep(p, s, root, count);
      path := path[..|path| - |p.segment|];
      if p.next != null {
        p := p.next;
        break;
      }
      path := path[..|path| - 1];
      p := p.parent;
    }
  }

  /** Write a leaf, if it is to be saved, and go on to the next node. */
  method WriteLeaf(p: PathNode, root: PathNode, path: string, expiry: int, records: seq<Record>,
      ghost done: seq<PathNode>, ghost s: set<PathNode>, ghost count: nat)
    returns (q: PathNode, text: string, written: seq<Record>)
    requires Walked(p, true, done, root, s, root, count) && p.children == null
    requires path == PathText(p) && records == SavedRecords(done, expiry)
    ensures Walked(q, q != root, done + [p], root, s, root, count) && (q != root ==> text == TextBefore(q, root))
    ensures |done| < |Leaves(root, s, root, count)| && written == SavedRecords(done + [p], expiry)
  {
    WalkInTree(p, true, done, root, s, root, count);
    written := records;
    if Saved(p, expiry) {
      written := records + [Record(p.scheme, p.port, path, p.visits, p.lastVisit)];
    }
    q, text := NextNodeAndText(p, root, path, s, count);
    WalkVisits(p, q, done, root, s, root, count);
    SavedNext(done, p, expiry);
  }

  /** urldb_write_paths. The text of the path is kept from node to node. */
  method WritePaths(root: PathNode, expiry: int, ghost s: set<PathNode>, ghost count: nat)
    returns (records: seq<Record>)
    requires PathsOk(s, root, count)
    ensures records == SavedRecords(Leaves(root, s, root, count), expiry)
  {
    var p: PathNode, path, more := root, "", true;
    records := [];
    ghost var done: seq<PathNode> := [];
    WalkStarts(root, s, root, count);
    ghost var total := |Leaves(root, s, root, count)|;
    assert records == SavedRecords(done, expiry) && path == TextBefore(p, root);
    hide Walked, PathsOk, Below, TextBefore, PathText, SavedRecords;
    while more
      invariant Walked(p, more, done, root, s, root, count) && records == SavedRecords(done, expiry)
      invariant more ==> path == TextBefore(p, root)
      decreases total - |done|, more, count - p.born
    {
      WalkInTree(p, true, done, root, s, root, count);
      TextStep(p, s, root, count);
      path := path + p.segment;
      if p.children != null {
        WalkGoesDown(p, done, root, s, root, count);
        path := path + "/";
        p := p.children;
      } else {
        ghost var leaf := p;
        p, path, records := WriteLeaf(p, root, path, expiry, records, done, s, count);
        done := done + [leaf];
      }
      more := p != root;
    }
    WalkInTree(p, false, done, root, s, root, count);
  }

  /** The paths of a host, saved with their number in front (in
      urldb_save_search_tree): as many records follow as were counted. */
  method SavePaths(root: PathNode, expiry: int, ghost s: set<PathNode>, ghost count: nat)
    returns (n: nat, records: seq<Record>)
    requires PathsOk(s, root, count)
    ensures n == |records| && records == SavedRecords(Leaves(root, s, root, count), expiry)
  {
    n := CountUrls(root, expiry, s, root, count);
    records := [];
    assert |SavedRecords(Leaves(root, s, root, count), expiry)| == n;
    if n > 0 {
      records := WritePaths(root, expiry, s, count);
    }
  }

  function Join(segments: seq<string>): string {
    if segments == [] then ""
    else Join(segments[..|segments| - 1]) + "/" + segments[|segments| - 1]
  }

  lemma {:induction false} TextIsJoin(d: PathNode, root: PathNode, scheme: string, port: nat, segments: seq<string>,
                                      s: set<PathNode>, count: nat)
    requires PathsOk(s, root, count) && d in s && root.segment == ""
    requires IsAt(d, root, scheme, port, segments)
    ensures PathText(d) == Join(segments)
    decreases |segments|
  {
    assert NodeOk(d, s, root, count);
    assert NodeOk(root, s, root, count);
    if segments != [] {
      if d == root { assert false; }
      var q := d.parent;
      assert NodeOk(q, s, root, count);
      TextIsJoin(q, root, scheme, port, segments[..|segments| - 1], s, count);
    }
  }

  lemma {:induction false} JoinFront(a: string, segments: seq<string>)
    ensures Join([a] + segments) == "/" + a + Join(segments)
  {
    var all := [a] + segments;
    if segments == [] {
      assert all == [a] && all[..0] == [];
    } else {
      assert all[..|all| - 1] == [a] + segments[..|segments| - 1];
      JoinFront(a, segments[..|segments| - 1]);
    }
  }

  lemma {:induction false} JoinSplit(b: string)
    ensures Join(Split(b)) == "/" + b
    decreases |b|
  {
    var d := FirstSlash(b);
    if d == |b| {
      JoinFront(b, []);
    } else {
      var rest := b[d + 1..];
      JoinSplit(rest);
      JoinFront(b[..d], Split(rest));
      assert Split(b) == [b[..d]] + Split(rest);
      SlashBetween(b, d);
    }
  }

  lemma SlashBetween(b: string, d: nat)
    requires d < |b| && b[d] == '/'
    ensures "/" + b[..d] + ("/" + b[d + 1..]) == "/" + b
  {
    assert b == b[..d] + [b[d]] + b[d + 1..];
  }

  /** What is saved for a path is the path that was added, so adding it again
      leads to the same segments. */
  lemma SavedAsAdded(d: PathNode, root: PathNode, scheme: string, port: nat, path: string,
                     s: set<PathNode>, count: nat)
    requires PathsOk(s, root, count) && d in s && root.segment == ""
    requires path != "" && path[0] == '/' && IsAt(d, root, scheme, port, Segments(path))
    ensures RecordOf(d).path == path && RecordOf(d).scheme == scheme && RecordOf(d).port == port
  {
    TextIsJoin(d, root, scheme, port, Segments(path), s, count);
    JoinSplit(path[1..]);
  }
}
