/** Taking a tree of paths apart (content/urldb.c): the order in which the nodes
    are freed, and that a node is never looked at after that. */
module PathDestroy {
  import opened PathTree
  import opened PathWalks

  // ---------------------------------------------------------------------
  // Post-order
  // ---------------------------------------------------------------------

  /** The nodes of the subtree of `h`, children before parents. */
  ghost function Post(h: PathNode, s: set<PathNode>, root: PathNode, count: nat): seq<PathNode>
    requires PathsOk(s, root, count) && h in s
    reads s
    decreases count - h.born, 1, 0
  {
    assert NodeOk(h, s, root, count);
    PostFrom(h, 0, s, root, count) + [h]
  }

  /** The nodes below the children of `h`, from the `i`th on. */
  ghost function PostFrom(h: PathNode, i: nat, s: set<PathNode>, root: PathNode, count: nat): seq<PathNode>
    requires PathsOk(s, root, count) && h in s && i <= |h.kids|
    reads s
    decreases count - h.born, 0, |h.kids| - i
  {
    assert NodeOk(h, s, root, count);
    if i == |h.kids| then []
    else
      assert NodeOk(h.kids[i], s, root, count);
      Post(h.kids[i], s, root, count) + PostFrom(h, i + 1, s, root, count)
  }

  predicate NoDup(q: seq<PathNode>) {
    forall i, j :: 0 <= i < j < |q| ==> q[i] != q[j]
  }

  predicate Apart(a: seq<PathNode>, b: seq<PathNode>) {
    forall i, j :: 0 <= i < |a| && 0 <= j < |b| ==> a[i] != b[j]
  }

  lemma NoDupConcat(a: seq<PathNode>, b: seq<PathNode>)
    requires NoDup(a) && NoDup(b) && Apart(a, b)
    ensures NoDup(a + b)
  {
  }

  lemma NoDupSplit(a: seq<PathNode>, b: seq<PathNode>, p: PathNode)
    requires NoDup(a + b) && p in b
    ensures p !in a
  {
    var j :| 0 <= j < |b| && b[j] == p;
    assert (a + b)[|a| + j] == p;
    assert forall i :: 0 <= i < |a| ==> a[i] == (a + b)[i];
  }

  /** A node is not below two siblings. */
  lemma {:induction false} BelowOneSibling(x: PathNode, a: PathNode, b: PathNode,
                                           s: set<PathNode>, root: PathNode, count: nat)
    requires PathsOk(s, root, count) && x in s && a in s && b in s
    requires Below(x, a, s, root, count) && Below(x, b, s, root, count)
    requires a != root && b != root && a.parent == b.parent
    ensures a == b
    decreases x.born
  {
    assert NodeOk(x, s, root, count);
    assert NodeOk(a, s, root, count) && NodeOk(b, s, root, count);
    if x == a || x == b {
      if a != b {
        var q := a.parent;
        assert NodeOk(q, s, root, count);
        BelowIsYounger(q, if x == a then b else a, s, root, count);
      }
    } else {
      assert NodeOk(x.parent, s, root, count);
      BelowOneSibling(x.parent, a, b, s, root, count);
    }
  }

  /** A node below a child is below the parent. */
  lemma {:induction false} BelowParent(x: PathNode, c: PathNode, s: set<PathNode>, root: PathNode, count: nat)
    requires PathsOk(s, root, count) && x in s && c in s && c != root && Below(x, c, s, root, count)
    ensures c.parent in s && Below(x, c.parent, s, root, count)
    decreases x.born
  {
    assert NodeOk(c, s, root, count);
    assert NodeOk(x, s, root, count);
    if x != c {
      assert NodeOk(x.parent, s, root, count);
      BelowParent(x.parent, c, s, root, count);
    }
  }

  /** A node below `h` is `h`, or is below one of its children. */
  lemma {:induction false} BelowSomeChild(x: PathNode, h: PathNode, s: set<PathNode>, root: PathNode, count: nat)
    returns (i: nat)
    requires PathsOk(s, root, count) && x in s && h in s && x != h && Below(x, h, s, root, count)
    ensures i < |h.kids| && h.kids[i] in s && Below(x, h.kids[i], s, root, count)
    decreases x.born
  {
    assert NodeOk(x, s, root, count);
    assert NodeOk(x.parent, s, root, count);
    if x.parent == h {
      i := IndexOf(x, s, root, count);
    } else {
      i := BelowSomeChild(x.parent, h, s, root, count);
    }
  }

  /** Post-order lists exactly the nodes of the subtree. */
  lemma {:induction false} PostMember(h: PathNode, x: PathNode, s: set<PathNode>, root: PathNode, count: nat)
    requires PathsOk(s, root, count) && h in s
    ensures x in Post(h, s, root, count) <==> x in s && Below(x, h, s, root, count)
    decreases count - h.born, 1, 0
  {
    assert NodeOk(h, s, root, count);
    PostFromMember(h, 0, x, s, root, count);
    if x in s && x != h && Below(x, h, s, root, count) {
      var i := BelowSomeChild(x, h, s, root, count);
    }
  }

  lemma {:induction false} PostFromMember(h: PathNode, i: nat, x: PathNode, s: set<PathNode>, root: PathNode, count: nat)
    requires PathsOk(s, root, count) && h in s && i <= |h.kids|
    ensures x in PostFrom(h, i, s, root, count)
       <==> x in s && exists j :: i <= j < |h.kids| && h.kids[j] in s && Below(x, h.kids[j], s, root, count)
    ensures x in PostFrom(h, i, s, root, count) ==> Below(x, h, s, root, count) && x != h
    decreases count - h.born, 0, |h.kids| - i
  {
    assert NodeOk(h, s, root, count);
    if i < |h.kids| {
      var c := h.kids[i];
      assert NodeOk(c, s, root, count);
      PostMember(c, x, s, root, count);
      PostFromMember(h, i + 1, x, s, root, count);
      if x in Post(c, s, root, count) {
        BelowParent(x, c, s, root, count);
        BelowIsYounger(x, c, s, root, count);
      }
    }
  }

  lemma {:induction false} PostNoDup(h: PathNode, s: set<PathNode>, root: PathNode, count: nat)
    requires PathsOk(s, root, count) && h in s
    ensures NoDup(Post(h, s, root, count))
    decreases count - h.born, 1, 0
  {
    assert NodeOk(h, s, root, count);
    PostFromNoDup(h, 0, s, root, count);
    PostFromMember(h, 0, h, s, root, count);
    NoDupConcat(PostFrom(h, 0, s, root, count), [h]);
  }

  lemma {:induction false} PostFromNoDup(h: PathNode, i: nat, s: set<PathNode>, root: PathNode, count: nat)
    requires PathsOk(s, root, count) && h in s && i <= |h.kids|
    ensures NoDup(PostFrom(h, i, s, root, count))
    decreases count - h.born, 0, |h.kids| - i
  {
    assert NodeOk(h, s, root, count);
    if i < |h.kids| {
      var c := h.kids[i];
      assert NodeOk(c, s, root, count);
      PostNoDup(c, s, root, count);
      PostFromNoDup(h, i + 1, s, root, count);
      SubtreesAreApart(h, i, s, root, count);
      NoDupConcat(Post(c, s, root, count), PostFrom(h, i + 1, s, root, count));
    }
  }

  lemma SubtreesAreApart(h: PathNode, i: nat, s: set<PathNode>, root: PathNode, count: nat)
    requires PathsOk(s, root, count) && h in s && i < |h.kids| && h.kids[i] in s
    ensures Apart(Post(h.kids[i], s, root, count), PostFrom(h, i + 1, s, root, count))
  {
    assert NodeOk(h, s, root, count);
    var c := h.kids[i];
    assert NodeOk(c, s, root, count);
    var a, b := Post(c, s, root, count), PostFrom(h, i + 1, s, root, count);
    forall m, n | 0 <= m < |a| && 0 <= n < |b| ensures a[m] != b[n] {
      if a[m] == b[n] {
        var x := a[m];
        PostMember(c, x, s, root, count);
        PostFromMember(h, i + 1, x, s, root, count);
        var j :| i + 1 <= j < |h.kids| && h.kids[j] in s && Below(x, h.kids[j], s, root, count);
        assert NodeOk(h.kids[j], s, root, count);
        BelowOneSibling(x, c, h.kids[j], s, root, count);
        SiblingsAreDistinct(h.kids, h);
      }
    }
  }

  // ---------------------------------------------------------------------
  // Each leaf once
  // ---------------------------------------------------------------------

  /** The nodes of `q` without children. */
  ghost function LeavesOf(q: seq<PathNode>): seq<PathNode>
    reads q
  {
    if q == [] then [] else (if q[0].kids == [] then [q[0]] else []) + LeavesOf(q[1..])
  }

  lemma {:induction false} LeavesOfConcat(a: seq<PathNode>, b: seq<PathNode>)
    ensures LeavesOf(a + b) == LeavesOf(a) + LeavesOf(b)
  {
    if a == [] {
      assert a + b == b;
    } else {
      assert (a + b)[1..] == a[1..] + b;
      LeavesOfConcat(a[1..], b);
    }
  }

  lemma {:induction false} LeavesOfMember(q: seq<PathNode>, x: PathNode)
    ensures x in LeavesOf(q) <==> x in q && x.kids == []
  {
    if q != [] {
      LeavesOfMember(q[1..], x);
    }
  }

  lemma {:induction false} LeavesOfNoDup(q: seq<PathNode>)
    requires NoDup(q)
    ensures NoDup(LeavesOf(q))
  {
    if q != [] {
      var rest := q[1..];
      assert forall i :: 0 <= i < |rest| ==> rest[i] == q[i + 1];
      LeavesOfNoDup(rest);
      LeavesOfMember(rest, q[0]);
      assert q[0] !in rest;
    }
  }

  lemma {:induction false} LeavesInPost(h: PathNode, s: set<PathNode>, root: PathNode, count: nat)
    requires PathsOk(s, root, count) && h in s
    ensures Leaves(h, s, root, count) == LeavesOf(Post(h, s, root, count))
    decreases count - h.born, 1, 0
  {
    assert NodeOk(h, s, root, count);
    LeavesInPostFrom(h, 0, s, root, count);
    LeavesOfConcat(PostFrom(h, 0, s, root, count), [h]);
  }

  lemma {:induction false} LeavesInPostFrom(h: PathNode, i: nat, s: set<PathNode>, root: PathNode, count: nat)
    requires PathsOk(s, root, count) && h in s && i <= |h.kids|
    ensures LeavesFrom(h, i, s, root, count) == LeavesOf(PostFrom(h, i, s, root, count))
    decreases count - h.born, 0, |h.kids| - i
  {
    assert NodeOk(h, s, root, count);
    if i < |h.kids| {
      var c := h.kids[i];
      assert NodeOk(c, s, root, count);
      LeavesInPost(c, s, root, count);
      LeavesInPostFrom(h, i + 1, s, root, count);
      LeavesOfConcat(Post(c, s, root, count), PostFrom(h, i + 1, s, root, count));
    }
  }

  /** The leaves that the walks visit are the nodes of the subtree without
      children, and each is visited once. */
  lemma LeavesAreVisitedOnce(h: PathNode, x: PathNode, s: set<PathNode>, root: PathNode, count: nat)
    requires PathsOk(s, root, count) && h in s
    ensures NoDup(Leaves(h, s, root, count))
    ensures x in Leaves(h, s, root, count) <==> x in s && x.kids == [] && Below(x, h, s, root, count)
  {
    LeavesInPost(h, s, root, count);
    PostNoDup(h, s, root, count);
    LeavesOfNoDup(Post(h, s, root, count));
    LeavesOfMember(Post(h, s, root, count), x);
    PostMember(h, x, s, root, count);
  }

  // ---------------------------------------------------------------------
  // Children come before parents
  // ---------------------------------------------------------------------

  /** After each node of `q` but `h` comes its parent. */
  predicate ParentsFollow(q: seq<PathNode>, h: PathNode) {
    forall i :: 0 <= i < |q| && q[i] != h ==> ParentFollows(q, i)
  }

  predicate ParentFollows(q: seq<PathNode>, i: nat)
    requires i < |q|
  {
    exists j :: i < j < |q| && q[j] == q[i].parent
  }

  lemma {:induction false} PostParents(h: PathNode, s: set<PathNode>, root: PathNode, count: nat)
    requires PathsOk(s, root, count) && h in s
    ensures ParentsFollow(Post(h, s, root, count), h)
    decreases count - h.born, 1, 0
  {
    assert NodeOk(h, s, root, count);
    PostFromParents(h, 0, s, root, count);
  }

  lemma {:induction false} PostFromParents(h: PathNode, i: nat, s: set<PathNode>, root: PathNode, count: nat)
    requires PathsOk(s, root, count) && h in s && i <= |h.kids|
    ensures ParentsFollow(PostFrom(h, i, s, root, count) + [h], h)
    decreases count - h.born, 0, |h.kids| - i
  {
    assert NodeOk(h, s, root, count);
    if i < |h.kids| {
      var c := h.kids[i];
      assert NodeOk(c, s, root, count);
      PostParents(c, s, root, count);
      PostFromParents(h, i + 1, s, root, count);
      var a, b := Post(c, s, root, count), PostFrom(h, i + 1, s, root, count) + [h];
      assert PostFrom(h, i, s, root, count) + [h] == a + b;
      ParentsConcat(a, c, b, h);
    }
  }

  lemma ParentsConcat(a: seq<PathNode>, c: PathNode, b: seq<PathNode>, h: PathNode)
    requires ParentsFollow(a, c) && ParentsFollow(b, h)
    requires c.parent == h && b != [] && b[|b| - 1] == h
    ensures ParentsFollow(a + b, h)
  {
    var q := a + b;
    forall i | 0 <= i < |q| && q[i] != h ensures ParentFollows(q, i) {
      if i >= |a| {
        assert ParentFollows(b, i - |a|);
        var j :| i - |a| < j < |b| && b[j] == b[i - |a|].parent;
        assert q[|a| + j] == q[i].parent;
      } else if a[i] == c {
        assert q[|q| - 1] == h;
      } else {
        assert ParentFollows(a, i);
        var j :| i < j < |a| && a[j] == a[i].parent;
        assert q[j] == q[i].parent;
      }
    }
  }

  // ---------------------------------------------------------------------
  // The walk
  // ---------------------------------------------------------------------

  /** The nodes below `top` that are freed after the subtree of `p`. */
  ghost function PostAfter(p: PathNode, top: PathNode, s: set<PathNode>, root: PathNode, count: nat): seq<PathNode>
    requires PathsOk(s, root, count) && p in s && Below(p, top, s, root, count)
    reads s
    decreases p.born
  {
    if p == top then []
    else
      var i := IndexOf(p, s, root, count);
      assert NodeOk(p, s, root, count) && NodeOk(p.parent, s, root, count);
      PostFrom(p.parent, i + 1, s, root, count) + [p.parent] + PostAfter(p.parent, top, s, root, count)
  }

  /** `freed` are freed, and the rest of the nodes starts with the subtree of `p`. */
  ghost predicate Freeing(freed: seq<PathNode>, p: PathNode, top: PathNode, s: set<PathNode>, root: PathNode, count: nat)
    reads s
  {
    && PathsOk(s, root, count) && top in s && p in s && p.born < count && Below(p, top, s, root, count)
    && Post(top, s, root, count) == freed + (Post(p, s, root, count) + PostAfter(p, top, s, root, count))
  }

  /** As `Freeing`, when of the subtree of `p` only `p` is left. */
  ghost predicate FreeingUp(freed: seq<PathNode>, p: PathNode, top: PathNode, s: set<PathNode>, root: PathNode, count: nat)
    reads s
  {
    && PathsOk(s, root, count) && top in s && p in s && Below(p, top, s, root, count)
    && Post(top, s, root, count) == freed + ([p] + PostAfter(p, top, s, root, count))
  }

  lemma FreeingStarts(top: PathNode, s: set<PathNode>, root: PathNode, count: nat)
    requires PathsOk(s, root, count) && top in s
    ensures Freeing([], top, top, s, root, count)
  {
    assert NodeOk(top, s, root, count);
    var all := Post(top, s, root, count);
    assert all == [] + (all + []);
  }

  lemma NotFreed(freed: seq<PathNode>, p: PathNode, top: PathNode, s: set<PathNode>, root: PathNode, count: nat)
    requires Freeing(freed, p, top, s, root, count) || FreeingUp(freed, p, top, s, root, count)
    ensures p !in freed
  {
    PostNoDup(top, s, root, count);
    if Freeing(freed, p, top, s, root, count) {
      NoDupSplit(freed, Post(p, s, root, count) + PostAfter(p, top, s, root, count), p);
    } else {
      NoDupSplit(freed, [p] + PostAfter(p, top, s, root, count), p);
    }
  }

  lemma FreeingGoesDown(freed: seq<PathNode>, p: PathNode, top: PathNode, s: set<PathNode>, root: PathNode, count: nat)
    requires Freeing(freed, p, top, s, root, count) && p.children != null
    ensures Freeing(freed, p.children, top, s, root, count) && p.children.born > p.born && p.children != top
  {
    assert NodeOk(p, s, root, count);
    var c := p.kids[0];
    assert NodeOk(c, s, root, count);
    ChildIsBelow(p, 0, top, s, root, count);
    var a, b, r := Post(c, s, root, count), PostFrom(p, 1, s, root, count), PostAfter(p, top, s, root, count);
    assert Post(p, s, root, count) == (a + b) + [p];
    assert PostAfter(c, top, s, root, count) == b + [p] + r;
    assert ((a + b) + [p]) + r == a + (b + [p] + r);
  }

  lemma FreeingLeaf(freed: seq<PathNode>, p: PathNode, top: PathNode, s: set<PathNode>, root: PathNode, count: nat)
    requires Freeing(freed, p, top, s, root, count) && p.children == null
    ensures FreeingUp(freed, p, top, s, root, count)
  {
    assert NodeOk(p, s, root, count);
    assert Post(p, s, root, count) == [p];
  }

  /** What comes after `p` goes on with the next sibling, or else with the parent. */
  lemma PostAfterStep(p: PathNode, top: PathNode, s: set<PathNode>, root: PathNode, count: nat)
    requires PathsOk(s, root, count) && p in s && top in s && p != top && Below(p, top, s, root, count)
    ensures p != root && p.parent in s && p.parent.born < p.born && Below(p.parent, top, s, root, count)
    ensures p.next != null ==> p.next in s && p.next != top && p.next.born < count && Below(p.next, top, s, root, count)
    ensures PostAfter(p, top, s, root, count) ==
              if p.next == null then [p.parent] + PostAfter(p.parent, top, s, root, count)
              else Post(p.next, s, root, count) + PostAfter(p.next, top, s, root, count)
  {
    hide Post, PostAfter, Below, After;
    NextStep(p, top, s, root, count);
    assert NodeOk(p, s, root, count);
    var q, i := p.parent, IndexOf(p, s, root, count);
    assert NodeOk(q, s, root, count) && LinkOk(q.kids, i);
    PostAfterOf(p, top, s, root, count);
    var up := [q] + PostAfter(q, top, s, root, count);
    assert PostAfter(p, top, s, root, count) == PostFrom(q, i + 1, s, root, count) + up;
    if p.next == null {
      assert [] + up == up;
    } else {
      ChildIsBelow(q, i + 1, top, s, root, count);
      assert NodeOk(p.next, s, root, count);
      PostAfterOf(p.next, top, s, root, count);
      Regrouped(Post(p.next, s, root, count), PostFrom(q, i + 2, s, root, count), up);
    }
  }

  lemma PostAfterOf(p: PathNode, top: PathNode, s: set<PathNode>, root: PathNode, count: nat)
    requires PathsOk(s, root, count) && p in s && top in s && p != top && p != root && Below(p, top, s, root, count)
    requires p.parent in s && Below(p.parent, top, s, root, count)
    ensures PostAfter(p, top, s, root, count) ==
              PostFrom(p.parent, IndexOf(p, s, root, count) + 1, s, root, count)
              + ([p.parent] + PostAfter(p.parent, top, s, root, count))
  {
    Regrouped(PostFrom(p.parent, IndexOf(p, s, root, count) + 1, s, root, count), [p.parent],
              PostAfter(p.parent, top, s, root, count));
  }

  lemma Regrouped<T>(a: seq<T>, b: seq<T>, c: seq<T>)
    ensures a + (b + c) == (a + b) + c
  {
  }

  lemma FreeingNext(freed: seq<PathNode>, p: PathNode, top: PathNode, s: set<PathNode>, root: PathNode, count: nat)
    requires FreeingUp(freed, p, top, s, root, count) && p != top
    ensures p.parent != null && p.parent in s && p.parent.born < p.born
    ensures if p.next == null then FreeingUp(freed + [p], p.parent, top, s, root, count)
            else p.next != top && Freeing(freed + [p], p.next, top, s, root, count)
  {
    hide PathsOk, Post, PostAfter, Below;
    PostAfterStep(p, top, s, root, count);
    Regrouped(freed, [p], PostAfter(p, top, s, root, count));
  }

  lemma FreeingIsOver(freed: seq<PathNode>, top: PathNode, s: set<PathNode>, root: PathNode, count: nat)
    requires FreeingUp(freed, top, top, s, root, count)
    ensures freed + [top] == Post(top, s, root, count)
  {
  }

  lemma FreeingHere(freed: seq<PathNode>, p: PathNode, top: PathNode, s: set<PathNode>, root: PathNode, count: nat)
    requires Freeing(freed, p, top, s, root, count) || FreeingUp(freed, p, top, s, root, count)
    ensures |freed| < |Post(top, s, root, count)|
  {
    assert Freeing(freed, p, top, s, root, count) ==> NodeOk(p, s, root, count);
  }

  /** The inner loop: free the leaf `p`, and all parents whose last child has just
      been freed. */
  method FreeUp(leaf: PathNode, ghost was: seq<PathNode>, top: PathNode, ghost s: set<PathNode>, ghost root: PathNode, ghost count: nat)
    returns (p: PathNode, ghost freed: seq<PathNode>)
    requires FreeingUp(was, leaf, top, s, root, count)
    ensures if p == top then freed == Post(top, s, root, count)
            else Freeing(freed, p, top, s, root, count) && |was| < |freed|
  {
    hide *;
    var q := leaf;
    p, freed := leaf, was;
    while p != top
      invariant p == q && FreeingUp(freed, p, top, s, root, count) && |was| <= |freed|
      decreases p.born
    {
      FreeingNext(freed, p, top, s, root, count);
      NotFreed(freed, p, top, s, root, count);
      assert p !in freed;
      if p.next != null {
        p := p.next;
        break;
      }
      p := p.parent;
      freed := freed + [q];
      q := p;
    }
    if p == top { FreeingIsOver(freed, top, s, root, count); }
    freed := freed + [q];
  }

  /** urldb_destroy_path_tree, for the tree below any node.
      `freed` are the nodes in the order of the calls of free: each node of the tree once,
      children before parents. A node whose fields are read has not been freed. */
  method DestroyPathTree(top: PathNode, ghost s: set<PathNode>, ghost root: PathNode, ghost count: nat)
    returns (ghost freed: seq<PathNode>)
    requires PathsOk(s, root, count) && top in s
    ensures freed == Post(top, s, root, count)
    ensures NoDup(freed) && ParentsFollow(freed, top)
  {
    var p: PathNode, more := top, true;
    freed := [];
    ghost var total := |Post(top, s, root, count)|;
    hide *;
    FreeingStarts(top, s, root, count);
    while more
      invariant if more then Freeing(freed, p, top, s, root, count) else freed == Post(top, s, root, count)
      decreases total - |freed|, more, count - p.born
    {
      NotFreed(freed, p, top, s, root, count);
      FreeingHere(freed, p, top, s, root, count);
      YoungerThanCount(freed, p, top, s, root, count);
      assert p !in freed;
      if p.children != null {
        FreeingGoesDown(freed, p, top, s, root, count);
        p := p.children;
      } else {
        FreeingLeaf(freed, p, top, s, root, count);
        p, freed := FreeUp(p, freed, top, s, root, count);
      }
      more := p != top;
    }
    PostNoDup(top, s, root, count);
    PostParents(top, s, root, count);
  }

  lemma YoungerThanCount(freed: seq<PathNode>, p: PathNode, top: PathNode, s: set<PathNode>, root: PathNode, count: nat)
    requires Freeing(freed, p, top, s, root, count)
    ensures p.born < count
  {
  }

  lemma PostFromStep(h: PathNode, i: nat, s: set<PathNode>, root: PathNode, count: nat)
    requires PathsOk(s, root, count) && h in s && i < |h.kids|
    ensures h.kids[i] in s && h.kids[i].next == (if i + 1 < |h.kids| then h.kids[i + 1] else null)
    ensures PostFrom(h, i, s, root, count) == Post(h.kids[i], s, root, count) + PostFrom(h, i + 1, s, root, count)
  {
    assert NodeOk(h, s, root, count) && LinkOk(h.kids, i);
  }

  /** The loop of urldb_destroy_host_tree over the paths of a host: all nodes but the
      root of the paths are freed, each once. The next sibling is looked up before its
      brother is freed. */
  method DestroyPaths(root: PathNode, ghost s: set<PathNode>, ghost count: nat) returns (ghost freed: seq<PathNode>)
    requires PathsOk(s, root, count)
    ensures NoDup(freed) && forall x :: x in freed <==> x in s && x != root
  {
    assert NodeOk(root, s, root, count);
    var p := root.children;
    ghost var i := 0;
    freed := [];
    ghost var all := PostFrom(root, 0, s, root, count);
    while p != null
      invariant i <= |root.kids| && p == (if i < |root.kids| then root.kids[i] else null)
      invariant all == freed + PostFrom(root, i, s, root, count)
      decreases |root.kids| - i
    {
      PostFromStep(root, i, s, root, count);
      var q := p.next;
      ghost var tree := DestroyPathTree(p, s, root, count);
      Regrouped(freed, tree, PostFrom(root, i + 1, s, root, count));
      freed, i, p := freed + tree, i + 1, q;
    }
    assert PostFrom(root, |root.kids|, s, root, count) == [] && freed == all;
    AllButRoot(s, root, count);
  }

  lemma AllButRoot(s: set<PathNode>, root: PathNode, count: nat)
    requires PathsOk(s, root, count)
    ensures NoDup(PostFrom(root, 0, s, root, count))
    ensures forall x :: x in PostFrom(root, 0, s, root, count) <==> x in s && x != root
  {
    assert NodeOk(root, s, root, count);
    PostFromNoDup(root, 0, s, root, count);
    forall x ensures x in PostFrom(root, 0, s, root, count) <==> x in s && x != root {
      PostMember(root, x, s, root, count);
      PostFromMember(root, 0, x, s, root, count);
      if x in s { AllBelow(x, s, root, count); }
    }
  }

  lemma {:induction false} AllBelow(p: PathNode, s: set<PathNode>, root: PathNode, count: nat)
    requires PathsOk(s, root, count) && p in s
    ensures Below(p, root, s, root, count)
    decreases p.born
  {
    assert NodeOk(p, s, root, count);
    if p != root {
      assert NodeOk(p.parent, s, root, count);
      AllBelow(p.parent, s, root, count);
    }
  }
}
