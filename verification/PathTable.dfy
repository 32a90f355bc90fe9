/** Runs of additions and searches on the paths of one host (content/urldb.c). */
module PathTable {
  import opened PathTree
  import opened PathWalks
  import opened PathDestroy

  datatype Key = Key(scheme: string, port: nat, path: string)

  /** Two nodes with the same name are the same node. */
  lemma {:induction false} IsAtUnique(d: PathNode, e: PathNode, root: PathNode, scheme: string, port: nat,
                                      segments: seq<string>, s: set<PathNode>, count: nat)
    requires PathsOk(s, root, count) && d in s && e in s
    requires IsAt(d, root, scheme, port, segments) && IsAt(e, root, scheme, port, segments)
    ensures d == e
    decreases |segments|
  {
    if segments != [] {
      assert NodeOk(d, s, root, count) && NodeOk(e, s, root, count);
      if d != root && e != root {
        IsAtUnique(d.parent, e.parent, root, scheme, port, segments[..|segments| - 1], s, count);
        var q := d.parent;
        assert NodeOk(q, s, root, count);
        SameName(q.kids, q, d, e);
      } else {
        assert false;
      }
    }
  }

  lemma SameName(kids: seq<PathNode>, q: PathNode, d: PathNode, e: PathNode)
    requires SiblingsOk(kids, q) && d in kids && e in kids && IsNamed(d, e.scheme, e.port, e.segment)
    ensures d == e
  {
    var i :| 0 <= i < |kids| && kids[i] == d;
    var j :| 0 <= j < |kids| && kids[j] == e;
    assert IsNamed(kids[i], kids[j].scheme, kids[j].port, kids[j].segment);
    assert IsNamed(kids[j], kids[i].scheme, kids[i].port, kids[i].segment);
  }

  lemma {:induction false} RecordIsSaved(leaves: seq<PathNode>, p: PathNode, expiry: int)
    requires p in leaves && Saved(p, expiry)
    ensures RecordOf(p) in SavedRecords(leaves, expiry)
  {
    var n := |leaves| - 1;
    if p != leaves[n] {
      RecordIsSaved(leaves[..n], p, expiry);
    }
  }

  lemma {:induction false} RecordIsOf(leaves: seq<PathNode>, r: Record, expiry: int) returns (p: PathNode)
    requires r in SavedRecords(leaves, expiry)
    ensures p in leaves && Saved(p, expiry) && r == RecordOf(p)
  {
    var n := |leaves| - 1;
    if r in SavedRecords(leaves[..n], expiry) {
      p := RecordIsOf(leaves[..n], r, expiry);
    } else {
      p := leaves[n];
    }
  }

  /** `added` holds the nodes of its keys. */
  ghost predicate AreNodes(added: map<Key, PathNode>, root: PathNode, s: set<PathNode>) {
    forall k :: k in added ==> added[k] in s && IsAt(added[k], root, k.scheme, k.port, Segments(k.path))
  }

  /** Only the nodes in `added` have an URL. */
  ghost predicate UrlsAreAdded(added: map<Key, PathNode>, s: set<PathNode>)
    reads s`hasUrl
  {
    forall h <- s :: h.hasUrl ==> h in added.Values
  }

  lemma AddedNext(added: map<Key, PathNode>, k: Key, d: PathNode, root: PathNode, s: set<PathNode>, s': set<PathNode>)
    requires AreNodes(added, root, s) && s <= s'
    requires d in s' && IsAt(d, root, k.scheme, k.port, Segments(k.path)) && (k in added ==> added[k] == d)
    ensures AreNodes(added[k := d], root, s') && added.Values + {d} <= added[k := d].Values
  {
    assert added[k := d][k] == d;
    forall h | h in added.Values ensures h in added[k := d].Values {
      var j :| j in added && added[j] == h;
      assert added[k := d][j] == h;
    }
  }

  /** The path as it is saved, with a slash in front. */
  function WithSlash(path: string): string {
    if path != "" && path[0] == '/' then path else "/" + path
  }

  /** The paths of a host. `added` records the node that each addition gave. */
  class Paths {
    const root: PathNode
    ghost var nodes: set<PathNode>
    ghost var count: nat
    ghost var added: map<Key, PathNode>

    ghost predicate Valid()
      reads this, nodes
    {
      && PathsOk(nodes, root, count) && LeavesHaveUrl(nodes, root, root) && root.segment == ""
      && AreNodes(added, root, nodes) && UrlsAreAdded(added, nodes)
      && !root.persistent && root.visits == 0
    }

    constructor ()
      ensures Valid() && added == map[] && fresh(nodes)
    {
      var r := new PathNode("", "", 0, null, 0);
      root := r;
      nodes, count, added := {r}, 1, map[];
      new;
      assert NodeOk(root, nodes, root, count);
    }

    /** The node of a path. It is a new node only if the path was not added
        before. */
    method Add(scheme: string, port: nat, path: string) returns (d: PathNode)
      requires Valid()
      modifies this, nodes
      ensures Valid() && old(nodes) <= nodes && fresh(nodes - old(nodes))
      ensures added == old(added)[Key(scheme, port, path) := d]
      ensures Key(scheme, port, path) in old(added) ==> d == old(added)[Key(scheme, port, path)]
    {
      hide PathsOk, LeavesHaveUrl, AreNodes, Segments, IsAt;
      ghost var s, n;
      d, s, n := AddPath(scheme, port, path, nodes, root, count);
      ghost var k := Key(scheme, port, path);
      SameNode(k, d, s, n);
      AddedNext(added, k, d, root, nodes, s);
      assert UrlsAreAdded(added[k := d], s);
      nodes, count, added := s, n, added[k := d];
    }

    lemma SameNode(k: Key, d: PathNode, s: set<PathNode>, n: nat)
      requires AreNodes(added, root, nodes) && nodes <= s && PathsOk(s, root, n)
      requires d in s && IsAt(d, root, k.scheme, k.port, Segments(k.path))
      ensures k in added ==> d == added[k]
    {
      if k in added {
        IsAtUnique(d, added[k], root, k.scheme, k.port, Segments(k.path), s, n);
      }
    }

    /** A path that was added is found, as the node that its addition gave. */
    method Match(scheme: string, port: nat, path: string) returns (p: PathNode?)
      requires Valid() && path != "" && path[0] == '/'
      ensures Key(scheme, port, path) in added ==> p == added[Key(scheme, port, path)]
      ensures p != null ==> p in nodes && p != root && IsFrontAt(p, root, scheme, port, Segments(path))
    {
      ghost var k := Key(scheme, port, path);
      p := MatchPath(root, path, scheme, port, nodes, count, if k in added then added[k] else null);
    }

    /** The node of `k` is a leaf that is to be saved, and `r` is its record. */
    ghost predicate IsKept(k: Key, r: Record, expiry: int)
      requires k in added && added[k] in nodes
      reads this, nodes
    {
      && added[k].kids == []
      && (added[k].persistent || (added[k].lastVisit > expiry && added[k].visits > 0))
      && r == Record(k.scheme, k.port, WithSlash(k.path), added[k].visits, added[k].lastVisit)
    }

    /** Saving. The records are just those of the paths that were added and are to be
        kept, each with its path, so that loading the records adds these paths again. */
    method Save(expiry: int) returns (n: nat, records: seq<Record>)
      requires Valid()
      ensures n == |records| && records == SavedRecords(Leaves(root, nodes, root, count), expiry)
      ensures forall r :: r in records <==> exists k :: k in added && added[k] in nodes && IsKept(k, r, expiry)
    {
      n, records := SavePaths(root, expiry, nodes, count);
      forall r ensures r in records <==> exists k :: k in added && added[k] in nodes && IsKept(k, r, expiry) {
        if r in records {
          KeptOf(r, expiry);
        }
        if k :| k in added && added[k] in nodes && IsKept(k, r, expiry) {
          KeptIsSaved(k, r, expiry);
        }
      }
    }

    lemma KeptIsSaved(k: Key, r: Record, expiry: int)
      requires Valid() && k in added && added[k] in nodes && IsKept(k, r, expiry)
      ensures r in SavedRecords(Leaves(root, nodes, root, count), expiry)
    {
      var p := added[k];
      SegmentsWithSlash(k.path);
      SavedAsAdded(p, root, k.scheme, k.port, WithSlash(k.path), nodes, count);
      AllBelow(p, nodes, root, count);
      LeavesAreVisitedOnce(root, p, nodes, root, count);
      RecordIsSaved(Leaves(root, nodes, root, count), p, expiry);
    }

    lemma KeptOf(r: Record, expiry: int)
      requires Valid() && r in SavedRecords(Leaves(root, nodes, root, count), expiry)
      ensures exists k :: k in added && added[k] in nodes && IsKept(k, r, expiry)
    {
      var p := RecordIsOf(Leaves(root, nodes, root, count), r, expiry);
      LeavesAreVisitedOnce(root, p, nodes, root, count);
      assert p.hasUrl;
      var k :| k in added && added[k] == p;
      SegmentsWithSlash(k.path);
      SavedAsAdded(p, root, k.scheme, k.port, WithSlash(k.path), nodes, count);
      assert IsKept(k, r, expiry);
    }

    lemma SegmentsWithSlash(path: string)
      ensures Segments(WithSlash(path)) == Segments(path)
    {
      assert ("/" + path)[1..] == path;
    }
  }
}
