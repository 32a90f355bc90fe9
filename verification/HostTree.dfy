/** The host tree: one node per domain segment, the top-level domains below the
    root (content/urldb.c). */
module HostTree {
  import opened HostOrder
  import opened HostPart

  /** No two siblings have the same part. */
  ghost predicate Differ(children: seq<Host>) {
    forall i, j :: 0 <= i < j < |children| ==> CompareText(children[i].part, children[j].part) != 0
  }

  ghost predicate HostOk(h: Host, s: set<Host>, root: Host)
    requires h in s
    reads s`children
  {
    && Rooted(h, root) && Differ(h.children)
    && (forall i :: 0 <= i < |h.children| ==> h.children[i].parent == h)
    && (h != root ==> h.parent != null && h.parent in s && h in h.parent.children)
  }

  /** `s` is the host tree below `root`. */
  ghost predicate HostsOk(s: set<Host>, root: Host)
    reads s`children
  {
    && root in s && (forall h <- s :: HostOk(h, s, root))
    && (forall h <- s, c <- h.children :: c in s)
  }

  /** Two nodes with the same path, up to case, are the same node. */
  lemma {:induction false} KeysAreUnique(s: set<Host>, root: Host, a: Host, b: Host)
    requires HostsOk(s, root) && a in s && b in s && Compare(a.key, b.key) == 0
    ensures a == b
    decreases |a.key|
  {
    if a != root && b != root {
      KeysAreUnique(s, root, a.parent, b.parent);
      var siblings := a.parent.children;
      var i :| 0 <= i < |siblings| && siblings[i] == a;
      var j :| 0 <= j < |siblings| && siblings[j] == b;
      CompareTextFlips(a.part, b.part);
    }
  }

  /** Look for a child with the given part. */
  method FindChild(d: Host, part: string) returns (e: Host?)
    ensures e != null ==> e in d.children && CompareText(part, e.part) == 0
    ensures e == null ==> forall i :: 0 <= i < |d.children| ==> CompareText(part, d.children[i].part) != 0
  {
    var i := 0;
    while i < |d.children|
      invariant i <= |d.children|
      invariant forall k :: 0 <= k < i ==> CompareText(part, d.children[k].part) != 0
    {
      if CompareText(part, d.children[i].part) == 0 { return d.children[i]; }
      i := i + 1;
    }
    e := null;
  }

  /** urldb_add_host_node */
  method AddHostNode(part: string, parent: Host, ghost s: set<Host>, ghost root: Host) returns (d: Host)
    requires HostsOk(s, root) && parent in s
    requires forall i :: 0 <= i < |parent.children| ==> CompareText(part, parent.children[i].part) != 0
    modifies parent`children
    ensures fresh(d) && d.parent == parent && d.part == part && d.key == [part] + parent.key
    ensures d.expires == 0 && !d.includeSubDomains && !d.permitInvalidCerts
    ensures HostsOk(s + {d}, root)
  {
    d := new Host(part, parent);
    parent.children := [d] + parent.children;
    forall h | h in s + {d} ensures HostOk(h, s + {d}, root) {
      assert h in s ==> old(HostOk(h, s, root));
      if h == d {
        assert parent.children[0] == d;
      }
    }
  }
}
