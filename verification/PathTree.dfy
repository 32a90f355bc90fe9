/** The paths known on a host: a tree with sorted sibling lists and links in all
    directions (content/urldb.c). */
module PathTree {

  /** struct path_data. The root has no segment of its own. `born` numbers the
      nodes as they are made, so that parents come before their children. */
  class PathNode {
    const segment: string
    const scheme: string
    const port: nat
    const parent: PathNode?
    ghost const born: nat
    var next: PathNode?
    var prev: PathNode?
    var children: PathNode?
    var last: PathNode?
    /** The list from `children` to `last`. */
    ghost var kids: seq<PathNode>
    var hasUrl: bool
    var persistent: bool
    var lastVisit: int
    var visits: nat

    constructor (segment: string, scheme: string, port: nat, parent: PathNode?, ghost born: nat)
      ensures this.segment == segment && this.scheme == scheme && this.port == port
      ensures this.parent == parent && this.born == born
      ensures next == null && prev == null && children == null && last == null && kids == []
      ensures !hasUrl && !persistent && visits == 0
    {
      this.segment, this.scheme, this.port, this.parent, this.born := segment, scheme, port, parent, born;
      next, prev, children, last, kids := null, null, null, null, [];
      hasUrl, persistent, lastVisit, visits := false, false, 0, 0;
    }
  }

  /** strcmp, up to the size of the result. */
  function StrCmp(a: string, b: string): int {
    if a == "" then (if b == "" then 0 else -1)
    else if b == "" then 1
    else if a[0] != b[0] then a[0] as int - b[0] as int
    else StrCmp(a[1..], b[1..])
  }

  lemma {:induction false} StrCmpTransitive(a: string, b: string, c: string)
    requires StrCmp(a, b) <= 0 && StrCmp(b, c) <= 0
    ensures StrCmp(a, c) <= 0
  {
    if a != "" && b != "" && c != "" && a[0] == b[0] == c[0] {
      StrCmpTransitive(a[1..], b[1..], c[1..]);
    }
  }

  lemma {:induction false} StrCmpFlips(a: string, b: string)
    ensures StrCmp(a, b) < 0 <==> StrCmp(b, a) > 0
    ensures StrCmp(a, b) == 0 <==> a == b
  {
    if a != "" && b != "" && a[0] == b[0] {
      StrCmpFlips(a[1..], b[1..]);
      assert a == [a[0]] + a[1..] && b == [b[0]] + b[1..];
    }
  }

  /** A text that starts with `p` and does not sort after `p` is `p`. */
  lemma {:induction false} PrefixSortsFirst(p: string, a: string)
    requires p <= a && StrCmp(a, p) <= 0
    ensures a == p
  {
    if p != "" {
      PrefixSortsFirst(p[1..], a[1..]);
      assert a == [a[0]] + a[1..];
    }
  }

  // ---------------------------------------------------------------------
  // The shape of the tree
  // ---------------------------------------------------------------------

  predicate IsNamed(n: PathNode, scheme: string, port: nat, segment: string) {
    n.segment == segment && n.scheme == scheme && n.port == port
  }

  /** The links of the `i`th child of `h`. */
  ghost predicate LinkOk(kids: seq<PathNode>, i: nat)
    requires i < |kids|
    reads {kids[i]}`next, {kids[i]}`prev
  {
    && kids[i].next == (if i + 1 < |kids| then kids[i + 1] else null)
    && kids[i].prev == (if i > 0 then kids[i - 1] else null)
  }

  /** The list of children of `h` is `h.kids`. */
  ghost predicate ListOk(h: PathNode)
    reads h`children, h`last, h`kids, h.kids`next, h.kids`prev
  {
    && h.children == (if h.kids == [] then null else h.kids[0])
    && h.last == (if h.kids == [] then null else h.kids[|h.kids| - 1])
    && forall i :: 0 <= i < |h.kids| ==> LinkOk(h.kids, i)
  }

  /** Siblings are sorted by segment, and no two have the same name. */
  ghost predicate SiblingsOk(kids: seq<PathNode>, parent: PathNode) {
    && (forall i :: 0 <= i < |kids| ==> kids[i].parent == parent && kids[i].born > parent.born)
    && (forall i, j :: 0 <= i < j < |kids| ==> StrCmp(kids[i].segment, kids[j].segment) <= 0)
    && (forall i, j :: 0 <= i < j < |kids| ==> !IsNamed(kids[i], kids[j].scheme, kids[j].port, kids[j].segment))
  }

  ghost predicate NodeOk(h: PathNode, s: set<PathNode>, root: PathNode, count: nat)
    requires h in s
    reads s
  {
    && h.born < count && AllIn(h.kids, s) && ListOk(h) && SiblingsOk(h.kids, h)
    && (if h == root then h.parent == null else h.parent != null && h.parent in s && h in h.parent.kids)
  }

  ghost predicate AllIn(kids: seq<PathNode>, s: set<PathNode>) {
    forall i :: 0 <= i < |kids| ==> kids[i] in s
  }

  /** `s` is the tree of paths below `root`. */
  ghost predicate PathsOk(s: set<PathNode>, root: PathNode, count: nat)
    reads s
  {
    root in s && forall h {:trigger NodeOk(h, s, root, count)} :: h in s ==> NodeOk(h, s, root, count)
  }

  // ---------------------------------------------------------------------
  // Adding a node
  // ---------------------------------------------------------------------

  /** `kids` with `d` put in at position `i`. */
  ghost function InsertAt(kids: seq<PathNode>, i: nat, d: PathNode): (r: seq<PathNode>)
    requires i <= |kids|
    ensures |r| == |kids| + 1 && r[i] == d
    ensures forall j :: 0 <= j < i ==> r[j] == kids[j]
    ensures forall j :: i < j < |r| ==> r[j] == kids[j - 1]
  {
    kids[..i] + [d] + kids[i..]
  }

  lemma InsertAtMembers(kids: seq<PathNode>, i: nat, d: PathNode)
    requires i <= |kids|
    ensures var r := InsertAt(kids, i, d);
            && d in r && (forall j :: 0 <= j < |kids| ==> kids[j] in r)
            && (forall j :: 0 <= j < |r| ==> r[j] == d || r[j] in kids)
  {
    var r := InsertAt(kids, i, d);
    forall j | 0 <= j < |kids| ensures kids[j] in r {
      assert r[if j < i then j else j + 1] == kids[j];
    }
  }

  ghost predicate IsUnlinked(d: PathNode, parent: PathNode)
    reads d, parent
  {
    && d.parent == parent && d != parent && d !in parent.kids && parent !in parent.kids
    && d.next == null && d.prev == null
  }

  lemma SiblingsAreDistinct(kids: seq<PathNode>, parent: PathNode)
    requires SiblingsOk(kids, parent)
    ensures forall j, k :: 0 <= j < k < |kids| ==> kids[j] != kids[k]
  {
    forall j, k | 0 <= j < k < |kids| ensures kids[j] != kids[k] {
      assert !IsNamed(kids[j], kids[k].scheme, kids[k].port, kids[k].segment);
    }
  }

  /** The links of the nodes `kids` with `d` spliced in at `i`. */
  ghost predicate Spliced(kids: seq<PathNode>, i: nat, d: PathNode)
    requires i < |kids|
    reads kids, d
  {
    && d.next == kids[i] && d.prev == (if i > 0 then kids[i - 1] else null)
    && forall j :: 0 <= j < |kids| ==> SplicedLink(kids, i, d, j)
  }

  ghost predicate SplicedLink(kids: seq<PathNode>, i: nat, d: PathNode, j: nat)
    requires j < |kids|
    reads kids[j]
  {
    && kids[j].next == (if j + 1 == i then d else if j + 1 < |kids| then kids[j + 1] else null)
    && kids[j].prev == (if j == i then d else if j > 0 then kids[j - 1] else null)
  }

  lemma SplicedIsList(parent: PathNode, kids: seq<PathNode>, i: nat, d: PathNode)
    requires i < |kids| && Spliced(kids, i, d) && parent.kids == InsertAt(kids, i, d)
    requires parent.children == (if i == 0 then d else kids[0]) && parent.last == kids[|kids| - 1]
    ensures ListOk(parent)
  {
    var now := parent.kids;
    forall j | 0 <= j < |now| ensures LinkOk(now, j) {
      assert j < i ==> SplicedLink(kids, i, d, j);
      assert j > i ==> SplicedLink(kids, i, d, j - 1);
      if j < i {
        assert now[j] == kids[j] && (j + 1 < i ==> now[j + 1] == kids[j + 1]) && (j > 0 ==> now[j - 1] == kids[j - 1]);
      } else if j == i {
        assert now[j + 1] == kids[j] && (j > 0 ==> now[j - 1] == kids[j - 1]);
      } else {
        assert now[j] == kids[j - 1] && (j + 1 < |now| ==> now[j + 1] == kids[j]);
        assert now[j - 1] == if j - 1 == i then d else kids[j - 2];
      }
    }
  }

  /** Link the new node `d` in front of `e`. */
  method LinkBefore(d: PathNode, e: PathNode, parent: PathNode, ghost i: nat)
    requires ListOk(parent) && SiblingsOk(parent.kids, parent) && IsUnlinked(d, parent)
    requires i < |parent.kids| && e == parent.kids[i]
    modifies parent`children, parent`kids, parent.kids`next, parent.kids`prev, d`next, d`prev
    ensures parent.kids == InsertAt(old(parent.kids), i, d)
    ensures ListOk(parent)
  {
    ghost var kids := parent.kids;
    SiblingsAreDistinct(kids, parent);
    Splice(d, e, parent, kids, i);
    assert Spliced(kids, i, d) && parent !in kids && parent != d;
    parent.kids := InsertAt(kids, i, d);
    assert Spliced(kids, i, d);
    SplicedIsList(parent, kids, i, d);
  }

  method Splice(d: PathNode, e: PathNode, parent: PathNode, ghost kids: seq<PathNode>, ghost i: nat)
    requires i < |kids| && e == kids[i] && parent.children == kids[0] && d !in kids
    requires forall j :: 0 <= j < |kids| ==> LinkOk(kids, j)
    requires forall j, k :: 0 <= j < k < |kids| ==> kids[j] != kids[k]
    modifies parent`children, kids`next, kids`prev, d`next, d`prev
    ensures Spliced(kids, i, d) && parent.children == if i == 0 then d else kids[0]
  {
    assert LinkOk(kids, i);
    assert i > 0 ==> LinkOk(kids, i - 1);
    d.prev := e.prev;
    d.next := e;
    if e.prev != null {
      e.prev.next := d;
    } else {
      parent.children := d;
    }
    e.prev := d;
    forall j | 0 <= j < |kids| ensures SplicedLink(kids, i, d, j) {
      assert old(LinkOk(kids, j));
    }
  }

  /** Link the new node `d` behind all children. */
  method LinkLast(d: PathNode, parent: PathNode)
    requires ListOk(parent) && SiblingsOk(parent.kids, parent) && IsUnlinked(d, parent)
    modifies parent`children, parent`last, parent`kids, parent.kids`next, parent.kids`prev, d`next, d`prev
    ensures parent.kids == InsertAt(old(parent.kids), |old(parent.kids)|, d)
    ensures ListOk(parent)
  {
    ghost var kids := parent.kids;
    SiblingsAreDistinct(kids, parent);
    if parent.children == null {
      d.prev, d.next := null, null;
      parent.children, parent.last := d, d;
    } else {
      d.next := null;
      d.prev := parent.last;
      parent.last.next := d;
      parent.last := d;
    }
    ghost var now := InsertAt(kids, |kids|, d);
    parent.kids := now;
    forall j | 0 <= j < |now| ensures LinkOk(now, j) {
      assert j < |kids| ==> now[j] == kids[j] && old(LinkOk(kids, j));
    }
  }

  /** The place of a new node in the list, and the child that comes after it. */
  method FindPlace(parent: PathNode, segment: string) returns (e: PathNode?, ghost i: nat)
    requires ListOk(parent) && SiblingsOk(parent.kids, parent)
    ensures i <= |parent.kids| && e == (if i < |parent.kids| then parent.kids[i] else null)
    ensures forall j :: 0 <= j < i ==> StrCmp(parent.kids[j].segment, segment) <= 0
    ensures i < |parent.kids| ==> StrCmp(parent.kids[i].segment, segment) > 0
  {
    e, i := parent.children, 0;
    while e != null
      invariant i <= |parent.kids| && e == (if i < |parent.kids| then parent.kids[i] else null)
      invariant forall j :: 0 <= j < i ==> StrCmp(parent.kids[j].segment, segment) <= 0
      decreases |parent.kids| - i
    {
      if StrCmp(e.segment, segment) > 0 { return; }
      assert LinkOk(parent.kids, i);
      e := e.next;
      i := i + 1;
    }
  }

  /** Is there a child with this name? */
  ghost predicate HasNamed(kids: seq<PathNode>, scheme: string, port: nat, segment: string) {
    exists i :: 0 <= i < |kids| && IsNamed(kids[i], scheme, port, segment)
  }

  lemma SortedWith(kids: seq<PathNode>, parent: PathNode, d: PathNode, i: nat)
    requires SiblingsOk(kids, parent) && i <= |kids| && d.parent == parent && d.born > parent.born
    requires !HasNamed(kids, d.scheme, d.port, d.segment)
    requires forall j :: 0 <= j < i ==> StrCmp(kids[j].segment, d.segment) <= 0
    requires i < |kids| ==> StrCmp(kids[i].segment, d.segment) > 0
    ensures SiblingsOk(InsertAt(kids, i, d), parent)
  {
    var now := InsertAt(kids, i, d);
    forall j, k | 0 <= j < k < |now|
      ensures StrCmp(now[j].segment, now[k].segment) <= 0
      ensures !IsNamed(now[j], now[k].scheme, now[k].port, now[k].segment)
    {
      if j == i {
        StrCmpFlips(kids[i].segment, d.segment);
        if k > i + 1 { StrCmpTransitive(d.segment, kids[i].segment, kids[k - 1].segment); }
        assert now[k] == kids[k - 1];
      } else if k != i {
        assert now[j] == kids[if j < i then j else j - 1] && now[k] == kids[if k < i then k else k - 1];
      }
    }
  }

  /** urldb_add_path_node. `i` is the position that the new node takes. */
  method AddPathNode(scheme: string, port: nat, segment: string, parent: PathNode, ghost born: nat)
    returns (d: PathNode, ghost i: nat)
    requires ListOk(parent) && SiblingsOk(parent.kids, parent) && parent !in parent.kids
    requires born > parent.born && !HasNamed(parent.kids, scheme, port, segment)
    modifies parent`children, parent`last, parent`kids, parent.kids`next, parent.kids`prev
    ensures fresh(d) && d.parent == parent && IsNamed(d, scheme, port, segment) && d.born == born
    ensures d.kids == [] && ListOk(d) && !d.hasUrl
    ensures i <= |old(parent.kids)| && parent.kids == InsertAt(old(parent.kids), i, d)
    ensures ListOk(parent) && SiblingsOk(parent.kids, parent)
  {
    d := new PathNode(segment, scheme, port, parent, born);
    var e;
    e, i := FindPlace(parent, segment);
    SortedWith(parent.kids, parent, d, i);
    if e != null {
      LinkBefore(d, e, parent, i);
    } else {
      LinkLast(d, parent);
    }
  }

  /** Only the links of `parent` and of its children have changed. */
  twostate predicate OnlyLinksBelow(parent: PathNode, kids: seq<PathNode>, s: set<PathNode>)
    reads s
  {
    && (forall h <- s :: h !in kids ==> h.next == old(h.next) && h.prev == old(h.prev))
    && (forall h <- s :: h != parent ==> h.children == old(h.children) && h.last == old(h.last) && h.kids == old(h.kids))
  }

  method AddBelow(scheme: string, port: nat, segment: string, parent: PathNode,
                  ghost s: set<PathNode>, ghost root: PathNode, ghost count: nat)
    returns (d: PathNode, ghost i: nat)
    requires PathsOk(s, root, count) && parent in s && !HasNamed(parent.kids, scheme, port, segment)
    modifies s`children, s`last, s`kids, s`next, s`prev
    ensures fresh(d) && d.parent == parent && IsNamed(d, scheme, port, segment) && d.born == count && !d.hasUrl
    ensures d.kids == [] && ListOk(d)
    ensures i <= |old(parent.kids)| && parent.kids == InsertAt(old(parent.kids), i, d)
    ensures ListOk(parent) && SiblingsOk(parent.kids, parent)
    ensures OnlyLinksBelow(parent, old(parent.kids), s)
  {
    assert NodeOk(parent, s, root, count);
    d, i := AddPathNode(scheme, port, segment, parent, count);
  }

  /** The lists of all other nodes stay as they are. */
  method AddToLists(scheme: string, port: nat, segment: string, parent: PathNode,
                    ghost s: set<PathNode>, ghost root: PathNode, ghost count: nat)
    returns (d: PathNode, ghost i: nat)
    requires PathsOk(s, root, count) && parent in s && !HasNamed(parent.kids, scheme, port, segment)
    modifies s`children, s`last, s`kids, s`next, s`prev
    ensures fresh(d) && d.parent == parent && IsNamed(d, scheme, port, segment) && d.born == count && !d.hasUrl
    ensures d.kids == [] && ListOk(d) && SiblingsOk(parent.kids, parent)
    ensures i <= |old(parent.kids)| && parent.kids == InsertAt(old(parent.kids), i, d)
    ensures forall h <- s :: ListOk(h) && (h != parent ==> h.kids == old(h.kids))
  {
    ghost var kids := parent.kids;
    assert NodeOk(parent, s, root, count);
    d, i := AddBelow(scheme, port, segment, parent, s, root, count);
    forall h | h in s && h != parent ensures ListOk(h) {
      assert old(NodeOk(h, s, root, count));
      forall j | 0 <= j < |h.kids| ensures LinkOk(h.kids, j) {
        assert old(LinkOk(h.kids, j)) && h.kids[j] !in kids;
      }
    }
  }

  lemma NoSiblings(parent: PathNode)
    ensures SiblingsOk([], parent)
  {
  }

  /** Add a node below `parent` in the tree `s`. */
  method AddChild(scheme: string, port: nat, segment: string, parent: PathNode,
                  ghost s: set<PathNode>, ghost root: PathNode, ghost count: nat)
    returns (d: PathNode)
    requires PathsOk(s, root, count) && parent in s && !HasNamed(parent.kids, scheme, port, segment)
    modifies s`children, s`last, s`kids, s`next, s`prev
    ensures fresh(d) && d.parent == parent && IsNamed(d, scheme, port, segment) && d.born == count && !d.hasUrl
    ensures d.kids == [] && d in parent.kids && forall h <- s :: h != parent ==> h.kids == old(h.kids)
    ensures PathsOk(s + {d}, root, count + 1)
  {
    hide ListOk, SiblingsOk, IsNamed, HasNamed;
    ghost var kids, i, s' := parent.kids, 0, s;
    assert NodeOk(parent, s, root, count);
    d, i := AddToLists(scheme, port, segment, parent, s, root, count);
    InsertAtMembers(kids, i, d);
    s' := s + {d};
    assert d in s' && forall h <- s :: h in s';
    assert AllIn(parent.kids, s');
    assert SiblingsOk(d.kids, d) by { NoSiblings(d); }
    assert NodeOk(d, s', root, count + 1);
    forall h | h in s ensures NodeOk(h, s', root, count + 1) {
      assert old(NodeOk(h, s, root, count));
      if h != parent {
        assert AllIn(h.kids, s) && AllIn(h.kids, s');
      }
      if h != root {
        if h.parent == parent {
          assert h in kids;
        } else {
          assert h.parent.kids == old(h.parent.kids);
        }
      }
    }
  }

  // ---------------------------------------------------------------------
  // Paths
  // ---------------------------------------------------------------------

  /** Index of the first slash, or the length (strchr). */
  function FirstSlash(b: string): (d: nat)
    ensures d <= |b| && (d < |b| ==> b[d] == '/')
  {
    if b == "" || b[0] == '/' then 0 else 1 + FirstSlash(b[1..])
  }

  /** The segments between the slashes. */
  function Split(b: string): (k: seq<string>)
    ensures k != []
  {
    var d := FirstSlash(b);
    if d == |b| then [b] else [b[..d]] + Split(b[d + 1..])
  }

  /** The segments of a path, which has a slash in front. */
  function Segments(path: string): seq<string> {
    Split(if path != "" && path[0] == '/' then path[1..] else path)
  }

  /** From `root`, the segments lead to `d`. */
  ghost predicate IsAt(d: PathNode, root: PathNode, scheme: string, port: nat, segments: seq<string>) {
    if segments == [] then d == root
    else
      var n := |segments| - 1;
      d.parent != null && IsNamed(d, scheme, port, segments[n]) && IsAt(d.parent, root, scheme, port, segments[..n])
  }

  /** Look for a child with the given name. */
  method FindNamed(d: PathNode, scheme: string, port: nat, segment: string) returns (e: PathNode?)
    requires ListOk(d)
    ensures e != null ==> e in d.kids && IsNamed(e, scheme, port, segment)
    ensures e == null ==> !HasNamed(d.kids, scheme, port, segment)
  {
    e := d.children;
    ghost var i := 0;
    while e != null
      invariant i <= |d.kids| && e == (if i < |d.kids| then d.kids[i] else null)
      invariant forall j :: 0 <= j < i ==> !IsNamed(d.kids[j], scheme, port, segment)
      decreases |d.kids| - i
    {
      if segment == e.segment && scheme == e.scheme && port == e.port { return; }
      assert LinkOk(d.kids, i);
      e := e.next;
      i := i + 1;
    }
  }

  /** Only the node `d` may be a leaf without an URL. */
  ghost predicate LeavesHaveUrl(s: set<PathNode>, root: PathNode, d: PathNode)
    reads s
  {
    forall h <- s :: h != root && h != d && h.kids == [] ==> h.hasUrl
  }

  /** The child of `d` with the given name, added if it is not there. */
  method EnsureChild(scheme: string, port: nat, segment: string, d: PathNode,
                     ghost s: set<PathNode>, ghost root: PathNode, ghost count: nat)
    returns (e: PathNode, ghost s': set<PathNode>, ghost count': nat)
    requires PathsOk(s, root, count) && d in s && LeavesHaveUrl(s, root, d)
    modifies s`children, s`last, s`kids, s`next, s`prev
    ensures PathsOk(s', root, count') && e in s' && LeavesHaveUrl(s', root, e)
    ensures s <= s' && fresh(s' - s) && forall h <- s' :: h.hasUrl ==> h in s
    ensures e.parent == d && IsNamed(e, scheme, port, segment) && e != root
  {
    assert NodeOk(d, s, root, count);
    var found := FindNamed(d, scheme, port, segment);
    if found != null {
      e, s', count' := found, s, count;
      assert NodeOk(e, s, root, count);
    } else {
      e := AddChild(scheme, port, segment, d, s, root, count);
      s', count' := s + {e}, count + 1;
      assert NodeOk(e, s', root, count');
    }
  }

  lemma RootIsAt(s: set<PathNode>, root: PathNode, count: nat, scheme: string, port: nat)
    requires PathsOk(s, root, count)
    ensures root in s && IsAt(root, root, scheme, port, [])
  {
  }

  /** urldb_add_path: the nodes of a path, added where they are missing. */
  method AddPath(scheme: string, port: nat, path: string,
                 ghost s: set<PathNode>, root: PathNode, ghost count: nat)
    returns (d: PathNode, ghost s': set<PathNode>, ghost count': nat)
    requires PathsOk(s, root, count) && LeavesHaveUrl(s, root, root)
    modifies s`children, s`last, s`kids, s`next, s`prev, s`hasUrl
    ensures PathsOk(s', root, count') && LeavesHaveUrl(s', root, root) && s <= s' && fresh(s' - s)
    ensures d in s' && IsAt(d, root, scheme, port, Segments(path)) && d.hasUrl
    ensures forall h <- s' :: h.hasUrl ==> h == d || (h in s && old(h.hasUrl))
  {
    hide PathsOk, LeavesHaveUrl, Split, FirstSlash, IsAt, IsNamed;
    d, s', count' := root, s, count;
    RootIsAt(s, root, count, scheme, port);
    var rest := if path != "" && path[0] == '/' then path[1..] else path;
    ghost var segments, done: seq<string> := Split(rest), [];
    var slash := FirstSlash(rest);
    while slash < |rest|
      invariant slash == FirstSlash(rest) && done + Split(rest) == segments
      invariant PathsOk(s', root, count') && d in s' && LeavesHaveUrl(s', root, d) && s <= s' && fresh(s' - s)
      invariant IsAt(d, root, scheme, port, done) && forall h <- s' :: h.hasUrl ==> h in s && old(h.hasUrl)
      decreases |rest|
    {
      d, s', count' := EnsureChild(scheme, port, rest[..slash], d, s', root, count');
      IsAtChild(d, root, scheme, port, done, rest[..slash]);
      SplitOff(done, rest);
      done := done + [rest[..slash]];
      rest := rest[slash + 1..];
      slash := FirstSlash(rest);
    }
    LastSegment(rest);
    d, s', count' := EnsureChild(scheme, port, rest, d, s', root, count');
    IsAtChild(d, root, scheme, port, done, rest);
    SetUrl(d, s', root, count');
  }

  lemma SplitOff(done: seq<string>, rest: string)
    requires FirstSlash(rest) < |rest|
    ensures var slash := FirstSlash(rest);
            done + Split(rest) == (done + [rest[..slash]]) + Split(rest[slash + 1..])
  {
    hide FirstSlash;
    var slash := FirstSlash(rest);
    var front, back := rest[..slash], Split(rest[slash + 1..]);
    assert Split(rest) == [front] + back;
    hide Split;
    Regroup(done, front, back);
  }

  lemma Regroup<T>(a: seq<T>, x: T, b: seq<T>)
    ensures a + ([x] + b) == (a + [x]) + b
  {
  }

  lemma LastSegment(rest: string)
    requires FirstSlash(rest) == |rest|
    ensures Split(rest) == [rest]
  {
  }

  lemma IsAtChild(e: PathNode, root: PathNode, scheme: string, port: nat, segments: seq<string>, segment: string)
    requires e.parent != null && IsAt(e.parent, root, scheme, port, segments) && IsNamed(e, scheme, port, segment)
    ensures IsAt(e, root, scheme, port, segments + [segment])
  {
    assert (segments + [segment])[..|segments|] == segments;
  }

  /** Record that there is an URL for the node. */
  method SetUrl(d: PathNode, ghost s: set<PathNode>, ghost root: PathNode, ghost count: nat)
    requires PathsOk(s, root, count) && d in s && LeavesHaveUrl(s, root, d)
    modifies d`hasUrl
    ensures PathsOk(s, root, count) && LeavesHaveUrl(s, root, root) && d.hasUrl
  {
    d.hasUrl := true;
    forall h | h in s ensures NodeOk(h, s, root, count) {
      assert old(NodeOk(h, s, root, count));
    }
  }

  // ---------------------------------------------------------------------
  // Matching
  // ---------------------------------------------------------------------

  /** The node on the way to `g` after `k` segments. */
  ghost function Ancestor(g: PathNode, root: PathNode, scheme: string, port: nat, segments: seq<string>, k: nat): (a: PathNode)
    requires IsAt(g, root, scheme, port, segments) && k <= |segments|
    ensures IsAt(a, root, scheme, port, segments[..k])
    decreases |segments|
  {
    if k == |segments| then
      assert segments[..k] == segments;
      g
    else
      var front := segments[..|segments| - 1];
      assert front[..k] == segments[..k];
      Ancestor(g.parent, root, scheme, port, front, k)
  }

  lemma {:induction false} AncestorStep(g: PathNode, root: PathNode, scheme: string, port: nat, segments: seq<string>, k: nat,
                                        s: set<PathNode>, count: nat)
    requires PathsOk(s, root, count) && g in s && IsAt(g, root, scheme, port, segments) && k < |segments|
    ensures var a := Ancestor(g, root, scheme, port, segments, k);
            var b := Ancestor(g, root, scheme, port, segments, k + 1);
            a in s && b in s && b.parent == a && b in a.kids && IsNamed(b, scheme, port, segments[k])
    decreases |segments|
  {
    assert NodeOk(g, s, root, count);
    if g == root { assert false; }
    if k + 1 < |segments| {
      AncestorStep(g.parent, root, scheme, port, segments[..|segments| - 1], k, s, count);
    }
  }

  lemma {:induction false} AncestorRoot(g: PathNode, root: PathNode, scheme: string, port: nat, segments: seq<string>)
    requires IsAt(g, root, scheme, port, segments)
    ensures Ancestor(g, root, scheme, port, segments, 0) == root
    decreases |segments|
  {
    if segments != [] {
      AncestorRoot(g.parent, root, scheme, port, segments[..|segments| - 1]);
    }
  }

  /** A segment of a path is compared only with the front of a node's segment. */
  predicate MatchesFront(p: PathNode, segment: string, scheme: string, port: nat) {
    segment <= p.segment && p.scheme == scheme && p.port == port
  }

  /** Of the siblings that match a segment, the one with exactly that segment
      comes first. */
  lemma ExactComesFirst(kids: seq<PathNode>, parent: PathNode, i: nat, j: nat, segment: string, scheme: string, port: nat)
    requires SiblingsOk(kids, parent) && i <= j < |kids|
    requires IsNamed(kids[j], scheme, port, segment) && MatchesFront(kids[i], segment, scheme, port)
    ensures i == j
  {
    if i < j {
      PrefixSortsFirst(segment, kids[i].segment);
    }
  }

  /** The node that the path to `g` takes from `q` is not before the `j`th child. */
  ghost predicate GoalAhead(g: PathNode?, root: PathNode, scheme: string, port: nat, segments: seq<string>,
                            k: nat, q: PathNode, j: nat)
    reads q
  {
    g != null ==>
      && k < |segments| && IsAt(g, root, scheme, port, segments)
      && exists n :: j <= n < |q.kids| && q.kids[n] == Ancestor(g, root, scheme, port, segments, k + 1)
  }

  lemma GoalBelow(g: PathNode?, root: PathNode, scheme: string, port: nat, segments: seq<string>,
                  k: nat, q: PathNode, s: set<PathNode>, count: nat)
    requires PathsOk(s, root, count)
    requires g != null ==>
               && g in s && k < |segments| && IsAt(g, root, scheme, port, segments)
               && q == Ancestor(g, root, scheme, port, segments, k)
    ensures GoalAhead(g, root, scheme, port, segments, k, q, 0)
  {
    if g != null {
      AncestorStep(g, root, scheme, port, segments, k, s, count);
      var b := Ancestor(g, root, scheme, port, segments, k + 1);
      var n :| 0 <= n < |q.kids| && q.kids[n] == b;
    }
  }

  /** A child that matches a segment of the path to `g` is on that path; one that
      does not is before it. */
  lemma GoalStep(g: PathNode, root: PathNode, scheme: string, port: nat, segments: seq<string>,
                 k: nat, q: PathNode, j: nat, s: set<PathNode>, count: nat)
    requires PathsOk(s, root, count) && g in s && q in s && j < |q.kids|
    requires GoalAhead(g, root, scheme, port, segments, k, q, j)
    ensures if MatchesFront(q.kids[j], segments[k], scheme, port)
            then q.kids[j] == Ancestor(g, root, scheme, port, segments, k + 1)
            else GoalAhead(g, root, scheme, port, segments, k, q, j + 1)
  {
    var b := Ancestor(g, root, scheme, port, segments, k + 1);
    var n :| j <= n < |q.kids| && q.kids[n] == b;
    AncestorStep(g, root, scheme, port, segments, k, s, count);
    assert NodeOk(q, s, root, count);
    if MatchesFront(q.kids[j], segments[k], scheme, port) {
      ExactComesFirst(q.kids, q, j, n, segments[k], scheme, port);
    }
  }

  lemma NextSegment(segments: seq<string>, k: nat, rest: string)
    requires k < |segments| && segments[k..] == Split(rest)
    ensures var slash := FirstSlash(rest);
            && segments[k] == rest[..slash]
            && if slash == |rest| then k + 1 == |segments| else k + 1 < |segments| && segments[k + 1..] == Split(rest[slash + 1..])
  {
    var back := segments[k..];
    assert back[0] == segments[k] && back[1..] == segments[k + 1..];
    SplitIs(rest);
    hide Split, FirstSlash;
  }

  lemma SplitIs(b: string)
    ensures var d := FirstSlash(b);
            if d == |b| then Split(b) == [b] && b[..d] == b
            else Split(b)[0] == b[..d] && Split(b)[1..] == Split(b[d + 1..])
  {
    hide FirstSlash;
    var d := FirstSlash(b);
    if d == |b| {
      assert b[..d] == b;
    } else {
      FirstOfTwo(b[..d], Split(b[d + 1..]));
    }
  }

  lemma FirstOfTwo<T>(x: T, back: seq<T>)
    ensures ([x] + back)[0] == x && ([x] + back)[1..] == back
  {
  }

  /** Where the links of the `j`th child of `q` lead. */
  lemma NextInTree(q: PathNode, j: nat, s: set<PathNode>, root: PathNode, count: nat)
    requires PathsOk(s, root, count) && q in s && j < |q.kids|
    ensures var p := q.kids[j];
            && p in s && p != root && p.next == (if j + 1 < |q.kids| then q.kids[j + 1] else null)
            && p.children == (if p.kids == [] then null else p.kids[0])
  {
    assert NodeOk(q, s, root, count) && LinkOk(q.kids, j);
    assert NodeOk(q.kids[j], s, root, count);
  }

  /** What is found from the `j`th child of `q` on: the first child whose front
      matches the first segment decides, and there is no way back from it. */
  ghost function FrontMatch(q: PathNode, j: nat, scheme: string, port: nat, segments: seq<string>): PathNode?
    requires segments != []
    reads *
    decreases |segments|, |q.kids| - j
  {
    if j >= |q.kids| then null
    else if !MatchesFront(q.kids[j], segments[0], scheme, port) then FrontMatch(q, j + 1, scheme, port, segments)
    else if |segments| == 1 then q.kids[j]
    else FrontMatch(q.kids[j], 0, scheme, port, segments[1..])
  }

  lemma NextFrontMatch(q: PathNode, j: nat, scheme: string, port: nat, segments: seq<string>, k: nat)
    requires k < |segments| && j < |q.kids|
    ensures var p := q.kids[j];
            FrontMatch(q, j, scheme, port, segments[k..]) ==
            if !MatchesFront(p, segments[k], scheme, port) then FrontMatch(q, j + 1, scheme, port, segments[k..])
            else if k + 1 == |segments| then p
            else FrontMatch(p, 0, scheme, port, segments[k + 1..])
  {
    assert segments[k..][1..] == segments[k + 1..];
  }

  /** From `root`, fronts of the segments of nodes lead to `d`. */
  ghost predicate IsFrontAt(d: PathNode, root: PathNode, scheme: string, port: nat, segments: seq<string>) {
    if segments == [] then d == root
    else
      var n := |segments| - 1;
      d.parent != null && MatchesFront(d, segments[n], scheme, port) && IsFrontAt(d.parent, root, scheme, port, segments[..n])
  }

  /** Whatever is found is reached by the segments, read as fronts. */
  lemma {:induction false} FoundByFronts(q: PathNode, j: nat, scheme: string, port: nat, done: seq<string>, segments: seq<string>,
                                         s: set<PathNode>, root: PathNode, count: nat)
    requires segments != [] && PathsOk(s, root, count) && q in s && IsFrontAt(q, root, scheme, port, done)
    ensures var p := FrontMatch(q, j, scheme, port, segments);
            p != null ==> IsFrontAt(p, root, scheme, port, done + segments)
    decreases |segments|, |q.kids| - j
  {
    if j < |q.kids| {
      assert NodeOk(q, s, root, count);
      var p, one := q.kids[j], done + [segments[0]];
      if !MatchesFront(p, segments[0], scheme, port) {
        FoundByFronts(q, j + 1, scheme, port, done, segments, s, root, count);
      } else {
        assert one[..|done|] == done;
        assert IsFrontAt(p, root, scheme, port, one);
        if |segments| == 1 {
          assert segments == [segments[0]];
        } else {
          FoundByFronts(p, 0, scheme, port, one, segments[1..], s, root, count);
          assert one + segments[1..] == done + segments;
        }
      }
    }
  }

  /** The search stands before the `j`th child of `q`, with `rest` of the path left. What is
      found from here on is `goal`. */
  ghost predicate Seeking(g: PathNode?, root: PathNode, scheme: string, port: nat, segments: seq<string>, goal: PathNode?,
                          k: nat, q: PathNode, j: nat, rest: string, s: set<PathNode>)
    reads *
  {
    && k < |segments| && segments[k..] == Split(rest) && q in s && j <= |q.kids|
    && GoalAhead(g, root, scheme, port, segments, k, q, j)
    && FrontMatch(q, j, scheme, port, segments[k..]) == goal
  }

  lemma SeekStarts(g: PathNode?, root: PathNode, scheme: string, port: nat, path: string, s: set<PathNode>, count: nat)
    requires path != "" && path[0] == '/' && PathsOk(s, root, count)
    requires g != null ==> g in s && IsAt(g, root, scheme, port, Segments(path))
    ensures var segments := Segments(path);
            && var goal := FrontMatch(root, 0, scheme, port, segments);
            && Seeking(g, root, scheme, port, segments, goal, 0, root, 0, path[1..], s)
            && root.children == (if root.kids == [] then null else root.kids[0])
            && (goal != null ==> IsFrontAt(goal, root, scheme, port, segments))
  {
    hide Split, FrontMatch, IsFrontAt, MatchesFront;
    var segments := Segments(path);
    if g != null { AncestorRoot(g, root, scheme, port, segments); }
    GoalBelow(g, root, scheme, port, segments, 0, root, s, count);
    assert NodeOk(root, s, root, count) && segments[0..] == segments;
    StandsAtItself(root, scheme, port);
    FoundByFronts(root, 0, scheme, port, [], segments, s, root, count);
    assert [] + segments == segments;
  }

  lemma StandsAtItself(root: PathNode, scheme: string, port: nat)
    ensures IsFrontAt(root, root, scheme, port, [])
  {
  }

  lemma NoGoal(root: PathNode, scheme: string, port: nat, segments: seq<string>, k: nat, q: PathNode, j: nat)
    ensures GoalAhead(null, root, scheme, port, segments, k, q, j)
  {
  }

  /** One child is looked at. */
  lemma SeekNext(g: PathNode?, root: PathNode, scheme: string, port: nat, segments: seq<string>, goal: PathNode?,
                 k: nat, q: PathNode, j: nat, rest: string, s: set<PathNode>, count: nat)
    requires PathsOk(s, root, count) && (g != null ==> g in s && IsAt(g, root, scheme, port, segments))
    requires Seeking(g, root, scheme, port, segments, goal, k, q, j, rest, s) && j < |q.kids|
    ensures var p, slash := q.kids[j], FirstSlash(rest);
            && p in s && p != root && p.next == (if j + 1 < |q.kids| then q.kids[j + 1] else null)
            && p.children == (if p.kids == [] then null else p.kids[0])
            && if !MatchesFront(p, rest[..slash], scheme, port) then
                 Seeking(g, root, scheme, port, segments, goal, k, q, j + 1, rest, s)
               else if slash == |rest| then goal == p && (g != null ==> g == p)
               else Seeking(g, root, scheme, port, segments, goal, k + 1, p, 0, rest[slash + 1..], s)
  {
    hide GoalAhead, FrontMatch, Split, FirstSlash, IsAt, MatchesFront;
    NextInTree(q, j, s, root, count);
    NextFrontMatch(q, j, scheme, port, segments, k);
    NextSegment(segments, k, rest);
    if g != null {
      GoalStep(g, root, scheme, port, segments, k, q, j, s, count);
    } else {
      NoGoal(root, scheme, port, segments, k, q, j + 1);
    }
    if MatchesFront(q.kids[j], segments[k], scheme, port) && FirstSlash(rest) != |rest| {
      GoalBelow(g, root, scheme, port, segments, k + 1, q.kids[j], s, count);
    }
  }

  lemma SeekEnds(g: PathNode?, root: PathNode, scheme: string, port: nat, segments: seq<string>, goal: PathNode?,
                 k: nat, q: PathNode, j: nat, rest: string, s: set<PathNode>)
    requires Seeking(g, root, scheme, port, segments, goal, k, q, j, rest, s) && j >= |q.kids|
    ensures goal == null && g == null
  {
    NoFrontMatch(q, j, scheme, port, segments[k..]);
    NotAhead(g, root, scheme, port, segments, k, q, j);
  }

  lemma SeekPlace(g: PathNode?, root: PathNode, scheme: string, port: nat, segments: seq<string>, goal: PathNode?,
                  k: nat, q: PathNode, j: nat, rest: string, s: set<PathNode>)
    requires Seeking(g, root, scheme, port, segments, goal, k, q, j, rest, s)
    ensures q in s && j <= |q.kids|
  {
  }

  /** urldb_match_path. If the path was added as the node `g`, then `g` is found,
      although only the fronts of segments are compared. */
  method MatchPath(parent: PathNode, path: string, scheme: string, port: nat,
                   ghost s: set<PathNode>, ghost count: nat, ghost g: PathNode?)
    returns (p: PathNode?)
    requires path != "" && path[0] == '/'
    requires PathsOk(s, parent, count)
    requires g != null ==> g in s && IsAt(g, parent, scheme, port, Segments(path))
    ensures p == FrontMatch(parent, 0, scheme, port, Segments(path))
    ensures g != null ==> p == g
    ensures p != null ==> p in s && p != parent && IsFrontAt(p, parent, scheme, port, Segments(path))
  {
    hide PathsOk, Seeking, FrontMatch, Split, FirstSlash, IsAt, IsFrontAt;
    ghost var segments, k: nat, q: PathNode, j: nat := Segments(path), 0, parent, 0;
    ghost var goal := FrontMatch(parent, 0, scheme, port, segments);
    var rest := path[1..];
    SeekStarts(g, parent, scheme, port, path, s, count);
    p := parent.children;
    while p != null
      invariant Seeking(g, parent, scheme, port, segments, goal, k, q, j, rest, s) && j <= |q.kids|
      invariant p == (if j < |q.kids| then q.kids[j] else null)
      decreases |rest|, |q.kids| - j
    {
      SeekPlace(g, parent, scheme, port, segments, goal, k, q, j, rest, s);
      SeekNext(g, parent, scheme, port, segments, goal, k, q, j, rest, s, count);
      var slash := FirstSlash(rest);
      if rest[..slash] <= p.segment && p.scheme == scheme && p.port == port {
        if slash == |rest| { return; }
        k, q, j := k + 1, p, 0;
        p := p.children;
        rest := rest[slash + 1..];
      } else {
        j := j + 1;
        p := p.next;
      }
    }
    SeekEnds(g, parent, scheme, port, segments, goal, k, q, j, rest, s);
  }

  lemma NoFrontMatch(q: PathNode, j: nat, scheme: string, port: nat, segments: seq<string>)
    requires segments != [] && j >= |q.kids|
    ensures FrontMatch(q, j, scheme, port, segments) == null
  {
  }

  lemma NotAhead(g: PathNode?, root: PathNode, scheme: string, port: nat, segments: seq<string>,
                 k: nat, q: PathNode, j: nat)
    requires GoalAhead(g, root, scheme, port, segments, k, q, j) && j >= |q.kids|
    ensures g == null
  {
  }
}
