/** The AA-tree that indexes the hosts (content/urldb.c). The first half is the
    tree as a value, with what insertion keeps; the second half is the pointer
    structure with its shared sentinel, rotated in place. */
module SearchTree {
  import opened HostOrder
  import opened HostPart

  /** struct search_node. The sentinel has level 0 and points to itself. */
  class SearchNode {
    const data: Host?
    var level: nat
    var left: SearchNode
    var right: SearchNode

    /** The sentinel. */
    constructor Empty()
      ensures IsSentinel(this) && data == null
    {
      data, level := null, 0;
      left, right := this, this;
    }

    constructor (data: Host, empty: SearchNode)
      ensures this.data == data && level == 1 && left == empty && right == empty
    {
      this.data, level, left, right := data, 1, empty, empty;
    }
  }

  predicate IsSentinel(n: SearchNode)
    reads n
  {
    n.level == 0 && n.left == n && n.right == n
  }

  // ---------------------------------------------------------------------
  // The tree as a value
  // ---------------------------------------------------------------------

  datatype Tree = Leaf | Node(node: SearchNode, host: Host, level: nat, left: Tree, right: Tree)

  function Level(t: Tree): nat { if t.Leaf? then 0 else t.level }

  function Skew(t: Tree): Tree
    requires t.Node?
  {
    if t.left.Node? && t.left.level == t.level then
      t.left.(right := t.(left := t.left.right))
    else t
  }

  function Split(t: Tree): Tree
    requires t.Node?
  {
    if t.right.Node? && t.right.right.Node? && t.right.right.level == t.level then
      t.right.(left := t.(right := t.right.left), level := t.right.level + 1)
    else t
  }

  ghost function Insert(t: Tree, n: SearchNode, h: Host): Tree {
    match t
    case Leaf => Node(n, h, 1, Leaf, Leaf)
    case Node(_, _, _, _, _) =>
      var c := Compare(t.host.key, h.key);
      if c > 0 then Split(Skew(t.(left := Insert(t.left, n, h))))
      else if c < 0 then Split(Skew(t.(right := Insert(t.right, n, h))))
      else t
  }

  /** The level rules. */
  predicate Balanced(t: Tree) {
    t.Node? ==>
      && Balanced(t.left) && Balanced(t.right)
      && t.level == Level(t.left) + 1
      && (t.level == Level(t.right) + 1 || t.level == Level(t.right))
      && (t.right.Node? ==> Level(t.right.right) < t.level)
  }

  /** What an insertion into `t` may give: a tree that keeps the level rules and
      that is one level higher only if `t` had a horizontal right link, and
      then both its children are one level down. */
  predicate GrownFrom(r: Tree, t: Tree) {
    && Balanced(r) && r.Node?
    && (Level(r) == Level(t) || Level(r) == Level(t) + 1)
    && (Level(r) > Level(t) ==> Level(r.left) == Level(t) && Level(r.right) == Level(t))
    && (Level(r) > Level(t) && t.Node? ==> Level(t.right) == Level(t))
  }

  lemma FixLeft(t: Tree, l: Tree)
    requires Balanced(t) && t.Node? && GrownFrom(l, t.left)
    ensures GrownFrom(Split(Skew(t.(left := l))), t)
  {
    if l.level == t.level {
      assert Skew(t.(left := l)).right == t.(left := l.right);
      assert Balanced(t.(left := l.right));
    }
  }

  lemma FixRight(t: Tree, r: Tree)
    requires Balanced(t) && t.Node? && GrownFrom(r, t.right)
    ensures GrownFrom(Split(Skew(t.(right := r))), t)
  {
    assert Skew(t.(right := r)) == t.(right := r);
    if r.right.Node? && r.right.level == t.level {
      assert r.level == t.level && Level(r.left) + 1 == t.level;
      assert Balanced(r.left);
      assert Balanced(t.(right := r.left));
    }
  }

  /** Insertion keeps the level rules. */
  lemma {:induction false} InsertKeepsBalance(t: Tree, n: SearchNode, h: Host)
    requires Balanced(t)
    ensures GrownFrom(Insert(t, n, h), t)
  {
    if t.Node? {
      var c := Compare(t.host.key, h.key);
      if c > 0 {
        InsertKeepsBalance(t.left, n, h);
        FixLeft(t, Insert(t.left, n, h));
      } else if c < 0 {
        InsertKeepsBalance(t.right, n, h);
        FixRight(t, Insert(t.right, n, h));
      }
    }
  }

  /** The hosts, in index order. */
  function Hosts(t: Tree): seq<Host> {
    match t
    case Leaf => []
    case Node(_, h, _, l, r) => Hosts(l) + [h] + Hosts(r)
  }

  ghost predicate Sorted(s: seq<Host>) {
    forall i, j :: 0 <= i < j < |s| ==> Compare(s[i].key, s[j].key) < 0
  }

  /** The host is added in its place, unless one that compares equal is there. */
  ghost function AddSorted(s: seq<Host>, h: Host): seq<Host> {
    if s == [] then [h]
    else
      var c := Compare(s[0].key, h.key);
      if c > 0 then [h] + s else if c < 0 then [s[0]] + AddSorted(s[1..], h) else s
  }

  /** Adding to a sorted sequence is adding to the part left or right of an
      element, as the comparison with that element says. */
  lemma {:induction false} AddSortedSplits(a: seq<Host>, m: Host, b: seq<Host>, h: Host)
    requires forall i :: 0 <= i < |a| ==> Compare(a[i].key, m.key) < 0
    ensures var c := Compare(m.key, h.key);
            AddSorted(a + [m] + b, h) ==
              if c > 0 then AddSorted(a, h) + [m] + b
              else if c < 0 then a + [m] + AddSorted(b, h)
              else a + [m] + b
  {
    var s := a + [m] + b;
    if a == [] {
      assert s == [m] + b;
      assert s[1..] == b;
    } else {
      var a', c := a[1..], Compare(m.key, h.key);
      assert a == [a[0]] + a' && s[0] == a[0];
      assert s[1..] == a' + [m] + b;
      assert forall i :: 0 <= i < |a'| ==> a'[i] == a[i + 1];
      AddSortedSplits(a', m, b, h);
      if c <= 0 {
        CompareTransitive(a[0].key, m.key, h.key);
      }
      Reassociate([a[0]], AddSorted(a', h), m, b);
      Reassociate([a[0]], a', m, AddSorted(b, h));
      Reassociate([a[0]], a', m, b);
    }
  }

  lemma Reassociate(a: seq<Host>, b: seq<Host>, m: Host, c: seq<Host>)
    ensures a + (b + [m] + c) == (a + b) + [m] + c
  {
  }

  lemma SkewKeepsHosts(t: Tree)
    requires t.Node?
    ensures Hosts(Skew(t)) == Hosts(t)
  {
    if t.left.Node? {
      Reassociate(Hosts(t.left.left) + [t.left.host], Hosts(t.left.right), t.host, Hosts(t.right));
    }
  }

  lemma SplitKeepsHosts(t: Tree)
    requires t.Node?
    ensures Hosts(Split(t)) == Hosts(t)
  {
    if t.right.Node? {
      Reassociate(Hosts(t.left) + [t.host], Hosts(t.right.left), t.right.host, Hosts(t.right.right));
    }
  }

  lemma SortedParts(t: Tree)
    requires t.Node? && Sorted(Hosts(t))
    ensures Sorted(Hosts(t.left)) && Sorted(Hosts(t.right))
    ensures forall i :: 0 <= i < |Hosts(t.left)| ==> Compare(Hosts(t.left)[i].key, t.host.key) < 0
    ensures forall i :: 0 <= i < |Hosts(t.right)| ==> Compare(t.host.key, Hosts(t.right)[i].key) < 0
  {
    SortedCut(Hosts(t.left), t.host, Hosts(t.right));
  }

  lemma SortedCut(a: seq<Host>, h: Host, b: seq<Host>)
    requires Sorted(a + [h] + b)
    ensures Sorted(a) && Sorted(b)
    ensures forall i :: 0 <= i < |a| ==> Compare(a[i].key, h.key) < 0
    ensures forall i :: 0 <= i < |b| ==> Compare(h.key, b[i].key) < 0
  {
    var s := a + [h] + b;
    assert s[|a|] == h;
    assert forall i :: 0 <= i < |a| ==> s[i] == a[i];
    assert forall i :: 0 <= i < |b| ==> s[|a| + 1 + i] == b[i];
  }

  /** Insertion puts the host in its place in index order; if an equal one is
      there, it changes nothing. */
  lemma {:induction false} InsertAddsSorted(t: Tree, n: SearchNode, h: Host)
    requires Sorted(Hosts(t))
    ensures Hosts(Insert(t, n, h)) == AddSorted(Hosts(t), h)
  {
    if t.Node? {
      SortedParts(t);
      AddSortedSplits(Hosts(t.left), t.host, Hosts(t.right), h);
      var c := Compare(t.host.key, h.key);
      if c > 0 {
        InsertAddsSorted(t.left, n, h);
        SkewKeepsHosts(t.(left := Insert(t.left, n, h)));
        SplitKeepsHosts(Skew(t.(left := Insert(t.left, n, h))));
      } else if c < 0 {
        InsertAddsSorted(t.right, n, h);
        SkewKeepsHosts(t.(right := Insert(t.right, n, h)));
        SplitKeepsHosts(Skew(t.(right := Insert(t.right, n, h))));
      }
    }
  }

  /** Is a host that compares equal to `k` among `s`? */
  ghost predicate Has(s: seq<Host>, k: Key) {
    exists i :: 0 <= i < |s| && Compare(s[i].key, k) == 0
  }

  /** How many hosts at the front are below `k`. */
  ghost function Rank(s: seq<Host>, k: Key): (r: nat)
    ensures r <= |s|
  {
    if s != [] && Compare(s[0].key, k) < 0 then 1 + Rank(s[1..], k) else 0
  }

  /** In a sorted sequence the rank separates the hosts below from those above. */
  lemma {:induction false} RankSeparates(s: seq<Host>, k: Key)
    requires Sorted(s)
    ensures forall i :: 0 <= i < Rank(s, k) ==> Compare(s[i].key, k) < 0
    ensures forall i :: Rank(s, k) <= i < |s| ==> Compare(k, s[i].key) <= 0
    ensures forall i :: Rank(s, k) < i < |s| ==> Compare(k, s[i].key) < 0
  {
    if s != [] {
      CompareFlips(s[0].key, k);
      if Compare(s[0].key, k) < 0 {
        var rest := s[1..];
        assert forall i :: 0 < i < |s| ==> s[i] == rest[i - 1];
        RankSeparates(rest, k);
      } else {
        forall i | 0 < i < |s| ensures Compare(k, s[i].key) < 0 {
          CompareTransitive(k, s[0].key, s[i].key);
        }
      }
    }
  }

  /** What `AddSorted` does: it puts the host at its rank, or, if an equal host
      is there already, leaves the sequence alone. */
  lemma {:induction false} AddSortedIsAtRank(s: seq<Host>, h: Host)
    ensures var r := Rank(s, h.key);
            AddSorted(s, h) == if r < |s| && Compare(s[r].key, h.key) == 0 then s else s[..r] + [h] + s[r..]
  {
    hide Compare;
    if s != [] && Compare(s[0].key, h.key) < 0 {
      var x, back := s[0], s[1..];
      var r := Rank(back, h.key);
      AddSortedIsAtRank(back, h);
      assert s == [x] + back;
      PutBehind(x, back, r, h);
    }
  }

  lemma PutBehind(x: Host, back: seq<Host>, r: nat, h: Host)
    requires r <= |back|
    ensures var s := [x] + back; [x] + (back[..r] + [h] + back[r..]) == s[..r + 1] + [h] + s[r + 1..]
  {
  }

  lemma AddSortedKeepsOrder(s: seq<Host>, h: Host)
    requires Sorted(s)
    ensures Sorted(AddSorted(s, h))
  {
    var r := Rank(s, h.key);
    AddSortedIsAtRank(s, h);
    RankSeparates(s, h.key);
    if r < |s| { CompareFlips(s[r].key, h.key); }
  }

  /** On a tree that keeps the level rules, inserting an equal host changes
      nothing at all. */
  lemma {:induction false} InsertEqualIsNop(t: Tree, n: SearchNode, h: Host)
    requires Balanced(t) && Sorted(Hosts(t)) && Has(Hosts(t), h.key)
    ensures Insert(t, n, h) == t
  {
    SortedParts(t);
    HasInPart(t, h.key);
    var c := Compare(t.host.key, h.key);
    if c > 0 {
      InsertEqualIsNop(t.left, n, h);
    } else if c < 0 {
      InsertEqualIsNop(t.right, n, h);
    }
  }

  /** The comparison with a node says in which subtree an equal host can be. */
  lemma HasInPart(t: Tree, k: Key)
    requires t.Node? && Sorted(Hosts(t))
    ensures var c := Compare(t.host.key, k);
            Has(Hosts(t), k) <==> c == 0 || (if c > 0 then Has(Hosts(t.left), k) else Has(Hosts(t.right), k))
  {
    var a, h, b := Hosts(t.left), t.host, Hosts(t.right);
    SortedCut(a, h, b);
    CompareFlips(k, h.key);
    HasConcat(a + [h], b, k);
    HasConcat(a, [h], k);
    assert Has([h], k) <==> Compare([h][0].key, k) == 0;
    forall i | 0 <= i < |a| && Compare(a[i].key, k) == 0 ensures Compare(h.key, k) > 0 {
      CompareSameHost(a[i].key, k, h.key);
      CompareFlips(a[i].key, h.key);
    }
    forall i | 0 <= i < |b| && Compare(b[i].key, k) == 0 ensures Compare(h.key, k) < 0 {
      CompareSameHost(b[i].key, k, h.key);
      CompareFlips(b[i].key, h.key);
    }
  }

  lemma HasConcat(a: seq<Host>, b: seq<Host>, k: Key)
    ensures Has(a + b, k) <==> Has(a, k) || Has(b, k)
  {
    var s := a + b;
    forall i | 0 <= i < |a| && Compare(a[i].key, k) == 0 ensures Has(s, k) {
      assert s[i] == a[i];
    }
    forall i | 0 <= i < |b| && Compare(b[i].key, k) == 0 ensures Has(s, k) {
      assert s[|a| + i] == b[i];
    }
  }

  // ---------------------------------------------------------------------
  // Searching
  // ---------------------------------------------------------------------

  /** Every node holds a host below the root. */
  ghost predicate Indexes(t: Tree, root: Host) {
    t.Node? ==> Rooted(t.host, root) && t.host != root && Indexes(t.left, root) && Indexes(t.right, root)
  }

  ghost function Lookup(t: Tree, b: string, isIp: bool, root: Host): Host?
    requires Indexes(t, root)
  {
    match t
    case Leaf => null
    case Node(_, h, _, l, r) =>
      var c := CompareString(h.key, b, isIp);
      if c > 0 then Lookup(l, b, isIp, root) else if c < 0 then Lookup(r, b, isIp, root) else h
  }

  /** Lookup finds the host that a domain name stands for, if it is in the index. */
  lemma {:induction false} LookupFindsHost(t: Tree, b: string, root: Host)
    requires Indexes(t, root) && Sorted(Hosts(t))
    ensures var h := Lookup(t, b, false, root);
            && (h != null <==> Has(Hosts(t), HostOrder.Split(b)))
            && (h != null ==> h in Hosts(t) && Compare(h.key, HostOrder.Split(b)) == 0)
  {
    if t.Node? {
      SortedParts(t);
      HasInPart(t, HostOrder.Split(b));
      LookupFindsHost(t.left, b, root);
      LookupFindsHost(t.right, b, root);
    }
  }

  // An IP address is compared with the first part of a host only, so that several
  // hosts may match.

  ghost predicate StartsWith(h: Host, ip: string) {
    h.key != [] && SameText(h.key[0], ip)
  }

  /** How an IP address compares with first parts goes along with the order of hosts. */
  lemma FirstPartsInOrder(a: Key, b: Key, ip: string)
    requires a != [] && b != [] && Compare(a, b) < 0
    ensures CompareText(a[0], ip) >= 0 ==> CompareText(b[0], ip) >= 0
    ensures CompareText(a[0], ip) > 0 ==> CompareText(b[0], ip) > 0
    ensures CompareText(b[0], ip) < 0 ==> CompareText(a[0], ip) < 0
  {
    CompareTextFlips(a[0], ip);
    CompareTextFlips(b[0], ip);
    CompareTextFlips(a[0], b[0]);
    if CompareText(ip, a[0]) <= 0 { CompareTextTransitive(ip, a[0], b[0]); }
    if CompareText(b[0], ip) <= 0 { CompareTextTransitive(a[0], b[0], ip); }
  }

  /** In one step of a search for an IP address, the hosts that may match are in the
      part where the search goes on. */
  lemma IpStep(t: Tree, b: string, root: Host, x: Host)
    requires t.Node? && Indexes(t, root) && Sorted(Hosts(t)) && x in Hosts(t) && StartsWith(x, b)
    ensures t.host.key != []
    ensures var c := CompareText(t.host.key[0], b);
            && (c == 0 <==> StartsWith(t.host, b))
            && (c > 0 ==> x in Hosts(t.left)) && (c < 0 ==> x in Hosts(t.right))
  {
    SortedParts(t);
    CompareTextZero(t.host.key[0], b);
    CompareTextZero(x.key[0], b);
    if x in Hosts(t.left) {
      FirstPartsInOrder(x.key, t.host.key, b);
    } else if x in Hosts(t.right) {
      FirstPartsInOrder(t.host.key, x.key, b);
    }
  }

  /** Looking up an IP address finds a host that starts with it, if there is one. */
  lemma {:induction false} LookupStartsWith(t: Tree, b: string, root: Host)
    requires Indexes(t, root) && Sorted(Hosts(t))
    ensures var h := Lookup(t, b, true, root);
            && (h != null ==> h in Hosts(t) && StartsWith(h, b))
            && (h == null ==> forall x :: x in Hosts(t) ==> !StartsWith(x, b))
  {
    if t.Node? {
      SortedParts(t);
      CompareTextZero(t.host.key[0], b);
      LookupStartsWith(t.left, b, root);
      LookupStartsWith(t.right, b, root);
      forall x | x in Hosts(t) && StartsWith(x, b) ensures Lookup(t, b, true, root) != null {
        IpStep(t, b, root, x);
      }
    }
  }

  /** The host `x` is on the way from the top of the tree to `e`. */
  ghost predicate Above(t: Tree, x: Host, e: Host) {
    t.Node? && ((t.host == x && e != x && e in Hosts(t)) || Above(t.left, x, e) || Above(t.right, x, e))
  }

  lemma {:induction false} AboveIsIn(t: Tree, x: Host, e: Host)
    requires Above(t, x, e)
    ensures x in Hosts(t) && e in Hosts(t) && x != e
  {
    if Above(t.left, x, e) { AboveIsIn(t.left, x, e); }
    if Above(t.right, x, e) { AboveIsIn(t.right, x, e); }
  }

  ghost predicate NoneAbove(t: Tree, e: Host, b: string) {
    forall x <- Hosts(t) :: Above(t, x, e) ==> !StartsWith(x, b)
  }

  /** One step of the way to a host. */
  lemma AboveStep(t: Tree, x: Host, e: Host)
    requires t.Node? && Sorted(Hosts(t)) && e in Hosts(t)
    ensures Above(t, x, e) <==>
              e != t.host && (x == t.host || if e in Hosts(t.left) then Above(t.left, x, e) else Above(t.right, x, e))
  {
    NotInBoth(t, e);
    if Above(t.left, x, e) { AboveIsIn(t.left, x, e); }
    if Above(t.right, x, e) { AboveIsIn(t.right, x, e); }
  }

  lemma NoneAboveStep(t: Tree, e: Host, b: string)
    requires t.Node? && Sorted(Hosts(t)) && e in Hosts(t) && e != t.host && !StartsWith(t.host, b)
    ensures NoneAbove(t, e, b) <==> NoneAbove(if e in Hosts(t.left) then t.left else t.right, e, b)
  {
    var part := if e in Hosts(t.left) then t.left else t.right;
    if NoneAbove(t, e, b) {
      forall x | x in Hosts(part) && Above(part, x, e) ensures !StartsWith(x, b) {
        AboveStep(t, x, e);
        assert x in Hosts(t);
      }
    }
    if NoneAbove(part, e, b) {
      forall x | x in Hosts(t) && Above(t, x, e) ensures !StartsWith(x, b) {
        AboveStep(t, x, e);
        if x != t.host { AboveIsIn(part, x, e); }
      }
    }
  }

  /** Of several hosts that start with an IP address, the one on the way to all others
      is found. */
  lemma {:induction false} LookupIsTop(t: Tree, b: string, root: Host, e: Host)
    requires Indexes(t, root) && Sorted(Hosts(t)) && e in Hosts(t) && StartsWith(e, b)
    ensures Lookup(t, b, true, root) == e <==> NoneAbove(t, e, b)
  {
    SortedParts(t);
    IpStep(t, b, root, e);
    NotInBoth(t, e);
    if e == t.host {
      forall x | x in Hosts(t) ensures !Above(t, x, e) {
        AboveStep(t, x, e);
      }
    } else if StartsWith(t.host, b) {
      assert t.host in Hosts(t) && Above(t, t.host, e);
    } else {
      NoneAboveStep(t, e, b);
      LookupIsTop(if e in Hosts(t.left) then t.left else t.right, b, root, e);
    }
  }

  /** A host is in one place of a tree. */
  lemma NotInBoth(t: Tree, e: Host)
    requires t.Node? && Sorted(Hosts(t)) && e in Hosts(t)
    ensures e in Hosts(t.left) ==> e != t.host && e !in Hosts(t.right)
    ensures e in Hosts(t.right) ==> e != t.host
  {
    SortedParts(t);
    CompareZero(e.key, e.key);
    if e in Hosts(t.left) && e in Hosts(t.right) {
      CompareTransitive(e.key, t.host.key, e.key);
    }
  }

  /** The hosts that begin with a prefix. */
  ghost function Matching(s: seq<Host>, b: string, isIp: bool): seq<Host>
    requires forall i :: 0 <= i < |s| ==> s[i].key != []
  {
    if s == [] then []
    else
      (if Begins(s[0].key, b, isIp) then [s[0]] else []) + Matching(s[1..], b, isIp)
  }

  lemma {:induction false} InsertKeepsIndexes(t: Tree, n: SearchNode, h: Host, root: Host)
    requires Indexes(t, root) && Rooted(h, root) && h != root
    ensures Indexes(Insert(t, n, h), root)
  {
    if t.Node? {
      var c := Compare(t.host.key, h.key);
      if c > 0 {
        InsertKeepsIndexes(t.left, n, h, root);
      } else if c < 0 {
        InsertKeepsIndexes(t.right, n, h, root);
      }
    }
  }

  /** The search for a prefix leaves out the subtrees that cannot match. */
  ghost function PrunedMatches(t: Tree, b: string, isIp: bool, root: Host): seq<Host>
    requires Indexes(t, root)
  {
    match t
    case Leaf => []
    case Node(_, h, _, l, r) =>
      var c := CompareStringPrefix(h.key, b, isIp);
      if c > 0 then PrunedMatches(l, b, isIp, root)
      else if c < 0 then PrunedMatches(r, b, isIp, root)
      else PrunedMatches(l, b, isIp, root) + [h] + PrunedMatches(r, b, isIp, root)
  }

  lemma {:induction false} HostsHaveParts(t: Tree, root: Host)
    requires Indexes(t, root)
    ensures forall i :: 0 <= i < |Hosts(t)| ==> Hosts(t)[i].key != []
  {
    if t.Node? {
      HostsHaveParts(t.left, root);
      HostsHaveParts(t.right, root);
    }
  }

  lemma MatchingStep(s: seq<Host>, b: string, isIp: bool)
    requires forall i :: 0 <= i < |s| ==> s[i].key != []
    ensures Matching(s, b, isIp) ==
              if s == [] then []
              else (if Begins(s[0].key, b, isIp) then [s[0]] else []) + Matching(s[1..], b, isIp)
  {
  }

  lemma {:induction false} MatchingSplits(a: seq<Host>, c: seq<Host>, b: string, isIp: bool)
    requires forall i :: 0 <= i < |a| ==> a[i].key != []
    requires forall i :: 0 <= i < |c| ==> c[i].key != []
    ensures Matching(a + c, b, isIp) == Matching(a, b, isIp) + Matching(c, b, isIp)
  {
    hide Matching, Begins;
    MatchingStep(a, b, isIp);
    MatchingStep(a + c, b, isIp);
    if a == [] {
      assert a + c == c;
    } else {
      assert (a + c)[1..] == a[1..] + c;
      MatchingSplits(a[1..], c, b, isIp);
      Regrouped(if Begins(a[0].key, b, isIp) then [a[0]] else [],
                Matching(a[1..], b, isIp), Matching(c, b, isIp));
    }
  }

  lemma Regrouped<T>(a: seq<T>, b: seq<T>, c: seq<T>)
    ensures a + (b + c) == (a + b) + c
  {
  }

  lemma {:induction false} NoneMatching(s: seq<Host>, b: string, isIp: bool)
    requires forall i :: 0 <= i < |s| ==> s[i].key != [] && CompareStringPrefix(s[i].key, b, isIp) != 0
    ensures Matching(s, b, isIp) == []
  {
    if s != [] {
      BeginsIff(s[0].key, b, isIp);
      NoneMatching(s[1..], b, isIp);
    }
  }

  /** Along the index the comparison with a prefix changes sign only upwards. */
  lemma PrefixSigns(x: Key, y: Key, b: string, isIp: bool)
    requires x != [] && y != [] && Compare(x, y) < 0
    ensures CompareStringPrefix(x, b, isIp) > 0 ==> CompareStringPrefix(y, b, isIp) > 0
    ensures CompareStringPrefix(y, b, isIp) < 0 ==> CompareStringPrefix(x, b, isIp) < 0
  {
    if isIp {
      ComparePrefixMonotone(x[0], y[0], b);
    } else {
      PrefixMonotone(x, y, HostOrder.Split(b));
    }
  }

  /** What is left out of a search for a prefix does not match it. */
  lemma PrunedPartDoesNotMatch(t: Tree, b: string, isIp: bool, root: Host)
    requires t.Node? && Indexes(t, root) && Sorted(Hosts(t))
    ensures forall i :: 0 <= i < |Hosts(t)| ==> Hosts(t)[i].key != []
    ensures forall i :: 0 <= i < |Hosts(t.left)| ==> Hosts(t.left)[i].key != []
    ensures forall i :: 0 <= i < |Hosts(t.right)| ==> Hosts(t.right)[i].key != []
    ensures CompareStringPrefix(t.host.key, b, isIp) > 0 ==> Matching(Hosts(t.right), b, isIp) == []
    ensures CompareStringPrefix(t.host.key, b, isIp) < 0 ==> Matching(Hosts(t.left), b, isIp) == []
  {
    SortedParts(t);
    HostsHaveParts(t, root);
    HostsHaveParts(t.left, root);
    HostsHaveParts(t.right, root);
    var l, r, k := Hosts(t.left), Hosts(t.right), t.host.key;
    if CompareStringPrefix(k, b, isIp) > 0 {
      forall i | 0 <= i < |r| ensures CompareStringPrefix(r[i].key, b, isIp) > 0 {
        PrefixSigns(k, r[i].key, b, isIp);
      }
      NoneMatching(r, b, isIp);
    } else if CompareStringPrefix(k, b, isIp) < 0 {
      forall i | 0 <= i < |l| ensures CompareStringPrefix(l[i].key, b, isIp) < 0 {
        PrefixSigns(l[i].key, k, b, isIp);
      }
      NoneMatching(l, b, isIp);
    }
  }

  /** Leaving out subtrees loses no match: what the search visits is all the
      matching hosts, in index order. */
  lemma {:induction false} PruningIsExact(t: Tree, b: string, isIp: bool, root: Host)
    requires Indexes(t, root) && Sorted(Hosts(t))
    requires forall i :: 0 <= i < |Hosts(t)| ==> Hosts(t)[i].key != []
    ensures PrunedMatches(t, b, isIp, root) == Matching(Hosts(t), b, isIp)
  {
    if t.Node? {
      SortedParts(t);
      PrunedPartDoesNotMatch(t, b, isIp, root);
      PruningIsExact(t.left, b, isIp, root);
      PruningIsExact(t.right, b, isIp, root);
      hide *;
      MatchingOfTree(t, b, isIp);
      PrunedOfTree(t, b, isIp, root);
      var l, r := Matching(Hosts(t.left), b, isIp), Matching(Hosts(t.right), b, isIp);
      assert l + [] + [] == l && [] + [] + r == r;
    }
  }

  lemma MatchingOfTree(t: Tree, b: string, isIp: bool)
    requires t.Node? && forall i :: 0 <= i < |Hosts(t)| ==> Hosts(t)[i].key != []
    requires forall i :: 0 <= i < |Hosts(t.left)| ==> Hosts(t.left)[i].key != []
    requires forall i :: 0 <= i < |Hosts(t.right)| ==> Hosts(t.right)[i].key != []
    requires t.host.key != []
    ensures Matching(Hosts(t), b, isIp)
         == Matching(Hosts(t.left), b, isIp) + (if CompareStringPrefix(t.host.key, b, isIp) == 0 then [t.host] else [])
            + Matching(Hosts(t.right), b, isIp)
  {
    assert Hosts(t) == Hosts(t.left) + [t.host] + Hosts(t.right);
    hide Matching, CompareStringPrefix, Hosts;
    var l, r := Hosts(t.left), Hosts(t.right);
    MatchingSplits(l + [t.host], r, b, isIp);
    MatchingSplits(l, [t.host], b, isIp);
    MatchingOne(t.host, b, isIp);
  }

  lemma PrunedOfTree(t: Tree, b: string, isIp: bool, root: Host)
    requires t.Node? && Indexes(t, root) && t.host.key != []
    ensures var l, r := PrunedMatches(t.left, b, isIp, root), PrunedMatches(t.right, b, isIp, root);
            var c := CompareStringPrefix(t.host.key, b, isIp);
            PrunedMatches(t, b, isIp, root) == if c > 0 then l else if c < 0 then r else l + [t.host] + r
  {
  }

  lemma MatchingOne(h: Host, b: string, isIp: bool)
    requires h.key != []
    ensures Matching([h], b, isIp) == if CompareStringPrefix(h.key, b, isIp) == 0 then [h] else []
  {
    BeginsIff(h.key, b, isIp);
    MatchingStep([h], b, isIp);
  }

  // ---------------------------------------------------------------------
  // Depth
  // ---------------------------------------------------------------------

  function Height(t: Tree): nat {
    match t
    case Leaf => 0
    case Node(_, _, _, l, r) => 1 + if Height(l) > Height(r) then Height(l) else Height(r)
  }

  function Pow2(n: nat): nat { if n == 0 then 1 else 2 * Pow2(n - 1) }

  /** The integer part of the binary logarithm. */
  function Log2(n: nat): (k: nat)
    requires n > 0
    ensures Pow2(k) <= n < 2 * Pow2(k)
  {
    if n == 1 then 0 else 1 + Log2(n / 2)
  }

  lemma {:induction false} LevelBounds(t: Tree)
    requires Balanced(t)
    ensures Height(t) <= 2 * Level(t)
    ensures t.Node? && Level(t.right) < t.level ==> Height(t) < 2 * Level(t)
    ensures Pow2(Level(t)) <= |Hosts(t)| + 1
  {
    if t.Node? {
      LevelBounds(t.left);
      LevelBounds(t.right);
      if t.left.Node? && Level(t.left.right) == t.left.level {
        assert Height(t.left) <= 2 * Level(t.left);
      }
    }
  }

  lemma {:induction false} Log2Bounds(k: nat, n: nat)
    requires Pow2(k) <= n
    ensures n > 0 && k <= Log2(n)
    decreases k
  {
    if k > 0 {
      Log2Bounds(k - 1, n / 2);
    }
  }

  /** Going left where it says `true`, and right elsewhere, leads to a node. */
  ghost predicate IsWayDown(t: Tree, way: seq<bool>) {
    t.Node? && (way == [] || IsWayDown(if way[0] then t.left else t.right, way[1..]))
  }

  lemma {:induction false} WayWithinHeight(t: Tree, way: seq<bool>)
    requires IsWayDown(t, way)
    ensures |way| < Height(t)
  {
    if way != [] { WayWithinHeight(if way[0] then t.left else t.right, way[1..]); }
  }

  /** No way down, and so no search, has more nodes than twice the binary logarithm. */
  lemma DepthIsLogarithmic(t: Tree, way: seq<bool>)
    requires Balanced(t) && IsWayDown(t, way)
    ensures |way| + 1 <= 2 * Log2(|Hosts(t)| + 1)
  {
    WayWithinHeight(t, way);
    LevelBounds(t);
    Log2Bounds(Level(t), |Hosts(t)| + 1);
  }

  // ---------------------------------------------------------------------
  // The pointer structure
  // ---------------------------------------------------------------------

  ghost function Nodes(t: Tree): set<SearchNode> {
    if t.Leaf? then {} else {t.node} + Nodes(t.left) + Nodes(t.right)
  }

  /** The nodes reached from `n` form the tree `t`, with `empty` at its leaves. */
  ghost predicate Rep(t: Tree, n: SearchNode, empty: SearchNode)
    reads Nodes(t)
  {
    match t
    case Leaf => n == empty
    case Node(m, h, level, l, r) =>
      && n == m && m != empty && m.data == h && m.level == level > 0
      && Rep(l, m.left, empty) && Rep(r, m.right, empty)
      && m !in Nodes(l) && m !in Nodes(r) && Nodes(l) !! Nodes(r)
  }

  /** urldb_search_skew */
  method SkewNode(root: SearchNode, empty: SearchNode, ghost t: Tree) returns (r: SearchNode)
    requires IsSentinel(empty) && t.Node? && Rep(t, root, empty)
    modifies Nodes(t)
    ensures Rep(Skew(t), r, empty) && Nodes(Skew(t)) == Nodes(t)
  {
    r := root;
    if root.left.level == root.level {
      var temp := root.left;
      root.left := temp.right;
      temp.right := root;
      r := temp;
    }
  }

  /** urldb_search_split */
  method SplitNode(root: SearchNode, empty: SearchNode, ghost t: Tree) returns (r: SearchNode)
    requires IsSentinel(empty) && t.Node? && Rep(t, root, empty)
    modifies Nodes(t)
    ensures Rep(Split(t), r, empty) && Nodes(Split(t)) == Nodes(t)
  {
    r := root;
    assert t.right.Node? ==> Rep(t.right.right, root.right.right, empty);
    assert t.right.Node? && t.right.right.Node? ==> root.right.right.level == t.right.right.level;
    if root.right.right.level == root.level {
      var temp := root.right;
      root.right := temp.left;
      temp.left := root;
      r := temp;
      r.level := r.level + 1;
    }
  }

  /** urldb_search_insert_internal. On an exact match the new node is dropped. */
  method InsertNode(root: SearchNode, n: SearchNode, empty: SearchNode, dbRoot: Host, ghost t: Tree)
    returns (r: SearchNode)
    requires IsSentinel(empty) && Rep(t, root, empty) && Indexes(t, dbRoot)
    requires IsNew(n, empty, dbRoot) && n !in Nodes(t)
    modifies Nodes(t), n
    ensures Rep(Insert(t, n, n.data), r, empty)
    ensures Nodes(Insert(t, n, n.data)) <= Nodes(t) + {n}
    decreases t, 1
  {
    if root == empty {
      r := n;
    } else {
      NodesAllocated(t);
      var c := MatchHost(root.data, n.data, dbRoot);
      if c > 0 {
        r := InsertLeft(root, n, empty, dbRoot, t);
      } else if c < 0 {
        r := InsertRight(root, n, empty, dbRoot, t);
      } else {
        r := root;
      }
    }
  }

  /** A node as urldb_search_insert makes it. */
  ghost predicate IsNew(n: SearchNode, empty: SearchNode, dbRoot: Host)
    reads n
  {
    && n != empty && n.level == 1 && n.left == empty && n.right == empty
    && n.data != null && Rooted(n.data, dbRoot) && n.data != dbRoot
  }

  method InsertLeft(root: SearchNode, n: SearchNode, empty: SearchNode, dbRoot: Host, ghost t: Tree)
    returns (r: SearchNode)
    requires t.Node? && IsSentinel(empty) && Rep(t, root, empty) && Indexes(t, dbRoot)
    requires IsNew(n, empty, dbRoot) && n !in Nodes(t)
    modifies Nodes(t), n
    ensures var t' := t.(left := Insert(t.left, n, n.data));
            Rep(Split(Skew(t')), r, empty) && Nodes(Split(Skew(t'))) <= Nodes(t) + {n}
    decreases t, 0
  {
    SentinelApart(t, root, empty);
    NodesAllocated(t);
    root.left := InsertNode(root.left, n, empty, dbRoot, t.left);
    r := Rebalance(root, empty, t.(left := Insert(t.left, n, n.data)));
  }

  method InsertRight(root: SearchNode, n: SearchNode, empty: SearchNode, dbRoot: Host, ghost t: Tree)
    returns (r: SearchNode)
    requires t.Node? && IsSentinel(empty) && Rep(t, root, empty) && Indexes(t, dbRoot)
    requires IsNew(n, empty, dbRoot) && n !in Nodes(t)
    modifies Nodes(t), n
    ensures var t' := t.(right := Insert(t.right, n, n.data));
            Rep(Split(Skew(t')), r, empty) && Nodes(Split(Skew(t'))) <= Nodes(t) + {n}
    decreases t, 0
  {
    SentinelApart(t, root, empty);
    NodesAllocated(t);
    root.right := InsertNode(root.right, n, empty, dbRoot, t.right);
    r := Rebalance(root, empty, t.(right := Insert(t.right, n, n.data)));
  }

  method Rebalance(root: SearchNode, empty: SearchNode, ghost t: Tree) returns (r: SearchNode)
    requires IsSentinel(empty) && t.Node? && Rep(t, root, empty)
    modifies Nodes(t)
    ensures Rep(Split(Skew(t)), r, empty) && Nodes(Split(Skew(t))) == Nodes(t)
  {
    SentinelApart(t, root, empty);
    r := SkewNode(root, empty, t);
    r := SplitNode(r, empty, Skew(t));
  }

  lemma {:induction false} SentinelApart(t: Tree, root: SearchNode, empty: SearchNode)
    requires Rep(t, root, empty)
    ensures empty !in Nodes(t)
  {
    if t.Node? {
      SentinelApart(t.left, root.left, empty);
      SentinelApart(t.right, root.right, empty);
    }
  }

  lemma {:induction false} NodesAllocated(t: Tree)
    ensures forall m <- Nodes(t) :: allocated(m)
  {
    if t.Node? {
      NodesAllocated(t.left);
      NodesAllocated(t.right);
    }
  }

  /** urldb_search_insert */
  method SearchInsert(root: SearchNode, data: Host, empty: SearchNode, dbRoot: Host, ghost t: Tree)
    returns (r: SearchNode, ghost t': Tree)
    requires IsSentinel(empty) && Rep(t, root, empty) && Indexes(t, dbRoot)
    requires Rooted(data, dbRoot) && data != dbRoot
    modifies Nodes(t)
    ensures Rep(t', r, empty) && fresh(Nodes(t') - Nodes(t)) && IsSentinel(empty)
    ensures exists n: SearchNode :: t' == Insert(t, n, data)
  {
    SentinelApart(t, root, empty);
    NodesAllocated(t);
    var n := new SearchNode(data, empty);
    t' := Insert(t, n, data);
    r := InsertNode(root, n, empty, dbRoot, t);
  }

  /** urldb_search_find */
  method Find(root: SearchNode, host: string, isIp: bool, empty: SearchNode, dbRoot: Host, ghost t: Tree)
    returns (h: Host?)
    requires Rep(t, root, empty) && Indexes(t, dbRoot)
    ensures h == Lookup(t, host, isIp, dbRoot)
    decreases t
  {
    if root == empty {
      return null;
    }
    NodesAllocated(t.left);
    NodesAllocated(t.right);
    var c := MatchString(root.data, host, isIp, dbRoot);
    if c > 0 {
      h := Find(root.left, host, isIp, empty, dbRoot, t.left);
    } else if c < 0 {
      h := Find(root.right, host, isIp, empty, dbRoot, t.right);
    } else {
      h := root.data;
    }
  }

  /** The hosts of `s` up to the first at which the callback says stop. */
  function Until(s: seq<Host>, keepGoing: Host -> bool): seq<Host> {
    if s == [] then [] else if keepGoing(s[0]) then [s[0]] + Until(s[1..], keepGoing) else [s[0]]
  }

  predicate AllGo(s: seq<Host>, keepGoing: Host -> bool) {
    forall i :: 0 <= i < |s| ==> keepGoing(s[i])
  }

  lemma {:induction false} UntilConcat(a: seq<Host>, b: seq<Host>, keepGoing: Host -> bool)
    ensures Until(a + b, keepGoing) == if AllGo(a, keepGoing) then a + Until(b, keepGoing) else Until(a, keepGoing)
    ensures AllGo(a, keepGoing) ==> Until(a, keepGoing) == a
  {
    if a == [] {
      assert a + b == b;
    } else {
      assert (a + b)[1..] == a[1..] + b;
      UntilConcat(a[1..], b, keepGoing);
      assert AllGo(a, keepGoing) <==> keepGoing(a[0]) && AllGo(a[1..], keepGoing) by {
        assert forall i :: 0 < i < |a| ==> a[i] == a[1..][i - 1];
      }
    }
  }

  lemma AllGoConcat(a: seq<Host>, b: seq<Host>, keepGoing: Host -> bool)
    ensures AllGo(a + b, keepGoing) <==> AllGo(a, keepGoing) && AllGo(b, keepGoing)
  {
    assert forall i :: 0 <= i < |a| ==> a[i] == (a + b)[i];
    assert forall i :: 0 <= i < |b| ==> b[i] == (a + b)[|a| + i];
  }

  /** Visiting a left subtree, a node and a right subtree, one after the other. */
  lemma UntilInOrder(l: seq<Host>, h: Host, r: seq<Host>, keepGoing: Host -> bool)
    ensures var s := l + [h] + r;
            && (AllGo(s, keepGoing) <==> AllGo(l, keepGoing) && keepGoing(h) && AllGo(r, keepGoing))
            && (AllGo(l, keepGoing) ==> Until(l, keepGoing) == l)
            && Until(s, keepGoing) == if !AllGo(l, keepGoing) then Until(l, keepGoing)
                                      else if !keepGoing(h) then l + [h]
                                      else l + [h] + Until(r, keepGoing)
  {
    AllGoConcat(l + [h], r, keepGoing);
    AllGoConcat(l, [h], keepGoing);
    assert AllGo([h], keepGoing) <==> keepGoing([h][0]);
    UntilConcat(l + [h], r, keepGoing);
    UntilConcat(l, [h], keepGoing);
  }

  /** urldb_iterate_partial_host. `visited` are the hosts handed to the
      callback, `go` is false if the callback said stop. */
  method IteratePartialHost(root: SearchNode, prefix: string, isIp: bool, keepGoing: Host -> bool,
                            empty: SearchNode, dbRoot: Host, ghost t: Tree)
    returns (go: bool, visited: seq<Host>)
    requires Rep(t, root, empty) && Indexes(t, dbRoot)
    ensures var all := PrunedMatches(t, prefix, isIp, dbRoot);
            visited == Until(all, keepGoing) && (go <==> AllGo(all, keepGoing))
    decreases t
  {
    if root == empty {
      return true, [];
    }
    NodesAllocated(t.left);
    NodesAllocated(t.right);
    var c := MatchPrefix(root.data, prefix, isIp, dbRoot);
    if c > 0 {
      go, visited := IteratePartialHost(root.left, prefix, isIp, keepGoing, empty, dbRoot, t.left);
    } else if c < 0 {
      go, visited := IteratePartialHost(root.right, prefix, isIp, keepGoing, empty, dbRoot, t.right);
    } else {
      ghost var l := PrunedMatches(t.left, prefix, isIp, dbRoot);
      ghost var r := PrunedMatches(t.right, prefix, isIp, dbRoot);
      UntilInOrder(l, root.data, r, keepGoing);
      go, visited := IteratePartialHost(root.left, prefix, isIp, keepGoing, empty, dbRoot, t.left);
      if !go { return; }
      visited := visited + [root.data];
      if !keepGoing(root.data) { return false, visited; }
      var more;
      go, more := IteratePartialHost(root.right, prefix, isIp, keepGoing, empty, dbRoot, t.right);
      visited := visited + more;
    }
  }
}
