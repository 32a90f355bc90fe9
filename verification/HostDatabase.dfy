/** The database of hosts: the host tree, the index trees over it, and the HSTS
    policies kept on its nodes (content/urldb.c). */
module HostDatabase {
  import opened HostOrder
  import opened HostPart
  import opened HostTree
  import opened HostNames
  import opened HostIndex
  import ST = SearchTree

  // ---------------------------------------------------------------------
  // Adding to the host tree
  // ---------------------------------------------------------------------

  /** A node without policies, as urldb_add_host_node makes it. */
  ghost predicate IsBlank(h: Host)
    reads h`expires, h`includeSubDomains, h`permitInvalidCerts
  {
    h.expires == 0 && !h.includeSubDomains && !h.permitInvalidCerts
  }

  /** The nodes of `s` are in `t`, the others are blank and on the path to `d`. */
  ghost predicate Extends(s: set<Host>, t: set<Host>, d: Host)
    reads t`expires, t`includeSubDomains, t`permitInvalidCerts
  {
    s <= t && d in t && forall h <- t :: h in s || (IsBlank(h) && IsSuffix(h.key, d.key))
  }

  lemma ChildKey(d: Host, e: Host, t: set<Host>, root: Host)
    requires HostsOk(t, root) && d in t && e in d.children
    ensures e in t && e != root && e.key == [e.part] + d.key
  {
    assert HostOk(d, t, root) && HostOk(e, t, root);
  }

  lemma IsExtended(s: set<Host>, t: set<Host>, d: Host)
    requires Extends(s, t, d)
    ensures s <= t && d in t
  {
  }

  lemma ExtendsToChild(s: set<Host>, t: set<Host>, d: Host, e: Host)
    requires Extends(s, t, d) && e.key == [e.part] + d.key
    ensures d in t && (e in t ==> Extends(s, t, e)) && (IsBlank(e) ==> Extends(s, t + {e}, e))
  {
    assert forall h <- t :: IsSuffix(h.key, d.key) ==> IsSuffix(h.key, e.key);
  }

  /** The child of `d` with the given part, added if it is not there. */
  method EnsureChild(d: Host, part: string, root: Host, ghost s: set<Host>, ghost t: set<Host>)
    returns (e: Host, ghost t': set<Host>)
    requires HostsOk(t, root) && Extends(s, t, d)
    modifies t`children
    ensures HostsOk(t', root) && Extends(s, t', e) && t <= t' && fresh(t' - t)
    ensures e != root && e.key == [e.part] + d.key && SameText(part, e.part)
  {
    hide HostsOk, CompareText, Extends;
    assert d in t by { IsExtended(s, t, d); }
    var found := FindChild(d, part);
    if found != null {
      e, t' := found, t;
      ChildKey(d, e, t, root);
    } else {
      e := AddHostNode(part, d, t, root);
      t' := t + {e};
    }
    ExtendsToChild(s, t, d, e);
    CompareTextZero(part, e.part);
  }

  lemma SegmentMoves(target: Key, front: Key, segment: string, part: string, back: Key)
    requires SameHost(target, front + [segment] + back) && SameText(segment, part)
    ensures SameHost(target, front + ([part] + back))
  {
    var a, b := front + [segment] + back, front + ([part] + back);
    forall i | 0 <= i < |b| ensures SameText(target[i], b[i]) {
      assert SameText(target[i], a[i]);
      if i != |front| { assert a[i] == b[i]; }
    }
  }

  /** The parts of `target` are those of what is left of the buffer, and then the
      parts of `back`. */
  ghost predicate PartsLeft(target: Key, buf: string, back: Key) {
    SameHost(target, Split(buf) + back) && target[0] == Split(buf)[0]
  }

  lemma PartMoves(target: Key, buf: string, d: int, part: string, back: Key)
    requires PartsLeft(target, buf, back) && d == LastDot(buf) >= 0 && SameText(buf[d + 1..], part)
    ensures PartsLeft(target, buf[..d], [part] + back)
  {
    SplitAtLastDot(buf);
    SegmentMoves(target, Split(buf[..d]), buf[d + 1..], part, back);
  }

  lemma LastPartMoves(target: Key, buf: string, part: string, back: Key)
    requires PartsLeft(target, buf, back) && LastDot(buf) < 0 && SameText(buf, part)
    ensures SameHost(target, [part] + back) && buf == target[0]
  {
    NoDotIsOneSegment(buf);
    assert [] + [buf] + back == [buf] + back;
    SegmentMoves(target, [], buf, part, back);
  }

  /** The loop of urldb_add_host over the segments of a domain name, last one
      first. `leaf` is what is left of the buffer at the end. */
  method AddParts(name: string, root: Host, ghost s: set<Host>)
    returns (d: Host, leaf: string, ghost t: set<Host>)
    requires HostsOk(s, root)
    modifies s`children
    ensures HostsOk(t, root) && Extends(s, t, d) && fresh(t - s) && d != root
    ensures SameHost(Split(Truncate(name)), d.key) && leaf == Split(Truncate(name))[0]
  {
    var buf := Truncate(name);
    d, t := root, s;
    ghost var target := Split(buf);
    assert target + [] == target;
    assert PartsLeft(target, buf, d.key) && Extends(s, t, d);
    hide HostsOk, Split, LastDot, SameHost, PartsLeft, Extends;
    var part := LastDot(buf);
    while part >= 0
      invariant part == LastDot(buf) && PartsLeft(target, buf, d.key)
      invariant HostsOk(t, root) && Extends(s, t, d) && fresh(t - s)
      decreases |buf|
    {
      ghost var back := d.key;
      d, t := EnsureChild(d, buf[part + 1..], root, s, t);
      PartMoves(target, buf, part, d.part, back);
      buf := buf[..part];
      part := LastDot(buf);
    }
    ghost var back := d.key;
    d, t := EnsureChild(d, buf, root, s, t);
    LastPartMoves(target, buf, d.part, back);
    leaf := buf;
  }

  lemma DomainPlace(name: string, isIp: string -> bool)
    requires !isIp(name)
    ensures Stored(name, isIp) == Split(Truncate(name))
    ensures var leaf := Split(Truncate(name))[0]; TreeOf(name, isIp) == TreeIndex(leaf, isIp(leaf))
  {
  }

  lemma IpPlace(name: string, isIp: string -> bool)
    requires isIp(name)
    ensures Stored(name, isIp) == [name] && TreeOf(name, isIp) == ST_IP
  {
  }

  lemma OnePart(name: string, d: Host)
    requires |d.key| == 1 && SameText(name, d.key[0])
    ensures SameHost(d.key, [name])
  {
  }

  // ---------------------------------------------------------------------
  // The database
  // ---------------------------------------------------------------------

  class Database {
    const root: Host
    const empty: ST.SearchNode
    /** Whether a text is an IP address. */
    const isIp: string -> bool
    /** search_trees */
    var trees: seq<ST.SearchNode>
    /** The same trees as values, all their nodes, and the host tree. */
    ghost var index: seq<ST.Tree>
    ghost var nodes: set<ST.SearchNode>
    ghost var hosts: set<Host>
    /** All names added so far. */
    ghost var log: seq<Added>

    ghost predicate TreesOk()
      reads this, empty, nodes
    {
      && |trees| == |index| == NUM_SEARCH_TREES && ST.IsSentinel(empty)
      && (forall i :: 0 <= i < |index| ==> ST.Nodes(index[i]) <= nodes && ST.Rep(index[i], trees[i], empty))
      && (forall i, j :: 0 <= i < j < |index| ==> ST.Nodes(index[i]) !! ST.Nodes(index[j]))
    }

    ghost predicate Valid()
      reads this, empty, nodes, hosts`children
    {
      && IgnoresCase(isIp) && TreesOk() && IndexOk(index, hosts, root) && HostsOk(hosts, root)
      && IndexAgrees(log, index, hosts, root, isIp)
    }

    constructor (isIp: string -> bool)
      requires IgnoresCase(isIp)
      ensures Valid() && log == [] && this.isIp == isIp && hosts == {root} && root.expires == 0
      ensures fresh(nodes) && fresh(hosts)
    {
      this.isIp := isIp;
      root := new Host("", null);
      var sentinel := new ST.SearchNode.Empty();
      empty := sentinel;
      trees := seq(NUM_SEARCH_TREES, _ => sentinel);
      index := seq(NUM_SEARCH_TREES, _ => ST.Leaf);
      nodes, log := {}, [];
      new;
      hosts := {root};
    }

    /** `h` is the answer to looking up a name. For a domain name, a node is found just if
        some name was added that is stored as this one, in the tree where it is looked
        for. For an IP address, it is found just if a name put it into the index, or some
        domain name starts with it; if none does, what is found is its own node. */
    ghost predicate IsAnswer(name: string, h: Host?)
      reads this
    {
      && (h != null ==> h in hosts)
      && (!isIp(name) ==>
            (h != null <==> CanFind(log, isIp, name)) && (h != null ==> SameHost(h.key, Split(name))))
      && (isIp(name) ==>
            && (h != null <==> IpIsIndexed(log, isIp, name) || !NoneStartsWith(log, isIp, name))
            && (h != null ==> ST.StartsWith(h, name))
            && (h != null && NoneStartsWith(log, isIp, name) ==> SameHost(h.key, [name])))
    }

    /** `h` is the node that adding the `i`th name returned, just if that can be found: a
        domain name, if it fits the buffer and does not start with an IP address; an IP
        address, if a name put it into the index, and no node above it starts with it. */
    ghost predicate IsFoundAs(i: nat, h: Host?)
      requires |index| == NUM_SEARCH_TREES && i < |log|
      reads this
    {
      var name, d := log[i].name, log[i].host;
      h == d <==>
        if isIp(name) then IpIsIndexed(log, isIp, name) && ST.NoneAbove(index[ST_IP], d, name)
        else IsFound(name, isIp)
    }

    /** urldb_search_find on the tree that urldb_get_search_tree selects. */
    method FindHost(name: string) returns (h: Host?)
      requires Valid()
      ensures IsAnswer(name, h)
      ensures forall i: nat :: i < |log| && log[i].name == name ==> IsFoundAs(i, h)
    {
      var t := TreeIndex(name, isIp(name));
      assert TreeOk(index[t], hosts, root);
      h := ST.Find(trees[t], name, isIp(name), empty, root, index[t]);
      HostsAreForest(hosts, root);
      hide TreesOk, TreeOk, IndexOk, HostsOk, IndexAgrees, IgnoresCase, IsFound, CanFind, IpIsIndexed;
      AnswerIs(name);
      forall i: nat | i < |log| && log[i].name == name ensures IsFoundAs(i, h) {
        FoundAs(i);
      }
    }

    lemma AnswerIs(name: string)
      requires |index| == NUM_SEARCH_TREES && IgnoresCase(isIp) && IndexAgrees(log, index, hosts, root, isIp)
      requires TreeOk(index[TreeIndex(name, isIp(name))], hosts, root)
      ensures IsAnswer(name, ST.Lookup(index[TreeIndex(name, isIp(name))], name, isIp(name), root))
    {
      hide IndexAgrees, TreeOk, IgnoresCase;
      if !isIp(name) {
        DomainLookup(log, index, hosts, root, isIp, name);
      } else {
        AnyIpLookup(log, index, hosts, root, isIp, name);
      }
    }

    lemma FoundAs(i: nat)
      requires |index| == NUM_SEARCH_TREES && IgnoresCase(isIp) && IndexAgrees(log, index, hosts, root, isIp)
      requires i < |log| && IsForest(hosts, root)
      requires TreeOk(index[TreeIndex(log[i].name, isIp(log[i].name))], hosts, root)
      ensures IsFoundAs(i, ST.Lookup(index[TreeIndex(log[i].name, isIp(log[i].name))], log[i].name, isIp(log[i].name), root))
    {
      hide IndexAgrees, TreeOk, IgnoresCase, IsForest, IsFound, IpIsIndexed, ST.Lookup, ST.NoneAbove;
      if isIp(log[i].name) {
        AddedIpIsFound(log, index, hosts, root, isIp, i);
      } else {
        AddedDomainIsFound(log, index, hosts, root, isIp, i);
      }
    }

    /** Insert a host into one of the index trees. */
    method InsertInTree(t: nat, d: Host)
      requires t < NUM_SEARCH_TREES && TreesOk() && ST.Indexes(index[t], root)
      requires Rooted(d, root) && d != root
      modifies this`trees, this`index, this`nodes, nodes
      ensures TreesOk() && fresh(nodes - old(nodes))
      ensures exists n: ST.SearchNode :: index == old(index)[t := ST.Insert(old(index[t]), n, d)]
    {
      hide ST.Indexes, ST.Insert, Rooted;
      var r;
      ghost var tree;
      r, tree := ST.SearchInsert(trees[t], d, empty, root, index[t]);
      assert forall i :: 0 <= i < |index| && i != t ==>
        ST.Rep(index[i], trees[i], empty) && ST.Nodes(index[i]) !! ST.Nodes(tree);
      trees := trees[t := r];
      index := index[t := tree];
      nodes := nodes + ST.Nodes(tree);
    }

    method IndexHost(t: nat, d: Host)
      requires t < NUM_SEARCH_TREES && TreesOk() && IndexOk(index, hosts, root) && HostsOk(hosts, root)
      requires d != root && d in hosts
      modifies this`trees, this`index, this`nodes, nodes
      ensures TreesOk() && IndexOk(index, hosts, root) && HostsOk(hosts, root)
      ensures fresh(nodes - old(nodes))
      ensures IndexGrows(old(index), t, d, index)
    {
      assert TreeOk(index[t], hosts, root) && HostOk(d, hosts, root);
      HostsAreForest(hosts, root);
      InsertInTree(t, d);
      ghost var n: ST.SearchNode :| index == old(index)[t := ST.Insert(old(index[t]), n, d)];
      InsertKeepsTreeOk(old(index[t]), n, d, hosts, root);
      InsertGrows(old(index), t, n, d, hosts, root);
    }

    /** Add the nodes of a domain name to the host tree. */
    method GrowHosts(name: string) returns (d: Host, leaf: string)
      requires TreesOk() && IndexOk(index, hosts, root) && HostsOk(hosts, root)
      modifies this`hosts, hosts`children
      ensures TreesOk() && IndexOk(index, hosts, root) && HostsOk(hosts, root)
      ensures d in hosts && d != root && SameHost(Split(Truncate(name)), d.key) && leaf == Split(Truncate(name))[0]
      ensures Extends(old(hosts), hosts, d) && fresh(hosts - old(hosts)) && old(hosts) <= hosts
      ensures forall h <- hosts :: h in old(hosts) || IsSuffix(h.key, d.key)
    {
      ghost var all;
      d, leaf, all := AddParts(name, root, hosts);
      hosts := all;
    }

    /** Record a name that has been added, with its node in the index. The node of an IP
        address that is there already is not indexed again. */
    method IndexName(name: string, t: nat, d: Host, there: bool, ghost hosts0: set<Host>)
      requires IgnoresCase(isIp) && TreesOk() && IndexOk(index, hosts, root) && HostsOk(hosts, root)
      requires IndexAgrees(log, index, hosts0, root, isIp) && IndexOk(index, hosts0, root) && IsForest(hosts0, root)
      requires t == TreeOf(name, isIp) && there == (isIp(name) && d in hosts0)
      requires d in hosts && d != root && SameHost(d.key, Stored(name, isIp)) && hosts0 <= hosts
      requires forall h <- hosts :: h in hosts0 || IsSuffix(h.key, d.key)
      modifies this`trees, this`index, this`nodes, this`log, nodes
      ensures Valid() && fresh(nodes - old(nodes)) && log == old(log) + [Added(name, d)]
    {
      hide HostsOk, IndexOk, SameHost, IsSuffix, IndexAgrees, IgnoresCase, IsForest;
      ghost var log0, index0 := log, index;
      HostsAreForest(hosts, root);
      if !there {
        IndexHost(t, d);
      }
      StillAgrees(log0, index0, hosts0, root, isIp, Added(name, d), index, hosts);
      log := log + [Added(name, d)];
    }

    lemma ValidParts()
      requires Valid()
      ensures IgnoresCase(isIp) && TreesOk() && |index| == NUM_SEARCH_TREES && IndexOk(index, hosts, root)
      ensures HostsOk(hosts, root) && root in hosts && IsForest(hosts, root) && IndexAgrees(log, index, hosts, root, isIp)
    {
      HostsAreForest(hosts, root);
    }

    /** A domain name: one node for each segment. */
    method AddDomainHost(name: string) returns (d: Host)
      requires Valid() && !isIp(name)
      modifies this`trees, this`index, this`nodes, this`hosts, this`log, nodes, hosts`children
      ensures Valid() && log == old(log) + [Added(name, d)]
      ensures d in hosts && d != root && SameHost(d.key, Stored(name, isIp))
      ensures Extends(old(hosts), hosts, d) && fresh(hosts - old(hosts)) && fresh(nodes - old(nodes))
    {
      hide *;
      ValidParts();
      DomainPlace(name, isIp);
      var leaf;
      ghost var hosts0 := hosts;
      d, leaf := GrowHosts(name);
      SameHostFlips(Split(Truncate(name)), d.key);
      IndexName(name, TreeIndex(leaf, isIp(leaf)), d, false, hosts0);
    }

    /** An IP address: a child of the root. One that is there already is taken to
        be in the index. */
    method AddIpHost(name: string) returns (d: Host)
      requires Valid() && isIp(name)
      modifies this`trees, this`index, this`nodes, this`hosts, this`log, nodes, hosts`children
      ensures Valid() && log == old(log) + [Added(name, d)]
      ensures d in hosts && d != root && SameHost(d.key, Stored(name, isIp))
      ensures Extends(old(hosts), hosts, d) && fresh(hosts - old(hosts)) && fresh(nodes - old(nodes))
    {
      hide *;
      ValidParts();
      IpPlace(name, isIp);
      ghost var hosts0 := hosts;
      var there;
      d, there := GrowIpHost(name);
      OnePart(name, d);
      IndexName(name, ST_IP, d, there, hosts0);
    }

    /** The child of the root for an IP address, and whether it was there. */
    method GrowIpHost(name: string) returns (d: Host, there: bool)
      requires TreesOk() && IndexOk(index, hosts, root) && HostsOk(hosts, root)
      modifies this`hosts, root`children
      ensures TreesOk() && IndexOk(index, hosts, root) && HostsOk(hosts, root)
      ensures d in hosts && d != root && |d.key| == 1 && SameText(name, d.key[0])
      ensures there <==> d in old(hosts)
      ensures Extends(old(hosts), hosts, d) && fresh(hosts - old(hosts)) && old(hosts) <= hosts
      ensures forall h <- hosts :: h in old(hosts) || IsSuffix(h.key, d.key)
    {
      assert HostOk(root, hosts, root);
      var found := FindChild(root, name);
      there := found != null;
      if there {
        d := found;
        assert HostOk(d, hosts, root);
      } else {
        d := AddHostNode(name, root, hosts, root);
        hosts := hosts + {d};
      }
      CompareTextZero(name, d.part);
    }

    /** urldb_add_host */
    method AddHost(name: string) returns (d: Host)
      requires Valid()
      modifies this`trees, this`index, this`nodes, this`hosts, this`log, nodes, hosts`children
      ensures Valid() && log == old(log) + [Added(name, d)]
      ensures d in hosts && d != root && SameHost(d.key, Stored(name, isIp))
      ensures Extends(old(hosts), hosts, d) && fresh(hosts - old(hosts)) && fresh(nodes - old(nodes))
    {
      if isIp(name) {
        d := AddIpHost(name);
      } else {
        d := AddDomainHost(name);
      }
    }

    // -------------------------------------------------------------------
    // HSTS
    // -------------------------------------------------------------------

    /** The host with the path `k`, if there is one, has an unexpired policy, and
        one that covers subdomains unless `k` is the host asked for. */
    ghost predicate PolicyFor(k: Key, now: int, own: bool)
      reads this, hosts
    {
      exists h :: h in hosts && SameHost(h.key, k) && h.expires > now && (own || h.includeSubDomains)
    }

    /** Section 8.2 of RFC 6797: a host is known if it has a policy itself, or if
        a superdomain has one that covers subdomains. */
    ghost predicate KnownHstsHost(k: Key, now: int)
      reads this, hosts
    {
      PolicyFor(k, now, true) || exists i :: 0 < i < |k| && PolicyFor(k[i..], now, false)
    }

    /** No superdomain with more than `|k| - i` parts has a policy that covers `k`. */
    ghost predicate NoneBefore(k: Key, i: nat, now: int)
      requires i <= |k|
      reads this, hosts
    {
      forall j :: 0 < j < i ==> !PolicyFor(k[j..], now, false)
    }

    /** The node `x` stands for the last `|k| - i` parts of `k`. */
    ghost predicate IsAbove(x: Host, k: Key, i: nat)
      reads this, hosts
    {
      x in hosts && Rooted(x, root) && 0 < i <= |k| && x.key == k[i..]
    }

    lemma ParentIsAbove(x: Host, k: Key, i: nat)
      requires HostsOk(hosts, root) && IsAbove(x, k, i) && x != root
      ensures i < |k| && x.parent != null && IsAbove(x.parent, k, i + 1) && |x.parent.key| < |x.key|
    {
      assert HostOk(x, hosts, root);
      assert x.parent.key == x.key[1..] == k[i + 1..];
    }

    /** A superdomain with a policy that covers subdomains decides. */
    lemma PolicyAbove(x: Host, k: Key, i: nat, now: int)
      requires HostsOk(hosts, root) && IsAbove(x, k, i) && x != root && NoneBefore(k, i, now)
      ensures if x.expires > now && x.includeSubDomains then KnownHstsHost(k, now)
              else i < |k| && NoneBefore(k, i + 1, now)
    {
      OnlyPolicy(x, now, false);
      ParentIsAbove(x, k, i);
    }

    /** At the root, all superdomains have been asked. */
    lemma NoneAbove(k: Key, i: nat, now: int)
      requires IsAbove(root, k, i) && NoneBefore(k, i, now)
      ensures KnownHstsHost(k, now) <==> PolicyFor(k, now, true)
    {
      assert i == |k|;
    }

    /** The loop of urldb_get_hsts_enabled over the parent domains. */
    method HstsEnabled(h: Host, now: int) returns (enabled: bool)
      requires HostsOk(hosts, root) && h in hosts && h != root
      ensures enabled <==> KnownHstsHost(h.key, now)
    {
      OnlyPolicy(h, now, true);
      if h.expires > now {
        return true;
      }
      var x, i := h.parent, 1;
      assert HostOk(h, hosts, root) && IsAbove(x, h.key, i);
      enabled := AnyAbove(x, h.key, i, now);
    }

    method AnyAbove(h: Host, ghost k: Key, ghost start: nat, now: int) returns (found: bool)
      requires HostsOk(hosts, root) && IsAbove(h, k, start) && NoneBefore(k, start, now)
      ensures if found then KnownHstsHost(k, now) else KnownHstsHost(k, now) <==> PolicyFor(k, now, true)
    {
      hide HostsOk, PolicyFor, KnownHstsHost, NoneBefore, Rooted;
      var x: Host?, i := h, start;
      while x != null && x != root
        invariant x != null && IsAbove(x, k, i) && NoneBefore(k, i, now)
        decreases |x.key|
      {
        PolicyAbove(x, k, i, now);
        if x.expires > now && x.includeSubDomains { return true; }
        ParentIsAbove(x, k, i);
        x, i := x.parent, i + 1;
      }
      NoneAbove(k, i, now);
      found := false;
    }

    /** Only the node with a given path can hold its policy. */
    lemma OnlyPolicy(h: Host, now: int, own: bool)
      requires HostsOk(hosts, root) && h in hosts
      ensures PolicyFor(h.key, now, own) <==> h.expires > now && (own || h.includeSubDomains)
    {
      if PolicyFor(h.key, now, own) {
        var x :| x in hosts && SameHost(x.key, h.key) && x.expires > now && (own || x.includeSubDomains);
        CompareZero(x.key, h.key);
        KeysAreUnique(hosts, root, x, h);
      }
      assert SameHost(h.key, h.key);
    }

    lemma SamePolicyFor(a: Key, b: Key, now: int, own: bool)
      requires SameHost(a, b)
      ensures PolicyFor(a, now, own) == PolicyFor(b, now, own)
    {
      SameHostTransitive(a, b, a);
      forall h: Host | h in hosts ensures SameHost(h.key, a) <==> SameHost(h.key, b) {
        if SameHost(h.key, a) { SameHostTransitive(h.key, a, b); }
        if SameHost(h.key, b) { SameHostTransitive(h.key, b, a); }
      }
    }

    lemma SameKnownHost(a: Key, b: Key, now: int)
      requires SameHost(a, b)
      ensures KnownHstsHost(a, now) == KnownHstsHost(b, now)
    {
      SamePolicyFor(a, b, now, true);
      forall i | 0 < i < |a| ensures PolicyFor(a[i..], now, false) == PolicyFor(b[i..], now, false) {
        SamePolicyFor(a[i..], b[i..], now, false);
      }
    }

    /** Add the host of an URL, and look it up: it may not be found. */
    method FindAdded(name: string, now: int) returns (h: Host?)
      requires Valid() && now >= 0 && !isIp(name)
      modifies this, nodes, hosts
      ensures Valid() && old(hosts) <= hosts && fresh(hosts - old(hosts)) && fresh(nodes - old(nodes))
      ensures forall x <- hosts ::
                if x in old(hosts) then x.expires == old(x.expires) && x.includeSubDomains == old(x.includeSubDomains)
                else IsBlank(x)
      ensures forall x <- old(hosts) :: x.permitInvalidCerts == old(x.permitInvalidCerts)
      ensures h != null <==> IsFound(name, isIp)
      ensures h != null ==> h in hosts && h != root && SameHost(h.key, Split(name))
    {
      hide HostsOk, IndexOk, TreesOk, SameHost, IsSuffix, IndexAgrees, IgnoresCase, IsFound, CanFind, Split, Truncate, Stored;
      var d := AddHost(name);
      assert log[|log| - 1] == Added(name, d);
      h := FindHost(name);
      OnlyFoundIfAdded(log, isIp, |log| - 1);
    }

    /** urldb_get_hsts_enabled, for the host of an URL: it follows the
        domain-suffix rule over the policies stored before the call, for names that
        can be found. */
    method GetHstsEnabled(name: string, now: int) returns (enabled: bool)
      requires Valid() && now >= 0
      modifies this, nodes, hosts
      ensures Valid() && old(hosts) <= hosts && fresh(hosts - old(hosts)) && fresh(nodes - old(nodes))
      ensures forall h <- old(hosts) :: h.expires == old(h.expires) && h.includeSubDomains == old(h.includeSubDomains)
      ensures enabled <==> !isIp(name) && name != "" && IsFound(name, isIp) && old(KnownHstsHost(Split(name), now))
    {
      hide HostsOk, IndexOk, TreesOk, IndexAgrees, IgnoresCase, IsFound, Split, SameHost, KnownHstsHost;
      enabled := false;
      if !isIp(name) && name != "" {
        var h := FindForPolicy(name, now);
        if h != null {
          enabled := HstsEnabled(h, now);
          SameKnownHost(Split(name), h.key, now);
        }
      }
    }

    /** Adding a host makes no other host known. */
    method FindForPolicy(name: string, now: int) returns (h: Host?)
      requires Valid() && now >= 0 && !isIp(name)
      modifies this, nodes, hosts
      ensures h != null <==> IsFound(name, isIp)
      ensures h != null ==> h in hosts && h != root && SameHost(Split(name), h.key)
      ensures KnownHstsHost(Split(name), now) == old(KnownHstsHost(Split(name), now))
      ensures Valid() && old(hosts) <= hosts && fresh(hosts - old(hosts)) && fresh(nodes - old(nodes))
      ensures forall h <- old(hosts) :: h.expires == old(h.expires) && h.includeSubDomains == old(h.includeSubDomains)
    {
      hide Valid, Split, SameHost, IsFound;
      ghost var k := Split(name);
      h := FindAdded(name, now);
      // the new hosts are blank
      forall i: nat, own | i <= |k| ensures PolicyFor(k[i..], now, own) == old(PolicyFor(k[i..], now, own)) {
      }
      assert k[0..] == k;
      if h != null { SameHostFlips(h.key, k); }
    }

    /** Policies play no part in the shape of the database. */
    method UpdatePolicy(d: Host, policy: HstsHeader, now: int)
      requires Valid() && d in hosts
      modifies d`expires, d`includeSubDomains
      ensures Valid()
      ensures (d.expires, d.includeSubDomains) ==
              PolicyAfter(old(d.expires), old(d.includeSubDomains), d.permitInvalidCerts, policy, now)
    {
      hide Valid;
      StorePolicy(d, policy, now);
    }

    /** urldb_set_hsts_policy, for the host of an URL and a header: it fails if the host
        cannot be found. `h` is the node that holds the host's policy. */
    method SetHstsPolicy(name: string, policy: HstsHeader, now: int) returns (ok: bool, ghost h: Host?)
      requires Valid() && now >= 0
      modifies this, nodes, hosts
      ensures Valid() && old(hosts) <= hosts && fresh(hosts - old(hosts)) && fresh(nodes - old(nodes))
      ensures ok <==> isIp(name) || name == "" || IsFound(name, isIp)
      ensures h != null <==> !isIp(name) && name != "" && IsFound(name, isIp)
      ensures h != null ==> h in hosts && SameHost(h.key, Split(name))
      ensures forall x <- hosts :: x != h ==>
                if x in old(hosts) then x.expires == old(x.expires) && x.includeSubDomains == old(x.includeSubDomains)
                else IsBlank(x)
      ensures forall x <- old(hosts) :: x.permitInvalidCerts == old(x.permitInvalidCerts)
      ensures h != null && h !in old(hosts) ==> !h.permitInvalidCerts
      ensures h != null && (h.permitInvalidCerts || policy.Malformed?) ==>
                && h.expires == (if h in old(hosts) then old(h.expires) else 0)
                && h.includeSubDomains == (h in old(hosts) && old(h.includeSubDomains))
      ensures h != null && !h.permitInvalidCerts && policy.Parsed? && policy.maxAge == 0 ==>
                h.expires == 0 && !h.includeSubDomains
      ensures h != null && !h.permitInvalidCerts && policy.Parsed? && policy.maxAge > 0 ==>
                && h.expires == Later(now + policy.maxAge, if h in old(hosts) then old(h.expires) else 0)
                && h.includeSubDomains == policy.includeSubDomains
    {
      hide Valid, Split, SameHost, IsFound;
      ok, h := true, null;
      if !isIp(name) && name != "" {
        var found := FindAdded(name, now);
        ok := found != null;
        if found != null {
          UpdatePolicy(found, policy, now);
          h := found;
        }
      }
    }
  }

  /** A Strict-Transport-Security header after parsing. */
  datatype HstsHeader = Malformed | Parsed(maxAge: nat, includeSubDomains: bool)

  /** The greater of two times. */
  function Later(a: int, b: int): (t: int)
    ensures t >= a && t >= b && (t == a || t == b)
  {
    if a >= b then a else b
  }

  /** A stored policy after a header has come in. An expiry never decreases,
      unless a maximum age of zero removes the policy. */
  function PolicyAfter(expires: int, includeSub: bool, tainted: bool, policy: HstsHeader, now: int): (p: (int, bool))
    ensures policy.Parsed? && policy.maxAge == 0 && !tainted ==> p == (0, false)
    ensures (policy.Parsed? && policy.maxAge == 0 && !tainted) || p.0 >= expires
    ensures policy.Parsed? && policy.maxAge > 0 && !tainted ==> p == (Later(now + policy.maxAge, expires), policy.includeSubDomains)
  {
    if tainted || policy.Malformed? then (expires, includeSub)
    else if policy.maxAge == 0 then (0, false)
    else (if now + policy.maxAge > expires then now + policy.maxAge else expires, policy.includeSubDomains)
  }

  /** Store a policy on a host, unless its transport is tainted. */
  method StorePolicy(d: Host, policy: HstsHeader, now: int)
    modifies d`expires, d`includeSubDomains
    ensures (d.expires, d.includeSubDomains) ==
            PolicyAfter(old(d.expires), old(d.includeSubDomains), d.permitInvalidCerts, policy, now)
  {
    if d.permitInvalidCerts || policy.Malformed? {
      return;
    }
    d.includeSubDomains := policy.includeSubDomains;
    if policy.maxAge == 0 {
      d.expires := 0;
      d.includeSubDomains := false;
    } else if now + policy.maxAge > d.expires {
      d.expires := now + policy.maxAge;
    }
  }
}
