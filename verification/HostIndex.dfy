/** The agreement between the names added to the database of hosts, the host tree, and
    the index trees (content/urldb.c). */
module HostIndex {
  import opened HostOrder
  import opened HostPart
  import opened HostTree
  import opened HostNames
  import ST = SearchTree

  /** A name that was added, and the node that adding it returned. */
  datatype Added = Added(name: string, host: Host)

  /** The node of a name spells what is stored of it; a domain name is in its tree. */
  ghost predicate NameIsStored(a: Added, index: seq<ST.Tree>, isIp: string -> bool)
    requires |index| == NUM_SEARCH_TREES
  {
    && SameHost(a.host.key, Stored(a.name, isIp))
    && (!isIp(a.name) ==> a.host in ST.Hosts(index[LeafTree(a.name, isIp)]))
  }

  ghost predicate NamesAreStored(log: seq<Added>, index: seq<ST.Tree>, isIp: string -> bool)
    requires |index| == NUM_SEARCH_TREES
  {
    forall i :: 0 <= i < |log| ==> NameIsStored(log[i], index, isIp)
  }

  /** Every node in an index tree was returned for a name added. */
  ghost predicate IndexIsLogged(log: seq<Added>, index: seq<ST.Tree>, isIp: string -> bool) {
    forall t, k :: 0 <= t < |index| && 0 <= k < |ST.Hosts(index[t])| ==>
      IsLogged(log, ST.Hosts(index[t])[k], t, isIp)
  }

  /** `h` was returned for a name that belongs in tree `t`. */
  ghost predicate IsLogged(log: seq<Added>, h: Host, t: nat, isIp: string -> bool) {
    exists i :: 0 <= i < |log| && log[i].host == h && TreeOf(log[i].name, isIp) == t
  }

  ghost predicate OnPath(log: seq<Added>, h: Host) {
    exists i :: 0 <= i < |log| && IsSuffix(h.key, log[i].host.key)
  }

  /** The nodes of the host tree are those on the paths to names added. */
  ghost predicate HostsAreLogged(log: seq<Added>, hosts: set<Host>, root: Host) {
    && (forall i :: 0 <= i < |log| ==> log[i].host in hosts && log[i].host != root)
    && forall h <- hosts :: h != root ==> OnPath(log, h)
  }

  /** What is stored of a name ends with the IP address. */
  predicate EndsWith(name: string, isIp: string -> bool, ip: string) {
    var k := Stored(name, isIp);
    SameText(k[|k| - 1], ip)
  }

  predicate NoneEndsWith(log: seq<Added>, isIp: string -> bool, ip: string) {
    forall i :: 0 <= i < |log| ==> !EndsWith(log[i].name, isIp, ip)
  }

  /** The `j`th name added put the node for an IP address into the index: as the address
      itself, before any other name that ends with it, or as a domain name of which just
      the address is stored. */
  predicate PutsInIndex(log: seq<Added>, j: nat, isIp: string -> bool, ip: string)
    requires j < |log|
  {
    SameHost(Stored(log[j].name, isIp), [ip]) && (!isIp(log[j].name) || NoneEndsWith(log[..j], isIp, ip))
  }

  predicate IpIsIndexed(log: seq<Added>, isIp: string -> bool, ip: string) {
    exists j :: 0 <= j < |log| && PutsInIndex(log, j, isIp, ip)
  }

  /** A top-level node that is an IP address. */
  ghost predicate IsIpNode(h: Host, isIp: string -> bool) { |h.key| == 1 && isIp(h.key[0]) }

  /** The nodes of IP addresses are in the index exactly if a name put them there. */
  ghost predicate IpsAreIndexed(log: seq<Added>, index: seq<ST.Tree>, hosts: set<Host>, isIp: string -> bool)
    requires |index| == NUM_SEARCH_TREES
  {
    forall h <- hosts :: IsIpNode(h, isIp) ==> (h in ST.Hosts(index[ST_IP]) <==> IpIsIndexed(log, isIp, h.key[0]))
  }

  /** The index agrees with the host tree and with what was added. */
  ghost predicate IndexAgrees(log: seq<Added>, index: seq<ST.Tree>, hosts: set<Host>, root: Host, isIp: string -> bool)
    requires |index| == NUM_SEARCH_TREES
  {
    && NamesAreStored(log, index, isIp) && IndexIsLogged(log, index, isIp)
    && HostsAreLogged(log, hosts, root) && IpsAreIndexed(log, index, hosts, isIp)
  }

  ghost predicate TreeOk(t: ST.Tree, hosts: set<Host>, root: Host) {
    && ST.Balanced(t) && ST.Sorted(ST.Hosts(t)) && ST.Indexes(t, root)
    && forall k :: 0 <= k < |ST.Hosts(t)| ==> ST.Hosts(t)[k] in hosts
  }

  ghost predicate IndexOk(index: seq<ST.Tree>, hosts: set<Host>, root: Host) {
    forall i :: 0 <= i < |index| ==> TreeOk(index[i], hosts, root)
  }

  lemma InsertKeepsTreeOk(t: ST.Tree, n: ST.SearchNode, d: Host, hosts: set<Host>, root: Host)
    requires TreeOk(t, hosts, root) && Rooted(d, root) && d != root && d in hosts
    ensures TreeOk(ST.Insert(t, n, d), hosts, root)
  {
    ST.InsertKeepsBalance(t, n, d);
    ST.InsertAddsSorted(t, n, d);
    ST.AddSortedKeepsOrder(ST.Hosts(t), d);
    ST.AddSortedIsAtRank(ST.Hosts(t), d);
    ST.InsertKeepsIndexes(t, n, d, root);
  }

  // ---------------------------------------------------------------------
  // The host tree, seen from below
  // ---------------------------------------------------------------------

  /** No two nodes stand for the same host, and parents of nodes are nodes. */
  ghost predicate IsForest(hosts: set<Host>, root: Host) {
    && (forall a <- hosts, b <- hosts :: Compare(a.key, b.key) == 0 ==> a == b)
    && (forall h <- hosts :: h != root ==> h.parent != null && h.parent in hosts && h.key == [h.part] + h.parent.key)
    && (forall h <- hosts :: h == root ==> h.key == [])
  }

  lemma HostsAreForest(hosts: set<Host>, root: Host)
    requires HostsOk(hosts, root)
    ensures IsForest(hosts, root)
  {
    forall a, b | a in hosts && b in hosts && Compare(a.key, b.key) == 0 ensures a == b {
      KeysAreUnique(hosts, root, a, b);
    }
    forall h | h in hosts ensures h == root ==> h.key == []
      ensures h != root ==> h.parent != null && h.parent in hosts && h.key == [h.part] + h.parent.key
    {
      assert HostOk(h, hosts, root);
    }
  }

  lemma SameNode(hosts: set<Host>, root: Host, a: Host, b: Host)
    requires IsForest(hosts, root) && a in hosts && b in hosts && SameHost(a.key, b.key)
    ensures a == b
  {
    CompareZero(a.key, b.key);
  }

  /** The top-level node above a host. */
  lemma {:induction false} TopNode(h: Host, hosts: set<Host>, root: Host) returns (c: Host)
    requires IsForest(hosts, root) && h in hosts && h != root
    ensures c in hosts && c.key == [h.key[|h.key| - 1]]
    decreases |h.key|
  {
    if h.parent == root {
      c := h;
    } else {
      c := TopNode(h.parent, hosts, root);
    }
  }

  // ---------------------------------------------------------------------
  // One more node in the index
  // ---------------------------------------------------------------------

  /** Equal hosts in `s` are the host `d` itself. */
  ghost predicate OnlyEqualTo(s: seq<Host>, d: Host) {
    forall k :: 0 <= k < |s| && Compare(s[k].key, d.key) == 0 ==> s[k] == d
  }

  lemma AddSortedMembers(s: seq<Host>, d: Host)
    requires OnlyEqualTo(s, d)
    ensures forall x :: x in ST.AddSorted(s, d) <==> x == d || x in s
  {
    var r, s' := ST.Rank(s, d.key), ST.AddSorted(s, d);
    ST.AddSortedIsAtRank(s, d);
    if s' != s {
      assert s'[r] == d;
      forall k | 0 <= k < |s| ensures s[k] in s' {
        assert s[k] == s'[if k < r then k else k + 1];
      }
    }
  }

  /** One index tree has been given the host `d`. */
  ghost predicate IndexGrows(index: seq<ST.Tree>, t: nat, d: Host, index': seq<ST.Tree>)
    requires t < |index| == |index'|
  {
    && (forall u :: 0 <= u < |index| && u != t ==> index'[u] == index[u])
    && ST.Hosts(index'[t]) == ST.AddSorted(ST.Hosts(index[t]), d) && OnlyEqualTo(ST.Hosts(index[t]), d)
  }

  lemma InsertGrows(index: seq<ST.Tree>, t: nat, n: ST.SearchNode, d: Host, hosts: set<Host>, root: Host)
    requires t < |index| && TreeOk(index[t], hosts, root) && IsForest(hosts, root) && d in hosts
    ensures IndexGrows(index, t, d, index[t := ST.Insert(index[t], n, d)])
  {
    ST.InsertAddsSorted(index[t], n, d);
  }

  /** What is in the trees afterwards. */
  lemma GrownMember(index: seq<ST.Tree>, t: nat, d: Host, index': seq<ST.Tree>, u: nat, x: Host)
    requires t < |index| == |index'| && IndexGrows(index, t, d, index') && u < |index|
    ensures x in ST.Hosts(index'[u]) <==> x in ST.Hosts(index[u]) || (u == t && x == d)
  {
    AddSortedMembers(ST.Hosts(index[t]), d);
  }

  lemma NamesStayStored(log: seq<Added>, index: seq<ST.Tree>, isIp: string -> bool, a: Added, t: nat, index': seq<ST.Tree>)
    requires |index| == |index'| == NUM_SEARCH_TREES && t < NUM_SEARCH_TREES && NamesAreStored(log, index, isIp)
    requires index' == index || IndexGrows(index, t, a.host, index')
    requires NameIsStored(a, index', isIp)
    ensures NamesAreStored(log + [a], index', isIp)
  {
    forall i | 0 <= i < |log + [a]| ensures NameIsStored((log + [a])[i], index', isIp) {
      if i < |log| {
        assert NameIsStored(log[i], index, isIp);
        if index' != index { GrownMember(index, t, a.host, index', LeafTree(log[i].name, isIp), log[i].host); }
      }
    }
  }

  lemma IndexStaysLogged(log: seq<Added>, index: seq<ST.Tree>, isIp: string -> bool, a: Added, index': seq<ST.Tree>)
    requires |index| == |index'| == NUM_SEARCH_TREES && IndexIsLogged(log, index, isIp)
    requires index' == index || IndexGrows(index, TreeOf(a.name, isIp), a.host, index')
    ensures IndexIsLogged(log + [a], index', isIp)
  {
    var t, log' := TreeOf(a.name, isIp), log + [a];
    forall u, k | 0 <= u < |index'| && 0 <= k < |ST.Hosts(index'[u])|
      ensures IsLogged(log', ST.Hosts(index'[u])[k], u, isIp)
    {
      var h := ST.Hosts(index'[u])[k];
      assert h in ST.Hosts(index'[u]);
      if index' != index { GrownMember(index, t, a.host, index', u, h); }
      if h in ST.Hosts(index[u]) {
        StaysLogged(log, index, isIp, a, u, h);
      } else {
        assert log'[|log|] == a && u == t && h == a.host;
      }
    }
  }

  lemma StaysLogged(log: seq<Added>, index: seq<ST.Tree>, isIp: string -> bool, a: Added, u: nat, h: Host)
    requires IndexIsLogged(log, index, isIp) && u < |index| && h in ST.Hosts(index[u])
    ensures IsLogged(log, h, u, isIp) && IsLogged(log + [a], h, u, isIp)
  {
    var k :| 0 <= k < |ST.Hosts(index[u])| && ST.Hosts(index[u])[k] == h;
    assert IsLogged(log, ST.Hosts(index[u])[k], u, isIp);
    var i :| 0 <= i < |log| && log[i].host == h && TreeOf(log[i].name, isIp) == u;
    assert (log + [a])[i] == log[i];
  }

  lemma HostsGrow(log: seq<Added>, hosts: set<Host>, root: Host, a: Added, hosts': set<Host>)
    requires HostsAreLogged(log, hosts, root) && hosts <= hosts' && a.host in hosts' && a.host != root
    requires forall h <- hosts' :: h in hosts || IsSuffix(h.key, a.host.key)
    ensures HostsAreLogged(log + [a], hosts', root)
  {
    hide IsSuffix, OnPath;
    forall h | h in hosts' && h != root ensures OnPath(log + [a], h) {
      StaysOnPath(log, a, h);
    }
  }

  lemma StaysOnPath(log: seq<Added>, a: Added, h: Host)
    requires OnPath(log, h) || IsSuffix(h.key, a.host.key)
    ensures OnPath(log + [a], h)
  {
    hide IsSuffix;
    var log' := log + [a];
    assert log'[|log|] == a;
    if OnPath(log, h) {
      var i :| 0 <= i < |log| && IsSuffix(h.key, log[i].host.key);
      assert log'[i] == log[i];
    }
  }

  // ---------------------------------------------------------------------
  // Nodes of IP addresses
  // ---------------------------------------------------------------------

  /** One more name puts an address into the index, or it was there before. */
  lemma OneMoreName(log: seq<Added>, a: Added, isIp: string -> bool, ip: string)
    ensures IpIsIndexed(log + [a], isIp, ip) <==>
              || IpIsIndexed(log, isIp, ip)
              || (SameHost(Stored(a.name, isIp), [ip]) && (!isIp(a.name) || NoneEndsWith(log, isIp, ip)))
  {
    var log' := log + [a];
    assert log'[..|log|] == log;
    forall j: nat | j < |log| ensures PutsInIndex(log', j, isIp, ip) <==> PutsInIndex(log, j, isIp, ip) {
      assert log'[..j] == log[..j] && log'[j] == log[j];
    }
    assert PutsInIndex(log', |log|, isIp, ip) <==>
             SameHost(Stored(a.name, isIp), [ip]) && (!isIp(a.name) || NoneEndsWith(log, isIp, ip));
    if IpIsIndexed(log', isIp, ip) {
      var j :| 0 <= j < |log'| && PutsInIndex(log', j, isIp, ip);
      assert j < |log| ==> PutsInIndex(log, j, isIp, ip);
    }
    if IpIsIndexed(log, isIp, ip) {
      var j :| 0 <= j < |log| && PutsInIndex(log, j, isIp, ip);
      assert PutsInIndex(log', j, isIp, ip);
    }
  }

  /** Of the nodes of a larger host tree, too, the index has just those of addresses
      that a name put there. */
  lemma IndexedBefore(log: seq<Added>, index: seq<ST.Tree>, hosts: set<Host>, root: Host, isIp: string -> bool,
                      hosts': set<Host>, h: Host)
    requires |index| == NUM_SEARCH_TREES && IndexAgrees(log, index, hosts, root, isIp) && IndexOk(index, hosts, root)
    requires hosts <= hosts' && IsForest(hosts', root) && h in hosts' && IsIpNode(h, isIp)
    ensures h in ST.Hosts(index[ST_IP]) <==> IpIsIndexed(log, isIp, h.key[0])
  {
    if h !in hosts {
      assert TreeOk(index[ST_IP], hosts, root);
      hide TreeOk, IndexIsLogged, IsForest, SameHost, Stored, EndsWith;
      if IpIsIndexed(log, isIp, h.key[0]) {
        var j :| 0 <= j < |log| && PutsInIndex(log, j, isIp, h.key[0]);
        assert NameIsStored(log[j], index, isIp);
        StandsFor(log[j], isIp, hosts', root, h);
      }
    }
  }

  /** The node of a name that just an address is stored of. */
  lemma StandsFor(a: Added, isIp: string -> bool, hosts: set<Host>, root: Host, h: Host)
    requires IsForest(hosts, root) && a.host in hosts && h in hosts && |h.key| == 1
    requires SameHost(a.host.key, Stored(a.name, isIp)) && SameHost(Stored(a.name, isIp), [h.key[0]])
    ensures a.host == h
  {
    SameHostTransitive(a.host.key, Stored(a.name, isIp), h.key);
    SameNode(hosts, root, a.host, h);
  }

  /** Adding a domain name. */
  lemma DomainKeepsIps(log: seq<Added>, index: seq<ST.Tree>, hosts: set<Host>, root: Host, isIp: string -> bool,
                       a: Added, index': seq<ST.Tree>, hosts': set<Host>)
    requires |index| == |index'| == NUM_SEARCH_TREES && IndexAgrees(log, index, hosts, root, isIp)
    requires IgnoresCase(isIp) && !isIp(a.name) && IndexOk(index, hosts, root)
    requires hosts <= hosts' && IsForest(hosts', root) && a.host in hosts'
    requires IndexGrows(index, LeafTree(a.name, isIp), a.host, index') && SameHost(a.host.key, Stored(a.name, isIp))
    ensures IpsAreIndexed(log + [a], index', hosts', isIp)
  {
    forall h | h in hosts' && IsIpNode(h, isIp)
      ensures h in ST.Hosts(index'[ST_IP]) <==> IpIsIndexed(log + [a], isIp, h.key[0])
    {
      IndexedBefore(log, index, hosts, root, isIp, hosts', h);
      OneMoreName(log, a, isIp, h.key[0]);
      PutByDomain(a, isIp, hosts', root, h);
      GrownMember(index, LeafTree(a.name, isIp), a.host, index', ST_IP, h);
    }
  }

  /** A domain name puts a top-level node into the tree of IP addresses just if it is
      its own. */
  lemma PutByDomain(a: Added, isIp: string -> bool, hosts: set<Host>, root: Host, h: Host)
    requires IgnoresCase(isIp) && !isIp(a.name) && IsForest(hosts, root) && a.host in hosts && h in hosts
    requires IsIpNode(h, isIp) && SameHost(a.host.key, Stored(a.name, isIp))
    ensures SameHost(Stored(a.name, isIp), [h.key[0]]) <==> LeafTree(a.name, isIp) == ST_IP && h == a.host
  {
    var k := Stored(a.name, isIp);
    if SameHost(k, [h.key[0]]) {
      assert SameText(k[0], h.key[0]);
      SameHostTransitive(a.host.key, k, h.key);
      SameNode(hosts, root, a.host, h);
    }
    if h == a.host {
      SameHostTransitive(a.host.key, k, a.host.key);
      assert [h.key[0]] == h.key;
    }
  }

  /** A name ends with an address just if the top-level node above it is that. */
  lemma EndsWithTop(a: Added, index: seq<ST.Tree>, isIp: string -> bool, h: Host)
    requires |index| == NUM_SEARCH_TREES && NameIsStored(a, index, isIp) && |h.key| == 1
    ensures a.host.key != []
    ensures IsSuffix(h.key, a.host.key) ==> EndsWith(a.name, isIp, h.key[0])
    ensures EndsWith(a.name, isIp, h.key[0]) ==> SameText(a.host.key[|a.host.key| - 1], h.key[0])
  {
    var k := Stored(a.name, isIp);
    assert SameText(a.host.key[|k| - 1], k[|k| - 1]);
  }

  /** Adding an IP address: its node goes into the index just if it is new. */
  lemma IpKeepsIps(log: seq<Added>, index: seq<ST.Tree>, hosts: set<Host>, root: Host, isIp: string -> bool,
                   a: Added, index': seq<ST.Tree>, hosts': set<Host>)
    requires |index| == |index'| == NUM_SEARCH_TREES && IndexAgrees(log, index, hosts, root, isIp)
    requires isIp(a.name) && IndexOk(index, hosts, root) && IsForest(hosts, root)
    requires hosts <= hosts' && IsForest(hosts', root) && a.host in hosts' && a.host != root
    requires SameHost(a.host.key, [a.name])
    requires if a.host in hosts then index' == index else IndexGrows(index, ST_IP, a.host, index')
    ensures IpsAreIndexed(log + [a], index', hosts', isIp)
  {
    hide IndexAgrees, IndexOk, IsForest, SameHost, Stored, NoneEndsWith, IpIsIndexed, IndexGrows;
    forall h | h in hosts' && IsIpNode(h, isIp)
      ensures h in ST.Hosts(index'[ST_IP]) <==> IpIsIndexed(log + [a], isIp, h.key[0])
    {
      IndexedBefore(log, index, hosts, root, isIp, hosts', h);
      OneMoreName(log, a, isIp, h.key[0]);
      PutByIp(a, isIp, hosts', root, h);
      if a.host !in hosts { GrownMember(index, ST_IP, a.host, index', ST_IP, h); }
      if h == a.host {
        NoneEndsIff(log, index, hosts, root, isIp, hosts', h);
      }
    }
  }

  /** An IP address puts in its own node. */
  lemma PutByIp(a: Added, isIp: string -> bool, hosts: set<Host>, root: Host, h: Host)
    requires isIp(a.name) && IsForest(hosts, root) && a.host in hosts && h in hosts
    requires IsIpNode(h, isIp) && SameHost(a.host.key, [a.name])
    ensures SameHost(Stored(a.name, isIp), [h.key[0]]) <==> h == a.host
  {
    if SameHost([a.name], [h.key[0]]) {
      StandsFor(a, isIp, hosts, root, h);
    }
    if h == a.host {
      SameHostTransitive(a.host.key, [a.name], a.host.key);
      assert [h.key[0]] == h.key;
    }
  }

  /** A top-level node is there just if some name ends with it. */
  lemma NoneEndsIff(log: seq<Added>, index: seq<ST.Tree>, hosts: set<Host>, root: Host, isIp: string -> bool,
                    hosts': set<Host>, h: Host)
    requires |index| == NUM_SEARCH_TREES && IndexAgrees(log, index, hosts, root, isIp) && IsForest(hosts, root)
    requires hosts <= hosts' && IsForest(hosts', root) && h in hosts' && h != root && |h.key| == 1
    ensures NoneEndsWith(log, isIp, h.key[0]) <==> h !in hosts
  {
    hide IndexIsLogged, IpsAreIndexed, IsForest, NameIsStored, EndsWith, IsSuffix;
    if h in hosts {
      assert OnPath(log, h);
      var i :| 0 <= i < |log| && IsSuffix(h.key, log[i].host.key);
      assert NameIsStored(log[i], index, isIp);
      EndsWithTop(log[i], index, isIp, h);
    } else {
      forall i | 0 <= i < |log| ensures !EndsWith(log[i].name, isIp, h.key[0]) {
        assert NameIsStored(log[i], index, isIp);
        if EndsWith(log[i].name, isIp, h.key[0]) {
          TopIsThere(log[i], index, hosts, root, isIp, hosts', h);
        }
      }
    }
  }

  lemma TopIsThere(a: Added, index: seq<ST.Tree>, hosts: set<Host>, root: Host, isIp: string -> bool,
                   hosts': set<Host>, h: Host)
    requires |index| == NUM_SEARCH_TREES && NameIsStored(a, index, isIp) && IsForest(hosts, root)
    requires hosts <= hosts' && IsForest(hosts', root) && a.host in hosts && a.host != root
    requires h in hosts' && |h.key| == 1 && EndsWith(a.name, isIp, h.key[0])
    ensures h in hosts
  {
    EndsWithTop(a, index, isIp, h);
    var c := TopNode(a.host, hosts, root);
    hide IsForest;
    SameNode(hosts', root, c, h);
  }

  /** What adding a name keeps. */
  lemma StillAgrees(log: seq<Added>, index: seq<ST.Tree>, hosts: set<Host>, root: Host, isIp: string -> bool,
                    a: Added, index': seq<ST.Tree>, hosts': set<Host>)
    requires |index| == |index'| == NUM_SEARCH_TREES && IndexAgrees(log, index, hosts, root, isIp)
    requires IgnoresCase(isIp) && IndexOk(index, hosts, root) && IsForest(hosts, root)
    requires hosts <= hosts' && IsForest(hosts', root) && a.host in hosts' && a.host != root
    requires forall h <- hosts' :: h in hosts || IsSuffix(h.key, a.host.key)
    requires SameHost(a.host.key, Stored(a.name, isIp))
    requires if isIp(a.name) && a.host in hosts then index' == index
             else IndexGrows(index, TreeOf(a.name, isIp), a.host, index')
    ensures IndexAgrees(log + [a], index', hosts', root, isIp)
  {
    var t := TreeOf(a.name, isIp);
    if !isIp(a.name) { GrownMember(index, t, a.host, index', t, a.host); }
    NamesStayStored(log, index, isIp, a, t, index');
    IndexStaysLogged(log, index, isIp, a, index');
    HostsGrow(log, hosts, root, a, hosts');
    if isIp(a.name) {
      IpKeepsIps(log, index, hosts, root, isIp, a, index', hosts');
    } else {
      DomainKeepsIps(log, index, hosts, root, isIp, a, index', hosts');
    }
  }

  // ---------------------------------------------------------------------
  // Lookups
  // ---------------------------------------------------------------------

  /** A name was added whose node is what a lookup of a domain name looks for, in the
      tree where it looks. */
  predicate CanFind(log: seq<Added>, isIp: string -> bool, name: string) {
    exists i :: 0 <= i < |log| && IsStoredAs(log[i].name, name, isIp)
  }

  predicate IsStoredAs(x: string, name: string, isIp: string -> bool) {
    SameHost(Stored(x, isIp), Split(name)) && TreeOf(x, isIp) == TreeIndex(name, false)
  }

  /** No domain name that was added starts with the address. */
  predicate NoneStartsWith(log: seq<Added>, isIp: string -> bool, ip: string) {
    forall i :: 0 <= i < |log| ==> |Stored(log[i].name, isIp)| == 1 || !SameText(Stored(log[i].name, isIp)[0], ip)
  }

  /** A host in an index tree, and the name that put it there. */
  lemma NameOf(log: seq<Added>, index: seq<ST.Tree>, isIp: string -> bool, t: nat, h: Host) returns (i: nat)
    requires |index| == NUM_SEARCH_TREES && NamesAreStored(log, index, isIp) && IndexIsLogged(log, index, isIp)
    requires t < |index| && h in ST.Hosts(index[t])
    ensures i < |log| && log[i].host == h && TreeOf(log[i].name, isIp) == t && SameHost(h.key, Stored(log[i].name, isIp))
  {
    var k :| 0 <= k < |ST.Hosts(index[t])| && ST.Hosts(index[t])[k] == h;
    assert IsLogged(log, ST.Hosts(index[t])[k], t, isIp);
    i :| 0 <= i < |log| && log[i].host == h && TreeOf(log[i].name, isIp) == t;
    assert NameIsStored(log[i], index, isIp);
  }

  /** A node of the tree that a domain name selects, with the name's path, was put there
      by a name that can be found. */
  lemma HasOnlyIf(log: seq<Added>, index: seq<ST.Tree>, isIp: string -> bool, name: string, h: Host)
    requires |index| == NUM_SEARCH_TREES && NamesAreStored(log, index, isIp) && IndexIsLogged(log, index, isIp)
    requires h in ST.Hosts(index[TreeIndex(name, false)]) && SameHost(h.key, Split(name))
    ensures CanFind(log, isIp, name)
  {
    var i := NameOf(log, index, isIp, TreeIndex(name, false), h);
    SameHostTransitive(h.key, Stored(log[i].name, isIp), h.key);
    SameHostTransitive(Stored(log[i].name, isIp), h.key, Split(name));
    hide SameHost, Stored, Split, TreeIndex, TreeOf;
    assert IsStoredAs(log[i].name, name, isIp);
  }

  lemma HasIf(log: seq<Added>, index: seq<ST.Tree>, isIp: string -> bool, name: string)
    requires |index| == NUM_SEARCH_TREES && NamesAreStored(log, index, isIp)
    requires IgnoresCase(isIp) && !isIp(name) && CanFind(log, isIp, name)
    ensures ST.Has(ST.Hosts(index[TreeIndex(name, false)]), Split(name))
  {
    hide SameHost, Stored, Split, TreeIndex, LeafTree, IgnoresCase;
    var i :| 0 <= i < |log| && IsStoredAs(log[i].name, name, isIp);
    var h, s := log[i].host, ST.Hosts(index[TreeIndex(name, false)]);
    assert NameIsStored(log[i], index, isIp);
    StoredElsewhere(log[i].name, name, isIp);
    SameHostTransitive(h.key, Stored(log[i].name, isIp), Split(name));
    CompareZero(h.key, Split(name));
    var k :| 0 <= k < |s| && s[k] == h;
  }

  /** Looking up a domain name finds a node just if it can be found, and then the one
      that spells it. */
  lemma DomainLookup(log: seq<Added>, index: seq<ST.Tree>, hosts: set<Host>, root: Host, isIp: string -> bool, name: string)
    requires |index| == NUM_SEARCH_TREES && TreeOk(index[TreeIndex(name, false)], hosts, root)
    requires IgnoresCase(isIp) && IndexAgrees(log, index, hosts, root, isIp) && !isIp(name)
    ensures var h := ST.Lookup(index[TreeIndex(name, false)], name, false, root);
            && (h != null <==> CanFind(log, isIp, name))
            && (h != null ==> h in hosts && SameHost(h.key, Split(name)))
  {
    var t := index[TreeIndex(name, false)];
    var h := ST.Lookup(t, name, false, root);
    ST.LookupFindsHost(t, name, root);
    hide IgnoresCase, NamesAreStored, IndexIsLogged, IpsAreIndexed, HostsAreLogged, CanFind, SameHost, Split, TreeIndex, ST.Lookup;
    if h != null {
      CompareZero(h.key, Split(name));
      HasOnlyIf(log, index, isIp, name, h);
    }
    if CanFind(log, isIp, name) {
      HasIf(log, index, isIp, name);
    }
  }

  /** A domain name that was added is found as its node just if it is stored in full in
      the tree where it is looked for. */
  lemma AddedDomainIsFound(log: seq<Added>, index: seq<ST.Tree>, hosts: set<Host>, root: Host, isIp: string -> bool, i: nat)
    requires |index| == NUM_SEARCH_TREES && IsForest(hosts, root)
    requires IgnoresCase(isIp) && IndexAgrees(log, index, hosts, root, isIp)
    requires i < |log| && !isIp(log[i].name)
    requires TreeOk(index[TreeIndex(log[i].name, false)], hosts, root)
    ensures var name := log[i].name;
            ST.Lookup(index[TreeIndex(name, false)], name, false, root) == log[i].host <==> IsFound(name, isIp)
  {
    var name := log[i].name;
    var h := ST.Lookup(index[TreeIndex(name, false)], name, false, root);
    assert NameIsStored(log[i], index, isIp) && log[i].host in hosts;
    hide IgnoresCase, IndexAgrees, TreeOk, IsForest, NameIsStored, IsFound, CanFind, Split, SameHost, TreeIndex, ST.Lookup;
    DomainLookup(log, index, hosts, root, isIp, name);
    OnlyFoundIfAdded(log, isIp, i);
    if IsFound(name, isIp) {
      SpellsIt(log[i], index, hosts, root, isIp, h);
    }
  }

  lemma SpellsIt(a: Added, index: seq<ST.Tree>, hosts: set<Host>, root: Host, isIp: string -> bool, h: Host)
    requires |index| == NUM_SEARCH_TREES && NameIsStored(a, index, isIp) && IsForest(hosts, root)
    requires !isIp(a.name) && IsFound(a.name, isIp)
    requires a.host in hosts && h in hosts && SameHost(h.key, Split(a.name))
    ensures h == a.host
  {
    IsFoundIff(a.name, isIp);
    SameHostTransitive(a.host.key, Stored(a.name, isIp), Split(a.name));
    SameHostTransitive(h.key, Split(a.name), h.key);
    SameHostTransitive(a.host.key, Split(a.name), h.key);
    SameNode(hosts, root, a.host, h);
  }

  /** A domain name that was added can be found just if it is found as its own node. */
  lemma OnlyFoundIfAdded(log: seq<Added>, isIp: string -> bool, i: nat)
    requires i < |log| && IgnoresCase(isIp) && !isIp(log[i].name)
    ensures CanFind(log, isIp, log[i].name) <==> IsFound(log[i].name, isIp)
  {
    var name := log[i].name;
    IsFoundIff(name, isIp);
    hide SameHost, Split, Stored, TreeIndex, LeafTree, IsFound;
    if IsFound(name, isIp) {
      assert IsStoredAs(name, name, isIp);
    }
    if CanFind(log, isIp, name) {
      var j :| 0 <= j < |log| && IsStoredAs(log[j].name, name, isIp);
      StoredElsewhere(log[j].name, name, isIp);
    }
  }

  /** Looking up an IP address: its node `e` is found just if a name put it into the
      index, and no node on the way to it starts with the address. */
  lemma IpLookup(log: seq<Added>, index: seq<ST.Tree>, hosts: set<Host>, root: Host, isIp: string -> bool,
                 ip: string, e: Host)
    requires |index| == NUM_SEARCH_TREES && TreeOk(index[ST_IP], hosts, root)
    requires IgnoresCase(isIp) && IndexAgrees(log, index, hosts, root, isIp) && isIp(ip)
    requires e in hosts && |e.key| == 1 && SameText(e.key[0], ip)
    ensures ST.Lookup(index[ST_IP], ip, true, root) == e <==>
              IpIsIndexed(log, isIp, ip) && ST.NoneAbove(index[ST_IP], e, ip)
  {
    ST.LookupStartsWith(index[ST_IP], ip, root);
    SameAddress(log, isIp, e.key[0], ip);
    if e in ST.Hosts(index[ST_IP]) {
      ST.LookupIsTop(index[ST_IP], ip, root, e);
    }
  }

  lemma AddedIpIsFound(log: seq<Added>, index: seq<ST.Tree>, hosts: set<Host>, root: Host, isIp: string -> bool, i: nat)
    requires |index| == NUM_SEARCH_TREES && TreeOk(index[ST_IP], hosts, root)
    requires IgnoresCase(isIp) && IndexAgrees(log, index, hosts, root, isIp) && i < |log| && isIp(log[i].name)
    ensures var name := log[i].name;
            ST.Lookup(index[ST_IP], name, true, root) == log[i].host <==>
              IpIsIndexed(log, isIp, name) && ST.NoneAbove(index[ST_IP], log[i].host, name)
  {
    assert NameIsStored(log[i], index, isIp);
    assert SameText(log[i].host.key[0], log[i].name);
    IpLookup(log, index, hosts, root, isIp, log[i].name, log[i].host);
  }

  /** Case plays no part in what is indexed. */
  lemma SameAddress(log: seq<Added>, isIp: string -> bool, a: string, b: string)
    requires SameText(a, b)
    ensures IpIsIndexed(log, isIp, a) <==> IpIsIndexed(log, isIp, b)
  {
    hide SameText, SameHost, Stored;
    SameTextFlips(a, b);
    assert SameHost([a], [b]) && SameHost([b], [a]) by { SameOnePart(a, b); SameOnePart(b, a); }
    forall x ensures EndsWith(x, isIp, a) <==> EndsWith(x, isIp, b) {
      var k := Stored(x, isIp);
      if EndsWith(x, isIp, a) { SameTextTransitive(k[|k| - 1], a, b); }
      if EndsWith(x, isIp, b) { SameTextTransitive(k[|k| - 1], b, a); }
    }
    forall j: nat | j < |log| ensures PutsInIndex(log, j, isIp, a) <==> PutsInIndex(log, j, isIp, b) {
      var k := Stored(log[j].name, isIp);
      if SameHost(k, [a]) { SameHostTransitive(k, [a], [b]); }
      if SameHost(k, [b]) { SameHostTransitive(k, [b], [a]); }
    }
  }

  lemma SameOnePart(a: string, b: string)
    requires SameText(a, b)
    ensures SameHost([a], [b])
  {
  }

  /** What the tree of IP addresses has for an address is its own node, or that of a
      domain name that starts with it. */
  lemma IpNodeIs(log: seq<Added>, index: seq<ST.Tree>, isIp: string -> bool, ip: string, h: Host)
    requires |index| == NUM_SEARCH_TREES && NamesAreStored(log, index, isIp) && IndexIsLogged(log, index, isIp)
    requires h in ST.Hosts(index[ST_IP]) && ST.StartsWith(h, ip)
    ensures SameHost(h.key, [ip]) || !NoneStartsWith(log, isIp, ip)
  {
    hide SameText, Stored;
    var i := NameOf(log, index, isIp, ST_IP, h);
    var k := Stored(log[i].name, isIp);
    assert SameText(h.key[0], k[0]);
    SameTextFlips(h.key[0], k[0]);
    SameTextTransitive(k[0], h.key[0], ip);
  }

  /** If no domain name starts with an address, no node above its own does. */
  lemma NoneIsAbove(log: seq<Added>, index: seq<ST.Tree>, hosts: set<Host>, root: Host, isIp: string -> bool,
                    ip: string, e: Host)
    requires |index| == NUM_SEARCH_TREES && TreeOk(index[ST_IP], hosts, root) && IsForest(hosts, root)
    requires NamesAreStored(log, index, isIp) && IndexIsLogged(log, index, isIp)
    requires NoneStartsWith(log, isIp, ip) && e in hosts && SameHost(e.key, [ip])
    ensures ST.NoneAbove(index[ST_IP], e, ip)
  {
    hide IsForest, NamesAreStored, IndexIsLogged, NoneStartsWith, ST.Above, ST.StartsWith;
    forall x | x in ST.Hosts(index[ST_IP]) && ST.Above(index[ST_IP], x, e) ensures !ST.StartsWith(x, ip) {
      ST.AboveIsIn(index[ST_IP], x, e);
      if ST.StartsWith(x, ip) {
        IpNodeIs(log, index, isIp, ip, x);
        SameHostTransitive(e.key, [ip], e.key);
        SameHostTransitive(x.key, [ip], e.key);
        SameNode(hosts, root, x, e);
        assert false;
      }
    }
  }

  /** The node of a domain name that starts with an address. */
  lemma StartingNode(log: seq<Added>, index: seq<ST.Tree>, isIp: string -> bool, ip: string) returns (e: Host)
    requires |index| == NUM_SEARCH_TREES && NamesAreStored(log, index, isIp) && IgnoresCase(isIp) && isIp(ip)
    requires !NoneStartsWith(log, isIp, ip)
    ensures e in ST.Hosts(index[ST_IP]) && ST.StartsWith(e, ip)
  {
    hide SameText;
    var i :| 0 <= i < |log| && |Stored(log[i].name, isIp)| > 1 && SameText(Stored(log[i].name, isIp)[0], ip);
    assert NameIsStored(log[i], index, isIp);
    e := log[i].host;
    SameTextTransitive(e.key[0], Stored(log[i].name, isIp)[0], ip);
  }

  /** The node of an address that a name put into the index. */
  lemma IndexedIpNode(log: seq<Added>, index: seq<ST.Tree>, hosts: set<Host>, root: Host, isIp: string -> bool, ip: string)
    returns (e: Host)
    requires |index| == NUM_SEARCH_TREES && IndexAgrees(log, index, hosts, root, isIp)
    requires IgnoresCase(isIp) && isIp(ip) && IpIsIndexed(log, isIp, ip)
    ensures e in ST.Hosts(index[ST_IP]) && SameHost(e.key, [ip])
  {
    hide IndexIsLogged, Stored, EndsWith, NoneEndsWith;
    var j :| 0 <= j < |log| && PutsInIndex(log, j, isIp, ip);
    assert NameIsStored(log[j], index, isIp);
    e := log[j].host;
    SameHostTransitive(e.key, Stored(log[j].name, isIp), [ip]);
    assert SameText(e.key[0], ip);
    SameAddress(log, isIp, e.key[0], ip);
    assert IsIpNode(e, isIp);
  }

  /** Looking up any IP address: a node is found just if a name put that of the address
      into the index, or some domain name starts with the address. If none does, it is the
      node of the address. */
  lemma AnyIpLookup(log: seq<Added>, index: seq<ST.Tree>, hosts: set<Host>, root: Host, isIp: string -> bool, ip: string)
    requires |index| == NUM_SEARCH_TREES && TreeOk(index[ST_IP], hosts, root)
    requires IgnoresCase(isIp) && IndexAgrees(log, index, hosts, root, isIp) && isIp(ip)
    ensures var h := ST.Lookup(index[ST_IP], ip, true, root);
            && (h != null <==> IpIsIndexed(log, isIp, ip) || !NoneStartsWith(log, isIp, ip))
            && (h != null ==> h in hosts && ST.StartsWith(h, ip))
            && (h != null && NoneStartsWith(log, isIp, ip) ==> SameHost(h.key, [ip]))
  {
    var h := ST.Lookup(index[ST_IP], ip, true, root);
    ST.LookupStartsWith(index[ST_IP], ip, root);
    hide IgnoresCase, NamesAreStored, IndexIsLogged, IpsAreIndexed, HostsAreLogged, IpIsIndexed, NoneStartsWith, ST.Lookup;
    if h != null && NoneStartsWith(log, isIp, ip) {
      IpNodeIs(log, index, isIp, ip, h);
      assert SameText(h.key[0], ip);
      IpLookup(log, index, hosts, root, isIp, ip, h);
    }
    if !NoneStartsWith(log, isIp, ip) {
      var e := StartingNode(log, index, isIp, ip);
    } else if IpIsIndexed(log, isIp, ip) {
      var e := IndexedIpNode(log, index, hosts, root, isIp, ip);
      assert SameText(e.key[0], ip);
      assert ST.StartsWith(e, ip);
    }
  }
}
