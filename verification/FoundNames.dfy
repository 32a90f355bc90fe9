/** Which names can be looked up once they were added, and which names keep others
    from being found (content/urldb.c). */
module FoundNames {
  import opened HostOrder
  import opened HostPart
  import opened HostNames
  import opened HostIndex
  import opened HostDatabase
  import ST = SearchTree

  /** Adding a name to a database, and looking it up. A domain name is found just if it
      fits the buffer and does not start with an IP address. An IP address that no domain
      name starts with is found just if it was in the index before, or no name that was
      added ends with it. */
  method AddAndFind(db: Database, name: string) returns (d: Host, h: Host?)
    requires db.Valid()
    modifies db, db.nodes, db.hosts
    ensures !db.isIp(name) ==> (h == d <==> IsFound(name, db.isIp))
    ensures db.isIp(name) && NoneStartsWith(old(db.log), db.isIp, name) ==>
              (h == d <==> IpIsIndexed(old(db.log), db.isIp, name) || NoneEndsWith(old(db.log), db.isIp, name))
  {
    hide *;
    ghost var log := db.log;
    d := db.AddHost(name);
    h := db.FindHost(name);
    db.ValidParts();
    FoundLast(db, log, name, d, h);
  }

  lemma FoundLast(db: Database, log: seq<Added>, name: string, d: Host, h: Host?)
    requires db.Valid() && db.log == log + [Added(name, d)] && d in db.hosts && SameHost(d.key, Stored(name, db.isIp))
    requires |db.index| == NUM_SEARCH_TREES && db.IsAnswer(name, h)
    requires forall i: nat :: i < |db.log| && db.log[i].name == name ==> db.IsFoundAs(i, h)
    ensures !db.isIp(name) ==> (h == d <==> IsFound(name, db.isIp))
    ensures db.isIp(name) && NoneStartsWith(log, db.isIp, name) ==>
              (h == d <==> IpIsIndexed(log, db.isIp, name) || NoneEndsWith(log, db.isIp, name))
  {
    hide Database.Valid, IsFound, NoneStartsWith, NoneEndsWith, IpIsIndexed;
    assert db.log[|log|] == Added(name, d) && db.IsFoundAs(|log|, h);
    if db.isIp(name) && NoneStartsWith(log, db.isIp, name) {
      OneMoreName(log, Added(name, d), db.isIp, name);
      NoneMoreStarts(log, Added(name, d), db.isIp, name);
      Spelled(db, name, d, h);
    }
  }

  lemma NoneMoreStarts(log: seq<Added>, a: Added, isIp: string -> bool, ip: string)
    requires NoneStartsWith(log, isIp, ip)
    requires |Stored(a.name, isIp)| == 1 || !SameText(Stored(a.name, isIp)[0], ip)
    ensures NoneStartsWith(log + [a], isIp, ip)
  {
    forall i | 0 <= i < |log + [a]|
      ensures |Stored((log + [a])[i].name, isIp)| == 1 || !SameText(Stored((log + [a])[i].name, isIp)[0], ip)
    {
      if i < |log| { assert (log + [a])[i] == log[i]; }
    }
  }

  /** What is found for an IP address is its node. */
  lemma Spelled(db: Database, ip: string, d: Host, h: Host?)
    requires db.Valid() && d in db.hosts && SameHost(d.key, [ip])
    requires h != null ==> h in db.hosts && SameHost(h.key, [ip])
    ensures h != null ==> h == d
  {
    db.ValidParts();
    if h != null {
      SameHostTransitive(d.key, [ip], [ip]);
      SameHostTransitive(h.key, [ip], d.key);
      SameNode(db.hosts, db.root, h, d);
    }
  }

  /** Adding a domain name, and then an IP address that is new. The address can be found
      just if the name does not end with it, or nothing but the address is stored of the
      name. */
  method AddBothAndFind(db: Database, name: string, ip: string) returns (e: Host, h: Host?)
    requires db.Valid() && !db.isIp(name) && db.isIp(ip)
    requires NoneEndsWith(db.log, db.isIp, ip) && NoneStartsWith(db.log, db.isIp, ip)
    requires |Stored(name, db.isIp)| == 1 || !SameText(Stored(name, db.isIp)[0], ip)
    modifies db, db.nodes, db.hosts
    ensures h == e <==> !EndsWith(name, db.isIp, ip) || |Stored(name, db.isIp)| == 1
  {
    hide Database.Valid, Stored;
    ghost var log := db.log;
    var d := db.AddHost(name);
    NoneMoreStarts(log, Added(name, d), db.isIp, ip);
    IndexedByLast(log, Added(name, d), db.isIp, ip);
    e, h := AddAndFind(db, ip);
  }

  /** Whether an address is in the index after a name was added before which no name
      ended with it. */
  lemma IndexedByLast(log: seq<Added>, a: Added, isIp: string -> bool, ip: string)
    requires NoneEndsWith(log, isIp, ip) && !isIp(a.name)
    ensures IpIsIndexed(log + [a], isIp, ip) || NoneEndsWith(log + [a], isIp, ip)
       <==> !EndsWith(a.name, isIp, ip) || |Stored(a.name, isIp)| == 1
  {
    OneMoreName(log, a, isIp, ip);
    var log' := log + [a];
    assert log'[|log|] == a && forall i :: 0 <= i < |log| ==> log'[i] == log[i];
    assert forall j: nat :: j < |log| ==> !EndsWith(log[j].name, isIp, ip) && !PutsInIndex(log, j, isIp, ip);
    assert NoneEndsWith(log', isIp, ip) <==> !EndsWith(a.name, isIp, ip);
  }

  /** If two domain names that start with an IP address are added after it, the address
      can no longer be found. */
  method ThreeNames(isIp: string -> bool, ip: string, x: string, y: string) returns (e: Host, h: Host?)
    requires IgnoresCase(isIp) && isIp(ip) && IsBelowIp(x, isIp, ip) && IsBelowIp(y, isIp, ip)
    requires !SameHost(Stored(x, isIp), Stored(y, isIp))
    ensures h != e
  {
    hide *;
    var db := new Database(isIp);
    var dx, dy;
    e, dx, dy := AddThree(db, ip, x, y);
    h := db.FindHost(ip);
    db.ValidParts();
    LostBelow(db, ip, x, y, e, dx, dy, h);
  }

  method AddThree(db: Database, a: string, b: string, c: string) returns (d: Host, e: Host, f: Host)
    requires db.Valid() && db.log == []
    modifies db, db.nodes, db.hosts
    ensures db.Valid() && db.log == [Added(a, d), Added(b, e), Added(c, f)]
  {
    hide Database.Valid;
    d := db.AddHost(a);
    e := db.AddHost(b);
    f := db.AddHost(c);
  }

  lemma LostBelow(db: Database, ip: string, x: string, y: string, e: Host, dx: Host, dy: Host, h: Host?)
    requires db.Valid() && db.isIp(ip) && IsBelowIp(x, db.isIp, ip) && IsBelowIp(y, db.isIp, ip)
    requires !SameHost(Stored(x, db.isIp), Stored(y, db.isIp))
    requires db.log == [Added(ip, e), Added(x, dx), Added(y, dy)]
    requires |db.index| == NUM_SEARCH_TREES && forall i: nat :: i < |db.log| && db.log[i].name == ip ==> db.IsFoundAs(i, h)
    ensures h != e
  {
    assert db.log[0] == Added(ip, e) && db.IsFoundAs(0, h);
    AnotherIsAbove(db, ip, x, y, e, dx, dy);
  }

  /** A domain name whose first part is the IP address. */
  predicate IsBelowIp(name: string, isIp: string -> bool, ip: string) {
    !isIp(name) && |Stored(name, isIp)| > 1 && SameText(Stored(name, isIp)[0], ip)
  }

  lemma AnotherIsAbove(db: Database, ip: string, x: string, y: string, e: Host, dx: Host, dy: Host)
    requires db.Valid() && db.isIp(ip) && IsBelowIp(x, db.isIp, ip) && IsBelowIp(y, db.isIp, ip)
    requires !SameHost(Stored(x, db.isIp), Stored(y, db.isIp))
    requires db.log == [Added(ip, e), Added(x, dx), Added(y, dy)]
    ensures |db.index| == NUM_SEARCH_TREES
    ensures IpIsIndexed(db.log, db.isIp, ip) ==> !ST.NoneAbove(db.index[ST_IP], e, ip)
  {
    db.ValidParts();
    if IpIsIndexed(db.log, db.isIp, ip) {
      hide IpIsIndexed, SameHost, Stored, IsBelowIp;
      ThreeNodes(db.log, db.index, db.hosts, db.root, db.isIp, ip, x, y, e, dx, dy);
      TopIsAbove(db.index, db.hosts, db.root, ip, e, dx, dy);
    }
  }

  lemma TopIsAbove(index: seq<ST.Tree>, hosts: set<Host>, root: Host, ip: string, e: Host, dx: Host, dy: Host)
    requires |index| == NUM_SEARCH_TREES && IndexOk(index, hosts, root)
    requires var s := ST.Hosts(index[ST_IP]); e in s && dx in s && dy in s && forall z <- s :: z in {e, dx, dy}
    requires dx != dy && Compare(e.key, dx.key) < 0 && Compare(e.key, dy.key) < 0
    requires ST.StartsWith(dx, ip) && ST.StartsWith(dy, ip)
    ensures !ST.NoneAbove(index[ST_IP], e, ip)
  {
    var t := index[ST_IP];
    assert TreeOk(t, hosts, root);
    NotOnTop(t, e, dx, dy);
    hide ST.StartsWith;
    assert t.host in ST.Hosts(t) && ST.Above(t, t.host, e);
  }

  /** The tree of IP addresses has just the three nodes. */
  lemma ThreeNodes(log: seq<Added>, index: seq<ST.Tree>, hosts: set<Host>, root: Host, isIp: string -> bool,
                   ip: string, x: string, y: string, e: Host, dx: Host, dy: Host)
    requires |index| == NUM_SEARCH_TREES && IndexAgrees(log, index, hosts, root, isIp) && IgnoresCase(isIp)
    requires isIp(ip) && IsBelowIp(x, isIp, ip) && IsBelowIp(y, isIp, ip)
    requires !SameHost(Stored(x, isIp), Stored(y, isIp))
    requires log == [Added(ip, e), Added(x, dx), Added(y, dy)] && IpIsIndexed(log, isIp, ip)
    ensures var s := ST.Hosts(index[ST_IP]);
            && e in s && dx in s && dy in s && (forall z <- s :: z in {e, dx, dy})
            && dx != dy && Compare(e.key, dx.key) < 0 && Compare(e.key, dy.key) < 0
            && ST.StartsWith(dx, ip) && ST.StartsWith(dy, ip)
  {
    assert NameIsStored(log[0], index, isIp) && NameIsStored(log[1], index, isIp) && NameIsStored(log[2], index, isIp);
    assert log[0].host in hosts && Stored(ip, isIp) == [ip];
    InIpTree(x, isIp, ip);
    InIpTree(y, isIp, ip);
    OnlyThree(log, index, isIp);
    assert e in ST.Hosts(index[ST_IP]) by { IpIsThere(log, index, hosts, isIp, ip, e); }
    hide NamesAreStored, IndexIsLogged, IpsAreIndexed, HostsAreLogged, IgnoresCase, IpIsIndexed, Stored, LeafTree, IsBelowIp, SameHost, ST.Hosts;
    LaterInOrder(e, dx, ip, Stored(x, isIp));
    LaterInOrder(e, dy, ip, Stored(y, isIp));
    if dx == dy {
      SameHostFlips(dx.key, Stored(x, isIp));
      SameHostTransitive(Stored(x, isIp), dx.key, Stored(y, isIp));
      assert false;
    }
  }

  lemma OnlyThree(log: seq<Added>, index: seq<ST.Tree>, isIp: string -> bool)
    requires |index| == NUM_SEARCH_TREES && NamesAreStored(log, index, isIp) && IndexIsLogged(log, index, isIp) && |log| == 3
    ensures forall z <- ST.Hosts(index[ST_IP]) :: z in {log[0].host, log[1].host, log[2].host}
  {
    hide NamesAreStored, IndexIsLogged;
    forall z | z in ST.Hosts(index[ST_IP]) ensures z in {log[0].host, log[1].host, log[2].host} {
      var i := NameOf(log, index, isIp, ST_IP, z);
    }
  }

  lemma InIpTree(x: string, isIp: string -> bool, ip: string)
    requires IgnoresCase(isIp) && isIp(ip) && IsBelowIp(x, isIp, ip)
    ensures !isIp(x) && LeafTree(x, isIp) == ST_IP && |Stored(x, isIp)| > 1 && SameText(Stored(x, isIp)[0], ip)
  {
  }

  lemma IpIsThere(log: seq<Added>, index: seq<ST.Tree>, hosts: set<Host>, isIp: string -> bool, ip: string, e: Host)
    requires |index| == NUM_SEARCH_TREES && IpsAreIndexed(log, index, hosts, isIp)
    requires IgnoresCase(isIp) && isIp(ip) && e in hosts && SameHost(e.key, [ip]) && IpIsIndexed(log, isIp, ip)
    ensures e in ST.Hosts(index[ST_IP])
  {
    assert SameText(e.key[0], ip);
    SameAddress(log, isIp, e.key[0], ip);
    assert IsIpNode(e, isIp);
  }

  lemma LaterInOrder(e: Host, d: Host, ip: string, k: Key)
    requires SameHost(e.key, [ip]) && SameHost(d.key, k) && |k| > 1 && SameText(k[0], ip)
    ensures Compare(e.key, d.key) < 0 && ST.StartsWith(d, ip)
  {
    assert SameText(e.key[0], ip) && SameText(d.key[0], k[0]);
    CompareTextZero(e.key[0], d.key[0]);
    assert e.key[1..] == [];
  }

  lemma OneOnTheRight(t: ST.Tree)
    requires ST.Balanced(t) && t.Node? && t.left.Leaf?
    ensures ST.Hosts(t) == [t.host] + ST.Hosts(t.right) && |ST.Hosts(t.right)| <= 1
  {
    if t.right.Node? {
      assert ST.Balanced(t.right.left) && ST.Balanced(t.right.right);
      assert t.right.left.Leaf? && t.right.right.Leaf?;
    }
  }

  /** The smallest of three nodes is not at the top. */
  lemma NotOnTop(t: ST.Tree, e: Host, dx: Host, dy: Host)
    requires ST.Balanced(t) && ST.Sorted(ST.Hosts(t))
    requires var s := ST.Hosts(t); e in s && dx in s && dy in s && forall z <- s :: z in {e, dx, dy}
    requires dx != dy && Compare(e.key, dx.key) < 0 && Compare(e.key, dy.key) < 0
    ensures t.Node? && t.host != e
  {
    if t.host == e {
      ST.SortedParts(t);
      if t.left.Node? {
        assert t.left.host in ST.Hosts(t.left) && t.left.host in ST.Hosts(t);
        CompareFlips(t.left.host.key, e.key);
        CompareZero(e.key, e.key);
      } else {
        OneOnTheRight(t);
        CompareZero(e.key, e.key);
      }
      assert false;
    }
  }
}
