/** What HSTS is for: a policy that was stored holds for its host, and for the hosts below
    it if it says so, until it expires or is removed (content/urldb.c). */
module HstsRuns {
  import opened HostOrder
  import opened HostPart
  import opened HostNames
  import opened HostDatabase

  /** A name that a policy can be stored for. */
  predicate CanHold(name: string, isIp: string -> bool) {
    !isIp(name) && name != "" && IsFound(name, isIp)
  }

  /** The node of the name, if there is one, may store a policy. */
  ghost predicate IsUntainted(db: Database, name: string)
    reads db, db.hosts
  {
    forall x <- db.hosts :: SameHost(x.key, Split(name)) ==> !x.permitInvalidCerts
  }

  /** `sub` is the host `name` with `i` parts in front. */
  predicate IsBelow(sub: string, i: nat, name: string) {
    i < |Split(sub)| && SameHost(Split(sub)[i..], Split(name))
  }

  /** After a header with a maximum age, the host is known until that is over, and so are
      the hosts below it, if the header includes them. */
  method StoreAndAsk(db: Database, name: string, policy: HstsHeader, now: int, sub: string, i: nat, later: int)
    returns (enabled: bool)
    requires db.Valid() && now >= 0 && later >= 0 && policy.Parsed? && policy.maxAge > 0
    requires CanHold(name, db.isIp) && IsUntainted(db, name)
    requires CanHold(sub, db.isIp) && IsBelow(sub, i, name) && (i > 0 ==> policy.includeSubDomains)
    modifies db, db.nodes, db.hosts
    ensures later < now + policy.maxAge ==> enabled
  {
    hide Database.Valid, Split, SameHost, IsFound;
    var ok;
    ghost var h;
    ok, h := db.SetHstsPolicy(name, policy, now);
    ghost var k := Split(sub);
    if later < now + policy.maxAge {
      HoldsFor(db, h, Split(name), k, i, later);
    }
    enabled := db.GetHstsEnabled(sub, later);
  }

  lemma HoldsFor(db: Database, h: Host, name: Key, k: Key, i: nat, later: int)
    requires h in db.hosts && SameHost(h.key, name) && i < |k| && SameHost(k[i..], name)
    requires h.expires > later && (i == 0 || h.includeSubDomains)
    ensures db.KnownHstsHost(k, later)
  {
    SameHostFlips(k[i..], name);
    SameHostTransitive(h.key, name, k[i..]);
    assert db.PolicyFor(k[i..], later, i == 0);
    assert k[0..] == k;
  }

  /** After a header with a maximum age of 0, the host is known just if a superdomain
      still covers it. */
  method ForgetAndAsk(db: Database, name: string, includeSubDomains: bool, now: int, later: int) returns (enabled: bool)
    requires db.Valid() && now >= 0 && later >= 0 && CanHold(name, db.isIp) && IsUntainted(db, name)
    modifies db, db.nodes, db.hosts
    ensures enabled <==> exists i :: 0 < i < |Split(name)| && old(db.PolicyFor(Split(name)[i..], later, false))
  {
    hide Database.Valid, Split, SameHost, IsFound;
    var ok;
    ghost var h;
    ok, h := db.SetHstsPolicy(name, Parsed(0, includeSubDomains), now);
    ghost var k := Split(name);
    forall i | 0 < i < |k| ensures db.PolicyFor(k[i..], later, false) == old(db.PolicyFor(k[i..], later, false)) {
      NotBelowItself(h.key, k, i);
    }
    HoldsNothing(db, h, k, later);
    enabled := db.GetHstsEnabled(name, later);
  }

  lemma NotBelowItself(a: Key, k: Key, i: nat)
    requires SameHost(a, k) && 0 < i < |k|
    ensures !SameHost(a, k[i..])
  {
  }

  /** Only the node of a host can hold its policy. */
  lemma HoldsNothing(db: Database, h: Host, k: Key, later: int)
    requires db.Valid() && h in db.hosts && SameHost(h.key, k) && h.expires <= later
    ensures !db.PolicyFor(k, later, true)
  {
    db.ValidParts();
    db.OnlyPolicy(h, later, true);
    db.SamePolicyFor(h.key, k, later, true);
  }
}
