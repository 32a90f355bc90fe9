/** Host tree nodes and the comparators that climb from them to the root
    (content/urldb.c). */
module HostPart {
  import opened HostOrder

  /** struct host_part. A node's part and parent never change. `key` is the
      path from the node up to the database root, which is left out. */
  class Host {
    const part: string
    const parent: Host?
    ghost const key: Key
    /** The sibling list that starts at the first child. */
    var children: seq<Host>
    /** HSTS policy: expiry time and reach. */
    var expires: int
    var includeSubDomains: bool
    var permitInvalidCerts: bool

    constructor (part: string, parent: Host?)
      ensures this.part == part && this.parent == parent
      ensures key == if parent == null then [] else [part] + parent.key
      ensures children == []
      ensures expires == 0 && !includeSubDomains && !permitInvalidCerts
    {
      this.part, this.parent := part, parent;
      this.key := if parent == null then [] else [part] + parent.key;
      children := [];
      expires, includeSubDomains, permitInvalidCerts := 0, false, false;
    }
  }

  /** Following parents from `h` leads to `root`, along the parts of `h.key`. */
  ghost predicate Rooted(h: Host, root: Host)
    decreases |h.key|
  {
    if h == root then h.key == [] && h.parent == null
    else h.parent != null && h.key == [h.part] + h.parent.key && Rooted(h.parent, root)
  }

  /** The comparison of a host with a string. */
  function CompareString(a: Key, b: string, isIp: bool): int
    requires a != []
  {
    if isIp then CompareText(a[0], b) else Compare(a, Split(b))
  }

  function CompareStringPrefix(a: Key, b: string, isIp: bool): int
    requires a != []
  {
    if isIp then ComparePrefix(a[0], b, |b|) else CompareWithPrefix(a, Split(b))
  }

  /** The host starts with the prefix: with the parts of a domain name, of which the last need
      not be complete, or with the text of an address. */
  predicate Begins(a: Key, b: string, isIp: bool)
    requires a != []
  {
    if isIp then |b| <= |a[0]| && SameText(a[0][..|b|], b) else HasPrefix(a, Split(b))
  }

  lemma BeginsIff(a: Key, b: string, isIp: bool)
    requires a != []
    ensures CompareStringPrefix(a, b, isIp) == 0 <==> Begins(a, b, isIp)
  {
    if isIp { ComparePrefixZero(a[0], b); } else { CompareWithPrefixZero(a, Split(b)); }
  }

  predicate SameSign(c: int, d: int) { (c < 0 <==> d < 0) && (c == 0 <==> d == 0) }

  /** urldb_search_match_host */
  method MatchHost(a: Host, b: Host, root: Host) returns (c: int)
    requires Rooted(a, root) && Rooted(b, root)
    ensures c == Compare(a.key, b.key)
  {
    var x: Host?, y: Host? := a, b;
    while x != null && x != root && y != null && y != root
      invariant x != null && y != null && Rooted(x, root) && Rooted(y, root)
      invariant Compare(x.key, y.key) == Compare(a.key, b.key)
      decreases |x.key|
    {
      c := CompareText(x.part, y.part);
      if c != 0 { return; }
      x, y := x.parent, y.parent;
    }
    if x != null && x != root && (y == null || y == root) {
      c := 1;
    } else if (x == null || x == root) && y != null && y != root {
      c := -1;
    } else {
      c := 0;
    }
  }

  /** The segments of `b` from position `i`; none past the end. */
  function SplitFrom(b: string, i: nat): Key
    requires i <= |b| + 1
  {
    if i <= |b| then Split(b[i..]) else []
  }

  lemma SplitStep(b: string, i: nat)
    requires i <= |b|
    ensures var n := FirstDot(b[i..]);
            SplitFrom(b, i) == [b[i..][..n]] + SplitFrom(b, i + n + 1)
  {
    var n := FirstDot(b[i..]);
    if i + n < |b| {
      assert b[i..][n + 1..] == b[i + n + 1..];
    } else {
      assert b[i..][..n] == b[i..];
    }
  }

  /** A step from a host to its parent. */
  lemma Climb(h: Host, root: Host)
    requires Rooted(h, root) && h != root
    ensures h.parent != null && Rooted(h.parent, root)
    ensures h.key == [h.part] + h.parent.key && h.key[1..] == h.parent.key
  {
  }

  /** One turn of the comparison of a host with a string: `goal` is its result. */
  lemma StringStep(x: Key, b: string, i: nat, n: nat, goal: int)
    requires x != [] && i <= |b| && n == FirstDot(b[i..]) && Compare(x, SplitFrom(b, i)) == goal
    ensures var c := ComparePrefix(x[0], b[i..], n);
            if c != 0 then SameSign(c, goal)
            else if |x[0]| > n then goal > 0
            else |x[0]| == n && Compare(x[1..], SplitFrom(b, i + n + 1)) == goal
  {
    SplitStep(b, i);
    LimitedCompare(x[0], b[i..], n);
  }

  /** One turn of the comparison of a host with a prefix: `goal` is its result. */
  lemma PrefixStep(x: Key, b: string, i: nat, n: nat, goal: int)
    requires x != [] && i <= |b| && n == FirstDot(b[i..]) && CompareWithPrefix(x, SplitFrom(b, i)) == goal
    ensures var c := ComparePrefix(x[0], b[i..], n);
            if c != 0 then SameSign(c, goal)
            else if i + n == |b| then goal == 0
            else if |x[0]| > n then goal > 0
            else |x[0]| == n && CompareWithPrefix(x[1..], SplitFrom(b, i + n + 1)) == goal
  {
    SplitStep(b, i);
    LimitedCompare(x[0], b[i..], n);
  }

  /** Where a comparison ends: at the root, or at the end of the string. */
  lemma StringEnd(x: Key, b: string, i: nat)
    requires i <= |b| + 1 && (x == [] || i > |b|)
    ensures Compare(x, SplitFrom(b, i)) == if x != [] then 1 else if i <= |b| then -1 else 0
    ensures i <= |b| ==> CompareWithPrefix(x, SplitFrom(b, i)) < 0
  {
  }

  /** urldb_search_match_string */
  method MatchString(a: Host, b: string, isIp: bool, root: Host) returns (c: int)
    requires Rooted(a, root) && a != root
    ensures SameSign(c, CompareString(a.key, b, isIp))
  {
    if isIp {
      return CompareText(a.part, b);
    }
    c := MatchSegments(a, b, root, Compare(a.key, Split(b)));
  }

  /** The loop of the comparison with a string. */
  method MatchSegments(a: Host, b: string, root: Host, ghost goal: int) returns (c: int)
    requires Rooted(a, root) && a != root && goal == Compare(a.key, Split(b))
    ensures SameSign(c, goal)
  {
    hide FirstDot, ComparePrefix, Compare, CompareWithPrefix;
    var x: Host?, i: nat := a, 0;
    assert b[0..] == b;
    while i <= |b| && x != null && x != root
      invariant i <= |b| + 1 && x != null && Rooted(x, root)
      invariant Compare(x.key, SplitFrom(b, i)) == goal
      decreases |x.key|
    {
      var n := FirstDot(b[i..]);
      Climb(x, root);
      StringStep(x.key, b, i, n, goal);
      c := ComparePrefix(x.part, b[i..], n);
      if c != 0 { return; }
      if |x.part| > n { return 1; }
      if |x.part| < n { return -1; }
      x, i := x.parent, i + n + 1;
    }
    StringEnd(x.key, b, i);
    if x != null && x != root && i > |b| {
      c := 1;
    } else if (x == null || x == root) && i <= |b| {
      c := -1;
    } else {
      c := 0;
    }
  }

  /** urldb_search_match_prefix */
  method MatchPrefix(a: Host, b: string, isIp: bool, root: Host) returns (c: int)
    requires Rooted(a, root) && a != root
    ensures SameSign(c, CompareStringPrefix(a.key, b, isIp))
  {
    if isIp {
      return ComparePrefix(a.part, b, |b|);
    }
    c := MatchPrefixSegments(a, b, root, CompareWithPrefix(a.key, Split(b)));
  }

  /** The loop of the comparison with a prefix. */
  method MatchPrefixSegments(a: Host, b: string, root: Host, ghost goal: int) returns (c: int)
    requires Rooted(a, root) && a != root && goal == CompareWithPrefix(a.key, Split(b))
    ensures SameSign(c, goal)
  {
    hide FirstDot, ComparePrefix, Compare, CompareWithPrefix;
    var x: Host?, i: nat := a, 0;
    assert b[0..] == b;
    while i <= |b| && x != null && x != root
      invariant i <= |b| + 1 && x != null && Rooted(x, root)
      invariant if i <= |b| then CompareWithPrefix(x.key, SplitFrom(b, i)) == goal else goal == 0
      decreases |x.key|
    {
      var n := FirstDot(b[i..]);
      Climb(x, root);
      PrefixStep(x.key, b, i, n, goal);
      c := ComparePrefix(x.part, b[i..], n);
      if c != 0 { return; }
      if i + n < |b| {
        if |x.part| > n { return 1; }
        if |x.part| < n { return -1; }
      }
      x, i := x.parent, i + n + 1;
    }
    if i <= |b| { StringEnd(x.key, b, i); }
    if x != null && x != root && i > |b| {
      c := 0;
    } else if (x == null || x == root) && i <= |b| {
      c := -1;
    } else {
      c := 0;
    }
  }
}
