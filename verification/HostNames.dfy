/** The names of hosts: how they are cut into parts, and the index tree that each is
    looked up in (content/urldb.c). */
module HostNames {
  import opened Ascii
  import opened HostOrder
  import opened HostPart

  const NUM_SEARCH_TREES := 28
  const ST_IP := 0
  const ST_EE := 1
  const ST_DN := 2
  /** Size of the buffer that a host name is copied to. */
  const HOST_BUFFER := 256

  /** urldb_get_search_tree_direct: a tree for IP addresses, one for each
      letter, one for everything else. */
  function TreeIndex(b: string, isIp: bool): (i: nat)
    ensures i < NUM_SEARCH_TREES
  {
    if isIp then ST_IP
    else if b != "" && IsAlpha(b[0]) then ST_DN + (ToLower(b[0]) as int - 'a' as int)
    else ST_EE
  }

  /** Two names share a tree just if they start with the same letter, but for case, or both
      with none. No domain name is in the tree of IP addresses. */
  lemma SameTreeIff(a: string, b: string)
    ensures TreeIndex(a, false) != TreeIndex(b, true)
    ensures TreeIndex(a, false) == TreeIndex(b, false) <==>
              if a != "" && IsAlpha(a[0]) then b != "" && IsAlpha(b[0]) && SameLetter(a[0], b[0])
              else b == "" || !IsAlpha(b[0])
  {
  }

  /** Index of the last dot, or -1 (strrchr). */
  function LastDot(b: string): (d: int)
    ensures -1 <= d < |b|
    ensures d >= 0 ==> b[d] == '.'
    ensures forall i :: d < i < |b| ==> b[i] != '.'
  {
    if b == "" then -1
    else if b[|b| - 1] == '.' then |b| - 1
    else LastDot(b[..|b| - 1])
  }

  lemma {:induction false} FirstDotIs(b: string, n: nat)
    requires n <= |b| && (n < |b| ==> b[n] == '.') && forall i :: 0 <= i < n ==> b[i] != '.'
    ensures FirstDot(b) == n
    decreases n
  {
    if n > 0 {
      FirstDotIs(b[1..], n - 1);
    }
  }

  lemma {:induction false} NoDotBefore(b: string)
    ensures forall i :: 0 <= i < FirstDot(b) ==> b[i] != '.'
  {
    if b != "" && b[0] != '.' {
      NoDotBefore(b[1..]);
    }
  }

  lemma NoDotIsOneSegment(b: string)
    requires forall i :: 0 <= i < |b| ==> b[i] != '.'
    ensures Split(b) == [b]
  {
    FirstDotIs(b, |b|);
  }

  lemma DotOfConcat(a: string, b: string)
    ensures FirstDot(a + ['.'] + b) == FirstDot(a)
  {
    var n, s := FirstDot(a), a + ['.'] + b;
    NoDotBefore(a);
    assert s[n] == '.' && forall i :: 0 <= i < n ==> s[i] == a[i];
    FirstDotIs(s, n);
  }

  lemma CutText(a: string, b: string, n: nat)
    requires n <= |a|
    ensures var s := a + ['.'] + b;
            s[..n] == a[..n] && s[n + 1..] == if n == |a| then b else a[n + 1..] + ['.'] + b
  {
    var s := a + ['.'] + b;
    if n == |a| {
      assert s[n + 1..] == b;
    } else {
      assert s[n + 1..] == a[n + 1..] + ['.'] + b;
    }
  }

  lemma {:induction false} SplitConcat(a: string, b: string)
    ensures Split(a + ['.'] + b) == Split(a) + Split(b)
    decreases |a|
  {
    hide FirstDot;
    var n := FirstDot(a);
    DotOfConcat(a, b);
    CutText(a, b, n);
    if n < |a| {
      SplitConcat(a[n + 1..], b);
      Concat3([a[..n]], Split(a[n + 1..]), Split(b));
    } else {
      assert a[..n] == a;
    }
  }

  lemma Concat3<T>(a: seq<T>, b: seq<T>, c: seq<T>)
    ensures a + (b + c) == a + b + c
  {
  }

  /** Cutting off the last segment. */
  lemma SplitAtLastDot(b: string)
    requires LastDot(b) >= 0
    ensures Split(b) == Split(b[..LastDot(b)]) + [b[LastDot(b) + 1..]]
  {
    var d := LastDot(b);
    NoDotIsOneSegment(b[d + 1..]);
    SplitConcat(b[..d], b[d + 1..]);
    assert b == b[..d] + ['.'] + b[d + 1..];
  }

  // ---------------------------------------------------------------------
  // Names
  // ---------------------------------------------------------------------

  /** strncpy into the buffer: a longer name loses its end. */
  function Truncate(name: string): string {
    if |name| < HOST_BUFFER then name else name[..HOST_BUFFER - 1]
  }

  /** The path of the node that is made for a name. */
  function Stored(name: string, isIp: string -> bool): (k: Key)
    ensures k != []
  {
    if isIp(name) then [name] else Split(Truncate(name))
  }

  /** A domain name whose node is put where the name is looked for: it fits the buffer
      and does not start with an IP address. */
  predicate IsFound(name: string, isIp: string -> bool) {
    |name| < HOST_BUFFER && !isIp(Split(name)[0])
  }

  /** Being an IP address does not depend on case. */
  ghost predicate IgnoresCase(isIp: string -> bool) {
    forall a, b :: SameText(a, b) ==> isIp(a) == isIp(b)
  }

  lemma FirstSegment(b: string)
    ensures Split(b)[0] == b[..FirstDot(b)]
    ensures TreeIndex(Split(b)[0], false) == TreeIndex(b, false)
  {
    assert FirstDot(b) == |b| ==> b[..FirstDot(b)] == b;
  }

  predicate IsSuffix(a: Key, b: Key) { |a| <= |b| && b[|b| - |a|..] == a }

  /** The index tree that a domain name is put into: that of its first segment. */
  function LeafTree(name: string, isIp: string -> bool): (i: nat)
    ensures i < NUM_SEARCH_TREES
  {
    var leaf := Split(Truncate(name))[0];
    TreeIndex(leaf, isIp(leaf))
  }

  /** The index tree that the node for a name belongs in. */
  function TreeOf(name: string, isIp: string -> bool): (i: nat)
    ensures i < NUM_SEARCH_TREES
  {
    if isIp(name) then ST_IP else LeafTree(name, isIp)
  }

  lemma SameHostTransitive(a: Key, b: Key, c: Key)
    requires SameHost(a, b) && SameHost(b, c)
    ensures SameHost(a, c) && SameHost(b, a)
  {
  }

  lemma SameTextTransitive(a: string, b: string, c: string)
    requires SameText(a, b) && SameText(b, c)
    ensures SameText(a, c) && SameText(b, a)
  {
  }

  lemma SameTextFlips(a: string, b: string)
    requires SameText(a, b)
    ensures SameText(b, a)
  {
  }

  lemma SameHostFlips(a: Key, b: Key)
    requires SameHost(a, b)
    ensures SameHost(b, a)
  {
  }

  /** The length of the text that the parts were cut from, and 1. */
  function TextLength(k: Key): nat {
    if k == [] then 0 else |k[0]| + 1 + TextLength(k[1..])
  }

  lemma {:induction false} SplitLength(b: string)
    ensures TextLength(Split(b)) == |b| + 1
    decreases |b|
  {
    var n := FirstDot(b);
    if n < |b| {
      SplitLength(b[n + 1..]);
      assert Split(b)[1..] == Split(b[n + 1..]);
    }
  }

  lemma {:induction false} SameHostLength(a: Key, b: Key)
    requires SameHost(a, b)
    ensures TextLength(a) == TextLength(b)
  {
    if a != [] {
      assert SameText(a[0], b[0]);
      forall i | 0 <= i < |a[1..]| ensures SameText(a[1..][i], b[1..][i]) {
        assert SameText(a[i + 1], b[i + 1]);
      }
      SameHostLength(a[1..], b[1..]);
    }
  }

  /** A domain name has a node where it is looked for just if it is stored in full, in
      the tree that its first segment selects. */
  lemma IsFoundIff(name: string, isIp: string -> bool)
    requires !isIp(name)
    ensures IsFound(name, isIp) <==>
              SameHost(Stored(name, isIp), Split(name)) && LeafTree(name, isIp) == TreeIndex(name, false)
  {
    FirstSegment(name);
    if |name| >= HOST_BUFFER && SameHost(Stored(name, isIp), Split(name)) {
      SameHostLength(Split(Truncate(name)), Split(name));
      SplitLength(name);
      SplitLength(Truncate(name));
      assert false;
    }
  }

  /** Only a name of the same length, with the same first segment but for case, is
      stored where a name is looked for. */
  lemma StoredElsewhere(x: string, name: string, isIp: string -> bool)
    requires IgnoresCase(isIp) && !isIp(name) && TreeOf(x, isIp) == TreeIndex(name, false)
    requires SameHost(Stored(x, isIp), Split(name))
    ensures !isIp(x) && IsFound(name, isIp)
  {
    assert TreeOf(x, isIp) != ST_IP && !isIp(x);
    assert SameText(Split(Truncate(x))[0], Split(name)[0]);
    SameHostLength(Split(Truncate(x)), Split(name));
    SplitLength(Truncate(x));
    SplitLength(name);
  }
}
