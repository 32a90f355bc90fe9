/** The order of host names that the search index of content/urldb.c uses: the
    parts of a host, from its leaf up to the top-level domain, are compared one
    after the other without regard to case. */
module HostOrder {
  import opened Ascii

  /** strcasecmp, up to the size of the result. */
  function CompareText(a: string, b: string): int {
    if a == "" then (if b == "" then 0 else -1)
    else if b == "" then 1
    else
      var d := ToLower(a[0]) as int - ToLower(b[0]) as int;
      if d != 0 then d else CompareText(a[1..], b[1..])
  }

  /** strncasecmp, up to the size of the result. */
  function ComparePrefix(a: string, b: string, n: nat): int {
    if n == 0 then 0
    else if a == "" then (if b == "" then 0 else -1)
    else if b == "" then 1
    else
      var d := ToLower(a[0]) as int - ToLower(b[0]) as int;
      if d != 0 then d else ComparePrefix(a[1..], b[1..], n - 1)
  }

  /** A host as its parts, leaf first. */
  type Key = seq<string>

  function Compare(a: Key, b: Key): int {
    if a == [] then (if b == [] then 0 else -1)
    else if b == [] then 1
    else
      var c := CompareText(a[0], b[0]);
      if c != 0 then c else Compare(a[1..], b[1..])
  }

  // ---------------------------------------------------------------------
  // Total order, up to case
  // ---------------------------------------------------------------------

  lemma {:induction false} CompareTextFlips(a: string, b: string)
    ensures CompareText(a, b) < 0 <==> CompareText(b, a) > 0
    ensures CompareText(a, b) == 0 <==> CompareText(b, a) == 0
  {
    if a != "" && b != "" {
      CompareTextFlips(a[1..], b[1..]);
    }
  }

  lemma {:induction false} CompareTextTransitive(a: string, b: string, c: string)
    requires CompareText(a, b) <= 0 && CompareText(b, c) <= 0
    ensures CompareText(a, c) <= 0
    ensures CompareText(a, c) == 0 ==> CompareText(a, b) == 0 && CompareText(b, c) == 0
    ensures CompareText(a, b) == 0 && CompareText(b, c) == 0 ==> CompareText(a, c) == 0
  {
    if a != "" && b != "" && c != "" && ToLower(a[0]) == ToLower(b[0]) == ToLower(c[0]) {
      CompareTextTransitive(a[1..], b[1..], c[1..]);
    }
  }

  lemma {:induction false} CompareFlips(a: Key, b: Key)
    ensures Compare(a, b) < 0 <==> Compare(b, a) > 0
    ensures Compare(a, b) == 0 <==> Compare(b, a) == 0
  {
    if a != [] && b != [] {
      CompareTextFlips(a[0], b[0]);
      CompareFlips(a[1..], b[1..]);
    }
  }

  lemma {:induction false} CompareTransitive(a: Key, b: Key, c: Key)
    requires Compare(a, b) <= 0 && Compare(b, c) <= 0
    ensures Compare(a, c) <= 0
    ensures Compare(a, c) == 0 ==> Compare(a, b) == 0 && Compare(b, c) == 0
    ensures Compare(a, b) == 0 && Compare(b, c) == 0 ==> Compare(a, c) == 0
  {
    if a != [] && b != [] && c != [] {
      CompareTextTransitive(a[0], b[0], c[0]);
      if CompareText(a[0], b[0]) == 0 && CompareText(b[0], c[0]) == 0 {
        CompareTransitive(a[1..], b[1..], c[1..]);
      }
    }
  }

  /** Equality without regard to case, said character by character. */
  predicate SameText(a: string, b: string) {
    |a| == |b| && forall i :: 0 <= i < |a| ==> SameLetter(a[i], b[i])
  }

  predicate SameHost(a: Key, b: Key) {
    |a| == |b| && forall i :: 0 <= i < |a| ==> SameText(a[i], b[i])
  }

  lemma {:induction false} CompareTextZero(a: string, b: string)
    ensures CompareText(a, b) == 0 <==> SameText(a, b)
  {
    if a != "" && b != "" {
      CompareTextZero(a[1..], b[1..]);
      assert SameText(a, b) ==> SameText(a[1..], b[1..]);
      if SameText(a[1..], b[1..]) && ToLower(a[0]) == ToLower(b[0]) {
        forall i | 0 <= i < |a| ensures ToLower(a[i]) == ToLower(b[i]) {
          if i > 0 { assert ToLower(a[1..][i - 1]) == ToLower(b[1..][i - 1]); }
        }
      }
    }
  }

  lemma {:induction false} CompareZero(a: Key, b: Key)
    ensures Compare(a, b) == 0 <==> SameHost(a, b)
  {
    if a != [] && b != [] {
      CompareTextZero(a[0], b[0]);
      CompareZero(a[1..], b[1..]);
      if SameHost(a, b) {
        assert forall i :: 0 <= i < |a| - 1 ==> a[1..][i] == a[i + 1] && b[1..][i] == b[i + 1];
      }
      if SameHost(a[1..], b[1..]) && SameText(a[0], b[0]) {
        forall i | 0 <= i < |a| ensures SameText(a[i], b[i]) {
          if i > 0 { assert SameText(a[1..][i - 1], b[1..][i - 1]); }
        }
      }
    }
  }

  // ---------------------------------------------------------------------
  // Segments of a host string
  // ---------------------------------------------------------------------

  /** Index of the first dot, or the length (strchr). */
  function FirstDot(b: string): (d: nat)
    ensures d <= |b| && (d < |b| ==> b[d] == '.')
  {
    if b == "" || b[0] == '.' then 0 else 1 + FirstDot(b[1..])
  }

  /** The segments between the dots. */
  function Split(b: string): (k: Key)
    ensures k != []
  {
    var d := FirstDot(b);
    if d == |b| then [b] else [b[..d]] + Split(b[d + 1..])
  }

  /** Comparing a part with a segment in place, first the segment's length of
      it and then the lengths, is comparing the texts. */
  lemma {:induction false} LimitedCompare(part: string, b: string, n: nat)
    requires n <= |b|
    ensures var c := ComparePrefix(part, b, n);
            var d := CompareText(part, b[..n]);
            if c != 0 then (c < 0 <==> d < 0) && d != 0
            else if |part| > n then d > 0
            else |part| == n && d == 0
  {
    if n > 0 && part != "" {
      assert b[..n][1..] == b[1..][..n - 1];
      LimitedCompare(part[1..], b[1..], n - 1);
    }
  }

  // ---------------------------------------------------------------------
  // Prefixes
  // ---------------------------------------------------------------------

  /** The comparison of a host with a prefix: all segments of the prefix but
      the last must be there, the last may go on. */
  function CompareWithPrefix(a: Key, prefix: Key): int
    requires prefix != []
  {
    if a == [] then -1
    else if |prefix| == 1 then ComparePrefix(a[0], prefix[0], |prefix[0]|)
    else
      var c := CompareText(a[0], prefix[0]);
      if c != 0 then c else CompareWithPrefix(a[1..], prefix[1..])
  }

  /** What it means for a host to match a prefix. */
  predicate HasPrefix(a: Key, prefix: Key)
    requires prefix != []
  {
    var last := |prefix| - 1;
    && |prefix| <= |a|
    && (forall i :: 0 <= i < last ==> SameText(a[i], prefix[i]))
    && |prefix[last]| <= |a[last]| && SameText(a[last][..|prefix[last]|], prefix[last])
  }

  lemma {:induction false} ComparePrefixZero(a: string, p: string)
    ensures ComparePrefix(a, p, |p|) == 0 <==> |p| <= |a| && SameText(a[..|p|], p)
  {
    if a != "" && p != "" {
      ComparePrefixZero(a[1..], p[1..]);
      if |p| <= |a| {
        assert a[1..][..|p| - 1] == a[..|p|][1..];
        if SameText(a[..|p|][1..], p[1..]) && ToLower(a[0]) == ToLower(p[0]) {
          forall i | 0 <= i < |p| ensures ToLower(a[..|p|][i]) == ToLower(p[i]) {
            if i > 0 { assert ToLower(a[..|p|][1..][i - 1]) == ToLower(p[1..][i - 1]); }
          }
        }
      }
    }
  }

  lemma {:induction false} CompareWithPrefixZero(a: Key, prefix: Key)
    requires prefix != []
    ensures CompareWithPrefix(a, prefix) == 0 <==> HasPrefix(a, prefix)
  {
    if a != [] {
      if |prefix| == 1 {
        ComparePrefixZero(a[0], prefix[0]);
      } else {
        CompareTextZero(a[0], prefix[0]);
        CompareWithPrefixZero(a[1..], prefix[1..]);
        TailHasPrefix(a, prefix);
      }
    }
  }

  lemma TailHasPrefix(a: Key, prefix: Key)
    requires |prefix| > 1 && a != []
    ensures HasPrefix(a, prefix) <==> SameText(a[0], prefix[0]) && HasPrefix(a[1..], prefix[1..])
  {
    if |prefix| <= |a| {
      assert forall i :: 0 <= i < |prefix| - 1 ==> a[1..][i] == a[i + 1] && prefix[1..][i] == prefix[i + 1];
      if HasPrefix(a[1..], prefix[1..]) && SameText(a[0], prefix[0]) {
        forall i | 0 <= i < |prefix| - 1 ensures SameText(a[i], prefix[i]) {
          if i > 0 { assert SameText(a[1..][i - 1], prefix[1..][i - 1]); }
        }
      }
    }
  }

  /** Along the order of texts, the sign of the comparison with a prefix never
      goes down. */
  lemma {:induction false} ComparePrefixMonotone(a: string, b: string, p: string)
    requires CompareText(a, b) <= 0
    ensures ComparePrefix(a, p, |p|) > 0 ==> ComparePrefix(b, p, |p|) > 0
    ensures ComparePrefix(b, p, |p|) < 0 ==> ComparePrefix(a, p, |p|) < 0
  {
    if a != "" && b != "" && p != "" && ToLower(a[0]) == ToLower(b[0]) == ToLower(p[0]) {
      ComparePrefixMonotone(a[1..], b[1..], p[1..]);
    }
  }

  lemma {:induction false} PrefixMonotone(a: Key, b: Key, prefix: Key)
    requires prefix != [] && Compare(a, b) <= 0
    ensures CompareWithPrefix(a, prefix) > 0 ==> CompareWithPrefix(b, prefix) > 0
    ensures CompareWithPrefix(b, prefix) < 0 ==> CompareWithPrefix(a, prefix) < 0
  {
    if a != [] && b != [] {
      if |prefix| == 1 {
        ComparePrefixMonotone(a[0], b[0], prefix[0]);
      } else {
        CompareTextFlips(a[0], prefix[0]);
        CompareTextFlips(b[0], prefix[0]);
        if CompareText(a[0], b[0]) == 0 {
          CompareTextFlips(a[0], b[0]);
          CompareSameText(a[0], b[0], prefix[0]);
          if CompareText(a[0], prefix[0]) == 0 {
            PrefixMonotone(a[1..], b[1..], prefix[1..]);
          }
        } else if CompareText(a[0], prefix[0]) >= 0 {
          CompareTextTransitive(prefix[0], a[0], b[0]);
        }
      }
    }
  }

  /** Texts that differ only in case compare alike with any text. */
  lemma CompareSameText(a: string, b: string, c: string)
    requires CompareText(a, b) == 0
    ensures CompareText(a, c) < 0 <==> CompareText(b, c) < 0
    ensures CompareText(a, c) == 0 <==> CompareText(b, c) == 0
  {
    CompareTextFlips(a, b);
    CompareTextFlips(a, c);
    CompareTextFlips(b, c);
    if CompareText(a, c) <= 0 { CompareTextTransitive(b, a, c); } else { CompareTextTransitive(c, a, b); }
    if CompareText(b, c) <= 0 { CompareTextTransitive(a, b, c); } else { CompareTextTransitive(c, b, a); }
  }

  lemma CompareSameHost(a: Key, b: Key, c: Key)
    requires Compare(a, b) == 0
    ensures Compare(a, c) < 0 <==> Compare(b, c) < 0
    ensures Compare(a, c) == 0 <==> Compare(b, c) == 0
  {
    CompareFlips(a, b);
    CompareFlips(a, c);
    CompareFlips(b, c);
    if Compare(a, c) <= 0 { CompareTransitive(b, a, c); } else { CompareTransitive(c, a, b); }
    if Compare(b, c) <= 0 { CompareTransitive(a, b, c); } else { CompareTransitive(c, b, a); }
  }
}
