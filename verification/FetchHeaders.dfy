/** The headers of a fetched object: taking a line apart into a name and a value, and
    the list of all headers (content/llcache.c). */
module FetchHeaders {

  datatype Header = Header(name: string, value: string)

  predicate IsSpace(c: char) {
    c == ' ' || c == '\t' || c == '\r' || c == '\n'
  }

  /** Index of the first character from `i` on that is not white space. */
  function Front(s: string, i: nat): (k: nat)
    requires i <= |s|
    ensures i <= k <= |s| && (k < |s| ==> !IsSpace(s[k])) && forall j :: i <= j < k ==> IsSpace(s[j])
    decreases |s| - i
  {
    if i < |s| && IsSpace(s[i]) then Front(s, i + 1) else i
  }

  /** Index behind the last character of s[lo..n] that is not white space, or `lo`. */
  function Back(s: string, lo: nat, n: nat): (k: nat)
    requires lo <= n <= |s|
    ensures lo <= k <= n && (k > lo ==> !IsSpace(s[k - 1])) && forall j :: k <= j < n ==> IsSpace(s[j])
  {
    if n > lo && IsSpace(s[n - 1]) then Back(s, lo, n - 1) else n
  }

  /** Index of the first colon from `i` on, or the length (strchr). */
  function Colon(s: string, i: nat): (k: nat)
    requires i <= |s|
    ensures i <= k <= |s| && (k < |s| ==> s[k] == ':') && forall j :: i <= j < k ==> s[j] != ':'
    decreases |s| - i
  {
    if i < |s| && s[i] != ':' then Colon(s, i + 1) else i
  }

  lemma FrontIs(s: string, i: nat, k: nat)
    requires i <= k <= |s| && (k < |s| ==> !IsSpace(s[k])) && forall j :: i <= j < k ==> IsSpace(s[j])
    ensures Front(s, i) == k
  {
    var f := Front(s, i);
  }

  lemma BackIs(s: string, lo: nat, n: nat, k: nat)
    requires lo <= k <= n <= |s| && (k > lo ==> !IsSpace(s[k - 1])) && forall j :: k <= j < n ==> IsSpace(s[j])
    ensures Back(s, lo, n) == k
  {
    var f := Back(s, lo, n);
  }

  lemma ColonIs(s: string, i: nat, k: nat)
    requires i <= k <= |s| && (k < |s| ==> s[k] == ':') && forall j :: i <= j < k ==> s[j] != ':'
    ensures Colon(s, i) == k
  {
    var f := Colon(s, i);
  }

  /** The name and the value of a line. When white space was taken off the front, the
      end of the line is looked for beyond its end, and is not trimmed; what lies there
      is taken not to be white space. */
  function SplitLine(data: string): Header {
    var f := Front(data, 0);
    var c := Colon(data, f);
    Header(data[f..Back(data, f, c)], ValueOf(data, f == 0, c))
  }

  function ValueOf(data: string, trim: bool, c: nat): string
    requires c <= |data|
  {
    if c == |data| then ""
    else
      var v := Front(data, c + 1);
      data[v..if trim then Back(data, v, |data|) else |data|]
  }

  /** llcache_fetch_split_header, with the pointers as indices into the line. */
  method SplitHeader(data: string) returns (name: string, value: string)
    ensures Header(name, value) == SplitLine(data)
  {
    var start := 0;
    while start < |data| && IsSpace(data[start])
      invariant start <= |data| && forall j :: 0 <= j < start ==> IsSpace(data[j])
    {
      start := start + 1;
    }
    FrontIs(data, 0, start);
    var colon := Colon(data, start);
    ghost var c := colon;
    while colon > start && IsSpace(data[colon - 1])
      invariant start <= colon <= c && forall j :: colon <= j < c ==> IsSpace(data[j])
    {
      colon := colon - 1;
    }
    BackIs(data, start, c, colon);
    name := data[start..colon];
    if NoColon(data, start) { return name, ""; }
    while data[colon] != ':'
      invariant colon <= c < |data|
      decreases c - colon
    {
      colon := colon + 1;
    }
    assert colon == c;
    value := ValueAt(data, start, colon);
  }

  predicate NoColon(data: string, start: nat)
    requires start <= |data|
  {
    Colon(data, start) == |data|
  }

  /** The value, behind the colon. */
  method ValueAt(data: string, start: nat, c: nat) returns (value: string)
    requires start <= c < |data| && data[c] == ':'
    ensures value == ValueOf(data, start == 0, c)
  {
    var colon := c + 1;
    while colon < |data| && IsSpace(data[colon])
      invariant c < colon <= |data| && forall j :: c < j < colon ==> IsSpace(data[j])
    {
      colon := colon + 1;
    }
    FrontIs(data, c + 1, colon);
    var len := |data|;
    if start == 0 {
      while len > 0 && IsSpace(data[len - 1])
        invariant c < len <= |data| && forall j :: len <= j < |data| ==> IsSpace(data[j])
      {
        len := len - 1;
      }
      BackIs(data, colon, |data|, if len < colon then colon else len);
    }
    // strndup: a length below 0 counts as a very large one
    value := if len < colon then data[colon..] else data[colon..len];
  }

  // ---------------------------------------------------------------------
  // The list of headers
  // ---------------------------------------------------------------------

  const STATUS := "HTTP/"

  /** llcache_fetch_process_header: a status line starts the list afresh. */
  function ProcessHeader(headers: seq<Header>, data: string): seq<Header> {
    var kept := if STATUS <= data then [] else headers;
    var h := SplitLine(data);
    if h.name == "" then kept else kept + [h]
  }

  /** The headers from a list of lines. */
  function Headers(lines: seq<string>): seq<Header> {
    if lines == [] then [] else ProcessHeader(Headers(lines[..|lines| - 1]), lines[|lines| - 1])
  }

  /** The headers in these lines, without those that have no name. */
  function AllHeaders(lines: seq<string>): seq<Header> {
    if lines == [] then []
    else
      var h := SplitLine(lines[0]);
      (if h.name == "" then [] else [h]) + AllHeaders(lines[1..])
  }

  lemma {:induction false} AllHeadersNext(lines: seq<string>, data: string)
    ensures AllHeaders(lines + [data])
         == AllHeaders(lines) + if SplitLine(data).name == "" then [] else [SplitLine(data)]
  {
    hide SplitLine;
    if lines == [] {
      assert [data][1..] == [] && lines + [data] == [data];
    } else {
      var all := lines + [data];
      assert all[0] == lines[0] && all[1..] == lines[1..] + [data];
      AllHeadersNext(lines[1..], data);
    }
  }

  lemma HeadersNext(lines: seq<string>)
    requires lines != []
    ensures Headers(lines) == ProcessHeader(Headers(lines[..|lines| - 1]), lines[|lines| - 1])
  {
  }

  lemma NoHeaders()
    ensures Headers([]) == AllHeaders([]) == []
  {
  }

  /** Of several responses only the last one counts: the headers are those in the lines from
      the last status line on. */
  lemma {:induction false} OnlyLastResponse(lines: seq<string>, i: nat)
    requires i < |lines| && (i == 0 || STATUS <= lines[i]) && forall j :: i < j < |lines| ==> !(STATUS <= lines[j])
    ensures Headers(lines) == AllHeaders(lines[i..])
    decreases |lines|
  {
    hide SplitLine, AllHeaders, Headers;
    var n := |lines| - 1;
    var front := lines[..n];
    HeadersNext(lines);
    AllHeadersNext(lines[i..n], lines[n]);
    assert lines[i..] == lines[i..n] + [lines[n]];
    if i < n {
      assert front[i..] == lines[i..n];
      OnlyLastResponse(front, i);
    } else {
      assert lines[i..n] == [];
      NoHeaders();
    }
  }

  /** A header as it is written out. */
  function Written(h: Header): string {
    h.name + ":" + h.value
  }

  /** There is no white space at either end. */
  predicate IsTrimmed(s: string) {
    s == "" || (!IsSpace(s[0]) && !IsSpace(s[|s| - 1]))
  }

  /** The header can be told from its written form. */
  predicate IsClean(h: Header) {
    h.name != "" && ':' !in h.name && IsTrimmed(h.name) && IsTrimmed(h.value)
  }

  /** A line without white space in front gives a clean header, or none. */
  lemma LineIsClean(data: string)
    requires data == "" || !IsSpace(data[0])
    ensures SplitLine(data).name == "" || IsClean(SplitLine(data))
  {
    FrontIs(data, 0, 0);
    NameIsClean(data);
    ValueIsTrimmed(data, Colon(data, 0));
  }

  lemma NameIsClean(data: string)
    requires data == "" || !IsSpace(data[0])
    ensures var n := data[0..Back(data, 0, Colon(data, 0))]; ':' !in n && IsTrimmed(n)
  {
    var n := data[0..Back(data, 0, Colon(data, 0))];
    assert forall j :: 0 <= j < |n| ==> n[j] == data[j];
  }

  lemma ValueIsTrimmed(data: string, c: nat)
    requires c <= |data|
    ensures IsTrimmed(ValueOf(data, true, c))
  {
  }

  /** A line that is trimmed everywhere. */
  lemma SplitTrimmed(data: string, c: nat)
    requires 0 < c < |data| && data[c] == ':' && forall j :: 0 <= j < c ==> data[j] != ':'
    requires !IsSpace(data[0]) && !IsSpace(data[c - 1])
    requires c + 1 < |data| ==> !IsSpace(data[c + 1]) && !IsSpace(data[|data| - 1])
    ensures SplitLine(data) == Header(data[0..c], data[c + 1..|data|])
  {
    FrontIs(data, 0, 0);
    ColonIs(data, 0, c);
    BackIs(data, 0, c, c);
    FrontIs(data, c + 1, c + 1);
    BackIs(data, c + 1, |data|, |data|);
  }

  lemma ReadClean(h: Header)
    requires IsClean(h)
    ensures SplitLine(Written(h)) == h
  {
    var data := Written(h);
    var c := |h.name|;
    assert data[0..c] == h.name && data[c + 1..|data|] == h.value && data[c] == ':';
    assert forall j :: 0 <= j < c ==> data[j] == h.name[j] && h.name[j] in h.name;
    assert data[0] == h.name[0] && data[c - 1] == h.name[c - 1];
    if h.value != "" {
      assert data[c + 1] == h.value[0] && data[|data| - 1] == h.value[|h.value| - 1];
    }
    SplitTrimmed(data, c);
  }

  /** Reading what was written gives a header back just if it is clean. */
  lemma ReadWritten(h: Header)
    requires h.name != ""
    ensures SplitLine(Written(h)) == h <==> IsClean(h)
  {
    var data := Written(h);
    if IsClean(h) {
      ReadClean(h);
    } else if SplitLine(data) == h {
      assert h.name[0] == data[Front(data, 0)] && data[0] == h.name[0];
      LineIsClean(data);
    }
  }

  /** A line with white space in front need not give a clean header: the end of its
      value is not trimmed. */
  lemma FrontSpaceIsKeptBehind()
    ensures SplitLine(" a: b ") == Header("a", "b ") && !IsClean(Header("a", "b "))
  {
    var data := " a: b ";
    FrontIs(data, 0, 1);
    ColonIs(data, 1, 2);
    BackIs(data, 1, 2, 2);
    FrontIs(data, 3, 4);
    assert data[1..2] == "a" && data[4..6] == "b ";
  }

  // ---------------------------------------------------------------------
  // Lists
  // ---------------------------------------------------------------------

  /** All headers are clean, and only the first may look like a status line. */
  predicate ListIsClean(headers: seq<Header>) {
    && (forall i :: 0 <= i < |headers| ==> IsClean(headers[i]))
    && (forall i :: 0 < i < |headers| ==> !(STATUS <= Written(headers[i])))
  }

  /** A header looks like a status line only if its line did. */
  lemma StatusIsKept(data: string)
    requires data != "" && !IsSpace(data[0]) && STATUS <= Written(SplitLine(data))
    ensures STATUS <= data
  {
    FrontIs(data, 0, 0);
    var w, n := Written(SplitLine(data)), SplitLine(data).name;
    assert n == data[0..|n|] && forall j :: 0 <= j < |n| ==> w[j] == data[j];
    assert |n| >= 5 by {
      assert |n| < |w| && w[|n|] == ':';
      assert forall j :: 0 <= j < 5 ==> w[j] == STATUS[j] && STATUS[j] != ':';
    }
    assert forall j :: 0 <= j < 5 ==> data[j] == STATUS[j];
  }

  /** Lines without white space in front make a clean list. */
  lemma {:induction false} HeadersAreClean(lines: seq<string>)
    requires forall i :: 0 <= i < |lines| ==> lines[i] == "" || !IsSpace(lines[i][0])
    ensures ListIsClean(Headers(lines))
  {
    if lines != [] {
      var n := |lines| - 1;
      HeadersAreClean(lines[..n]);
      LineIsClean(lines[n]);
      if lines[n] != "" && STATUS <= Written(SplitLine(lines[n])) {
        StatusIsKept(lines[n]);
      }
    }
  }

  /** The written forms of the headers. */
  function AllWritten(headers: seq<Header>): (w: seq<string>)
    ensures |w| == |headers|
  {
    if headers == [] then []
    else AllWritten(headers[..|headers| - 1]) + [Written(headers[|headers| - 1])]
  }

  lemma ProcessClean(kept: seq<Header>, h: Header)
    requires IsClean(h) && (kept != [] ==> !(STATUS <= Written(h)))
    ensures ProcessHeader(kept, Written(h)) == kept + [h]
  {
    ReadWritten(h);
  }

  /** A clean list is got back from its written form. */
  lemma {:induction false} ReadAllWritten(headers: seq<Header>)
    requires ListIsClean(headers)
    ensures Headers(AllWritten(headers)) == headers
  {
    hide Written, IsClean, ProcessHeader;
    if headers != [] {
      var n := |headers| - 1;
      var front, w := AllWritten(headers[..n]), Written(headers[n]);
      ReadAllWritten(headers[..n]);
      ProcessClean(headers[..n], headers[n]);
      assert (front + [w])[..n] == front && headers[..n] + [headers[n]] == headers;
    }
  }
}
