/** The metadata that the low-level cache keeps with an object on disc: lines that end
    in NUL (content/llcache.c). */
module Metadata {
  import opened FetchHeaders

  type byte = x: int | 0 <= x < 256

  datatype Option<T> = None | Some(value: T)

  /** A certificate in the chain, with what is wrong with it. No data is the same as
      data of length 0. */
  datatype Cert = Cert(err: nat, der: seq<byte>)

  const CERT_UNKNOWN := 1
  const CERT_MAX_KNOWN := 9
  const CERT_MISSING := 10
  const MAX_CERT_DEPTH := 10

  datatype Meta = Meta(url: string, size: nat, reqTime: nat, resTime: nat, finTime: nat,
                       headers: seq<Header>, certs: seq<Cert>)

  const NUL := '\0'

  predicate NoNul(s: string) {
    forall i :: 0 <= i < |s| ==> s[i] != NUL
  }

  // ---------------------------------------------------------------------
  // Numbers and base64
  // ---------------------------------------------------------------------

  function Digit(d: nat): (c: char)
    requires d < 10
  {
    ('0' as int + d) as char
  }

  predicate IsDigit(c: char) {
    '0' <= c <= '9'
  }

  /** The decimal digits of a number. */
  function Decimal(n: nat): (s: string)
    ensures s != "" && forall i :: 0 <= i < |s| ==> IsDigit(s[i])
  {
    if n < 10 then [Digit(n)] else Decimal(n / 10) + [Digit(n % 10)]
  }

  /** The number that digits stand for. */
  function Number(s: string): nat
    requires forall i :: 0 <= i < |s| ==> IsDigit(s[i])
  {
    if s == "" then 0
    else
      var n := |s| - 1;
      assert IsDigit(s[n]);
      Number(s[..n]) * 10 + (s[n] as int - '0' as int)
  }

  /** How many digits come first. */
  function Digits(s: string, i: nat): (k: nat)
    requires i <= |s|
    ensures i <= k <= |s| && (k < |s| ==> !IsDigit(s[k])) && forall j :: i <= j < k ==> IsDigit(s[j])
    decreases |s| - i
  {
    if i < |s| && IsDigit(s[i]) then Digits(s, i + 1) else i
  }

  /** sscanf of a number: the digits at the front count. */
  function Scan(s: string): Option<nat> {
    var k := Digits(s, 0);
    if k == 0 then None else Some(Number(s[..k]))
  }

  /** Text is no number just if it does not start with a digit. */
  lemma ScanFailsIff(s: string)
    ensures Scan(s).None? <==> s == "" || !IsDigit(s[0])
  {
    assert Digits(s, 0) == 0 <==> s == "" || !IsDigit(s[0]);
  }

  lemma {:induction false} NumberOfDecimal(n: nat)
    ensures Number(Decimal(n)) == n
  {
    if n >= 10 {
      var s := Decimal(n);
      NumberOfDecimal(n / 10);
      assert s[..|s| - 1] == Decimal(n / 10);
    }
  }

  lemma ScanDecimal(n: nat)
    ensures Scan(Decimal(n)) == Some(n)
  {
    var s := Decimal(n);
    assert Digits(s, 0) == |s| && s[..|s|] == s;
    NumberOfDecimal(n);
  }

  lemma {:induction false} DecimalLength(n: nat, width: nat)
    requires width > 0 && n < Power(width)
    ensures |Decimal(n)| <= width
  {
    if n >= 10 {
      DecimalLength(n / 10, width - 1);
    }
  }

  function Power(width: nat): nat {
    if width == 0 then 1 else 10 * Power(width - 1)
  }

  const NINE_DIGITS: nat := 1_000_000_000
  const TEN_DIGITS: nat := 10_000_000_000

  lemma PowersAre()
    ensures Power(9) == NINE_DIGITS && Power(10) == TEN_DIGITS
  {
    assert Power(5) == 100_000;
    assert Power(9) == 10_000 * Power(5);
  }

  /** A pair of functions that code bytes as text. */
  datatype Codec = Codec(encode: seq<byte> -> string, decode: string -> Option<seq<byte>>)

  predicate CodesWell(c: Codec, d: seq<byte>) {
    var e := c.encode(d);
    c.decode(e) == Some(d) && |e| == 4 * ((|d| + 2) / 3) && NoNul(e)
  }

  /** What is assumed of base64. */
  ghost predicate IsBase64(c: Codec) {
    forall d :: CodesWell(c, d)
  }

  // ---------------------------------------------------------------------
  // The text
  // ---------------------------------------------------------------------

  function Line(s: string): string {
    s + [NUL]
  }

  function HeaderLines(headers: seq<Header>): string {
    if headers == [] then "" else Line(Written(headers[0])) + HeaderLines(headers[1..])
  }

  function CertLines(c: Codec, certs: seq<Cert>): string {
    if certs == [] then ""
    else Line(Decimal(certs[0].err)) + Line(c.encode(certs[0].der)) + CertLines(c, certs[1..])
  }

  /** The lines before the headers. */
  function FrontLines(m: Meta): string {
    Line(m.url) + Line(Decimal(m.size)) + Line(Decimal(m.reqTime)) + Line(Decimal(m.resTime)) + Line(Decimal(m.finTime))
    + Line(Decimal(|m.headers|))
  }

  /** All that is written for an object. */
  function Text(c: Codec, m: Meta): string {
    FrontLines(m) + HeaderLines(m.headers) + Line(Decimal(|m.certs|)) + CertLines(c, m.certs)
  }

  // ---------------------------------------------------------------------
  // The space for it
  // ---------------------------------------------------------------------

  const FIELD := 11

  function HeaderSpace(headers: seq<Header>): nat {
    if headers == [] then 0 else |headers[0].name| + 1 + |headers[0].value| + 1 + HeaderSpace(headers[1..])
  }

  function CertSpace(certs: seq<Cert>): nat {
    if certs == [] then 0 else FIELD + 4 * ((|certs[0].der| + 2) / 3) + CertSpace(certs[1..])
  }

  /** The size of the buffer, computed before anything is written. */
  function Space(m: Meta): nat {
    FIELD + FIELD + FIELD + FIELD + FIELD + HeaderSpace(m.headers) + |m.url| + 1 + FIELD + CertSpace(m.certs)
  }

  /** No number has more than ten digits, and no error code more than nine. */
  predicate NumbersFit(m: Meta) {
    && m.size < TEN_DIGITS && m.reqTime < TEN_DIGITS && m.resTime < TEN_DIGITS && m.finTime < TEN_DIGITS
    && |m.headers| < TEN_DIGITS && |m.certs| < TEN_DIGITS
    && forall i :: 0 <= i < |m.certs| ==> m.certs[i].err < NINE_DIGITS
  }

  lemma {:induction false} HeaderLinesFit(headers: seq<Header>)
    ensures |HeaderLines(headers)| == HeaderSpace(headers)
  {
    if headers != [] {
      HeaderLinesFit(headers[1..]);
    }
  }

  lemma {:induction false} CertLinesFit(c: Codec, certs: seq<Cert>)
    requires IsBase64(c) && forall i :: 0 <= i < |certs| ==> certs[i].err < NINE_DIGITS
    ensures |CertLines(c, certs)| <= CertSpace(certs)
  {
    if certs != [] {
      assert CodesWell(c, certs[0].der);
      PowersAre();
      DecimalLength(certs[0].err, 9);
      CertLinesFit(c, certs[1..]);
    }
  }

  /** The buffer is always large enough. The place for the NUL behind a certificate is
      the tenth digit of its error code. */
  lemma TextFits(c: Codec, m: Meta)
    requires IsBase64(c) && NumbersFit(m)
    ensures |Text(c, m)| <= Space(m)
  {
    HeaderLinesFit(m.headers);
    CertLinesFit(c, m.certs);
    PowersAre();
    DecimalLength(m.size, 10);
    DecimalLength(m.reqTime, 10);
    DecimalLength(m.resTime, 10);
    DecimalLength(m.finTime, 10);
    DecimalLength(|m.headers|, 10);
    DecimalLength(|m.certs|, 10);
  }

  // ---------------------------------------------------------------------
  // Writing
  // ---------------------------------------------------------------------

  /** snprintf of a line: it fails if there is no place for it and its NUL. */
  method Append(op: string, left: nat, s: string) returns (ok: bool, now: string, rest: nat)
    ensures ok <==> |s| + 1 <= left
    ensures ok ==> now == op + Line(s) && rest == left - (|s| + 1)
  {
    now, rest := op, left;
    var use := |s| + 1;
    ok := use <= left;
    if ok {
      now, rest := op + Line(s), left - use;
    }
  }

  method AppendHeaders(op: string, left: nat, headers: seq<Header>) returns (ok: bool, now: string, rest: nat)
    ensures ok <==> |HeaderLines(headers)| <= left
    ensures ok ==> now == op + HeaderLines(headers) && rest == left - |HeaderLines(headers)|
  {
    ok, now, rest := true, op, left;
    var i := 0;
    assert headers[0..] == headers;
    while i < |headers|
      invariant i <= |headers| && ok
      invariant now + HeaderLines(headers[i..]) == op + HeaderLines(headers)
      invariant rest - |HeaderLines(headers[i..])| == left - |HeaderLines(headers)|
    {
      var h := headers[i];
      assert headers[i..][0] == h && headers[i..][1..] == headers[i + 1..];
      AppendAssociates(now, Line(Written(h)), HeaderLines(headers[i + 1..]));
      ok, now, rest := Append(now, rest, Written(h));
      if !ok { return; }
      i := i + 1;
    }
    assert headers[i..] == [];
  }

  lemma AppendAssociates(a: string, b: string, c: string)
    ensures a + (b + c) == (a + b) + c
  {
  }

  method AppendCerts(c: Codec, op: string, left: nat, certs: seq<Cert>) returns (ok: bool, now: string, rest: nat)
    ensures ok <==> |CertLines(c, certs)| <= left
    ensures ok ==> now == op + CertLines(c, certs) && rest == left - |CertLines(c, certs)|
  {
    ok, now, rest := true, op, left;
    var i := 0;
    assert certs[0..] == certs;
    while i < |certs|
      invariant i <= |certs| && ok
      invariant now + CertLines(c, certs[i..]) == op + CertLines(c, certs)
      invariant rest - |CertLines(c, certs[i..])| == left - |CertLines(c, certs)|
    {
      var err, der := Decimal(certs[i].err), c.encode(certs[i].der);
      assert certs[i..][0] == certs[i] && certs[i..][1..] == certs[i + 1..];
      AppendAssociates(now, Line(err), Line(der));
      AppendAssociates(now, Line(err) + Line(der), CertLines(c, certs[i + 1..]));
      ok, now, rest := Append(now, rest, err);
      if !ok { return; }
      ok, now, rest := Append(now, rest, der);
      if !ok { return; }
      i := i + 1;
    }
    assert certs[i..] == [];
  }

  /** The lines before the headers. */
  method AppendFront(op: string, left: nat, m: Meta) returns (ok: bool, now: string, rest: nat)
    requires op == ""
    ensures ok <==> |FrontLines(m)| <= left
    ensures ok ==> now == FrontLines(m) && rest == left - |FrontLines(m)|
  {
    ok, now, rest := Append(op, left, m.url);
    if !ok { return; }
    ok, now, rest := Append(now, rest, Decimal(m.size));
    if !ok { return; }
    ok, now, rest := Append(now, rest, Decimal(m.reqTime));
    if !ok { return; }
    ok, now, rest := Append(now, rest, Decimal(m.resTime));
    if !ok { return; }
    ok, now, rest := Append(now, rest, Decimal(m.finTime));
    if !ok { return; }
    ok, now, rest := Append(now, rest, Decimal(|m.headers|));
  }

  /** llcache_serialise_metadata. It fails just if the text is longer than the space
      computed for it. */
  method Serialise(c: Codec, m: Meta) returns (r: Option<string>)
    ensures r == if |Text(c, m)| <= Space(m) then Some(Text(c, m)) else None
    ensures IsBase64(c) && NumbersFit(m) ==> r == Some(Text(c, m))
  {
    if IsBase64(c) && NumbersFit(m) { TextFits(c, m); }
    var ok, op, left := AppendFront("", Space(m), m);
    if !ok { return None; }
    ok, op, left := AppendHeaders(op, left, m.headers);
    if !ok { return None; }
    ok, op, left := Append(op, left, Decimal(|m.certs|));
    if !ok { return None; }
    ok, op, left := AppendCerts(c, op, left, m.certs);
    if !ok { return None; }
    r := Some(op);
  }

  // ---------------------------------------------------------------------
  // Reading
  // ---------------------------------------------------------------------

  datatype Error = Invalid | BadUrl | NoMem

  datatype Result<T> = Ok(value: T) | Err(error: Error)

  function Nul(s: string, i: nat): (k: nat)
    requires i <= |s|
    ensures i <= k <= |s| && (k < |s| ==> s[k] == NUL) && forall j :: i <= j < k ==> s[j] != NUL
    decreases |s| - i
  {
    if i < |s| && s[i] != NUL then Nul(s, i + 1) else i
  }

  /** The line at the front of the buffer, and what follows. Without a NUL, the line
      ends with the buffer. */
  function ReadLine(s: string): (string, string) {
    var k := Nul(s, 0);
    (s[..k], if k == |s| then "" else s[k + 1..])
  }

  lemma ReadOneLine(s: string, t: string)
    requires NoNul(s)
    ensures ReadLine(Line(s) + t) == (s, t)
  {
    var all := Line(s) + t;
    assert all[|s|] == NUL && forall j :: 0 <= j < |s| ==> all[j] == s[j];
    assert Nul(all, 0) == |s| && all[..|s|] == s && all[|s| + 1..] == t;
  }

  /** What follows the first `n` lines. */
  function RestAt(s: string, n: nat): string {
    if n == 0 then s else ReadLine(RestAt(s, n - 1)).1
  }

  function LineAt(s: string, n: nat): string {
    ReadLine(RestAt(s, n)).0
  }

  function LinesAt(s: string, n: nat, count: nat): (lines: seq<string>)
    ensures |lines| == count
  {
    if count == 0 then [] else LinesAt(s, n, count - 1) + [LineAt(s, n + count - 1)]
  }

  lemma {:induction false} LinesOfRest(s: string, n: nat, count: nat)
    ensures LinesAt(RestAt(s, n), 0, count) == LinesAt(s, n, count)
  {
    hide ReadLine, RestAt;
    if count > 0 {
      LinesOfRest(s, n, count - 1);
      RestOfRest(s, n, count - 1);
    }
  }

  lemma {:induction false} RestOfRest(s: string, a: nat, b: nat)
    ensures RestAt(RestAt(s, a), b) == RestAt(s, a + b)
  {
    if b > 0 { RestOfRest(s, a, b - 1); }
  }

  /** The certificate in two lines: a number, and base64 or nothing. */
  function CertOf(c: Codec, err: string, der: string): Result<Cert> {
    if Scan(err).None? then Err(Invalid)
    else if der == "" then Ok(Cert(KnownErr(Scan(err).value), []))
    else if c.decode(der).None? then Err(NoMem)
    else Ok(Cert(KnownErr(Scan(err).value), c.decode(der).value))
  }

  /** The certificates in pairs of lines, or the first error. */
  function CertsOf(c: Codec, s: string, count: nat): (r: Result<seq<Cert>>)
    ensures r.Ok? ==> |r.value| == count
  {
    if count == 0 then Ok([])
    else
      var front := CertsOf(c, s, count - 1);
      if front.Err? then front
      else
        var x := CertOf(c, LineAt(s, 2 * (count - 1)), LineAt(s, 2 * (count - 1) + 1));
        if x.Err? then Err(x.error) else Ok(front.value + [x.value])
  }

  /** The number of certificates and their lines; there may be nothing at all. */
  function ChainOf(c: Codec, s: string): Result<seq<Cert>> {
    if s == "" then Ok([])
    else
      var n := Scan(LineAt(s, 0));
      if n.None? || n.value > MAX_CERT_DEPTH then Err(Invalid) else CertsOf(c, RestAt(s, 1), n.value)
  }

  /** The lines of the text: the URL, five numbers, as many headers as the last of these
      says, and the chain. */
  function MetaOf(c: Codec, url: string, s: string): Result<Meta> {
    if |LineAt(s, 0)| < 7 then Err(Invalid)
    else if LineAt(s, 0) != url then Err(BadUrl)
    else if exists i :: 1 <= i <= 5 && Scan(LineAt(s, i)).None? then Err(Invalid)
    else
      var n := Scan(LineAt(s, 5)).value;
      var chain := ChainOf(c, RestAt(s, 6 + n));
      if chain.Err? then Err(chain.error)
      else
        Ok(Meta(url, Scan(LineAt(s, 1)).value, Scan(LineAt(s, 2)).value, Scan(LineAt(s, 3)).value, Scan(LineAt(s, 4)).value,
                Headers(LinesAt(s, 6, n)), chain.value))
  }

  /** Text that is read belongs to the URL, and has a chain that is not too deep, with known
      errors only; of its headers just those of the last response are kept. */
  lemma WhatIsRead(c: Codec, url: string, s: string)
    requires MetaOf(c, url, s).Ok?
    ensures var m := MetaOf(c, url, s).value;
            && m.url == url == LineAt(s, 0) && |url| >= 7 && |m.certs| <= MAX_CERT_DEPTH
            && forall i :: 0 <= i < |m.certs| ==> m.certs[i].err <= CERT_MAX_KNOWN
  {
    hide ChainOf, RestAt, LineAt, LinesAt, Headers, Scan;
    ChainIsKnown(c, RestAt(s, 6 + Scan(LineAt(s, 5)).value));
  }

  lemma ChainIsKnown(c: Codec, s: string)
    requires ChainOf(c, s).Ok?
    ensures var certs := ChainOf(c, s).value;
            |certs| <= MAX_CERT_DEPTH && forall i :: 0 <= i < |certs| ==> certs[i].err <= CERT_MAX_KNOWN
  {
    hide RestAt, LineAt, Scan;
    if s != "" {
      ErrorsAreKnown(c, RestAt(s, 1), Scan(LineAt(s, 0)).value);
    }
  }

  lemma {:induction false} ErrorsAreKnown(c: Codec, s: string, count: nat)
    requires CertsOf(c, s, count).Ok?
    ensures forall i :: 0 <= i < count ==> CertsOf(c, s, count).value[i].err <= CERT_MAX_KNOWN
  {
    hide ReadLine, RestAt, LineAt, Scan;
    if count > 0 { ErrorsAreKnown(c, s, count - 1); }
  }

  /** An error code that is not known is read as "unknown". */
  function KnownErr(err: nat): nat {
    if err > CERT_MAX_KNOWN then CERT_UNKNOWN else err
  }

  function KnownCert(x: Cert): Cert {
    x.(err := KnownErr(x.err))
  }

  function KnownCerts(certs: seq<Cert>): (r: seq<Cert>)
    ensures |r| == |certs| && forall i :: 0 <= i < |r| ==> r[i] == KnownCert(certs[i])
  {
    seq(|certs|, i requires 0 <= i < |certs| => KnownCert(certs[i]))
  }

  /** What can be read back: a URL that is long enough, headers as they come from lines
      of a response, and a chain that is not too deep. */
  predicate Readable(m: Meta) {
    && |m.url| >= 7 && NoNul(m.url) && ListIsClean(m.headers) && |m.certs| <= MAX_CERT_DEPTH
    && forall i :: 0 <= i < |m.headers| ==> NoNul(Written(m.headers[i]))
  }

  /** The first error is that of all. */
  lemma {:induction false} FailsOnceIsFails(c: Codec, s: string, i: nat, count: nat)
    requires i <= count
    ensures CertsOf(c, s, i).Err? ==> CertsOf(c, s, count) == CertsOf(c, s, i)
    decreases count
  {
    hide ReadLine, RestAt, LineAt, CertOf;
    if i < count { FailsOnceIsFails(c, s, i, count - 1); }
  }

  /** The certificates. */
  method ReadCerts(c: Codec, text: string, count: nat) returns (r: Result<seq<Cert>>)
    ensures r == CertsOf(c, text, count)
  {
    hide CertsOf, CertOf, ReadLine, Scan, RestAt, LineAt;
    var rest, read, i := text, [], 0;
    CertsStart(c, text);
    while i < count
      invariant i <= count && rest == RestAt(text, 2 * i) && CertsOf(c, text, i) == Ok(read)
    {
      FailsOnceIsFails(c, text, i + 1, count);
      CertsNext(c, text, i);
      var (err, after) := ReadLine(rest);
      var (der, next) := ReadLine(after);
      rest := next;
      var x := ReadCert(c, err, der);
      if x.Err? { return Err(x.error); }
      read := read + [x.value];
      i := i + 1;
    }
    r := Ok(read);
  }

  method ReadCert(c: Codec, err: string, der: string) returns (r: Result<Cert>)
    ensures r == CertOf(c, err, der)
  {
    hide Scan, KnownErr;
    var code := Scan(err);
    if code.None? { return Err(Invalid); }
    var bytes := if der == "" then Some([]) else c.decode(der);
    if bytes.None? { return Err(NoMem); }
    r := Ok(Cert(KnownErr(code.value), bytes.value));
  }

  lemma CertsStart(c: Codec, s: string)
    ensures RestAt(s, 0) == s && CertsOf(c, s, 0) == Ok([])
  {
  }

  lemma CertsNext(c: Codec, s: string, i: nat)
    ensures var (err, after) := ReadLine(RestAt(s, 2 * i));
            var (der, next) := ReadLine(after);
            && RestAt(s, 2 * (i + 1)) == next
            && (CertsOf(c, s, i).Ok? ==>
                  var x := CertOf(c, err, der);
                  CertsOf(c, s, i + 1) == if x.Err? then Err(x.error) else Ok(CertsOf(c, s, i).value + [x.value]))
  {
    hide ReadLine, CertOf;
    assert RestAt(s, 2 * i + 1) == ReadLine(RestAt(s, 2 * i)).1;
    assert RestAt(s, 2 * i + 2) == ReadLine(RestAt(s, 2 * i + 1)).1;
  }

  /** The lines of certificates are read back, but for error codes that are not known. */
  lemma {:induction false} CertsReadBack(c: Codec, certs: seq<Cert>, i: nat)
    requires IsBase64(c) && i <= |certs|
    ensures RestAt(CertLines(c, certs), 2 * i) == CertLines(c, certs[i..])
    ensures CertsOf(c, CertLines(c, certs), i) == Ok(KnownCerts(certs)[..i])
  {
    hide ReadLine, CertLines, KnownErr;
    if i == 0 {
      assert certs[0..] == certs;
    } else {
      CertsReadBack(c, certs, i - 1);
      CertStep(c, certs, i - 1);
      CertsNext(c, CertLines(c, certs), i - 1);
      assert KnownCerts(certs)[..i] == KnownCerts(certs)[..i - 1] + [KnownCert(certs[i - 1])];
    }
  }

  lemma CertStep(c: Codec, certs: seq<Cert>, i: nat)
    requires IsBase64(c) && i < |certs|
    ensures var (err, s) := ReadLine(CertLines(c, certs[i..]));
            var (der, t) := ReadLine(s);
            && err == Decimal(certs[i].err) && der == c.encode(certs[i].der) && t == CertLines(c, certs[i + 1..])
            && Scan(err) == Some(certs[i].err) && c.decode(der) == Some(certs[i].der)
            && (der == "" ==> certs[i].der == [])
  {
    var x := certs[i];
    assert certs[i..][0] == x && certs[i..][1..] == certs[i + 1..] && CodesWell(c, x.der);
    var tail := CertLines(c, certs[i + 1..]);
    AppendAssociates(Line(Decimal(x.err)), Line(c.encode(x.der)), tail);
    DecimalHasNoNul(x.err);
    ReadOneLine(Decimal(x.err), Line(c.encode(x.der)) + tail);
    ReadOneLine(c.encode(x.der), tail);
    ScanDecimal(x.err);
  }

  lemma DecimalHasNoNul(n: nat)
    ensures NoNul(Decimal(n))
  {
    assert !IsDigit(NUL);
  }

  /** The headers. */
  method ReadHeaders(text: string, count: nat) returns (read: seq<Header>, rest: string)
    ensures read == Headers(LinesAt(text, 0, count)) && rest == RestAt(text, count)
  {
    hide ReadLine, ProcessHeader;
    rest, read := text, [];
    var i := 0;
    while i < count
      invariant i <= count && rest == RestAt(text, i) && read == Headers(LinesAt(text, 0, i))
    {
      var (line, next) := ReadLine(rest);
      HeadersNext(text, i);
      read := ProcessHeader(read, line);
      rest := next;
      i := i + 1;
    }
  }

  lemma HeadersNext(s: string, i: nat)
    ensures Headers(LinesAt(s, 0, i + 1)) == ProcessHeader(Headers(LinesAt(s, 0, i)), ReadLine(RestAt(s, i)).0)
    ensures RestAt(s, i + 1) == ReadLine(RestAt(s, i)).1
  {
    hide ReadLine, ProcessHeader;
    var front, line := LinesAt(s, 0, i), LineAt(s, i);
    assert LinesAt(s, 0, i + 1) == front + [line];
    assert (front + [line])[..|front|] == front;
  }

  /** The lines of headers are read back, if these are in order. */
  lemma {:induction false} HeadersReadBack(headers: seq<Header>, tail: string, i: nat)
    requires HasHeaders(HeaderLines(headers) + tail, |headers|, headers, tail) && i <= |headers|
    ensures RestAt(HeaderLines(headers) + tail, i) == HeaderLines(headers[i..]) + tail
    ensures Headers(LinesAt(HeaderLines(headers) + tail, 0, i)) == headers[..i]
  {
    hide ReadLine, HeaderLines, ProcessHeader;
    if i == 0 {
      assert headers[0..] == headers;
    } else {
      HeadersReadBack(headers, tail, i - 1);
      HeaderStep(headers, i - 1, tail);
      HeadersNext(HeaderLines(headers) + tail, i - 1);
    }
  }

  /** The text has the lines of these headers, which are in order, and the tail. */
  ghost predicate HasHeaders(text: string, count: nat, headers: seq<Header>, tail: string) {
    && |headers| == count && text == HeaderLines(headers) + tail && ListIsClean(headers)
    && forall i :: 0 <= i < |headers| ==> NoNul(Written(headers[i]))
  }

  lemma HeaderStep(headers: seq<Header>, i: nat, tail: string)
    requires i < |headers| && ListIsClean(headers) && NoNul(Written(headers[i]))
    ensures var (line, next) := ReadLine(HeaderLines(headers[i..]) + tail);
            next == HeaderLines(headers[i + 1..]) + tail && ProcessHeader(headers[..i], line) == headers[..i + 1]
  {
    var h := headers[i];
    assert headers[i..][0] == h && headers[i..][1..] == headers[i + 1..];
    AppendAssociates(Line(Written(h)), HeaderLines(headers[i + 1..]), tail);
    ReadOneLine(Written(h), HeaderLines(headers[i + 1..]) + tail);
    ProcessClean(headers[..i], h);
    assert headers[..i] + [h] == headers[..i + 1];
  }

  /** The front of the text, line by line. */
  lemma FrontSteps(m: Meta, tail: string)
    requires NoNul(m.url)
    ensures var (url, s1) := ReadLine(FrontLines(m) + tail);
            var (size, s2) := ReadLine(s1);
            var (req, s3) := ReadLine(s2);
            var (res, s4) := ReadLine(s3);
            var (fin, s5) := ReadLine(s4);
            var (count, s6) := ReadLine(s5);
            && url == m.url && size == Decimal(m.size) && req == Decimal(m.reqTime) && res == Decimal(m.resTime)
            && fin == Decimal(m.finTime) && count == Decimal(|m.headers|) && s6 == tail
  {
    var t5 := Line(Decimal(|m.headers|)) + tail;
    var t4 := Line(Decimal(m.finTime)) + t5;
    var t3 := Line(Decimal(m.resTime)) + t4;
    var t2 := Line(Decimal(m.reqTime)) + t3;
    var t1 := Line(Decimal(m.size)) + t2;
    assert FrontLines(m) + tail == Line(m.url) + t1;
    DecimalHasNoNul(m.size);
    DecimalHasNoNul(m.reqTime);
    DecimalHasNoNul(m.resTime);
    DecimalHasNoNul(m.finTime);
    DecimalHasNoNul(|m.headers|);
    ReadOneLine(m.url, t1);
    ReadOneLine(Decimal(m.size), t2);
    ReadOneLine(Decimal(m.reqTime), t3);
    ReadOneLine(Decimal(m.resTime), t4);
    ReadOneLine(Decimal(m.finTime), t5);
    ReadOneLine(Decimal(|m.headers|), tail);
  }

  /** llcache_process_metadata, for the object with the given URL. If the text was
      written for `m`, that is what is read, but for error codes that are not known. */
  method ProcessMetadata(c: Codec, url: string, text: string, ghost m: Meta) returns (r: Result<Meta>)
    ensures IsBase64(c) && Readable(m) && url == m.url && text == Text(c, m)
        ==> r == Ok(m.(certs := KnownCerts(m.certs)))
    ensures r == MetaOf(c, url, text)
  {
    hide *;
    if IsBase64(c) && Readable(m) && url == m.url && text == Text(c, m) { ReadsWhatWasWritten(c, m); }
    FrontOf(text);
    var (name, s1) := ReadLine(text);
    if |name| < 7 {
      ShortName(c, url, text);
      return Err(Invalid);
    }
    if name != url {
      OtherName(c, url, text);
      return Err(BadUrl);
    }
    var (size, s2) := ReadLine(s1);
    var (req, s3) := ReadLine(s2);
    var (res, s4) := ReadLine(s3);
    var (fin, s5) := ReadLine(s4);
    var (count, s6) := ReadLine(s5);
    var n, t1, t2, t3, h := Scan(size), Scan(req), Scan(res), Scan(fin), Scan(count);
    if n.None? || t1.None? || t2.None? || t3.None? || h.None? {
      NoNumber(c, url, text);
      return Err(Invalid);
    }
    RightNumbers(c, url, text);
    var headers, rest := ReadHeaders(s6, h.value);
    var certs := ReadChain(c, rest);
    if certs.Err? { return Err(certs.error); }
    r := Ok(Meta(url, n.value, t1.value, t2.value, t3.value, headers, certs.value));
  }

  /** The lines in front, one after the other. */
  lemma FrontOf(s: string)
    ensures var (name, s1) := ReadLine(s);
            var (size, s2) := ReadLine(s1);
            var (req, s3) := ReadLine(s2);
            var (res, s4) := ReadLine(s3);
            var (fin, s5) := ReadLine(s4);
            var (count, s6) := ReadLine(s5);
            && LineAt(s, 0) == name && LineAt(s, 1) == size && LineAt(s, 2) == req && LineAt(s, 3) == res
            && LineAt(s, 4) == fin && LineAt(s, 5) == count && RestAt(s, 6) == s6
  {
    hide ReadLine;
    assert RestAt(s, 1) == ReadLine(s).1;
    assert RestAt(s, 2) == ReadLine(RestAt(s, 1)).1;
    assert RestAt(s, 3) == ReadLine(RestAt(s, 2)).1;
    assert RestAt(s, 4) == ReadLine(RestAt(s, 3)).1;
    assert RestAt(s, 5) == ReadLine(RestAt(s, 4)).1;
  }

  lemma ShortName(c: Codec, url: string, s: string)
    requires |LineAt(s, 0)| < 7
    ensures MetaOf(c, url, s) == Err(Invalid)
  {
    hide LineAt, RestAt, Scan;
  }

  lemma OtherName(c: Codec, url: string, s: string)
    requires |LineAt(s, 0)| >= 7 && LineAt(s, 0) != url
    ensures MetaOf(c, url, s) == Err(BadUrl)
  {
    hide LineAt, RestAt, Scan;
  }

  lemma NoNumber(c: Codec, url: string, s: string)
    requires |LineAt(s, 0)| >= 7 && LineAt(s, 0) == url
    requires Scan(LineAt(s, 1)).None? || Scan(LineAt(s, 2)).None? || Scan(LineAt(s, 3)).None? || Scan(LineAt(s, 4)).None?
             || Scan(LineAt(s, 5)).None?
    ensures MetaOf(c, url, s) == Err(Invalid)
  {
    hide LineAt, RestAt, Scan;
  }

  lemma RightNumbers(c: Codec, url: string, s: string)
    requires |LineAt(s, 0)| >= 7 && LineAt(s, 0) == url
    requires Scan(LineAt(s, 1)).Some? && Scan(LineAt(s, 2)).Some? && Scan(LineAt(s, 3)).Some? && Scan(LineAt(s, 4)).Some?
    requires Scan(LineAt(s, 5)).Some?
    ensures var n, rest := Scan(LineAt(s, 5)).value, RestAt(s, 6);
            var chain := ChainOf(c, RestAt(rest, n));
            MetaOf(c, url, s) ==
            if chain.Err? then Err(chain.error)
            else
              Ok(Meta(url, Scan(LineAt(s, 1)).value, Scan(LineAt(s, 2)).value, Scan(LineAt(s, 3)).value,
                      Scan(LineAt(s, 4)).value, Headers(LinesAt(rest, 0, n)), chain.value))
  {
    hide LineAt, RestAt, Scan, ChainOf, Headers, LinesAt;
    var n := Scan(LineAt(s, 5)).value;
    LinesOfRest(s, 6, n);
    RestOfRest(s, 6, n);
    assert forall i :: 1 <= i <= 5 ==> Scan(LineAt(s, i)).Some?;
  }

  lemma ScanAll(m: Meta)
    ensures Scan(Decimal(m.size)) == Some(m.size) && Scan(Decimal(m.reqTime)) == Some(m.reqTime)
    ensures Scan(Decimal(m.resTime)) == Some(m.resTime) && Scan(Decimal(m.finTime)) == Some(m.finTime)
    ensures Scan(Decimal(|m.headers|)) == Some(|m.headers|)
  {
    ScanDecimal(m.size);
    ScanDecimal(m.reqTime);
    ScanDecimal(m.resTime);
    ScanDecimal(m.finTime);
    ScanDecimal(|m.headers|);
  }

  /** What was written is read back, but for error codes that are not known. */
  lemma ReadsWhatWasWritten(c: Codec, m: Meta)
    requires IsBase64(c) && Readable(m)
    ensures MetaOf(c, m.url, Text(c, m)) == Ok(m.(certs := KnownCerts(m.certs)))
  {
    hide *;
    var certText := Line(Decimal(|m.certs|)) + CertLines(c, m.certs);
    var tail := HeaderLines(m.headers) + certText;
    var text := Text(c, m);
    TextParts(c, m);
    FrontSteps(m, tail);
    ScanAll(m);
    FrontOf(text);
    HeadersAreBack(m, certText);
    ChainReadsBack(c, m.certs);
    RightNumbers(c, m.url, text);
  }

  lemma TextParts(c: Codec, m: Meta)
    requires Readable(m)
    ensures var tail := HeaderLines(m.headers) + (Line(Decimal(|m.certs|)) + CertLines(c, m.certs));
            Text(c, m) == FrontLines(m) + tail
    ensures NoNul(m.url) && |m.url| >= 7 && |m.certs| <= MAX_CERT_DEPTH
  {
    hide HeaderLines, CertLines, FrontLines, Decimal;
    var a, b, d := FrontLines(m), HeaderLines(m.headers), Line(Decimal(|m.certs|)) + CertLines(c, m.certs);
    assert a + (b + d) == a + b + d;
    AppendAssociates(a + b, Line(Decimal(|m.certs|)), CertLines(c, m.certs));
  }

  lemma HeadersAreBack(m: Meta, certText: string)
    requires Readable(m)
    ensures var rest := HeaderLines(m.headers) + certText;
            Headers(LinesAt(rest, 0, |m.headers|)) == m.headers && RestAt(rest, |m.headers|) == certText
  {
    hide RestAt, LinesAt, Headers, HeaderLines;
    var n := |m.headers|;
    HeadersReadBack(m.headers, certText, n);
    assert m.headers[n..] == [] && m.headers[..n] == m.headers;
    NoLines(certText);
  }

  lemma NoLines(s: string)
    ensures HeaderLines([]) + s == s
  {
    assert [] + s == s;
  }

  /** The chain of certificates, which may be missing. */
  method ReadChain(c: Codec, text: string) returns (r: Result<seq<Cert>>)
    ensures r == ChainOf(c, text)
  {
    hide ReadLine, Scan, CertsOf;
    if text == "" { return Ok([]); }
    assert RestAt(text, 0) == text && RestAt(text, 1) == ReadLine(text).1;
    var (count, rest) := ReadLine(text);
    var n := Scan(count);
    if n.None? || n.value > MAX_CERT_DEPTH { return Err(Invalid); }
    r := ReadCerts(c, rest, n.value);
  }

  lemma ChainReadsBack(c: Codec, certs: seq<Cert>)
    requires IsBase64(c) && |certs| <= MAX_CERT_DEPTH
    ensures ChainOf(c, Line(Decimal(|certs|)) + CertLines(c, certs)) == Ok(KnownCerts(certs))
  {
    var count, tail := Decimal(|certs|), CertLines(c, certs);
    var text := Line(count) + tail;
    DecimalHasNoNul(|certs|);
    ScanDecimal(|certs|);
    ReadOneLine(count, tail);
    CertsReadBack(c, certs, |certs|);
    hide ReadLine, Scan, CertsOf, CertLines, Decimal;
    assert RestAt(text, 0) == text && RestAt(text, 1) == ReadLine(text).1;
    assert KnownCerts(certs)[..|certs|] == KnownCerts(certs);
    assert text != "";
  }

  /** What is read is what was written just if all error codes are known. Codes go up to
      CERT_MISSING, but the largest that is known is one less. */
  lemma ReadIsWrittenIff(m: Meta)
    ensures m.(certs := KnownCerts(m.certs)) == m <==> forall i :: 0 <= i < |m.certs| ==> m.certs[i].err <= CERT_MAX_KNOWN
  {
    var k := KnownCerts(m.certs);
    if forall i :: 0 <= i < |m.certs| ==> m.certs[i].err <= CERT_MAX_KNOWN {
      assert forall i :: 0 <= i < |k| ==> k[i] == m.certs[i];
      assert k == m.certs;
    } else {
      var i :| 0 <= i < |m.certs| && m.certs[i].err > CERT_MAX_KNOWN;
      assert k[i] != m.certs[i];
    }
  }

  lemma MissingIsNotKnown(der: seq<byte>)
    ensures KnownCert(Cert(CERT_MISSING, der)) == Cert(CERT_UNKNOWN, der)
  {
  }

  /** The metadata of an object that was fetched can be read back: its headers come from
      lines without white space in front. */
  lemma FetchedIsReadable(m: Meta, lines: seq<string>)
    requires m.headers == Headers(lines) && |m.url| >= 7 && NoNul(m.url) && |m.certs| <= MAX_CERT_DEPTH
    requires forall i :: 0 <= i < |lines| ==> NoNul(lines[i]) && (lines[i] == "" || !IsSpace(lines[i][0]))
    ensures Readable(m)
  {
    HeadersAreClean(lines);
    HeadersHaveNoNul(lines);
  }

  lemma {:induction false} HeadersHaveNoNul(lines: seq<string>)
    requires forall i :: 0 <= i < |lines| ==> NoNul(lines[i])
    ensures forall i :: 0 <= i < |Headers(lines)| ==> NoNul(Written(Headers(lines)[i]))
  {
    if lines != [] {
      var n := |lines| - 1;
      HeadersHaveNoNul(lines[..n]);
      SplitHasNoNul(lines[n]);
    }
  }

  lemma SplitHasNoNul(data: string)
    requires NoNul(data)
    ensures NoNul(Written(SplitLine(data)))
  {
    var h := SplitLine(data);
    assert NoNul(h.name) && NoNul(h.value);
  }
}
