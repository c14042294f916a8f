// Which requests `encode` accepts, and with which error it refuses the others,
// stated over their bytes (crates/locho-web/src/http.rs).

module HttpAcceptance {
  import opened Bytes
  import opened HttpText
  import opened HttpRequest

  // ----- the conditions -----

  predicate GoodMethod(m: Bytes) {
    m in [Ascii("GET"), Ascii("HEAD"), Ascii("POST"), Ascii("PUT"), Ascii("PATCH"), Ascii("DELETE"), Ascii("OPTIONS")]
  }

  // A body goes with any method but GET and HEAD.
  predicate GoodBody(m: Bytes, body: Bytes) {
    (m == Ascii("GET") || m == Ascii("HEAD")) ==> body == []
  }

  // Visible ASCII without '#' and '\', from one '/' on.
  predicate GoodPath(p: Bytes) {
    && p != [] && p[0] == '/' as int && (|p| > 1 ==> p[1] != '/' as int)
    && forall i :: 0 <= i < |p| ==> '!' as int <= p[i] <= '~' as int && p[i] != '#' as int && p[i] != '\\' as int
  }

  // Visible ASCII without '@', not ending in ':'.
  predicate GoodAuthority(a: Bytes) {
    && (forall i :: 0 <= i < |a| ==> '!' as int <= a[i] <= '~' as int && a[i] != '@' as int)
    && (a != [] ==> a[|a|-1] != ':' as int)
  }

  predicate Letter(b: Byte) {
    'A' as int <= b <= 'Z' as int || 'a' as int <= b <= 'z' as int || '0' as int <= b <= '9' as int
  }

  // The names a caller may not use.
  const RESERVED: seq<string> :=
    ["connection", "keep-alive", "proxy-authenticate", "proxy-authorization", "proxy-connection", "te", "trailer",
     "transfer-encoding", "upgrade", "host", "content-length", "expect", "accept-encoding"]

  // The same name, in whatever case.
  predicate Named(name: Bytes, lower: string) {
    |name| == |lower| && forall i :: 0 <= i < |name| ==>
      name[i] == lower[i] as int || ('a' <= lower[i] <= 'z' && name[i] == lower[i] as int - 32)
  }

  predicate GoodName(name: Bytes) {
    && 1 <= |name| <= 65535
    && (forall i :: 0 <= i < |name| ==>
          Letter(name[i]) || exists k :: 0 <= k < |MARKS| && name[i] == MARKS[k] as int)
    && (forall k :: 0 <= k < |RESERVED| ==> !Named(name, RESERVED[k]))
  }

  predicate GoodValue(value: Bytes) {
    forall i :: 0 <= i < |value| ==> value[i] == '\t' as int || ' ' as int <= value[i] <= '~' as int
  }

  predicate GoodHeader(f: Field) { GoodName(f.name) && GoodValue(f.value) }

  // ----- each condition is the check that is made -----

  lemma MethodIff(m: Bytes)
    ensures KnownMethod(m) <==> GoodMethod(m)
  {
    hide Ascii;
  }

  lemma PathIff(p: Bytes, pathOk: Bytes -> bool)
    ensures BadPath(p, pathOk) <==> !(GoodPath(p) && pathOk(p))
  {
  }

  lemma AuthorityIff(a: Bytes, authorityOk: Bytes -> bool)
    ensures BadAuthority(a, authorityOk) <==> !(GoodAuthority(a) && authorityOk(a))
  {
  }

  lemma TokenIff(s: Bytes)
    ensures IsToken(s) <==>
              s != [] && forall i :: 0 <= i < |s| ==>
                Letter(s[i]) || exists k :: 0 <= k < |MARKS| && s[i] == MARKS[k] as int
  {
    hide TokenByte;
    forall i | 0 <= i < |s|
      ensures TokenByte(s[i]) <==> Letter(s[i]) || exists k :: 0 <= k < |MARKS| && s[i] == MARKS[k] as int
    {
      TokenByteIff(s[i]);
    }
  }

  lemma NamedIff(name: Bytes, lower: string)
    requires forall i :: 0 <= i < |lower| ==> lower[i] < 128 as char && !('A' <= lower[i] <= 'Z')
    ensures Is(name, lower) <==> Named(name, lower)
  {
    hide Is;
    IsIff(name, lower);
  }

  lemma ReservedIff(name: Bytes)
    ensures (exists k :: 0 <= k < |RESERVED| && Named(name, RESERVED[k])) <==>
            || Hop(name) || Is(name, "host") || Is(name, "content-length")
            || Is(name, "expect") || Is(name, "accept-encoding")
  {
    hide Is, Named;
    NamedIff(name, "connection");
    NamedIff(name, "keep-alive");
    NamedIff(name, "proxy-authenticate");
    NamedIff(name, "proxy-authorization");
    NamedIff(name, "proxy-connection");
    NamedIff(name, "te");
    NamedIff(name, "trailer");
    NamedIff(name, "transfer-encoding");
    NamedIff(name, "upgrade");
    NamedIff(name, "host");
    NamedIff(name, "content-length");
    NamedIff(name, "expect");
    NamedIff(name, "accept-encoding");
    assert RESERVED[0] == "connection" && RESERVED[1] == "keep-alive" && RESERVED[2] == "proxy-authenticate";
    assert RESERVED[3] == "proxy-authorization" && RESERVED[4] == "proxy-connection" && RESERVED[5] == "te";
    assert RESERVED[6] == "trailer" && RESERVED[7] == "transfer-encoding" && RESERVED[8] == "upgrade";
    assert RESERVED[9] == "host" && RESERVED[10] == "content-length" && RESERVED[11] == "expect";
    assert RESERVED[12] == "accept-encoding" && |RESERVED| == 13;
  }

  lemma HeaderIff(f: Field)
    ensures BadHeader(f) <==> !GoodHeader(f)
  {
    hide Is, Hop, IsToken, Named, RESERVED;
    ReservedIff(f.name);
    TokenIff(f.name);
  }

  // ----- the headers and the head's size -----

  predicate GoodHeaders(headers: seq<Field>) {
    forall i :: 0 <= i < |headers| ==> GoodHeader(headers[i])
  }

  // The headers from `k` on are refused for the first that is bad while the head
  // still fits, and else for the head's size.
  lemma {:induction false} HeadersRefusedIff(headers: seq<Field>, k: nat, length: nat)
    requires k <= |headers| && length <= 65536
    ensures var r := HeaderRefusal(headers, k, length);
            && (r.None? <==> GoodHeaders(headers[k..]) && length + |FieldLines(headers[k..])| + 2 <= 65536)
            && (r == Some(InvalidHeader) <==>
                  exists j :: k <= j < |headers| && !GoodHeader(headers[j]) && GoodHeaders(headers[k..j])
                              && length + |FieldLines(headers[k..j])| <= 65536)
            && (r.Some? ==> r.value == InvalidHeader || r.value == RequestLimit)
    decreases |headers| - k
  {
    hide GoodHeader, BadHeader, FieldLine, FieldLines;
    if k == |headers| {
      assert headers[k..] == [];
      NoLines();
    } else {
      HeaderIff(headers[k]);
      FirstLine(headers, k);
      var next := length + |FieldLine(headers[k])|;
      if !GoodHeader(headers[k]) {
        assert headers[k..k] == [];
        NoLines();
        assert headers[k..][0] == headers[k];
      } else if next <= 65536 {
        HeadersRefusedIff(headers, k + 1, next);
        AllButFirst(headers, k, length);
      } else {
        TooLong(headers, k, length);
      }
    }
  }

  lemma NoLines()
    ensures FieldLines([]) == []
  {
  }

  lemma FirstLine(headers: seq<Field>, k: nat)
    requires k < |headers|
    ensures |FieldLines(headers[k..])| == |FieldLine(headers[k])| + |FieldLines(headers[k + 1..])|
    ensures GoodHeaders(headers[k..]) <==> GoodHeader(headers[k]) && GoodHeaders(headers[k + 1..])
    ensures forall j :: k < j <= |headers| ==>
              && |FieldLines(headers[k..j])| == |FieldLine(headers[k])| + |FieldLines(headers[k + 1..j])|
              && (GoodHeaders(headers[k..j]) <==> GoodHeader(headers[k]) && GoodHeaders(headers[k + 1..j]))
  {
    hide GoodHeader, FieldLine, FieldLines, GoodHeaders;
    forall j | k < j <= |headers|
      ensures |FieldLines(headers[k..j])| == |FieldLine(headers[k])| + |FieldLines(headers[k + 1..j])|
      ensures GoodHeaders(headers[k..j]) <==> GoodHeader(headers[k]) && GoodHeaders(headers[k + 1..j])
    {
      assert headers[k..j][1..] == headers[k + 1..j];
      Front(headers[k..j]);
    }
    assert headers[k..|headers|] == headers[k..] && headers[k + 1..|headers|] == headers[k + 1..];
  }

  lemma Front(fields: seq<Field>)
    requires fields != []
    ensures |FieldLines(fields)| == |FieldLine(fields[0])| + |FieldLines(fields[1..])|
    ensures GoodHeaders(fields) <==> GoodHeader(fields[0]) && GoodHeaders(fields[1..])
  {
    hide GoodHeader, FieldLine;
    assert fields == [fields[0]] + fields[1..];
  }

  // With the first header good, what is said from it on is what is said behind it.
  lemma AllButFirst(headers: seq<Field>, k: nat, length: nat)
    requires k < |headers| && GoodHeader(headers[k])
    ensures (exists j :: k <= j < |headers| && !GoodHeader(headers[j]) && GoodHeaders(headers[k..j])
                         && length + |FieldLines(headers[k..j])| <= 65536)
            <==> exists j :: k + 1 <= j < |headers| && !GoodHeader(headers[j]) && GoodHeaders(headers[k + 1..j])
                             && length + |FieldLine(headers[k])| + |FieldLines(headers[k + 1..j])| <= 65536
  {
    hide GoodHeader, FieldLine, FieldLines, GoodHeaders;
    FirstLine(headers, k);
  }

  // Once the head is too long, no later header is looked at.
  lemma TooLong(headers: seq<Field>, k: nat, length: nat)
    requires k < |headers| && GoodHeader(headers[k]) && length + |FieldLine(headers[k])| > 65536
    ensures forall j :: k <= j < |headers| && !GoodHeader(headers[j]) ==> length + |FieldLines(headers[k..j])| > 65536
  {
    hide GoodHeader, FieldLine, FieldLines, GoodHeaders;
    FirstLine(headers, k);
  }

  // ----- the theorems -----

  // The bytes before the body.
  function HeadBytes(r: Request, body: Bytes): nat { |Printed(r, body)| - |body| }

  lemma HeadBytesAre(r: Request, body: Bytes)
    ensures HeadBytes(r, body) == |Head(r, |body|)| + |FieldLines(r.headers)| + 2
  {
    hide Head, FieldLines;
  }

  // Everything that is checked before the headers.
  predicate GoodLine(r: Request, body: Bytes, pathOk: Bytes -> bool, authorityOk: Bytes -> bool) {
    && 1 <= r.timeoutMs <= 300_000 && GoodMethod(r.verb)
    && |body| <= 4_194_304 && GoodBody(r.verb, body)
    && GoodPath(r.path) && pathOk(r.path)
    && GoodAuthority(r.authority) && authorityOk(r.authority)
    && |r.headers| <= 96
  }

  // The head without the caller's headers may itself be over the limit.
  lemma LongStart(headers: seq<Field>, length: nat)
    requires length > 65536
    ensures var r := HeaderRefusal(headers, 0, length);
            r == Some(if headers != [] && !GoodHeader(headers[0]) then InvalidHeader else RequestLimit)
  {
    hide GoodHeader, BadHeader, FieldLine;
    if headers != [] {
      HeaderIff(headers[0]);
    }
  }

  // A request is accepted if and only if its timeout is 1 to 300000 ms, its method
  // is one of the seven, its body is at most 4 MiB and empty for GET and HEAD, its
  // path and authority are in order byte by byte and to the URI library, it has at
  // most 96 headers, each a token outside the thirteen reserved names with a
  // printable value, and the printed head takes at most 64 KiB.
  lemma AcceptedIff(r: Request, body: Bytes, pathOk: Bytes -> bool, authorityOk: Bytes -> bool)
    ensures Refusal(r, body, pathOk, authorityOk).None? <==>
              GoodLine(r, body, pathOk, authorityOk) && GoodHeaders(r.headers) && HeadBytes(r, body) <= 65_536
  {
    hide KnownMethod, GoodMethod, BadPath, GoodPath, BadAuthority, GoodAuthority, Head, FieldLines, GoodHeaders;
    MethodIff(r.verb);
    PathIff(r.path, pathOk);
    AuthorityIff(r.authority, authorityOk);
    HeadBytesAre(r, body);
    var length := |Head(r, |body|)|;
    assert r.headers[0..] == r.headers;
    if length <= 65536 {
      HeadersRefusedIff(r.headers, 0, length);
    } else {
      LongStart(r.headers, length);
    }
  }

  // A refusal names the first condition that fails.
  lemma RefusedWith(r: Request, body: Bytes, pathOk: Bytes -> bool, authorityOk: Bytes -> bool)
    requires !GoodLine(r, body, pathOk, authorityOk)
    ensures Refusal(r, body, pathOk, authorityOk) == Some(
              if !(1 <= r.timeoutMs <= 300_000) then InvalidTimeout
              else if !GoodMethod(r.verb) then InvalidMethod
              else if |body| > 4_194_304 then RequestLimit
              else if !GoodBody(r.verb, body) then InvalidBody
              else if !(GoodPath(r.path) && pathOk(r.path)) then InvalidPath
              else if !(GoodAuthority(r.authority) && authorityOk(r.authority)) then InvalidAuthority
              else RequestLimit)
  {
    hide KnownMethod, GoodMethod, BadPath, GoodPath, BadAuthority, GoodAuthority, HeaderRefusal, Head;
    MethodIff(r.verb);
    PathIff(r.path, pathOk);
    AuthorityIff(r.authority, authorityOk);
  }

  // Behind them, it is the first bad header if that is the first of all or comes
  // before the head is too long, and else the head's length.
  lemma HeaderRefusedWith(r: Request, body: Bytes, pathOk: Bytes -> bool, authorityOk: Bytes -> bool)
    requires GoodLine(r, body, pathOk, authorityOk)
    ensures var e := Refusal(r, body, pathOk, authorityOk);
            && (e == Some(InvalidHeader) <==>
                  exists j :: 0 <= j < |r.headers| && !GoodHeader(r.headers[j]) && GoodHeaders(r.headers[0..j])
                              && (j == 0 || |Head(r, |body|)| + |FieldLines(r.headers[0..j])| <= 65_536))
            && (e.Some? ==> e == Some(InvalidHeader) || e == Some(RequestLimit))
  {
    hide KnownMethod, GoodMethod, BadPath, GoodPath, BadAuthority, GoodAuthority, Head, FieldLines, GoodHeader;
    MethodIff(r.verb);
    PathIff(r.path, pathOk);
    AuthorityIff(r.authority, authorityOk);
    NoLines();
    assert r.headers[0..0] == [];
    var length := |Head(r, |body|)|;
    if length <= 65536 {
      HeadersRefusedIff(r.headers, 0, length);
    } else {
      LongStart(r.headers, length);
    }
  }
}
