// Requests: what `encode` prints, and what a server reading it by sections 3 and
// 5 of RFC 9112 gets back (crates/locho-web/src/http.rs).

module HttpRequest {
  import opened Bytes
  import opened HttpText
  import HttpBody
  import HttpGrammar

  const MAX_REQUEST: nat := 4 * 1024 * 1024
  const MAX_NAME: nat := 65535

  datatype Request = Request(verb: Bytes, path: Bytes, authority: Bytes, headers: seq<Field>, timeoutMs: nat)

  datatype EncodeError =
    | InvalidTimeout | InvalidMethod | RequestLimit | InvalidBody | InvalidPath | InvalidAuthority | InvalidHeader

  // ----- what is printed -----

  function FieldLine(f: Field): Bytes {
    f.name + [COLON, SP] + f.value + CRLF
  }

  function FieldLines(fields: seq<Field>): Bytes {
    if fields == [] then [] else FieldLine(fields[0]) + FieldLines(fields[1..])
  }

  function OwnFields(authority: Bytes, length: nat): seq<Field> {
    [Field(Ascii("Host"), authority),
     Field(Ascii("Connection"), Ascii("close")),
     Field(Ascii("Accept-Encoding"), Ascii("identity")),
     Field(Ascii("Content-Length"), DecText(length))]
  }

  function RequestLine(r: Request): Bytes {
    r.verb + [SP] + r.path + [SP] + Ascii("HTTP/1.1")
  }

  function Head(r: Request, length: nat): Bytes {
    RequestLine(r) + CRLF + FieldLines(OwnFields(r.authority, length))
  }

  function Printed(r: Request, body: Bytes): Bytes {
    Head(r, |body|) + FieldLines(r.headers) + CRLF + body
  }

  // ----- what is refused -----

  predicate KnownMethod(m: Bytes) {
    || m == Ascii("GET") || m == Ascii("HEAD") || m == Ascii("POST") || m == Ascii("PUT")
    || m == Ascii("PATCH") || m == Ascii("DELETE") || m == Ascii("OPTIONS")
  }

  predicate BadPath(p: Bytes, pathOk: Bytes -> bool) {
    || p == [] || p[0] != 47
    || (|p| >= 2 && p[1] == 47)
    || (exists i :: 0 <= i < |p| && (p[i] <= 32 || p[i] >= 127 || p[i] == 35 || p[i] == 92))
    || !pathOk(p)
  }

  predicate BadAuthority(a: Bytes, authorityOk: Bytes -> bool) {
    || !authorityOk(a)
    || (exists i :: 0 <= i < |a| && (a[i] <= 32 || a[i] >= 127 || a[i] == 64))
    || (a != [] && a[|a|-1] == COLON)
  }

  predicate BadHeader(f: Field) {
    || Hop(f.name)
    || Is(f.name, "host") || Is(f.name, "content-length") || Is(f.name, "expect") || Is(f.name, "accept-encoding")
    || !IsToken(f.name) || |f.name| > MAX_NAME
    || !Printable(f.value)
  }

  // The first refusal among the headers from `k` on, `length` bytes printed so far.
  function HeaderRefusal(headers: seq<Field>, k: nat, length: nat): Option<EncodeError>
    requires k <= |headers|
    decreases |headers| - k
  {
    if k == |headers| then (if length + 2 > MAX_HEAD then Some(RequestLimit) else None)
    else if BadHeader(headers[k]) then Some(InvalidHeader)
    else if length + |FieldLine(headers[k])| > MAX_HEAD then Some(RequestLimit)
    else HeaderRefusal(headers, k + 1, length + |FieldLine(headers[k])|)
  }

  // Checks in the order they are made. `pathOk` and `authorityOk` stand for the
  // URI library's own parsers.
  function Refusal(r: Request, body: Bytes, pathOk: Bytes -> bool, authorityOk: Bytes -> bool): Option<EncodeError> {
    if !(1 <= r.timeoutMs <= 300_000) then Some(InvalidTimeout)
    else if !KnownMethod(r.verb) then Some(InvalidMethod)
    else if |body| > MAX_REQUEST then Some(RequestLimit)
    else if (r.verb == Ascii("GET") || r.verb == Ascii("HEAD")) && body != [] then Some(InvalidBody)
    else if BadPath(r.path, pathOk) then Some(InvalidPath)
    else if BadAuthority(r.authority, authorityOk) then Some(InvalidAuthority)
    else if |r.headers| + 4 > MAX_FIELDS then Some(RequestLimit)
    else HeaderRefusal(r.headers, 0, |Head(r, |body|)|)
  }

  lemma {:induction false} FieldLinesAppend(a: seq<Field>, b: seq<Field>)
    ensures FieldLines(a + b) == FieldLines(a) + FieldLines(b)
  {
    hide FieldLine;
    if a == [] {
      assert a + b == b;
    } else {
      assert (a + b)[1..] == a[1..] + b;
      FieldLinesAppend(a[1..], b);
    }
  }

  lemma FieldLinesNext(headers: seq<Field>, k: nat)
    requires k < |headers|
    ensures FieldLines(headers[..k + 1]) == FieldLines(headers[..k]) + FieldLine(headers[k])
  {
    hide FieldLine;
    assert headers[..k + 1] == headers[..k] + [headers[k]];
    FieldLinesAppend(headers[..k], [headers[k]]);
    assert FieldLines([headers[k]]) == FieldLine(headers[k]) + [];
  }

  // It refuses exactly as listed, and otherwise prints the whole request.
  method Encode(r: Request, body: Bytes, pathOk: Bytes -> bool, authorityOk: Bytes -> bool)
      returns (out: Result<Bytes, EncodeError>)
    ensures match Refusal(r, body, pathOk, authorityOk)
            case Some(e) => out == Err(e)
            case None => out == Ok(Printed(r, body))
  {
    hide KnownMethod, BadPath, BadAuthority, BadHeader, FieldLine, FieldLines, Head;
    if !(1 <= r.timeoutMs <= 300_000) {
      return Err(InvalidTimeout);
    }
    if !KnownMethod(r.verb) {
      return Err(InvalidMethod);
    }
    if |body| > MAX_REQUEST {
      return Err(RequestLimit);
    }
    if (r.verb == Ascii("GET") || r.verb == Ascii("HEAD")) && body != [] {
      return Err(InvalidBody);
    }
    if BadPath(r.path, pathOk) {
      return Err(InvalidPath);
    }
    if BadAuthority(r.authority, authorityOk) {
      return Err(InvalidAuthority);
    }
    if |r.headers| + 4 > MAX_FIELDS {
      return Err(RequestLimit);
    }
    var start := Head(r, |body|);
    var text := start;
    NoFieldLines(r.headers, start);
    for k := 0 to |r.headers|
      invariant text == start + FieldLines(r.headers[..k])
      invariant HeaderRefusal(r.headers, 0, |start|) == HeaderRefusal(r.headers, k, |text|)
    {
      if BadHeader(r.headers[k]) {
        return Err(InvalidHeader);
      }
      FieldLinesNext(r.headers, k);
      assert text + FieldLine(r.headers[k]) == start + FieldLines(r.headers[..k + 1]);
      text := text + FieldLine(r.headers[k]);
      if |text| > MAX_HEAD {
        return Err(RequestLimit);
      }
    }
    assert r.headers[..|r.headers|] == r.headers;
    text := text + CRLF;
    if |text| > MAX_HEAD {
      return Err(RequestLimit);
    }
    return Ok(text + body);
  }

  lemma NoFieldLines(headers: seq<Field>, start: Bytes)
    ensures start == start + FieldLines(headers[..0])
  {
  }

  // ----- what a server reads -----

  datatype Parsed = Parsed(verb: Bytes, target: Bytes, fields: seq<Field>, body: Bytes, rest: Bytes)

  // One line without its CRLF, and what follows.
  function NextLine(input: Bytes): Option<(Bytes, Bytes)> {
    match HttpBody.TakeLine(input, |input|, HttpBody.EndOfStream)
    case NoLine(_) => None
    case Line(text, rest) => Some((text[..|text|-2], rest))
  }

  // A field line: a token, a colon, and a value between optional whitespace.
  function ParseField(line: Bytes): Option<Field> {
    var k := First(COLON, line);
    if k == |line| || !IsToken(line[..k]) then None
    else Some(Field(line[..k], Trim(line[k + 1..])))
  }

  datatype ParsedFields = Fields(fields: seq<Field>, rest: Bytes) | NoFields

  function ParseFields(input: Bytes): ParsedFields
    decreases |input|
  {
    var next := NextLine(input);
    if next.None? then NoFields
    else if next.value.0 == [] then Fields([], next.value.1)
    else
      var field := ParseField(next.value.0);
      if field.None? then NoFields
      else match ParseFields(next.value.1)
        case NoFields => NoFields
        case Fields(more, rest) => Fields([field.value] + more, rest)
  }

  function Named(fields: seq<Field>, lower: string): seq<Field> {
    if fields == [] then []
    else (if Is(fields[0].name, lower) then [fields[0]] else []) + Named(fields[1..], lower)
  }

  // The request line: method, target and version between single spaces.
  function SplitLine(text: Bytes): Option<(Bytes, Bytes)> {
    var a := First(SP, text);
    if a == |text| then None
    else
      var after := text[a + 1..];
      var b := First(SP, after);
      if b == |after| || after[b + 1..] != Ascii("HTTP/1.1") then None else Some((text[..a], after[..b]))
  }

  // Exactly one Host, no transfer coding, and one Content-Length.
  function BodyLength(fields: seq<Field>): Option<nat> {
    var lengths := Named(fields, "content-length");
    if |Named(fields, "host")| != 1 || |Named(fields, "transfer-encoding")| != 0 || |lengths| != 1
       || !IsDigits(lengths[0].value) then None
    else Some(DecValue(lengths[0].value))
  }

  function ParseRequest(input: Bytes): Option<Parsed> {
    var line := NextLine(input);
    if line.None? then None
    else
      var parts := SplitLine(line.value.0);
      if parts.None? then None
      else match ParseFields(line.value.1)
        case NoFields => None
        case Fields(fields, rest) =>
          var length := BodyLength(fields);
          if length.None? || length.value > |rest| then None
          else Some(Parsed(parts.value.0, parts.value.1, fields, rest[..length.value], rest[length.value..]))
  }

  // ----- reading back -----

  function Trimmed(fields: seq<Field>): seq<Field> {
    seq(|fields|, i requires 0 <= i < |fields| => Field(fields[i].name, Trim(fields[i].value)))
  }

  // Text that stays on its line.
  predicate OneLine(s: Bytes) {
    forall i :: 0 <= i < |s| ==> s[i] != LF
  }

  predicate Sendable(f: Field) {
    IsToken(f.name) && OneLine(f.value)
  }

  lemma LineBack(text: Bytes, rest: Bytes)
    requires OneLine(text)
    ensures NextLine(text + CRLF + rest) == Some((text, rest))
  {
    var input := text + CRLF + rest;
    assert LF !in text;
    HttpGrammar.LineTaken(text, rest, |input|, HttpBody.EndOfStream);
    assert (text + CRLF)[..|text|] == text;
  }

  lemma FieldBack(f: Field)
    requires Sendable(f)
    ensures var line := f.name + [COLON, SP] + f.value;
            && OneLine(line) && line != []
            && ParseField(line) == Some(Field(f.name, Trim(f.value)))
  {
    var line := f.name + [COLON, SP] + f.value;
    assert forall i :: 0 <= i < |line| ==>
      line[i] == if i < |f.name| then f.name[i] else if i == |f.name| then COLON
                 else if i == |f.name| + 1 then SP else f.value[i - |f.name| - 2];
    FirstIff(COLON, line, |f.name|);
    assert line[..|f.name|] == f.name;
    assert line[|f.name| + 1..] == [SP] + f.value;
    TrimSpace(f.value);
  }

  lemma {:induction false} FieldsBack(fields: seq<Field>, rest: Bytes)
    requires forall i :: 0 <= i < |fields| ==> Sendable(fields[i])
    ensures ParseFields(FieldLines(fields) + CRLF + rest) == Fields(Trimmed(fields), rest)
    decreases |fields|
  {
    hide ParseField, NextLine, Trim, Sendable;
    var input := FieldLines(fields) + CRLF + rest;
    if fields == [] {
      assert input == [] + CRLF + rest;
      LineBack([], rest);
    } else {
      var f := fields[0];
      var line := f.name + [COLON, SP] + f.value;
      var later := FieldLines(fields[1..]) + CRLF + rest;
      assert input == line + CRLF + later;
      FieldBack(f);
      LineBack(line, later);
      FieldsBack(fields[1..], rest);
      assert Trimmed(fields) == [Field(f.name, Trim(f.value))] + Trimmed(fields[1..]);
    }
  }

  // ----- the fields encode adds itself -----

  predicate Safe(fields: seq<Field>) {
    forall i :: 0 <= i < |fields| ==> !BadHeader(fields[i])
  }

  lemma {:induction false} NotNamed(fields: seq<Field>, lower: string)
    requires forall i :: 0 <= i < |fields| ==> !Is(fields[i].name, lower)
    ensures Named(fields, lower) == []
  {
    if fields != [] {
      NotNamed(fields[1..], lower);
    }
  }

  lemma {:induction false} NamedAppend(a: seq<Field>, b: seq<Field>, lower: string)
    ensures Named(a + b, lower) == Named(a, lower) + Named(b, lower)
  {
    hide Is;
    if a == [] {
      assert a + b == b;
    } else {
      assert (a + b)[1..] == a[1..] + b;
      NamedAppend(a[1..], b, lower);
    }
  }

  lemma TrimmedAppend(a: seq<Field>, b: seq<Field>)
    ensures Trimmed(a + b) == Trimmed(a) + Trimmed(b)
  {
    hide Trim;
  }

  // Of the names a caller may not use, only encode's own copy is printed.
  lemma CallerFieldsNamed(headers: seq<Field>)
    requires Safe(headers)
    ensures Named(Trimmed(headers), "host") == []
    ensures Named(Trimmed(headers), "content-length") == []
    ensures Named(Trimmed(headers), "transfer-encoding") == []
  {
    hide Trim, Is, IsToken;
    NotNamed(Trimmed(headers), "host");
    NotNamed(Trimmed(headers), "content-length");
    NotNamed(Trimmed(headers), "transfer-encoding");
  }

  lemma OwnNames(authority: Bytes, length: nat)
    ensures var own := OwnFields(authority, length);
            && Is(own[0].name, "host") && Is(own[3].name, "content-length")
            && |own[0].name| == 4 && |own[1].name| == 10 && |own[2].name| == 15 && |own[3].name| == 14
  {
    hide DecText;
  }

  lemma OwnTight(authority: Bytes, length: nat)
    requires Tight(authority)
    ensures Trimmed(OwnFields(authority, length)) == OwnFields(authority, length)
  {
    TrimIff(authority);
    TrimIff(Ascii("close"));
    TrimIff(Ascii("identity"));
    TrimIff(DecText(length));
    hide Trim, DecText;
    var own := OwnFields(authority, length);
    assert forall i :: 0 <= i < 4 ==> Trim(own[i].value) == own[i].value;
  }

  // The only field of that name, wherever it stands.
  lemma PickOne(fields: seq<Field>, k: nat, lower: string)
    requires k < |fields| && Is(fields[k].name, lower)
    requires forall i :: 0 <= i < |fields| && i != k ==> !Is(fields[i].name, lower)
    ensures Named(fields, lower) == [fields[k]]
  {
    hide Is;
    var before, after := fields[..k], fields[k + 1..];
    assert fields == (before + [fields[k]]) + after;
    NamedAppend(before + [fields[k]], after, lower);
    NamedAppend(before, [fields[k]], lower);
    NotNamed(before, lower);
    NotNamed(after, lower);
    assert [fields[k]][1..] == [];
  }

  lemma OwnFieldsNamed(authority: Bytes, length: nat)
    ensures var own := OwnFields(authority, length);
            && Named(own, "host") == [own[0]]
            && Named(own, "content-length") == [own[3]]
            && Named(own, "transfer-encoding") == []
  {
    hide Named, OwnFields;
    OwnNames(authority, length);
    var own := OwnFields(authority, length);
    OwnCount(authority, length);
    PickOne(own, 0, "host");
    PickOne(own, 3, "content-length");
    NotNamed(own, "transfer-encoding");
  }

  lemma OwnCount(authority: Bytes, length: nat)
    ensures |OwnFields(authority, length)| == 4
    ensures OwnFields(authority, length)[0] == Field(Ascii("Host"), authority)
    ensures OwnFields(authority, length)[3] == Field(Ascii("Content-Length"), DecText(length))
  {
    hide DecText, Ascii;
  }

  // ----- the round trip -----

  lemma HeaderRefusalSafe(headers: seq<Field>, k: nat, length: nat)
    requires k <= |headers| && HeaderRefusal(headers, k, length).None?
    ensures Safe(headers[k..])
    decreases |headers| - k
  {
    hide BadHeader, FieldLine;
    if k < |headers| {
      HeaderRefusalSafe(headers, k + 1, length + |FieldLine(headers[k])|);
      assert headers[k..] == [headers[k]] + headers[k + 1..];
    }
  }

  lemma SafeSendable(f: Field)
    requires !BadHeader(f)
    ensures Sendable(f)
  {
    hide Is, IsToken;
  }

  lemma OwnSendable(authority: Bytes, length: nat)
    requires OneLine(authority)
    ensures forall i :: 0 <= i < 4 ==> Sendable(OwnFields(authority, length)[i])
  {
    var own := OwnFields(authority, length);
    assert Sendable(own[0]) && Sendable(own[1]);
    assert Sendable(own[2]);
    assert Sendable(own[3]);
  }

  lemma SpaceSplits(word: Bytes, after: Bytes)
    requires NoneBefore(SP, word, |word|)
    ensures var text := word + [SP] + after;
            First(SP, text) == |word| && text[..|word|] == word && text[|word| + 1..] == after
  {
    FirstIff(SP, word + [SP] + after, |word|);
  }

  // The request line splits at its two spaces.
  lemma LineSplits(verb: Bytes, path: Bytes)
    requires NoneBefore(SP, verb, |verb|) && NoneBefore(SP, path, |path|)
    ensures SplitLine(verb + [SP] + path + [SP] + Ascii("HTTP/1.1")) == Some((verb, path))
  {
    hide Ascii;
    var version := Ascii("HTTP/1.1");
    var after := path + [SP] + version;
    assert verb + [SP] + path + [SP] + version == verb + [SP] + after;
    SpaceSplits(verb, after);
    SpaceSplits(path, version);
  }

  lemma CleanParts(r: Request, body: Bytes, pathOk: Bytes -> bool, authorityOk: Bytes -> bool)
    requires Refusal(r, body, pathOk, authorityOk).None?
    ensures NoneBefore(SP, r.verb, |r.verb|) && NoneBefore(SP, r.path, |r.path|)
    ensures OneLine(r.verb) && OneLine(r.path) && OneLine(r.authority) && Tight(r.authority)
    ensures Safe(r.headers)
  {
    hide BadHeader, Head, Safe;
    CleanVerb(r.verb);
    HeaderRefusalSafe(r.headers, 0, |Head(r, |body|)|);
    assert r.headers[0..] == r.headers;
  }

  lemma CleanVerb(verb: Bytes)
    requires KnownMethod(verb)
    ensures forall i :: 0 <= i < |verb| ==> 65 <= verb[i] <= 90
  {
  }

  predicate Clean(r: Request) {
    && NoneBefore(SP, r.verb, |r.verb|) && NoneBefore(SP, r.path, |r.path|)
    && OneLine(r.verb) && OneLine(r.path) && OneLine(r.authority) && Tight(r.authority)
    && Safe(r.headers)
  }

  // What a reader should get: headers in order, without whitespace around values.
  function ReadBack(r: Request, body: Bytes): Parsed {
    Parsed(r.verb, r.path, OwnFields(r.authority, |body|) + Trimmed(r.headers), body, [])
  }

  lemma PrintedReadsBack(r: Request, body: Bytes)
    requires Clean(r)
    ensures ParseRequest(Printed(r, body)) == Some(ReadBack(r, body))
  {
    hide Trim, Trimmed, OwnFields, FieldLines, Sendable, Safe, NextLine, SplitLine, ParseFields, Ascii, BodyLength;
    var line, own := RequestLine(r), OwnFields(r.authority, |body|);
    var all := own + r.headers;
    LineSplits(r.verb, r.path);
    LineClean(r);
    FieldLinesAppend(own, r.headers);
    var tail := FieldLines(all) + CRLF + body;
    assert Printed(r, body) == line + CRLF + tail;
    LineBack(line, tail);
    AllSendable(r.authority, |body|, r.headers);
    FieldsBack(all, body);
    TrimmedAppend(own, r.headers);
    OwnTight(r.authority, |body|);
    LengthBack(r.authority, |body|, r.headers);
    assert body[..|body|] == body && body[|body|..] == [];
  }

  lemma LengthBack(authority: Bytes, length: nat, headers: seq<Field>)
    requires Safe(headers)
    ensures BodyLength(OwnFields(authority, length) + Trimmed(headers)) == Some(length)
  {
    hide OwnFields, Named, Trimmed, Safe;
    AllNamed(authority, length, headers);
    OwnCount(authority, length);
  }

  // Every accepted request reads back as its own method, path, authority and
  // body with nothing left over: its headers in order, behind encode's four.
  lemma EncodeReadsBack(r: Request, body: Bytes, pathOk: Bytes -> bool, authorityOk: Bytes -> bool)
    requires Refusal(r, body, pathOk, authorityOk).None?
    ensures ParseRequest(Printed(r, body)) == Some(ReadBack(r, body))
  {
    hide ParseRequest, Printed, ReadBack, Refusal, Safe;
    CleanParts(r, body, pathOk, authorityOk);
    PrintedReadsBack(r, body);
  }

  // Among all fields printed there is one Host, the authority, and one
  // Content-Length, the body's length.
  lemma OneHostOneLength(r: Request, body: Bytes, pathOk: Bytes -> bool, authorityOk: Bytes -> bool)
    requires Refusal(r, body, pathOk, authorityOk).None?
    ensures Named(ReadBack(r, body).fields, "host") == [Field(Ascii("Host"), r.authority)]
    ensures Named(ReadBack(r, body).fields, "content-length") == [Field(Ascii("Content-Length"), DecText(|body|))]
  {
    hide Named, OwnFields, Trimmed, Refusal, Safe, Ascii, DecText;
    CleanParts(r, body, pathOk, authorityOk);
    AllNamed(r.authority, |body|, r.headers);
    OwnCount(r.authority, |body|);
  }

  lemma LineClean(r: Request)
    requires OneLine(r.verb) && OneLine(r.path)
    ensures OneLine(RequestLine(r))
  {
  }

  lemma AllSendable(authority: Bytes, length: nat, headers: seq<Field>)
    requires OneLine(authority) && Safe(headers)
    ensures var all := OwnFields(authority, length) + headers;
            forall i :: 0 <= i < |all| ==> Sendable(all[i])
  {
    hide OwnFields, Sendable, BadHeader;
    OwnCount(authority, length);
    OwnSendable(authority, length);
    forall i | 0 <= i < |headers| ensures Sendable(headers[i]) {
      SafeSendable(headers[i]);
    }
  }

  lemma AllNamed(authority: Bytes, length: nat, headers: seq<Field>)
    requires Safe(headers)
    ensures var own := OwnFields(authority, length); var fields := own + Trimmed(headers);
            && Named(fields, "host") == [own[0]]
            && Named(fields, "content-length") == [own[3]]
            && Named(fields, "transfer-encoding") == []
  {
    hide OwnFields, Named, Trimmed, Safe;
    var own := OwnFields(authority, length);
    OwnCount(authority, length);
    OwnFieldsNamed(authority, length);
    CallerFieldsNamed(headers);
    NamedAppend(own, Trimmed(headers), "host");
    NamedAppend(own, Trimmed(headers), "content-length");
    NamedAppend(own, Trimmed(headers), "transfer-encoding");
  }

  lemma TrimmedIff(headers: seq<Field>)
    ensures Trimmed(headers) == headers <==> forall i :: 0 <= i < |headers| ==> Tight(headers[i].value)
  {
    hide Trim, Tight;
    forall i | 0 <= i < |headers| ensures Trim(headers[i].value) == headers[i].value <==> Tight(headers[i].value) {
      TrimIff(headers[i].value);
    }
    if Trimmed(headers) == headers {
      forall i | 0 <= i < |headers| ensures Tight(headers[i].value) {
        assert Trimmed(headers)[i] == headers[i];
      }
    }
  }

  // Of every accepted request the caller's headers read back exactly as given if
  // and only if no value starts or ends with a space or a tab; `encode` does not
  // refuse such values.
  lemma HeadersExactIff(r: Request, body: Bytes, pathOk: Bytes -> bool, authorityOk: Bytes -> bool)
    requires Refusal(r, body, pathOk, authorityOk).None?
    ensures ParseRequest(Printed(r, body)).Some?
    ensures ParseRequest(Printed(r, body)).value.fields == OwnFields(r.authority, |body|) + r.headers
            <==> forall i :: 0 <= i < |r.headers| ==> Tight(r.headers[i].value)
  {
    hide ParseRequest, Printed, Refusal, OwnFields, Trimmed, Tight;
    EncodeReadsBack(r, body, pathOk, authorityOk);
    TrimmedIff(r.headers);
    SameTail(OwnFields(r.authority, |body|), Trimmed(r.headers), r.headers);
  }

  lemma SameTail(own: seq<Field>, a: seq<Field>, b: seq<Field>)
    ensures own + a == own + b <==> a == b
  {
    if own + a == own + b {
      assert a == (own + a)[|own|..] && b == (own + b)[|own|..];
    }
  }

  // ----- a request that reads back differently -----

  const Padded: Request := Request(Ascii("GET"), [47], [97], [Field([120], [SP, 65])], 1)

  lemma FieldLinesLength(fields: seq<Field>)
    ensures fields != [] ==>
              |FieldLines(fields)| == |fields[0].name| + |fields[0].value| + 4 + |FieldLines(fields[1..])|
  {
  }

  lemma OwnLength(authority: Bytes, length: nat)
    ensures |FieldLines(OwnFields(authority, length))| == |authority| + |DecText(length)| + 72
  {
    hide FieldLines, DecText, Ascii;
    var own := OwnFields(authority, length);
    assert own[1..] == [own[1], own[2], own[3]] && own[1..][1..] == [own[2], own[3]];
    assert own[1..][1..][1..] == [own[3]] && own[1..][1..][1..][1..] == [];
    FieldLinesLength(own);
    FieldLinesLength(own[1..]);
    FieldLinesLength(own[1..][1..]);
    FieldLinesLength(own[1..][1..][1..]);
    assert |FieldLines([])| == 0 by { NoFieldLines([], []); }
  }

  lemma PaddedHeaderAccepted(length: nat)
    requires length < 1000
    ensures HeaderRefusal(Padded.headers, 0, length).None?
  {
    hide FieldLine;
    assert Padded.headers[0] == Field([120], [SP, 65]);
    assert |FieldLine(Padded.headers[0])| == 7 by { PaddedLine(); }
    assert !BadHeader(Padded.headers[0]);
    assert HeaderRefusal(Padded.headers, 1, length + 7).None?;
  }

  lemma PaddedLine()
    ensures |FieldLine(Padded.headers[0])| == 7
  {
  }

  lemma PaddedAccepted()
    ensures Refusal(Padded, [], _ => true, _ => true).None?
  {
    hide HeaderRefusal, FieldLines, OwnFields;
    OwnLength(Padded.authority, 0);
    assert |Head(Padded, 0)| < 1000;
    PaddedHeaderAccepted(|Head(Padded, 0)|);
  }

  // `encode` accepts a GET of "/" with a header whose value starts with a space,
  // and a server reads another value.
  lemma PaddedValueChanges()
    ensures Refusal(Padded, [], _ => true, _ => true).None?
    ensures var read := ParseRequest(Printed(Padded, []));
            read.Some? && read.value.fields != OwnFields(Padded.authority, 0) + Padded.headers
  {
    hide Refusal, ParseRequest, Printed, OwnFields;
    PaddedAccepted();
    HeadersExactIff(Padded, [], _ => true, _ => true);
    assert !Tight(Padded.headers[0].value);
  }
}
