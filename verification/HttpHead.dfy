// Response heads: interim responses, size limits and the choice of body framing
// (section 6.3 of RFC 9112; crates/locho-web/src/http.rs).

module HttpHead {
  import opened Bytes
  import opened HttpText
  import opened HttpBody

  const MAX_HEADS: nat := 9

  // What the head parser found in one complete block.
  datatype ParsedHead = ParsedHead(http11: bool, code: nat, fields: seq<Field>)

  datatype FinalHead = FinalHead(status: nat, fields: seq<Field>, bytes: nat)

  datatype HeadResult = Head(head: FinalHead, rest: Bytes) | NoHead(error: HttpError)

  // ----- one block, through its blank line -----

  datatype BlockResult = Block(text: Bytes, rest: Bytes) | NoBlock(error: HttpError)

  // `head` holds the lines of the block taken so far.
  function TakeBlock(head: Bytes, input: Bytes, limit: nat, tail: Tail): (r: BlockResult)
    requires |head| <= limit
    ensures r.Block? ==> |head| < |r.text| <= limit && |r.text| + |r.rest| == |head| + |input|
    decreases |input|
  {
    match TakeLine(input, limit - |head|, tail)
    case NoLine(e) => NoBlock(e)
    case Line(text, rest) =>
      if text == CRLF then Block(head + text, rest) else TakeBlock(head + text, rest, limit, tail)
  }

  method ReadBlock(reader: Reader, limit: nat) returns (r: Result<Bytes, HttpError>)
    requires reader.Valid()
    modifies reader
    ensures reader.Valid()
    ensures TakeBlock([], old(reader.left), limit, reader.tail) ==
            if r.Ok? then Block(r.value, reader.left) else NoBlock(r.error)
  {
    ghost var due := TakeBlock([], reader.left, limit, reader.tail);
    var head: Bytes := [];
    while true
      invariant reader.Valid() && |head| <= limit
      invariant due == TakeBlock(head, reader.left, limit, reader.tail)
      decreases |reader.left|
    {
      var next := ReadLine(reader, limit - |head|);
      if next.Err? {
        return Err(next.error);
      }
      head := head + next.value;
      if next.value == CRLF {
        return Ok(head);
      }
    }
  }

  // ----- field text -----

  function Normal(fields: seq<Field>): seq<Field> {
    seq(|fields|, i requires 0 <= i < |fields| => Field(Lower(fields[i].name), Trim(fields[i].value)))
  }

  predicate AllPrintable(fields: seq<Field>) {
    forall i :: 0 <= i < |fields| ==> Printable(fields[i].value)
  }

  predicate IsLength(f: Field) { Is(f.name, "content-length") }

  predicate IsCoding(f: Field) { Is(f.name, "transfer-encoding") }

  predicate Frames(fields: seq<Field>) {
    exists i :: 0 <= i < |fields| && (IsLength(fields[i]) || IsCoding(fields[i]))
  }

  // ----- the final head behind at most eight interim ones -----

  // The verdict on one block, given how many fields earlier blocks held.
  type Judge = (Bytes, nat) -> Result<ParsedHead, HttpError>

  // The checks every block passes, in the order they are made.
  function JudgeWith(parse: Bytes -> Option<ParsedHead>): Judge {
    (text: Bytes, count: nat) => Verdict(parse(text), count)
  }

  ghost predicate Lawful(judge: Judge) {
    forall text, count: nat :: judge(text, count).Ok? ==>
      judge(text, count).value.code <= 599 && count + |judge(text, count).value.fields| <= MAX_FIELDS
  }

  lemma JudgeLawful(parse: Bytes -> Option<ParsedHead>)
    ensures Lawful(JudgeWith(parse))
  {
    forall text: Bytes, count: nat
      ensures JudgeWith(parse)(text, count) == Verdict(parse(text), count)
    {
    }
  }

  function Verdict(parsed: Option<ParsedHead>, count: nat): (r: Result<ParsedHead, HttpError>)
    ensures r.Ok? <==>
              && parsed.Some? && parsed.value.http11
              && 100 <= parsed.value.code <= 599 && parsed.value.code != 101
              && count + |parsed.value.fields| <= MAX_FIELDS && AllPrintable(parsed.value.fields)
              && (parsed.value.code < 200 ==> !Frames(Normal(parsed.value.fields)))
    ensures r.Ok? ==> r.value.code == parsed.value.code && r.value.fields == Normal(parsed.value.fields)
    ensures parsed.None? || !parsed.value.http11 ==> r == Err(InvalidResponse)
    ensures r == Err(UnsupportedResponse) <==>
              parsed.Some? && parsed.value.http11
              && (parsed.value.code < 100 || parsed.value.code > 599 || parsed.value.code == 101)
    ensures r == Err(ResponseLimit) <==>
              && parsed.Some? && parsed.value.http11 && r != Err(UnsupportedResponse)
              && count + |parsed.value.fields| > 100
    ensures r.Err? ==> r.error == InvalidResponse || r.error == UnsupportedResponse || r.error == ResponseLimit
  {
    if parsed.None? || !parsed.value.http11 then Err(InvalidResponse)
    else
      var head := parsed.value;
      if !(100 <= head.code <= 599) || head.code == 101 then Err(UnsupportedResponse)
      else if count + |head.fields| > MAX_FIELDS then Err(ResponseLimit)
      else if !AllPrintable(head.fields) then Err(InvalidResponse)
      else if head.code < 200 && Frames(Normal(head.fields)) then Err(InvalidResponse)
      else Ok(head.(fields := Normal(head.fields)))
  }

  ghost function OneHead(judge: Judge, input: Bytes, bytes: nat, count: nat, tail: Tail)
      : (r: HeadResult)
    requires bytes <= MAX_HEAD && Lawful(judge)
    ensures r.Head? ==> bytes < r.head.bytes <= MAX_HEAD
    ensures r.Head? ==> r.head.bytes - bytes == |input| - |r.rest|
    ensures r.Head? ==> r.head.status <= 599 && count + |r.head.fields| <= MAX_FIELDS
  {
    match TakeBlock([], input, MAX_HEAD - bytes, tail)
    case NoBlock(e) => NoHead(e)
    case Block(text, rest) =>
      var judged := judge(text, count);
      if judged.Err? then NoHead(judged.error)
      else Head(FinalHead(judged.value.code, judged.value.fields, bytes + |text|), rest)
  }

  method ReadOneHead(judge: Judge, reader: Reader, bytes: nat, count: nat) returns (r: Result<FinalHead, HttpError>)
    requires reader.Valid() && bytes <= MAX_HEAD && Lawful(judge)
    modifies reader
    ensures reader.Valid()
    ensures OneHead(judge, old(reader.left), bytes, count, reader.tail) ==
            if r.Ok? then Head(r.value, reader.left) else NoHead(r.error)
  {
    var block := ReadBlock(reader, MAX_HEAD - bytes);
    if block.Err? {
      return Err(block.error);
    }
    var head := judge(block.value, count);
    if head.Err? {
      return Err(head.error);
    }
    return Ok(FinalHead(head.value.code, head.value.fields, bytes + |block.value|));
  }

  // `bytes` and `count` are what earlier blocks used of MAX_HEAD and MAX_FIELDS.
  ghost function HeadOf(judge: Judge, input: Bytes, bytes: nat, count: nat, tries: nat, tail: Tail)
      : (r: HeadResult)
    requires bytes <= MAX_HEAD && Lawful(judge)
    ensures r.Head? ==> bytes < r.head.bytes <= MAX_HEAD
    ensures r.Head? ==> r.head.bytes - bytes == |input| - |r.rest|
    ensures r.Head? ==> 200 <= r.head.status <= 599 && count + |r.head.fields| <= MAX_FIELDS
    decreases tries
  {
    if tries == 0 then NoHead(ResponseLimit)
    else
      var one := OneHead(judge, input, bytes, count, tail);
      if one.NoHead? || one.head.status >= 200 then one
      else HeadOf(judge, one.rest, one.head.bytes, count + |one.head.fields|, tries - 1, tail)
  }

  // Whatever the split, the head is the reference head and the reader stands at
  // the first body byte; neither budget ever underflows.
  method ReadHead(judge: Judge, reader: Reader, heads: nat) returns (r: Result<FinalHead, HttpError>)
    requires reader.Valid() && Lawful(judge)
    modifies reader
    ensures reader.Valid()
    ensures HeadOf(judge, old(reader.left), 0, 0, heads, reader.tail) ==
            if r.Ok? then Head(r.value, reader.left) else NoHead(r.error)
  {
    hide OneHead;
    var bytes: nat, count: nat, tries := 0, 0, heads;
    ghost var due := HeadOf(judge, reader.left, 0, 0, heads, reader.tail);
    while tries > 0
      invariant reader.Valid() && bytes <= MAX_HEAD
      invariant due == HeadOf(judge, reader.left, bytes, count, tries, reader.tail)
    {
      var head := ReadOneHead(judge, reader, bytes, count);
      if head.Err? {
        return Err(head.error);
      }
      if head.value.status >= 200 {
        return head;
      }
      bytes, count := head.value.bytes, count + |head.value.fields|;
      tries := tries - 1;
    }
    return Err(ResponseLimit);
  }

  // ----- body framing -----

  // A Content-Length value the machine word can hold.
  function LengthValue(s: Bytes, sizeMax: nat): Option<nat> {
    if IsDigits(s) && DecValue(s) <= sizeMax then Some(DecValue(s)) else None
  }

  // The names a Connection value lists.
  function Members(value: Bytes): seq<Bytes>
    decreases |value|
  {
    var k := First(COMMA, value);
    if k == |value| then [Lower(Trim(value))]
    else [Lower(Trim(value[..k]))] + Members(value[k + 1..])
  }

  predicate AllTokens(names: seq<Bytes>) {
    forall i :: 0 <= i < |names| ==> IsToken(names[i])
  }

  // What the scan of the final head's fields has found so far.
  datatype Scan = Scan(length: Option<nat>, chunked: bool, listed: seq<Bytes>)

  const NothingYet: Scan := Scan(None, false, [])

  function ScanField(s: Scan, f: Field, sizeMax: nat): Result<Scan, HttpError> {
    if IsLength(f) then
      var current := LengthValue(f.value, sizeMax);
      if current.None? || (s.length.Some? && s.length != current) then Err(InvalidResponse)
      else Ok(s.(length := current))
    else if IsCoding(f) then
      if s.chunked || !Is(f.value, "chunked") then Err(UnsupportedFraming) else Ok(s.(chunked := true))
    else if Is(f.name, "content-encoding") && !Is(f.value, "identity") then Err(UnsupportedEncoding)
    else if Is(f.name, "connection") then
      var names := Members(f.value);
      if AllTokens(names) then Ok(s.(listed := s.listed + names)) else Err(InvalidResponse)
    else Ok(s)
  }

  // The first `k` fields, in order, up to the first that is refused.
  function ScanFields(fields: seq<Field>, k: nat, sizeMax: nat): Result<Scan, HttpError>
    requires k <= |fields|
  {
    if k == 0 then Ok(NothingYet)
    else
      var before := ScanFields(fields, k - 1, sizeMax);
      if before.Err? then before else ScanField(before.value, fields[k - 1], sizeMax)
  }

  // ----- what an accepted scan says -----

  // A field that alone makes the response unacceptable.
  predicate BadField(f: Field, sizeMax: nat) {
    || (IsLength(f) && LengthValue(f.value, sizeMax).None?)
    || (IsCoding(f) && !Is(f.value, "chunked"))
    || (Is(f.name, "content-encoding") && !Is(f.value, "identity"))
    || (Is(f.name, "connection") && !AllTokens(Members(f.value)))
  }

  ghost predicate Acceptable(fields: seq<Field>, sizeMax: nat) {
    && (forall i :: 0 <= i < |fields| ==> !BadField(fields[i], sizeMax))
    && (forall i, j :: 0 <= i < j < |fields| ==> !(IsCoding(fields[i]) && IsCoding(fields[j])))
    && (forall i, j :: 0 <= i < j < |fields| && IsLength(fields[i]) && IsLength(fields[j]) ==>
          LengthValue(fields[i].value, sizeMax) == LengthValue(fields[j].value, sizeMax))
  }

  // Exactly what the scan found in `fields`.
  ghost predicate Found(s: Scan, fields: seq<Field>, sizeMax: nat) {
    && (s.chunked <==> exists i :: 0 <= i < |fields| && IsCoding(fields[i]))
    && (s.length.Some? <==> exists i :: 0 <= i < |fields| && IsLength(fields[i]))
    && (forall i :: 0 <= i < |fields| && IsLength(fields[i]) ==> LengthValue(fields[i].value, sizeMax) == s.length)
  }

  // The names of the four kinds of field differ.
  lemma KindsDiffer(f: Field)
    ensures !(IsLength(f) && IsCoding(f))
    ensures IsLength(f) || IsCoding(f) ==> !Is(f.name, "content-encoding") && !Is(f.name, "connection")
    ensures !(Is(f.name, "content-encoding") && Is(f.name, "connection"))
  {
  }

  lemma FieldScanned(s: Scan, f: Field, sizeMax: nat)
    ensures ScanField(s, f, sizeMax).Ok? <==>
              && !BadField(f, sizeMax) && !(s.chunked && IsCoding(f))
              && (IsLength(f) && s.length.Some? ==> s.length == LengthValue(f.value, sizeMax))
    ensures ScanField(s, f, sizeMax).Ok? ==>
              var t := ScanField(s, f, sizeMax).value;
              && (t.chunked <==> s.chunked || IsCoding(f))
              && t.length == (if IsLength(f) then LengthValue(f.value, sizeMax) else s.length)
              && (IsLength(f) ==> t.length.Some?)
              && t.listed == s.listed + (if Is(f.name, "connection") then Members(f.value) else [])
    ensures ScanField(s, f, sizeMax).Err? ==>
              ScanField(s, f, sizeMax).error ==
                if IsLength(f) then InvalidResponse else if IsCoding(f) then UnsupportedFraming
                else if Is(f.name, "content-encoding") then UnsupportedEncoding else InvalidResponse
  {
    hide Is, LengthValue, AllTokens, Members;
    KindsDiffer(f);
  }

  // The scan accepts exactly the acceptable fields, and finds what is there.
  lemma {:induction false} ScanIff(fields: seq<Field>, k: nat, sizeMax: nat)
    requires k <= |fields|
    ensures ScanFields(fields, k, sizeMax).Ok? <==> Acceptable(fields[..k], sizeMax)
    ensures ScanFields(fields, k, sizeMax).Ok? ==> Found(ScanFields(fields, k, sizeMax).value, fields[..k], sizeMax)
  {
    hide IsLength, IsCoding, LengthValue, BadField, ScanField;
    if k > 0 {
      ScanIff(fields, k - 1, sizeMax);
      var before := ScanFields(fields, k - 1, sizeMax);
      assert fields[..k] == fields[..k - 1] + [fields[k - 1]];
      ScanStep(fields[..k - 1], fields[k - 1], sizeMax, before);
    }
  }

  lemma ScanStep(done: seq<Field>, f: Field, sizeMax: nat, before: Result<Scan, HttpError>)
    requires before.Ok? <==> Acceptable(done, sizeMax)
    requires before.Ok? ==> Found(before.value, done, sizeMax)
    ensures Acceptable(done + [f], sizeMax) <==> before.Ok? && ScanField(before.value, f, sizeMax).Ok?
    ensures before.Ok? && ScanField(before.value, f, sizeMax).Ok? ==>
              Found(ScanField(before.value, f, sizeMax).value, done + [f], sizeMax)
  {
    hide IsLength, IsCoding, LengthValue, BadField, ScanField;
    var all := done + [f];
    assert forall i :: 0 <= i < |done| ==> all[i] == done[i];
    assert all[|done|] == f;
    if Acceptable(all, sizeMax) {
      forall i | 0 <= i < |done| ensures !BadField(done[i], sizeMax) { assert all[i] == done[i]; }
      assert Acceptable(done, sizeMax);
    }
    if before.Ok? {
      FieldScanned(before.value, f, sizeMax);
    }
  }

  // A field refused early decides the whole scan.
  lemma {:induction false} RefusedStays(fields: seq<Field>, j: nat, k: nat, sizeMax: nat)
    requires j <= k <= |fields| && ScanFields(fields, j, sizeMax).Err?
    ensures ScanFields(fields, k, sizeMax) == ScanFields(fields, j, sizeMax)
  {
    hide ScanField;
    if j < k {
      RefusedStays(fields, j, k - 1, sizeMax);
    }
  }

  predicate Bodiless(verb: Bytes, status: nat) {
    verb == Ascii("HEAD") || status == 204 || status == 205 || status == 304
  }

  function FramingOf(verb: Bytes, status: nat, length: Option<nat>, chunked: bool): Result<Framing, HttpError> {
    if chunked && length.Some? then Err(InvalidResponse)
    else if status == 205 && (chunked || (length.Some? && length.value != 0)) then Err(InvalidResponse)
    else if status == 204 && (chunked || length.Some?) then Err(InvalidResponse)
    else Ok(if Bodiless(verb, status) then Empty
            else if chunked then Chunked(0, false)
            else if length.Some? then Length(length.value)
            else Eof)
  }

  // The fields handed to the caller: neither of this connection, nor the length.
  predicate Retained(f: Field, listed: seq<Bytes>) {
    !Hop(f.name) && f.name !in listed && !IsLength(f)
  }

  function Retain(fields: seq<Field>, listed: seq<Bytes>): seq<Field> {
    if fields == [] then []
    else
      var before, last := Retain(fields[..|fields|-1], listed), fields[|fields|-1];
      if Retained(last, listed) then before + [last] else before
  }

  // Of each field exactly as many copies as arrived, or none, in their order.
  lemma {:induction false} RetainExact(fields: seq<Field>, listed: seq<Bytes>, f: Field)
    ensures multiset(Retain(fields, listed))[f] == if Retained(f, listed) then multiset(fields)[f] else 0
    decreases |fields|
  {
    hide Retained;
    if fields != [] {
      var before := fields[..|fields|-1];
      RetainExact(before, listed, f);
      assert fields == before + [fields[|fields|-1]];
    }
  }

  lemma {:induction false} RetainInOrder(a: seq<Field>, b: seq<Field>, listed: seq<Bytes>)
    ensures Retain(a + b, listed) == Retain(a, listed) + Retain(b, listed)
    decreases |b|
  {
    hide Retained;
    if b == [] {
      assert a + b == a;
    } else {
      assert (a + b)[..|a + b|-1] == a + b[..|b|-1];
      RetainInOrder(a, b[..|b|-1], listed);
    }
  }

  datatype Start = Start(status: nat, fields: seq<Field>, framing: Framing)

  function StartOf(verb: Bytes, head: FinalHead, sizeMax: nat): Result<Start, HttpError> {
    var scan := ScanFields(head.fields, |head.fields|, sizeMax);
    if scan.Err? then Err(scan.error)
    else
      var framing := FramingOf(verb, head.status, scan.value.length, scan.value.chunked);
      if framing.Err? then Err(framing.error)
      else Ok(Start(head.status, Retain(head.fields, scan.value.listed), framing.value))
  }

  // The framing of a response, by section 6.3 of RFC 9112: never both a length
  // and a coding, none for bodiless responses, and one length if any is given.
  lemma FramingIsSound(verb: Bytes, head: FinalHead, sizeMax: nat)
    requires StartOf(verb, head, sizeMax).Ok?
    ensures Acceptable(head.fields, sizeMax)
    ensures var f := StartOf(verb, head, sizeMax).value.framing; var fields := head.fields;
            && !(exists i, j :: 0 <= i < |fields| && 0 <= j < |fields| && IsLength(fields[i]) && IsCoding(fields[j]))
            && (Bodiless(verb, head.status) ==> f == Empty)
            && (!Bodiless(verb, head.status) ==>
                  && (f.Chunked? <==> exists i :: 0 <= i < |fields| && IsCoding(fields[i]))
                  && (f.Length? <==> exists i :: 0 <= i < |fields| && IsLength(fields[i]))
                  && (f.Length? ==> forall i :: 0 <= i < |fields| && IsLength(fields[i]) ==>
                        LengthValue(fields[i].value, sizeMax) == Some(f.n))
                  && (f.Chunked? ==> f == Chunked(0, false))
                  && f != Empty)
  {
    hide IsLength, IsCoding, LengthValue, BadField, ScanFields, Retain, Ascii;
    assert head.fields[..|head.fields|] == head.fields;
    ScanIff(head.fields, |head.fields|, sizeMax);
  }

  method ScanHead(verb: Bytes, head: FinalHead, sizeMax: nat) returns (r: Result<Start, HttpError>)
    ensures r == StartOf(verb, head, sizeMax)
  {
    hide ScanField, Retained, FramingOf;
    var fields := head.fields;
    var scan := NothingYet;
    for k := 0 to |fields|
      invariant ScanFields(fields, k, sizeMax) == Ok(scan)
    {
      var next := ScanField(scan, fields[k], sizeMax);
      if next.Err? {
        RefusedStays(fields, k + 1, |fields|, sizeMax);
        return Err(next.error);
      }
      scan := next.value;
    }
    var framing := FramingOf(verb, head.status, scan.length, scan.chunked);
    if framing.Err? {
      return Err(framing.error);
    }
    var kept: seq<Field> := [];
    for k := 0 to |fields|
      invariant kept == Retain(fields[..k], scan.listed)
    {
      assert fields[..k + 1][..k] == fields[..k];
      if Retained(fields[k], scan.listed) {
        kept := kept + [fields[k]];
      }
    }
    assert fields[..|fields|] == fields;
    r := Ok(Start(head.status, kept, framing.value));
  }

  // ----- whole responses -----

  datatype Response = Response(status: nat, fields: seq<Field>, body: Bytes)

  // A buffered response, seen over the whole stream at once.
  ghost function ResponseOf(judge: Judge, verb: Bytes, input: Bytes, tail: Tail, sizeMax: nat)
      : Result<Response, HttpError>
    requires Lawful(judge)
  {
    match HeadOf(judge, input, 0, 0, MAX_HEADS, tail)
    case NoHead(e) => Err(e)
    case Head(head, rest) =>
      var start := StartOf(verb, head, sizeMax);
      if start.Err? then Err(start.error)
      else
        var body := Whole(start.value.framing, MAX_HEAD - head.bytes, sizeMax, rest, tail);
        if body.Err? then Err(body.error) else Ok(Response(start.value.status, start.value.fields, body.value))
  }

  // The head is read and the body stands ready behind it. What the body owes is
  // what the rest of the stream decodes to, and the trailer's budget is what the
  // head left of MAX_HEAD: that subtraction never underflows.
  method Open(judge: Judge, reader: Reader, verb: Bytes, sizeMax: nat)
      returns (r: Result<Start, HttpError>, body: Option<Body>)
    requires reader.Valid() && Lawful(judge)
    modifies reader
    ensures reader.Valid()
    ensures r.Ok? <==> body.Some?
    ensures match HeadOf(judge, old(reader.left), 0, 0, MAX_HEADS, reader.tail)
            case NoHead(e) => r == Err(e)
            case Head(head, rest) =>
              && r == StartOf(verb, head, sizeMax)
              && (r.Ok? ==>
                    && fresh(body.value) && body.value.reader == reader && reader.left == rest
                    && body.value.framing == r.value.framing && body.value.framingBytes == 0
                    && body.value.trailerLimit == MAX_HEAD - head.bytes && body.value.sizeMax == sizeMax)
  {
    hide StartOf, HeadOf;
    body := None;
    var head := ReadHead(judge, reader, MAX_HEADS);
    if head.Err? {
      return Err(head.error), None;
    }
    r := ScanHead(verb, head.value, sizeMax);
    if r.Ok? {
      var made := new Body(reader, r.value.framing, MAX_HEAD - head.value.bytes, sizeMax);
      body := Some(made);
    }
  }

  // Whatever the split into pieces, a buffered read gives the response that the
  // whole stream stands for, or its error.
  method Read(judge: Judge, reader: Reader, verb: Bytes, sizeMax: nat)
      returns (r: Result<Response, HttpError>)
    requires reader.Valid() && Lawful(judge)
    modifies reader
    ensures r == ResponseOf(judge, verb, old(reader.left), reader.tail, sizeMax)
  {
    hide StartOf, HeadOf, Whole;
    var start, behind := Open(judge, reader, verb, sizeMax);
    if start.Err? {
      return Err(start.error);
    }
    var body := behind.value;
    var bytes := ReadAll(body);
    if bytes.Err? {
      return Err(bytes.error);
    }
    return Ok(Response(start.value.status, start.value.fields, bytes.value));
  }
}
