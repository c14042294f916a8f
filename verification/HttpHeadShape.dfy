// What the head reader takes and what the field scan decides, stated without them
// (sections 2.1 and 6.3 of RFC 9112; crates/locho-web/src/http.rs).

module HttpHeadShape {
  import opened Bytes
  import opened HttpText
  import opened HttpBody
  import opened HttpGrammar
  import opened HttpHead

  // ----- one block -----

  // Lines that are not blank, without their CRLF.
  predicate HeadLines(lines: seq<Bytes>) {
    forall i :: 0 <= i < |lines| ==> lines[i] != [] && LF !in lines[i]
  }

  function Joined(lines: seq<Bytes>): Bytes {
    if lines == [] then [] else lines[0] + CRLF + Joined(lines[1..])
  }

  function BlockText(lines: seq<Bytes>): Bytes { Joined(lines) + CRLF }

  // Any such lines and a blank one, if they fit, are taken as one block, and what
  // follows is left.
  lemma {:induction false} BlockTaken(lines: seq<Bytes>, head: Bytes, rest: Bytes, limit: nat, tail: Tail)
    requires HeadLines(lines) && |head| + |BlockText(lines)| <= limit
    ensures TakeBlock(head, BlockText(lines) + rest, limit, tail) == Block(head + BlockText(lines), rest)
    decreases |lines|
  {
    hide TakeLine;
    if lines == [] {
      assert BlockText(lines) == CRLF && CRLF + rest == [] + CRLF + rest;
      LineTaken([], rest, limit - |head|, tail);
    } else {
      var line, later := lines[0], BlockText(lines[1..]) + rest;
      assert BlockText(lines) == line + CRLF + BlockText(lines[1..]);
      assert BlockText(lines) + rest == line + CRLF + later;
      LineTaken(line, later, limit - |head|, tail);
      assert line + CRLF != CRLF by { assert |line + CRLF| > |CRLF|; }
      BlockTaken(lines[1..], head + (line + CRLF), rest, limit, tail);
      assert head + (line + CRLF) + BlockText(lines[1..]) == head + BlockText(lines);
    }
  }

  // And every block has that shape.
  lemma {:induction false} BlockShape(head: Bytes, input: Bytes, limit: nat, tail: Tail) returns (lines: seq<Bytes>)
    requires |head| <= limit && TakeBlock(head, input, limit, tail).Block?
    ensures HeadLines(lines)
    ensures var r := TakeBlock(head, input, limit, tail);
            r.text == head + BlockText(lines) && input == BlockText(lines) + r.rest
    decreases |input|
  {
    hide TakeLine, BlockText, HeadLines;
    var l := TakeLine(input, limit - |head|, tail);
    LineIs(input, limit - |head|, tail);
    if l.text == CRLF {
      lines := [];
      NoLines();
    } else {
      var more := BlockShape(head + l.text, l.rest, limit, tail);
      lines := [Stem(l.text)] + more;
      OneLineMore(Stem(l.text), more);
      var r := TakeBlock(head, input, limit, tail);
      assert head + l.text + BlockText(more) == head + (l.text + BlockText(more));
      assert l.text + (BlockText(more) + r.rest) == l.text + BlockText(more) + r.rest;
    }
  }

  lemma NoLines()
    ensures HeadLines([]) && BlockText([]) == CRLF
  {
  }

  lemma OneLineMore(line: Bytes, more: seq<Bytes>)
    requires line != [] && LF !in line && HeadLines(more)
    ensures HeadLines([line] + more) && BlockText([line] + more) == (line + CRLF) + BlockText(more)
  {
    assert ([line] + more)[1..] == more;
  }

  lemma LineIs(input: Bytes, limit: nat, tail: Tail)
    requires TakeLine(input, limit, tail).Line?
    ensures var l := TakeLine(input, limit, tail);
            && input == l.text + l.rest && l.text == Stem(l.text) + CRLF && LF !in Stem(l.text)
            && (l.text == CRLF <==> Stem(l.text) == [])
  {
    var l := TakeLine(input, limit, tail);
    StemLine(input, limit, tail);
    FirstIff(LF, input, First(LF, input));
  }

  // ----- the final head behind interim ones -----

  // A block and what the judge makes of it.
  datatype Part = Part(lines: seq<Bytes>, head: ParsedHead)

  function Texts(parts: seq<Part>): Bytes {
    if parts == [] then [] else BlockText(parts[0].lines) + Texts(parts[1..])
  }

  // The judge accepts each block, given how many fields came before.
  predicate Judged(judge: Judge, parts: seq<Part>, count: nat)
    decreases |parts|
  {
    parts == [] || (
      && HeadLines(parts[0].lines)
      && judge(BlockText(parts[0].lines), count) == Ok(parts[0].head)
      && Judged(judge, parts[1..], count + |parts[0].head.fields|))
  }

  // All but the last are interim.
  predicate OnlyLastFinal(parts: seq<Part>) {
    && parts != [] && parts[|parts|-1].head.code >= 200
    && forall i :: 0 <= i < |parts| - 1 ==> parts[i].head.code < 200
  }

  lemma OneBlock(judge: Judge, part: Part, bytes: nat, count: nat, rest: Bytes, tail: Tail)
    requires Lawful(judge) && HeadLines(part.lines) && judge(BlockText(part.lines), count) == Ok(part.head)
    requires bytes + |BlockText(part.lines)| <= MAX_HEAD
    ensures OneHead(judge, BlockText(part.lines) + rest, bytes, count, tail) ==
            Head(FinalHead(part.head.code, part.head.fields, bytes + |BlockText(part.lines)|), rest)
  {
    hide TakeBlock, BlockText;
    BlockTaken(part.lines, [], rest, MAX_HEAD - bytes, tail);
    assert [] + BlockText(part.lines) == BlockText(part.lines);
  }

  lemma {:induction false} HeadFound(
      judge: Judge, parts: seq<Part>, bytes: nat, count: nat, tries: nat, rest: Bytes, tail: Tail)
    requires Lawful(judge) && Judged(judge, parts, count) && OnlyLastFinal(parts)
    requires bytes + |Texts(parts)| <= MAX_HEAD && |parts| <= tries
    ensures var last := parts[|parts|-1].head;
            HeadOf(judge, Texts(parts) + rest, bytes, count, tries, tail) ==
            Head(FinalHead(last.code, last.fields, bytes + |Texts(parts)|), rest)
    decreases |parts|
  {
    hide OneHead, BlockText, HeadLines;
    var text, later := BlockText(parts[0].lines), Texts(parts[1..]) + rest;
    assert Texts(parts) + rest == text + later;
    OneBlock(judge, parts[0], bytes, count, later, tail);
    if |parts| > 1 {
      HeadFound(judge, parts[1..], bytes + |text|, count + |parts[0].head.fields|, tries - 1, rest, tail);
    } else {
      assert Texts(parts[1..]) == [] && later == rest;
    }
  }

  // Up to eight interim responses and a final one, together at most 64 KiB: the
  // reader finds the final head and stands at the first body byte.
  lemma FinalHeadIsRead(judge: Judge, parts: seq<Part>, rest: Bytes, tail: Tail)
    requires Lawful(judge) && Judged(judge, parts, 0) && OnlyLastFinal(parts)
    requires |Texts(parts)| <= 65536 && |parts| - 1 <= 8
    ensures var last := parts[|parts|-1].head;
            HeadOf(judge, Texts(parts) + rest, 0, 0, MAX_HEADS, tail) ==
            Head(FinalHead(last.code, last.fields, |Texts(parts)|), rest)
  {
    hide HeadOf, Judged, Texts;
    HeadFound(judge, parts, 0, 0, MAX_HEADS, rest, tail);
  }

  lemma {:induction false} InterimOnly(
      judge: Judge, parts: seq<Part>, bytes: nat, count: nat, rest: Bytes, tail: Tail)
    requires Lawful(judge) && Judged(judge, parts, count) && bytes + |Texts(parts)| <= MAX_HEAD
    requires forall i :: 0 <= i < |parts| ==> parts[i].head.code < 200
    ensures HeadOf(judge, Texts(parts) + rest, bytes, count, |parts|, tail) == NoHead(ResponseLimit)
    decreases |parts|
  {
    hide OneHead, BlockText, HeadLines;
    if parts != [] {
      var text, later := BlockText(parts[0].lines), Texts(parts[1..]) + rest;
      assert Texts(parts) + rest == text + later;
      OneBlock(judge, parts[0], bytes, count, later, tail);
      InterimOnly(judge, parts[1..], bytes + |text|, count + |parts[0].head.fields|, rest, tail);
    }
  }

  // A ninth interim response is one too many.
  lemma NineInterimHeads(judge: Judge, parts: seq<Part>, rest: Bytes, tail: Tail)
    requires Lawful(judge) && Judged(judge, parts, 0) && |Texts(parts)| <= 65536 && |parts| == 9
    requires forall i :: 0 <= i < |parts| ==> parts[i].head.code < 200
    ensures HeadOf(judge, Texts(parts) + rest, 0, 0, MAX_HEADS, tail) == NoHead(ResponseLimit)
  {
    hide HeadOf, Judged, Texts;
    InterimOnly(judge, parts, 0, 0, rest, tail);
  }

  // Conversely, every head that is found stands behind interim ones only.
  lemma {:induction false} HeadShape(
      judge: Judge, input: Bytes, bytes: nat, count: nat, tries: nat, tail: Tail) returns (parts: seq<Part>)
    requires bytes <= MAX_HEAD && Lawful(judge) && HeadOf(judge, input, bytes, count, tries, tail).Head?
    ensures Judged(judge, parts, count) && OnlyLastFinal(parts) && |parts| <= tries
    ensures var r := HeadOf(judge, input, bytes, count, tries, tail); var last := parts[|parts|-1].head;
            input == Texts(parts) + r.rest && r.head == FinalHead(last.code, last.fields, bytes + |Texts(parts)|)
    decreases tries
  {
    hide OneHead, BlockText, HeadLines;
    var one := OneHead(judge, input, bytes, count, tail);
    var part := OneShape(judge, input, bytes, count, tail);
    if one.head.status >= 200 {
      parts := [part];
      assert Texts(parts) == BlockText(part.lines) + [];
      assert Judged(judge, [], count + |part.head.fields|);
    } else {
      var more := HeadShape(judge, one.rest, one.head.bytes, count + |one.head.fields|, tries - 1, tail);
      parts := [part] + more;
      assert parts[1..] == more;
      assert BlockText(part.lines) + (Texts(more) + HeadOf(judge, input, bytes, count, tries, tail).rest)
             == Texts(parts) + HeadOf(judge, input, bytes, count, tries, tail).rest;
    }
  }

  lemma OneShape(judge: Judge, input: Bytes, bytes: nat, count: nat, tail: Tail) returns (part: Part)
    requires bytes <= MAX_HEAD && Lawful(judge) && OneHead(judge, input, bytes, count, tail).Head?
    ensures HeadLines(part.lines) && judge(BlockText(part.lines), count) == Ok(part.head)
    ensures var r := OneHead(judge, input, bytes, count, tail);
            && input == BlockText(part.lines) + r.rest
            && r.head == FinalHead(part.head.code, part.head.fields, bytes + |BlockText(part.lines)|)
  {
    hide TakeBlock, BlockText, HeadLines;
    var block := TakeBlock([], input, MAX_HEAD - bytes, tail);
    var lines := BlockShape([], input, MAX_HEAD - bytes, tail);
    assert [] + BlockText(lines) == BlockText(lines);
    part := Part(lines, judge(block.text, count).value);
  }

  // ----- the fields -----

  // A field is handed on under its lower-case name, without the blanks around its
  // value.
  lemma NormalField(fields: seq<Field>, i: nat, before: Bytes, core: Bytes, after: Bytes)
    requires i < |fields| && fields[i].value == before + core + after
    requires AllBlank(before) && AllBlank(after) && Tight(core)
    ensures |Normal(fields)| == |fields| && Normal(fields)[i].value == core
    ensures |Normal(fields)[i].name| == |fields[i].name|
    ensures forall k :: 0 <= k < |fields[i].name| ==>
              Normal(fields)[i].name[k] ==
              if 'A' as int <= fields[i].name[k] <= 'Z' as int then fields[i].name[k] + 32 else fields[i].name[k]
  {
    hide Trim;
    TrimTakesBlanks(before, core, after);
  }

  predicate Has(fields: seq<Field>, name: string) {
    exists i :: 0 <= i < |fields| && Is(fields[i].name, name)
  }

  // A response is not refused for its framing if and only if its fields are
  // acceptable, it has not both a length and a coding, a 204 has neither, and a 205
  // has no coding and no length but 0.
  lemma StartIff(verb: Bytes, head: FinalHead, sizeMax: nat)
    ensures var fields := head.fields;
            StartOf(verb, head, sizeMax).Ok? <==>
              && Acceptable(fields, sizeMax)
              && !(Has(fields, "content-length") && Has(fields, "transfer-encoding"))
              && (head.status == 204 ==> !Has(fields, "content-length") && !Has(fields, "transfer-encoding"))
              && (head.status == 205 ==>
                    && !Has(fields, "transfer-encoding")
                    && forall i :: 0 <= i < |fields| && Is(fields[i].name, "content-length") ==>
                         LengthValue(fields[i].value, sizeMax) == Some(0))
  {
    hide Is, LengthValue, BadField, ScanFields, Retain, Bodiless;
    assert head.fields[..|head.fields|] == head.fields;
    ScanIff(head.fields, |head.fields|, sizeMax);
  }

  // It has no body if and only if it answers HEAD or is a 204, 205 or 304; else it
  // is chunked, of the given length, or goes on to the end, as its fields say.
  lemma FramingIs(verb: Bytes, head: FinalHead, sizeMax: nat)
    requires StartOf(verb, head, sizeMax).Ok?
    ensures var start := StartOf(verb, head, sizeMax).value; var fields := head.fields;
            var none := verb == Ascii("HEAD") || head.status == 204 || head.status == 205 || head.status == 304;
            && start.status == head.status
            && (start.framing == Empty <==> none)
            && (start.framing == Chunked(0, false) <==> !none && Has(fields, "transfer-encoding"))
            && (start.framing.Length? <==> !none && Has(fields, "content-length"))
            && (start.framing == Eof <==> !none && !Has(fields, "transfer-encoding") && !Has(fields, "content-length"))
            && (start.framing.Length? ==> forall i :: 0 <= i < |fields| && Is(fields[i].name, "content-length") ==>
                  LengthValue(fields[i].value, sizeMax) == Some(start.framing.n))
  {
    hide Is, LengthValue, BadField, ScanFields, Retain, Ascii;
    assert head.fields[..|head.fields|] == head.fields;
    ScanIff(head.fields, |head.fields|, sizeMax);
  }

  // ----- the Connection field -----

  function Commas(parts: seq<Bytes>): Bytes
    requires parts != []
  {
    if |parts| == 1 then parts[0] else parts[0] + [COMMA] + Commas(parts[1..])
  }

  // Its members are the parts between commas, trimmed and in lower case.
  lemma {:induction false} MembersOf(parts: seq<Bytes>)
    requires parts != [] && forall i :: 0 <= i < |parts| ==> COMMA !in parts[i]
    ensures Members(Commas(parts)) == seq(|parts|, i requires 0 <= i < |parts| => Lower(Trim(parts[i])))
    decreases |parts|
  {
    hide Lower, Trim, Commas, First;
    var value := Commas(parts);
    FirstComma(parts);
    if |parts| > 1 {
      MembersOf(parts[1..]);
      MapMore(parts);
    }
  }

  lemma FirstComma(parts: seq<Bytes>)
    requires parts != [] && forall i :: 0 <= i < |parts| ==> COMMA !in parts[i]
    ensures var value := Commas(parts);
            && First(COMMA, value) == |parts[0]| <= |value|
            && (|parts| == 1 ==> value == parts[0])
            && (|parts| > 1 ==>
                  && |parts[0]| < |value| && value[..|parts[0]|] == parts[0]
                  && value[|parts[0]| + 1..] == Commas(parts[1..]))
  {
    FirstIff(COMMA, Commas(parts), |parts[0]|);
  }

  lemma MapMore(parts: seq<Bytes>)
    requires parts != []
    ensures seq(|parts|, i requires 0 <= i < |parts| => Lower(Trim(parts[i]))) ==
            [Lower(Trim(parts[0]))] +
            seq(|parts[1..]|, i requires 0 <= i < |parts[1..]| => Lower(Trim(parts[1..][i])))
  {
    hide Lower, Trim;
  }

  // What the scan lists are the members of all Connection fields.
  lemma {:induction false} ListedIff(fields: seq<Field>, k: nat, sizeMax: nat, name: Bytes)
    requires k <= |fields| && ScanFields(fields, k, sizeMax).Ok?
    ensures name in ScanFields(fields, k, sizeMax).value.listed <==>
            exists i :: 0 <= i < k && Is(fields[i].name, "connection") && name in Members(fields[i].value)
  {
    hide Is, Members, ScanField;
    if k > 0 {
      ListedIff(fields, k - 1, sizeMax, name);
      FieldScanned(ScanFields(fields, k - 1, sizeMax).value, fields[k - 1], sizeMax);
    }
  }

  // Of each field exactly as many copies are handed on as arrived, unless it is
  // one of the connection's nine, the length, or listed by a Connection field.
  lemma HandedOn(verb: Bytes, head: FinalHead, sizeMax: nat, f: Field)
    requires StartOf(verb, head, sizeMax).Ok?
    ensures var fields := head.fields;
            var kept := !Hop(f.name) && !Is(f.name, "content-length")
                        && !(exists i :: 0 <= i < |fields| && Is(fields[i].name, "connection")
                                         && f.name in Members(fields[i].value));
            multiset(StartOf(verb, head, sizeMax).value.fields)[f] == if kept then multiset(fields)[f] else 0
  {
    hide Is, Hop, Members, ScanFields, Retain, FramingOf;
    var scan := ScanFields(head.fields, |head.fields|, sizeMax);
    ListedIff(head.fields, |head.fields|, sizeMax, f.name);
    RetainExact(head.fields, scan.value.listed, f);
  }

  // The error of a refused scan is the one of the first field refused.
  lemma {:induction false} FirstRefusal(fields: seq<Field>, k: nat, sizeMax: nat)
    requires k < |fields| && ScanFields(fields, k, sizeMax).Ok? && ScanFields(fields, k + 1, sizeMax).Err?
    ensures ScanFields(fields, |fields|, sizeMax) ==
            Err(if Is(fields[k].name, "content-length") then InvalidResponse
                else if Is(fields[k].name, "transfer-encoding") then UnsupportedFraming
                else if Is(fields[k].name, "content-encoding") then UnsupportedEncoding
                else InvalidResponse)
  {
    hide Is, ScanField;
    RefusedStays(fields, k + 1, |fields|, sizeMax);
    FieldScanned(ScanFields(fields, k, sizeMax).value, fields[k], sizeMax);
  }
}
