// How a response body fails: each fault, behind any chunks that are in order, and
// the error it gives (crates/locho-web/src/http.rs).

module HttpFaults {
  import opened Bytes
  import opened HttpText
  import opened HttpBody
  import opened HttpGrammar

  // ----- lines -----

  // A stream without a line feed ends too early, breaks, or is too long; a line is
  // too long, lacks its CR, or is taken.
  lemma LineFaults(text: Bytes, rest: Bytes, limit: nat, tail: Tail)
    requires LF !in text
    ensures TakeLine(text, limit, tail) ==
            NoLine(if |text| > limit then ResponseLimit else if tail.Broken? then tail.error else TruncatedResponse)
    ensures var r := TakeLine(text + [LF] + rest, limit, tail);
            if |text| + 1 > limit then r == NoLine(ResponseLimit)
            else if text == [] || text[|text|-1] != CR then r == NoLine(InvalidResponse)
            else r == Line(text + [LF], rest)
  {
    FirstIff(LF, text, |text|);
    var input := text + [LF] + rest;
    FirstIff(LF, input, |text|);
    assert input[..|text| + 1] == text + [LF] && input[|text| + 1..] == rest;
  }

  // ----- chunks that are in order -----

  function Before(chunks: seq<Chunk>): Bytes {
    if chunks == [] then [] else chunks[0].size + CRLF + chunks[0].data + CRLF + Before(chunks[1..])
  }

  // The budget used once these chunks are read, if they fit.
  function UsedBy(chunks: seq<Chunk>, used: nat, mode: Mode): nat {
    if chunks == [] then used else UsedBy(chunks[1..], Spent(mode.budget, used, |chunks[0].size| + 2), mode)
  }

  predicate InOrder(chunks: seq<Chunk>, used: nat, mode: Mode)
    decreases |chunks|
  {
    chunks == [] || (
      var c := chunks[0];
      && c.data != []
      && SizeText(c.size, |c.data|, LineLimit(mode.budget, used, |c.size| + 2), mode.sizeMax)
      && (mode.chunkMax.Some? ==> |c.data| <= mode.chunkMax.value)
      && InOrder(chunks[1..], Spent(mode.budget, used, |c.size| + 2), mode))
  }

  // They are delivered, whatever comes next.
  lemma {:induction false} ChunksDelivered(chunks: seq<Chunk>, used: nat, mode: Mode, next: Bytes, tail: Tail)
    requires InOrder(chunks, used, mode)
    ensures DecodeSize(used, mode, Before(chunks) + next, tail) ==
            Prepend(Payload(chunks), DecodeSize(UsedBy(chunks, used, mode), mode, next, tail))
    decreases |chunks|
  {
    hide DecodeSize;
    if chunks == [] {
      assert Before(chunks) + next == next;
      assert [] + DecodeSize(used, mode, next, tail).body == DecodeSize(used, mode, next, tail).body;
    } else {
      var c := chunks[0];
      var later := Before(chunks[1..]) + next;
      var used' := Spent(mode.budget, used, |c.size| + 2);
      assert Before(chunks) + next == c.size + CRLF + (c.data + CRLF + later);
      OneChunk(c, used, mode, later, tail);
      ChunksDelivered(chunks[1..], used', mode, next, tail);
      var d := DecodeSize(UsedBy(chunks, used, mode), mode, next, tail);
      assert c.data + (Payload(chunks[1..]) + d.body) == (c.data + Payload(chunks[1..])) + d.body;
    }
  }

  lemma OneChunk(c: Chunk, used: nat, mode: Mode, later: Bytes, tail: Tail)
    requires InOrder([c], used, mode)
    ensures DecodeSize(used, mode, c.size + CRLF + (c.data + CRLF + later), tail) ==
            Prepend(c.data, DecodeSize(Spent(mode.budget, used, |c.size| + 2), mode, later, tail))
  {
    hide TakeLine, Decode, HexValue, IsHex;
    SizeRead(c.size, used, mode, c.data + CRLF + later, tail);
    ChunkThen(c.data, Spent(mode.budget, used, |c.size| + 2), mode, later, tail);
  }

  // A size line that fits is read, whatever it then leads to.
  lemma SizeRead(text: Bytes, used: nat, mode: Mode, next: Bytes, tail: Tail)
    requires LF !in text || IsHex(text)
    requires |text| + 2 <= LineLimit(mode.budget, used, |text| + 2)
    ensures DecodeSize(used, mode, text + CRLF + next, tail) ==
            AfterSize(ParseSize(text, mode.sizeMax), Spent(mode.budget, used, |text| + 2), mode, next, tail)
  {
    hide AfterSize, ParseSize, TakeLine;
    if IsHex(text) {
      HexHasNoLF(text);
    }
    var input := text + CRLF + next;
    LineTaken(text, next, LineLimit(mode.budget, used, |input|), tail);
    assert (text + CRLF)[..|text|] == text;
  }

  // ----- faults, behind chunks that are in order -----

  // What is left for the next size line.
  function Room(chunks: seq<Chunk>, mode: Mode): nat {
    LineLimit(mode.budget, UsedBy(chunks, 0, mode), 0)
  }

  ghost predicate Reads(chunks: seq<Chunk>, mode: Mode, next: Bytes, tail: Tail, more: Bytes, error: HttpError) {
    Decode(Chunked(0, false), 0, mode, Before(chunks) + next, tail) == Decoded(Payload(chunks) + more, Failed(error))
  }

  lemma FaultBehind(chunks: seq<Chunk>, mode: Mode, next: Bytes, tail: Tail, more: Bytes, error: HttpError)
    requires InOrder(chunks, 0, mode)
    requires DecodeSize(UsedBy(chunks, 0, mode), mode, next, tail) == Decoded(more, Failed(error))
    ensures Reads(chunks, mode, next, tail, more, error)
  {
    hide DecodeSize, UsedBy;
    ChunksDelivered(chunks, 0, mode, next, tail);
  }

  // The stream ends, or breaks, in a size line or where one is due; or the line is
  // too long, or lacks its CR.
  lemma SizeLineFaults(chunks: seq<Chunk>, mode: Mode, text: Bytes, rest: Bytes, tail: Tail)
    requires InOrder(chunks, 0, mode) && !mode.budget.Unbounded? && LF !in text
    ensures Reads(chunks, mode, text, tail, [],
                  if |text| > Room(chunks, mode) then ResponseLimit
                  else if tail.Broken? then tail.error else TruncatedResponse)
    ensures |text| + 1 > Room(chunks, mode) ==> Reads(chunks, mode, text + [LF] + rest, tail, [], ResponseLimit)
    ensures |text| + 1 <= Room(chunks, mode) && (text == [] || text[|text|-1] != CR) ==>
              Reads(chunks, mode, text + [LF] + rest, tail, [], InvalidResponse)
  {
    hide InOrder, UsedBy, TakeLine, Reads;
    LineFaults(text, rest, Room(chunks, mode), tail);
    var used := UsedBy(chunks, 0, mode);
    assert DecodeSize(used, mode, text, tail) == Fail(TakeLine(text, Room(chunks, mode), tail).error);
    FaultBehind(chunks, mode, text, tail, [], TakeLine(text, Room(chunks, mode), tail).error);
    var line := text + [LF] + rest;
    if TakeLine(line, Room(chunks, mode), tail).NoLine? {
      FaultBehind(chunks, mode, line, tail, [], TakeLine(line, Room(chunks, mode), tail).error);
    }
  }

  // Digits of the tables whose number the machine word holds.
  ghost predicate IsNumber(text: Bytes, sizeMax: nat) {
    exists ds :: ds != [] && Digits(ds) && Text(ds) == text && Number(ds) <= sizeMax
  }

  lemma {:induction false} DigitsOf(text: Bytes) returns (ds: seq<Digit>)
    requires IsHex(text)
    ensures Digits(ds) && Text(ds) == text && Number(ds) == HexValue(text)
    decreases |text|
  {
    hide Spell, IsHexDigit, HexDigitValue;
    ds := [];
    if text != [] {
      var n := |text| - 1;
      var before := DigitsOf(text[..n]);
      var d := DigitOf(text[n]);
      ds := before + [d];
      assert ds[..n] == before && text == text[..n] + [text[n]];
    }
  }

  lemma DigitOf(b: Byte) returns (d: Digit)
    requires IsHexDigit(b)
    ensures d.value < 16 && Spell(d) == b && HexDigitValue(b) == d.value
  {
    d := Digit(HexDigitValue(b), 65 <= b <= 70);
  }

  lemma NumberIff(text: Bytes, sizeMax: nat)
    ensures ParseSize(text, sizeMax).Some? <==> IsNumber(text, sizeMax)
  {
    hide Text, Number, HexValue;
    if ParseSize(text, sizeMax).Some? {
      var ds := DigitsOf(text);
      assert ds != [] by { LengthOf(ds); }
      assert Digits(ds) && Text(ds) == text && Number(ds) <= sizeMax;
    }
    if IsNumber(text, sizeMax) {
      var ds :| ds != [] && Digits(ds) && Text(ds) == text && Number(ds) <= sizeMax;
      TextValue(ds);
      LengthOf(ds);
    }
  }

  lemma LengthOf(ds: seq<Digit>)
    requires Digits(ds)
    ensures |Text(ds)| == |ds|
  {
  }

  // What a size line says is no number, or a chunk over the buffered limit.
  lemma SizeFaults(chunks: seq<Chunk>, mode: Mode, text: Bytes, rest: Bytes, tail: Tail)
    requires InOrder(chunks, 0, mode) && !mode.budget.Unbounded? && LF !in text && |text| + 2 <= Room(chunks, mode)
    ensures !IsNumber(text, mode.sizeMax) ==> Reads(chunks, mode, text + CRLF + rest, tail, [], InvalidResponse)
    ensures forall ds :: ds != [] && Digits(ds) && Text(ds) == text && mode.chunkMax.Some?
                         && 0 < Number(ds) <= mode.sizeMax && Number(ds) > mode.chunkMax.value ==>
              Reads(chunks, mode, text + CRLF + rest, tail, [], ResponseLimit)
  {
    hide InOrder, UsedBy, TakeLine, Reads, Text, Number, HexValue, Decode, DecodeSize, DecodeTrailer;
    var used := UsedBy(chunks, 0, mode);
    SizeRead(text, used, mode, rest, tail);
    NumberIff(text, mode.sizeMax);
    if !IsNumber(text, mode.sizeMax) {
      FaultBehind(chunks, mode, text + CRLF + rest, tail, [], InvalidResponse);
    }
    forall ds | ds != [] && Digits(ds) && Text(ds) == text && mode.chunkMax.Some?
                && 0 < Number(ds) <= mode.sizeMax && Number(ds) > mode.chunkMax.value
      ensures Reads(chunks, mode, text + CRLF + rest, tail, [], ResponseLimit)
    {
      TextValue(ds);
      LengthOf(ds);
      FaultBehind(chunks, mode, text + CRLF + rest, tail, [], ResponseLimit);
    }
  }

  // A chunk that is begun: its size line fits and says `n`.
  predicate Begun(size: seq<Digit>, n: nat, room: nat, mode: Mode) {
    && Digits(size) && size != [] && Number(size) == n <= mode.sizeMax && |size| + 2 <= room
    && (mode.chunkMax.Some? ==> n <= mode.chunkMax.value)
  }

  lemma BegunChunk(size: seq<Digit>, n: nat, used: nat, mode: Mode, next: Bytes, tail: Tail)
    requires !mode.budget.Unbounded? && Begun(size, n, LineLimit(mode.budget, used, 0), mode)
    ensures DecodeSize(used, mode, Text(size) + CRLF + next, tail) ==
            if n == 0 then DecodeTrailer(mode, next, tail)
            else Decode(Chunked(n, false), Spent(mode.budget, used, |size| + 2), mode, next, tail)
  {
    hide TakeLine, Text, Number, HexValue, Decode, DecodeTrailer;
    TextValue(size);
    LengthOf(size);
    SizeRead(Text(size), used, mode, next, tail);
  }

  // The stream ends in a chunk's data: that much of it is delivered.
  lemma CutChunk(chunks: seq<Chunk>, mode: Mode, size: seq<Digit>, n: nat, data: Bytes, tail: Tail)
    requires InOrder(chunks, 0, mode) && !mode.budget.Unbounded? && Begun(size, n, Room(chunks, mode), mode)
    requires |data| < n
    ensures Reads(chunks, mode, Text(size) + CRLF + data, tail, data,
                  if tail.Broken? then tail.error else TruncatedResponse)
  {
    hide InOrder, UsedBy, Text, Number, Reads, DecodeSize;
    BegunChunk(size, n, UsedBy(chunks, 0, mode), mode, data, tail);
    FaultBehind(chunks, mode, Text(size) + CRLF + data, tail, data, TailError(tail));
  }

  // A chunk's data goes on where its CRLF is due: all of it is delivered first.
  lemma UnclosedChunk(
      chunks: seq<Chunk>, mode: Mode, size: seq<Digit>, data: Bytes, text: Bytes, rest: Bytes, tail: Tail)
    requires InOrder(chunks, 0, mode) && !mode.budget.Unbounded? && Begun(size, |data|, Room(chunks, mode), mode)
    requires data != [] && LF !in text && text != [CR]
    ensures Reads(chunks, mode, Text(size) + CRLF + (data + (text + [LF] + rest)), tail, data,
                  if |text| > 1 then ResponseLimit else InvalidResponse)
  {
    hide InOrder, UsedBy, Text, Number, Reads, DecodeSize, TakeLine;
    var line, used := text + [LF] + rest, UsedBy(chunks, 0, mode);
    var error := if |text| > 1 then ResponseLimit else InvalidResponse;
    BegunChunk(size, |data|, used, mode, data + line, tail);
    LineFaults(text, rest, 2, tail);
    assert (data + line)[..|data|] == data && (data + line)[|data|..] == line;
    assert Decode(Chunked(0, true), Spent(mode.budget, used, |size| + 2), mode, line, tail) == Fail(error);
    assert data + [] == data;
    FaultBehind(chunks, mode, Text(size) + CRLF + (data + line), tail, data, error);
  }

  // Trailer fields behind the last chunk are refused.
  lemma TrailerRefused(chunks: seq<Chunk>, mode: Mode, size: seq<Digit>, text: Bytes, rest: Bytes, tail: Tail)
    requires InOrder(chunks, 0, mode) && !mode.budget.Unbounded? && Begun(size, 0, Room(chunks, mode), mode)
    requires text != [] && LF !in text && |text| + 2 <= mode.trailerLimit
    ensures Reads(chunks, mode, Text(size) + CRLF + (text + CRLF + rest), tail, [], UnsupportedTrailers)
  {
    hide InOrder, UsedBy, Text, Number, Reads, DecodeSize, TakeLine;
    var next := text + CRLF + rest;
    BegunChunk(size, 0, UsedBy(chunks, 0, mode), mode, next, tail);
    LineTaken(text, rest, mode.trailerLimit, tail);
    assert text + CRLF != CRLF by { assert |text + CRLF| > |CRLF|; }
    FaultBehind(chunks, mode, Text(size) + CRLF + next, tail, [], UnsupportedTrailers);
  }

  // A body of known length consumes exactly so many bytes, or delivers what came.
  lemma LengthBody(n: nat, mode: Mode, input: Bytes, tail: Tail)
    ensures Decode(Length(n), 0, mode, input, tail) ==
            if n <= |input| then Decoded(input[..n], Done(input[n..]))
            else Decoded(input, Failed(if tail.Broken? then tail.error else TruncatedResponse))
  {
  }
}
