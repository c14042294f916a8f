// What the body decoder accepts, stated without it: the chunked coding of
// section 7.1 of RFC 9112, and how the buffered and streaming limits compare.

module HttpGrammar {
  import opened Bytes
  import opened HttpBody
  import opened HttpText

  // ----- chunked coding -----

  datatype Chunk = Chunk(size: Bytes, data: Bytes)

  function Wire(chunks: seq<Chunk>, last: Bytes): Bytes {
    if chunks == [] then last + CRLF + CRLF
    else chunks[0].size + CRLF + chunks[0].data + CRLF + Wire(chunks[1..], last)
  }

  function Payload(chunks: seq<Chunk>): Bytes {
    if chunks == [] then [] else chunks[0].data + Payload(chunks[1..])
  }

  // A size text the decoder reads as `n`, on a line that fits.
  predicate SizeText(text: Bytes, n: nat, limit: nat, sizeMax: nat) {
    text != [] && IsHex(text) && HexValue(text) == n <= sizeMax && |text| + 2 <= limit
  }

  predicate WellFormed(chunks: seq<Chunk>, last: Bytes, used: nat, mode: Mode)
    decreases |chunks|
  {
    if chunks == [] then
      SizeText(last, 0, LineLimit(mode.budget, used, |last| + 2), mode.sizeMax) && 2 <= mode.trailerLimit
    else
      var c := chunks[0];
      && c.data != []
      && SizeText(c.size, |c.data|, LineLimit(mode.budget, used, |c.size| + 2), mode.sizeMax)
      && (mode.chunkMax.Some? ==> |c.data| <= mode.chunkMax.value)
      && WellFormed(chunks[1..], last, Spent(mode.budget, used, |c.size| + 2), mode)
  }

  // A line whose text holds no line feed is taken whole.
  lemma LineTaken(text: Bytes, rest: Bytes, limit: nat, tail: Tail)
    requires LF !in text && |text| + 2 <= limit
    ensures TakeLine(text + CRLF + rest, limit, tail) == Line(text + CRLF, rest)
  {
    LineFound(text + CRLF, rest, limit, tail);
  }

  // The text of a line without its CRLF.
  function Stem(line: Bytes): Bytes
    requires EndsWithCRLF(line)
  {
    line[..|line|-2]
  }

  lemma StemLine(input: Bytes, limit: nat, tail: Tail)
    requires TakeLine(input, limit, tail).Line?
    ensures var l := TakeLine(input, limit, tail); input == (Stem(l.text) + CRLF) + l.rest
  {
    var l := TakeLine(input, limit, tail);
    assert input == l.text + l.rest;
    assert l.text == Stem(l.text) + CRLF;
  }

  lemma JoinLast(last: Bytes, rest: Bytes)
    ensures (last + CRLF) + (([] + CRLF) + rest) == (last + CRLF + CRLF) + rest
  {
  }

  lemma JoinChunk(size: Bytes, data: Bytes, wire: Bytes, rest: Bytes)
    ensures (size + CRLF) + ((data + CRLF) + (wire + rest)) == (size + CRLF + data + CRLF + wire) + rest
  {
  }

  lemma HexHasNoLF(text: Bytes)
    requires IsHex(text)
    ensures LF !in text
  {
  }

  lemma {:induction false} DecodeSizeComplete(
      chunks: seq<Chunk>, last: Bytes, used: nat, mode: Mode, rest: Bytes, tail: Tail)
    requires WellFormed(chunks, last, used, mode)
    ensures DecodeSize(used, mode, Wire(chunks, last) + rest, tail) == Decoded(Payload(chunks), Done(rest))
    decreases |chunks|
  {
    hide TakeLine, Decode, HexValue, IsHex;
    var input := Wire(chunks, last) + rest;
    if chunks == [] {
      assert input == last + CRLF + (CRLF + rest);
      HexHasNoLF(last);
      LineTaken(last, CRLF + rest, LineLimit(mode.budget, used, |input|), tail);
      assert (last + CRLF)[..|last|] == last;
      assert CRLF + rest == [] + CRLF + rest;
      LineTaken([], rest, mode.trailerLimit, tail);
      assert [] + CRLF == CRLF;
    } else {
      var c := chunks[0];
      var next := Wire(chunks[1..], last) + rest;
      assert input == c.size + CRLF + (c.data + CRLF + next);
      HexHasNoLF(c.size);
      LineTaken(c.size, c.data + CRLF + next, LineLimit(mode.budget, used, |input|), tail);
      assert (c.size + CRLF)[..|c.size|] == c.size;
      var used' := Spent(mode.budget, used, |c.size| + 2);
      DecodeSizeComplete(chunks[1..], last, used', mode, rest, tail);
      ChunkThen(c.data, used', mode, next, tail);
    }
  }

  // Chunk data, the CRLF after it, and whatever size line follows.
  lemma ChunkThen(data: Bytes, used: nat, mode: Mode, next: Bytes, tail: Tail)
    requires data != []
    ensures Decode(Chunked(|data|, false), used, mode, data + CRLF + next, tail)
            == Prepend(data, DecodeSize(used, mode, next, tail))
  {
    hide DecodeSize, TakeLine;
    var input := data + CRLF + next;
    assert input[..|data|] == data && input[|data|..] == [] + CRLF + next;
    LineTaken([], next, 2, tail);
    assert Decode(Chunked(0, true), used, mode, [] + CRLF + next, tail) == DecodeSize(used, mode, next, tail);
  }

  // Every acceptable encoding decodes to its payload and is consumed exactly.
  lemma ChunkedComplete(chunks: seq<Chunk>, last: Bytes, mode: Mode, rest: Bytes, tail: Tail)
    requires WellFormed(chunks, last, 0, mode)
    ensures Decode(Chunked(0, false), 0, mode, Wire(chunks, last) + rest, tail) == Decoded(Payload(chunks), Done(rest))
  {
    DecodeSizeComplete(chunks, last, 0, mode, rest, tail);
  }

  lemma {:induction false} DecodeSizeSound(used: nat, mode: Mode, input: Bytes, tail: Tail)
      returns (chunks: seq<Chunk>, last: Bytes)
    requires DecodeSize(used, mode, input, tail).outcome.Done?
    ensures WellFormed(chunks, last, used, mode)
    ensures var d := DecodeSize(used, mode, input, tail);
            input == Wire(chunks, last) + d.outcome.rest && d.body == Payload(chunks)
    decreases |input|
  {
    var limit := LineLimit(mode.budget, used, |input|);
    var line := TakeLine(input, limit, tail);
    var text := Stem(line.text);
    StemLine(input, limit, tail);
    var size := HexValue(text);
    if size == 0 {
      chunks, last := [], text;
      StemLine(line.rest, mode.trailerLimit, tail);
      var rest := TakeLine(line.rest, mode.trailerLimit, tail).rest;
      JoinLast(last, rest);
    } else {
      var used' := Spent(mode.budget, used, |line.text|);
      var next := ChunkOf(size, used', mode, line.rest, tail);
      var more, final := DecodeSizeSound(used', mode, next, tail);
      var data := line.rest[..size];
      chunks, last := [Chunk(text, data)] + more, final;
      assert chunks[1..] == more;
      JoinChunk(text, data, Wire(more, last), DecodeSize(used', mode, next, tail).outcome.rest);
    }
  }

  lemma ChunkOf(size: nat, used: nat, mode: Mode, input: Bytes, tail: Tail) returns (next: Bytes)
    requires size > 0 && Decode(Chunked(size, false), used, mode, input, tail).outcome.Done?
    ensures size <= |input| && input == (input[..size] + CRLF) + next
    ensures Decode(Chunked(size, false), used, mode, input, tail) ==
            Prepend(input[..size], DecodeSize(used, mode, next, tail))
  {
    hide DecodeSize, TakeLine;
    var line := TakeLine(input[size..], 2, tail);
    next := line.rest;
    StemLine(input[size..], 2, tail);
    assert Stem(line.text) == [];
    assert input == input[..size] + (CRLF + next);
  }

  // Whatever the decoder accepts is an acceptable encoding of what it returns.
  lemma ChunkedSound(mode: Mode, input: Bytes, tail: Tail) returns (chunks: seq<Chunk>, last: Bytes)
    requires Decode(Chunked(0, false), 0, mode, input, tail).outcome.Done?
    ensures WellFormed(chunks, last, 0, mode)
    ensures var d := Decode(Chunked(0, false), 0, mode, input, tail);
            input == Wire(chunks, last) + d.outcome.rest && d.body == Payload(chunks)
  {
    chunks, last := DecodeSizeSound(0, mode, input, tail);
  }

  // ----- chunk sizes, spelled from the tables of digits -----

  const UPPER: string := "0123456789ABCDEF"
  const LOWER: string := "0123456789abcdef"

  datatype Digit = Digit(value: nat, upper: bool)

  predicate Digits(ds: seq<Digit>) {
    forall i :: 0 <= i < |ds| ==> ds[i].value < 16
  }

  function Spell(d: Digit): Byte
    requires d.value < 16
  {
    (if d.upper then UPPER[d.value] else LOWER[d.value]) as int
  }

  function Text(ds: seq<Digit>): (text: Bytes)
    requires Digits(ds)
    ensures |text| == |ds|
  {
    seq(|ds|, i requires 0 <= i < |ds| => Spell(ds[i]))
  }

  function Number(ds: seq<Digit>): nat {
    if ds == [] then 0 else 16 * Number(ds[..|ds|-1]) + ds[|ds|-1].value
  }

  // Either spelling of a digit is worth its place in the table.
  lemma DigitValue(d: Digit)
    requires d.value < 16
    ensures IsHexDigit(Spell(d)) && HexDigitValue(Spell(d)) == d.value
  {
  }

  // And nothing else is a digit.
  lemma OnlyTheseDigits(b: Byte)
    ensures IsHexDigit(b) <==> exists v: nat :: v < 16 && (UPPER[v] as int == b || LOWER[v] as int == b)
  {
    if IsHexDigit(b) {
      var v := HexDigitValue(b);
      assert v < 16 && (UPPER[v] as int == b || LOWER[v] as int == b);
    }
  }

  lemma {:induction false} TextValue(ds: seq<Digit>)
    requires Digits(ds)
    ensures IsHex(Text(ds)) && HexValue(Text(ds)) == Number(ds)
    decreases |ds|
  {
    hide Spell, IsHexDigit, HexDigitValue;
    forall i | 0 <= i < |ds| ensures IsHexDigit(Text(ds)[i]) {
      DigitValue(ds[i]);
    }
    if ds != [] {
      var n := |ds| - 1;
      TextValue(ds[..n]);
      assert Text(ds)[..n] == Text(ds[..n]);
      DigitValue(ds[n]);
    }
  }

  // Every size has a spelling.
  function Spelling(n: nat): (ds: seq<Digit>)
    ensures ds != [] && Digits(ds) && Number(ds) == n
  {
    if n < 16 then [Digit(n, false)]
    else
      var head := Spelling(n / 16);
      assert (head + [Digit(n % 16, false)])[..|head|] == head;
      head + [Digit(n % 16, false)]
  }

  function Spelled(sizes: seq<seq<Digit>>, data: seq<Bytes>): (chunks: seq<Chunk>)
    requires |sizes| == |data| && forall i :: 0 <= i < |sizes| ==> Digits(sizes[i])
    ensures |chunks| == |data|
  {
    if data == [] then [] else [Chunk(Text(sizes[0]), data[0])] + Spelled(sizes[1..], data[1..])
  }

  // The bytes all size lines take together.
  function LineBytes(sizes: seq<seq<Digit>>): nat {
    if sizes == [] then 0 else |sizes[0]| + 2 + LineBytes(sizes[1..])
  }

  // Sizes, in any spelling and with any leading zeros, that are those of the data.
  predicate Sized(sizes: seq<seq<Digit>>, data: seq<Bytes>, sizeMax: nat) {
    && |sizes| == |data|
    && forall i :: 0 <= i < |data| ==> Digits(sizes[i]) && data[i] != [] && Number(sizes[i]) == |data[i]| <= sizeMax
  }

  lemma {:induction false} SpelledWellFormed(
      sizes: seq<seq<Digit>>, data: seq<Bytes>, last: seq<Digit>, used: nat, mode: Mode)
    requires Sized(sizes, data, mode.sizeMax) && 2 <= mode.trailerLimit
    requires Digits(last) && last != [] && Number(last) == 0
    requires mode.budget.EachLine? ==>
               |last| + 2 <= mode.budget.max && forall i :: 0 <= i < |sizes| ==> |sizes[i]| + 2 <= mode.budget.max
    requires mode.budget.AllLines? ==> used + LineBytes(sizes) + |last| + 2 <= mode.budget.max
    requires mode.chunkMax.Some? ==> forall i :: 0 <= i < |data| ==> |data[i]| <= mode.chunkMax.value
    ensures WellFormed(Spelled(sizes, data), Text(last), used, mode)
    ensures Payload(Spelled(sizes, data)) == Flatten(data)
    decreases |data|
  {
    hide Text, HexValue, Number;
    TextValue(last);
    if data != [] {
      TextValue(sizes[0]);
      NotEmpty(sizes[0]);
      assert Spelled(sizes, data)[1..] == Spelled(sizes[1..], data[1..]);
      SpelledWellFormed(sizes[1..], data[1..], last, Spent(mode.budget, used, |sizes[0]| + 2), mode);
    }
  }

  lemma NotEmpty(ds: seq<Digit>)
    requires Number(ds) > 0
    ensures ds != []
  {
  }

  // Any non-empty chunks, encoded with sizes in any mix of cases, stream back as
  // the same bytes, consuming exactly through the final CRLF.
  lemma ChunkedRoundTrip(sizes: seq<seq<Digit>>, data: seq<Bytes>, last: seq<Digit>,
                         trailerLimit: nat, sizeMax: nat, rest: Bytes, tail: Tail)
    requires Sized(sizes, data, sizeMax) && Digits(last) && last != [] && Number(last) == 0 && 2 <= trailerLimit
    requires |last| <= 1022 && forall i :: 0 <= i < |sizes| ==> |sizes[i]| <= 1022
    ensures Decode(Chunked(0, false), 0, ModeOf(false, trailerLimit, sizeMax),
                   Wire(Spelled(sizes, data), Text(last)) + rest, tail)
            == Decoded(Flatten(data), Done(rest))
  {
    hide Text, Number, WellFormed, Wire, Payload;
    var mode := ModeOf(false, trailerLimit, sizeMax);
    SpelledWellFormed(sizes, data, last, 0, mode);
    ChunkedComplete(Spelled(sizes, data), Text(last), mode, rest, tail);
  }

  // Buffered, they read back if the body is at most 8 MiB and the size lines take
  // at most 64 KiB in all.
  lemma BufferedRoundTrip(sizes: seq<seq<Digit>>, data: seq<Bytes>, last: seq<Digit>,
                          trailerLimit: nat, sizeMax: nat, rest: Bytes, tail: Tail)
    requires Sized(sizes, data, sizeMax) && Digits(last) && last != [] && Number(last) == 0 && 2 <= trailerLimit
    requires LineBytes(sizes) + |last| + 2 <= 65536 && |Flatten(data)| <= 8388608
    ensures Whole(Chunked(0, false), trailerLimit, sizeMax, Wire(Spelled(sizes, data), Text(last)) + rest, tail)
            == Ok(Flatten(data))
  {
    hide Text, Number, WellFormed, Wire, Payload;
    var mode := ModeOf(true, trailerLimit, sizeMax);
    forall i | 0 <= i < |data| ensures |data[i]| <= MAX_BODY {
      PieceWithin(data, i);
    }
    SpelledWellFormed(sizes, data, last, 0, mode);
    ChunkedComplete(Spelled(sizes, data), Text(last), mode, rest, tail);
  }

  lemma {:induction false} PieceWithin(data: seq<Bytes>, i: nat)
    requires i < |data|
    ensures |data[i]| <= |Flatten(data)|
  {
    if i > 0 {
      PieceWithin(data[1..], i - 1);
    }
  }

  // ----- buffered against streaming -----

  // A chunk header of the stream: the bytes its line takes, and its size.
  datatype Header = Header(line: nat, size: nat)

  // The chunk headers the bare grammar finds.
  function Headers(f: Framing, sizeMax: nat, input: Bytes, tail: Tail): seq<Header>
    decreases |input|, 1
  {
    match f
    case Chunked(n, ending) =>
      if n > 0 then
        if |input| >= n then Headers(Chunked(0, true), sizeMax, input[n..], tail) else []
      else if ending then
        match TakeLine(input, 2, tail)
        case NoLine(_) => []
        case Line(_, rest) => SizeHeaders(sizeMax, rest, tail)
      else SizeHeaders(sizeMax, input, tail)
    case _ => []
  }

  function SizeHeaders(sizeMax: nat, input: Bytes, tail: Tail): seq<Header>
    decreases |input|, 0
  {
    match TakeLine(input, |input|, tail)
    case NoLine(_) => []
    case Line(text, rest) =>
      match ParseSize(text[..|text|-2], sizeMax)
      case None => []
      case Some(size) =>
        [Header(|text|, size)] + if size == 0 then [] else Headers(Chunked(size, false), sizeMax, rest, tail)
  }

  predicate Affordable(mode: Mode, used: nat, hs: seq<Header>)
    decreases |hs|
  {
    hs == [] || (
      && hs[0].line <= LineLimit(mode.budget, used, hs[0].line)
      && (mode.chunkMax.Some? ==> hs[0].size <= mode.chunkMax.value)
      && Affordable(mode, Spent(mode.budget, used, hs[0].line), hs[1..]))
  }

  // A line that fits its bound is the line any looser bound gives.
  lemma LineUnderLimit(input: Bytes, limit: nat, loose: nat, tail: Tail)
    requires |input| <= loose
    ensures TakeLine(input, limit, tail).Line? <==>
            TakeLine(input, loose, tail).Line? && |TakeLine(input, loose, tail).text| <= limit
    ensures TakeLine(input, limit, tail).Line? ==> TakeLine(input, limit, tail) == TakeLine(input, loose, tail)
  {
  }

  // Limits only ever turn success into failure, and exactly when the chunk
  // headers cannot be afforded.
  lemma {:induction false} SuccessIff(f: Framing, used: nat, mode: Mode, input: Bytes, tail: Tail)
    ensures var strict := Decode(f, used, mode, input, tail);
            var loose := Decode(f, 0, Loose(mode), input, tail);
            && (strict.outcome.Done? <==>
                  loose.outcome.Done? && Affordable(mode, used, Headers(f, mode.sizeMax, input, tail)))
            && (strict.outcome.Done? ==> strict == loose)
    decreases |input|, 1
  {
    hide TakeLine, DecodeSize, SizeHeaders;
    match f {
      case Chunked(n, ending) =>
        if n > 0 {
          if |input| >= n {
            SuccessIff(Chunked(0, true), used, mode, input[n..], tail);
          }
        } else if ending {
          var l := TakeLine(input, 2, tail);
          if l.Line? {
            SizeSuccessIff(used, mode, l.rest, tail);
          }
        } else {
          SizeSuccessIff(used, mode, input, tail);
        }
      case _ =>
    }
  }

  lemma {:induction false} SizeSuccessIff(used: nat, mode: Mode, input: Bytes, tail: Tail)
    ensures var strict := DecodeSize(used, mode, input, tail);
            var loose := DecodeSize(0, Loose(mode), input, tail);
            && (strict.outcome.Done? <==>
                  loose.outcome.Done? && Affordable(mode, used, SizeHeaders(mode.sizeMax, input, tail)))
            && (strict.outcome.Done? ==> strict == loose)
    decreases |input|, 0
  {
    hide TakeLine, ParseSize, Decode, Headers, HexValue;
    var limit := LineLimit(mode.budget, used, |input|);
    LineUnderLimit(input, limit, |input|, tail);
    var l := TakeLine(input, |input|, tail);
    if l.Line? {
      assert |l.text| <= limit <==> |l.text| <= LineLimit(mode.budget, used, |l.text|);
      var size := ParseSize(Stem(l.text), mode.sizeMax);
      if size.Some? && size.value > 0 {
        var hs := SizeHeaders(mode.sizeMax, input, tail);
        assert hs[1..] == Headers(Chunked(size.value, false), mode.sizeMax, l.rest, tail);
        SuccessIff(Chunked(size.value, false), Spent(mode.budget, used, |l.text|), mode, l.rest, tail);
      }
    }
  }

  function TotalLines(hs: seq<Header>): nat {
    if hs == [] then 0 else hs[0].line + TotalLines(hs[1..])
  }

  predicate LinesWithin(hs: seq<Header>, max: nat) {
    forall i :: 0 <= i < |hs| ==> hs[i].line <= max
  }

  predicate SizesWithin(hs: seq<Header>, max: nat) {
    forall i :: 0 <= i < |hs| ==> hs[i].size <= max
  }

  lemma {:induction false} AffordableEach(mode: Mode, used: nat, hs: seq<Header>)
    decreases |hs|
    requires mode.budget.EachLine? && mode.chunkMax.None?
    ensures Affordable(mode, used, hs) <==> LinesWithin(hs, mode.budget.max)
  {
    if hs != [] {
      AffordableEach(mode, 0, hs[1..]);
      assert hs == [hs[0]] + hs[1..];
      assert LinesWithin(hs, mode.budget.max) <==>
        hs[0].line <= mode.budget.max && LinesWithin(hs[1..], mode.budget.max);
    }
  }

  lemma {:induction false} AffordableAll(mode: Mode, used: nat, hs: seq<Header>)
    decreases |hs|
    requires mode.budget.AllLines? && mode.chunkMax.Some? && used <= mode.budget.max
    ensures Affordable(mode, used, hs) <==>
            used + TotalLines(hs) <= mode.budget.max && SizesWithin(hs, mode.chunkMax.value)
  {
    if hs != [] {
      if used + hs[0].line <= mode.budget.max {
        AffordableAll(mode, used + hs[0].line, hs[1..]);
      }
      assert hs == [hs[0]] + hs[1..];
      assert SizesWithin(hs, mode.chunkMax.value) <==>
        hs[0].size <= mode.chunkMax.value && SizesWithin(hs[1..], mode.chunkMax.value);
    }
  }

  // Each announced chunk is part of the body.
  lemma {:induction false} SizesInBody(f: Framing, mode: Mode, input: Bytes, tail: Tail)
    requires mode == Loose(mode) && Decode(f, 0, mode, input, tail).outcome.Done?
    ensures SizesWithin(Headers(f, mode.sizeMax, input, tail), |Decode(f, 0, mode, input, tail).body|)
    ensures f.Chunked? ==> f.remaining <= |Decode(f, 0, mode, input, tail).body|
    decreases |input|, 1
  {
    hide TakeLine, DecodeSize, SizeHeaders;
    match f {
      case Chunked(n, ending) =>
        if n > 0 {
          SizesInBody(Chunked(0, true), mode, input[n..], tail);
        } else if ending {
          SizesInSizes(mode, TakeLine(input, 2, tail).rest, tail);
        } else {
          SizesInSizes(mode, input, tail);
        }
      case _ =>
    }
  }

  lemma {:induction false} SizesInSizes(mode: Mode, input: Bytes, tail: Tail)
    requires mode == Loose(mode) && DecodeSize(0, mode, input, tail).outcome.Done?
    ensures SizesWithin(SizeHeaders(mode.sizeMax, input, tail), |DecodeSize(0, mode, input, tail).body|)
    decreases |input|, 0
  {
    var l := TakeLine(input, |input|, tail);
    var size := ParseSize(Stem(l.text), mode.sizeMax).value;
    if size > 0 {
      SizesInBody(Chunked(size, false), mode, l.rest, tail);
    }
  }

  // A buffered read succeeds exactly when the grammar does, size lines take at
  // most MAX_HEAD bytes in all, and the body at most MAX_BODY.
  lemma BufferedIff(f: Framing, trailerLimit: nat, sizeMax: nat, input: Bytes, tail: Tail)
    ensures var bare := Decode(f, 0, Mode(Unbounded, None, trailerLimit, sizeMax), input, tail);
            var whole := Whole(f, trailerLimit, sizeMax, input, tail);
            && (whole.Ok? <==>
                  && bare.outcome.Done? && |bare.body| <= 8_388_608
                  && TotalLines(Headers(f, sizeMax, input, tail)) <= 65_536)
            && (whole.Ok? ==> whole.value == bare.body)
  {
    var mode := ModeOf(true, trailerLimit, sizeMax);
    var hs := Headers(f, sizeMax, input, tail);
    SuccessIff(f, 0, mode, input, tail);
    AffordableAll(mode, 0, hs);
    if Decode(f, 0, Loose(mode), input, tail).outcome.Done? {
      SizesInBody(f, Loose(mode), input, tail);
    }
  }

  // Streaming succeeds exactly when the grammar does and every size line fits.
  lemma StreamingIff(f: Framing, trailerLimit: nat, sizeMax: nat, input: Bytes, tail: Tail)
    ensures var bare := Decode(f, 0, Mode(Unbounded, None, trailerLimit, sizeMax), input, tail);
            var stream := Decode(f, 0, ModeOf(false, trailerLimit, sizeMax), input, tail);
            && (stream.outcome.Done? <==>
                  bare.outcome.Done? && LinesWithin(Headers(f, sizeMax, input, tail), 1_024))
            && (stream.outcome.Done? ==> stream == bare)
  {
    var mode := ModeOf(false, trailerLimit, sizeMax);
    SuccessIff(f, 0, mode, input, tail);
    AffordableEach(mode, 0, Headers(f, sizeMax, input, tail));
  }

  // When both modes succeed they deliver the same body, and whenever buffered
  // succeeds, streaming does exactly if no size line is over MAX_CHUNK_LINE.
  lemma ModesAgree(f: Framing, trailerLimit: nat, sizeMax: nat, input: Bytes, tail: Tail)
    requires Whole(f, trailerLimit, sizeMax, input, tail).Ok?
    ensures var stream := Decode(f, 0, ModeOf(false, trailerLimit, sizeMax), input, tail);
            && (stream.outcome.Done? ==> stream.body == Whole(f, trailerLimit, sizeMax, input, tail).value)
            && (stream.outcome.Done? <==> LinesWithin(Headers(f, sizeMax, input, tail), 1_024))
  {
    BufferedIff(f, trailerLimit, sizeMax, input, tail);
    StreamingIff(f, trailerLimit, sizeMax, input, tail);
  }
}
