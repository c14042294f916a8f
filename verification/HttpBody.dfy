// Bounded HTTP/1.1 response bodies: an incremental decoder over a buffered
// reader that may split the stream anywhere (crates/locho-web/src/http.rs).

module HttpBody {
  import opened Bytes
  import opened HttpText

  const MAX_BODY: nat := 8 * 1024 * 1024
  const READ_BYTES: nat := 16 * 1024
  const MAX_CHUNK_LINE: nat := 1024

  datatype HttpError =
    | Transport | IdleTimeout
    | TruncatedResponse | ResponseLimit | InvalidResponse
    | UnsupportedTrailers | UnsupportedResponse | UnsupportedFraming | UnsupportedEncoding

  // What a read finds once every piece was consumed.
  datatype Tail = EndOfStream | Broken(error: HttpError)

  function TailError(tail: Tail): HttpError {
    match tail
    case EndOfStream => TruncatedResponse
    case Broken(e) => e
  }

  // ----- lines -----

  datatype LineResult = Line(text: Bytes, rest: Bytes) | NoLine(error: HttpError)

  predicate EndsWithCRLF(s: Bytes) {
    2 <= |s| && s[|s|-2] == CR && s[|s|-1] == LF
  }

  // One line of at most `limit` bytes, seen over the whole remaining stream.
  function TakeLine(input: Bytes, limit: nat, tail: Tail): (r: LineResult)
    ensures r.Line? ==> |r.text| <= limit && EndsWithCRLF(r.text) && |r.text| + |r.rest| == |input|
  {
    var k := First(LF, input);
    if k < |input| then
      if k + 1 > limit then NoLine(ResponseLimit)
      else if !EndsWithCRLF(input[..k + 1]) then NoLine(InvalidResponse)
      else Line(input[..k + 1], input[k + 1..])
    else if |input| > limit then NoLine(ResponseLimit)
    else NoLine(TailError(tail))
  }

  // ----- hexadecimal chunk sizes -----

  predicate IsHexDigit(b: Byte) {
    48 <= b <= 57 || 65 <= b <= 70 || 97 <= b <= 102
  }

  function HexDigitValue(b: Byte): (v: nat)
    requires IsHexDigit(b)
    ensures v < 16
  {
    if b <= 57 then b - 48 else if b <= 70 then b - 55 else b - 87
  }

  predicate IsHex(s: Bytes) {
    forall i :: 0 <= i < |s| ==> IsHexDigit(s[i])
  }

  function HexValue(s: Bytes): nat
    requires IsHex(s)
  {
    if s == [] then 0 else 16 * HexValue(s[..|s|-1]) + HexDigitValue(s[|s|-1])
  }

  // `sizeMax` is the largest machine word: 2^32 - 1 in the browser, 2^64 - 1 natively.
  function ParseSize(text: Bytes, sizeMax: nat): Option<nat> {
    if text == [] || !IsHex(text) || HexValue(text) > sizeMax then None
    else Some(HexValue(text))
  }

  // ----- framing and the whole-input reference decoder -----

  datatype Framing =
    | Empty
    | Length(n: nat)
    | Chunked(remaining: nat, ending: bool)
    | Eof

  // How many bytes chunk-size lines may take: no bound (the bare grammar), a
  // bound for each line (streaming), or one for all lines together (buffered).
  datatype LineBudget = Unbounded | EachLine(max: nat) | AllLines(max: nat)

  datatype Mode = Mode(budget: LineBudget, chunkMax: Option<nat>, trailerLimit: nat, sizeMax: nat)

  function ModeOf(buffered: bool, trailerLimit: nat, sizeMax: nat): Mode {
    if buffered then Mode(AllLines(MAX_HEAD), Some(MAX_BODY), trailerLimit, sizeMax)
    else Mode(EachLine(MAX_CHUNK_LINE), None, trailerLimit, sizeMax)
  }

  // The same grammar with neither line nor chunk bounds.
  function Loose(mode: Mode): Mode {
    mode.(budget := Unbounded, chunkMax := None)
  }

  // The bytes a size line may take; `line` is as good as no bound.
  function LineLimit(budget: LineBudget, used: nat, line: nat): nat {
    match budget
    case Unbounded => line
    case EachLine(max) => max
    case AllLines(max) => if used <= max then max - used else 0
  }

  function Spent(budget: LineBudget, used: nat, line: nat): nat {
    if budget.AllLines? then used + line else 0
  }

  datatype Outcome = Done(rest: Bytes) | Failed(error: HttpError)
  datatype Decoded = Decoded(body: Bytes, outcome: Outcome)

  function Prepend(bytes: Bytes, d: Decoded): Decoded {
    Decoded(bytes + d.body, d.outcome)
  }

  function Fail(e: HttpError): Decoded { Decoded([], Failed(e)) }

  // Takes `n` bytes, or all of a stream that ends too early.
  function TakeExact(n: nat, input: Bytes, tail: Tail): Decoded {
    if |input| >= n then Decoded(input[..n], Done(input[n..]))
    else Decoded(input, Failed(TailError(tail)))
  }

  function Decode(f: Framing, used: nat, mode: Mode, input: Bytes, tail: Tail): Decoded
    decreases |input|, 1
  {
    match f
    case Empty => Decoded([], Done(input))
    case Length(n) => TakeExact(n, input, tail)
    case Eof => Decoded(input, if tail.EndOfStream? then Done([]) else Failed(tail.error))
    case Chunked(n, ending) =>
      if n > 0 then
        var d := TakeExact(n, input, tail);
        if d.outcome.Done? then Prepend(d.body, Decode(Chunked(0, true), used, mode, d.outcome.rest, tail)) else d
      else if ending then
        match TakeLine(input, 2, tail)
        case NoLine(e) => Fail(e)
        case Line(_, rest) => DecodeSize(used, mode, rest, tail)
      else DecodeSize(used, mode, input, tail)
  }

  function DecodeSize(used: nat, mode: Mode, input: Bytes, tail: Tail): Decoded
    decreases |input|, 0
  {
    match TakeLine(input, LineLimit(mode.budget, used, |input|), tail)
    case NoLine(e) => Fail(e)
    case Line(text, rest) =>
      AfterSize(ParseSize(text[..|text|-2], mode.sizeMax), Spent(mode.budget, used, |text|), mode, rest, tail)
  }

  function AfterSize(size: Option<nat>, used: nat, mode: Mode, input: Bytes, tail: Tail): Decoded
    decreases |input|, 2
  {
    if size.None? then Fail(InvalidResponse)
    else if size.value == 0 then DecodeTrailer(mode, input, tail)
    else if mode.chunkMax.Some? && size.value > mode.chunkMax.value then Fail(ResponseLimit)
    else Decode(Chunked(size.value, false), used, mode, input, tail)
  }

  // No trailer fields are supported: the final line must be blank.
  function DecodeTrailer(mode: Mode, input: Bytes, tail: Tail): Decoded {
    match TakeLine(input, mode.trailerLimit, tail)
    case NoLine(e) => Fail(e)
    case Line(text, rest) => if text == CRLF then Decoded([], Done(rest)) else Fail(UnsupportedTrailers)
  }

  // ----- the buffered reader -----

  class Reader {
    // Every byte still to come; the first `filled` of them are in the buffer.
    var left: Bytes
    var filled: nat
    // How many bytes each coming read delivers: any split of the stream.
    var deliveries: seq<nat>
    const tail: Tail

    constructor (input: Bytes, deliveries: seq<nat>, tail: Tail)
      ensures Valid() && left == input && this.deliveries == deliveries && this.tail == tail
    {
      this.left := input;
      this.filled := 0;
      this.deliveries := deliveries;
      this.tail := tail;
    }

    ghost predicate Valid() reads this {
      filled <= |left|
    }

    // The buffer, refilled when empty; an empty result means end of stream.
    method FillBuf() returns (r: Result<Bytes, HttpError>)
      requires Valid()
      modifies this`filled, this`deliveries
      ensures Valid()
      ensures r.Ok? && r.value != [] ==> r.value == left[..filled]
      ensures r.Ok? && r.value == [] ==> left == [] && tail.EndOfStream?
      ensures r.Err? ==> left == [] && tail == Broken(r.error)
    {
      if left == [] {
        return if tail.EndOfStream? then Ok([]) else Err(tail.error);
      }
      if filled == 0 {
        filled := if deliveries == [] || deliveries[0] > |left| then |left|
                  else if deliveries[0] == 0 then 1 else deliveries[0];
        deliveries := if deliveries == [] then [] else deliveries[1..];
      }
      return Ok(left[..filled]);
    }

    method Consume(count: nat)
      requires Valid() && count <= filled
      modifies this`left, this`filled
      ensures Valid()
      ensures count <= |old(left)| && left == old(left)[count..]
    {
      left := left[count..];
      filled := filled - count;
    }

    // Takes at most `max` buffered bytes; nothing at the end of the stream.
    method TakeSome(max: nat) returns (r: Result<Bytes, HttpError>)
      requires Valid() && max > 0
      modifies this
      ensures Valid()
      ensures r.Ok? ==> old(left) == r.value + left && |r.value| <= max
      ensures r.Ok? && r.value == [] ==> left == [] && tail.EndOfStream?
      ensures r.Err? ==> left == old(left) == [] && tail == Broken(r.error)
    {
      r := FillBuf();
      if r.Ok? && r.value != [] {
        var count := if max <= |r.value| then max else |r.value|;
        r := Ok(r.value[..count]);
        Consume(count);
      }
    }

    // Takes buffered bytes through the first line feed if they fit in `room`.
    method TakeThroughLF(room: nat) returns (r: Result<Bytes, HttpError>)
      requires Valid()
      modifies this
      ensures Valid()
      ensures r.Ok? ==> r.value != [] && old(left) == r.value + left && |r.value| <= room
      ensures r.Ok? ==> NoneBefore(LF, r.value, |r.value| - 1)
      ensures r.Err? ==> left == old(left)
      ensures r.Err? && left == [] ==> r.error == TailError(tail)
      ensures r.Err? && left != [] ==> r.error == ResponseLimit && room < |left| && NoneBefore(LF, left, room)
    {
      r := FillBuf();
      if r.Err? {
        return;
      }
      if r.value == [] {
        return Err(TruncatedResponse);
      }
      var k := First(LF, r.value);
      FirstIff(LF, r.value, k);
      var count := if k < |r.value| then k + 1 else |r.value|;
      if count > room {
        return Err(ResponseLimit);
      }
      r := Ok(r.value[..count]);
      Consume(count);
    }
  }

  lemma LineEnds(out: Bytes, limit: nat, tail: Tail)
    requires NoneBefore(LF, out, |out|) && |out| <= limit
    ensures TakeLine(out, limit, tail) == NoLine(TailError(tail))
  {
    FirstIff(LF, out, |out|);
  }

  lemma LineTooLong(out: Bytes, rest: Bytes, limit: nat, tail: Tail)
    requires NoneBefore(LF, out, |out|) && |out| <= limit < |out| + |rest| && NoneBefore(LF, rest, limit - |out|)
    ensures TakeLine(out + rest, limit, tail) == NoLine(ResponseLimit)
  {
    FirstIff(LF, out + rest, First(LF, out + rest));
    assert NoneBefore(LF, out + rest, limit);
  }

  lemma LineFound(out: Bytes, rest: Bytes, limit: nat, tail: Tail)
    requires out != [] && NoneBefore(LF, out, |out| - 1) && out[|out|-1] == LF && |out| <= limit
    ensures TakeLine(out + rest, limit, tail) ==
            if EndsWithCRLF(out) then Line(out, rest) else NoLine(InvalidResponse)
  {
    FirstIff(LF, out + rest, |out| - 1);
    assert (out + rest)[..|out|] == out && (out + rest)[|out|..] == rest;
  }

  // A split line is the same line: bounded the same way, failing the same way.
  method ReadLine(reader: Reader, limit: nat) returns (r: Result<Bytes, HttpError>)
    requires reader.Valid()
    modifies reader
    ensures reader.Valid() && |reader.left| <= |old(reader.left)|
    ensures TakeLine(old(reader.left), limit, reader.tail) ==
            if r.Ok? then Line(r.value, reader.left) else NoLine(r.error)
  {
    ghost var input := reader.left;
    var out: Bytes := [];
    while true
      invariant reader.Valid()
      invariant input == out + reader.left
      invariant NoneBefore(LF, out, |out|) && |out| <= limit
      decreases |reader.left|
    {
      var part := reader.TakeThroughLF(limit - |out|);
      if part.Err? {
        if reader.left == [] {
          assert input == out;
          LineEnds(out, limit, reader.tail);
        } else {
          LineTooLong(out, reader.left, limit, reader.tail);
        }
        return Err(part.error);
      }
      out := out + part.value;
      assert input == out + reader.left;
      if out[|out|-1] == LF {
        LineFound(out, reader.left, limit, reader.tail);
        return if EndsWithCRLF(out) then Ok(out) else Err(InvalidResponse);
      }
    }
  }

  // ----- the body -----

  class Body {
    const reader: Reader
    var framing: Framing
    var framingBytes: nat
    const trailerLimit: nat
    const sizeMax: nat

    constructor (reader: Reader, framing: Framing, trailerLimit: nat, sizeMax: nat)
      ensures this.reader == reader && this.framing == framing && framingBytes == 0
      ensures this.trailerLimit == trailerLimit && this.sizeMax == sizeMax
    {
      this.reader := reader;
      this.framing := framing;
      this.framingBytes := 0;
      this.trailerLimit := trailerLimit;
      this.sizeMax := sizeMax;
    }

    // All the reference decoder still owes from here.
    ghost function Pending(buffered: bool): Decoded
      reads this, reader
    {
      Decode(framing, framingBytes, ModeOf(buffered, trailerLimit, sizeMax), reader.left, reader.tail)
    }

    predicate IsEmpty() reads this {
      framing == Empty || framing == Length(0)
    }

    method ReadTrailer(ghost buffered: bool) returns (r: Result<(), HttpError>)
      requires reader.Valid()
      modifies this`framing, reader
      ensures reader.Valid() && |reader.left| <= |old(reader.left)|
      ensures r.Ok? ==> framing == Empty
      ensures DecodeTrailer(ModeOf(buffered, trailerLimit, sizeMax), old(reader.left), reader.tail)
              == if r.Ok? then Decoded([], Done(reader.left)) else Fail(r.error)
    {
      var trailer := ReadLine(reader, trailerLimit);
      if trailer.Err? {
        return Err(trailer.error);
      }
      if trailer.value != CRLF {
        return Err(UnsupportedTrailers);
      }
      framing := Empty;
      return Ok(());
    }

    // The chunk-size line, and the trailer after a size of zero.
    method ReadSize(buffered: bool) returns (r: Result<(), HttpError>)
      requires reader.Valid()
      modifies this`framing, this`framingBytes, reader
      ensures reader.Valid()
      ensures r.Ok? ==> |reader.left| < |old(reader.left)|
      ensures r.Ok? ==> framing == Empty || (framing.Chunked? && framing.remaining > 0)
      ensures DecodeSize(old(framingBytes), ModeOf(buffered, trailerLimit, sizeMax), old(reader.left), reader.tail)
              == if r.Ok? then Pending(buffered) else Fail(r.error)
    {
      hide TakeLine, AfterSize, ParseSize;
      var limit := if !buffered then MAX_CHUNK_LINE
                   else if framingBytes <= MAX_HEAD then MAX_HEAD - framingBytes else 0;
      var line := ReadLine(reader, limit);
      if line.Err? {
        return Err(line.error);
      }
      framingBytes := if buffered then framingBytes + |line.value| else 0;
      r := ApplySize(ParseSize(line.value[..|line.value|-2], sizeMax), buffered);
    }

    method ApplySize(size: Option<nat>, buffered: bool) returns (r: Result<(), HttpError>)
      requires reader.Valid()
      modifies this`framing, reader
      ensures reader.Valid() && |reader.left| <= |old(reader.left)|
      ensures r.Ok? ==> framing == Empty || (framing.Chunked? && framing.remaining > 0)
      ensures AfterSize(size, framingBytes, ModeOf(buffered, trailerLimit, sizeMax), old(reader.left), reader.tail)
              == if r.Ok? then Pending(buffered) else Fail(r.error)
    {
      if size.None? {
        return Err(InvalidResponse);
      }
      if size.value == 0 {
        r := ReadTrailer(buffered);
        return;
      }
      if buffered && size.value > MAX_BODY {
        return Err(ResponseLimit);
      }
      framing := Chunked(size.value, false);
      return Ok(());
    }

    // From a chunk boundary to the next data, or to the end of the body.
    method NextChunk(buffered: bool) returns (r: Result<(), HttpError>)
      requires reader.Valid() && framing.Chunked? && framing.remaining == 0
      modifies this`framing, this`framingBytes, reader
      ensures reader.Valid()
      ensures r.Ok? ==> |reader.left| < |old(reader.left)|
      ensures r.Ok? ==> framing == Empty || (framing.Chunked? && framing.remaining > 0)
      ensures old(Pending(buffered)) == if r.Ok? then Pending(buffered) else Fail(r.error)
    {
      if framing.ending {
        var crlf := ReadLine(reader, 2);
        if crlf.Err? {
          return Err(crlf.error);
        }
        if crlf.value != CRLF {
          return Err(InvalidResponse);
        }
      }
      r := ReadSize(buffered);
    }

    // One `next` call: it hands out the first bytes the reference decoder still
    // owes, reports the end exactly when nothing is owed and decoding succeeds,
    // and otherwise fails as the reference decoder does.
    method Next(buffered: bool) returns (r: Result<Option<Bytes>, HttpError>)
      requires reader.Valid()
      modifies this`framing, this`framingBytes, reader
      ensures reader.Valid()
      ensures match r
              case Ok(Some(out)) =>
                0 < |out| <= READ_BYTES && |reader.left| + |out| <= |old(reader.left)| &&
                old(Pending(buffered)) == Prepend(out, Pending(buffered))
              case Ok(None) =>
                IsEmpty() && old(Pending(buffered)) == Pending(buffered) == Decoded([], Done(reader.left))
              case Err(e) => old(Pending(buffered)) == Fail(e)
    {
      if framing.Chunked? && framing.remaining == 0 {
        var chunk := NextChunk(buffered);
        if chunk.Err? {
          return Err(chunk.error);
        }
      }
      if IsEmpty() {
        return Ok(None);
      }
      r := TakeData(buffered);
    }

    // Data of the current framing, at most READ_BYTES of it.
    method TakeData(ghost buffered: bool) returns (r: Result<Option<Bytes>, HttpError>)
      requires reader.Valid() && !IsEmpty() && (framing.Chunked? ==> framing.remaining > 0)
      modifies this`framing, reader
      ensures reader.Valid()
      ensures match r
              case Ok(Some(out)) =>
                0 < |out| <= READ_BYTES && |reader.left| + |out| <= |old(reader.left)| &&
                old(Pending(buffered)) == Prepend(out, Pending(buffered))
              case Ok(None) =>
                IsEmpty() && old(Pending(buffered)) == Pending(buffered) == Decoded([], Done(reader.left))
              case Err(e) => old(Pending(buffered)) == Fail(e)
    {
      var due := match framing case Length(n) => n case Chunked(n, _) => n case _ => READ_BYTES;
      ghost var input := reader.left;
      var bytes := reader.TakeSome(if due <= READ_BYTES then due else READ_BYTES);
      if bytes.Err? {
        DecodeAtEnd(framing, framingBytes, ModeOf(buffered, trailerLimit, sizeMax), reader.tail);
        return Err(bytes.error);
      }
      var out := bytes.value;
      assert input == out + reader.left;
      if out == [] {
        DecodeAtEnd(framing, framingBytes, ModeOf(buffered, trailerLimit, sizeMax), reader.tail);
        if framing != Eof {
          return Err(TruncatedResponse);
        }
        framing := Empty;
        return Ok(None);
      }
      ghost var mode := ModeOf(buffered, trailerLimit, sizeMax);
      DecodeTaken(framing, framingBytes, mode, out, reader.left, reader.tail);
      framing := Advance(framing, |out|);
      return Ok(Some(out));
    }
  }

  // The framing left after `count` data bytes were taken.
  function Advance(f: Framing, count: nat): Framing
    requires f.Length? ==> count <= f.n
    requires f.Chunked? ==> count <= f.remaining
  {
    match f
    case Length(n) => Length(n - count)
    case Chunked(n, _) => Chunked(n - count, n == count)
    case _ => f
  }

  lemma DecodeAtEnd(f: Framing, used: nat, mode: Mode, tail: Tail)
    requires f != Empty && f != Length(0) && (f.Chunked? ==> f.remaining > 0)
    ensures Decode(f, used, mode, [], tail) ==
            if f.Eof? && tail.EndOfStream? then Decoded([], Done([])) else Fail(TailError(tail))
  {
  }

  // Handing out data early changes nothing about the whole.
  lemma DecodeTaken(f: Framing, used: nat, mode: Mode, out: Bytes, rest: Bytes, tail: Tail)
    requires out != [] && f != Empty
    requires f.Length? ==> |out| <= f.n
    requires f.Chunked? ==> |out| <= f.remaining
    ensures Decode(f, used, mode, out + rest, tail) == Prepend(out, Decode(Advance(f, |out|), used, mode, rest, tail))
  {
    hide TakeLine, DecodeSize;
    match f {
      case Length(n) => TakeTaken(n, out, rest, tail);
      case Chunked(n, ending) => ChunkTaken(n, ending, used, mode, out, rest, tail);
      case Eof =>
    }
  }

  lemma ChunkTaken(n: nat, ending: bool, used: nat, mode: Mode, out: Bytes, rest: Bytes, tail: Tail)
    requires 0 < |out| <= n
    ensures Decode(Chunked(n, ending), used, mode, out + rest, tail) ==
            Prepend(out, Decode(Chunked(n - |out|, n == |out|), used, mode, rest, tail))
  {
    TakeTaken(n, out, rest, tail);
    var d := TakeExact(n - |out|, rest, tail);
    if n == |out| {
      assert d == Decoded([], Done(rest)) && out + [] == out;
    } else if d.outcome.Done? {
      var after := Decode(Chunked(0, true), used, mode, d.outcome.rest, tail);
      assert (out + d.body) + after.body == out + (d.body + after.body);
    }
  }

  lemma TakeTaken(n: nat, out: Bytes, rest: Bytes, tail: Tail)
    requires |out| <= n
    ensures TakeExact(n, out + rest, tail) == Prepend(out, TakeExact(n - |out|, rest, tail))
  {
    if |out + rest| >= n {
      assert (out + rest)[..n] == out + rest[..n - |out|];
      assert (out + rest)[n..] == rest[n - |out|..];
    }
  }

  // ----- whole bodies -----

  // Pulls until the end, as a streaming consumer does. However the transport
  // split the stream, the pieces concatenate to the reference body and the
  // outcome is the reference outcome.
  method Drain(body: Body, buffered: bool) returns (pieces: seq<Bytes>, error: Option<HttpError>)
    requires body.reader.Valid()
    modifies body, body.reader
    ensures body.reader.Valid()
    ensures forall i :: 0 <= i < |pieces| ==> 0 < |pieces[i]| <= 16_384
    ensures old(body.Pending(buffered)) ==
            Decoded(Flatten(pieces), if error.None? then Done(body.reader.left) else Failed(error.value))
  {
    hide Decode;
    ghost var due := body.Pending(buffered);
    pieces := [];
    assert due == Prepend([], due);
    while true
      invariant body.reader.Valid()
      invariant forall i :: 0 <= i < |pieces| ==> 0 < |pieces[i]| <= 16_384
      invariant due == Prepend(Flatten(pieces), body.Pending(buffered))
      decreases |body.reader.left|
    {
      var next := body.Next(buffered);
      match next {
        case Err(e) => return pieces, Some(e);
        case Ok(None) => return pieces, None;
        case Ok(Some(out)) =>
          ghost var later := body.Pending(buffered);
          FlattenAppend(pieces, [out]);
          assert Flatten([out]) == out;
          assert (Flatten(pieces) + out) + later.body == Flatten(pieces) + (out + later.body);
          pieces := pieces + [out];
      }
    }
  }

  // A buffered response body: the reference body, if it fits in MAX_BODY.
  function Whole(f: Framing, trailerLimit: nat, sizeMax: nat, input: Bytes, tail: Tail): Result<Bytes, HttpError> {
    var d := Decode(f, 0, ModeOf(true, trailerLimit, sizeMax), input, tail);
    if (f.Length? && f.n > MAX_BODY) || |d.body| > MAX_BODY then Err(ResponseLimit)
    else if d.outcome.Failed? then Err(d.outcome.error)
    else Ok(d.body)
  }

  method ReadAll(body: Body) returns (r: Result<Bytes, HttpError>)
    requires body.reader.Valid() && body.framingBytes == 0
    modifies body, body.reader
    ensures r == old(Whole(body.framing, body.trailerLimit, body.sizeMax, body.reader.left, body.reader.tail))
  {
    hide Decode;
    ghost var due := body.Pending(true);
    if body.framing.Length? && body.framing.n > MAX_BODY {
      return Err(ResponseLimit);
    }
    var all: Bytes := [];
    assert due == Prepend(all, due);
    while true
      invariant body.reader.Valid()
      invariant |all| <= MAX_BODY
      invariant due == Prepend(all, body.Pending(true))
      decreases |body.reader.left|
    {
      var next := body.Next(true);
      match next {
        case Err(e) => return Err(e);
        case Ok(None) =>
          assert all + [] == all;
          return Ok(all);
        case Ok(Some(out)) =>
          ghost var later := body.Pending(true);
          assert (all + out) + later.body == all + (out + later.body);
          if |out| > MAX_BODY - |all| {
            return Err(ResponseLimit);
          }
          all := all + out;
      }
    }
  }
}
