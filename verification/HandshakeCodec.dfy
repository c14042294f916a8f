// A codec that meets all that the handshake asks of the real one: the laws it is
// proved under can be met, by heads written as tagged, terminated text.

module HandshakeCodec {
  import opened Bytes
  import opened Frames
  import opened Handshake

  // What a parser takes from the front, and what it leaves.
  datatype Parse<T> = Parsed(value: T, rest: Bytes) | Failed

  // ----- numbers -----

  function WriteNat(n: nat): (b: Bytes)
    ensures |b| == n + 1
  {
    if n == 0 then [0] else [1] + WriteNat(n - 1)
  }

  function ReadNat(b: Bytes): Parse<nat> {
    if b == [] then Failed
    else if b[0] == 0 then Parsed(0, b[1..])
    else match ReadNat(b[1..])
      case Failed => Failed
      case Parsed(n, rest) => Parsed(n + 1, rest)
  }

  lemma {:induction false} NatBack(n: nat, rest: Bytes)
    ensures ReadNat(WriteNat(n) + rest) == Parsed(n, rest)
  {
    if n > 0 {
      NatBack(n - 1, rest);
      assert (WriteNat(n) + rest)[1..] == WriteNat(n - 1) + rest;
    }
  }

  // ----- lists -----

  // Each element behind a 1, and a 0 behind the last.
  function WriteText(s: string): Bytes {
    if s == [] then [0] else [1] + WriteNat(s[0] as nat) + WriteText(s[1..])
  }

  predicate IsChar(n: nat) { n < 0xD800 || 0xE000 <= n < 0x11_0000 }

  lemma ReadNatShorter(b: Bytes)
    ensures ReadNat(b).Parsed? ==> |ReadNat(b).rest| < |b|
  {
  }

  function ReadText(b: Bytes): Parse<string>
    decreases |b|
  {
    if b == [] then Failed
    else if b[0] == 0 then Parsed([], b[1..])
    else
      ReadNatShorter(b[1..]);
      match ReadNat(b[1..])
      case Failed => Failed
      case Parsed(n, more) =>
        if !IsChar(n) then Failed
        else match ReadText(more)
          case Failed => Failed
          case Parsed(s, rest) => Parsed([n as char] + s, rest)
  }

  lemma TextFront(s: string, rest: Bytes)
    ensures var b := WriteText(s) + rest;
            && b != []
            && (s == [] ==> b[0] == 0 && b[1..] == rest)
            && (s != [] ==>
                  && b[0] == 1 && s == [s[0]] + s[1..]
                  && b[1..] == WriteNat(s[0] as nat) + (WriteText(s[1..]) + rest))
  {
    hide WriteNat;
  }

  lemma {:induction false} TextBack(s: string, rest: Bytes)
    ensures ReadText(WriteText(s) + rest) == Parsed(s, rest)
  {
    hide WriteNat, ReadNat, WriteText;
    TextFront(s, rest);
    if s != [] {
      NatBack(s[0] as nat, WriteText(s[1..]) + rest);
      TextBack(s[1..], rest);
    }
  }

  function WriteHeaders(hs: seq<(string, string)>): Bytes {
    if hs == [] then [0] else [1] + WriteText(hs[0].0) + WriteText(hs[0].1) + WriteHeaders(hs[1..])
  }

  lemma {:induction false} ReadTextShorter(b: Bytes)
    ensures ReadText(b).Parsed? ==> |ReadText(b).rest| < |b|
    decreases |b|
  {
    hide ReadNat;
    if b != [] && b[0] != 0 {
      ReadNatShorter(b[1..]);
      if ReadNat(b[1..]).Parsed? {
        ReadTextShorter(ReadNat(b[1..]).rest);
      }
    }
  }

  function ReadHeaders(b: Bytes): Parse<seq<(string, string)>>
    decreases |b|
  {
    if b == [] then Failed
    else if b[0] == 0 then Parsed([], b[1..])
    else
      ReadTextShorter(b[1..]);
      match ReadText(b[1..])
      case Failed => Failed
      case Parsed(name, afterName) =>
        ReadTextShorter(afterName);
        match ReadText(afterName)
        case Failed => Failed
        case Parsed(value, afterValue) =>
          match ReadHeaders(afterValue)
          case Failed => Failed
          case Parsed(hs, rest) => Parsed([(name, value)] + hs, rest)
  }

  lemma HeadersFront(hs: seq<(string, string)>, rest: Bytes)
    ensures var b := WriteHeaders(hs) + rest;
            && b != []
            && (hs == [] ==> b[0] == 0 && b[1..] == rest)
            && (hs != [] ==>
                  && b[0] == 1 && hs == [hs[0]] + hs[1..]
                  && b[1..] == WriteText(hs[0].0) + (WriteText(hs[0].1) + (WriteHeaders(hs[1..]) + rest)))
  {
    hide WriteText;
    if hs != [] {
      Behind(1, WriteText(hs[0].0), WriteText(hs[0].1), WriteHeaders(hs[1..]), rest);
    }
  }

  lemma Behind(mark: Byte, a: Bytes, b: Bytes, c: Bytes, rest: Bytes)
    ensures [mark] + a + b + c + rest == [mark] + (a + (b + (c + rest)))
    ensures ([mark] + a + b + c + rest)[1..] == a + (b + (c + rest))
  {
    assert a + b + c + rest == a + (b + (c + rest));
    assert [mark] + a + b + c + rest == [mark] + (a + b + c + rest);
  }

  lemma {:induction false} HeadersBack(hs: seq<(string, string)>, rest: Bytes)
    ensures ReadHeaders(WriteHeaders(hs) + rest) == Parsed(hs, rest)
  {
    hide WriteText, ReadText, WriteHeaders;
    HeadersFront(hs, rest);
    if hs != [] {
      var more := WriteHeaders(hs[1..]) + rest;
      TextBack(hs[0].0, WriteText(hs[0].1) + more);
      TextBack(hs[0].1, more);
      HeadersBack(hs[1..], rest);
    }
  }

  // ----- heads -----

  function WriteRequest(h: RequestHead): Bytes {
    [if h.Tcp? then 0 else 1, h.version] + WriteText(h.service) + WriteText(h.proof)
  }

  function ReadRequest(b: Bytes): Option<RequestHead> {
    if |b| < 2 then None
    else match ReadText(b[2..])
      case Failed => None
      case Parsed(service, more) =>
        match ReadText(more)
        case Failed => None
        case Parsed(proof, _) => Some(if b[0] == 0 then Tcp(b[1], service, proof) else Http(b[1], service, proof))
  }

  lemma RequestBack(h: RequestHead)
    ensures ReadRequest(WriteRequest(h)) == Some(h)
  {
    hide WriteText, ReadText;
    assert WriteRequest(h)[2..] == WriteText(h.service) + WriteText(h.proof);
    TextBack(h.service, WriteText(h.proof));
    assert WriteText(h.proof) == WriteText(h.proof) + [];
    TextBack(h.proof, []);
  }

  function WriteResponse(h: ResponseHead): Bytes {
    var status: nat := h.status;
    [h.version, status / 0x100, status % 0x100] + WriteHeaders(h.headers) +
    if h.bodyLen.None? then [0] else [1] + WriteNat(h.bodyLen.value)
  }

  function ReadResponse(b: Bytes): Option<ResponseHead> {
    if |b| < 3 then None
    else match ReadHeaders(b[3..])
      case Failed => None
      case Parsed(headers, more) =>
        var high: int, low: int := b[1], b[2];
        var status: Status := high * 0x100 + low;
        if more == [] then None
        else if more[0] == 0 then Some(ResponseHead(b[0], status, headers, None))
        else match ReadNat(more[1..])
          case Failed => None
          case Parsed(n, _) => Some(ResponseHead(b[0], status, headers, Some(n)))
  }

  lemma ResponseBack(h: ResponseHead)
    ensures ReadResponse(WriteResponse(h)) == Some(h)
  {
    hide WriteHeaders, ReadHeaders, WriteNat, ReadNat;
    var tail := if h.bodyLen.None? then [0] else [1] + WriteNat(h.bodyLen.value);
    assert WriteResponse(h)[3..] == WriteHeaders(h.headers) + tail;
    HeadersBack(h.headers, tail);
    if h.bodyLen.Some? {
      assert tail[1..] == WriteNat(h.bodyLen.value) + [];
      NatBack(h.bodyLen.value, []);
    }
  }

  lemma PlainlyIsShort(status: Status)
    ensures |WriteResponse(Plainly(status))| == 6
  {
  }

  // The laws of the handshake hold of this codec, so they can be met.
  lemma LawfulCodec() returns (c: Codec)
    ensures Lawful(c)
  {
    c := Codec(WriteRequest, ReadRequest, WriteResponse, ReadResponse, secret => secret);
    forall h ensures c.readRequest(c.writeRequest(h)) == Some(h) {
      RequestBack(h);
    }
    forall h ensures c.readResponse(c.writeResponse(h)) == Some(h) {
      ResponseBack(h);
    }
    forall status: Status ensures |c.writeResponse(Plainly(status))| <= MAX_HEAD_LEN {
      PlainlyIsShort(status);
    }
  }
}
