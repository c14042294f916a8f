// Tunnel framing: length-prefixed heads and body chunks
// (crates/locho-core/src/protocol.rs).

module Frames {
  import opened Bytes

  const BODY_CHUNK_LEN: nat := 16 * 1024
  const MAX_BODY_LEN: nat := 32 * 1024 * 1024
  const MAX_HEAD_LEN: nat := 1024 * 1024
  const U32_LIMIT: nat := 0x1_0000_0000

  // ----- big-endian lengths -----

  function U32(n: nat): (b: Bytes)
    requires n < U32_LIMIT
    ensures |b| == 4
  {
    [n / 0x100_0000, n / 0x1_0000 % 256, n / 256 % 256, n % 256]
  }

  function U32Value(b: Bytes): (n: nat)
    requires |b| == 4
    ensures n < U32_LIMIT
  {
    var hi: int := b[0];
    var third: int, second: int, low: int := b[1], b[2], b[3];
    ((hi * 256 + third) * 256 + second) * 256 + low
  }

  // The most significant byte comes first.
  lemma BigEndian(a: Byte, b: Byte, c: Byte, d: Byte)
    ensures U32Value([a, b, c, d]) == a * 0x100_0000 + b * 0x1_0000 + c * 0x100 + d
    ensures U32(U32Value([a, b, c, d])) == [a, b, c, d]
  {
    var high: int, third: int, second: int, low: int := a, b, c, d;
    var upper: nat := (high * 256 + third) * 256 + second;
    var n: nat := upper * 256 + low;
    assert n / 256 == upper && n % 256 == low;
    assert upper / 256 == high * 256 + third && upper % 256 == second;
    assert n / 0x1_0000 == upper / 256 && n / 0x100_0000 == (upper / 256) / 256;
    assert (high * 256 + third) / 256 == high && (high * 256 + third) % 256 == third;
    assert U32(n) == [high, third, second, low];
  }

  lemma U32RoundTrip(n: nat)
    requires n < U32_LIMIT
    ensures U32Value(U32(n)) == n
  {
    var a, b, c := n / 256, n / 0x1_0000, n / 0x100_0000;
    assert n == a * 256 + n % 256;
    assert a == b * 256 + a % 256;
    assert b == c * 256 + b % 256;
  }

  // A length and that many bytes: a head, or one body chunk.
  function Frame(data: Bytes): Bytes
    requires |data| < U32_LIMIT
  {
    U32(|data|) + data
  }

  const END: Bytes := U32(0)

  // ----- reading from the front of a stream -----

  datatype Taken = Taken(data: Bytes, rest: Bytes) | Refused

  // One frame of at most `max` bytes.
  function TakeFrame(input: Bytes, max: nat): Taken {
    if |input| < 4 then Refused
    else
      var len := U32Value(input[..4]);
      if len > max || |input| < 4 + len then Refused
      else Taken(input[4..4 + len], input[4 + len..])
  }

  // A frame is read back exactly, and nothing behind it is touched.
  lemma TakeFrameWhole(data: Bytes, rest: Bytes, max: nat)
    requires |data| <= max && |data| < U32_LIMIT
    ensures TakeFrame(Frame(data) + rest, max) == Taken(data, rest)
  {
    var input := Frame(data) + rest;
    U32RoundTrip(|data|);
    assert input[..4] == U32(|data|);
    assert input[4..4 + |data|] == data && input[4 + |data|..] == rest;
  }

  // Any shorter prefix of a frame is not a frame.
  lemma TakeFrameCut(data: Bytes, max: nat, cut: Bytes)
    requires |data| < U32_LIMIT && cut < Frame(data)
    ensures TakeFrame(cut, max) == Refused
  {
    if |cut| >= 4 {
      U32RoundTrip(|data|);
      assert cut[..4] == Frame(data)[..4] == U32(|data|);
    }
  }

  // A frame over the limit is refused.
  lemma TakeFrameOver(data: Bytes, rest: Bytes, max: nat)
    requires max < |data| < U32_LIMIT
    ensures TakeFrame(Frame(data) + rest, max) == Refused
  {
    U32RoundTrip(|data|);
    assert (Frame(data) + rest)[..4] == U32(|data|);
  }

  lemma FrameShrinks(input: Bytes, max: nat)
    ensures TakeFrame(input, max).Taken? ==> |TakeFrame(input, max).rest| < |input|
  {
  }

  // ----- streams -----

  // What was sent, and how many more bytes the transport takes before it fails.
  datatype Pipe = Pipe(sent: Bytes, room: nat)

  predicate Fits(p: Pipe, data: Bytes) { |data| <= p.room }

  function Push(p: Pipe, data: Bytes): Pipe {
    if Fits(p, data) then Pipe(p.sent + data, p.room - |data|) else Pipe(p.sent + data[..p.room], 0)
  }

  // Writing in two goes is writing at once.
  lemma PushTwice(p: Pipe, a: Bytes, b: Bytes)
    requires Fits(p, a)
    ensures Push(Push(p, a), b) == Push(p, a + b)
    ensures Fits(Push(p, a), b) <==> Fits(p, a + b)
  {
    if Fits(p, a + b) {
      assert p.sent + a + b == p.sent + (a + b);
    } else {
      assert (a + b)[..p.room] == a + b[..p.room - |a|];
      assert p.sent + a + b[..p.room - |a|] == p.sent + (a + b[..p.room - |a|]);
    }
  }

  // After a failed write nothing more gets through.
  lemma PushCut(p: Pipe, a: Bytes, b: Bytes)
    requires !Fits(p, a)
    ensures Push(p, a + b) == Push(p, a) && !Fits(p, a + b)
  {
    assert (a + b)[..p.room] == a[..p.room];
  }

  lemma PushNothing(p: Pipe)
    ensures Push(p, []) == p && Fits(p, [])
  {
    assert p.sent + [] == p.sent;
  }

  class Sink {
    var sent: Bytes
    var room: nat

    constructor (room: nat)
      ensures View() == Pipe([], room)
    {
      sent, this.room := [], room;
    }

    ghost function View(): Pipe reads this { Pipe(sent, room) }

    method WriteAll(data: Bytes) returns (ok: bool)
      modifies this
      ensures View() == Push(old(View()), data) && (ok <==> Fits(old(View()), data))
    {
      ok := |data| <= room;
      if ok {
        sent, room := sent + data, room - |data|;
      } else {
        sent, room := sent + data[..room], 0;
      }
    }

    // A head or a body chunk: prefix first, then the bytes.
    method WriteFrame(data: Bytes) returns (ok: bool)
      requires |data| < U32_LIMIT
      modifies this
      ensures View() == Push(old(View()), Frame(data)) && (ok <==> Fits(old(View()), Frame(data)))
    {
      ghost var before := View();
      ok := WriteAll(U32(|data|));
      if !ok {
        PushCut(before, U32(|data|), data);
        return;
      }
      PushTwice(before, U32(|data|), data);
      ok := WriteAll(data);
    }
  }

  // A reader over what the other side's bytes become before the stream ends.
  class Source {
    var left: Bytes

    constructor (input: Bytes)
      ensures left == input
    {
      left := input;
    }

    method ReadExact(count: nat) returns (r: Option<Bytes>)
      modifies this
      ensures if count <= |old(left)| then r == Some(old(left)[..count]) && left == old(left)[count..]
              else r == None && left == []
    {
      if |left| < count {
        left := [];
        return None;
      }
      r := Some(left[..count]);
      left := left[count..];
    }

    method ReadFrame(max: nat) returns (r: Option<Bytes>)
      modifies this
      ensures match TakeFrame(old(left), max)
              case Taken(data, rest) => r == Some(data) && left == rest
              case Refused => r == None
    {
      ghost var input := left;
      var prefix := ReadExact(4);
      if prefix.None? {
        return None;
      }
      var len := U32Value(prefix.value);
      if len > max {
        return None;
      }
      r := ReadExact(len);
      if r.Some? {
        assert input[4..][..len] == input[4..4 + len] && input[4..][len..] == input[4 + len..];
      }
    }
  }
}
