// Request bodies: the attach side frames and sends, the host side reads and
// forwards upstream (src/attach.rs, src/host.rs).

module Upload {
  import opened Bytes
  import opened Frames

  // What the local HTTP body yields.
  datatype BodyFrame = Data(data: Bytes) | Trailers | Broken

  datatype UploadError = OverLimit | OverDeclared | LengthChanged | HasTrailers | BodyFailed | TransportFailed

  // ----- splitting -----

  // Pieces of at most BODY_CHUNK_LEN bytes; an empty frame has none.
  function Pieces(data: Bytes): (ps: seq<Bytes>)
    ensures Flatten(ps) == data
    ensures forall i :: 0 <= i < |ps| ==> 0 < |ps[i]| <= 16_384
    decreases |data|
  {
    if data == [] then []
    else if |data| <= BODY_CHUNK_LEN then
      assert Flatten([data]) == data + Flatten([]);
      [data]
    else
      var more := Pieces(data[BODY_CHUNK_LEN..]);
      var ps := [data[..BODY_CHUNK_LEN]] + more;
      assert ps[1..] == more;
      ps
  }

  predicate Small(pieces: seq<Bytes>) {
    forall i :: 0 <= i < |pieces| ==> |pieces[i]| < U32_LIMIT
  }

  function Encode(pieces: seq<Bytes>): Bytes
    requires Small(pieces)
  {
    if pieces == [] then [] else Frame(pieces[0]) + Encode(pieces[1..])
  }

  // A frame of the body on the wire.
  function Wired(data: Bytes): Bytes {
    Encode(Pieces(data))
  }

  lemma {:induction false} EncodeAppend(a: seq<Bytes>, b: seq<Bytes>)
    requires Small(a) && Small(b)
    ensures Small(a + b) && Encode(a + b) == Encode(a) + Encode(b)
  {
    hide Frame;
    if a == [] {
      assert a + b == b;
    } else {
      assert (a + b)[1..] == a[1..] + b;
      EncodeAppend(a[1..], b);
    }
  }

  // ----- the sender -----

  // What a transport that never fails would see, and how the upload ends.
  datatype Upload = Upload(wire: Bytes, error: Option<UploadError>)

  function Sending(bytes: Bytes, u: Upload): Upload {
    Upload(bytes + u.wire, u.error)
  }

  // Unknown length: framed pieces, an end marker only after the last frame.
  function Framed(frames: seq<BodyFrame>, written: nat): Upload
    requires written <= MAX_BODY_LEN
    decreases |frames|
  {
    if frames == [] then Upload(END, None)
    else match frames[0]
      case Trailers => Upload([], Some(HasTrailers))
      case Broken => Upload([], Some(BodyFailed))
      case Data(data) =>
        if written + |data| > MAX_BODY_LEN then Upload([], Some(OverLimit))
        else Sending(Wired(data), Framed(frames[1..], written + |data|))
  }

  // Known length: the bytes themselves, never more than declared.
  function Plain(frames: seq<BodyFrame>, declared: nat, written: nat): Upload
    requires written <= declared
    decreases |frames|
  {
    if frames == [] then Upload([], if written == declared then None else Some(LengthChanged))
    else match frames[0]
      case Trailers => Upload([], Some(HasTrailers))
      case Broken => Upload([], Some(BodyFailed))
      case Data(data) =>
        if written + |data| > declared then Upload([], Some(OverDeclared))
        else Sending(data, Plain(frames[1..], declared, written + |data|))
  }

  // ----- sending frame by frame -----

  lemma PiecesOf(data: Bytes, count: nat)
    requires data != [] && count == if |data| <= BODY_CHUNK_LEN then |data| else BODY_CHUNK_LEN
    ensures Encode(Pieces(data)) == Frame(data[..count]) + Encode(Pieces(data[count..]))
  {
    hide Frame;
    assert Pieces(data) == [data[..count]] + Pieces(data[count..]);
  }

  method SendFramed(sink: Sink, data: Bytes) returns (ok: bool)
    modifies sink
    ensures sink.View() == Push(old(sink.View()), Wired(data))
    ensures ok <==> Fits(old(sink.View()), Wired(data))
  {
    ghost var p := sink.View();
    ghost var all := Wired(data);
    var rest := data;
    ghost var done: Bytes := [];
    PushNothing(p);
    assert Encode(Pieces([])) == [];
    hide Pieces, Encode, Frame, Push, Fits;
    while rest != []
      invariant all == done + Encode(Pieces(rest))
      invariant Fits(p, done) && sink.View() == Push(p, done)
      decreases |rest|
    {
      var count := if |rest| <= BODY_CHUNK_LEN then |rest| else BODY_CHUNK_LEN;
      PiecesOf(rest, count);
      ghost var part, later := Frame(rest[..count]), Encode(Pieces(rest[count..]));
      assert all == (done + part) + later;
      PushTwice(p, done, part);
      ok := sink.WriteFrame(rest[..count]);
      if !ok {
        PushCut(p, done + part, later);
        return;
      }
      done := done + part;
      rest := rest[count..];
    }
    assert all == done;
    ok := true;
  }

  method SendPlain(sink: Sink, data: Bytes) returns (ok: bool)
    modifies sink
    ensures sink.View() == Push(old(sink.View()), data) && (ok <==> Fits(old(sink.View()), data))
  {
    ghost var p := sink.View();
    var rest := data;
    ghost var done: Bytes := [];
    PushNothing(p);
    hide Push, Fits;
    while rest != []
      invariant data == done + rest
      invariant Fits(p, done) && sink.View() == Push(p, done)
      decreases |rest|
    {
      var count := if |rest| <= BODY_CHUNK_LEN then |rest| else BODY_CHUNK_LEN;
      ghost var part, later := rest[..count], rest[count..];
      assert data == (done + part) + later;
      PushTwice(p, done, part);
      ok := sink.WriteAll(rest[..count]);
      if !ok {
        PushCut(p, done + part, later);
        return;
      }
      done := done + part;
      rest := rest[count..];
    }
    assert data == done;
    ok := true;
  }

  // The error an upload reports on a transport that may fail on the way.
  function Reports(u: Upload, p: Pipe): Option<UploadError> {
    if Fits(p, u.wire) then u.error else Some(TransportFailed)
  }

  lemma SendingMore(done: Bytes, part: Bytes, next: Upload)
    ensures Sending(done, Sending(part, next)) == Sending(done + part, next)
  {
    assert done + (part + next.wire) == (done + part) + next.wire;
  }

  lemma NothingSent(u: Upload)
    ensures Sending([], u) == u
  {
    assert [] + u.wire == u.wire;
  }

  lemma SendingNothing(done: Bytes, error: Option<UploadError>)
    ensures Sending(done, Upload([], error)) == Upload(done, error)
  {
    assert done + [] == done;
  }

  // The upload from frame `k` on, when that frame is sent or refused.
  function Refusal(frame: BodyFrame, written: nat, limit: nat, over: UploadError): Option<UploadError> {
    match frame
    case Trailers => Some(HasTrailers)
    case Broken => Some(BodyFailed)
    case Data(data) => if written + |data| > limit then Some(over) else None
  }

  lemma FramedFrom(frames: seq<BodyFrame>, k: nat, written: nat)
    requires k < |frames| && written <= MAX_BODY_LEN
    ensures var refusal := Refusal(frames[k], written, MAX_BODY_LEN, OverLimit);
            Framed(frames[k..], written) ==
            if refusal.Some? then Upload([], refusal)
            else Sending(Wired(frames[k].data), Framed(frames[k + 1..], written + |frames[k].data|))
  {
    hide Wired;
    assert frames[k..][1..] == frames[k + 1..];
  }

  lemma PlainFrom(frames: seq<BodyFrame>, k: nat, declared: nat, written: nat)
    requires k < |frames| && written <= declared
    ensures var refusal := Refusal(frames[k], written, declared, OverDeclared);
            Plain(frames[k..], declared, written) ==
            if refusal.Some? then Upload([], refusal)
            else Sending(frames[k].data, Plain(frames[k + 1..], declared, written + |frames[k].data|))
  {
    assert frames[k..][1..] == frames[k + 1..];
  }

  // Unknown length: whatever the transport does, the sent bytes are the framed
  // upload cut where it failed.
  method UploadFramed(sink: Sink, frames: seq<BodyFrame>) returns (error: Option<UploadError>)
    modifies sink
    ensures sink.View() == Push(old(sink.View()), Framed(frames, 0).wire)
    ensures error == Reports(Framed(frames, 0), old(sink.View()))
  {
    hide Push, Fits, Wired, Framed, Sending, U32;
    ghost var p, u := sink.View(), Framed(frames, 0);
    var written: nat := 0;
    ghost var done: Bytes := [];
    PushNothing(p);
    NothingSent(u);
    assert frames[0..] == frames;
    for k := 0 to |frames|
      invariant written <= MAX_BODY_LEN
      invariant u == Sending(done, Framed(frames[k..], written))
      invariant Fits(p, done) && sink.View() == Push(p, done)
    {
      FramedFrom(frames, k, written);
      var refusal := Refusal(frames[k], written, MAX_BODY_LEN, OverLimit);
      if refusal.Some? {
        SendingNothing(done, refusal);
        return refusal;
      }
      var data := frames[k].data;
      ghost var part, next := Wired(data), Framed(frames[k + 1..], written + |data|);
      SendingMore(done, part, next);
      PushTwice(p, done, part);
      var ok := SendFramed(sink, data);
      if !ok {
        SentTooMuch(p, done + part, next);
        return Some(TransportFailed);
      }
      done, written := done + part, written + |data|;
    }
    assert frames[|frames|..] == [];
    EndOfUpload(written, done);
    PushTwice(p, done, END);
    var ok := sink.WriteAll(END);
    return if ok then None else Some(TransportFailed);
  }

  lemma SentTooMuch(p: Pipe, done: Bytes, next: Upload)
    requires !Fits(p, done)
    ensures Push(p, Sending(done, next).wire) == Push(p, done)
    ensures Reports(Sending(done, next), p) == Some(TransportFailed)
  {
    PushCut(p, done, next.wire);
  }

  lemma EndOfUpload(written: nat, done: Bytes)
    requires written <= MAX_BODY_LEN
    ensures Sending(done, Framed([], written)) == Upload(done + END, None)
  {
  }

  // Known length: the same for the bare bytes.
  method UploadPlain(sink: Sink, frames: seq<BodyFrame>, declared: nat) returns (error: Option<UploadError>)
    modifies sink
    ensures sink.View() == Push(old(sink.View()), Plain(frames, declared, 0).wire)
    ensures error == Reports(Plain(frames, declared, 0), old(sink.View()))
  {
    hide Push, Fits, Plain, Sending;
    ghost var p, u := sink.View(), Plain(frames, declared, 0);
    var written: nat := 0;
    ghost var done: Bytes := [];
    PushNothing(p);
    NothingSent(u);
    assert frames[0..] == frames;
    for k := 0 to |frames|
      invariant written <= declared
      invariant u == Sending(done, Plain(frames[k..], declared, written))
      invariant Fits(p, done) && sink.View() == Push(p, done)
    {
      PlainFrom(frames, k, declared, written);
      var refusal := Refusal(frames[k], written, declared, OverDeclared);
      if refusal.Some? {
        SendingNothing(done, refusal);
        return refusal;
      }
      var data := frames[k].data;
      ghost var next := Plain(frames[k + 1..], declared, written + |data|);
      SendingMore(done, data, next);
      PushTwice(p, done, data);
      var ok := SendPlain(sink, data);
      if !ok {
        SentTooMuch(p, done + data, next);
        return Some(TransportFailed);
      }
      done, written := done + data, written + |data|;
    }
    assert frames[|frames|..] == [];
    error := if written == declared then None else Some(LengthChanged);
    PlainEnds(written, declared);
    SendingNothing(done, error);
  }

  lemma PlainEnds(written: nat, declared: nat)
    requires written <= declared
    ensures Plain([], declared, written) == Upload([], if written == declared then None else Some(LengthChanged))
  {
  }

  // ----- the host -----

  // Chunks forwarded upstream, and whether the body task ended well. `quota` is
  // how many chunks the upstream accepts before it hangs up.
  datatype Forwarded = Forwarded(chunks: seq<Bytes>, ok: bool)

  function Then(chunk: Bytes, f: Forwarded): Forwarded {
    Forwarded([chunk] + f.chunks, f.ok)
  }

  function ForwardFramed(input: Bytes, total: nat, quota: nat): Forwarded
    decreases |input|
  {
    match TakeFrame(input, BODY_CHUNK_LEN)
    case Refused => Forwarded([], false)
    case Taken(data, rest) =>
      if data == [] then Forwarded([], true)
      else if total + |data| > MAX_BODY_LEN || quota == 0 then Forwarded([], false)
      else Then(data, ForwardFramed(rest, total + |data|, quota - 1))
  }

  function ForwardPlain(input: Bytes, remaining: nat, quota: nat): Forwarded
    decreases remaining
  {
    if remaining == 0 then Forwarded([], true)
    else
      var count := if remaining <= BODY_CHUNK_LEN then remaining else BODY_CHUNK_LEN;
      if |input| < count || quota == 0 then Forwarded([], false)
      else Then(input[..count], ForwardPlain(input[count..], remaining - count, quota - 1))
  }

  function ForwardBody(declared: Option<nat>, input: Bytes, quota: nat): Forwarded {
    if declared.None? then ForwardFramed(input, 0, quota)
    else if declared.value > MAX_BODY_LEN then Forwarded([], false)
    else ForwardPlain(input, declared.value, quota)
  }

  // One more chunk in front of what is still to be forwarded.
  lemma ThenMore(chunks: seq<Bytes>, chunk: Bytes, f: Forwarded)
    ensures Forwarded(chunks + Then(chunk, f).chunks, f.ok) == Forwarded((chunks + [chunk]) + f.chunks, f.ok)
  {
    assert chunks + ([chunk] + f.chunks) == (chunks + [chunk]) + f.chunks;
  }

  method ReceiveFramed(source: Source, quota: nat) returns (chunks: seq<Bytes>, ok: bool)
    modifies source
    ensures Forwarded(chunks, ok) == ForwardFramed(old(source.left), 0, quota)
  {
    hide TakeFrame;
    ghost var due := ForwardFramed(source.left, 0, quota);
    chunks := [];
    var total: nat := 0;
    while true
      invariant |chunks| <= quota
      invariant var f := ForwardFramed(source.left, total, quota - |chunks|); due == Forwarded(chunks + f.chunks, f.ok)
      decreases |source.left|
    {
      FrameShrinks(source.left, BODY_CHUNK_LEN);
      var chunk := source.ReadFrame(BODY_CHUNK_LEN);
      if chunk.None? {
        return chunks, false;
      }
      if chunk.value == [] {
        return chunks, true;
      }
      total := total + |chunk.value|;
      if total > MAX_BODY_LEN || |chunks| == quota {
        return chunks, false;
      }
      ThenMore(chunks, chunk.value, ForwardFramed(source.left, total, quota - |chunks| - 1));
      chunks := chunks + [chunk.value];
    }
  }

  method ReceivePlain(source: Source, declared: nat, quota: nat) returns (chunks: seq<Bytes>, ok: bool)
    modifies source
    ensures Forwarded(chunks, ok) == ForwardPlain(old(source.left), declared, quota)
  {
    ghost var due := ForwardPlain(source.left, declared, quota);
    chunks := [];
    var remaining: nat := declared;
    while remaining > 0
      invariant |chunks| <= quota
      invariant var f := ForwardPlain(source.left, remaining, quota - |chunks|);
                due == Forwarded(chunks + f.chunks, f.ok)
    {
      var count := if remaining <= BODY_CHUNK_LEN then remaining else BODY_CHUNK_LEN;
      var data := source.ReadExact(count);
      if data.None? || |chunks| == quota {
        return chunks, false;
      }
      ThenMore(chunks, data.value, ForwardPlain(source.left, remaining - count, quota - |chunks| - 1));
      chunks := chunks + [data.value];
      remaining := remaining - count;
    }
    ok := true;
  }

  // The host's body task.
  method ReceiveBody(source: Source, declared: Option<nat>, quota: nat) returns (chunks: seq<Bytes>, ok: bool)
    modifies source
    ensures Forwarded(chunks, ok) == ForwardBody(declared, old(source.left), quota)
  {
    if declared.None? {
      chunks, ok := ReceiveFramed(source, quota);
    } else if declared.value > MAX_BODY_LEN {
      chunks, ok := [], false;
    } else {
      chunks, ok := ReceivePlain(source, declared.value, quota);
    }
  }

  // ----- end to end -----

  // The body as far as its frames carry data.
  function DataOf(frames: seq<BodyFrame>): Bytes {
    if frames == [] || !frames[0].Data? then [] else frames[0].data + DataOf(frames[1..])
  }

  predicate AllData(frames: seq<BodyFrame>) {
    forall i :: 0 <= i < |frames| ==> frames[i].Data?
  }

  // All pieces such an upload is cut into.
  function Parts(frames: seq<BodyFrame>): seq<Bytes> {
    if frames == [] || !frames[0].Data? then [] else Pieces(frames[0].data) + Parts(frames[1..])
  }

  // An upload of unknown length is some pieces of the body, then the end marker
  // exactly when it succeeded, which takes every frame.
  lemma {:induction false} FramedShape(frames: seq<BodyFrame>, written: nat) returns (pieces: seq<Bytes>)
    requires written <= MAX_BODY_LEN
    ensures forall i :: 0 <= i < |pieces| ==> 0 < |pieces[i]| <= BODY_CHUNK_LEN
    ensures Flatten(pieces) <= DataOf(frames) && written + |Flatten(pieces)| <= MAX_BODY_LEN
    ensures var u := Framed(frames, written);
            && u.wire == Encode(pieces) + (if u.error.None? then END else [])
            && (u.error.None? ==> pieces == Parts(frames) && Flatten(pieces) == DataOf(frames))
            && (u.error.None? <==> AllData(frames) && written + |DataOf(frames)| <= MAX_BODY_LEN)
    decreases |frames|
  {
    hide Frame, Pieces, Encode, Flatten, Framed, U32, DataOf;
    assert forall data :: Wired(data) == Encode(Pieces(data));
    if frames == [] || Refusal(frames[0], written, MAX_BODY_LEN, OverLimit).Some? {
      pieces := [];
      NoMoreFrames(frames, written);
    } else {
      var data := frames[0].data;
      var more := FramedShape(frames[1..], written + |data|);
      var part, next := Pieces(data), Framed(frames[1..], written + |data|);
      pieces := part + more;
      FramedFrom(frames, 0, written);
      assert frames[0..] == frames;
      FlattenAppend(part, more);
      EncodeAppend(part, more);
      AllDataMore(frames);
      assert next.error.None? ==> Encode(part) + (Encode(more) + END) == (Encode(part) + Encode(more)) + END;
      assert next.error.Some? ==> Encode(more) + [] == Encode(more) && Encode(pieces) + [] == Encode(pieces);
    }
  }

  lemma NoMoreFrames(frames: seq<BodyFrame>, written: nat)
    requires written <= MAX_BODY_LEN
    requires frames == [] || Refusal(frames[0], written, MAX_BODY_LEN, OverLimit).Some?
    ensures var u := Framed(frames, written);
            && u.wire == Encode([]) + (if u.error.None? then END else [])
            && (u.error.None? <==> AllData(frames) && written + |DataOf(frames)| <= MAX_BODY_LEN)
            && (u.error.None? ==> frames == [])
    ensures Flatten([]) == [] && (frames == [] ==> DataOf(frames) == [])
  {
    hide U32;
    assert [] + END == END;
    if frames != [] && frames[0].Data? {
      assert |DataOf(frames)| >= |frames[0].data|;
    }
  }

  lemma AllDataMore(frames: seq<BodyFrame>)
    requires frames != [] && frames[0].Data?
    ensures AllData(frames) <==> AllData(frames[1..])
    ensures DataOf(frames) == frames[0].data + DataOf(frames[1..])
  {
    assert frames == [frames[0]] + frames[1..];
  }

  // The host on any cut of well-sized pieces and an optional end marker.
  lemma {:induction false} ForwardPieces(pieces: seq<Bytes>, ended: bool, cut: Bytes, total: nat, quota: nat)
    requires forall i :: 0 <= i < |pieces| ==> 0 < |pieces[i]| <= BODY_CHUNK_LEN
    requires total + |Flatten(pieces)| <= MAX_BODY_LEN
    requires cut <= Encode(pieces) + (if ended then END else [])
    ensures var f := ForwardFramed(cut, total, quota);
            && f.chunks <= pieces && |f.chunks| <= quota
            && (f.ok <==> ended && |pieces| <= quota && cut == Encode(pieces) + END)
            && (f.ok ==> f.chunks == pieces)
    decreases |pieces|
  {
    hide Frame, Encode, TakeFrame, Flatten, U32;
    if pieces == [] {
      EncodeNone();
      ForwardEnd(ended, cut, total, quota);
    } else {
      var p, more := pieces[0], pieces[1..];
      var tail: Bytes := if ended then END else [];
      var rest := Encode(more) + tail;
      EncodeFirst(pieces, tail);
      EncodeFirst(pieces, END);
      if |cut| < |Frame(p)| {
        assert cut == Frame(p)[..|cut|];
        TakeFrameCut(p, BODY_CHUNK_LEN, cut);
      } else {
        var cut' := cut[|Frame(p)|..];
        SplitPrefix(cut, Frame(p), rest);
        TakeFrameWhole(p, cut', BODY_CHUNK_LEN);
        if quota > 0 {
          ForwardPieces(more, ended, cut', total + |p|, quota - 1);
        }
      }
    }
  }

  lemma EncodeNone()
    ensures Encode([]) + END == END && Encode([]) + [] == [] && Flatten([]) == []
  {
    hide U32;
  }

  lemma EncodeFirst(pieces: seq<Bytes>, tail: Bytes)
    requires Small(pieces) && pieces != []
    ensures Encode(pieces) + tail == Frame(pieces[0]) + (Encode(pieces[1..]) + tail)
    ensures |Flatten(pieces)| == |pieces[0]| + |Flatten(pieces[1..])|
  {
    hide Frame;
  }

  lemma SplitPrefix(cut: Bytes, a: Bytes, b: Bytes)
    requires cut <= a + b && |a| <= |cut|
    ensures cut == a + cut[|a|..] && cut[|a|..] <= b
  {
  }

  lemma ForwardEnd(ended: bool, cut: Bytes, total: nat, quota: nat)
    requires cut <= if ended then END else []
    ensures ForwardFramed(cut, total, quota) == Forwarded([], ended && cut == END)
  {
    assert END == Frame([]) + [] == Frame([]);
    if cut == END {
      TakeFrameWhole([], [], BODY_CHUNK_LEN);
    } else if ended {
      TakeFrameCut([], BODY_CHUNK_LEN, cut);
    }
  }

  lemma PrefixFlatten(a: seq<Bytes>, b: seq<Bytes>)
    requires a <= b
    ensures Flatten(a) <= Flatten(b)
  {
    assert b == a + b[|a|..];
    FlattenAppend(a, b[|a|..]);
  }

  // Unknown length, over any cut of the upload and any upstream: what the host
  // forwards is a prefix of the body. It reports success exactly when the upload
  // succeeded and arrived whole and the upstream took every piece, and then it
  // forwarded the whole body: no piece is refused and no empty frame ends it early.
  lemma FramedUploadForwarded(frames: seq<BodyFrame>, cut: Bytes, quota: nat)
    requires cut <= Framed(frames, 0).wire
    ensures var u := Framed(frames, 0); var f := ForwardFramed(cut, 0, quota);
            && Flatten(f.chunks) <= DataOf(frames)
            && (f.ok <==> u.error.None? && cut == u.wire && |Parts(frames)| <= quota)
            && (f.ok ==> AllData(frames) && Flatten(f.chunks) == DataOf(frames))
  {
    hide ForwardFramed, Frame, Framed, Parts;
    var ps := FramedShape(frames, 0);
    var u := Framed(frames, 0);
    ForwardPieces(ps, u.error.None?, cut, 0, quota);
    PrefixFlatten(ForwardFramed(cut, 0, quota).chunks, ps);
  }

  lemma {:induction false} PlainShape(frames: seq<BodyFrame>, declared: nat, written: nat)
    requires written <= declared
    ensures var u := Plain(frames, declared, written);
            && u.wire <= DataOf(frames) && written + |u.wire| <= declared
            && (u.error.None? <==> AllData(frames) && written + |DataOf(frames)| == declared)
            && (u.error.None? ==> u.wire == DataOf(frames))
    decreases |frames|
  {
    if frames != [] && frames[0].Data? {
      if written + |frames[0].data| <= declared {
        PlainShape(frames[1..], declared, written + |frames[0].data|);
      }
      AllDataMore(frames);
    }
  }

  lemma {:induction false} ForwardPlainPrefix(input: Bytes, remaining: nat, quota: nat)
    ensures var f := ForwardPlain(input, remaining, quota);
            && Flatten(f.chunks) <= input
            && (f.ok ==> remaining <= |input| && Flatten(f.chunks) == input[..remaining])
            && (remaining <= |input| && remaining <= quota * BODY_CHUNK_LEN ==> f.ok)
    decreases remaining
  {
    hide Flatten;
    NoPieces();
    if remaining > 0 {
      var count := if remaining <= BODY_CHUNK_LEN then remaining else BODY_CHUNK_LEN;
      if count <= |input| && quota > 0 {
        var rest := input[count..];
        ForwardPlainPrefix(rest, remaining - count, quota - 1);
        var f := ForwardPlain(rest, remaining - count, quota - 1);
        FlattenFirst(input[..count], f.chunks);
        assert input == input[..count] + rest;
        if f.ok {
          assert input[..remaining] == input[..count] + rest[..remaining - count];
        }
      }
    }
  }

  // Known length: the same prefix property; success means exactly the declared
  // bytes, which are the whole body when the upload succeeded.
  lemma PlainUploadForwarded(frames: seq<BodyFrame>, declared: nat, cut: Bytes, quota: nat)
    requires cut <= Plain(frames, declared, 0).wire
    ensures var u := Plain(frames, declared, 0); var f := ForwardPlain(cut, declared, quota);
            && Flatten(f.chunks) <= DataOf(frames)
            && (f.ok ==>
                  && |DataOf(frames)| >= declared && Flatten(f.chunks) == DataOf(frames)[..declared]
                  && cut == u.wire)
            && (f.ok && u.error.None? ==> Flatten(f.chunks) == DataOf(frames))
            && (u.error.None? && cut == u.wire && declared <= quota * BODY_CHUNK_LEN ==> f.ok)
  {
    hide ForwardPlain, Plain;
    PlainShape(frames, declared, 0);
    ForwardPlainPrefix(cut, declared, quota);
  }

  // ----- the whole way, whatever was declared -----

  // What the sender makes of the frames: nothing at all of a declared length over
  // the limit, bare bytes of a known one, framed pieces of an unknown one.
  function Sent(declared: Option<nat>, frames: seq<BodyFrame>): Upload {
    if declared.None? then Framed(frames, 0)
    else if declared.value > MAX_BODY_LEN then Upload([], Some(OverLimit))
    else Plain(frames, declared.value, 0)
  }

  method UploadBody(sink: Sink, frames: seq<BodyFrame>, declared: Option<nat>) returns (error: Option<UploadError>)
    modifies sink
    ensures sink.View() == Push(old(sink.View()), Sent(declared, frames).wire)
    ensures error == Reports(Sent(declared, frames), old(sink.View()))
  {
    hide Framed, Plain, Push;
    if declared.None? {
      error := UploadFramed(sink, frames);
    } else if declared.value > MAX_BODY_LEN {
      PushNothing(sink.View());
      error := Some(OverLimit);
    } else {
      error := UploadPlain(sink, frames, declared.value);
    }
  }

  // How many chunks the upstream must take for the whole body.
  function Needed(declared: Option<nat>, frames: seq<BodyFrame>): nat {
    if declared.None? then |Parts(frames)| else (declared.value + BODY_CHUNK_LEN - 1) / BODY_CHUNK_LEN
  }

  // For every body, declared length, cut and upstream: what the host forwards is a
  // prefix of the body. If the upload succeeded, the host reports success exactly
  // when it arrived whole and the upstream took it all, and then it forwarded all.
  lemma UploadForwarded(declared: Option<nat>, frames: seq<BodyFrame>, cut: Bytes, quota: nat)
    requires cut <= Sent(declared, frames).wire
    ensures var u := Sent(declared, frames); var f := ForwardBody(declared, cut, quota);
            && Flatten(f.chunks) <= DataOf(frames)
            && (u.error.None? ==> (f.ok <==> cut == u.wire && Needed(declared, frames) <= quota))
            && (u.error.None? && f.ok ==> AllData(frames) && Flatten(f.chunks) == DataOf(frames))
            && (declared.None? && u.error.Some? ==> !f.ok)
            && (declared.Some? && declared.value > 33_554_432 ==> !f.ok && f.chunks == [])
            && (declared.None? ==> (u.error.None? <==> AllData(frames) && |DataOf(frames)| <= 33_554_432))
            && (declared.Some? && declared.value <= 33_554_432 ==>
                  (u.error.None? <==> AllData(frames) && |DataOf(frames)| == declared.value))
  {
    hide ForwardFramed, ForwardPlain, Framed, Plain, Parts, Flatten;
    NoPieces();
    if declared.None? {
      FramedUploadForwarded(frames, cut, quota);
      var _ := FramedShape(frames, 0);
    } else if declared.value <= MAX_BODY_LEN {
      PlainUploadForwarded(frames, declared.value, cut, quota);
      PlainShape(frames, declared.value, 0);
      ForwardPlainIff(cut, declared.value, quota);
    }
  }

  // A known length is forwarded exactly when it is all there and each of its chunks
  // is taken.
  lemma {:induction false} ForwardPlainIff(input: Bytes, remaining: nat, quota: nat)
    ensures ForwardPlain(input, remaining, quota).ok <==>
            remaining <= |input| && (remaining + BODY_CHUNK_LEN - 1) / BODY_CHUNK_LEN <= quota
    decreases remaining
  {
    if remaining > 0 {
      var count := if remaining <= BODY_CHUNK_LEN then remaining else BODY_CHUNK_LEN;
      assert (remaining + BODY_CHUNK_LEN - 1) / BODY_CHUNK_LEN
             == 1 + (remaining - count + BODY_CHUNK_LEN - 1) / BODY_CHUNK_LEN;
      if count <= |input| && quota > 0 {
        ForwardPlainIff(input[count..], remaining - count, quota - 1);
      }
    }
  }

  // An upload stops at its first frame that is not data within its limit, with that
  // frame's error, and has sent all before it.
  lemma {:induction false} FramedStopsAt(frames: seq<BodyFrame>, written: nat, k: nat)
    requires k < |frames| && AllData(frames[..k]) && written + |DataOf(frames[..k])| <= MAX_BODY_LEN
    ensures var u := Framed(frames, written);
            && (frames[k].Trailers? ==> u == Upload(Encoded(frames[..k]), Some(HasTrailers)))
            && (frames[k].Broken? ==> u == Upload(Encoded(frames[..k]), Some(BodyFailed)))
            && (frames[k].Data? && written + |DataOf(frames[..k])| + |frames[k].data| > MAX_BODY_LEN ==>
                  u == Upload(Encoded(frames[..k]), Some(OverLimit)))
    decreases k
  {
    hide Wired, Encoded;
    NoneEncoded();
    if k > 0 {
      OneFrameMore(frames, k);
      FramedStopsAt(frames[1..], written + |frames[0].data|, k - 1);
    } else {
      assert frames[..0] == [];
    }
  }

  // The frames' data on the wire.
  function Encoded(frames: seq<BodyFrame>): Bytes {
    if frames == [] || !frames[0].Data? then [] else Wired(frames[0].data) + Encoded(frames[1..])
  }

  lemma NoneEncoded()
    ensures Encoded([]) == [] && DataOf([]) == []
  {
  }

  lemma OneFrameMore(frames: seq<BodyFrame>, k: nat)
    requires 0 < k <= |frames| && AllData(frames[..k])
    ensures frames[0].Data? && AllData(frames[1..][..k - 1])
    ensures DataOf(frames[..k]) == frames[0].data + DataOf(frames[1..][..k - 1])
    ensures Encoded(frames[..k]) == Wired(frames[0].data) + Encoded(frames[1..][..k - 1])
  {
    hide Wired;
    assert frames[..k][0] == frames[0] && frames[..k][1..] == frames[1..][..k - 1];
    AllDataMore(frames[..k]);
  }

  lemma {:induction false} PlainStopsAt(frames: seq<BodyFrame>, declared: nat, written: nat, k: nat)
    requires k <= |frames| && AllData(frames[..k]) && written + |DataOf(frames[..k])| <= declared
    ensures var u := Plain(frames, declared, written); var sent := DataOf(frames[..k]);
            && (k == |frames| ==> u == Upload(sent, if written + |sent| == declared then None else Some(LengthChanged)))
            && (k < |frames| && frames[k].Trailers? ==> u == Upload(sent, Some(HasTrailers)))
            && (k < |frames| && frames[k].Broken? ==> u == Upload(sent, Some(BodyFailed)))
            && (k < |frames| && frames[k].Data? && written + |sent| + |frames[k].data| > declared ==>
                  u == Upload(sent, Some(OverDeclared)))
    decreases k
  {
    hide DataOf, AllData, Encoded;
    if k > 0 {
      OneFrameMore(frames, k);
      PlainStopsAt(frames[1..], declared, written + |frames[0].data|, k - 1);
      PlainFirst(frames, declared, written);
      assert k < |frames| ==> frames[k] == frames[1..][k - 1];
    } else {
      assert frames[..0] == [];
      NoneEncoded();
    }
  }

  lemma PlainFirst(frames: seq<BodyFrame>, declared: nat, written: nat)
    requires frames != [] && frames[0].Data? && written + |frames[0].data| <= declared
    ensures Plain(frames, declared, written) ==
            Sending(frames[0].data, Plain(frames[1..], declared, written + |frames[0].data|))
  {
  }
}
