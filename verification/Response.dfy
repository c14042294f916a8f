// Response bodies: the host relays upstream chunks as they come, the attach side
// reads them back (src/host.rs, src/attach.rs).

module Response {
  import opened Bytes
  import opened Frames

  // What the upstream body yields.
  datatype Item = Chunk(data: Bytes) | StreamFailed

  // The bytes behind the head on a transport that never fails, and whether the
  // host finished the body.
  datatype Reply = Reply(wire: Bytes, done: bool)

  function Sending(bytes: Bytes, r: Reply): Reply {
    Reply(bytes + r.wire, r.done)
  }

  // A chunk on the wire: framed as it came, or bare when the length is known.
  function Part(data: Bytes, framed: bool): Bytes
    requires |data| <= MAX_BODY_LEN
  {
    if framed then Frame(data) else data
  }

  // The host stops at this item: the stream failed or the body is over the limit.
  predicate Stops(item: Item, total: nat) {
    item.StreamFailed? || total + |item.data| > MAX_BODY_LEN
  }

  function Replied(items: seq<Item>, framed: bool, total: nat): Reply
    requires total <= MAX_BODY_LEN
    decreases |items|
  {
    if items == [] then Reply(if framed then END else [], true)
    else if Stops(items[0], total) then Reply([], false)
    else Sending(Part(items[0].data, framed), Replied(items[1..], framed, total + |items[0].data|))
  }

  lemma RepliedFrom(items: seq<Item>, k: nat, framed: bool, total: nat)
    requires k < |items| && total <= MAX_BODY_LEN
    ensures Replied(items[k..], framed, total) ==
            if Stops(items[k], total) then Reply([], false)
            else Sending(Part(items[k].data, framed), Replied(items[k + 1..], framed, total + |items[k].data|))
  {
    hide Part;
    assert items[k..][1..] == items[k + 1..];
  }

  lemma SendingMore(done: Bytes, part: Bytes, next: Reply)
    ensures Sending(done, Sending(part, next)) == Sending(done + part, next)
    ensures Sending(done, Reply([], false)) == Reply(done, false)
    ensures Sending([], next) == next
  {
    assert done + (part + next.wire) == (done + part) + next.wire;
    assert done + [] == done && [] + next.wire == next.wire;
  }

  // The host's body loop; it never splits or drops a chunk.
  method Relay(sink: Sink, items: seq<Item>, framed: bool) returns (ok: bool)
    modifies sink
    ensures sink.View() == Push(old(sink.View()), Replied(items, framed, 0).wire)
    ensures ok <==> Replied(items, framed, 0).done && Fits(old(sink.View()), Replied(items, framed, 0).wire)
  {
    hide Push, Fits, Replied, Sending, U32, Frame;
    ghost var p, r := sink.View(), Replied(items, framed, 0);
    var total: nat := 0;
    ghost var done: Bytes := [];
    PushNothing(p);
    SendingMore([], [], r);
    assert items[0..] == items;
    for k := 0 to |items|
      invariant total <= MAX_BODY_LEN
      invariant r == Sending(done, Replied(items[k..], framed, total))
      invariant Fits(p, done) && sink.View() == Push(p, done)
    {
      RepliedFrom(items, k, framed, total);
      if Stops(items[k], total) {
        SendingMore(done, [], r);
        return false;
      }
      var data := items[k].data;
      ghost var part, next := Part(data, framed), Replied(items[k + 1..], framed, total + |data|);
      SendingMore(done, part, next);
      PushTwice(p, done, part);
      if framed {
        ok := sink.WriteFrame(data);
      } else {
        ok := sink.WriteAll(data);
      }
      if !ok {
        SentTooMuch(p, done + part, next);
        return;
      }
      done, total := done + part, total + |data|;
    }
    assert items[|items|..] == [];
    ReplyEnds(done, framed, total);
    ok := true;
    if framed {
      PushTwice(p, done, END);
      ok := sink.WriteAll(END);
    }
  }

  lemma SentTooMuch(p: Pipe, done: Bytes, next: Reply)
    requires !Fits(p, done)
    ensures Push(p, Sending(done, next).wire) == Push(p, done) && !Fits(p, Sending(done, next).wire)
  {
    PushCut(p, done, next.wire);
  }

  lemma ReplyEnds(done: Bytes, framed: bool, total: nat)
    requires total <= MAX_BODY_LEN
    ensures Sending(done, Replied([], framed, total)) == Reply(if framed then done + END else done, true)
  {
    hide U32;
    assert done + [] == done;
  }

  // ----- the client -----

  datatype Received = Received(chunks: seq<Bytes>, complete: bool)

  function ReceiveFramed(input: Bytes): Received
    decreases |input|
  {
    match TakeFrame(input, BODY_CHUNK_LEN)
    case Refused => Received([], false)
    case Taken(data, rest) =>
      if data == [] then Received([], true)
      else
        var r := ReceiveFramed(rest);
        Received([data] + r.chunks, r.complete)
  }

  function ReceivePlain(input: Bytes, length: nat): Received
    decreases length
  {
    if length == 0 then Received([], true)
    else
      var count := if length <= BODY_CHUNK_LEN then length else BODY_CHUNK_LEN;
      if |input| < count then Received([], false)
      else
        var r := ReceivePlain(input[count..], length - count);
        Received([input[..count]] + r.chunks, r.complete)
  }

  lemma ReceivedMore(chunks: seq<Bytes>, chunk: Bytes, r: Received)
    ensures chunks + ([chunk] + r.chunks) == (chunks + [chunk]) + r.chunks
  {
  }

  method ReadFramed(source: Source) returns (chunks: seq<Bytes>, complete: bool)
    modifies source
    ensures Received(chunks, complete) == ReceiveFramed(old(source.left))
  {
    hide TakeFrame;
    ghost var due := ReceiveFramed(source.left);
    chunks := [];
    while true
      invariant var r := ReceiveFramed(source.left); due == Received(chunks + r.chunks, r.complete)
      decreases |source.left|
    {
      FrameShrinks(source.left, BODY_CHUNK_LEN);
      var chunk := source.ReadFrame(BODY_CHUNK_LEN);
      if chunk.None? {
        return chunks, false;
      }
      if chunk.value == [] {
        return chunks, true;
      }
      ReceivedMore(chunks, chunk.value, ReceiveFramed(source.left));
      chunks := chunks + [chunk.value];
    }
  }

  method ReadPlain(source: Source, length: nat) returns (chunks: seq<Bytes>, complete: bool)
    modifies source
    ensures Received(chunks, complete) == ReceivePlain(old(source.left), length)
  {
    ghost var due := ReceivePlain(source.left, length);
    chunks := [];
    var remaining: nat := length;
    while remaining > 0
      invariant var r := ReceivePlain(source.left, remaining); due == Received(chunks + r.chunks, r.complete)
    {
      var count := if remaining <= BODY_CHUNK_LEN then remaining else BODY_CHUNK_LEN;
      var data := source.ReadExact(count);
      if data.None? {
        return chunks, false;
      }
      ReceivedMore(chunks, data.value, ReceivePlain(source.left, remaining - count));
      chunks := chunks + [data.value];
      remaining := remaining - count;
    }
    complete := true;
  }

  // ----- end to end -----

  predicate AllChunks(items: seq<Item>) {
    forall i :: 0 <= i < |items| ==> items[i].Chunk?
  }

  // The upstream body as far as it came.
  function BodyOf(items: seq<Item>): Bytes {
    if items == [] || items[0].StreamFailed? then [] else items[0].data + BodyOf(items[1..])
  }

  // Nothing is left of the body, and the stream ends well.
  predicate Over(items: seq<Item>) { AllChunks(items) && BodyOf(items) == [] }

  // The client, having taken every chunk so far, meets an empty one with data, a
  // failure or the limit still behind it.
  predicate Misleading(items: seq<Item>, total: nat)
    decreases |items|
  {
    && items != [] && !Stops(items[0], total) && |items[0].data| <= 16_384
    && if items[0].data == [] then !Over(items[1..]) else Misleading(items[1..], total + |items[0].data|)
  }

  lemma NextItem(items: seq<Item>)
    requires items != [] && items[0].Chunk?
    ensures BodyOf(items) == items[0].data + BodyOf(items[1..])
    ensures AllChunks(items) <==> AllChunks(items[1..])
  {
    assert items == [items[0]] + items[1..];
  }

  // What the client makes of a cut reply whose first chunk goes out.
  lemma FirstChunkReceived(items: seq<Item>, total: nat, cut: Bytes)
    requires total <= MAX_BODY_LEN && items != [] && !Stops(items[0], total) && cut <= Replied(items, true, total).wire
    ensures var data := items[0].data; var wire := Replied(items[1..], true, total + |data|).wire;
            if |cut| < |Frame(data)| || |data| > BODY_CHUNK_LEN then ReceiveFramed(cut) == Received([], false)
            else
              var rest := cut[|Frame(data)|..];
              && rest <= wire && (cut == Replied(items, true, total).wire ==> rest == wire)
              && ReceiveFramed(cut) == if data == [] then Received([], true)
                                       else Received([data] + ReceiveFramed(rest).chunks, ReceiveFramed(rest).complete)
  {
    hide U32, Frame, TakeFrame;
    var data := items[0].data;
    var next := Replied(items[1..], true, total + |data|);
    assert Replied(items, true, total).wire == Frame(data) + next.wire;
    if |cut| < |Frame(data)| {
      assert cut == Frame(data)[..|cut|];
      TakeFrameCut(data, BODY_CHUNK_LEN, cut);
    } else {
      var rest := cut[|Frame(data)|..];
      assert cut == Frame(data) + rest && rest <= next.wire;
      if |data| <= BODY_CHUNK_LEN {
        TakeFrameWhole(data, rest, BODY_CHUNK_LEN);
      } else {
        TakeFrameOver(data, rest, BODY_CHUNK_LEN);
      }
    }
  }

  // Over any upstream stream and any cut of the reply: what the client got is a
  // prefix of the upstream body; and unless the stream is misleading, a body it
  // calls complete is all of it, from a stream that ended well.
  lemma {:induction false} FramedReplyReceived(items: seq<Item>, total: nat, cut: Bytes)
    requires total <= MAX_BODY_LEN && cut <= Replied(items, true, total).wire
    ensures var r := ReceiveFramed(cut);
            && Flatten(r.chunks) <= BodyOf(items)
            && (r.complete && !Misleading(items, total) ==> AllChunks(items) && Flatten(r.chunks) == BodyOf(items))
    decreases |items|
  {
    hide U32, Frame, ReceiveFramed, Flatten;
    NoPieces();
    if items == [] {
      ReceiveEnd(cut);
    } else if Stops(items[0], total) {
      ReceiveNothing();
    } else {
      var data := items[0].data;
      FirstChunkReceived(items, total, cut);
      NextItem(items);
      if |Frame(data)| <= |cut| && |data| <= BODY_CHUNK_LEN && data != [] {
        var rest := cut[|Frame(data)|..];
        FramedReplyReceived(items[1..], total + |data|, rest);
        FlattenFirst(data, ReceiveFramed(rest).chunks);
      }
    }
  }

  // The misleading streams do mislead: the client calls the reply complete, and it
  // is not all of a stream that ended well.
  lemma {:induction false} MisleadingIsIncomplete(items: seq<Item>, total: nat)
    requires total <= MAX_BODY_LEN && Misleading(items, total)
    ensures var r := ReceiveFramed(Replied(items, true, total).wire);
            r.complete && !(AllChunks(items) && Flatten(r.chunks) == BodyOf(items))
    decreases |items|
  {
    hide U32, Frame, ReceiveFramed, Flatten;
    NoPieces();
    var data, wire := items[0].data, Replied(items, true, total).wire;
    FirstIsWhole(items, total);
    FirstChunkReceived(items, total, wire);
    NextItem(items);
    if data != [] {
      MisleadingIsIncomplete(items[1..], total + |data|);
      var rest := Replied(items[1..], true, total + |data|).wire;
      var got := Flatten(ReceiveFramed(rest).chunks);
      FlattenFirst(data, ReceiveFramed(rest).chunks);
      assert (data + got)[|data|..] == got && (data + BodyOf(items[1..]))[|data|..] == BodyOf(items[1..]);
    }
  }

  lemma FirstIsWhole(items: seq<Item>, total: nat)
    requires total <= MAX_BODY_LEN && items != [] && !Stops(items[0], total)
    ensures |Frame(items[0].data)| <= |Replied(items, true, total).wire|
  {
    hide U32, Frame;
  }

  // So a completed body can be trusted, however the reply is cut, if and only if
  // the upstream stream is not misleading.
  lemma CompleteIsWholeIff(items: seq<Item>)
    ensures (forall cut :: cut <= Replied(items, true, 0).wire && ReceiveFramed(cut).complete ==>
               AllChunks(items) && Flatten(ReceiveFramed(cut).chunks) == BodyOf(items))
            <==> !Misleading(items, 0)
  {
    hide ReceiveFramed, Replied, Misleading;
    if Misleading(items, 0) {
      MisleadingIsIncomplete(items, 0);
      var wire := Replied(items, true, 0).wire;
      assert wire <= wire && ReceiveFramed(wire).complete;
    } else {
      forall cut | cut <= Replied(items, true, 0).wire && ReceiveFramed(cut).complete
        ensures AllChunks(items) && Flatten(ReceiveFramed(cut).chunks) == BodyOf(items)
      {
        FramedReplyReceived(items, 0, cut);
      }
    }
  }

  lemma ReceiveNothing()
    ensures ReceiveFramed([]) == Received([], false)
  {
  }

  lemma ReceiveEnd(cut: Bytes)
    requires cut <= END
    ensures ReceiveFramed(cut) == Received([], cut == END)
  {
    assert END == Frame([]) + [] == Frame([]);
    if cut == END {
      TakeFrameWhole([], [], BODY_CHUNK_LEN);
    } else {
      TakeFrameCut([], BODY_CHUNK_LEN, cut);
    }
  }

  // Streams the client can take whole: within the limit and ending well, no chunk
  // over BODY_CHUNK_LEN up to the first empty one, and nothing left after that one.
  predicate Deliverable(items: seq<Item>, total: nat)
    decreases |items|
  {
    items == [] || (
      && !Stops(items[0], total) && |items[0].data| <= 16_384
      && if items[0].data == [] then Over(items[1..]) else Deliverable(items[1..], total + |items[0].data|))
  }

  // Exactly those arrive complete and whole. A chunk that is too large fails the
  // client; an empty one ends its body early.
  lemma {:induction false} DeliveredIff(items: seq<Item>, total: nat)
    requires total <= MAX_BODY_LEN
    ensures var r := ReceiveFramed(Replied(items, true, total).wire);
            (r.complete && AllChunks(items) && Flatten(r.chunks) == BodyOf(items)) <==> Deliverable(items, total)
    decreases |items|
  {
    hide U32, Frame, ReceiveFramed, Flatten;
    NoPieces();
    if items == [] {
      ReceiveEnd(END);
    } else if Stops(items[0], total) {
      ReceiveNothing();
    } else {
      var data, wire := items[0].data, Replied(items, true, total).wire;
      FirstIsWhole(items, total);
      FirstChunkReceived(items, total, wire);
      NextItem(items);
      if data != [] && |data| <= BODY_CHUNK_LEN {
        DeliveredIff(items[1..], total + |data|);
        var rest := Replied(items[1..], true, total + |data|).wire;
        var got := Flatten(ReceiveFramed(rest).chunks);
        FlattenFirst(data, ReceiveFramed(rest).chunks);
        assert (data + got)[|data|..] == got && (data + BodyOf(items[1..]))[|data|..] == BodyOf(items[1..]);
      }
    }
  }

  // A failure behind an empty chunk: the client reports a complete body although
  // the upstream stream failed.
  lemma FailureHidden()
    ensures var items := [Chunk([65]), Chunk([]), StreamFailed];
            ReceiveFramed(Replied(items, true, 0).wire) == Received([[65]], true) && !AllChunks(items)
  {
    hide U32, Frame, TakeFrame;
    var items := [Chunk([65]), Chunk([]), StreamFailed];
    TakeFrameWhole([], [], BODY_CHUNK_LEN);
    TakeFrameWhole([65], Frame([]) + [], BODY_CHUNK_LEN);
    assert items[1..] == [Chunk([]), StreamFailed] && items[1..][1..] == [StreamFailed];
    assert Replied(items, true, 0).wire == Frame([65]) + (Frame([]) + []);
    assert items[2].StreamFailed?;
  }

  // An empty chunk in the middle: the client reports a complete body of one byte
  // out of two.
  lemma EmptyChunkTruncates()
    ensures var items := [Chunk([65]), Chunk([]), Chunk([66])];
            ReceiveFramed(Replied(items, true, 0).wire) == Received([[65]], true) && BodyOf(items) == [65, 66]
  {
    hide U32, Frame, TakeFrame;
    var rest := Replied([Chunk([66])], true, 1).wire;
    TakeFrameWhole([], rest, BODY_CHUNK_LEN);
    TakeFrameWhole([65], Frame([]) + rest, BODY_CHUNK_LEN);
    var items := [Chunk([65]), Chunk([]), Chunk([66])];
    assert items[1..] == [Chunk([]), Chunk([66])] && items[1..][1..] == [Chunk([66])];
    assert Replied(items, true, 0).wire == Frame([65]) + (Frame([]) + rest);
    assert BodyOf(items) == [65] + ([] + ([66] + []));
  }

  lemma {:induction false} PlainReply(items: seq<Item>, total: nat)
    requires total <= MAX_BODY_LEN
    ensures var r := Replied(items, false, total);
            && r.wire <= BodyOf(items)
            && (r.done <==> AllChunks(items) && total + |BodyOf(items)| <= MAX_BODY_LEN)
            && (r.done ==> r.wire == BodyOf(items))
    decreases |items|
  {
    if items != [] && items[0].Chunk? {
      if total + |items[0].data| <= MAX_BODY_LEN {
        PlainReply(items[1..], total + |items[0].data|);
      }
      assert items == [items[0]] + items[1..];
      assert AllChunks(items) <==> AllChunks(items[1..]);
    }
  }

  lemma {:induction false} ReceivePlainPrefix(input: Bytes, length: nat)
    ensures var r := ReceivePlain(input, length);
            && Flatten(r.chunks) <= input
            && (r.complete <==> length <= |input|)
            && (r.complete ==> Flatten(r.chunks) == input[..length])
    decreases length
  {
    hide Flatten;
    NoPieces();
    if length > 0 {
      var count := if length <= BODY_CHUNK_LEN then length else BODY_CHUNK_LEN;
      if count <= |input| {
        var rest := input[count..];
        ReceivePlainPrefix(rest, length - count);
        FlattenFirst(input[..count], ReceivePlain(rest, length - count).chunks);
        assert input == input[..count] + rest;
        if length <= |input| {
          assert input[..length] == input[..count] + rest[..length - count];
        }
      }
    }
  }

  // Known length, over any cut: a prefix always; with a truthful length a
  // complete body is the whole upstream body, and the whole reply completes it.
  lemma PlainReplyReceived(items: seq<Item>, length: nat, cut: Bytes)
    requires cut <= Replied(items, false, 0).wire
    ensures var r := ReceivePlain(cut, length);
            && Flatten(r.chunks) <= BodyOf(items)
            && (r.complete && length == |BodyOf(items)| ==> Flatten(r.chunks) == BodyOf(items))
            && (cut == BodyOf(items) && length == |cut| ==> r.complete)
  {
    hide ReceivePlain, Replied;
    PlainReply(items, 0);
    ReceivePlainPrefix(cut, length);
  }
}
