// The browser's pull-based body: one owner task per streaming response, pulled by
// `next` calls, holding one of sixteen request permits
// (crates/locho-web/src/lib.rs).

module StreamOwner {
  import opened Bytes
  import HttpBody

  const PERMITS: nat := 16

  datatype Code = ClosedCode | CancelledCode | BodyError(error: HttpBody.HttpError)

  // What one `next` call returns: bytes, the end, or an error.
  datatype BodyResult = Piece(bytes: Bytes) | End | Fail(code: Code)

  // The owner task: waiting for a pull, serving one, or gone with its permit.
  datatype Owner = Idle | Serving(call: nat) | Gone

  // Where a `next` call stands: blocked on the one-place pull channel, in it, in
  // the owner's hands, its reply sender dropped, or returned.
  datatype Place = Waiting | Queued | Served | Dropped | Returned(result: BodyResult)

  // `source` is what successive reads of the body give: bytes, and at last the
  // end or an error unless the framing already knows that nothing is left.
  datatype Stream = Stream(
    source: seq<BodyResult>,
    served: nat,                // how many of them were handed out
    owner: Owner,
    queue: Option<nat>,
    calls: map<nat, Place>,
    results: seq<BodyResult>,   // in the order the calls returned
    cancelled: bool,
    done: bool,
    error: Option<Code>,
    finished: bool)

  predicate Readable(source: seq<BodyResult>) {
    forall i :: 0 <= i < |source| - 1 ==> source[i].Piece?
  }

  function Opened(source: seq<BodyResult>): Stream {
    Stream(source, 0, Idle, None, map[], [], false, false, None, false)
  }

  // The outcome the owner left behind.
  function Stored(s: Stream): BodyResult {
    if s.error.Some? then Fail(s.error.value) else End
  }

  datatype StreamStep =
    | Call(call: nat)             // `next` is called
    | Enqueue(call: nat)          // the channel takes a waiting pull
    | SendFails(call: nat)        // the channel is closed
    | Receive                     // the owner takes the pull
    | Reply                       // the body was read, the pull is answered
    | RunEnds                     // nothing is left to read
    | Stop                        // shutdown or cancellation wins the select
    | ReplyDropped(call: nat)
    | Cancel

  predicate At(s: Stream, c: nat, p: Place) {
    c in s.calls && s.calls[c] == p
  }

  predicate Can(s: Stream, shutdown: bool, a: StreamStep) {
    match a
    case Call(c) => c !in s.calls
    case Enqueue(c) => At(s, c, Waiting) && s.queue.None? && s.owner != Gone
    case SendFails(c) => At(s, c, Waiting) && s.owner == Gone
    case Receive => s.owner == Idle && s.queue.Some? && s.served < |s.source|
    case Reply => s.owner.Serving? && s.served < |s.source|
    case RunEnds => s.owner == Idle && s.served == |s.source|
    case Stop => s.owner != Gone && (shutdown || s.cancelled)
    case ReplyDropped(c) => At(s, c, Dropped)
    case Cancel => true
  }

  function Moved(s: Stream, c: nat, p: Place): Stream {
    s.(calls := s.calls[c := p])
  }

  function Answered(s: Stream, c: nat, result: BodyResult): Stream {
    s.(calls := s.calls[c := Returned(result)], results := s.results + [result])
  }

  // The owner's last instructions, in one poll: record the outcome, drop the
  // body and the permit, announce it, and drop every reply it still holds.
  function Ended(s: Stream, error: Option<Code>): Stream {
    s.(owner := Gone, error := error, done := true, finished := true, queue := None,
       calls := map c | c in s.calls :: if s.calls[c] == Queued || s.calls[c] == Served then Dropped else s.calls[c])
  }

  function Next(s: Stream, shutdown: bool, a: StreamStep): Stream
    requires Can(s, shutdown, a)
  {
    match a
    case Call(c) => if s.done then Answered(s, c, Stored(s)) else Moved(s, c, Waiting)
    case Enqueue(c) => Moved(s, c, Queued).(queue := Some(c))
    case SendFails(c) => Answered(s, c, Stored(s))
    case Receive => Moved(s, s.queue.value, Served).(owner := Serving(s.queue.value), queue := None)
    case Reply =>
      var result := s.source[s.served];
      var replied := Answered(s, s.owner.call, result).(owner := Idle, served := s.served + 1);
      if !result.Piece? then Ended(replied, if result.Fail? then Some(result.code) else None) else replied
    case RunEnds => Ended(s, None)
    case Stop => Ended(s, Some(if shutdown then ClosedCode else CancelledCode))
    case ReplyDropped(c) => Answered(s, c, Stored(s))
    case Cancel => s.(cancelled := true)
  }

  // ----- one stream -----

  // The channel and the owner hold exactly the calls that say so.
  predicate Placed(s: Stream) {
    && (s.queue.Some? ==> At(s, s.queue.value, Queued))
    && (s.owner.Serving? ==> At(s, s.owner.call, Served))
    && (forall c :: c in s.calls && s.calls[c] == Queued ==> s.queue == Some(c))
    && (forall c :: c in s.calls && s.calls[c] == Served ==> s.owner == Serving(c))
    && (forall c :: c in s.calls && s.calls[c] == Dropped ==> s.done)
    && (s.done <==> s.owner == Gone) && (s.finished <==> s.owner == Gone)
    && (s.done ==> s.queue.None?)
    && s.served <= |s.source| && Readable(s.source)
  }

  // Before the end every result is bytes; after it, what is not bytes is the
  // outcome the owner left.
  predicate Lasting(s: Stream) {
    && (forall i :: 0 <= i < |s.results| ==> s.results[i].Piece? || (s.done && s.results[i] == Stored(s)))
    && (forall i, j :: 0 <= i < j < |s.results| && !s.results[i].Piece? ==> s.results[j] == s.results[i])
  }

  lemma PlacedStep(s: Stream, shutdown: bool, a: StreamStep)
    requires Placed(s) && Can(s, shutdown, a)
    ensures Placed(Next(s, shutdown, a))
  {
  }

  lemma LastingStep(s: Stream, shutdown: bool, a: StreamStep)
    requires Placed(s) && Lasting(s) && Can(s, shutdown, a)
    ensures Lasting(Next(s, shutdown, a))
  {
    if a.Reply? && !s.source[s.served].Piece? {
      assert forall i :: 0 <= i < |s.results| ==> s.results[i].Piece?;
    }
  }

  // The bytes among some results, in order.
  function BytesOf(results: seq<BodyResult>): Bytes {
    if results == [] then []
    else
      var last := results[|results|-1];
      BytesOf(results[..|results|-1]) + if last.Piece? then last.bytes else []
  }

  lemma BytesOfNext(results: seq<BodyResult>, next: BodyResult)
    ensures BytesOf(results + [next]) == BytesOf(results) + if next.Piece? then next.bytes else []
  {
    assert (results + [next])[..|results|] == results;
  }

  // What was returned is what was read, in order; without an error all was read.
  predicate Delivered(s: Stream) {
    && s.served <= |s.source|
    && BytesOf(s.results) == BytesOf(s.source[..s.served])
    && (s.done && s.error.None? ==> s.served == |s.source|)
  }

  lemma DeliveredStep(s: Stream, shutdown: bool, a: StreamStep)
    requires Placed(s) && Delivered(s) && Can(s, shutdown, a)
    ensures Delivered(Next(s, shutdown, a))
  {
    hide BytesOf, Placed;
    var s' := Next(s, shutdown, a);
    if a.Reply? {
      assert s.source[..s.served + 1] == s.source[..s.served] + [s.source[s.served]];
      BytesOfNext(s.source[..s.served], s.source[s.served]);
      BytesOfNext(s.results, s.source[s.served]);
      if !s.source[s.served].Piece? {
        EndsSource(s);
      }
    } else if |s'.results| > |s.results| {
      BytesOfNext(s.results, Stored(s));
    }
  }

  // Only the last read is not bytes.
  lemma EndsSource(s: Stream)
    requires Placed(s) && s.served < |s.source| && !s.source[s.served].Piece?
    ensures s.served + 1 == |s.source|
  {
  }

  // A returned call stays returned, with the same result.
  lemma ReturnedOnce(s: Stream, shutdown: bool, a: StreamStep, c: nat)
    requires Placed(s) && Can(s, shutdown, a) && c in s.calls && s.calls[c].Returned?
    ensures At(Next(s, shutdown, a), c, s.calls[c])
  {
  }

  // Once the owner is gone its outcome is fixed and every `next` that still has
  // to return, or is called later, returns it.
  lemma AfterTheEnd(s: Stream, shutdown: bool, a: StreamStep)
    requires Placed(s) && s.done && Can(s, shutdown, a)
    ensures var s' := Next(s, shutdown, a);
            && s'.done && s'.error == s.error
            && (s'.results == s.results || s'.results == s.results + [Stored(s)])
  {
  }

  // No call is left behind: once the owner is gone, each unreturned one can return.
  lemma NoCallStranded(s: Stream, shutdown: bool, c: nat)
    requires Placed(s) && s.done && c in s.calls && !s.calls[c].Returned?
    ensures Can(s, shutdown, SendFails(c)) || Can(s, shutdown, ReplyDropped(c))
  {
  }

  // ----- the client -----

  // `requests` hold a permit without an owner yet: set-up, or a buffered fetch.
  datatype Client = Client(
    free: nat,
    requests: set<nat>,
    streams: map<nat, Stream>,
    shutdown: bool,
    finishers: set<nat>)

  const Connected: Client := Client(PERMITS, {}, map[], false, {})

  datatype Action =
    | Begin(id: nat)                       // a request takes a permit
    | GiveUp(id: nat)                      // set-up failed, or a buffered fetch ended
    | Open(id: nat, source: seq<BodyResult>)   // set-up became a streaming response
    | Step(id: nat, step: StreamStep)
    | FinishReturns(id: nat)               // `finish` came back
    | Shutdown

  predicate ClientCan(w: Client, a: Action) {
    match a
    case Begin(id) => !w.shutdown && w.free > 0 && id !in w.requests && id !in w.streams
    case GiveUp(id) => id in w.requests
    case Open(id, source) => id in w.requests && id !in w.streams && Readable(source)
    case Step(id, step) => id in w.streams && Can(w.streams[id], w.shutdown, step)
    case FinishReturns(id) => id in w.streams && w.streams[id].finished
    case Shutdown => true
  }

  function ClientNext(w: Client, a: Action): Client
    requires ClientCan(w, a)
  {
    match a
    case Begin(id) => w.(free := w.free - 1, requests := w.requests + {id})
    case GiveUp(id) => w.(free := w.free + 1, requests := w.requests - {id})
    case Open(id, source) => w.(requests := w.requests - {id}, streams := w.streams[id := Opened(source)])
    case Step(id, step) =>
      var s := Next(w.streams[id], w.shutdown, step);
      var released := if s.owner == Gone && w.streams[id].owner != Gone then 1 else 0;
      w.(free := w.free + released, streams := w.streams[id := s])
    case FinishReturns(id) => w.(finishers := w.finishers + {id})
    case Shutdown => w.(shutdown := true)
  }

  predicate Runs(actions: seq<Action>)
    decreases |actions|, 0
  {
    actions == [] || (Runs(actions[..|actions|-1]) && ClientCan(After(actions[..|actions|-1]), actions[|actions|-1]))
  }

  function After(actions: seq<Action>): Client
    requires Runs(actions)
    decreases |actions|, 1
  {
    if actions == [] then Connected else ClientNext(After(actions[..|actions|-1]), actions[|actions|-1])
  }

  // Streams whose owner still holds its permit.
  function Live(streams: map<nat, Stream>): set<nat> {
    set id | id in streams && streams[id].owner != Gone
  }

  predicate Inv(w: Client) {
    && (forall id :: id in w.streams ==> Placed(w.streams[id]) && Lasting(w.streams[id]) && Delivered(w.streams[id]))
    && w.requests !! w.streams.Keys
    && w.free + |w.requests| + |Live(w.streams)| == PERMITS
    && (forall id :: id in w.finishers ==> id in w.streams && w.streams[id].owner == Gone)
  }

  // Replacing one stream changes the count by its owner alone.
  lemma LiveUpdate(streams: map<nat, Stream>, id: nat, s: Stream)
    ensures var was := id in streams && streams[id].owner != Gone; var now := s.owner != Gone;
            |Live(streams[id := s])| == |Live(streams)| - (if was then 1 else 0) + (if now then 1 else 0)
  {
    assert Live(streams[id := s]) == if s.owner == Gone then Live(streams) - {id} else Live(streams) + {id};
  }

  lemma LiveStep(w: Client, id: nat, step: StreamStep)
    requires id in w.streams && Placed(w.streams[id]) && Can(w.streams[id], w.shutdown, step)
    ensures var w' := ClientNext(w, Step(id, step));
            w'.free + |Live(w'.streams)| == w.free + |Live(w.streams)|
  {
    hide Next, Placed, Live;
    if w.streams[id].owner == Gone {
      OwnerStays(w.streams[id], w.shutdown, step);
    }
    LiveUpdate(w.streams, id, Next(w.streams[id], w.shutdown, step));
  }

  lemma OwnerStays(s: Stream, shutdown: bool, a: StreamStep)
    requires Placed(s) && Can(s, shutdown, a) && s.owner == Gone
    ensures Next(s, shutdown, a).owner == Gone
  {
  }

  lemma InvStreamStep(w: Client, id: nat, step: StreamStep)
    requires Inv(w) && ClientCan(w, Step(id, step))
    ensures Inv(ClientNext(w, Step(id, step)))
  {
    hide Placed, Lasting, Delivered, Next, Can, Live;
    PlacedStep(w.streams[id], w.shutdown, step);
    DeliveredStep(w.streams[id], w.shutdown, step);
    LastingStep(w.streams[id], w.shutdown, step);
    LiveStep(w, id, step);
    if w.streams[id].owner == Gone {
      OwnerStays(w.streams[id], w.shutdown, step);
    }
    assert ClientNext(w, Step(id, step)).streams.Keys == w.streams.Keys;
  }

  lemma InvOpenStep(w: Client, id: nat, source: seq<BodyResult>)
    requires Inv(w) && ClientCan(w, Open(id, source))
    ensures Inv(ClientNext(w, Open(id, source)))
  {
    hide Placed, Lasting, Delivered, Readable, Opened, Next, Can, Live;
    OpenedIsPlaced(source);
    LiveUpdate(w.streams, id, Opened(source));
  }

  lemma InvStep(w: Client, a: Action)
    requires Inv(w) && ClientCan(w, a)
    ensures Inv(ClientNext(w, a))
  {
    hide Placed, Lasting, Delivered, Can, Next, Opened, Readable, Live;
    if a.Step? {
      InvStreamStep(w, a.id, a.step);
    } else if a.Open? {
      InvOpenStep(w, a.id, a.source);
    } else {
      assert ClientNext(w, a).streams == w.streams;
      if a.FinishReturns? {
        FinishedIsGone(w.streams[a.id]);
      }
    }
  }

  lemma OpenedIsPlaced(source: seq<BodyResult>)
    requires Readable(source)
    ensures Placed(Opened(source)) && Lasting(Opened(source)) && Delivered(Opened(source))
    ensures Opened(source).owner == Idle
  {
  }

  lemma FinishedIsGone(s: Stream)
    requires Placed(s) && s.finished
    ensures s.owner == Gone
  {
  }

  lemma {:induction false} RunInv(actions: seq<Action>)
    requires Runs(actions)
    ensures Inv(After(actions))
    decreases |actions|
  {
    hide Inv, ClientCan, ClientNext;
    if actions == [] {
      ConnectedInv();
    } else {
      RunInv(actions[..|actions|-1]);
      InvStep(After(actions[..|actions|-1]), actions[|actions|-1]);
    }
  }

  lemma ConnectedInv()
    ensures Inv(Connected)
  {
    assert Live(Connected.streams) == {};
  }

  // Permits are never lost or invented: free ones, requests under way and live
  // owners always make sixteen; and a `finish` that came back left its permit free.
  lemma PermitsConserved(actions: seq<Action>)
    requires Runs(actions)
    ensures var w := After(actions);
            && w.free + |w.requests| + |Live(w.streams)| == PERMITS
            && forall id :: id in w.finishers ==> id !in Live(w.streams)
  {
    RunInv(actions);
  }

  // In every run, each stream's results are bytes up to one outcome that every
  // later call repeats, and it is the outcome the owner stored.
  lemma ResultsSettle(actions: seq<Action>, id: nat, i: nat)
    requires Runs(actions) && id in After(actions).streams
    requires i < |After(actions).streams[id].results| && !After(actions).streams[id].results[i].Piece?
    ensures var s := After(actions).streams[id];
            && s.done && s.results[i] == Stored(s)
            && forall j :: i <= j < |s.results| ==> s.results[j] == Stored(s)
  {
    hide Runs, After, Placed, Delivered, Live, Stored;
    RunInv(actions);
    assert Lasting(After(actions).streams[id]);
  }

  // What the calls returned is always the beginning of what the body reads give,
  // and once one of them reported the end it is all of it, with no error in it.
  lemma BodyDelivered(actions: seq<Action>, id: nat)
    requires Runs(actions) && id in After(actions).streams
    ensures var s := After(actions).streams[id];
            && s.served <= |s.source| && BytesOf(s.results) == BytesOf(s.source[..s.served]) <= BytesOf(s.source)
            && (End in s.results ==> BytesOf(s.results) == BytesOf(s.source))
  {
    RunInv(actions);
    var s := After(actions).streams[id];
    hide Runs, After, BytesOf;
    BytesOfPrefix(s.source, s.served);
    if End in s.results {
      var i :| 0 <= i < |s.results| && s.results[i] == End;
      assert s.source[..s.served] == s.source;
    }
  }

  lemma {:induction false} BytesOfPrefix(results: seq<BodyResult>, k: nat)
    requires k <= |results|
    ensures BytesOf(results[..k]) <= BytesOf(results)
    decreases |results|
  {
    if k == |results| {
      assert results[..k] == results;
    } else {
      var n := |results| - 1;
      BytesOfPrefix(results[..n], k);
      assert results[..n][..k] == results[..k];
    }
  }

  // And every call in it is answered exactly once: its result never changes, and
  // when the owner is gone no call is left that cannot return.
  lemma CallsAnswered(actions: seq<Action>, id: nat, c: nat, step: StreamStep)
    requires Runs(actions) && id in After(actions).streams && c in After(actions).streams[id].calls
    requires Can(After(actions).streams[id], After(actions).shutdown, step)
    ensures var w := After(actions); var s := w.streams[id];
            && (s.calls[c].Returned? ==> At(Next(s, w.shutdown, step), c, s.calls[c]))
            && (s.done && !s.calls[c].Returned? ==>
                  Can(s, w.shutdown, SendFails(c)) || Can(s, w.shutdown, ReplyDropped(c)))
  {
    RunInv(actions);
    var w := After(actions);
    if w.streams[id].calls[c].Returned? {
      ReturnedOnce(w.streams[id], w.shutdown, step, c);
    } else if w.streams[id].done {
      NoCallStranded(w.streams[id], w.shutdown, c);
    }
  }

  // ----- the owner's loop, over a real body -----

  // The owner answers up to `pulls` pulls. Its replies are readable in order;
  // their bytes are the beginning of the reference body, all of it when the loop
  // ends, and its error is the reference decoder's.
  method ServePulls(body: HttpBody.Body, pulls: nat)
      returns (replies: seq<BodyResult>, ended: bool, error: Option<Code>)
    requires body.reader.Valid()
    modifies body, body.reader
    ensures |replies| <= pulls && Readable(replies) && (!ended ==> |replies| == pulls && error.None?)
    ensures error.Some? ==> error.value.BodyError?
    ensures old(body.Pending(false)) ==
            if !ended then HttpBody.Prepend(BytesOf(replies), body.Pending(false))
            else HttpBody.Decoded(BytesOf(replies),
                                  if error.Some? then HttpBody.Failed(error.value.error)
                                  else HttpBody.Done(body.reader.left))
  {
    hide BytesOf, HttpBody.Decode, HttpBody.ModeOf, HttpBody.Prepend;
    ghost var due := body.Pending(false);
    replies := [];
    NoBytes();
    PrependNone(due);
    while !body.IsEmpty()
      invariant body.reader.Valid() && |replies| <= pulls
      invariant forall i :: 0 <= i < |replies| ==> replies[i].Piece?
      invariant due == HttpBody.Prepend(BytesOf(replies), body.Pending(false))
      decreases |body.reader.left|
    {
      if |replies| == pulls {
        return replies, false, None;
      }
      var next := body.Next(false);
      match next {
        case Err(e) =>
          BytesOfNext(replies, Fail(BodyError(e)));
          PrependEnd(BytesOf(replies), HttpBody.Failed(e));
          return replies + [Fail(BodyError(e))], true, Some(BodyError(e));
        case Ok(None) =>
          BytesOfNext(replies, End);
          PrependEnd(BytesOf(replies), HttpBody.Done(body.reader.left));
          return replies + [End], true, None;
        case Ok(Some(out)) =>
          BytesOfNext(replies, Piece(out));
          PrependTwice(BytesOf(replies), out, body.Pending(false));
          replies := replies + [Piece(out)];
      }
    }
    EmptyOwesNothing(body);
    PrependEnd(BytesOf(replies), HttpBody.Done(body.reader.left));
    return replies, true, None;
  }

  lemma PrependTwice(a: Bytes, b: Bytes, d: HttpBody.Decoded)
    ensures HttpBody.Prepend(a, HttpBody.Prepend(b, d)) == HttpBody.Prepend(a + b, d)
  {
    assert a + (b + d.body) == (a + b) + d.body;
  }

  lemma PrependNone(d: HttpBody.Decoded)
    ensures HttpBody.Prepend([], d) == d
  {
    assert [] + d.body == d.body;
  }

  // An end or an error found by the last read adds no bytes.
  lemma PrependEnd(a: Bytes, o: HttpBody.Outcome)
    ensures HttpBody.Prepend(a, HttpBody.Decoded([], o)) == HttpBody.Decoded(a, o)
  {
    assert a + [] == a;
  }

  lemma NoBytes()
    ensures BytesOf([]) == []
  {
  }

  lemma EmptyOwesNothing(body: HttpBody.Body)
    requires body.reader.Valid() && body.IsEmpty()
    ensures body.Pending(false) == HttpBody.Decoded([], HttpBody.Done(body.reader.left))
  {
  }

  // ----- how a stream ends early -----

  // The closed client's code, or else the cancelled stream's.
  lemma StopCode(s: Stream, shutdown: bool)
    requires s.owner != Gone && (shutdown || s.cancelled)
    ensures Can(s, shutdown, Stop)
    ensures var t := Next(s, shutdown, Stop);
            && t.done && t.finished && t.owner == Gone
            && Stored(t) == Fail(if shutdown then ClosedCode else CancelledCode)
  {
  }

  // Cancelling lasts, and so the owner of a cancelled stream can stop until it does.
  lemma CancelIsHeard(s: Stream, shutdown: bool, a: StreamStep)
    requires Placed(s) && Can(s, shutdown, a)
    ensures s.cancelled || a == Cancel ==> Next(s, shutdown, a).cancelled
    ensures var t := Next(s, shutdown, a); t.cancelled && t.owner != Gone ==> Can(t, shutdown, Stop)
  {
  }

  // The owner's own end stores what the last read found.
  lemma EndStored(s: Stream, shutdown: bool, a: StreamStep)
    requires Placed(s) && Can(s, shutdown, a) && s.owner != Gone && Next(s, shutdown, a).owner == Gone
    ensures Stored(Next(s, shutdown, a)) ==
            if a == Stop then Fail(if shutdown then ClosedCode else CancelledCode)
            else if a == Reply && s.source[s.served].Fail? then s.source[s.served]
            else End
  {
  }

  // ----- how a call goes on -----

  // On an idle stream with reads left, a call is queued, taken and answered with the
  // next read; that is the end of the stream exactly if it gave no bytes.
  lemma CallIsServed(s: Stream, shutdown: bool, c: nat)
    requires Placed(s) && s.owner == Idle && s.queue.None? && s.served < |s.source| && c !in s.calls
    ensures var called := Next(s, shutdown, Call(c));
            && Can(s, shutdown, Call(c)) && Can(called, shutdown, Enqueue(c))
            && var queued := Next(called, shutdown, Enqueue(c));
               && Can(queued, shutdown, Receive)
               && var taken := Next(queued, shutdown, Receive);
                  && Can(taken, shutdown, Reply) && taken.owner == Serving(c)
                  && var answered := Next(taken, shutdown, Reply);
                     && At(answered, c, Returned(s.source[s.served])) && answered.served == s.served + 1
                     && answered.results == s.results + [s.source[s.served]]
                     && (answered.done <==> !s.source[s.served].Piece?)
  {
  }

  // With no reads left the owner ends the stream by itself, without an error.
  lemma ReadsRunOut(s: Stream, shutdown: bool)
    requires Placed(s) && s.owner == Idle && s.served == |s.source|
    ensures Can(s, shutdown, RunEnds)
    ensures var t := Next(s, shutdown, RunEnds); t.done && t.finished && t.owner == Gone && Stored(t) == End
  {
  }

  // After the end a new call, one that cannot be sent and one whose reply was
  // dropped all return the outcome.
  lemma CallAfterEnd(s: Stream, shutdown: bool, c: nat)
    requires Placed(s) && s.done
    ensures c !in s.calls ==> At(Next(s, shutdown, Call(c)), c, Returned(Stored(s)))
    ensures At(s, c, Waiting) ==>
              Can(s, shutdown, SendFails(c)) && At(Next(s, shutdown, SendFails(c)), c, Returned(Stored(s)))
    ensures At(s, c, Dropped) ==>
              Can(s, shutdown, ReplyDropped(c)) && At(Next(s, shutdown, ReplyDropped(c)), c, Returned(Stored(s)))
  {
  }

  // When the owner ends, the calls it or its channel held lose their replies.
  lemma EndDropsReplies(s: Stream, shutdown: bool, c: nat)
    requires Placed(s) && Can(s, shutdown, Stop)
    ensures At(s, c, Queued) || At(s, c, Served) ==> At(Next(s, shutdown, Stop), c, Dropped)
    ensures At(s, c, Waiting) ==> At(Next(s, shutdown, Stop), c, Waiting)
  {
  }

  // ----- the client, from the history -----

  // Requests that hold a permit of their own, and what each stream's own steps made
  // of it since it was opened.
  function RequestsOf(actions: seq<Action>): set<nat> {
    if actions == [] then {}
    else
      var before := RequestsOf(actions[..|actions|-1]);
      match actions[|actions|-1]
      case Begin(id) => before + {id}
      case GiveUp(id) => before - {id}
      case Open(id, _) => before - {id}
      case _ => before
  }

  function StreamOf(actions: seq<Action>, id: nat): Option<Stream>
    requires Runs(actions)
    decreases |actions|
  {
    if actions == [] then None
    else
      var before := actions[..|actions|-1];
      var s := StreamOf(before, id);
      match actions[|actions|-1]
      case Open(other, source) => if other == id then Some(Opened(source)) else s
      case Step(other, step) =>
        if other == id && s.Some? && Can(s.value, After(before).shutdown, step)
        then Some(Next(s.value, After(before).shutdown, step)) else s
      case _ => s
  }

  predicate Happened(actions: seq<Action>, a: Action) {
    exists j :: 0 <= j < |actions| && actions[j] == a
  }

  lemma HappenedMore(actions: seq<Action>, a: Action)
    requires actions != []
    ensures Happened(actions, a) <==> Happened(actions[..|actions|-1], a) || actions[|actions|-1] == a
  {
    var before := actions[..|actions|-1];
    assert forall j :: 0 <= j < |before| ==> before[j] == actions[j];
  }

  predicate ClientTells(w: Client, requests: set<nat>, id: nat, s: Option<Stream>, shut: bool, finished: bool) {
    && w.requests == requests && (shut <==> w.shutdown) && (finished <==> id in w.finishers)
    && s == (if id in w.streams then Some(w.streams[id]) else None)
  }

  lemma ClientTellsStep(
      w: Client, a: Action, requests: set<nat>, id: nat, s: Option<Stream>, shut: bool, finished: bool)
    requires ClientTells(w, requests, id, s, shut, finished) && ClientCan(w, a)
    ensures ClientTells(ClientNext(w, a),
                        if a.Begin? then requests + {a.id}
                        else if a.GiveUp? || a.Open? then requests - {a.id} else requests,
                        id,
                        if a.Open? && a.id == id then Some(Opened(a.source))
                        else if a.Step? && a.id == id then Some(Next(w.streams[id], w.shutdown, a.step)) else s,
                        shut || a == Shutdown, finished || a == FinishReturns(id))
  {
    hide Next, Can, Opened;
  }

  // In every run the requests under way, the streams, the shutdown and the finished
  // streams are what the history says; each stream depends on its own steps alone.
  lemma {:induction false} ClientTellsHistory(actions: seq<Action>, id: nat)
    requires Runs(actions)
    ensures ClientTells(After(actions), RequestsOf(actions), id, StreamOf(actions, id),
                        Happened(actions, Shutdown), Happened(actions, FinishReturns(id)))
    decreases |actions|
  {
    hide ClientNext, Next, Can, Opened, Happened;
    if actions == [] {
      NothingHappened(id);
    } else {
      var before, a := actions[..|actions|-1], actions[|actions|-1];
      ClientTellsHistory(before, id);
      HappenedMore(actions, Shutdown);
      HappenedMore(actions, FinishReturns(id));
      ClientTellsStep(After(before), a, RequestsOf(before), id, StreamOf(before, id),
                      Happened(before, Shutdown), Happened(before, FinishReturns(id)));
    }
  }

  lemma NothingHappened(id: nat)
    ensures !Happened([], Shutdown) && !Happened([], FinishReturns(id))
    ensures ClientTells(Connected, {}, id, None, false, false)
  {
  }

  // A permit is taken and given back with its request, or with the owner's end.
  lemma PermitMoves(w: Client, a: Action)
    requires ClientCan(w, a)
    ensures ClientNext(w, a).free == w.free
              - (if a.Begin? then 1 else 0) + (if a.GiveUp? then 1 else 0)
              + (if a.Step? && w.streams[a.id].owner != Gone && ClientNext(w, a).streams[a.id].owner == Gone
                 then 1 else 0)
  {
    hide Next, Can, Opened;
  }
}
