// The JavaScript streaming response: when its WASM handles are released, over
// every order of pulls, cancels, aborts and client close
// (packages/locho-web/src/index.ts).

module JsStream {
  import Base = Bytes

  datatype Phase =
    | Requesting        // request_stream is pending
    | Abandoning        // built, but the client closed or the caller aborted: stop is awaited
    | Delivered         // the response was handed to the caller
    | Rejected          // the call threw

  // The stop promise: not asked for, awaiting the pull in flight, awaiting
  // finish(), or settled.
  datatype Stopping = NotAsked | AwaitsPull | AwaitsFinish | Settled

  datatype Stream = Stream(
    phase: Phase,
    body: bool,          // the response has a body stream, and `stop` is defined
    readable: bool,      // that stream is neither closed nor errored
    pulling: bool,       // raw.next() is pending
    stopping: Stopping,
    released: bool,
    frees: nat,          // how often the handles were freed
    registered: bool)    // `stop` is in the client's set

  const Requested: Stream := Stream(Requesting, false, false, false, NotAsked, false, 0, false)

  predicate Stopped(s: Stream) { s.stopping != NotAsked }

  function Release(s: Stream): Stream {
    if s.released then s else s.(released := true, frees := s.frees + 1, registered := false)
  }

  // The synchronous part of `stop`: mark, cancel the raw response, error the stream.
  function Stop(s: Stream): Stream {
    if !s.body || s.released || Stopped(s) then s else s.(stopping := AwaitsPull, readable := false)
  }

  datatype Settles = Bytes | End | Failure

  datatype Step =
    | RequestFails                       // or resolves to something unusable
    | ResolvesWithoutBody
    | ResolvesButThrows                  // building the response threw after `stop` was added
    | ResolvesWithBody(abort: bool)      // `abort`: the caller's signal had fired
    | Pull
    | PullSettles(result: Settles)
    | ReaderCancels
    | Abort
    | PendingSettled                     // `await pending` in stop is over
    | FinishSettles
    | AbandonThrows

  predicate Can(s: Stream, a: Step) {
    match a
    case RequestFails => s.phase == Requesting
    case ResolvesWithoutBody => s.phase == Requesting
    case ResolvesButThrows => s.phase == Requesting
    case ResolvesWithBody(_) => s.phase == Requesting
    case Pull => s.phase == Delivered && s.body && s.readable && !s.pulling
    case PullSettles(_) => s.pulling
    case ReaderCancels => s.phase == Delivered && s.body
    case Abort => !s.released
    case PendingSettled => s.stopping == AwaitsPull && !s.pulling
    case FinishSettles => s.stopping == AwaitsFinish
    case AbandonThrows => s.phase == Abandoning && s.stopping == Settled
  }

  function Next(s: Stream, closing: bool, a: Step): Stream
    requires Can(s, a)
  {
    match a
    case RequestFails => Release(s).(phase := Rejected)
    case ResolvesWithoutBody => Release(s).(phase := Delivered)
    case ResolvesButThrows => Release(s.(body := true, registered := true)).(phase := Rejected)
    case ResolvesWithBody(abort) =>
      var built := s.(body := true, readable := true, registered := true);
      if closing || abort then Stop(built).(phase := Abandoning) else built.(phase := Delivered)
    case Pull => s.(pulling := true)
    case PullSettles(result) =>
      var idle := s.(pulling := false);
      if Stopped(s) || result == Bytes then idle else Release(idle.(readable := false))
    case ReaderCancels => Stop(s.(readable := false))
    case Abort => Stop(s)
    case PendingSettled => if s.released then s.(stopping := Settled) else s.(stopping := AwaitsFinish)
    case FinishSettles => Release(s).(stopping := Settled)
    case AbandonThrows => Release(s).(phase := Rejected)
  }

  // ----- the closures over one response, updating their variables in place -----

  class Handles {
    var phase: Phase
    var body: bool
    var readable: bool
    var pulling: bool
    var stopping: Stopping
    var released: bool
    var frees: nat
    var registered: bool

    function View(): Stream reads this {
      Stream(phase, body, readable, pulling, stopping, released, frees, registered)
    }

    constructor ()
      ensures View() == Requested
    {
      phase, body, readable, pulling := Requesting, false, false, false;
      stopping, released, frees, registered := NotAsked, false, 0, false;
    }

    method FreeOnce()
      modifies this
      ensures View() == Release(old(View()))
    {
      if released {
        return;
      }
      released := true;
      registered := false;
      frees := frees + 1;
    }

    // `stop`, up to its first await.
    method BeginStop()
      modifies this
      ensures View() == Stop(old(View()))
    {
      if !body || released || stopping != NotAsked {
        return;
      }
      stopping := AwaitsPull;
      readable := false;
    }

    // `stop`, after the pull in flight settled.
    method StopGoesOn()
      requires Can(View(), PendingSettled)
      modifies this
      ensures View() == Next(old(View()), false, PendingSettled)
    {
      stopping := if released then Settled else AwaitsFinish;
    }

    // `stop`, after finish() settled.
    method StopEnds()
      requires Can(View(), FinishSettles)
      modifies this
      ensures View() == Next(old(View()), false, FinishSettles)
    {
      FreeOnce();
      stopping := Settled;
    }

    // A pull, after raw.next() settled.
    method PullEnds(result: Settles)
      requires Can(View(), PullSettles(result))
      modifies this
      ensures View() == Next(old(View()), false, PullSettles(result))
    {
      pulling := false;
      if stopping == NotAsked && result != Bytes {
        readable := false;
        FreeOnce();
      }
    }
  }

  // ----- one stream -----

  predicate Inv(s: Stream) {
    && s.frees == (if s.released then 1 else 0)
    && (s.released ==> !s.pulling && (s.stopping == NotAsked || s.stopping == Settled))
    && (s.stopping == Settled ==> s.released)
    && (s.stopping == AwaitsFinish ==> !s.pulling)
    && (Stopped(s) ==> s.body && !s.readable)
    && (s.readable ==> s.body && !s.released && s.phase == Delivered)
    && (s.registered <==> s.body && !s.released)
    && (s.pulling ==> s.phase == Delivered && s.body)
    && (s.phase == Requesting ==> !s.body && !s.released && s.stopping == NotAsked)
    && (s.phase == Rejected ==> s.released)
    && (s.phase == Delivered && !s.body ==> s.released)
    && (s.phase == Abandoning ==> Stopped(s))
    && (s.phase == Delivered && s.body && !s.readable && !Stopped(s) ==> s.released)
  }

  lemma StepInv(s: Stream, closing: bool, a: Step)
    requires Inv(s) && Can(s, a)
    ensures Inv(Next(s, closing, a))
  {
  }

  lemma StopInv(s: Stream)
    requires Inv(s)
    ensures Inv(Stop(s))
  {
  }

  // ----- the client -----

  datatype Closing = Open | Closing(awaited: set<nat>) | Closed

  datatype Client = Client(streams: map<nat, Stream>, closing: Closing)

  datatype Action = Fetch(id: nat) | On(id: nat, step: Step) | Close | CloseResolves

  predicate ClientCan(w: Client, a: Action) {
    match a
    case Fetch(id) => w.closing == Open && id !in w.streams
    case On(id, step) => id in w.streams && Can(w.streams[id], step)
    case Close => true
    case CloseResolves =>
      w.closing.Closing? &&
      forall id :: id in w.closing.awaited && id in w.streams ==> w.streams[id].stopping == Settled
  }

  function ClientNext(w: Client, a: Action): Client
    requires ClientCan(w, a)
  {
    match a
    case Fetch(id) => w.(streams := w.streams[id := Requested])
    case On(id, step) => w.(streams := w.streams[id := Next(w.streams[id], w.closing != Open, step)])
    case Close =>
      if w.closing != Open then w
      else Client(map id | id in w.streams :: if w.streams[id].registered then Stop(w.streams[id]) else w.streams[id],
                  Closing(set id | id in w.streams && w.streams[id].registered))
    case CloseResolves => w.(closing := Closed)
  }

  predicate Runs(actions: seq<Action>)
    decreases |actions|, 0
  {
    actions == [] || (Runs(actions[..|actions|-1]) && ClientCan(After(actions[..|actions|-1]), actions[|actions|-1]))
  }

  function After(actions: seq<Action>): Client
    requires Runs(actions)
    decreases |actions|, 1
  {
    if actions == [] then Client(map[], Open) else ClientNext(After(actions[..|actions|-1]), actions[|actions|-1])
  }

  // From the moment close() starts, every stream that was handed out and not
  // yet released is one it waits for; once it resolves there is none.
  predicate Covered(w: Client, id: nat)
    requires id in w.streams
  {
    var s := w.streams[id];
    match w.closing
    case Open => true
    case Closing(awaited) => (s.phase == Delivered && !s.released ==> id in awaited) && (id in awaited ==> Stopped(s))
    case Closed => s.phase == Delivered ==> s.released
  }

  predicate ClientInv(w: Client) {
    && (forall id :: id in w.streams ==> Inv(w.streams[id]) && Covered(w, id))
    && (w.closing.Closing? ==> w.closing.awaited <= w.streams.Keys)
  }

  // After the start of close nothing new is handed out, and releases last.
  lemma StepWhileClosing(s: Stream, a: Step)
    requires Inv(s) && Can(s, a)
    ensures var s' := Next(s, true, a);
            && (s'.phase == Delivered && !s'.released ==> s.phase == Delivered && !s.released)
            && (Stopped(s) ==> Stopped(s'))
  {
  }

  lemma ClientStep(w: Client, a: Action)
    requires ClientInv(w) && ClientCan(w, a)
    ensures ClientInv(ClientNext(w, a))
  {
    match a {
      case Fetch(id) =>
      case On(id, step) =>
        StepInv(w.streams[id], w.closing != Open, step);
        if w.closing != Open {
          StepWhileClosing(w.streams[id], step);
        }
        hide Inv, Next, Can;
      case Close =>
        if w.closing == Open {
          CloseStarts(w);
        }
      case CloseResolves =>
    }
  }

  lemma CloseStarts(w: Client)
    requires ClientInv(w) && w.closing == Open
    ensures ClientInv(ClientNext(w, Close))
  {
    var w' := ClientNext(w, Close);
    forall id | id in w'.streams ensures Inv(w'.streams[id]) && Covered(w', id) {
      StopInv(w.streams[id]);
    }
  }

  lemma {:induction false} RunInv(actions: seq<Action>)
    requires Runs(actions)
    ensures ClientInv(After(actions))
    decreases |actions|
  {
    hide ClientInv, ClientCan, ClientNext;
    if actions == [] {
      NoStreams();
    } else {
      RunInv(actions[..|actions|-1]);
      ClientStep(After(actions[..|actions|-1]), actions[|actions|-1]);
    }
  }

  lemma NoStreams()
    ensures ClientInv(Client(map[], Open))
  {
  }

  // The handles are freed at most once, and never while next() or finish() is
  // pending; conversely every use of them finds them alive.
  lemma FreedOnceAndIdle(actions: seq<Action>, id: nat)
    requires Runs(actions) && id in After(actions).streams
    ensures var s := After(actions).streams[id];
            && s.frees <= 1
            && (s.frees > 0 ==> !s.pulling && s.stopping != AwaitsPull && s.stopping != AwaitsFinish)
            && (Can(s, Pull) || Can(s, FinishSettles) || (Can(s, PendingSettled)) ==> s.frees == 0)
            && (Stop(s) != s ==> s.frees == 0)
  {
    RunInv(actions);
  }

  // When close() has resolved, every response handed to a caller is released.
  lemma NoStreamOutlivesClose(actions: seq<Action>, id: nat)
    requires Runs(actions) && id in After(actions).streams
    requires After(actions).closing == Closed && After(actions).streams[id].phase == Delivered
    ensures After(actions).streams[id].released && !After(actions).streams[id].readable
  {
    RunInv(actions);
  }

  // ----- what stopping leads to -----

  // An abort, a cancelled reader or a closing client stops a response that is not
  // released: its reader sees no more, and once the pull in flight and finish() have
  // settled its handles are freed.
  lemma StopReleases(s: Stream, a: Step, closing: bool, result: Settles)
    requires Inv(s) && s.body && !s.released && s.stopping == NotAsked
    requires (a == Abort || a == ReaderCancels) && Can(s, a)
    ensures var stopped := Next(s, closing, a);
            && stopped.stopping == AwaitsPull && !stopped.readable && !stopped.released
            && (s.pulling ==> Can(stopped, PullSettles(result)))
            && var idle := if s.pulling then Next(stopped, closing, PullSettles(result)) else stopped;
               && Can(idle, PendingSettled)
               && var waiting := Next(idle, closing, PendingSettled);
                  && Can(waiting, FinishSettles) && waiting.frees == 0
                  && var over := Next(waiting, closing, FinishSettles);
                     over.released && over.frees == 1 && !over.registered && over.stopping == Settled
  {
  }

  // The client's close stops every registered response the same way.
  lemma CloseStops(w: Client, id: nat)
    requires ClientInv(w) && w.closing == Open && id in w.streams
    ensures var s := ClientNext(w, Close).streams[id];
            if !w.streams[id].registered then s == w.streams[id]
            else Stopped(s) && !s.readable && (w.streams[id].stopping == NotAsked ==> s == Stop(w.streams[id]))
  {
    assert Inv(w.streams[id]);
  }

  // Nothing leaks: a call that threw, a response without a body and a body read to
  // its end or to an error are all released.
  lemma NothingLeaks(actions: seq<Action>, id: nat)
    requires Runs(actions) && id in After(actions).streams
    ensures var s := After(actions).streams[id];
            && (s.phase == Rejected ==> s.released)
            && (s.phase == Delivered && !s.body ==> s.released)
            && (s.phase == Delivered && !s.readable && !Stopped(s) ==> s.released)
            && (s.released ==> s.frees == 1 && !s.registered)
  {
    RunInv(actions);
  }

  // A pull that is not overtaken by a stop ends the stream exactly at its end or an
  // error, and then releases it.
  lemma PullEnds(s: Stream, closing: bool, result: Settles)
    requires Inv(s) && s.pulling && !Stopped(s)
    ensures var t := Next(s, closing, PullSettles(result));
            !t.pulling && (t.released <==> result != Bytes) && (t.readable <==> result == Bytes && s.readable)
  {
  }

  // ----- how a fetch goes on -----

  // However the request resolves: it is rejected and freed, or handed out without a
  // body and freed, or handed out with a readable one, or stopped and abandoned if
  // the client is closing or the caller had aborted.
  lemma FetchResolves(s: Stream, closing: bool, abort: bool)
    requires Inv(s) && s.phase == Requesting
    ensures var failed := Next(s, closing, RequestFails);
            failed.phase == Rejected && failed.released && failed.frees == 1
    ensures var bare := Next(s, closing, ResolvesWithoutBody); bare.phase == Delivered && bare.released && !bare.body
    ensures var threw := Next(s, closing, ResolvesButThrows);
            threw.phase == Rejected && threw.released && !threw.registered
    ensures var built := Next(s, closing, ResolvesWithBody(abort));
            if closing || abort then built.phase == Abandoning && built.stopping == AwaitsPull && !built.readable
            else built.phase == Delivered && built.readable && built.registered && Can(built, Pull)
  {
  }

  // An abandoned response throws once its stop settled, and is freed by then.
  lemma AbandonedIsFreed(s: Stream, closing: bool)
    requires Inv(s) && s.phase == Abandoning && s.stopping == Settled
    ensures Can(s, AbandonThrows)
    ensures var t := Next(s, closing, AbandonThrows); t.phase == Rejected && t.released && t.frees == 1
  {
  }

  // A reader's pull reads; until it settles no other begins.
  lemma PullReads(s: Stream, closing: bool)
    requires Inv(s) && Can(s, Pull)
    ensures var t := Next(s, closing, Pull); t == s.(pulling := true) && !Can(t, Pull) && Can(t, PullSettles(Bytes))
  {
  }

  // ----- the client, from the history -----

  // What a stream's own steps, and the start of close, made of it.
  function StreamOf(actions: seq<Action>, id: nat): Base.Option<Stream>
    requires Runs(actions)
    decreases |actions|
  {
    if actions == [] then Base.None
    else
      var before := actions[..|actions|-1];
      var s, w := StreamOf(before, id), After(before);
      match actions[|actions|-1]
      case Fetch(other) => if other == id then Base.Some(Requested) else s
      case On(other, step) =>
        if other == id && s.Some? && Can(s.value, step) then Base.Some(Next(s.value, w.closing != Open, step)) else s
      case Close => if s.Some? && w.closing == Open && s.value.registered then Base.Some(Stop(s.value)) else s
      case CloseResolves => s
  }

  function ClosingOf(actions: seq<Action>): nat {
    if actions == [] then 0
    else
      var before, a := ClosingOf(actions[..|actions|-1]), actions[|actions|-1];
      if a == Close && before == 0 then 1 else if a == CloseResolves then 2 else before
  }

  predicate ClientTells(w: Client, id: nat, s: Base.Option<Stream>, closing: nat) {
    && s == (if id in w.streams then Base.Some(w.streams[id]) else Base.None)
    && closing == match w.closing { case Open => 0 case Closing(_) => 1 case Closed => 2 }
  }

  lemma ClientTellsStep(w: Client, a: Action, id: nat, s: Base.Option<Stream>, closing: nat)
    requires ClientTells(w, id, s, closing) && ClientCan(w, a)
    ensures ClientTells(ClientNext(w, a), id,
                        match a {
                          case Fetch(other) => if other == id then Base.Some(Requested) else s
                          case On(other, step) =>
                            if other == id then Base.Some(Next(w.streams[id], w.closing != Open, step)) else s
                          case Close =>
                            if s.Some? && w.closing == Open && s.value.registered then Base.Some(Stop(s.value)) else s
                          case CloseResolves => s
                        },
                        if a == Close && closing == 0 then 1 else if a == CloseResolves then 2 else closing)
  {
    hide Next, Can, Stop;
  }

  // In every run each stream is what its own steps and the client's close made of
  // it, and the client is open, closing or closed as it was told.
  lemma {:induction false} ClientTellsHistory(actions: seq<Action>, id: nat)
    requires Runs(actions)
    ensures ClientTells(After(actions), id, StreamOf(actions, id), ClosingOf(actions))
    decreases |actions|
  {
    hide ClientNext, Next, Can, Stop;
    if actions != [] {
      var before := actions[..|actions|-1];
      ClientTellsHistory(before, id);
      ClientTellsStep(After(before), actions[|actions|-1], id, StreamOf(before, id), ClosingOf(before));
    }
  }
}
