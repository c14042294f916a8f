// The native client: its registry of attachments, the attachment tasks, the
// close callers and the drop guards (crates/locho-client-native/src/client.rs).

module Registry {
  import opened Bytes
  import Session

  type State = Session.State

  datatype Error =
    | Cancelled | TaskFailed | ShutdownTimeout | StartupTimeout | ListenerFailed
    | Setup(code: nat) | Peer(code: nat)

  // `get_or_insert` on an optional error.
  function Keep(first: Option<Error>, later: Option<Error>): Option<Error> {
    if first.Some? then first else later
  }

  // ----- the mutex-guarded record -----

  datatype Book<T> = Book(closed: bool, next: nat, attachments: map<nat, T>, closeError: Option<Error>)

  function Enrol<T>(b: Book<T>, control: T): Book<T> {
    b.(next := b.next + 1, attachments := b.attachments[b.next + 1 := control])
  }

  function Shut<T>(b: Book<T>): Book<T> { b.(closed := true) }

  function Settle<T>(b: Book<T>, error: Option<Error>): Book<T> { b.(closeError := Keep(b.closeError, error)) }

  function Strike<T>(b: Book<T>, id: nat, terminal: Option<Error>): Book<T> {
    (if b.closed then Settle(b, terminal) else b).(attachments := b.attachments - {id})
  }

  // ----- its objects, updated in place -----

  datatype Shown = Shown(revision: nat, state: State, terminal: Option<Error>)

  function Publish(s: Shown, state: State, terminal: Option<Error>): Shown { Shown(s.revision + 1, state, terminal) }

  function Closing(s: Shown): Shown {
    if s.state == Session.Closed then s else Publish(s, Session.Closing, s.terminal)
  }

  class Control {
    var cancelled: bool
    var status: Shown

    constructor ()
      ensures !cancelled && status == Shown(0, Session.Starting, None)
    {
      cancelled, status := false, Shown(0, Session.Starting, None);
    }

    method MarkClosing()
      modifies this`status
      ensures status == Closing(old(status))
    {
      if status.state != Session.Closed {
        status := Shown(status.revision + 1, Session.Closing, status.terminal);
      }
    }

    method MarkClosed(error: Option<Error>)
      modifies this`status
      ensures status == Publish(old(status), Session.Closed, error)
    {
      status := Shown(status.revision + 1, Session.Closed, error);
    }
  }

  class Records {
    var closed: bool
    var next: nat
    var attachments: map<nat, Control>
    var closeError: Option<Error>

    function Value(): Book<Control>
      reads this
    {
      Book(closed, next, attachments, closeError)
    }

    constructor ()
      ensures Value() == Book(false, 0, map[], None)
    {
      closed, next, attachments, closeError := false, 0, map[], None;
    }

    method Register(control: Control) returns (id: Option<nat>)
      modifies this
      ensures old(closed) ==> id == None && Value() == old(Value())
      ensures !old(closed) ==> id == Some(next) && Value() == Enrol(old(Value()), control)
    {
      if closed {
        return None;
      }
      next := next + 1;
      attachments := attachments[next := control];
      id := Some(next);
    }

    method BeginClose() returns (controls: set<Control>)
      modifies this
      ensures Value() == Shut(old(Value())) && controls == attachments.Values
    {
      closed := true;
      controls := attachments.Values;
    }

    method FinishClose(error: Option<Error>) returns (result: Option<Error>)
      modifies this
      ensures Value() == Settle(old(Value()), error) && result == closeError
    {
      if error.Some? && closeError.None? {
        closeError := error;
      }
      result := closeError;
    }

    // Both halves of dropping a Completion.
    method Complete(id: nat, control: Control)
      modifies this, control
      ensures control.status == if old(control.status.state) == Session.Closed then old(control.status)
                                else Publish(old(control.status), Session.Closed, Some(TaskFailed))
      ensures control.cancelled == (old(control.cancelled) || old(control.status.state) != Session.Closed)
      ensures Value() == Strike(old(Value()), id, control.status.terminal)
    {
      if control.status.state != Session.Closed {
        control.cancelled := true;
        control.MarkClosed(Some(TaskFailed));
      }
      if closed && closeError.None? {
        closeError := control.status.terminal;
      }
      attachments := attachments - {id};
    }
  }

  // `wait_closed`, given the statuses it gets to see before its time is over: the
  // first Closed among them decides, and without one it times out.
  method WaitClosed(seen: seq<Shown>) returns (result: Option<Error>)
    ensures (exists i :: 0 <= i < |seen| && FirstClosed(seen, i) && result == seen[i].terminal)
            || ((forall i :: 0 <= i < |seen| ==> seen[i].state != Session.Closed) && result == Some(ShutdownTimeout))
  {
    for k := 0 to |seen|
      invariant forall i :: 0 <= i < k ==> seen[i].state != Session.Closed
    {
      if seen[k].state == Session.Closed {
        assert FirstClosed(seen, k);
        return seen[k].terminal;
      }
    }
    return Some(ShutdownTimeout);
  }

  predicate FirstClosed(seen: seq<Shown>, i: nat)
    requires i < |seen|
  {
    seen[i].state == Session.Closed && forall j :: 0 <= j < i ==> seen[j].state != Session.Closed
  }

  // The cancel loop of close() and of dropping the client: every control of the
  // snapshot is cancelled, and nothing else about any of them changes.
  method CancelAll(controls: set<Control>)
    modifies controls`cancelled
    ensures forall c :: c in controls ==> c.cancelled
  {
    var left := controls;
    while left != {}
      invariant left <= controls
      invariant forall c :: c in controls && c !in left ==> c.cancelled
      decreases |left|
    {
      var c :| c in left;
      c.cancelled := true;
      left := left - {c};
    }
  }

  // ----- one attachment -----

  datatype Task =
    | SettingUp | Mirroring | Selecting
    | Leaving(failure: Option<Error>) | Reporting(failure: Option<Error>)
    | Marking(failure: Option<Error>) | Cleaning(failure: Option<Error>)
    | Completing | Unregistering | Done

  datatype Answer = NotSent | SentOk | SentErr

  datatype Caller = Starting | Holding | Gone

  datatype Attachment = Attachment(
    id: nat,
    cancelled: bool,
    shown: Shown,
    task: Task,
    answer: Answer,
    caller: Caller)

  function Fresh(id: nat): Attachment {
    Attachment(id, false, Shown(0, Session.Starting, None), SettingUp, NotSent, Starting)
  }

  datatype Step =
    | SetupFails(error: Error) | SetupCancelled | SetupDone(answerNow: bool)
    | Mirror(state: State, error: Error)
    | SelectCancelled | SelectFails(error: Error) | SelectDeadline | SelectChanged
    | CancelSelf | Report | MarkClosing | CleanupEnds(extra: Option<Error>)
    | Abort
    | Complete
    | StartReturns | StartErrs | CallerDrops | CallerCancels

  predicate Unfinished(t: Task) { !t.Completing? && !t.Unregistering? && !t.Done? }

  predicate Can(c: Attachment, s: Step) {
    match s
    case SetupFails(_) => c.task == SettingUp
    case SetupCancelled => c.task == SettingUp && c.cancelled
    case SetupDone(_) => c.task == SettingUp
    case Mirror(_, _) => c.task == Mirroring
    case SelectCancelled => c.task == Selecting && c.cancelled
    case SelectFails(_) => c.task == Selecting
    case SelectDeadline => c.task == Selecting && c.answer == NotSent
    case SelectChanged => c.task == Selecting
    case CancelSelf => c.task.Leaving?
    case Report => c.task.Reporting?
    case MarkClosing => c.task.Marking?
    case CleanupEnds(_) => c.task.Cleaning?
    case Abort => Unfinished(c.task)
    case Complete => c.task == Completing
    case StartReturns => c.caller == Starting && c.answer == SentOk
    case StartErrs => c.caller == Starting && c.answer == SentErr
    case CallerDrops => c.caller != Gone
    case CallerCancels => c.caller == Holding
  }

  function Next(c: Attachment, s: Step): Attachment
    requires Can(c, s)
  {
    match s
    case SetupFails(error) =>
      c.(shown := Publish(c.shown, Session.Closed, Some(error)), answer := SentErr, task := Completing)
    case SetupCancelled => c.(shown := Publish(c.shown, Session.Closed, None), answer := SentErr, task := Completing)
    case SetupDone(answerNow) =>
      c.(shown := Publish(c.shown, Session.Connecting, c.shown.terminal),
         answer := if answerNow then SentOk else c.answer,
         task := Mirroring)
    case Mirror(state, error) =>
      c.(shown := Publish(c.shown, state, c.shown.terminal),
         answer := if state == Session.Connected && c.answer == NotSent then SentOk else c.answer,
         task := if state == Session.Closed then Leaving(Some(error)) else Selecting)
    case SelectCancelled => c.(task := Leaving(None))
    case SelectFails(error) => c.(task := Leaving(Some(error)))
    case SelectDeadline => c.(task := Leaving(Some(StartupTimeout)))
    case SelectChanged => c.(task := Mirroring)
    case CancelSelf =>
      c.(cancelled := true, task := Reporting(c.task.failure))
    case Report =>
      var failure := c.task.failure;
      c.(shown := if failure.Some? then Publish(c.shown, Session.Failed, failure) else c.shown,
         task := Marking(failure))
    case MarkClosing => c.(shown := Closing(c.shown), task := Cleaning(c.task.failure))
    case CleanupEnds(extra) =>
      c.(shown := Publish(c.shown, Session.Closed, Keep(c.task.failure, extra)),
         answer := if c.answer == NotSent then SentErr else c.answer, task := Completing)
    case Abort => c.(task := Completing)
    case Complete =>
      if c.shown.state == Session.Closed then c.(task := Unregistering)
      else c.(cancelled := true, shown := Publish(c.shown, Session.Closed, Some(TaskFailed)), task := Unregistering)
    case StartReturns => c.(caller := Holding)
    case StartErrs => c.(caller := Gone)
    case CallerDrops => c.(cancelled := true, caller := Gone)
    case CallerCancels => c.(cancelled := true)
  }

  // ----- the client -----

  datatype Closer =
    | Cancelling(snapshot: set<nat>, left: set<nat>)
    | Awaiting(left: set<nat>, error: Option<Error>)
    | Returned(result: Option<Error>)
    | Abandoned                     // the close() future was dropped

  datatype Client = Client(
    book: Book<nat>,
    alive: bool,
    controls: map<nat, Attachment>,
    closers: map<nat, Closer>,
    issued: seq<nat>,               // the controls registered so far, in order
    results: seq<Option<Error>>)    // what close() calls returned, in order

  const Begin: Client := Client(Book(false, 0, map[], None), true, map[], map[], [], [])

  datatype Action =
    | Start(key: nat)
    | On(key: nat, step: Step)
    | Unregister(key: nat)
    | CloseCall(who: nat) | CancelOne(who: nat, key: nat) | LoopDone(who: nat)
    | SeeClosed(who: nat, key: nat) | GiveUp(who: nat, key: nat) | GiveUpAll(who: nat)
    | CloseReturns(who: nat) | CloseAbandoned(who: nat)
    | DropClient

  predicate ClientCan(w: Client, a: Action) {
    match a
    case Start(key) => w.alive && key !in w.controls
    case On(key, step) => key in w.controls && Can(w.controls[key], step)
    case Unregister(key) => key in w.controls && w.controls[key].task == Unregistering
    case CloseCall(who) => w.alive && who !in w.closers
    case CancelOne(who, key) =>
      who in w.closers && w.closers[who].Cancelling? && key in w.closers[who].left && key in w.controls
    case LoopDone(who) => who in w.closers && w.closers[who].Cancelling? && w.closers[who].left == {}
    case SeeClosed(who, key) =>
      && who in w.closers && w.closers[who].Awaiting? && key in w.closers[who].left
      && key in w.controls && w.controls[key].shown.state == Session.Closed
    case GiveUp(who, key) => who in w.closers && w.closers[who].Awaiting? && key in w.closers[who].left
    case GiveUpAll(who) => who in w.closers && w.closers[who].Awaiting?
    case CloseReturns(who) => who in w.closers && w.closers[who].Awaiting? && w.closers[who].left == {}
    case CloseAbandoned(who) => who in w.closers && w.closers[who].Awaiting?
    case DropClient =>
      && w.alive
      && (forall who :: who in w.closers ==> w.closers[who].Returned? || w.closers[who].Abandoned?)
      && (forall key :: key in w.controls ==> w.controls[key].caller != Starting)
  }

  function ClientNext(w: Client, a: Action): Client
    requires ClientCan(w, a)
  {
    match a
    case Start(key) =>
      if w.book.closed then w
      else w.(book := Enrol(w.book, key),
              controls := w.controls[key := Fresh(w.book.next + 1)],
              issued := w.issued + [key])
    case On(key, step) => w.(controls := w.controls[key := Next(w.controls[key], step)])
    case Unregister(key) =>
      var c := w.controls[key];
      w.(book := if w.alive then Strike(w.book, c.id, c.shown.terminal) else w.book,
         controls := w.controls[key := c.(task := Done)])
    case CloseCall(who) =>
      var snapshot := w.book.attachments.Values;
      w.(book := Shut(w.book), closers := w.closers[who := Cancelling(snapshot, snapshot)])
    case CancelOne(who, key) =>
      w.(controls := w.controls[key := w.controls[key].(cancelled := true)],
         closers := w.closers[who := Cancelling(w.closers[who].snapshot, w.closers[who].left - {key})])
    case LoopDone(who) => w.(closers := w.closers[who := Awaiting(w.closers[who].snapshot, None)])
    case SeeClosed(who, key) =>
      var error := Keep(w.closers[who].error, w.controls[key].shown.terminal);
      w.(closers := w.closers[who := Awaiting(w.closers[who].left - {key}, error)])
    case GiveUp(who, key) =>
      var error := Keep(w.closers[who].error, Some(ShutdownTimeout));
      w.(closers := w.closers[who := Awaiting(w.closers[who].left - {key}, error)])
    case GiveUpAll(who) =>
      w.(closers := w.closers[who := Awaiting({}, Keep(w.closers[who].error, Some(ShutdownTimeout)))])
    case CloseReturns(who) =>
      var book := Settle(w.book, w.closers[who].error);
      w.(book := book, closers := w.closers[who := Returned(book.closeError)], results := w.results + [book.closeError])
    case CloseAbandoned(who) => w.(closers := w.closers[who := Abandoned])
    case DropClient =>
      w.(alive := false,
         controls := map key | key in w.controls ::
           if key in w.book.attachments.Values then w.controls[key].(cancelled := true) else w.controls[key])
  }

  predicate Runs(actions: seq<Action>)
    decreases |actions|, 0
  {
    actions == [] || (Runs(actions[..|actions|-1]) && ClientCan(After(actions[..|actions|-1]), actions[|actions|-1]))
  }

  function After(actions: seq<Action>): Client
    requires Runs(actions)
    decreases |actions|, 1
  {
    if actions == [] then Begin else ClientNext(After(actions[..|actions|-1]), actions[|actions|-1])
  }
}
