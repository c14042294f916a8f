// The peer session: a supervising driver, generation-scoped leases, close
// callers and status observers, interleaved over watch channels
// (crates/locho-core/src/session.rs, crates/locho-web/src/lib.rs).

module Session {
  import opened Bytes
  import opened Schedule

  const INITIAL_BACKOFF: nat := 250
  const MAX_BACKOFF: nat := 30000

  // ----- published status -----

  datatype State = Starting | Connecting | Connected | Reconnecting | Failed | Closing | Closed

  datatype Path = Unknown | Direct | Relay | Mixed

  datatype Stage = ConnectStage | ShutdownStage

  datatype Error = Timeout(stage: Stage) | Transport(stage: Stage) | DriverStopped

  // A snapshot of a connection's paths; `addresses` stands for their text.
  datatype Paths = Paths(direct: bool, relay: bool, addresses: string)

  datatype Description = NoPath | Described(direct: bool, relay: bool, addresses: string)

  function Describe(p: Paths): Description {
    if p.direct || p.relay then Described(p.direct, p.relay, p.addresses) else NoPath
  }

  function KindOf(d: Description): Path {
    match d
    case NoPath => Unknown
    case Described(direct, relay, _) =>
      if direct && relay then Mixed else if direct then Direct else if relay then Relay else Unknown
  }

  datatype Status = Status(
    revision: nat,
    state: State,
    path: Path,
    description: Description,
    lastError: Option<Error>,
    terminalError: Option<Error>)

  const Initial: Status := Status(0, Starting, Unknown, NoPath, None, None)

  function Updated(s: Status, state: State, error: Option<Error>): Status {
    var connected := state == Connected;
    Status(s.revision + 1, state,
           if connected then s.path else Unknown,
           if connected then s.description else NoPath,
           if error.Some? || connected then error else s.lastError,
           s.terminalError)
  }

  // Publishes only a path text that changed.
  function Repathed(s: Status, p: Paths): Status {
    if Describe(p) == s.description then s
    else s.(revision := s.revision + 1, path := KindOf(Describe(p)), description := Describe(p))
  }

  // ----- the two watch channels, updated in place -----

  // A lease of generation `g` clears the slot only if its own connection is there.
  function Invalidated(slot: Option<nat>, g: nat): Option<nat> {
    if slot == Some(g) then None else slot
  }

  class Channels {
    var status: Status
    var statusVersion: nat
    var slot: Option<nat>
    var slotVersion: nat

    // These are the channels of the world `w`.
    ghost predicate Shows(w: World) reads this {
      w.pub == Pub(status, statusVersion) && w.link.slot == slot && w.link.version == slotVersion
    }

    constructor ()
      ensures status == Initial && statusVersion == 0 && slot == None && slotVersion == 0
      ensures Shows(Start)
    {
      status, statusVersion, slot, slotVersion := Initial, 0, None, 0;
    }

    method Update(state: State, error: Option<Error>)
      modifies this`status, this`statusVersion
      ensures status == Updated(old(status), state, error) && statusVersion == old(statusVersion) + 1
      ensures forall w :: old(Shows(w)) ==> Shows(Publishing(w, Updated(w.pub.status, state, error)))
    {
      status := status.(revision := status.revision + 1, state := state);
      if error.Some? || state == Connected {
        status := status.(lastError := error);
      }
      if state != Connected {
        status := status.(path := Unknown, description := NoPath);
      }
      statusVersion := statusVersion + 1;
    }

    method SetPath(paths: Paths)
      modifies this`status, this`statusVersion
      ensures status == Repathed(old(status), paths)
      ensures statusVersion == old(statusVersion) + if status == old(status) then 0 else 1
      ensures forall w :: old(Shows(w)) ==> Shows(PublishingPaths(w, paths))
    {
      var description := Describe(paths);
      if description == status.description {
        return;
      }
      status := status.(
        revision := status.revision + 1,
        path := match (paths.direct, paths.relay) {
          case (true, true) => Mixed
          case (true, false) => Direct
          case (false, true) => Relay
          case (false, false) => Unknown
        },
        description := description);
      statusVersion := statusVersion + 1;
    }

    method Invalidate(generation: nat)
      modifies this`slot, this`slotVersion
      ensures slot == Invalidated(old(slot), generation)
      ensures slotVersion == old(slotVersion) + if slot == old(slot) then 0 else 1
      ensures forall w ::
                old(Shows(w)) && PeerCan(w, PeerStep.Invalidate(generation)) ==>
                Shows(PeerNext(w, PeerStep.Invalidate(generation)))
    {
      if slot.Some? && slot.value == generation {
        slot := None;
        slotVersion := slotVersion + 1;
      }
    }

    method Replace(to: Option<nat>)
      modifies this`slot, this`slotVersion
      ensures slot == to && slotVersion == old(slotVersion) + 1
      ensures forall w :: old(Shows(w)) ==> Shows(Replacing(w, to))
    {
      slot := to;
      slotVersion := slotVersion + 1;
    }
  }

  // ----- the world -----

  // Where the driver stands: before each effect, and at each wait.
  datatype Pc =
    | Top | MarkTerminal | CancelAfterFailure
    | Attempt | ReportFailure(timedOut: bool) | Retry
    | PublishConnected | ReadPaths | PublishSlot | MarkSeen
    | Check | Wait | Woken | Repath
    | Leave | ReportLoss
    | Stopping | ClearSlot | Cleanup
    | DropSlot | DropStatus
    | Finished

  datatype Closer = Asked | Waiting(seen: nat) | Returned(result: Option<Error>)

  datatype Observer = Observer(first: bool, finished: bool, seen: nat, reported: seq<Status>)

  // The status channel.
  datatype Pub = Pub(status: Status, version: nat)

  // The connection channel and what happened to each generation.
  datatype Link = Link(
    slot: Option<nat>,        // generation of the published connection
    version: nat,
    seen: nat,                // by the driver
    generation: nat,
    leases: set<nat>,         // generations of the leases handed out
    cleared: set<nat>,        // generations whose own lease cleared the slot
    lost: set<nat>,           // generations whose connection closed
    ended: set<nat>)          // generations whose path stream ended

  datatype Retrying = Retrying(
    recovering: bool,
    backoff: nat,
    waits: seq<nat>)          // every retry delay so far

  datatype World = World(
    pub: Pub,
    link: Link,
    retry: Retrying,
    shutdown: bool,
    pc: Pc,
    closers: map<nat, Closer>,
    observers: map<nat, Observer>)

  const Start: World := World(
    Pub(Initial, 0),
    Link(None, 0, 0, 0, {}, {}, {}, {}),
    Retrying(false, INITIAL_BACKOFF, []),
    false, Top, map[], map[])

  datatype Action =
    | Driver(step: DriverStep)
    | Drop(drop: DropStep)
    | Peer(peer: PeerStep)
    | Watch(watch: WatchStep)

  datatype DriverStep =
    | Loop(endpointClosed: bool) | SetTerminal | CancelSelf
    | ConnectDone | ConnectFailed(timedOut: bool) | StopAttempt
    | PublishFailure | RetryElapsed | StopRetry
    | ToConnected | FirstPaths(paths: Paths) | Publish | BorrowAndUpdate
    | CheckSlot | SelectShutdown | SelectClosed | SelectStable | SelectChanged | SelectPath(some: bool)
    | CheckWoken | NextPaths(paths: Paths)
    | Unpublish | PublishLoss
    | ToClosing | ClearForClose | EndpointClosed(timedOut: bool)

  // The driver is dropped before it completed.
  datatype DropStep = DropCancel | DropClear | DropPublish

  // Other tasks and the network.
  datatype PeerStep =
    | Acquire | Invalidate(generation: nat) | RequestShutdown
    | ConnectionCloses | PathStreamEnds

  // Status subscribers.
  datatype WatchStep =
    | CloseCall(id: nat) | CloseSubscribe(id: nat) | CloseChanged(id: nat)
    | Observe(id: nat) | ObserveFirst(id: nat) | ObserveChanged(id: nat)

  function Publishing(w: World, s: Status): World {
    w.(pub := Pub(s, w.pub.version + 1))
  }

  // `send_if_modified`: nothing is sent for an unchanged text.
  function PublishingPaths(w: World, p: Paths): World {
    var s := Repathed(w.pub.status, p);
    if s == w.pub.status then w else Publishing(w, s)
  }

  function Replacing(w: World, slot: Option<nat>): World {
    w.(link := w.link.(slot := slot, version := w.link.version + 1))
  }

  // Both states a failing attempt or a lost connection reports.
  function Trying(w: World): State { if w.retry.recovering then Reconnecting else Connecting }

  function RetryDelay(w: World): nat { if w.retry.recovering then INITIAL_BACKOFF else w.retry.backoff }

  predicate DriverCan(w: World, d: DriverStep) {
    match d
    case Loop(_) => w.pc == Top
    case SetTerminal => w.pc == MarkTerminal
    case CancelSelf => w.pc == CancelAfterFailure
    case ConnectDone => w.pc == Attempt
    case ConnectFailed(_) => w.pc == Attempt
    case StopAttempt => w.pc == Attempt && w.shutdown
    case PublishFailure => w.pc.ReportFailure?
    case RetryElapsed => w.pc == Retry
    case StopRetry => w.pc == Retry && w.shutdown
    case ToConnected => w.pc == PublishConnected
    case FirstPaths(_) => w.pc == ReadPaths
    case Publish => w.pc == PublishSlot
    case BorrowAndUpdate => w.pc == MarkSeen
    case CheckSlot => w.pc == Check
    case SelectShutdown => w.pc == Wait && w.shutdown
    case SelectClosed => w.pc == Wait && w.link.generation in w.link.lost
    case SelectStable => w.pc == Wait
    case SelectChanged => w.pc == Wait && w.link.seen != w.link.version
    case SelectPath(some) => w.pc == Wait && (!some ==> w.link.generation in w.link.ended)
    case CheckWoken => w.pc == Woken
    case NextPaths(_) => w.pc == Repath
    case Unpublish => w.pc == Leave
    case PublishLoss => w.pc == ReportLoss
    case ToClosing => w.pc == Stopping
    case ClearForClose => w.pc == ClearSlot
    case EndpointClosed(_) => w.pc == Cleanup
  }

  function DriverNext(w: World, d: DriverStep): World
    requires DriverCan(w, d)
  {
    match d
    case Loop(endpointClosed) =>
      if endpointClosed && !w.shutdown then
        Publishing(w, Updated(w.pub.status, Failed, Some(DriverStopped))).(pc := MarkTerminal)
      else Publishing(w, Updated(w.pub.status, Trying(w), None)).(pc := Attempt)
    case SetTerminal =>
      Publishing(w, w.pub.status.(revision := w.pub.status.revision + 1, terminalError := Some(DriverStopped)))
        .(pc := CancelAfterFailure)
    case CancelSelf => w.(shutdown := true, pc := Stopping)
    case ConnectDone => w.(link := w.link.(generation := w.link.generation + 1), pc := PublishConnected)
    case ConnectFailed(timedOut) => w.(pc := ReportFailure(timedOut))
    case StopAttempt => w.(pc := Stopping)
    case PublishFailure =>
      var error := if w.pc.timedOut then Timeout(ConnectStage) else Transport(ConnectStage);
      Publishing(w, Updated(w.pub.status, Trying(w), Some(error)))
        .(retry := w.retry.(waits := w.retry.waits + [RetryDelay(w)]), pc := Retry)
    case RetryElapsed =>
      var backoff := if w.retry.recovering then w.retry.backoff else Doubled(w.retry.backoff, MAX_BACKOFF);
      w.(retry := w.retry.(backoff := backoff), pc := Top)
    case StopRetry => w.(pc := Stopping)
    case ToConnected => Publishing(w, Updated(w.pub.status, Connected, None)).(pc := ReadPaths)
    case FirstPaths(p) => PublishingPaths(w, p).(pc := PublishSlot)
    case Publish => Replacing(w, Some(w.link.generation)).(pc := MarkSeen)
    case BorrowAndUpdate => w.(link := w.link.(seen := w.link.version), pc := Check)
    case CheckSlot => w.(pc := if w.link.slot.None? then Leave else Wait)
    case SelectShutdown => w.(pc := Stopping)
    case SelectClosed => w.(pc := Leave)
    case SelectStable => w.(retry := w.retry.(backoff := INITIAL_BACKOFF), pc := Check)
    case SelectChanged => w.(link := w.link.(seen := w.link.version), pc := Woken)
    case SelectPath(some) => w.(pc := if some then Repath else Leave)
    case CheckWoken => w.(pc := if w.link.slot.None? then Leave else Check)
    case NextPaths(p) => PublishingPaths(w, p).(pc := Check)
    case Unpublish => Replacing(w, None).(retry := w.retry.(recovering := true), pc := ReportLoss)
    case PublishLoss =>
      Publishing(w, Updated(w.pub.status, Reconnecting, Some(Transport(ConnectStage))))
        .(retry := w.retry.(waits := w.retry.waits + [RetryDelay(w)]), pc := Retry)
    case ToClosing => Publishing(w, Updated(w.pub.status, Closing, None)).(pc := ClearSlot)
    case ClearForClose => Replacing(w, None).(pc := Cleanup)
    case EndpointClosed(timedOut) =>
      Publishing(w, w.pub.status.(
        revision := w.pub.status.revision + 1,
        state := Closed,
        terminalError := if timedOut then Some(Timeout(ShutdownStage)) else w.pub.status.terminalError))
        .(pc := Finished)
  }

  predicate DropCan(w: World, d: DropStep) {
    match d
    case DropCancel => w.pc != DropSlot && w.pc != DropStatus && w.pc != Finished
    case DropClear => w.pc == DropSlot
    case DropPublish => w.pc == DropStatus
  }

  function DropNext(w: World, d: DropStep): World
    requires DropCan(w, d)
  {
    match d
    case DropCancel => w.(shutdown := true, pc := DropSlot)
    case DropClear => Replacing(w, None).(pc := DropStatus)
    case DropPublish =>
      var stopped := Some(DriverStopped);
      Publishing(w, Status(w.pub.status.revision + 1, Closed, Unknown, NoPath, stopped, stopped))
        .(pc := Finished)
  }

  predicate PeerCan(w: World, p: PeerStep) {
    match p
    case Acquire => w.link.slot.Some?
    case Invalidate(g) => g in w.link.leases
    case RequestShutdown => true
    case ConnectionCloses => true
    case PathStreamEnds => true
  }

  function PeerNext(w: World, p: PeerStep): World
    requires PeerCan(w, p)
  {
    match p
    case Acquire => w.(link := w.link.(leases := w.link.leases + {w.link.slot.value}))
    case Invalidate(g) =>
      var slot := Invalidated(w.link.slot, g);
      if slot == w.link.slot then w
      else w.(link := w.link.(slot := slot, version := w.link.version + 1, cleared := w.link.cleared + {g}))
    case RequestShutdown => w.(shutdown := true)
    case ConnectionCloses => w.(link := w.link.(lost := w.link.lost + {w.link.generation}))
    case PathStreamEnds => w.(link := w.link.(ended := w.link.ended + {w.link.generation}))
  }

  predicate WatchCan(w: World, a: WatchStep) {
    match a
    case CloseCall(id) => id !in w.closers
    case CloseSubscribe(id) => id in w.closers && w.closers[id] == Asked
    case CloseChanged(id) => id in w.closers && w.closers[id].Waiting? && w.closers[id].seen != w.pub.version
    case Observe(id) => id !in w.observers
    case ObserveFirst(id) => id in w.observers && w.observers[id].first
    case ObserveChanged(id) =>
      id in w.observers && !w.observers[id].first && !w.observers[id].finished && w.observers[id].seen != w.pub.version
  }

  // What a closer does with the snapshot it looks at.
  function Looked(w: World): Closer {
    if w.pub.status.state == Closed then Returned(w.pub.status.terminalError) else Waiting(w.pub.version)
  }

  function Reported(pub: Pub, o: Observer): Observer {
    Observer(false, pub.status.state == Closed, pub.version, o.reported + [pub.status])
  }

  // A status observer's own fields, updated in place.
  class StatusObserver {
    var first: bool
    var finished: bool
    var seen: nat
    ghost var reported: seq<Status>

    ghost function View(): Observer reads this { Observer(first, finished, seen, reported) }

    constructor ()
      ensures View() == Observer(true, false, 0, [])
    {
      first, finished, seen, reported := true, false, 0, [];
    }

    // One call. It may be cancelled before it, or while it waits; `gone` is whether
    // no sender of the channel is left. It reports the channel's status when that
    // is its first or a new one, nothing after Closed or when cancelled, an error
    // when no status can come any more, and else it waits. Only a report changes it.
    method Next(channels: Channels, cancelled: bool, cancelledLater: bool, gone: bool) returns (r: Observed)
      modifies this
      ensures var pub := Pub(channels.status, channels.statusVersion); var due := old(View());
              var news := due.first || (!due.finished && due.seen != pub.version);
              && (cancelled ==> r == NoReport)
              && (!cancelled && news ==> r == Reports(pub.status))
              && (!cancelled && !news && due.finished ==> r == NoReport)
              && (!cancelled && !news && !due.finished ==>
                    r == if cancelledLater then NoReport
                         else if !gone then Waits
                         else if pub.status.state == Closed then Reports(pub.status) else DriverGone)
              && View() == if r.Reports? then Reported(pub, due) else due
    {
      if cancelled {
        return NoReport;
      }
      if !first {
        if finished {
          return NoReport;
        }
        if seen == channels.statusVersion {
          if cancelledLater {
            return NoReport;
          }
          if !gone {
            return Waits;
          }
          if channels.status.state != Closed {
            return DriverGone;
          }
        }
      }
      first := false;
      seen := channels.statusVersion;
      finished := channels.status.state == Closed;
      reported := reported + [channels.status];
      return Reports(channels.status);
    }
  }

  datatype Observed = Reports(status: Status) | NoReport | DriverGone | Waits

  function WatchNext(w: World, a: WatchStep): World
    requires WatchCan(w, a)
  {
    match a
    case CloseCall(id) => w.(shutdown := true, closers := w.closers[id := Asked])
    case CloseSubscribe(id) => w.(closers := w.closers[id := Looked(w)])
    case CloseChanged(id) => w.(closers := w.closers[id := Looked(w)])
    case Observe(id) => w.(observers := w.observers[id := Observer(true, false, 0, [])])
    case ObserveFirst(id) => w.(observers := w.observers[id := Reported(w.pub, w.observers[id])])
    case ObserveChanged(id) => w.(observers := w.observers[id := Reported(w.pub, w.observers[id])])
  }

  predicate Can(w: World, a: Action) {
    match a
    case Driver(d) => DriverCan(w, d)
    case Drop(d) => DropCan(w, d)
    case Peer(p) => PeerCan(w, p)
    case Watch(o) => WatchCan(w, o)
  }

  function Next(w: World, a: Action): World
    requires Can(w, a)
  {
    match a
    case Driver(d) => DriverNext(w, d)
    case Drop(d) => DropNext(w, d)
    case Peer(p) => PeerNext(w, p)
    case Watch(o) => WatchNext(w, o)
  }

  // ----- runs -----

  predicate Runs(w: World, actions: seq<Action>)
    decreases |actions|, 0
  {
    actions == [] || (Runs(w, actions[..|actions|-1]) && Can(After(w, actions[..|actions|-1]), actions[|actions|-1]))
  }

  function After(w: World, actions: seq<Action>): World
    requires Runs(w, actions)
    decreases |actions|, 1
  {
    if actions == [] then w else Next(After(w, actions[..|actions|-1]), actions[|actions|-1])
  }
}
