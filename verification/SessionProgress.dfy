// What the driver does next, whatever the other tasks do in between, and what the
// status then says of the run so far.

module SessionProgress {
  import opened Bytes
  import opened Schedule
  import opened Session
  import opened SessionSafety

  // ----- one driver step among others' -----

  // Steps of other tasks and of the network.
  predicate Quiet(actions: seq<Action>) {
    forall i :: 0 <= i < |actions| ==> actions[i].Peer? || actions[i].Watch?
  }

  // The driver's next step, and what others did before it.
  datatype Move = Move(quiet: seq<Action>, step: DriverStep)

  predicate CanMove(w: World, m: Move) {
    Quiet(m.quiet) && Runs(w, m.quiet) && DriverCan(After(w, m.quiet), m.step)
  }

  function Moved(w: World, m: Move): World
    requires CanMove(w, m)
  {
    DriverNext(After(w, m.quiet), m.step)
  }

  // Others leave alone what the driver acts on; only a lease may clear the slot.
  predicate Undisturbed(w: World, v: World) {
    && v.pc == w.pc && v.pub == w.pub && v.retry == w.retry && (w.shutdown ==> v.shutdown)
    && v.link.generation == w.link.generation
    && (v.link.slot == w.link.slot || v.link.slot == None)
  }

  lemma {:induction false} QuietFrame(w: World, quiet: seq<Action>)
    requires Quiet(quiet) && Runs(w, quiet)
    ensures Undisturbed(w, After(w, quiet))
    decreases |quiet|
  {
    hide PeerCan, PeerNext, WatchCan, WatchNext, DriverCan, DriverNext;
    if quiet != [] {
      var before, a := quiet[..|quiet|-1], quiet[|quiet|-1];
      QuietFrame(w, before);
      if a.Peer? {
        PeerFrame(After(w, before), a.peer);
      } else {
        WatchFrame(After(w, before), a.watch);
      }
    }
  }

  // ----- losing a connection -----

  // The branches that give the connection up: it closed, its path stream ended, or
  // the slot is found empty.
  predicate GivesUp(w: World, d: DriverStep) {
    d == SelectClosed || d == SelectPath(false) || ((d == CheckWoken || d == CheckSlot) && w.link.slot.None?)
  }

  lemma GivenUp(w: World, d: DriverStep)
    requires DriverCan(w, d) && GivesUp(w, d)
    ensures DriverNext(w, d).pc == Leave && Undisturbed(w, DriverNext(w, d).(pc := w.pc)) && InnerLoop(w.pc)
  {
    hide Updated, Repathed;
  }

  lemma FromLeave(w: World, m: Move)
    requires w.pc == Leave && CanMove(w, m)
    ensures m.step == Unpublish
    ensures var v := Moved(w, m);
            && v.pc == ReportLoss && v.link.slot == None && v.link.generation == w.link.generation
            && v.pub == w.pub && v.retry == w.retry.(recovering := true)
  {
    QuietFrame(w, m.quiet);
    hide Runs, After, Updated, Repathed;
  }

  lemma FromReportLoss(w: World, m: Move)
    requires w.pc == ReportLoss && w.link.slot.None? && CanMove(w, m)
    ensures m.step == PublishLoss
    ensures var v := Moved(w, m);
            && v.pc == Retry && v.link.slot == None && v.link.generation == w.link.generation
            && v.pub.status.state == Reconnecting && v.pub.status.lastError == Some(Transport(ConnectStage))
            && v.pub.status.path == Unknown && v.pub.status.revision == w.pub.status.revision + 1
            && v.retry == w.retry.(waits := w.retry.waits + [RetryDelay(w)])
  {
    QuietFrame(w, m.quiet);
    hide Runs, After;
  }

  // Once the driver takes such a branch, its next step clears the slot and the one
  // after reports the loss, whatever others do in between; both are possible. Then
  // the slot is empty, the state Reconnecting, and one wait of 250 ms was added.
  lemma LossIsReported(actions: seq<Action>, d: DriverStep, first: Move, second: Move)
    requires Runs(Start, actions) && DriverCan(After(Start, actions), d) && GivesUp(After(Start, actions), d)
    requires var w := DriverNext(After(Start, actions), d); CanMove(w, first) && CanMove(Moved(w, first), second)
    ensures first.step == Unpublish && second.step == PublishLoss
    ensures var w := After(Start, actions); var v := Moved(Moved(DriverNext(w, d), first), second);
            && v.link.slot == None && v.link.generation == w.link.generation
            && v.pub.status.state == Reconnecting && v.pub.status.lastError == Some(Transport(ConnectStage))
            && v.retry.waits == w.retry.waits + [250] && v.pc == Retry
  {
    var w := After(Start, actions);
    hide Runs, After, CanMove, Moved;
    GivenUp(w, d);
    FromLeave(DriverNext(w, d), first);
    FromReportLoss(Moved(DriverNext(w, d), first), second);
  }

  // The two steps are possible at once, in every state that follows.
  lemma LossCanBeReported(w: World, quiet: seq<Action>)
    requires Quiet(quiet) && Runs(w, quiet)
    ensures w.pc == Leave ==> DriverCan(After(w, quiet), Unpublish)
    ensures w.pc == ReportLoss ==> DriverCan(After(w, quiet), PublishLoss)
  {
    QuietFrame(w, quiet);
    hide Runs, After;
  }

  // Generation g was given up: it is not published and no step publishes it again.
  predicate Past(w: World, g: nat) {
    w.link.generation > g
    || (w.link.generation == g && w.link.slot.None? && !InnerLoop(w.pc)
        && w.pc != PublishConnected && w.pc != ReadPaths && w.pc != PublishSlot)
  }

  lemma PastDriverStep(w: World, d: DriverStep, g: nat)
    requires Past(w, g) && DriverCan(w, d)
    ensures Past(DriverNext(w, d), g)
  {
    hide Updated, Repathed;
  }

  lemma PastDropStep(w: World, d: DropStep, g: nat)
    requires Past(w, g) && DropCan(w, d)
    ensures Past(DropNext(w, d), g)
  {
  }

  lemma PastStep(w: World, a: Action, g: nat)
    requires Past(w, g) && Can(w, a)
    ensures Past(Next(w, a), g)
  {
    hide DriverCan, DriverNext, DropCan, DropNext, PeerCan, PeerNext, WatchCan, WatchNext;
    match a {
      case Driver(d) => PastDriverStep(w, d, g);
      case Drop(d) => PastDropStep(w, d, g);
      case Peer(p) => PeerFrame(w, p);
      case Watch(o) => WatchFrame(w, o);
    }
  }

  lemma {:induction false} PastLasts(actions: seq<Action>, n: nat, g: nat)
    requires Runs(Start, actions) && n <= |actions| && Runs(Start, actions[..n]) && Past(After(Start, actions[..n]), g)
    ensures Past(After(Start, actions), g)
    decreases |actions|
  {
    hide Can, Next, Past;
    if n == |actions| {
      assert actions[..n] == actions;
    } else {
      var before := actions[..|actions|-1];
      assert before[..n] == actions[..n];
      PastLasts(before, n, g);
      PastStep(After(Start, before), actions[|actions|-1], g);
    }
  }

  // A connection that was unpublished, by the n-th step, is never published again.
  lemma NeverAgain(actions: seq<Action>, n: nat)
    requires Runs(Start, actions) && n < |actions| && actions[n] == Driver(Unpublish) && Runs(Start, actions[..n + 1])
    ensures Runs(Start, actions[..n])
    ensures var g := After(Start, actions[..n]).link.generation;
            After(Start, actions).link.slot != Some(g) && Past(After(Start, actions), g)
  {
    hide Can, Next, Past, SlotInv, StatusInv, ClosersInv, ObserversInv, RetryInv;
    var upTo := actions[..n + 1];
    assert upTo[..|upTo|-1] == actions[..n] && upTo[|upTo|-1] == actions[n];
    var w := After(Start, actions[..n]);
    Unpublished(w);
    PastLasts(actions, n + 1, w.link.generation);
    RunSafe(actions);
    PastIsNotThere(After(Start, actions), w.link.generation);
  }

  lemma Unpublished(w: World)
    requires Can(w, Driver(Unpublish))
    ensures Past(Next(w, Driver(Unpublish)), w.link.generation)
  {
  }

  lemma PastIsNotThere(w: World, g: nat)
    requires SlotInv(w) && Past(w, g)
    ensures w.link.slot != Some(g)
  {
  }

  // ----- connecting -----

  // A connection that was made is published: the next steps announce Connected
  // without an error, read its paths and put it into the slot under a new generation.
  lemma ConnectionIsPublished(w: World, first: Move, second: Move, third: Move)
    requires DriverCan(w, ConnectDone)
    requires var a := DriverNext(w, ConnectDone);
             && CanMove(a, first) && CanMove(Moved(a, first), second) && CanMove(Moved(Moved(a, first), second), third)
    ensures first.step == ToConnected && second.step.FirstPaths? && third.step == Publish
    ensures var a := DriverNext(w, ConnectDone); var v := Moved(Moved(Moved(a, first), second), third);
            && v.link.generation == w.link.generation + 1 && v.link.slot == Some(w.link.generation + 1)
            && v.pub.status.state == Connected && v.pub.status.lastError == None && v.pc == MarkSeen
  {
    hide Runs, After, CanMove, Moved;
    var a := DriverNext(w, ConnectDone);
    FromConnected(a, first);
    FromReadPaths(Moved(a, first), second);
    FromPublishSlot(Moved(Moved(a, first), second), third);
  }

  lemma FromConnected(w: World, m: Move)
    requires w.pc == PublishConnected && CanMove(w, m)
    ensures m.step == ToConnected
    ensures var v := Moved(w, m);
            v.pc == ReadPaths && v.link.generation == w.link.generation
            && v.pub.status.state == Connected && v.pub.status.lastError == None
  {
    QuietFrame(w, m.quiet);
    hide Runs, After;
  }

  lemma FromReadPaths(w: World, m: Move)
    requires w.pc == ReadPaths && CanMove(w, m)
    ensures m.step.FirstPaths?
    ensures var v := Moved(w, m);
            v.pc == PublishSlot && v.link.generation == w.link.generation
            && v.pub.status.state == w.pub.status.state && v.pub.status.lastError == w.pub.status.lastError
  {
    QuietFrame(w, m.quiet);
    hide Runs, After;
  }

  lemma FromPublishSlot(w: World, m: Move)
    requires w.pc == PublishSlot && CanMove(w, m)
    ensures m.step == Publish
    ensures var v := Moved(w, m);
            && v.pc == MarkSeen && v.link.generation == w.link.generation && v.link.slot == Some(w.link.generation)
            && v.pub == w.pub
  {
    QuietFrame(w, m.quiet);
    hide Runs, After;
  }

  // A failed attempt reports its error, waits, and is tried again, as the first
  // connection or as recovery, unless shutdown ends the wait.
  lemma FailureIsRetried(w: World, timedOut: bool, first: Move, second: Move)
    requires DriverCan(w, ConnectFailed(timedOut))
    requires var a := DriverNext(w, ConnectFailed(timedOut)); CanMove(a, first) && CanMove(Moved(a, first), second)
    ensures first.step == PublishFailure
    ensures var a := DriverNext(w, ConnectFailed(timedOut)); var v := Moved(a, first);
            && v.pub.status.state == (if w.retry.recovering then Reconnecting else Connecting)
            && v.pub.status.lastError == Some(if timedOut then Timeout(ConnectStage) else Transport(ConnectStage))
            && v.retry.waits == w.retry.waits + [if w.retry.recovering then 250 else w.retry.backoff]
    ensures var a := DriverNext(w, ConnectFailed(timedOut)); var v := Moved(Moved(a, first), second);
            (second.step == RetryElapsed && v.pc == Top) || (second.step == StopRetry && v.pc == Stopping && v.shutdown)
  {
    hide Runs, After, CanMove, Moved;
    var a := DriverNext(w, ConnectFailed(timedOut));
    FromReportFailure(a, first);
    FromRetry(Moved(a, first), second);
  }

  lemma FromReportFailure(w: World, m: Move)
    requires w.pc.ReportFailure? && CanMove(w, m)
    ensures m.step == PublishFailure
    ensures var v := Moved(w, m);
            && v.pc == Retry
            && v.pub.status.state == (if w.retry.recovering then Reconnecting else Connecting)
            && v.pub.status.lastError == Some(if w.pc.timedOut then Timeout(ConnectStage) else Transport(ConnectStage))
            && v.retry.waits == w.retry.waits + [if w.retry.recovering then 250 else w.retry.backoff]
  {
    QuietFrame(w, m.quiet);
    hide Runs, After;
  }

  lemma FromRetry(w: World, m: Move)
    requires w.pc == Retry && CanMove(w, m)
    ensures (m.step == RetryElapsed && Moved(w, m).pc == Top)
            || (m.step == StopRetry && Moved(w, m).pc == Stopping && Moved(w, m).shutdown)
  {
    QuietFrame(w, m.quiet);
    hide Runs, After;
  }

  // From the top: another attempt, announced as such, or the end of a driver whose
  // endpoint is closed, announced as Failed.
  lemma TopTriesAgain(w: World, m: Move)
    requires w.pc == Top && CanMove(w, m)
    ensures m.step.Loop?
    ensures var v := Moved(w, m); var asked := After(w, m.quiet).shutdown;
            if m.step.endpointClosed && !asked
            then v.pc == MarkTerminal && v.pub.status.state == Failed && v.pub.status.lastError == Some(DriverStopped)
            else v.pc == Attempt && v.pub.status.state == (if w.retry.recovering then Reconnecting else Connecting)
  {
    QuietFrame(w, m.quiet);
    hide Runs, After;
  }

  // ----- stopping -----

  // The branches that stop the driver.
  predicate Stops(d: DriverStep) {
    d == StopAttempt || d == StopRetry || d == SelectShutdown || d == CancelSelf
  }

  lemma FromStopping(w: World, m: Move)
    requires w.pc == Stopping && CanMove(w, m)
    ensures m.step == ToClosing
    ensures var v := Moved(w, m);
            && v.pc == ClearSlot && v.pub.status.state == Closing
            && v.pub.status.terminalError == w.pub.status.terminalError
  {
    QuietFrame(w, m.quiet);
    hide Runs, After;
  }

  lemma FromClearSlot(w: World, m: Move)
    requires w.pc == ClearSlot && CanMove(w, m)
    ensures m.step == ClearForClose
    ensures Moved(w, m).pc == Cleanup && Moved(w, m).link.slot == None && Moved(w, m).pub == w.pub
  {
    QuietFrame(w, m.quiet);
    hide Runs, After, Updated, Repathed;
  }

  lemma FromCleanup(w: World, m: Move)
    requires w.pc == Cleanup && w.link.slot.None? && CanMove(w, m)
    ensures m.step.EndpointClosed?
    ensures var v := Moved(w, m);
            && v.pc == Finished && v.pub.status.state == Closed && v.link.slot == None
            && v.pub.status.terminalError ==
               if m.step.timedOut then Some(Timeout(ShutdownStage)) else w.pub.status.terminalError
  {
    QuietFrame(w, m.quiet);
    hide Runs, After, Updated, Repathed;
  }

  // A driver that stops publishes Closing, clears the slot, closes its endpoint and
  // publishes Closed, with the timeout of that close if it timed out and else the
  // terminal error it had.
  lemma StopEndsClosed(w: World, d: DriverStep, first: Move, second: Move, third: Move)
    requires DriverCan(w, d) && Stops(d)
    requires var a := DriverNext(w, d);
             && CanMove(a, first) && CanMove(Moved(a, first), second) && CanMove(Moved(Moved(a, first), second), third)
    ensures first.step == ToClosing && second.step == ClearForClose && third.step.EndpointClosed?
    ensures var v := Moved(Moved(Moved(DriverNext(w, d), first), second), third);
            && v.pub.status.state == Closed && v.link.slot == None && v.pc == Finished
            && v.pub.status.terminalError ==
               if third.step.timedOut then Some(Timeout(ShutdownStage)) else w.pub.status.terminalError
  {
    hide Runs, After, CanMove, Moved;
    var a := DriverNext(w, d);
    FromStopping(a, first);
    FromClearSlot(Moved(a, first), second);
    FromCleanup(Moved(Moved(a, first), second), third);
  }

  // Whoever asks for shutdown is heard: the request lasts, and a driver that waits
  // anywhere can then stop.
  predicate Asks(a: Action) {
    a == Peer(RequestShutdown) || (a.Watch? && a.watch.CloseCall?) || a == Drop(DropCancel) || a == Driver(CancelSelf)
  }

  lemma ShutdownStep(w: World, a: Action)
    requires Can(w, a)
    ensures w.shutdown || Asks(a) <==> Next(w, a).shutdown
  {
    hide DriverCan, DriverNext, Looked, Reported;
    match a {
      case Driver(d) => DriverShutdown(w, d);
      case Drop(_) =>
      case Peer(_) =>
      case Watch(_) =>
    }
  }

  lemma DriverShutdown(w: World, d: DriverStep)
    requires DriverCan(w, d)
    ensures w.shutdown || d == CancelSelf <==> DriverNext(w, d).shutdown
  {
    hide Updated, Repathed;
  }

  lemma {:induction false} ShutdownIff(actions: seq<Action>)
    requires Runs(Start, actions)
    ensures After(Start, actions).shutdown <==> exists j :: 0 <= j < |actions| && Asks(actions[j])
    decreases |actions|
  {
    hide Can, Next, Asks;
    if actions != [] {
      var before := actions[..|actions|-1];
      ShutdownIff(before);
      ShutdownStep(After(Start, before), actions[|actions|-1]);
      assert forall j :: 0 <= j < |before| ==> before[j] == actions[j];
    }
  }

  // So is a connection that closed, whose path stream ended, or whose slot changed.
  lemma WaitsAreHeard(w: World)
    ensures w.shutdown && w.pc == Attempt ==> DriverCan(w, StopAttempt)
    ensures w.shutdown && w.pc == Retry ==> DriverCan(w, StopRetry)
    ensures w.shutdown && w.pc == Wait ==> DriverCan(w, SelectShutdown)
    ensures w.pc == Wait ==> DriverCan(PeerNext(w, ConnectionCloses), SelectClosed)
    ensures w.pc == Wait ==> DriverCan(PeerNext(w, PathStreamEnds), SelectPath(false))
    ensures w.pc == Wait && w.link.seen != w.link.version ==> DriverCan(w, SelectChanged)
  {
  }

  // ----- waiting -----

  lemma FromRepath(w: World, m: Move)
    requires w.pc == Repath && CanMove(w, m)
    ensures m.step.NextPaths? && Moved(w, m).pc == Check
  {
    QuietFrame(w, m.quiet);
    hide Runs, After, Updated, Repathed;
  }

  lemma FromWoken(w: World, m: Move)
    requires w.pc == Woken && CanMove(w, m)
    ensures m.step == CheckWoken && Moved(w, m).pc == if After(w, m.quiet).link.slot.None? then Leave else Check
  {
    QuietFrame(w, m.quiet);
    hide Runs, After, Updated, Repathed;
  }

  lemma FromCheck(w: World, m: Move)
    requires w.pc == Check && CanMove(w, m)
    ensures m.step == CheckSlot && Moved(w, m).pc == if After(w, m.quiet).link.slot.None? then Leave else Wait
  {
    QuietFrame(w, m.quiet);
    hide Runs, After, Updated, Repathed;
  }

  // A changed path is read and the slot checked again; so it is after a wake-up and
  // after the connection proved stable. While it is there the wait goes on.
  lemma WaitGoesOn(w: World, d: DriverStep, m: Move)
    requires d == SelectPath(true) || d == SelectChanged || d == SelectStable
    requires DriverCan(w, d) && CanMove(DriverNext(w, d), m)
    ensures d == SelectPath(true) ==> m.step.NextPaths? && Moved(DriverNext(w, d), m).pc == Check
    ensures d == SelectChanged ==>
              && m.step == CheckWoken
              && Moved(DriverNext(w, d), m).pc ==
                 if After(DriverNext(w, d), m.quiet).link.slot.None? then Leave else Check
    ensures d == SelectStable ==>
              && m.step == CheckSlot
              && Moved(DriverNext(w, d), m).pc ==
                 if After(DriverNext(w, d), m.quiet).link.slot.None? then Leave else Wait
  {
    hide Runs, After, CanMove, Moved;
    if d == SelectChanged {
      FromWoken(DriverNext(w, d), m);
    } else if d == SelectStable {
      FromCheck(DriverNext(w, d), m);
    } else {
      FromRepath(DriverNext(w, d), m);
    }
  }

  // ----- what the status says of the run -----

  // Whether the last attempt that failed had timed out.
  function LastTimedOut(actions: seq<Action>): bool {
    if actions == [] then false
    else
      var before, a := actions[..|actions|-1], actions[|actions|-1];
      if a.Driver? && a.step.ConnectFailed? then a.step.timedOut else LastTimedOut(before)
  }

  // The error of the last failed attempt, lost connection or stopped driver since
  // the last connection.
  function LastErrorOf(actions: seq<Action>): Option<Error>
    requires Runs(Start, actions)
    decreases |actions|
  {
    if actions == [] then None
    else
      var before := actions[..|actions|-1];
      match actions[|actions|-1]
      case Driver(ToConnected) => None
      case Driver(PublishFailure) =>
        Some(if LastTimedOut(before) then Timeout(ConnectStage) else Transport(ConnectStage))
      case Driver(PublishLoss) => Some(Transport(ConnectStage))
      case Driver(Loop(closed)) =>
        if closed && !After(Start, before).shutdown then Some(DriverStopped) else LastErrorOf(before)
      case Drop(DropPublish) => Some(DriverStopped)
      case _ => LastErrorOf(before)
  }

  // The paths last read of the present connection.
  function LastPathsOf(actions: seq<Action>): Option<Paths> {
    if actions == [] then None
    else
      var before := actions[..|actions|-1];
      match actions[|actions|-1]
      case Driver(FirstPaths(p)) => Some(p)
      case Driver(NextPaths(p)) => Some(p)
      case Driver(Loop(_)) => None
      case Driver(PublishFailure) => None
      case Driver(PublishLoss) => None
      case Driver(ToClosing) => None
      case Drop(DropPublish) => None
      case _ => LastPathsOf(before)
  }

  datatype History = History(timedOut: bool, error: Option<Error>, paths: Option<Paths>)

  predicate Tells(w: World, h: History) {
    && w.pub.status.lastError == h.error
    && (w.pc.ReportFailure? ==> w.pc.timedOut == h.timedOut)
    && w.pub.status.description == (if h.paths.None? then NoPath else Describe(h.paths.value))
  }

  // One driver step of the three histories.
  function Grown(h: History, d: DriverStep, shutdown: bool): History {
    History(
      if d.ConnectFailed? then d.timedOut else h.timedOut,
      if d == ToConnected then None
      else if d == PublishFailure then Some(if h.timedOut then Timeout(ConnectStage) else Transport(ConnectStage))
      else if d == PublishLoss then Some(Transport(ConnectStage))
      else if d == Loop(true) && !shutdown then Some(DriverStopped)
      else h.error,
      if d.FirstPaths? || d.NextPaths? then Some(d.paths)
      else if d.Loop? || d == PublishFailure || d == PublishLoss || d == ToClosing then None
      else h.paths)
  }

  lemma EarlyTells(w: World, d: DriverStep, h: History)
    requires Tells(w, h) && DriverCan(w, d) && Early(d)
    ensures Tells(DriverNext(w, d), Grown(h, d, w.shutdown))
  {
  }

  lemma LateTells(w: World, d: DriverStep, h: History)
    requires Tells(w, h) && DriverCan(w, d) && !Early(d)
    ensures Tells(DriverNext(w, d), Grown(h, d, w.shutdown))
  {
  }

  function HistoryOf(actions: seq<Action>): History
    requires Runs(Start, actions)
  {
    History(LastTimedOut(actions), LastErrorOf(actions), LastPathsOf(actions))
  }

  lemma {:induction false} RunTells(actions: seq<Action>)
    requires Runs(Start, actions)
    ensures Tells(After(Start, actions), HistoryOf(actions))
    decreases |actions|
  {
    hide DriverCan, DriverNext, PeerCan, PeerNext, WatchCan, WatchNext, Early;
    if actions != [] {
      var before, a := actions[..|actions|-1], actions[|actions|-1];
      RunTells(before);
      var w := After(Start, before);
      match a {
        case Driver(d) =>
          if Early(d) {
            EarlyTells(w, d, HistoryOf(before));
          } else {
            LateTells(w, d, HistoryOf(before));
          }
        case Drop(_) =>
        case Peer(p) => PeerFrame(w, p);
        case Watch(o) => WatchFrame(w, o);
      }
    }
  }

  // In every run the status holds the error its history gives, and the kind of path
  // that was read last: both kinds, one of them, or none.
  lemma StatusTellsHistory(actions: seq<Action>)
    requires Runs(Start, actions)
    ensures var s := After(Start, actions).pub.status; var p := LastPathsOf(actions);
            && s.lastError == LastErrorOf(actions)
            && s.description == (if p.Some? && (p.value.direct || p.value.relay)
                                 then Described(p.value.direct, p.value.relay, p.value.addresses) else NoPath)
            && (s.path == Mixed <==> p.Some? && p.value.direct && p.value.relay)
            && (s.path == Direct <==> p.Some? && p.value.direct && !p.value.relay)
            && (s.path == Relay <==> p.Some? && !p.value.direct && p.value.relay)
            && (s.path == Unknown <==> p.None? || (!p.value.direct && !p.value.relay))
  {
    RunTells(actions);
    RunSafe(actions);
    hide Runs, After, LastErrorOf, LastPathsOf, LastTimedOut, ClosersInv, ObserversInv, RetryInv, SlotInv;
  }

  // ----- being dropped -----

  lemma FromDropSlot(w: World, quiet: seq<Action>)
    requires w.pc == DropSlot && Quiet(quiet) && Runs(w, quiet)
    ensures var v := After(w, quiet);
            && DropCan(v, DropClear) && !DropCan(v, DropPublish) && (forall d :: !DriverCan(v, d))
            && DropNext(v, DropClear).pc == DropStatus && DropNext(v, DropClear).link.slot == None
            && v.shutdown == (w.shutdown || v.shutdown)
  {
    QuietFrame(w, quiet);
    hide Runs, After;
  }

  lemma FromDropStatus(w: World, quiet: seq<Action>)
    requires w.pc == DropStatus && w.link.slot.None? && Quiet(quiet) && Runs(w, quiet)
    ensures var v := After(w, quiet);
            && DropCan(v, DropPublish) && !DropCan(v, DropClear) && (forall d :: !DriverCan(v, d))
            && var over := DropNext(v, DropPublish);
               && over.pc == Finished && over.pub.status.state == Closed && over.link.slot == None
               && over.pub.status.terminalError == Some(DriverStopped)
  {
    QuietFrame(w, quiet);
    hide Runs, After;
  }

  // A dropped driver takes no further step of its own. It clears the slot and then
  // publishes Closed with DriverStopped, whatever others do in between.
  lemma DropEndsClosed(w: World, first: seq<Action>, second: seq<Action>)
    requires DropCan(w, DropCancel) && Quiet(first) && Quiet(second) && Runs(DropNext(w, DropCancel), first)
    requires var v := After(DropNext(w, DropCancel), first);
             DropCan(v, DropClear) ==> Runs(DropNext(v, DropClear), second)
    ensures var v := After(DropNext(w, DropCancel), first);
            && DropCan(v, DropClear) && v.shutdown
            && var u := After(DropNext(v, DropClear), second);
               && DropCan(u, DropPublish)
               && var over := DropNext(u, DropPublish);
                  && over.pub.status.state == Closed && over.link.slot == None
                  && over.pub.status.terminalError == Some(DriverStopped)
  {
    var a := DropNext(w, DropCancel);
    QuietFrame(a, first);
    FromDropSlot(a, first);
    FromDropStatus(DropNext(After(a, first), DropClear), second);
  }

  // ----- a published connection -----

  // What was published is watched from then on: the driver marks the slot's version
  // as seen and waits, unless a lease cleared it first.
  lemma PublishedIsWatched(w: World, first: Move, second: Move)
    requires w.pc == MarkSeen && CanMove(w, first) && CanMove(Moved(w, first), second)
    ensures first.step == BorrowAndUpdate && second.step == CheckSlot
    ensures Moved(w, first).link.seen == Moved(w, first).link.version
    ensures var v := Moved(Moved(w, first), second);
            v.pc == if After(Moved(w, first), second.quiet).link.slot.None? then Leave else Wait
  {
    hide Runs, After, CanMove, Moved;
    FromMarkSeen(w, first);
    FromCheck(Moved(w, first), second);
  }

  lemma FromMarkSeen(w: World, m: Move)
    requires w.pc == MarkSeen && CanMove(w, m)
    ensures m.step == BorrowAndUpdate
    ensures Moved(w, m).pc == Check && Moved(w, m).link.seen == Moved(w, m).link.version
  {
    QuietFrame(w, m.quiet);
    hide Runs, After, Updated, Repathed;
  }

  // A lease that clears its own connection is noticed: the slot is empty under a
  // new version, a waiting driver can wake up, and then gives the connection up.
  lemma InvalidationIsNoticed(w: World, g: nat, m: Move)
    requires SlotInv(w) && PeerCan(w, Invalidate(g)) && w.link.slot == Some(g) && w.pc == Wait
    requires var v := PeerNext(w, Invalidate(g));
             DriverCan(v, SelectChanged) ==> CanMove(DriverNext(v, SelectChanged), m)
    ensures var v := PeerNext(w, Invalidate(g));
            && v.link.slot == None && v.link.version == w.link.version + 1
            && DriverCan(v, SelectChanged)
            && m.step == CheckWoken && Moved(DriverNext(v, SelectChanged), m).pc == Leave
  {
    var v := PeerNext(w, Invalidate(g));
    assert DriverCan(v, SelectChanged);
    QuietFrame(DriverNext(v, SelectChanged), m.quiet);
    hide Runs, After, Updated, Repathed;
  }

  // ----- leases, close callers and observers, from the history -----

  function LeasesOf(actions: seq<Action>): set<nat>
    requires Runs(Start, actions)
    decreases |actions|
  {
    if actions == [] then {}
    else
      var before := actions[..|actions|-1];
      LeasesOf(before) +
      if actions[|actions|-1] == Peer(Acquire) then {After(Start, before).link.slot.value} else {}
  }

  // The statuses an observer was given: what was published at each of its calls.
  function ReportsOf(actions: seq<Action>, id: nat): seq<Status>
    requires Runs(Start, actions)
    decreases |actions|
  {
    if actions == [] then []
    else
      var before, a := actions[..|actions|-1], actions[|actions|-1];
      ReportsOf(before, id) +
      if a == Watch(ObserveFirst(id)) || a == Watch(ObserveChanged(id)) then [After(Start, before).pub.status]
      else []
  }

  predicate Observing(actions: seq<Action>, id: nat) {
    exists j :: 0 <= j < |actions| && actions[j] == Watch(Observe(id))
  }

  // How far a close call came: asked, waiting since the last look, or returned with
  // what was then the terminal error of a closed session.
  function CloserOf(actions: seq<Action>, id: nat): Option<Closer>
    requires Runs(Start, actions)
    decreases |actions|
  {
    if actions == [] then None
    else
      var before, a := actions[..|actions|-1], actions[|actions|-1];
      var pub := After(Start, before).pub;
      if a == Watch(CloseCall(id)) then Some(Asked)
      else if a == Watch(CloseSubscribe(id)) || a == Watch(CloseChanged(id)) then
        Some(if pub.status.state == Closed then Returned(pub.status.terminalError) else Waiting(pub.version))
      else CloserOf(before, id)
  }

  predicate SubscribersTell(w: World, id: nat, closer: Option<Closer>, observing: bool, reports: seq<Status>) {
    && (closer == if id in w.closers then Some(w.closers[id]) else None)
    && (observing <==> id in w.observers)
    && reports == (if id in w.observers then w.observers[id].reported else [])
  }

  lemma WatchTells(w: World, o: WatchStep, id: nat, closer: Option<Closer>, observing: bool, reports: seq<Status>)
    requires SubscribersTell(w, id, closer, observing, reports) && WatchCan(w, o)
    ensures SubscribersTell(WatchNext(w, o), id,
                            if o == CloseCall(id) then Some(Asked)
                            else if o == CloseSubscribe(id) || o == CloseChanged(id) then
                              Some(if w.pub.status.state == Closed then Returned(w.pub.status.terminalError)
                                   else Waiting(w.pub.version))
                            else closer,
                            observing || o == Observe(id),
                            if o == ObserveFirst(id) || o == ObserveChanged(id) then reports + [w.pub.status]
                            else reports)
  {
  }

  lemma {:induction false} RunSubscribers(actions: seq<Action>, id: nat)
    requires Runs(Start, actions)
    ensures SubscribersTell(After(Start, actions), id,
                            CloserOf(actions, id), Observing(actions, id), ReportsOf(actions, id))
    decreases |actions|
  {
    hide DriverCan, DriverNext, DropCan, DropNext, WatchCan, WatchNext, SubscribersTell, Observing;
    if actions == [] {
      NoSubscribers(id);
    } else {
      var before, a := actions[..|actions|-1], actions[|actions|-1];
      RunSubscribers(before, id);
      var w := After(Start, before);
      ObservingMore(actions, id);
      if a.Watch? {
        WatchTells(w, a.watch, id, CloserOf(before, id), Observing(before, id), ReportsOf(before, id));
      } else {
        SubscribersUntouched(w, a);
        SameSubscribers(w, Next(w, a), id, CloserOf(before, id), Observing(before, id), ReportsOf(before, id));
      }
      assert ReportsOf(before, id) + [] == ReportsOf(before, id);
    }
  }

  lemma NoSubscribers(id: nat)
    ensures !Observing([], id) && SubscribersTell(Start, id, None, false, [])
  {
  }

  lemma ObservingMore(actions: seq<Action>, id: nat)
    requires actions != []
    ensures Observing(actions, id) <==>
              Observing(actions[..|actions|-1], id) || actions[|actions|-1] == Watch(Observe(id))
  {
    var before := actions[..|actions|-1];
    assert forall j :: 0 <= j < |before| ==> before[j] == actions[j];
  }

  lemma SameSubscribers(
      w: World, v: World, id: nat, closer: Option<Closer>, observing: bool, reports: seq<Status>)
    requires SubscribersTell(w, id, closer, observing, reports) && v.closers == w.closers && v.observers == w.observers
    ensures SubscribersTell(v, id, closer, observing, reports)
  {
  }

  // In every run each observer was given exactly what was published at its calls,
  // and each close call stands where its looks at the status left it.
  lemma SubscribersTellHistory(actions: seq<Action>, id: nat)
    requires Runs(Start, actions)
    ensures var w := After(Start, actions);
            && (id in w.observers <==> Observing(actions, id))
            && (id in w.observers ==> w.observers[id].reported == ReportsOf(actions, id))
            && (id in w.closers <==> CloserOf(actions, id).Some?)
            && (id in w.closers ==> Some(w.closers[id]) == CloserOf(actions, id))
  {
    RunSubscribers(actions, id);
    hide Runs, After, ReportsOf, CloserOf;
  }

  // And the leases are those of the connections that were published when acquired.
  lemma {:induction false} LeasesTellHistory(actions: seq<Action>)
    requires Runs(Start, actions)
    ensures After(Start, actions).link.leases == LeasesOf(actions)
    decreases |actions|
  {
    hide DriverCan, DriverNext, DropCan, DropNext, WatchCan, WatchNext;
    if actions != [] {
      var before, a := actions[..|actions|-1], actions[|actions|-1];
      LeasesTellHistory(before);
      LeasesStep(After(Start, before), a);
      assert LeasesOf(before) + {} == LeasesOf(before);
    }
  }

  lemma LeasesStep(w: World, a: Action)
    requires Can(w, a)
    ensures Next(w, a).link.leases == w.link.leases + if a == Peer(Acquire) then {w.link.slot.value} else {}
  {
    hide DriverCan, DriverNext, WatchCan, WatchNext;
    match a {
      case Driver(d) => DriverLeases(w, d);
      case Drop(_) =>
      case Peer(_) =>
      case Watch(o) => WatchFrame(w, o);
    }
  }

  lemma DriverLeases(w: World, d: DriverStep)
    requires DriverCan(w, d)
    ensures DriverNext(w, d).link.leases == w.link.leases
  {
    hide Updated, Repathed;
  }
}
