// What every run of the session keeps, whatever the interleaving.

module SessionSafety {
  import opened Bytes
  import opened Schedule
  import opened Session

  // ----- what each kind of action can touch -----

  predicate SameCauses(a: Link, b: Link) {
    a.cleared == b.cleared && a.lost == b.lost && a.ended == b.ended
  }

  lemma DriverFrame(w: World, d: DriverStep)
    requires DriverCan(w, d)
    ensures var w' := DriverNext(w, d);
            && SameCauses(w'.link, w.link)
            && w'.closers == w.closers && w'.observers == w.observers
            && (w'.link.slot == w.link.slot || d.Publish? || d.Unpublish? || d.ClearForClose?)
            && (w'.retry.waits == w.retry.waits ||
                (w'.retry.waits == w.retry.waits + [RetryDelay(w)] && (w.pc.ReportFailure? || w.pc == ReportLoss)))
  {
    hide Updated, Repathed;
  }

  lemma DropFrame(w: World, d: DropStep)
    requires DropCan(w, d)
    ensures var w' := DropNext(w, d);
            && SameCauses(w'.link, w.link) && w'.retry == w.retry
            && w'.closers == w.closers && w'.observers == w.observers
            && (w'.link.slot == w.link.slot || d.DropClear?)
  {
  }

  lemma WatchFrame(w: World, o: WatchStep)
    requires WatchCan(w, o)
    ensures WatchNext(w, o).link == w.link && WatchNext(w, o).retry == w.retry && WatchNext(w, o).pub == w.pub
    ensures WatchNext(w, o).pc == w.pc && (w.shutdown ==> WatchNext(w, o).shutdown)
  {
    hide Looked, Reported;
  }

  lemma PeerFrame(w: World, p: PeerStep)
    requires PeerCan(w, p)
    ensures var w' := PeerNext(w, p);
            && w'.pub == w.pub && w'.retry == w.retry && w'.pc == w.pc && (w.shutdown ==> w'.shutdown)
            && w'.closers == w.closers && w'.observers == w.observers
            && (w'.link.slot == w.link.slot
                || (p.Invalidate? && w.link.slot == Some(p.generation) && w'.link.slot == None))
            && w'.link.generation == w.link.generation
  {
  }

  // The driver's steps up to a connection's publication, and those after it.
  predicate Early(d: DriverStep) {
    || d.Loop? || d.SetTerminal? || d.CancelSelf? || d.ConnectDone? || d.ConnectFailed? || d.StopAttempt?
    || d.PublishFailure? || d.RetryElapsed? || d.StopRetry? || d.ToConnected? || d.FirstPaths?
  }

  // The branches of its wait on a connection.
  predicate Waiting(d: DriverStep) {
    d.SelectShutdown? || d.SelectClosed? || d.SelectStable? || d.SelectChanged? || d.SelectPath?
  }

  // ----- the slot -----

  predicate InnerLoop(pc: Pc) {
    pc == MarkSeen || pc == Check || pc == Wait || pc == Woken || pc == Repath || pc == Leave
  }

  // Past the supervising loop, or being dropped.
  predicate Ending(pc: Pc) {
    pc == Stopping || pc == ClearSlot || pc == Cleanup || pc == DropSlot || pc == DropStatus || pc == Finished
  }

  predicate SlotInv(w: World) {
    && w.link.seen <= w.link.version
    && (w.link.slot.Some? ==> w.link.slot.value == w.link.generation)
    && (w.link.slot.Some? ==> InnerLoop(w.pc) || w.pc == Stopping || w.pc == ClearSlot || w.pc == DropSlot)
    && (forall g :: g in w.link.leases ==> g <= w.link.generation)
    && (InnerLoop(w.pc) && w.link.slot.None? ==> w.link.generation in w.link.cleared)
    && (w.pc == Wait && w.link.slot.None? ==> w.link.seen < w.link.version)
    && (w.pc == Leave ==>
          var g := w.link.generation; g in w.link.cleared || g in w.link.lost || g in w.link.ended)
    && (Ending(w.pc) ==> w.shutdown)
  }

  lemma SlotDriverStep(w: World, d: DriverStep)
    requires SlotInv(w) && DriverCan(w, d)
    ensures SlotInv(DriverNext(w, d))
  {
    hide DriverCan, DriverNext, Early;
    if Early(d) {
      SlotDriverStepEarly(w, d);
    } else if Waiting(d) {
      SlotDriverStepWaiting(w, d);
    } else {
      SlotDriverStepLate(w, d);
    }
  }

  lemma SlotDriverStepEarly(w: World, d: DriverStep)
    requires SlotInv(w) && DriverCan(w, d) && Early(d)
    ensures SlotInv(DriverNext(w, d))
  {
    hide Updated, Repathed;
  }

  lemma SlotDriverStepWaiting(w: World, d: DriverStep)
    requires SlotInv(w) && DriverCan(w, d) && Waiting(d)
    ensures SlotInv(DriverNext(w, d))
  {
    hide Updated, Repathed;
  }

  lemma SlotDriverStepLate(w: World, d: DriverStep)
    requires SlotInv(w) && DriverCan(w, d) && !Early(d) && !Waiting(d)
    ensures SlotInv(DriverNext(w, d))
  {
    hide Updated, Repathed;
  }

  lemma SlotPeerStep(w: World, p: PeerStep)
    requires SlotInv(w) && PeerCan(w, p)
    ensures SlotInv(PeerNext(w, p))
  {
  }

  lemma SlotStep(w: World, a: Action)
    requires SlotInv(w) && Can(w, a)
    ensures SlotInv(Next(w, a))
  {
    hide DriverCan, DriverNext, PeerCan, PeerNext, Looked, Reported;
    match a {
      case Driver(d) => SlotDriverStep(w, d);
      case Peer(p) => SlotPeerStep(w, p);
      case Drop(_) =>
      case Watch(_) =>
    }
  }

  // ----- the status -----

  // From the Connected publication until the loss is reported.
  predicate Live(pc: Pc) {
    InnerLoop(pc) || pc == ReadPaths || pc == PublishSlot || pc == ReportLoss
  }

  predicate StatusInv(w: World) {
    var s := w.pub.status;
    && w.pub.version == s.revision
    && s.path == KindOf(s.description)
    && (s.description != NoPath ==> s.state == Connected)
    && (Live(w.pc) ==> s.state == Connected)
    && (w.pc == ClearSlot || w.pc == Cleanup ==> s.state == Closing)
    && (w.pc == Finished <==> s.state == Closed)
    && (w.link.slot.Some? ==> s.state == Connected || (s.state == Closing && w.shutdown))
  }

  lemma StatusDriverStep(w: World, d: DriverStep)
    requires SlotInv(w) && StatusInv(w) && DriverCan(w, d)
    ensures StatusInv(DriverNext(w, d))
  {
    hide DriverCan, DriverNext, Early;
    if Early(d) {
      StatusDriverStepEarly(w, d);
    } else {
      StatusDriverStepLate(w, d);
    }
  }

  lemma StatusDriverStepEarly(w: World, d: DriverStep)
    requires SlotInv(w) && StatusInv(w) && DriverCan(w, d) && Early(d)
    ensures StatusInv(DriverNext(w, d))
  {
  }

  lemma StatusDriverStepLate(w: World, d: DriverStep)
    requires SlotInv(w) && StatusInv(w) && DriverCan(w, d) && !Early(d)
    ensures StatusInv(DriverNext(w, d))
  {
  }

  lemma StatusDropStep(w: World, d: DropStep)
    requires SlotInv(w) && StatusInv(w) && DropCan(w, d)
    ensures StatusInv(DropNext(w, d))
  {
  }

  lemma StatusStep(w: World, a: Action)
    requires SlotInv(w) && StatusInv(w) && Can(w, a)
    ensures StatusInv(Next(w, a))
  {
    hide DriverCan, DriverNext, DropCan, DropNext, PeerCan, PeerNext, WatchCan, WatchNext, SlotInv;
    match a {
      case Driver(d) => StatusDriverStep(w, d);
      case Drop(d) => StatusDropStep(w, d);
      case Peer(p) => PeerFrame(w, p);
      case Watch(o) => WatchFrame(w, o);
    }
  }

  // Every action leaves the status alone or publishes it once: the revision
  // rises by one, a terminal error stays, and nothing follows Closed.
  predicate Published(before: Pub, after: Pub) {
    && after.version == before.version + 1
    && after.status.revision == before.status.revision + 1
    && before.status.state != Closed
    && (before.status.terminalError.Some? ==> after.status.terminalError.Some?)
  }

  lemma PublishDriverStep(w: World, d: DriverStep)
    requires StatusInv(w) && DriverCan(w, d)
    ensures DriverNext(w, d).pub == w.pub || Published(w.pub, DriverNext(w, d).pub)
  {
    hide DriverCan, DriverNext, Early;
    if Early(d) {
      PublishDriverStepEarly(w, d);
    } else {
      PublishDriverStepLate(w, d);
    }
  }

  lemma PublishDriverStepEarly(w: World, d: DriverStep)
    requires StatusInv(w) && DriverCan(w, d) && Early(d)
    ensures DriverNext(w, d).pub == w.pub || Published(w.pub, DriverNext(w, d).pub)
  {
  }

  lemma PublishDriverStepLate(w: World, d: DriverStep)
    requires StatusInv(w) && DriverCan(w, d) && !Early(d)
    ensures DriverNext(w, d).pub == w.pub || Published(w.pub, DriverNext(w, d).pub)
  {
  }

  lemma PublishStep(w: World, a: Action)
    requires StatusInv(w) && Can(w, a)
    ensures Next(w, a).pub == w.pub || Published(w.pub, Next(w, a).pub)
  {
    hide DriverCan, DriverNext, Looked, Reported;
    match a {
      case Driver(d) => PublishDriverStep(w, d);
      case Drop(_) =>
      case Peer(_) =>
      case Watch(_) =>
    }
  }

  // ----- close callers and observers -----

  predicate CloserOk(c: Closer, pub: Pub) {
    match c
    case Asked => true
    case Waiting(seen) => seen <= pub.version && (pub.status.state == Closed ==> seen < pub.version)
    case Returned(result) => pub.status.state == Closed && result == pub.status.terminalError
  }

  predicate ClosersInv(w: World) {
    forall id :: id in w.closers ==> CloserOk(w.closers[id], w.pub)
  }

  predicate Rising(reported: seq<Status>) {
    forall i, j :: 0 <= i < j < |reported| ==> reported[i].revision < reported[j].revision
  }

  predicate OnlyLastClosed(reported: seq<Status>) {
    forall i :: 0 <= i < |reported| - 1 ==> reported[i].state != Closed
  }

  predicate ObserverOk(o: Observer, pub: Pub) {
    && (o.first <==> o.reported == [])
    && (o.first ==> !o.finished)
    && Rising(o.reported) && OnlyLastClosed(o.reported)
    && (!o.first ==>
          var last := o.reported[|o.reported|-1];
          && o.seen == last.revision <= pub.version
          && (o.finished <==> last.state == Closed)
          && (o.seen == pub.version ==> pub.status == last))
  }

  predicate ObserversInv(w: World) {
    forall id :: id in w.observers ==> ObserverOk(w.observers[id], w.pub)
  }

  lemma CloserKept(c: Closer, before: Pub, after: Pub)
    requires CloserOk(c, before) && (after == before || Published(before, after))
    ensures CloserOk(c, after)
  {
  }

  lemma ObserverKept(o: Observer, before: Pub, after: Pub)
    requires ObserverOk(o, before) && (after == before || Published(before, after))
    ensures ObserverOk(o, after)
  {
  }

  lemma ObserverReports(w: World, o: Observer)
    requires StatusInv(w) && ObserverOk(o, w.pub) && !o.finished && (o.first || o.seen != w.pub.version)
    ensures ObserverOk(Reported(w.pub, o), w.pub)
  {
    if !o.first {
      RisingMore(o.reported, w.pub.status);
    }
  }

  lemma RisingMore(reported: seq<Status>, s: Status)
    requires reported != [] && Rising(reported) && OnlyLastClosed(reported)
    requires reported[|reported|-1].revision < s.revision && reported[|reported|-1].state != Closed
    ensures Rising(reported + [s]) && OnlyLastClosed(reported + [s])
  {
    var r, n := reported + [s], |reported|;
    forall i, j | 0 <= i < j < |r| ensures r[i].revision < r[j].revision {
      assert i < n - 1 ==> reported[i].revision < reported[n - 1].revision;
    }
  }

  lemma SubscribersStep(w: World, a: Action)
    requires StatusInv(w) && ClosersInv(w) && ObserversInv(w) && Can(w, a)
    ensures ClosersInv(Next(w, a)) && ObserversInv(Next(w, a))
  {
    PublishStep(w, a);
    var w' := Next(w, a);
    if a.Watch? {
      WatchersStep(w, a.watch);
    } else {
      SubscribersUntouched(w, a);
      forall id | id in w.closers ensures CloserOk(w.closers[id], w'.pub) {
        CloserKept(w.closers[id], w.pub, w'.pub);
      }
      forall id | id in w.observers ensures ObserverOk(w.observers[id], w'.pub) {
        ObserverKept(w.observers[id], w.pub, w'.pub);
      }
    }
  }

  lemma SubscribersUntouched(w: World, a: Action)
    requires Can(w, a) && !a.Watch?
    ensures Next(w, a).closers == w.closers && Next(w, a).observers == w.observers
  {
    hide DriverCan, DriverNext, DropCan, DropNext;
    match a {
      case Driver(d) => DriverFrame(w, d);
      case Drop(d) => DropFrame(w, d);
      case Peer(_) =>
    }
  }

  lemma WatchersStep(w: World, a: WatchStep)
    requires StatusInv(w) && ClosersInv(w) && ObserversInv(w) && WatchCan(w, a)
    ensures ClosersInv(WatchNext(w, a)) && ObserversInv(WatchNext(w, a))
  {
    hide ObserverOk, Reported;
    match a {
      case ObserveFirst(id) => FirstReport(w, id);
      case ObserveChanged(id) => ObserverReports(w, w.observers[id]);
      case Observe(id) => NewObserver(w.pub);
      case _ =>
    }
  }

  lemma FirstReport(w: World, id: nat)
    requires StatusInv(w) && id in w.observers && ObserverOk(w.observers[id], w.pub) && w.observers[id].first
    ensures ObserverOk(Reported(w.pub, w.observers[id]), w.pub)
  {
    ObserverReports(w, w.observers[id]);
  }

  lemma NewObserver(pub: Pub)
    ensures ObserverOk(Observer(true, false, 0, []), pub)
  {
  }

  // ----- retries -----

  predicate Scheduled(waits: seq<nat>) {
    forall i :: 0 <= i < |waits| ==> waits[i] == Capped(INITIAL_BACKOFF, MAX_BACKOFF, i)
  }

  predicate RetryInv(w: World) {
    && (w.link.generation == 0 ==>
          && !w.retry.recovering && Scheduled(w.retry.waits) && !Live(w.pc) && w.pc != PublishConnected
          && (!Ending(w.pc) ==> BackoffIs(w)))
    && (w.link.generation > 0 && !w.retry.recovering ==>
          w.pc == PublishConnected || (Live(w.pc) && w.pc != ReportLoss) || Ending(w.pc))
  }

  // While a retry sleeps, its own delay is still the backoff.
  predicate BackoffIs(w: World) {
    var k := |w.retry.waits|;
    if w.pc == Retry then k > 0 && w.retry.backoff == Capped(INITIAL_BACKOFF, MAX_BACKOFF, k - 1)
    else w.retry.backoff == Capped(INITIAL_BACKOFF, MAX_BACKOFF, k)
  }

  lemma ScheduledMore(waits: seq<nat>)
    requires Scheduled(waits)
    ensures Scheduled(waits + [Capped(INITIAL_BACKOFF, MAX_BACKOFF, |waits|)])
  {
    hide Capped;
  }

  lemma RetryDriverStep(w: World, d: DriverStep)
    requires RetryInv(w) && DriverCan(w, d)
    ensures RetryInv(DriverNext(w, d))
  {
    hide DriverCan, DriverNext, Early;
    if Early(d) {
      RetryDriverStepEarly(w, d);
    } else {
      RetryDriverStepLate(w, d);
    }
  }

  lemma RetryDriverStepEarly(w: World, d: DriverStep)
    requires RetryInv(w) && DriverCan(w, d) && Early(d)
    ensures RetryInv(DriverNext(w, d))
  {
    hide RetryInv, DriverNext;
    if d == PublishFailure {
      RetryBegins(w);
    } else if d == RetryElapsed {
      RetryEnds(w);
    } else {
      RetryElsewhere(w, d);
    }
  }

  lemma RetryBegins(w: World)
    requires RetryInv(w) && DriverCan(w, PublishFailure)
    ensures RetryInv(DriverNext(w, PublishFailure))
  {
    hide Capped, Updated, Scheduled;
    if w.link.generation == 0 {
      ScheduledMore(w.retry.waits);
    }
  }

  lemma NextBackoff(waits: seq<nat>)
    requires waits != []
    ensures Doubled(Capped(INITIAL_BACKOFF, MAX_BACKOFF, |waits| - 1), MAX_BACKOFF)
            == Capped(INITIAL_BACKOFF, MAX_BACKOFF, |waits|)
  {
    hide Capped, Doubled;
    DoubledIsNext(INITIAL_BACKOFF, MAX_BACKOFF, |waits| - 1);
  }

  lemma RetryEnds(w: World)
    requires RetryInv(w) && DriverCan(w, RetryElapsed)
    ensures RetryInv(DriverNext(w, RetryElapsed))
  {
    hide Capped, Doubled, Scheduled;
    if w.link.generation == 0 {
      NextBackoff(w.retry.waits);
    }
  }

  lemma RetryElsewhere(w: World, d: DriverStep)
    requires RetryInv(w) && DriverCan(w, d) && Early(d) && d != PublishFailure && d != RetryElapsed
    ensures RetryInv(DriverNext(w, d))
  {
    hide Capped, Updated, Repathed, Scheduled;
  }

  lemma RetryDriverStepLate(w: World, d: DriverStep)
    requires RetryInv(w) && DriverCan(w, d) && !Early(d)
    ensures RetryInv(DriverNext(w, d))
  {
    hide Capped, Doubled, Updated, Repathed, Scheduled;
  }

  lemma RetryStep(w: World, a: Action)
    requires RetryInv(w) && Can(w, a)
    ensures RetryInv(Next(w, a))
  {
    hide DriverCan, DriverNext, WatchCan, WatchNext, PeerCan, PeerNext, Capped, Scheduled;
    match a {
      case Driver(d) => RetryDriverStep(w, d);
      case Drop(d) => DropFrame(w, d);
      case Watch(o) => WatchFrame(w, o);
      case Peer(p) => PeerFrame(w, p);
    }
  }

  // ----- runs -----

  predicate Safe(w: World) {
    SlotInv(w) && StatusInv(w) && ClosersInv(w) && ObserversInv(w) && RetryInv(w)
  }

  lemma StartSafe()
    ensures Safe(Start)
  {
    assert Capped(INITIAL_BACKOFF, MAX_BACKOFF, 0) == INITIAL_BACKOFF;
  }

  lemma {:induction false} RunSafe(actions: seq<Action>)
    requires Runs(Start, actions)
    ensures Safe(After(Start, actions))
    decreases |actions|
  {
    hide SlotInv, StatusInv, ClosersInv, ObserversInv, RetryInv, Can, Next;
    if actions == [] {
      StartSafe();
    } else {
      var before, a := actions[..|actions|-1], actions[|actions|-1];
      RunSafe(before);
      var w := After(Start, before);
      SlotStep(w, a);
      StatusStep(w, a);
      SubscribersStep(w, a);
      RetryStep(w, a);
    }
  }

  // The driver is never stuck waiting on an empty slot: with no unseen version,
  // the slot still holds the connection it waits on.
  lemma NoLostInvalidation(actions: seq<Action>)
    requires Runs(Start, actions)
    ensures var w := After(Start, actions);
            w.pc == Wait && w.link.seen == w.link.version ==> w.link.slot == Some(w.link.generation)
  {
    RunSafe(actions);
  }

  // Only a lease of the published generation, or the driver itself, empties the
  // slot; a lease of any other generation changes nothing at all.
  lemma OnlyItsOwnLeaseClears(actions: seq<Action>, a: Action)
    requires Runs(Start, actions + [a])
    ensures Runs(Start, actions) && Can(After(Start, actions), a)
    ensures var w := After(Start, actions);
            && After(Start, actions + [a]) == Next(w, a)
            && (w.link.slot.Some? && Next(w, a).link.slot != w.link.slot ==>
                  || a == Peer(Invalidate(w.link.generation))
                  || a == Driver(Unpublish) || a == Driver(ClearForClose) || a == Drop(DropClear))
            && (a.Peer? && a.peer.Invalidate? && w.link.slot != Some(a.peer.generation) ==> Next(w, a) == w)
  {
    hide Can, Next;
    assert (actions + [a])[..|actions + [a]|-1] == actions;
    RunSafe(actions);
    SlotKept(After(Start, actions), a);
  }

  lemma SlotKept(w: World, a: Action)
    requires SlotInv(w) && Can(w, a)
    ensures w.link.slot.Some? && Next(w, a).link.slot != w.link.slot ==>
              || a == Peer(Invalidate(w.link.generation))
              || a == Driver(Unpublish) || a == Driver(ClearForClose) || a == Drop(DropClear)
    ensures a.Peer? && a.peer.Invalidate? && w.link.slot != Some(a.peer.generation) ==> Next(w, a) == w
  {
    hide DriverNext, DropCan, DropNext, WatchCan, WatchNext;
    match a {
      case Driver(d) => DriverFrame(w, d);
      case Drop(d) => DropFrame(w, d);
      case Watch(o) => WatchFrame(w, o);
      case Peer(_) =>
    }
  }

  // What a run did at step `j`.
  predicate Did(actions: seq<Action>, j: nat, p: PeerStep, generation: nat)
    requires Runs(Start, actions)
  {
    && j < |actions| && actions[j] == Peer(p)
    && Runs(Start, actions[..j]) && After(Start, actions[..j]).link.generation == generation
  }

  // A driver that gives up a connection of generation g was given a reason for
  // that very generation: its lease cleared the slot while it was published, its
  // connection closed, or its path stream ended.
  lemma LeftForAReason(actions: seq<Action>) returns (j: nat)
    requires Runs(Start, actions) && After(Start, actions).pc == Leave
    ensures var g := After(Start, actions).link.generation;
            || (Did(actions, j, Invalidate(g), g) && After(Start, actions[..j]).link.slot == Some(g))
            || Did(actions, j, ConnectionCloses, g)
            || Did(actions, j, PathStreamEnds, g)
  {
    RunSafe(actions);
    j := Cause(actions, After(Start, actions).link.generation);
  }

  lemma {:induction false} Cause(actions: seq<Action>, g: nat) returns (j: nat)
    requires Runs(Start, actions)
    requires var l := After(Start, actions).link; g in l.cleared || g in l.lost || g in l.ended
    ensures || (Did(actions, j, Invalidate(g), g) && After(Start, actions[..j]).link.slot == Some(g))
            || Did(actions, j, ConnectionCloses, g)
            || Did(actions, j, PathStreamEnds, g)
    decreases |actions|
  {
    hide Can, Next;
    if actions == [] {
      assert false;
    }
    var before, a := actions[..|actions|-1], actions[|actions|-1];
    var w := After(Start, before);
    if g in w.link.cleared || g in w.link.lost || g in w.link.ended {
      j := Cause(before, g);
      assert before[..j] == actions[..j];
    } else {
      j := |actions| - 1;
      RunSafe(before);
      NewCause(w, a, g);
    }
  }

  lemma NewCause(w: World, a: Action, g: nat)
    requires SlotInv(w) && Can(w, a)
    requires !(g in w.link.cleared || g in w.link.lost || g in w.link.ended)
    requires var l := Next(w, a).link; g in l.cleared || g in l.lost || g in l.ended
    ensures w.link.generation == g
    ensures || (a == Peer(Invalidate(g)) && w.link.slot == Some(g))
            || a == Peer(ConnectionCloses) || a == Peer(PathStreamEnds)
  {
    hide DriverCan, DriverNext, DropCan, DropNext, WatchCan, WatchNext;
    match a {
      case Driver(d) => DriverFrame(w, d);
      case Drop(d) => DropFrame(w, d);
      case Watch(o) => WatchFrame(w, o);
      case Peer(_) =>
    }
  }

  // The ways out of supervising a connection: its loss, for the reasons above, or
  // a shutdown that was asked for. Until then it keeps its generation.
  lemma LeavesOnlyFrom(actions: seq<Action>, a: Action)
    requires Runs(Start, actions) && Can(After(Start, actions), a) && InnerLoop(After(Start, actions).pc)
    ensures var w := After(Start, actions); var w' := Next(w, a);
            w'.link.generation == w.link.generation && (InnerLoop(w'.pc) || WayOut(w, a))
  {
    var w := After(Start, actions);
    hide Runs, After, InnerLoop, WayOut;
    hide DriverCan, DriverNext, DropCan, DropNext, PeerCan, PeerNext, WatchCan, WatchNext;
    match a {
      case Driver(d) => DriverLeaves(w, d);
      case Drop(d) => DropLeaves(w, d);
      case Watch(o) => WatchFrame(w, o);
      case Peer(p) => PeerFrame(w, p);
    }
  }

  predicate WayOut(w: World, a: Action) {
    || (w.pc == Leave && a == Driver(Unpublish))
    || (w.shutdown && a == Driver(SelectShutdown))
    || a == Drop(DropCancel)
  }

  lemma DriverLeaves(w: World, d: DriverStep)
    requires DriverCan(w, d) && InnerLoop(w.pc)
    ensures var w' := DriverNext(w, d);
            w'.link.generation == w.link.generation && (InnerLoop(w'.pc) || WayOut(w, Driver(d)))
  {
    hide Updated, Repathed;
  }

  lemma DropLeaves(w: World, d: DropStep)
    requires DropCan(w, d) && InnerLoop(w.pc)
    ensures DropNext(w, d).link.generation == w.link.generation && WayOut(w, Drop(d))
  {
  }

  // What can make the driver stop: someone asks for it, its endpoint is found
  // closed, or it is dropped.
  predicate StopCause(a: Action) {
    || a == Peer(RequestShutdown)
    || (a.Watch? && a.watch.CloseCall?)
    || a == Driver(Loop(true))
    || a == Drop(DropCancel)
  }

  // Stopping, or about to stop itself.
  predicate Stopped(w: World) {
    w.shutdown || w.pc == MarkTerminal || w.pc == CancelAfterFailure
  }

  lemma NewDriverStop(w: World, d: DriverStep)
    requires DriverCan(w, d) && !Stopped(w) && Stopped(DriverNext(w, d))
    ensures d == Loop(true)
  {
    hide Updated, Repathed;
  }

  lemma NewStop(w: World, a: Action)
    requires Can(w, a) && !Stopped(w) && Stopped(Next(w, a))
    ensures StopCause(a)
  {
    hide DriverCan, DriverNext, Looked, Reported;
    match a {
      case Driver(d) => NewDriverStop(w, d);
      case Drop(_) =>
      case Peer(_) =>
      case Watch(_) =>
    }
  }

  lemma {:induction false} StopHasCause(actions: seq<Action>) returns (j: nat)
    requires Runs(Start, actions) && Stopped(After(Start, actions))
    ensures j < |actions| && StopCause(actions[j])
    ensures Runs(Start, actions[..j]) && !Stopped(After(Start, actions[..j]))
    decreases |actions|
  {
    hide Can, Next, StopCause;
    if actions == [] {
      assert false;
    }
    var before := actions[..|actions|-1];
    if Stopped(After(Start, before)) {
      j := StopHasCause(before);
      assert before[..j] == actions[..j];
    } else {
      j := |actions| - 1;
      NewStop(After(Start, before), actions[j]);
    }
  }

  // A driver past its supervising loop was asked to stop, found its endpoint
  // closed, or was dropped, at a step of the run.
  lemma StopsForAReason(actions: seq<Action>) returns (j: nat)
    requires Runs(Start, actions) && Ending(After(Start, actions).pc)
    ensures j < |actions| && StopCause(actions[j])
    ensures Runs(Start, actions[..j]) && !Stopped(After(Start, actions[..j]))
  {
    RunSafe(actions);
    hide Runs, After, StopCause;
    j := StopHasCause(actions);
  }

  // ----- the terminal error -----

  predicate TerminalInv(w: World) {
    w.pc != Finished && w.pub.status.terminalError.Some? ==> w.pub.status.terminalError == Some(DriverStopped)
  }

  // A terminal error is replaced by exactly one step: closing the endpoint in vain.
  lemma TerminalDriverStep(w: World, d: DriverStep)
    requires StatusInv(w) && TerminalInv(w) && DriverCan(w, d)
    ensures var t, t' := w.pub.status.terminalError, DriverNext(w, d).pub.status.terminalError;
            && TerminalInv(DriverNext(w, d))
            && (t.Some? ==> (t' != t <==> d == EndpointClosed(true))
                            && (t' != t ==> t' == Some(Timeout(ShutdownStage))))
  {
    hide StatusInv;
  }

  lemma TerminalStep(w: World, a: Action)
    requires StatusInv(w) && TerminalInv(w) && Can(w, a)
    ensures var t, t' := w.pub.status.terminalError, Next(w, a).pub.status.terminalError;
            && TerminalInv(Next(w, a))
            && (t.Some? ==> (t' != t <==> a == Driver(EndpointClosed(true)))
                            && (t' != t ==> t' == Some(Timeout(ShutdownStage))))
  {
    hide DriverCan, DriverNext, PeerCan, PeerNext, WatchCan, WatchNext, StatusInv;
    match a {
      case Driver(d) => TerminalDriverStep(w, d);
      case Drop(_) =>
      case Peer(p) => PeerFrame(w, p);
      case Watch(o) => WatchFrame(w, o);
    }
  }

  lemma {:induction false} RunTerminal(actions: seq<Action>)
    requires Runs(Start, actions)
    ensures TerminalInv(After(Start, actions))
    decreases |actions|
  {
    hide Can, Next, StatusInv;
    if actions != [] {
      var before := actions[..|actions|-1];
      RunTerminal(before);
      RunSafe(before);
      TerminalStep(After(Start, before), actions[|actions|-1]);
    }
  }

  // In every run a terminal error once set is only ever replaced when closing the
  // endpoint times out, and then by that timeout.
  lemma TerminalReplacedIff(actions: seq<Action>, a: Action)
    requires Runs(Start, actions) && Can(After(Start, actions), a)
    requires After(Start, actions).pub.status.terminalError.Some?
    ensures var w := After(Start, actions); var t := Next(w, a).pub.status.terminalError;
            && (t != w.pub.status.terminalError <==> a == Driver(EndpointClosed(true)))
            && (t != w.pub.status.terminalError ==> t == Some(Timeout(ShutdownStage)))
  {
    hide Runs, After, Can, Next, SlotInv, StatusInv, ClosersInv, ObserversInv, RetryInv, TerminalInv;
    RunSafe(actions);
    RunTerminal(actions);
    TerminalStep(After(Start, actions), a);
  }

  lemma Grow(actions: seq<Action>, a: Action) returns (more: seq<Action>)
    requires Runs(Start, actions) && Can(After(Start, actions), a)
    ensures more == actions + [a] && Runs(Start, more) && After(Start, more) == Next(After(Start, actions), a)
  {
    hide Can, Next;
    more := actions + [a];
    assert more[..|more|-1] == actions;
  }

  lemma Nothing() returns (none: seq<Action>)
    ensures none == [] && Runs(Start, none) && After(Start, none) == Start
  {
    none := [];
  }

  // It does happen: the endpoint is found closed, and closing it times out.
  lemma TerminalReplaced() returns (run: seq<Action>)
    ensures Runs(Start, run) && After(Start, run).pub.status.terminalError == Some(DriverStopped)
    ensures Can(After(Start, run), Driver(EndpointClosed(true)))
    ensures Next(After(Start, run), Driver(EndpointClosed(true))).pub.status.terminalError
            == Some(Timeout(ShutdownStage))
  {
    hide Runs, After;
    run := Nothing();
    run := Grow(run, Driver(Loop(true)));
    run := Grow(run, Driver(SetTerminal));
    assert After(Start, run).pc == CancelAfterFailure;
    run := Grow(run, Driver(CancelSelf));
    run := Grow(run, Driver(ToClosing));
    assert After(Start, run).pc == ClearSlot;
    run := Grow(run, Driver(ClearForClose));
  }

  lemma StatusSafety(actions: seq<Action>)
    requires Runs(Start, actions)
    ensures var w := After(Start, actions); var s := w.pub.status;
            && s.revision == w.pub.version
            && (s.path != Unknown ==> s.state == Connected)
            && (w.link.slot.Some? ==> s.state == Connected || (s.state == Closing && w.shutdown))
            && (s.state == Closed ==> w.link.slot.None? && w.shutdown)
  {
    RunSafe(actions);
  }

  // Over any stretch of a run: revisions never fall, each publication in it
  // raised them by exactly one, and a terminal error is never cleared.
  lemma {:induction false} StatusOverRuns(actions: seq<Action>, n: nat)
    requires Runs(Start, actions) && n <= |actions|
    ensures Runs(Start, actions[..n])
    ensures var s, t := After(Start, actions[..n]).pub.status, After(Start, actions).pub.status;
            && s.revision + Publications(actions, n) == t.revision
            && (s.revision == t.revision ==> s == t)
            && (s.terminalError.Some? ==> t.terminalError.Some?)
    decreases |actions|
  {
    hide Can, Next;
    if n == |actions| {
      assert actions[..n] == actions;
    } else {
      var before, a := actions[..|actions|-1], actions[|actions|-1];
      assert before[..n] == actions[..n];
      StatusOverRuns(before, n);
      RunSafe(before);
      PublishStep(After(Start, before), a);
    }
  }

  // How many steps from `n` on published a status.
  function Publications(actions: seq<Action>, n: nat): nat
    requires Runs(Start, actions) && n <= |actions|
    decreases |actions|
  {
    if n == |actions| then 0
    else
      var before := actions[..|actions|-1];
      Publications(before, n) + if After(Start, actions).pub == After(Start, before).pub then 0 else 1
  }

  // Closed is final: no run continues with another publication or connection.
  lemma {:induction false} ClosedIsFinal(actions: seq<Action>, more: seq<Action>)
    requires Runs(Start, actions) && Runs(Start, actions + more)
    requires After(Start, actions).pub.status.state == Closed
    ensures After(Start, actions + more).pub == After(Start, actions).pub
    ensures After(Start, actions + more).link.slot.None?
    decreases |more|
  {
    if more == [] {
      assert actions + more == actions;
      StatusSafety(actions);
    } else {
      var all := actions + more;
      hide Can, Next;
      assert all[..|all|-1] == actions + more[..|more|-1];
      ClosedIsFinal(actions, more[..|more|-1]);
      RunSafe(all[..|all|-1]);
      hide SlotInv, StatusInv, ClosersInv, ObserversInv, RetryInv;
      PublishStep(After(Start, all[..|all|-1]), all[|all|-1]);
      StatusSafety(all);
    }
  }

  // All close calls that saw Closed report the same result, and none can miss
  // it: while one waits on a closed session there is a version it has not seen,
  // so it never finds the channel closed instead.
  lemma CloseCallersAgree(actions: seq<Action>, a: nat, b: nat)
    requires Runs(Start, actions)
    ensures var w := After(Start, actions);
            && (a in w.closers && b in w.closers && w.closers[a].Returned? && w.closers[b].Returned? ==>
                  w.closers[a] == w.closers[b])
            && (a in w.closers && w.closers[a].Returned? ==>
                  w.pub.status.state == Closed && w.closers[a].result == w.pub.status.terminalError)
            && (a in w.closers && w.closers[a].Waiting? && w.pc == Finished ==> Can(w, Watch(CloseChanged(a))))
  {
    RunSafe(actions);
  }

  // An observer sees strictly rising revisions, Closed at most once and last,
  // and on a closed session it has either seen Closed or will.
  lemma ObserverOrder(actions: seq<Action>, id: nat)
    requires Runs(Start, actions) && id in After(Start, actions).observers
    ensures var w := After(Start, actions); var o := w.observers[id];
            && Rising(o.reported) && OnlyLastClosed(o.reported)
            && (o.finished <==> o.reported != [] && o.reported[|o.reported|-1].state == Closed)
            && (o.reported != [] && o.seen == w.pub.version ==> o.reported[|o.reported|-1] == w.pub.status)
            && (w.pc == Finished && !o.first && !o.finished ==> Can(w, Watch(ObserveChanged(id))))
  {
    RunSafe(actions);
  }

  // Before the first connection, retry k waits min(250 * 2^k, 30000) ms.
  lemma FirstConnectionSchedule(actions: seq<Action>, k: nat)
    requires Runs(Start, actions) && After(Start, actions).link.generation == 0
    requires k < |After(Start, actions).retry.waits|
    ensures After(Start, actions).retry.waits[k] == Min(250 * Pow2(k), 30000)
  {
    RunSafe(actions);
  }

  // After it, every retry waits 250 ms, whatever the backoff had grown to.
  lemma RecoverySchedule(actions: seq<Action>, a: Action)
    requires Runs(Start, actions) && Can(After(Start, actions), a)
    requires After(Start, actions).link.generation > 0
    ensures var w := After(Start, actions);
            Next(w, a).retry.waits == w.retry.waits || Next(w, a).retry.waits == w.retry.waits + [250]
  {
    hide Can, Next;
    RunSafe(actions);
    WaitsStep(After(Start, actions), a);
  }

  lemma WaitsStep(w: World, a: Action)
    requires RetryInv(w) && Can(w, a) && w.link.generation > 0
    ensures Next(w, a).retry.waits == w.retry.waits || Next(w, a).retry.waits == w.retry.waits + [250]
  {
    hide DriverCan, DriverNext, DropCan, DropNext, WatchCan, WatchNext, Scheduled, BackoffIs;
    match a {
      case Driver(d) => DriverFrame(w, d);
      case Drop(d) => DropFrame(w, d);
      case Watch(o) => WatchFrame(w, o);
      case Peer(_) =>
    }
  }
}
