// What every run of the native client keeps, whatever the interleaving of
// starts, closes, completions and drops.

module RegistrySafety {
  import opened Bytes
  import Session
  import opened Registry

  // ----- one attachment -----

  predicate Serving(t: Task) { t == SettingUp || t == Mirroring || t == Selecting }

  predicate Settled(c: Attachment) { c.task == Unregistering || c.task == Done }

  // The peer's Closed was copied, and the failure it means is not yet shown.
  predicate MirrorsClosed(t: Task) { (t.Leaving? || t.Reporting?) && t.failure.Some? }

  // No later status can replace this one.
  predicate Final(c: Attachment) { c.shown.state == Session.Closed && !Unfinished(c.task) }

  predicate AttachmentInv(c: Attachment) {
    && (c.answer == SentErr ==> !Unfinished(c.task))
    && (c.caller == Gone && Unfinished(c.task) ==> c.cancelled)
    && (c.task.Reporting? || c.task.Marking? || c.task.Cleaning? ==> c.cancelled)
    && (Settled(c) ==> c.shown.state == Session.Closed)
    && (Serving(c.task) || c.task.Leaving? || c.task.Reporting? ==> c.shown.terminal == None)
    && (c.task.Marking? || c.task.Cleaning? ==> c.shown.terminal == c.task.failure)
    && (c.shown.state == Session.Closed && Unfinished(c.task) ==> MirrorsClosed(c.task))
  }

  // What lasts in one attachment.
  predicate Lasts(c: Attachment, d: Attachment) {
    && d.id == c.id
    && (c.cancelled ==> d.cancelled)
    && c.shown.revision <= d.shown.revision
    && (c.shown.revision == d.shown.revision ==> c.shown == d.shown)
    && (c.shown.terminal.Some? ==> d.shown.terminal.Some?)
    && (Final(c) ==> Final(d) && d.shown == c.shown)
  }

  lemma AttachmentStep(c: Attachment, s: Step)
    requires AttachmentInv(c) && Can(c, s)
    ensures AttachmentInv(Next(c, s)) && Lasts(c, Next(c, s)) && (Next(c, s).task == Done <==> c.task == Done)
  {
  }

  // A terminal error is replaced by exactly one step: the completion of a task that
  // was aborted before it showed Closed, and then by TaskFailed.
  lemma TerminalReplacedIff(c: Attachment, s: Step)
    requires AttachmentInv(c) && Can(c, s) && c.shown.terminal.Some?
    ensures Next(c, s).shown.terminal != c.shown.terminal <==>
            s == Complete && c.shown.state != Session.Closed && c.shown.terminal != Some(TaskFailed)
    ensures Next(c, s).shown.terminal != c.shown.terminal ==> Next(c, s).shown.terminal == Some(TaskFailed)
  {
  }

  // An attachment may show Closed and then Failed. That happens from exactly
  // the states that show a mirrored Closed: everywhere else Closed is final.
  lemma ClosedIsFinalIff(c: Attachment)
    requires AttachmentInv(c) && c.shown.state == Session.Closed
    ensures Final(c) <==> !MirrorsClosed(c.task)
    ensures MirrorsClosed(c.task) ==>
              exists d :: Reaches(c, d) && d.shown.state == Session.Failed && d.shown.terminal == c.task.failure
    ensures Final(c) ==> forall s :: Can(c, s) ==> Final(Next(c, s)) && Next(c, s).shown == c.shown
  {
    if c.task.Leaving? && c.task.failure.Some? {
      var d := Next(Next(c, CancelSelf), Report);
      assert Reaches(c, d);
    } else if c.task.Reporting? && c.task.failure.Some? {
      assert Reaches(c, Next(c, Report));
    }
  }

  // By its own task's steps, at most two of them.
  predicate Reaches(c: Attachment, d: Attachment) {
    || (Can(c, Report) && d == Next(c, Report))
    || (Can(c, CancelSelf) && Can(Next(c, CancelSelf), Report) && d == Next(Next(c, CancelSelf), Report))
  }

  // ----- the registry -----

  // Ids are positions in the order of registration.
  predicate Known(w: Client, key: nat) {
    && key in w.controls
    && 1 <= w.controls[key].id <= |w.issued|
    && w.issued[w.controls[key].id - 1] == key
    && AttachmentInv(w.controls[key])
  }

  predicate Issued(w: Client, i: nat) {
    i < |w.issued| && w.issued[i] in w.controls && w.controls[w.issued[i]].id == i + 1
  }

  predicate Order(w: Client) {
    && (forall i: nat :: i < |w.issued| ==> Issued(w, i))
    && (forall key :: key in w.controls ==> Known(w, key))
  }

  predicate Listed(w: Client, id: nat) {
    && id in w.book.attachments
    && w.book.attachments[id] in w.controls
    && w.controls[w.book.attachments[id]].id == id
  }

  // An attachment is listed exactly until its completion has run; after the
  // client is dropped, whatever still runs is cancelled.
  predicate Tracked(w: Client, key: nat)
    requires key in w.controls
  {
    var c := w.controls[key];
    if w.alive then c.task != Done <==> c.id in w.book.attachments else c.cancelled || c.task == Done
  }

  predicate Listing(w: Client) {
    && w.book.next == |w.issued|
    && (forall id :: id in w.book.attachments ==> Listed(w, id))
    && (forall key :: key in w.controls ==> Tracked(w, key))
  }

  predicate BookInv(w: Client) { Order(w) && Listing(w) }

  predicate AllCancelled(w: Client) {
    forall id :: id in w.book.attachments ==>
      w.book.attachments[id] in w.controls && w.controls[w.book.attachments[id]].cancelled
  }

  predicate Covers(w: Client, closer: Closer) {
    match closer
    case Cancelling(snapshot, left) =>
      && left <= snapshot <= w.controls.Keys
      && (forall id :: id in w.book.attachments ==>
            && w.book.attachments[id] in w.controls
            && (w.controls[w.book.attachments[id]].cancelled || w.book.attachments[id] in left))
    case Awaiting(left, _) => left <= w.controls.Keys && AllCancelled(w)
    case Returned(_) => AllCancelled(w)
    case Abandoned => AllCancelled(w)
  }

  predicate ClosersInv(w: Client) {
    forall who :: who in w.closers ==> w.book.closed && Covers(w, w.closers[who])
  }

  predicate ResultsInv(w: Client) {
    forall i :: 0 <= i < |w.results| && w.results[i].Some? ==> w.results[i] == w.book.closeError
  }

  // What lasts in the client.
  predicate Kept(w: Client, v: Client) {
    forall key :: key in w.controls ==> key in v.controls && Lasts(w.controls[key], v.controls[key])
  }

  predicate Later(w: Client, v: Client) {
    && (w.book.closed ==> v.book.closed && v.issued == w.issued)
    && w.issued <= v.issued
    && w.results <= v.results
    && (w.book.closeError.Some? ==> v.book.closeError == w.book.closeError)
    && Kept(w, v)
  }

  // ----- steps -----

  // Only the control under `key` changes, to `c`.
  predicate Touches(w: Client, v: Client, key: nat, c: Attachment) {
    && key in w.controls
    && v.controls == w.controls[key := c]
    && v.issued == w.issued && v.alive == w.alive
    && Lasts(w.controls[key], c) && AttachmentInv(c)
  }

  lemma TouchOrder(w: Client, v: Client, key: nat, c: Attachment)
    requires Order(w) && Touches(w, v, key, c)
    ensures Order(v) && Kept(w, v)
  {
    hide AttachmentInv;
    forall k | k in v.controls ensures Known(v, k) {
      assert Known(w, k);
    }
    forall i: nat | i < |v.issued| ensures Issued(v, i) {
      assert Issued(w, i);
    }
  }

  lemma TouchListing(w: Client, v: Client, key: nat, c: Attachment)
    requires Listing(w) && Touches(w, v, key, c)
    requires v.book.attachments == w.book.attachments && v.book.next == w.book.next
    requires c.task == Done <==> w.controls[key].task == Done
    ensures Listing(v)
  {
    hide AttachmentInv, Order;
    forall k | k in v.controls ensures Tracked(v, k) {
      assert Tracked(w, k);
    }
    forall id | id in v.book.attachments ensures Listed(v, id) {
      assert Listed(w, id);
    }
  }

  lemma StepOn(w: Client, key: nat, step: Step)
    requires BookInv(w) && ClientCan(w, On(key, step))
    ensures BookInv(ClientNext(w, On(key, step))) && Later(w, ClientNext(w, On(key, step)))
  {
    assert Known(w, key);
    AttachmentStep(w.controls[key], step);
    hide Next, AttachmentInv, Order, Listing, Kept, Lasts;
    var c := Next(w.controls[key], step);
    TouchOrder(w, ClientNext(w, On(key, step)), key, c);
    TouchListing(w, ClientNext(w, On(key, step)), key, c);
  }

  lemma CancelledAlike(c: Attachment)
    requires AttachmentInv(c)
    ensures AttachmentInv(c.(cancelled := true)) && Lasts(c, c.(cancelled := true))
  {
  }

  lemma StepCancel(w: Client, who: nat, key: nat)
    requires BookInv(w) && ClientCan(w, CancelOne(who, key))
    ensures BookInv(ClientNext(w, CancelOne(who, key))) && Later(w, ClientNext(w, CancelOne(who, key)))
  {
    hide AttachmentInv, Listing, Kept, Lasts;
    assert Known(w, key);
    hide Order;
    var c := w.controls[key].(cancelled := true);
    CancelledAlike(w.controls[key]);
    TouchOrder(w, ClientNext(w, CancelOne(who, key)), key, c);
    TouchListing(w, ClientNext(w, CancelOne(who, key)), key, c);
  }

  lemma FreshInv(id: nat)
    ensures AttachmentInv(Fresh(id)) && Fresh(id).task == SettingUp && Fresh(id).id == id
  {
  }

  lemma StartOrder(w: Client, v: Client, key: nat)
    requires Order(w) && key !in w.controls
    requires v.controls == w.controls[key := Fresh(|w.issued| + 1)] && v.issued == w.issued + [key]
    ensures Order(v) && Kept(w, v)
  {
    hide AttachmentInv;
    FreshInv(|w.issued| + 1);
    forall k | k in v.controls ensures Known(v, k) {
      assert k != key ==> Known(w, k);
    }
    forall i: nat | i < |v.issued| ensures Issued(v, i) {
      assert i < |w.issued| ==> Issued(w, i);
    }
  }

  lemma StartListing(w: Client, key: nat)
    requires BookInv(w) && ClientCan(w, Start(key)) && !w.book.closed
    ensures Listing(ClientNext(w, Start(key)))
  {
    hide AttachmentInv;
    FreshInv(w.book.next + 1);
    var v := ClientNext(w, Start(key));
    forall k | k in v.controls ensures Tracked(v, k) {
      assert k != key ==> Known(w, k) && Tracked(w, k);
    }
    hide Order;
    forall id | id in v.book.attachments ensures Listed(v, id) {
      assert id != w.book.next + 1 ==> Listed(w, id);
    }
  }

  lemma AllKept(w: Client, v: Client)
    requires v.controls == w.controls
    ensures Kept(w, v)
  {
  }

  lemma StepStart(w: Client, key: nat)
    requires BookInv(w) && ClientCan(w, Start(key))
    ensures BookInv(ClientNext(w, Start(key))) && Later(w, ClientNext(w, Start(key)))
  {
    hide Order, Kept, AttachmentInv;
    if w.book.closed {
      AllKept(w, w);
    } else {
      StartListing(w, key);
      StartOrder(w, ClientNext(w, Start(key)), key);
    }
  }

  lemma UnregisterListing(w: Client, key: nat)
    requires BookInv(w) && ClientCan(w, Unregister(key))
    ensures Listing(ClientNext(w, Unregister(key)))
  {
    hide AttachmentInv;
    var v := ClientNext(w, Unregister(key));
    assert Known(w, key) && Tracked(w, key);
    forall k | k in v.controls ensures Tracked(v, k) {
      assert Known(w, k) && Tracked(w, k);
    }
    hide Order;
    forall id | id in v.book.attachments ensures Listed(v, id) {
      assert Listed(w, id);
    }
  }

  lemma StepUnregister(w: Client, key: nat)
    requires BookInv(w) && ClientCan(w, Unregister(key))
    ensures BookInv(ClientNext(w, Unregister(key))) && Later(w, ClientNext(w, Unregister(key)))
  {
    assert Known(w, key);
    UnregisterListing(w, key);
    hide Order, Kept, Listing;
    TouchOrder(w, ClientNext(w, Unregister(key)), key, w.controls[key].(task := Done));
  }

  lemma StepDrop(w: Client)
    requires BookInv(w) && ClientCan(w, DropClient)
    ensures BookInv(ClientNext(w, DropClient)) && Later(w, ClientNext(w, DropClient))
  {
    hide AttachmentInv;
    var v := ClientNext(w, DropClient);
    forall k | k in v.controls ensures Known(v, k) && Tracked(v, k) {
      assert Known(w, k) && Tracked(w, k);
      CancelledAlike(w.controls[k]);
      if w.controls[k].task != Done {
        assert Listed(w, w.controls[k].id) && Known(w, w.book.attachments[w.controls[k].id]);
      }
    }
    forall id | id in v.book.attachments ensures Listed(v, id) {
      assert Listed(w, id);
    }
    forall i: nat | i < |v.issued| ensures Issued(v, i) {
      assert Issued(w, i);
    }
  }

  // The other actions leave the controls and the list alone.
  predicate Elsewhere(a: Action) {
    !a.Start? && !a.On? && !a.Unregister? && !a.DropClient? && !a.CancelOne?
  }

  lemma ElsewhereFrame(w: Client, a: Action)
    requires ClientCan(w, a) && Elsewhere(a)
    ensures var v := ClientNext(w, a);
            && v.controls == w.controls && v.issued == w.issued && v.alive == w.alive
            && v.book.attachments == w.book.attachments && v.book.next == w.book.next
            && (w.book.closed ==> v.book.closed) && w.results <= v.results
            && (w.book.closeError.Some? ==> v.book.closeError == w.book.closeError)
  {
  }

  lemma StepElsewhere(w: Client, a: Action)
    requires BookInv(w) && ClientCan(w, a) && Elsewhere(a)
    ensures BookInv(ClientNext(w, a)) && Later(w, ClientNext(w, a))
  {
    hide AttachmentInv, ClientNext, ClientCan;
    var v := ClientNext(w, a);
    ElsewhereFrame(w, a);
    AllKept(w, v);
    hide Kept;
    forall k | k in v.controls ensures Known(v, k) && Tracked(v, k) { assert Known(w, k) && Tracked(w, k); }
    forall id | id in v.book.attachments ensures Listed(v, id) { assert Listed(w, id); }
    forall i: nat | i < |v.issued| ensures Issued(v, i) { assert Issued(w, i); }
  }

  lemma BookStep(w: Client, a: Action)
    requires BookInv(w) && ClientCan(w, a)
    ensures BookInv(ClientNext(w, a)) && Later(w, ClientNext(w, a))
  {
    hide BookInv, Later, ClientNext, ClientCan;
    match a {
      case Start(key) => StepStart(w, key);
      case On(key, step) => StepOn(w, key, step);
      case Unregister(key) => StepUnregister(w, key);
      case DropClient => StepDrop(w);
      case CancelOne(who, key) => StepCancel(w, who, key);
      case _ => StepElsewhere(w, a);
    }
  }

  // ----- closers -----

  predicate Shrunk(w: Client, v: Client) {
    forall id :: id in v.book.attachments ==>
      id in w.book.attachments && v.book.attachments[id] == w.book.attachments[id]
  }

  lemma ClosedOnlyShrinks(w: Client, a: Action)
    requires ClientCan(w, a) && w.book.closed
    ensures Shrunk(w, ClientNext(w, a))
  {
    hide Next, Can;
  }

  lemma CoversKept(w: Client, v: Client, closer: Closer)
    requires Covers(w, closer) && Kept(w, v) && Shrunk(w, v)
    ensures Covers(v, closer)
  {
  }

  // The entry `who` of the closers is the only one that may change.
  lemma OthersCovered(w: Client, a: Action, who: nat)
    requires BookInv(w) && ClosersInv(w) && ClientCan(w, a)
    requires who in w.closers && who in ClientNext(w, a).closers && ClientNext(w, a).closers[who] == w.closers[who]
    ensures ClientNext(w, a).book.closed && Covers(ClientNext(w, a), w.closers[who])
  {
    hide BookInv, Covers, Kept, ClientCan, ClientNext;
    BookStep(w, a);
    ClosedOnlyShrinks(w, a);
    CoversKept(w, ClientNext(w, a), w.closers[who]);
  }

  lemma LoopCovers(w: Client, who: nat, key: nat)
    requires BookInv(w) && ClosersInv(w) && ClientCan(w, CancelOne(who, key))
    ensures Covers(ClientNext(w, CancelOne(who, key)), ClientNext(w, CancelOne(who, key)).closers[who])
  {
    hide BookInv;
    assert Covers(w, w.closers[who]);
  }

  lemma CallCovers(w: Client, who: nat)
    requires BookInv(w) && ClientCan(w, CloseCall(who))
    ensures Covers(ClientNext(w, CloseCall(who)), ClientNext(w, CloseCall(who)).closers[who])
  {
    hide Order;
    forall id | id in w.book.attachments ensures w.book.attachments[id] in w.controls {
      assert Listed(w, id);
    }
    forall key | key in w.book.attachments.Values ensures key in w.controls {
      var id :| id in w.book.attachments && w.book.attachments[id] == key;
    }
  }

  lemma OwnCovered(w: Client, a: Action, who: nat)
    requires BookInv(w) && ClosersInv(w) && ClientCan(w, a)
    requires who in ClientNext(w, a).closers && (who !in w.closers || ClientNext(w, a).closers[who] != w.closers[who])
    ensures ClientNext(w, a).book.closed && Covers(ClientNext(w, a), ClientNext(w, a).closers[who])
  {
    hide BookInv, Next, Can;
    match a {
      case CloseCall(_) => CallCovers(w, who);
      case CancelOne(_, key) => LoopCovers(w, who, key);
      case LoopDone(_) => assert Covers(w, w.closers[who]);
      case SeeClosed(_, _) => assert Covers(w, w.closers[who]);
      case GiveUp(_, _) => assert Covers(w, w.closers[who]);
      case GiveUpAll(_) => assert Covers(w, w.closers[who]);
      case CloseReturns(_) => assert Covers(w, w.closers[who]);
      case CloseAbandoned(_) => assert Covers(w, w.closers[who]);
      case _ =>
    }
  }

  lemma ClosersStep(w: Client, a: Action)
    requires BookInv(w) && ClosersInv(w) && ClientCan(w, a)
    ensures ClosersInv(ClientNext(w, a))
  {
    hide BookInv, Covers, ClientCan, ClientNext;
    var v := ClientNext(w, a);
    forall who | who in v.closers ensures v.book.closed && Covers(v, v.closers[who]) {
      if who in w.closers && v.closers[who] == w.closers[who] {
        OthersCovered(w, a, who);
      } else {
        OwnCovered(w, a, who);
      }
    }
  }

  // ----- results -----

  lemma ResultsStep(w: Client, a: Action)
    requires ResultsInv(w) && ClientCan(w, a)
    ensures ResultsInv(ClientNext(w, a))
    ensures ClientNext(w, a).results == w.results
         || (ClientNext(w, a).results == w.results + [ClientNext(w, a).book.closeError]
             && (w.book.closeError.Some? ==> ClientNext(w, a).book.closeError == w.book.closeError))
  {
    hide Next, Can;
  }

  // Every error a close() returned is the one every later close() returns.
  predicate Agreed(results: seq<Option<Error>>) {
    forall i, j :: 0 <= i < j < |results| && results[i].Some? ==> results[j] == results[i]
  }

  // ----- runs -----

  predicate Inv(w: Client) { BookInv(w) && ClosersInv(w) && ResultsInv(w) && Agreed(w.results) }

  lemma BeginInv()
    ensures Inv(Begin)
  {
  }

  lemma InvStep(w: Client, a: Action)
    requires Inv(w) && ClientCan(w, a)
    ensures Inv(ClientNext(w, a)) && Later(w, ClientNext(w, a))
  {
    hide BookInv, ClosersInv, ClientCan, ClientNext, Later;
    BookStep(w, a);
    ClosersStep(w, a);
    ResultsStep(w, a);
  }

  lemma {:induction false} RunInv(actions: seq<Action>)
    requires Runs(actions)
    ensures Inv(After(actions))
    decreases |actions|
  {
    hide Inv, ClientCan, ClientNext;
    if actions == [] {
      BeginInv();
    } else {
      RunInv(actions[..|actions|-1]);
      InvStep(After(actions[..|actions|-1]), actions[|actions|-1]);
    }
  }

  lemma LaterSelf(w: Client)
    ensures Later(w, w)
  {
  }

  lemma LaterLater(u: Client, v: Client, w: Client)
    requires Later(u, v) && Later(v, w)
    ensures Later(u, w)
  {
    forall key | key in u.controls ensures key in w.controls && Lasts(u.controls[key], w.controls[key]) {
      assert Lasts(u.controls[key], v.controls[key]) && Lasts(v.controls[key], w.controls[key]);
    }
  }

  // Everything `Later` says relates any two states of a run.
  lemma {:induction false} RunLater(actions: seq<Action>, n: nat)
    requires Runs(actions) && n <= |actions|
    ensures Runs(actions[..n]) && Later(After(actions[..n]), After(actions))
    decreases |actions|
  {
    hide Later, ClientCan, ClientNext;
    if n == |actions| {
      assert actions[..n] == actions;
      LaterSelf(After(actions));
    } else {
      var before := actions[..|actions|-1];
      assert before[..n] == actions[..n];
      RunLater(before, n);
      RunInv(before);
      InvStep(After(before), actions[|actions|-1]);
      LaterLater(After(actions[..n]), After(before), After(actions));
    }
  }

  // ----- the theorems -----

  lemma OneIdEach(w: Client, a: nat, b: nat)
    requires BookInv(w) && a in w.controls && b in w.controls
    ensures w.controls[a].id == w.controls[b].id ==> a == b
    ensures 1 <= w.controls[a].id <= w.book.next
    ensures w.controls[a].id in w.book.attachments ==> w.book.attachments[w.controls[a].id] == a
    ensures Tracked(w, a)
  {
    hide AttachmentInv;
    assert Known(w, a) && Known(w, b);
    var id := w.controls[a].id;
    if id in w.book.attachments {
      assert Listed(w, id) && Known(w, w.book.attachments[id]);
    }
  }

  // No two attachments ever registered share an id, and the list holds exactly
  // the attachments whose completion has not run.
  lemma IdsAreNeverReused(actions: seq<Action>, a: nat, b: nat)
    requires Runs(actions) && a in After(actions).controls && b in After(actions).controls
    ensures var w := After(actions);
            && (w.controls[a].id == w.controls[b].id ==> a == b)
            && 1 <= w.controls[a].id <= w.book.next
            && (w.alive ==> (w.controls[a].task != Done <==> w.controls[a].id in w.book.attachments))
            && (w.controls[a].id in w.book.attachments ==> w.book.attachments[w.controls[a].id] == a)
  {
    RunInv(actions);
    hide Runs, After, ClosersInv, BookInv;
    OneIdEach(After(actions), a, b);
  }

  // Once the client is closed, no start registers anything, and an error that
  // a close reported, or that an attachment shows, is there to stay.
  lemma NothingRegisteredAfterClose(actions: seq<Action>, n: nat)
    requires Runs(actions) && n <= |actions|
    ensures Runs(actions[..n])
    ensures After(actions[..n]).book.closed ==>
              After(actions).book.closed && After(actions).controls.Keys == After(actions[..n]).controls.Keys
    ensures After(actions[..n]).book.closeError.Some? ==>
              After(actions).book.closeError == After(actions[..n]).book.closeError
    ensures Kept(After(actions[..n]), After(actions))
  {
    RunLater(actions, n);
    RunInv(actions);
    RunInv(actions[..n]);
    var u, w := After(actions[..n]), After(actions);
    hide Runs, After, AttachmentInv, ClosersInv;
    if u.book.closed {
      forall key | key in w.controls ensures key in u.controls {
        assert Known(w, key) && Issued(u, w.controls[key].id - 1);
      }
    }
  }

  // From the end of any close call's cancel loop on, every attachment ever
  // registered is cancelled or has completed.
  lemma CloseCancelsEverything(actions: seq<Action>, who: nat, key: nat)
    requires Runs(actions) && who in After(actions).closers && !After(actions).closers[who].Cancelling?
    requires key in After(actions).controls
    ensures After(actions).controls[key].cancelled || After(actions).controls[key].task == Done
    ensures After(actions).book.closed && AllCancelled(After(actions))
  {
    RunInv(actions);
    var w := After(actions);
    hide Runs, After, AttachmentInv;
    assert Covers(w, w.closers[who]);
    hide BookInv;
    OneIdEach(w, key, key);
  }

  // All close calls after one that returned an error return that error.
  lemma CloseErrorsAgree(actions: seq<Action>, i: nat, j: nat)
    requires Runs(actions) && i < j < |After(actions).results| && After(actions).results[i].Some?
    ensures After(actions).results[j] == After(actions).results[i] == After(actions).book.closeError
  {
    RunInv(actions);
  }

  // An error the registry holds is what every later close returns.
  lemma {:induction false} HeldErrorIsReturned(actions: seq<Action>, n: nat, j: nat)
    requires Runs(actions) && n <= |actions| && Runs(actions[..n]) && After(actions[..n]).book.closeError.Some?
    requires |After(actions[..n]).results| <= j < |After(actions).results|
    ensures After(actions).results[j] == After(actions[..n]).book.closeError
    decreases |actions|
  {
    hide ClientCan, ClientNext, Inv, Later, Kept;
    Shorter(actions, n, j);
    var before := actions[..|actions|-1];
    assert before[..n] == actions[..n];
    if j < |After(before).results| {
      HeldErrorIsReturned(before, n, j);
      RunLater(actions, |actions| - 1);
      SamePrefix(After(before), After(actions), j);
    } else {
      RunInv(before);
      HeldBefore(before, n);
      ReturnedNow(After(before), actions[|actions|-1], j);
    }
  }

  // Something was returned in between, so that something was done.
  lemma Shorter(actions: seq<Action>, n: nat, j: nat)
    requires Runs(actions) && n <= |actions| && Runs(actions[..n])
    requires |After(actions[..n]).results| <= j < |After(actions).results|
    ensures n < |actions|
  {
    assert actions[..|actions|] == actions;
  }

  lemma SamePrefix(w: Client, v: Client, j: nat)
    requires Later(w, v) && j < |w.results|
    ensures j < |v.results| && v.results[j] == w.results[j]
  {
  }

  lemma HeldBefore(actions: seq<Action>, n: nat)
    requires Runs(actions) && n <= |actions| && Runs(actions[..n]) && After(actions[..n]).book.closeError.Some?
    ensures After(actions).book.closeError == After(actions[..n]).book.closeError
  {
    hide Runs, After, Kept;
    RunLater(actions, n);
  }

  lemma ReturnedNow(w: Client, a: Action, j: nat)
    requires Inv(w) && ClientCan(w, a) && w.book.closeError.Some?
    requires |w.results| <= j < |ClientNext(w, a).results|
    ensures ClientNext(w, a).results[j] == w.book.closeError
  {
    hide BookInv, ClosersInv, ClientCan, ClientNext, Agreed;
    ResultsStep(w, a);
  }

  // An attachment that completes with an error after the client was closed makes
  // every later close return an error: the first one known.
  lemma FailuresReachLaterCloses(actions: seq<Action>, n: nat, j: nat)
    requires Runs(actions) && n < |actions| && actions[n].Unregister? && Runs(actions[..n])
    requires var w := After(actions[..n]);
             && w.alive && w.book.closed
             && actions[n].key in w.controls && w.controls[actions[n].key].shown.terminal.Some?
    requires Runs(actions[..n + 1]) && |After(actions[..n + 1]).results| <= j < |After(actions).results|
    ensures After(actions).results[j] ==
            Keep(After(actions[..n]).book.closeError, After(actions[..n]).controls[actions[n].key].shown.terminal)
  {
    assert actions[..n + 1][..n] == actions[..n];
    CompletionHolds(After(actions[..n]), actions[n].key);
    hide ClientCan, ClientNext;
    HeldErrorIsReturned(actions, n + 1, j);
  }

  lemma CompletionHolds(w: Client, key: nat)
    requires ClientCan(w, Unregister(key)) && w.alive && w.book.closed && w.controls[key].shown.terminal.Some?
    ensures ClientNext(w, Unregister(key)).book.closeError == Keep(w.book.closeError, w.controls[key].shown.terminal)
  {
  }

  // No attachment runs on without an owner: while one is neither cancelled nor
  // past its supervising loop, its starter or holder and the client are there.
  lemma NoOrphans(actions: seq<Action>, key: nat)
    requires Runs(actions) && key in After(actions).controls
    requires Serving(After(actions).controls[key].task) && !After(actions).controls[key].cancelled
    ensures After(actions).controls[key].caller != Gone && After(actions).alive
  {
    RunInv(actions);
    var w := After(actions);
    hide Runs, After, ClosersInv;
    assert Known(w, key) && Tracked(w, key);
  }

  // ----- runs one might not expect -----

  lemma Grow(actions: seq<Action>, a: Action) returns (more: seq<Action>)
    requires Runs(actions) && ClientCan(After(actions), a)
    ensures more == actions + [a] && Runs(more) && After(more) == ClientNext(After(actions), a)
  {
    hide ClientCan, ClientNext;
    more := actions + [a];
    assert more[..|more|-1] == actions;
  }

  lemma Nothing() returns (none: seq<Action>)
    ensures none == [] && Runs(none) && After(none) == Begin
  {
    none := [];
  }

  // One more step of the only attachment.
  lemma GrowOn(actions: seq<Action>, c: Attachment, s: Step) returns (more: seq<Action>, d: Attachment)
    requires Runs(actions) && After(actions).controls == map[0 := c] && Can(c, s)
    ensures more == actions + [On(0, s)] && Runs(more)
    ensures d == Next(c, s) && After(more).controls == map[0 := d]
  {
    hide Runs, After, Can, Next;
    more := Grow(actions, On(0, s));
    d := Next(c, s);
    assert map[0 := c][0 := d] == map[0 := d];
  }

  lemma Started() returns (run: seq<Action>)
    ensures run == [Start(0)] && Runs(run) && After(run).controls == map[0 := Fresh(1)]
  {
    hide Runs, After;
    run := Nothing();
    run := Grow(run, Start(0));
  }

  // The peer session ends and the attachment copies its Closed; it leaves its loop
  // and reports the failure; and its task is aborted while it cleans up.
  function UntilClosed(e: Error): seq<Action> {
    [Start(0)] + [On(0, SetupDone(true))] + [On(0, Mirror(Session.Closed, e))]
  }

  function UntilFailed(e: Error): seq<Action> {
    UntilClosed(e) + [On(0, CancelSelf)] + [On(0, Report)]
  }

  function UntilReplaced(e: Error): seq<Action> {
    UntilFailed(e) + [On(0, Abort)] + [On(0, Complete)]
  }

  lemma Mirrored(e: Error) returns (c: Attachment)
    ensures Runs(UntilClosed(e)) && After(UntilClosed(e)).controls == map[0 := c]
    ensures c.shown.state == Session.Closed && c.task == Leaving(Some(e))
  {
    hide Runs, After;
    var run := Started();
    run, c := GrowOn(run, Fresh(1), SetupDone(true));
    run, c := GrowOn(run, c, Mirror(Session.Closed, e));
  }

  // The attachment shows Closed, and then Failed with the error, whose place
  // TaskFailed takes in the end.
  lemma ClosedThenFailed(e: Error)
    ensures Runs(UntilClosed(e)) && 0 in After(UntilClosed(e)).controls
    ensures After(UntilClosed(e)).controls[0].shown.state == Session.Closed
    ensures Runs(UntilFailed(e)) && 0 in After(UntilFailed(e)).controls
    ensures After(UntilFailed(e)).controls[0].shown.state == Session.Failed
    ensures After(UntilFailed(e)).controls[0].shown.terminal == Some(e)
    ensures Runs(UntilReplaced(e)) && 0 in After(UntilReplaced(e)).controls
    ensures After(UntilReplaced(e)).controls[0].shown.terminal == Some(TaskFailed)
  {
    hide Runs, After, UntilClosed;
    var c := Mirrored(e);
    var run;
    run, c := GrowOn(UntilClosed(e), c, CancelSelf);
    run, c := GrowOn(run, c, Report);
    run, c := GrowOn(run, c, Abort);
    run, c := GrowOn(run, c, Complete);
  }
}
