// What a close call returns and an attachment ends with, read off the history of
// the run (crates/locho-client-native/src/client.rs).

module RegistryHistory {
  import opened Bytes
  import Session
  import opened Registry
  import opened RegistrySafety

  // ----- close calls -----

  // The first error this close call met: of an attachment it saw Closed with a
  // terminal error, or its timeout when it gave some up.
  function FirstMet(actions: seq<Action>, who: nat): Option<Error>
    requires Runs(actions)
    decreases |actions|
  {
    if actions == [] then None
    else
      var before := actions[..|actions|-1];
      var met := FirstMet(before, who);
      if met.Some? then met
      else
        match actions[|actions|-1]
        case SeeClosed(other, key) => if other == who then After(before).controls[key].shown.terminal else None
        case GiveUp(other, _) => if other == who then Some(ShutdownTimeout) else None
        case GiveUpAll(other) => if other == who then Some(ShutdownTimeout) else None
        case _ => None
  }

  // The first error the registry was told: by a close call that returned, or by an
  // attachment that completed after the client was closed.
  function FirstTold(actions: seq<Action>): Option<Error>
    requires Runs(actions)
    decreases |actions|
  {
    if actions == [] then None
    else
      var before := actions[..|actions|-1];
      var told := FirstTold(before);
      if told.Some? then told
      else
        match actions[|actions|-1]
        case CloseReturns(who) => FirstMet(before, who)
        case Unregister(key) =>
          if After(before).alive && After(before).book.closed then After(before).controls[key].shown.terminal else None
        case _ => None
  }

  // The attachments of its snapshot that a close call has not accounted for.
  function Unaccounted(actions: seq<Action>, who: nat): set<nat>
    requires Runs(actions)
    decreases |actions|
  {
    if actions == [] then {}
    else
      var before := actions[..|actions|-1];
      match actions[|actions|-1]
      case CloseCall(other) => if other == who then After(before).book.attachments.Values else Unaccounted(before, who)
      case SeeClosed(other, key) => Unaccounted(before, who) - (if other == who then {key} else {})
      case GiveUp(other, key) => Unaccounted(before, who) - (if other == who then {key} else {})
      case GiveUpAll(other) => if other == who then {} else Unaccounted(before, who)
      case _ => Unaccounted(before, who)
  }

  predicate CloserTells(w: Client, who: nat, met: Option<Error>, open: set<nat>) {
    && (who !in w.closers ==> met == None)
    && (who in w.closers && w.closers[who].Cancelling? ==> met == None && w.closers[who].snapshot == open)
    && (who in w.closers && w.closers[who].Awaiting? ==> met == w.closers[who].error && w.closers[who].left == open)
  }

  lemma CloserTellsStep(w: Client, a: Action, who: nat, met: Option<Error>, open: set<nat>)
    requires CloserTells(w, who, met, open) && ClientCan(w, a)
    ensures var met' := if met.Some? then met
                        else if a.SeeClosed? && a.who == who then w.controls[a.key].shown.terminal
                        else if (a.GiveUp? || a.GiveUpAll?) && a.who == who then Some(ShutdownTimeout) else None;
            var open' := if a.CloseCall? && a.who == who then w.book.attachments.Values
                         else if (a.SeeClosed? || a.GiveUp?) && a.who == who then open - {a.key}
                         else if a.GiveUpAll? && a.who == who then {} else open;
            CloserTells(ClientNext(w, a), who, met', open')
  {
    hide Can, Next, Enrol, Shut, Settle, Strike;
  }

  lemma {:induction false} RunCloser(actions: seq<Action>, who: nat)
    requires Runs(actions)
    ensures CloserTells(After(actions), who, FirstMet(actions, who), Unaccounted(actions, who))
    decreases |actions|
  {
    hide ClientCan, ClientNext, CloserTells;
    if actions == [] {
      NoCloser(who);
    } else {
      var before, a := actions[..|actions|-1], actions[|actions|-1];
      RunCloser(before, who);
      CloserTellsStep(After(before), a, who, FirstMet(before, who), Unaccounted(before, who));
      assert Unaccounted(before, who) - {} == Unaccounted(before, who);
    }
  }

  lemma NoCloser(who: nat)
    ensures CloserTells(Begin, who, None, {})
  {
  }

  lemma TellStep(w: Client, a: Action)
    requires ClientCan(w, a)
    ensures ClientNext(w, a).book.closeError ==
            if a.CloseReturns? then Keep(w.book.closeError, w.closers[a.who].error)
            else if a.Unregister? && w.alive && w.book.closed
            then Keep(w.book.closeError, w.controls[a.key].shown.terminal)
            else w.book.closeError
  {
    hide Can, Next;
  }

  lemma {:induction false} RunTold(actions: seq<Action>)
    requires Runs(actions)
    ensures After(actions).book.closeError == FirstTold(actions)
    decreases |actions|
  {
    hide ClientNext, FirstMet;
    if actions != [] {
      var before, a := actions[..|actions|-1], actions[|actions|-1];
      RunTold(before);
      TellStep(After(before), a);
      if a.CloseReturns? {
        RunCloser(before, a.who);
      }
    }
  }

  // A close call returns the error the registry was told first, or else the first
  // it met itself: an error exactly if there is one.
  lemma CloseReturnsFirstError(actions: seq<Action>, who: nat)
    requires Runs(actions) && ClientCan(After(actions), CloseReturns(who))
    ensures var v := ClientNext(After(actions), CloseReturns(who));
            var result := Keep(FirstTold(actions), FirstMet(actions, who));
            && v.closers[who] == Returned(result) && v.results == After(actions).results + [result]
            && (result == None <==> FirstTold(actions) == None && FirstMet(actions, who) == None)
  {
    RunTold(actions);
    RunCloser(actions, who);
    hide Runs, After, FirstTold, FirstMet, Unaccounted;
  }

  // And it returns only when it saw each attachment of its snapshot Closed, or gave
  // it up, at a step between.
  lemma {:induction false} Accounted(actions: seq<Action>, i: nat, who: nat, key: nat) returns (j: nat)
    requires Runs(actions) && i < |actions| && actions[i] == CloseCall(who) && Runs(actions[..i])
    requires key in After(actions[..i]).book.attachments.Values && key !in Unaccounted(actions, who)
    ensures i < j < |actions|
    ensures actions[j] == SeeClosed(who, key) || actions[j] == GiveUp(who, key) || actions[j] == GiveUpAll(who)
    decreases |actions|
  {
    hide ClientNext;
    var n := |actions| - 1;
    var before := actions[..n];
    j := n;
    if i < n {
      assert before[..i] == actions[..i];
      CalledOnce(actions, i, who);
      if key !in Unaccounted(before, who) {
        j := Accounted(before, i, who, key);
      }
    }
  }

  // A close call begins once.
  lemma CalledOnce(actions: seq<Action>, i: nat, who: nat)
    requires Runs(actions) && i < |actions| - 1 && actions[i] == CloseCall(who)
    ensures actions[|actions|-1] != CloseCall(who)
  {
    hide ClientNext;
    CallerStays(actions[..|actions|-1], i, who);
  }

  lemma {:induction false} CallerStays(actions: seq<Action>, i: nat, who: nat)
    requires Runs(actions) && i < |actions| && actions[i] == CloseCall(who)
    ensures who in After(actions).closers
    decreases |actions|
  {
    hide ClientCan, ClientNext;
    var before, a := actions[..|actions|-1], actions[|actions|-1];
    CallersKept(After(before), a);
    if i < |actions| - 1 {
      CallerStays(before, i, who);
    }
  }

  lemma CallersKept(w: Client, a: Action)
    requires ClientCan(w, a)
    ensures w.closers.Keys <= ClientNext(w, a).closers.Keys
    ensures a.CloseCall? ==> a.who in ClientNext(w, a).closers
  {
    hide Can, Next;
  }

  lemma CloseWaitsForAll(actions: seq<Action>, i: nat, who: nat, key: nat) returns (j: nat)
    requires Runs(actions) && ClientCan(After(actions), CloseReturns(who))
    requires i < |actions| && actions[i] == CloseCall(who) && Runs(actions[..i])
    requires key in After(actions[..i]).book.attachments.Values
    ensures i < j < |actions|
    ensures actions[j] == SeeClosed(who, key) || actions[j] == GiveUp(who, key) || actions[j] == GiveUpAll(who)
  {
    RunCloser(actions, who);
    hide ClientNext, FirstMet, Runs, After;
    j := Accounted(actions, i, who, key);
  }

  // ----- attachments -----

  // What a step of the task makes of the failure it is to end with. Aborting the
  // task keeps only what was shown already.
  function FailureNext(c: Attachment, failure: Option<Error>, s: Step): Option<Error> {
    match s
    case SetupFails(e) => Some(e)
    case SetupCancelled => None
    case Mirror(state, e) => if state == Session.Closed then Some(e) else failure
    case SelectFails(e) => Some(e)
    case SelectDeadline => Some(StartupTimeout)
    case CleanupEnds(extra) => Keep(failure, extra)
    case Abort => c.shown.terminal
    case Complete => if c.shown.state == Session.Closed then failure else Some(TaskFailed)
    case _ => failure
  }

  // What ends up cancelling it.
  predicate Cancels(c: Attachment, s: Step) {
    s == CancelSelf || s == CallerDrops || s == CallerCancels || (s == Complete && c.shown.state != Session.Closed)
  }

  // The starter is answered once: with success when asked to at once or when the
  // peer is connected, and else with an error when the task ends.
  function AnswerNext(answer: Answer, s: Step): Answer {
    if s == SetupDone(true) || (s.Mirror? && s.state == Session.Connected && answer == NotSent) then SentOk
    else if s.SetupFails? || s == SetupCancelled || (s.CleanupEnds? && answer == NotSent) then SentErr
    else answer
  }

  datatype Story = Story(failure: Option<Error>, cancelled: bool, answer: Answer)

  function StoryOf(actions: seq<Action>, key: nat): Story
    requires Runs(actions)
    decreases |actions|
  {
    if actions == [] then Story(None, false, NotSent)
    else
      var before, a := actions[..|actions|-1], actions[|actions|-1];
      var s, w := StoryOf(before, key), After(before);
      if a.On? && a.key == key then
        var c := w.controls[key];
        Story(FailureNext(c, s.failure, a.step), s.cancelled || Cancels(c, a.step), AnswerNext(s.answer, a.step))
      else if a.CancelOne? && a.key == key then s.(cancelled := true)
      else if a == DropClient && key in w.book.attachments.Values then s.(cancelled := true)
      else s
  }

  // The failure the task carries, or what it shows once it is past carrying it.
  function Carried(c: Attachment): Option<Error> {
    if c.task.Leaving? || c.task.Reporting? || c.task.Marking? || c.task.Cleaning? then c.task.failure
    else c.shown.terminal
  }

  predicate Tells(c: Attachment, s: Story) {
    && Carried(c) == s.failure && c.cancelled == s.cancelled && c.answer == s.answer
    && (c.task == SettingUp ==> c.answer == NotSent)
  }

  lemma OnTells(c: Attachment, s: Step, t: Story)
    requires AttachmentInv(c) && Can(c, s) && Tells(c, t)
    ensures Tells(Next(c, s),
                  Story(FailureNext(c, t.failure, s), t.cancelled || Cancels(c, s), AnswerNext(t.answer, s)))
  {
  }

  predicate StoryHolds(w: Client, key: nat, t: Story) {
    if key in w.controls then Tells(w.controls[key], t) else t == Story(None, false, NotSent)
  }

  lemma {:induction false} RunStory(actions: seq<Action>, key: nat)
    requires Runs(actions)
    ensures StoryHolds(After(actions), key, StoryOf(actions, key))
    decreases |actions|
  {
    hide ClientCan, ClientNext, Tells, Inv;
    if actions != [] {
      var before, a := actions[..|actions|-1], actions[|actions|-1];
      RunStory(before, key);
      RunInv(before);
      var w := After(before);
      if a.On? && a.key == key {
        OwnStep(w, key, a.step, StoryOf(before, key));
      } else {
        OtherStep(w, a, key, StoryOf(before, key));
      }
    }
  }

  lemma OwnStep(w: Client, key: nat, s: Step, t: Story)
    requires Inv(w) && StoryHolds(w, key, t) && ClientCan(w, On(key, s))
    ensures var c := w.controls[key];
            StoryHolds(ClientNext(w, On(key, s)), key,
                       Story(FailureNext(c, t.failure, s), t.cancelled || Cancels(c, s), AnswerNext(t.answer, s)))
  {
    hide ClosersInv, ResultsInv, Listing, AttachmentInv;
    assert Known(w, key);
    hide Tells, Can, Next, FailureNext, AnswerNext, Cancels;
    OnTells(w.controls[key], s, t);
  }

  lemma OtherStep(w: Client, a: Action, key: nat, t: Story)
    requires Inv(w) && StoryHolds(w, key, t) && ClientCan(w, a) && !(a.On? && a.key == key)
    ensures StoryHolds(ClientNext(w, a), key,
                       if (a.CancelOne? && a.key == key) || (a == DropClient && key in w.book.attachments.Values)
                       then t.(cancelled := true) else t)
  {
    hide ClosersInv, ResultsInv, Order, AttachmentInv, Can, Next;
    if a == DropClient && key in w.book.attachments.Values {
      var id :| id in w.book.attachments && w.book.attachments[id] == key;
      assert Listed(w, id);
    }
  }

  // In every run an attachment that has ended shows the error its history gives, it
  // is cancelled exactly when something cancelled it, and its starter was answered
  // as its history says.
  lemma AttachmentTellsHistory(actions: seq<Action>, key: nat)
    requires Runs(actions) && key in After(actions).controls
    ensures var c := After(actions).controls[key]; var t := StoryOf(actions, key);
            && c.cancelled == t.cancelled && c.answer == t.answer
            && (c.task == Completing || Settled(c) ==> c.shown.terminal == t.failure)
            && (c.task.Leaving? || c.task.Reporting? || c.task.Marking? || c.task.Cleaning? ==>
                  c.task.failure == t.failure)
  {
    RunStory(actions, key);
    hide Runs, After, StoryOf;
  }

  // ----- how close calls and attachments go on -----

  datatype Phase = NotCalled | InLoop | InWait | Over | Left

  // How far a close call came, from its own steps.
  function PhaseOf(actions: seq<Action>, who: nat): Phase {
    if actions == [] then NotCalled
    else
      var before := PhaseOf(actions[..|actions|-1], who);
      match actions[|actions|-1]
      case CloseCall(other) => if other == who then InLoop else before
      case LoopDone(other) => if other == who then InWait else before
      case CloseReturns(other) => if other == who then Over else before
      case CloseAbandoned(other) => if other == who then Left else before
      case _ => before
  }

  function PhaseIn(w: Client, who: nat): Phase {
    if who !in w.closers then NotCalled
    else match w.closers[who]
      case Cancelling(_, _) => InLoop
      case Awaiting(_, _) => InWait
      case Returned(_) => Over
      case Abandoned => Left
  }

  lemma PhaseStep(w: Client, a: Action, who: nat)
    requires ClientCan(w, a)
    ensures PhaseIn(ClientNext(w, a), who) ==
            if a == CloseCall(who) then InLoop else if a == LoopDone(who) then InWait
            else if a == CloseReturns(who) then Over else if a == CloseAbandoned(who) then Left else PhaseIn(w, who)
  {
    hide Can, Next, Enrol, Shut, Settle, Strike;
  }

  lemma {:induction false} CloserTellsHistory(actions: seq<Action>, who: nat)
    requires Runs(actions)
    ensures PhaseIn(After(actions), who) == PhaseOf(actions, who)
    decreases |actions|
  {
    hide ClientNext;
    if actions != [] {
      CloserTellsHistory(actions[..|actions|-1], who);
      PhaseStep(After(actions[..|actions|-1]), actions[|actions|-1], who);
    }
  }

  // The branches that end an attachment's loop, and the failure each carries.
  predicate Ends(c: Attachment, s: Step) {
    && Can(c, s)
    && (s == SelectCancelled || s.SelectFails? || s == SelectDeadline || (s.Mirror? && s.state == Session.Closed))
  }

  function Carries(s: Step): Option<Error> {
    match s
    case SelectFails(e) => Some(e)
    case Mirror(_, e) => Some(e)
    case SelectDeadline => Some(StartupTimeout)
    case _ => None
  }

  // Each step the task takes from there is possible at once. It cancels, reports
  // its failure as Failed, shows Closing, and after cleaning up Closed, with its
  // failure or else the cleanup's; then its completion has only to unlist it.
  lemma EndingGoesOn(c: Attachment, s: Step, extra: Option<Error>)
    requires AttachmentInv(c) && Ends(c, s)
    ensures var left := Next(c, s);
            && Can(left, CancelSelf)
            && var cancelled := Next(left, CancelSelf);
               && cancelled.cancelled && Can(cancelled, Report)
               && var failed := Next(cancelled, Report);
                  && (Carries(s).Some? ==> failed.shown.state == Session.Failed && failed.shown.terminal == Carries(s))
                  && Can(failed, MarkClosing)
                  && var closing := Next(failed, MarkClosing);
                     && closing.shown.state == Session.Closing && Can(closing, CleanupEnds(extra))
                     && var closed := Next(closing, CleanupEnds(extra));
                        && closed.shown.state == Session.Closed && closed.shown.terminal == Keep(Carries(s), extra)
                        && closed.answer != NotSent && Can(closed, Complete)
                        && Next(closed, Complete) == closed.(task := Unregistering)
  {
  }

  // Until then it shows whatever its peer session publishes.
  lemma PeerIsMirrored(c: Attachment, state: State, e: Error)
    requires Can(c, SelectChanged) && state != Session.Closed
    ensures var top := Next(c, SelectChanged);
            && Can(top, Mirror(state, e))
            && var shown := Next(top, Mirror(state, e));
               shown.shown.state == state && shown.shown.revision == c.shown.revision + 1 && shown.task == Selecting
  {
  }

  // A starter that is told of success holds the attachment, one told of an error
  // does not, and neither changes what the attachment does.
  lemma StarterIsTold(c: Attachment)
    ensures Can(c, StartReturns) ==> Next(c, StartReturns) == c.(caller := Holding)
    ensures Can(c, StartErrs) ==> Next(c, StartErrs) == c.(caller := Gone)
    ensures c.caller == Starting && c.answer == SentOk ==> Can(c, StartReturns)
    ensures c.caller == Starting && c.answer == SentErr ==> Can(c, StartErrs)
  {
  }
}
