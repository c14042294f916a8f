// Recovery from transient accept failures: the delay survives however often the
// owning select drops the call (crates/locho-client-native/src/listener.rs).

module AcceptRetry {
  import opened Bytes
  import opened Schedule

  const FIRST_DELAY: nat := 100
  const MAX_DELAY: nat := 1000

  datatype Retry = Retry(delay: nat, next: Option<nat>)

  const Rested: Retry := Retry(FIRST_DELAY, None)

  function Failed(r: Retry, now: nat): Retry {
    Retry(Doubled(r.delay, MAX_DELAY), Some(now + r.delay))
  }

  datatype Outcome = Accepted | Transient | Permanent

  datatype Call = Idle | Sleeping | Accepting

  // Instants at which accept was tried, failed transiently, or succeeded.
  datatype Event = Attempt(at: nat) | Fail(at: nat) | Success(at: nat)

  datatype World = World(retry: Retry, now: nat, call: Call, log: seq<Event>)

  datatype Action = Tick(dt: nat) | Enter | Wake | Result(outcome: Outcome) | Dropped

  predicate Can(w: World, a: Action) {
    match a
    case Tick(_) => true
    case Enter => w.call == Idle
    case Wake => w.call == Sleeping && (w.retry.next.Some? ==> w.retry.next.value <= w.now)
    case Result(_) => w.call == Accepting
    case Dropped => w.call != Idle
  }

  function Trying(w: World): World {
    w.(call := Accepting, log := w.log + [Attempt(w.now)])
  }

  function Next(w: World, a: Action): World
    requires Can(w, a)
  {
    match a
    case Tick(dt) => w.(now := w.now + dt)
    case Enter => if w.retry.next.None? then Trying(w) else w.(call := Sleeping)
    case Wake => Trying(w)
    case Result(Accepted) => World(Rested, w.now, Idle, w.log + [Success(w.now)])
    case Result(Transient) => World(Failed(w.retry, w.now), w.now, Sleeping, w.log + [Fail(w.now)])
    case Result(Permanent) => w.(call := Idle)
    case Dropped => w.(call := Idle)
  }

  function Begin(start: nat): World { World(Rested, start, Idle, []) }

  predicate Runs(w: World, actions: seq<Action>)
    decreases |actions|, 0
  {
    actions == [] || (Runs(w, actions[..|actions|-1]) && Can(After(w, actions[..|actions|-1]), actions[|actions|-1]))
  }

  function After(w: World, actions: seq<Action>): World
    requires Runs(w, actions)
    decreases |actions|, 1
  {
    if actions == [] then w else Next(After(w, actions[..|actions|-1]), actions[|actions|-1])
  }

  lemma Grow(w: World, actions: seq<Action>, a: Action)
    requires Runs(w, actions) && Can(After(w, actions), a)
    ensures Runs(w, actions + [a]) && After(w, actions + [a]) == Next(After(w, actions), a)
  {
    assert (actions + [a])[..|actions + [a]| - 1] == actions;
  }

  lemma Nothing(w: World)
    ensures Runs(w, []) && After(w, []) == w
  {
  }

  // ----- the retry state, updated in place -----

  // What one turn of the loop meets: it is dropped while it sleeps, or it wakes
  // `late` after its deadline and then is dropped or answered after `took`.
  datatype Turn =
    | DroppedAsleep(early: nat)
    | DroppedTrying(late: nat, took: nat)
    | Answered(late: nat, took: nat, outcome: Outcome)

  function Late(t: Turn): nat {
    match t
    case DroppedAsleep(_) => 0
    case DroppedTrying(late, _) => late
    case Answered(late, _, _) => late
  }

  // The wait for a pending deadline.
  function WaitFor(r: Retry, now: nat, late: nat): nat {
    late + if r.next.Some? && now < r.next.value then r.next.value - now else 0
  }

  function Waking(r: Retry, now: nat, late: nat): seq<Action> {
    if r.next.Some? then [Tick(WaitFor(r, now, late)), Wake] else []
  }

  // When a turn's attempt begins.
  function Begins(r: Retry, now: nat, t: Turn): nat {
    if r.next.Some? then now + WaitFor(r, now, Late(t)) else now
  }

  // All that the turns make a call do.
  function Script(r: Retry, now: nat, turns: seq<Turn>): seq<Action>
    decreases |turns|
  {
    if turns == [] then [Tick(0), Dropped]
    else
      var t := turns[0];
      match t
      case DroppedAsleep(early) => [Tick(early), Dropped]
      case DroppedTrying(late, took) => Waking(r, now, late) + [Tick(took), Dropped]
      case Answered(late, took, outcome) =>
        var end := Begins(r, now, t) + took;
        Waking(r, now, late) + [Tick(took), Result(outcome)] +
        if outcome == Transient then Script(Failed(r, end), end, turns[1..]) else []
  }

  // The first answer that is not a transient failure, unless the call is dropped
  // before it.
  function FirstAnswer(turns: seq<Turn>): Option<Outcome> {
    if turns == [] || !turns[0].Answered? then None
    else if turns[0].outcome == Transient then FirstAnswer(turns[1..])
    else Some(turns[0].outcome)
  }

  lemma TurnScript(r: Retry, now: nat, turns: seq<Turn>, i: nat)
    requires i < |turns|
    ensures var t := turns[i]; var script := Script(r, now, turns[i..]);
            && (t.DroppedAsleep? ==> script == [Tick(t.early), Dropped] && FirstAnswer(turns[i..]) == None)
            && (t.DroppedTrying? ==>
                  script == Waking(r, now, t.late) + [Tick(t.took), Dropped] && FirstAnswer(turns[i..]) == None)
            && (t.Answered? ==>
                  var end := Begins(r, now, t) + t.took;
                  && script == Waking(r, now, t.late) + [Tick(t.took), Result(t.outcome)] +
                               (if t.outcome == Transient then Script(Failed(r, end), end, turns[i + 1..]) else [])
                  && FirstAnswer(turns[i..]) ==
                     if t.outcome == Transient then FirstAnswer(turns[i + 1..]) else Some(t.outcome))
  {
    assert turns[i..][1..] == turns[i + 1..];
  }

  class Retrier {
    var delay: nat
    var nextAttempt: Option<nat>
    var now: nat
    ghost var world: World

    ghost predicate Valid() reads this {
      world.retry == Retry(delay, nextAttempt) && world.now == now
    }

    constructor (start: nat)
      ensures Valid() && world == Begin(start)
    {
      delay, nextAttempt, now, world := FIRST_DELAY, None, start, Begin(start);
    }

    // sleep_until(deadline), then the attempt begins.
    method Sleep(late: nat) returns (ghost actions: seq<Action>)
      requires Valid() && world.call == Sleeping && nextAttempt.Some?
      modifies this`now, this`world
      ensures Valid() && world.call == Accepting && world.retry == old(world).retry
      ensures Runs(old(world), actions) && world == After(old(world), actions)
      ensures now == late + if old(now) < nextAttempt.value then nextAttempt.value else old(now)
      ensures actions == Waking(old(world).retry, old(now), late)
    {
      var dt := late + if now < nextAttempt.value then nextAttempt.value - now else 0;
      now := now + dt;
      actions := [Tick(dt), Wake];
      Two(world, Tick(dt), Wake);
      world := After(world, actions);
    }

    // What the loop does with an answer; the loop goes on after a transient one.
    method Take(took: nat, outcome: Outcome) returns (ghost actions: seq<Action>)
      requires Valid() && world.call == Accepting
      modifies this
      ensures Valid()
      ensures world.call == if outcome == Transient then Sleeping else Idle
      ensures world.retry == if outcome == Accepted then Rested
                             else if outcome == Transient then Failed(old(world).retry, old(now) + took)
                             else old(world).retry
      ensures now == old(now) + took && actions == [Tick(took), Result(outcome)]
      ensures Runs(old(world), actions) && world == After(old(world), actions)
    {
      now := now + took;
      if outcome == Accepted {
        delay, nextAttempt := FIRST_DELAY, None;
      } else if outcome == Transient {
        nextAttempt := Some(now + delay);
        delay := Min(delay * 2, MAX_DELAY);
      }
      actions := [Tick(took), Result(outcome)];
      Two(world, Tick(took), Result(outcome));
      world := After(world, actions);
    }

    // The future is dropped at one of its awaits, or shutdown ends the call there.
    method Drop(after: nat) returns (ghost actions: seq<Action>)
      requires Valid() && world.call != Idle
      modifies this`now, this`world
      ensures Valid() && world.call == Idle && world.retry == old(world).retry
      ensures actions == [Tick(after), Dropped]
      ensures Runs(old(world), actions) && world == After(old(world), actions)
    {
      now := now + after;
      actions := [Tick(after), Dropped];
      Two(world, Tick(after), Dropped);
      world := After(world, actions);
    }

    // One call of accept, over whatever turns it meets: it does to its fields what
    // they make it do, a run of the machine, and returns the first answer that is
    // not a transient failure. Ending without one keeps a pending deadline.
    method Accept(turns: seq<Turn>) returns (result: Option<Outcome>, ghost actions: seq<Action>)
      requires Valid() && world.call == Idle
      modifies this
      ensures Valid() && world.call == Idle
      ensures Runs(old(world), actions) && world == After(old(world), actions)
      ensures actions == [Enter] + Script(old(world).retry, old(now), turns)
      ensures result == FirstAnswer(turns)
      ensures result == Some(Accepted) ==> Retry(delay, nextAttempt) == Rested
      ensures result != Some(Accepted) && old(nextAttempt).Some? ==> nextAttempt.Some?
    {
      hide Runs, After, Script, FirstAnswer, Waking;
      ghost var start, more := world, [];
      ghost var due := [Enter] + Script(start.retry, now, turns);
      One(start, Enter);
      actions := [Enter];
      world := Next(start, Enter);
      assert turns[0..] == turns;
      var i: nat := 0;
      while i < |turns|
        invariant Valid() && i <= |turns|
        invariant world.call == if nextAttempt.Some? then Sleeping else Accepting
        invariant Runs(start, actions) && world == After(start, actions)
        invariant start.retry.next.Some? ==> nextAttempt.Some?
        invariant due == actions + Script(world.retry, now, turns[i..])
        invariant FirstAnswer(turns) == FirstAnswer(turns[i..])
      {
        ghost var before, wake := actions, Waking(world.retry, now, Late(turns[i]));
        TurnScript(world.retry, now, turns, i);
        NoWaking(world.retry, now, Late(turns[i]));
        var turn := turns[i];
        i := i + 1;
        if turn.DroppedAsleep? {
          more := Drop(turn.early);
          actions := Joined(start, actions, more);
          return None, actions;
        }
        if nextAttempt.Some? {
          more := Sleep(Late(turn));
          actions := Joined(start, actions, more);
        }
        assert actions == before + wake;
        if turn.DroppedTrying? {
          more := Drop(turn.took);
          actions := Joined(start, actions, more);
          assert before + (wake + more) == actions;
          return None, actions;
        }
        more := Take(turn.took, turn.outcome);
        actions := Joined(start, actions, more);
        assert actions == before + (wake + more);
        if turn.outcome != Transient {
          assert before + (wake + more + []) == actions;
          return Some(turn.outcome), actions;
        }
        ghost var rest := Script(world.retry, now, turns[i..]);
        assert before + (wake + more + rest) == actions + rest;
      }
      NoTurns(world.retry, now, turns);
      more := Drop(0);
      actions := Joined(start, actions, more);
      result := None;
    }
  }

  lemma NoWaking(r: Retry, now: nat, late: nat)
    ensures r.next.None? ==> Waking(r, now, late) == []
  {
  }

  lemma NoTurns(r: Retry, now: nat, turns: seq<Turn>)
    ensures Script(r, now, turns[|turns|..]) == [Tick(0), Dropped] && FirstAnswer(turns[|turns|..]) == None
  {
  }

  lemma One(w: World, a: Action)
    requires Can(w, a)
    ensures Runs(w, [a]) && After(w, [a]) == Next(w, a)
  {
    hide Runs, After, Can, Next;
    Nothing(w);
    Grow(w, [], a);
    assert [] + [a] == [a];
  }

  lemma Two(w: World, a: Action, b: Action)
    requires Can(w, a) && Can(Next(w, a), b)
    ensures Runs(w, [a, b]) && After(w, [a, b]) == Next(Next(w, a), b)
  {
    hide Runs, After, Can, Next;
    One(w, a);
    Grow(w, [a], b);
    assert [a] + [b] == [a, b];
  }

  // A run from where another ended continues it.
  lemma {:induction false} Join(w: World, first: seq<Action>, second: seq<Action>)
    requires Runs(w, first) && Runs(After(w, first), second)
    ensures Runs(w, first + second) && After(w, first + second) == After(After(w, first), second)
    decreases |second|
  {
    hide Can, Next;
    if second == [] {
      assert first + second == first;
    } else {
      var m := |second| - 1;
      Join(w, first, second[..m]);
      Grow(w, first + second[..m], second[m]);
      assert first + second[..m] + [second[m]] == first + second;
    }
  }

  ghost function Joined(w: World, first: seq<Action>, second: seq<Action>): (both: seq<Action>)
    requires Runs(w, first) && Runs(After(w, first), second)
    ensures both == first + second && Runs(w, both) && After(w, both) == After(After(w, first), second)
  {
    Join(w, first, second);
    first + second
  }

  // ----- the schedule -----

  // How many failures there were since the last success.
  function Failures(log: seq<Event>): nat {
    if log == [] then 0
    else
      var last := log[|log| - 1];
      if last.Success? then 0
      else Failures(log[..|log| - 1]) + if last.Fail? then 1 else 0
  }

  // The delay owed after the failure at position i, counting from 0 since the
  // last success.
  function Owed(log: seq<Event>, i: nat): nat
    requires i < |log| && log[i].Fail?
  {
    Capped(FIRST_DELAY, MAX_DELAY, Failures(log[..i]))
  }

  // When the next attempt is due, read off the history alone: the last failure's
  // instant and what it owes, or at once if a success came after it.
  function Due(log: seq<Event>): Option<nat> {
    if log == [] then None
    else
      var before, last := log[..|log| - 1], log[|log| - 1];
      match last
      case Success(_) => None
      case Fail(at) => Some(at + Capped(FIRST_DELAY, MAX_DELAY, Failures(before)))
      case Attempt(_) => Due(before)
  }

  // What holds in every reachable state.
  predicate Pays(w: World, i: nat)
    requires i < |w.log| && w.log[i].Fail?
  {
    w.log[i].at + Owed(w.log, i) <= if w.retry.next.Some? then w.retry.next.value else w.now
  }

  predicate Spaced(log: seq<Event>) {
    forall i: nat, j: nat :: i < j < |log| && log[i].Fail? && log[j].Attempt? ==> log[i].at + Owed(log, i) <= log[j].at
  }

  predicate Inv(w: World) {
    && w.retry.delay == Capped(FIRST_DELAY, MAX_DELAY, Failures(w.log))
    && w.retry.next == Due(w.log)
    && (w.call == Accepting && w.retry.next.Some? ==> w.retry.next.value <= w.now)
    && (forall i: nat :: i < |w.log| && w.log[i].Fail? ==> Pays(w, i))
    && Spaced(w.log)
  }

  // One event more leaves what the earlier failures owe as it was.
  lemma OwedKept(log: seq<Event>, e: Event, i: nat)
    requires i < |log| && log[i].Fail?
    ensures Owed(log + [e], i) == Owed(log, i)
  {
    assert (log + [e])[..i] == log[..i];
  }

  lemma FailuresNext(log: seq<Event>, e: Event)
    ensures Failures(log + [e]) == if e.Success? then 0 else Failures(log) + if e.Fail? then 1 else 0
  {
    assert (log + [e])[..|log|] == log;
  }

  lemma SpacedNext(w: World, e: Event)
    requires Inv(w) && (e.Attempt? ==> e.at == w.now && (w.retry.next.Some? ==> w.retry.next.value <= w.now))
    ensures Spaced(w.log + [e])
  {
    hide Owed, Failures;
    var log := w.log + [e];
    forall i: nat, j: nat | i < j < |log| && log[i].Fail? && log[j].Attempt?
      ensures log[i].at + Owed(log, i) <= log[j].at
    {
      OwedKept(w.log, e, i);
      assert j == |w.log| ==> Pays(w, i);
    }
  }

  lemma InvStep(w: World, a: Action)
    requires Inv(w) && Can(w, a)
    ensures Inv(Next(w, a))
  {
    hide Failures, Capped, Spaced;
    var v := Next(w, a);
    if |v.log| > |w.log| {
      var e := v.log[|w.log|];
      SpacedNext(w, e);
      FailuresNext(w.log, e);
      DoubledIsNext(FIRST_DELAY, MAX_DELAY, Failures(w.log));
      assert v.log[..|w.log|] == w.log;
      CappedFirst();
      forall i: nat | i < |v.log| && v.log[i].Fail? ensures Pays(v, i) {
        if i < |w.log| {
          assert Pays(w, i);
          OwedKept(w.log, e, i);
        }
      }
    } else {
      forall i: nat | i < |v.log| && v.log[i].Fail? ensures Pays(v, i) {
        assert Pays(w, i);
      }
    }
  }

  lemma CappedFirst()
    ensures Capped(FIRST_DELAY, MAX_DELAY, 0) == FIRST_DELAY
  {
  }

  lemma {:induction false} RunInv(start: nat, actions: seq<Action>)
    requires Runs(Begin(start), actions)
    ensures Inv(After(Begin(start), actions))
    decreases |actions|
  {
    hide Can, Next;
    if actions == [] {
      CappedFirst();
    } else {
      RunInv(start, actions[..|actions|-1]);
      hide Inv;
      InvStep(After(Begin(start), actions[..|actions|-1]), actions[|actions|-1]);
    }
  }

  // After the k-th failure since the last success, from 0, no attempt begins
  // for min(100 * 2^k, 1000) ms, whatever drops and re-enters the call.
  lemma NoEarlyAttempt(start: nat, actions: seq<Action>, i: nat, j: nat)
    requires Runs(Begin(start), actions)
    requires i < j < |After(Begin(start), actions).log|
    requires After(Begin(start), actions).log[i].Fail? && After(Begin(start), actions).log[j].Attempt?
    ensures var log := After(Begin(start), actions).log;
            log[i].at + Min(100 * Pow2(Failures(log[..i])), 1000) <= log[j].at
  {
    RunInv(start, actions);
    var log := After(Begin(start), actions).log;
    assert Spaced(log);
    assert log[i].at + Owed(log, i) <= log[j].at;
  }

  // And no longer than that: the pending deadline is exactly the one the history
  // gives, so a sleeping call may try again from that instant on.
  lemma DeadlineIsExact(start: nat, actions: seq<Action>)
    requires Runs(Begin(start), actions)
    ensures var w := After(Begin(start), actions);
            && w.retry.next == Due(w.log)
            && (w.call == Sleeping ==> (Can(w, Wake) <==> (Due(w.log).Some? ==> Due(w.log).value <= w.now)))
  {
    RunInv(start, actions);
  }
}
