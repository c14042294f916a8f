// The relay's idle deadline: one timer, re-armed only when it fires, against a
// timer reset on every byte (crates/locho-core/src/protocol.rs).

module IdleRelay {
  import opened Bytes

  // Times are instants on the relay's clock. `marks` holds the start and the
  // instant of every re-arm; `moved` the instant of every byte in either direction.
  datatype Relay = Relay(
    period: nat,
    now: nat,
    activity: nat,
    deadline: nat,
    expired: Option<nat>,
    marks: seq<nat>,
    moved: seq<nat>)

  datatype Action = Tick(dt: nat) | Move | Fire

  function Begin(period: nat, start: nat): Relay {
    Relay(period, start, start, start + period, None, [start], [])
  }

  predicate Can(r: Relay, a: Action) {
    r.expired.None? && (a.Fire? ==> r.now >= r.deadline)
  }

  function Next(r: Relay, a: Action): Relay
    requires Can(r, a)
  {
    match a
    case Tick(dt) => r.(now := r.now + dt)
    case Move => r.(activity := r.now, moved := r.moved + [r.now])
    case Fire =>
      if r.now >= r.activity + r.period then r.(expired := Some(r.now))
      else r.(deadline := r.activity + r.period, marks := r.marks + [r.now])
  }

  predicate Runs(r: Relay, actions: seq<Action>)
    decreases |actions|, 0
  {
    actions == [] || (Runs(r, actions[..|actions|-1]) && Can(After(r, actions[..|actions|-1]), actions[|actions|-1]))
  }

  function After(r: Relay, actions: seq<Action>): Relay
    requires Runs(r, actions)
    decreases |actions|, 1
  {
    if actions == [] then r else Next(After(r, actions[..|actions|-1]), actions[|actions|-1])
  }

  // ----- the shared clock, updated in place -----

  class RelayClock {
    const period: nat
    var now: nat
    var activity: nat
    var deadline: nat
    var expired: Option<nat>
    ghost var marks: seq<nat>
    ghost var moved: seq<nat>

    ghost function View(): Relay reads this {
      Relay(period, now, activity, deadline, expired, marks, moved)
    }

    constructor (period: nat, start: nat)
      ensures View() == Begin(period, start)
    {
      this.period := period;
      this.now, this.activity, this.deadline := start, start, start + period;
      this.expired, this.marks, this.moved := None, [start], [];
    }

    method Elapse(dt: nat)
      requires expired.None?
      modifies this`now
      ensures View() == Next(old(View()), Tick(dt))
    {
      now := now + dt;
    }

    // A poll that moved bytes stamps the clock; one that moved none does not.
    method Poll(count: nat)
      requires expired.None?
      modifies this`activity, this`moved
      ensures View() == if count > 0 then Next(old(View()), Move) else old(View())
    {
      if count > 0 {
        activity := now;
        moved := moved + [now];
      }
    }

    // The timer branch: expire, or sleep until the deadline the clock now gives.
    method TimerFired() returns (idle: bool)
      requires Can(View(), Fire)
      modifies this`deadline, this`expired, this`marks
      ensures View() == Next(old(View()), Fire)
      ensures idle <==> expired.Some?
    {
      idle := now - activity >= period;
      if idle {
        expired := Some(now);
      } else {
        deadline := activity + period;
        marks := marks + [now];
      }
    }
  }

  // What the relay's select meets, after some time: bytes were polled in one of the
  // streams, the timer branch was polled, or the copy ended.
  datatype Event = Polled(dt: nat, count: nat) | TimerPolled(dt: nat) | CopyEnds(dt: nat)

  // What one event does: time passes, and then bytes move if there were any, or the
  // timer fires if it is due.
  function Reaction(r: Relay, event: Event): seq<Action> {
    [Tick(event.dt)] +
    if event.Polled? && event.count > 0 then [Move]
    else if event.TimerPolled? && r.now + event.dt >= r.deadline then [Fire]
    else []
  }

  function Reacted(r: Relay, event: Event): Relay
    requires r.expired.None?
  {
    var later := Next(r, Tick(event.dt));
    if event.Polled? && event.count > 0 then Next(later, Move)
    else if event.TimerPolled? && later.now >= later.deadline then Next(later, Fire)
    else later
  }

  lemma ReactionRuns(begin: Relay, actions: seq<Action>, event: Event)
    requires Runs(begin, actions) && After(begin, actions).expired.None?
    ensures var r := After(begin, actions); var more := actions + Reaction(r, event);
            Runs(begin, more) && After(begin, more) == Reacted(r, event)
  {
    hide Runs, After;
    var r := After(begin, actions);
    var run := Grow(begin, actions, Tick(event.dt));
    if event.Polled? && event.count > 0 {
      run := Grow(begin, run, Move);
    } else if event.TimerPolled? && r.now + event.dt >= r.deadline {
      run := Grow(begin, run, Fire);
    }
    assert run == actions + Reaction(r, event);
  }

  // All the events do, until the copy ends or the relay expires.
  function Script(r: Relay, events: seq<Event>): seq<Action>
    decreases |events|
  {
    if events == [] || r.expired.Some? then []
    else
      Reaction(r, events[0]) +
      if events[0].CopyEnds? then [] else Script(Reacted(r, events[0]), events[1..])
  }

  method React(clock: RelayClock, event: Event) returns (idle: bool)
    requires clock.expired.None?
    modifies clock
    ensures clock.View() == Reacted(old(clock.View()), event) && (idle <==> clock.expired.Some?)
  {
    clock.Elapse(event.dt);
    idle := false;
    if event.Polled? {
      clock.Poll(event.count);
    } else if event.TimerPolled? && clock.now >= clock.deadline {
      idle := clock.TimerFired();
    }
  }

  // The relay loop: all that it does to the clock is what the events make of it, a
  // run of the machine, and it gives up exactly when that run expired.
  method RunRelay(period: nat, start: nat, events: seq<Event>)
      returns (clock: RelayClock, idle: bool, ghost actions: seq<Action>)
    ensures Runs(Begin(period, start), actions) && clock.View() == After(Begin(period, start), actions)
    ensures actions == Script(Begin(period, start), events)
    ensures idle <==> clock.expired.Some?
    ensures fresh(clock)
  {
    hide Runs, After, Reaction, Reacted, Script;
    clock := new RelayClock(period, start);
    ghost var begin := Begin(period, start);
    actions := Nothing(begin);
    idle := false;
    assert events[0..] == events && [] + Script(begin, events) == Script(begin, events);
    for k := 0 to |events|
      invariant fresh(clock) && clock.expired.None? && !idle
      invariant Runs(begin, actions) && clock.View() == After(begin, actions)
      invariant Script(begin, events) == actions + Script(clock.View(), events[k..])
    {
      ScriptNext(clock.View(), events, k);
      ReactionRuns(begin, actions, events[k]);
      ghost var done, more := actions, Reaction(clock.View(), events[k]);
      actions := done + more;
      idle := React(clock, events[k]);
      assert events[k].CopyEnds? ==> done + (more + []) == actions;
      assert done + (more + Script(clock.View(), events[k + 1..])) == actions + Script(clock.View(), events[k + 1..]);
      if idle || events[k].CopyEnds? {
        assert actions + [] == actions;
        return;
      }
    }
    ScriptEnds(clock.View(), events);
  }

  // One event's reaction, and the script of the rest from where it leads.
  lemma ScriptNext(r: Relay, events: seq<Event>, k: nat)
    requires k < |events| && r.expired.None?
    ensures var r' := Reacted(r, events[k]);
            && (r'.expired.Some? ==> Script(r', events[k + 1..]) == [])
            && Script(r, events[k..]) ==
               Reaction(r, events[k]) + if events[k].CopyEnds? then [] else Script(r', events[k + 1..])
  {
    assert events[k..][1..] == events[k + 1..];
  }

  lemma ScriptEnds(r: Relay, events: seq<Event>)
    ensures Script(r, events[|events|..]) == []
  {
  }

  // ----- what every run keeps -----

  predicate Inv(r: Relay) {
    var n := |r.marks|;
    && n > 0 && r.marks[0] <= r.activity <= r.now
    && r.marks[n - 1] <= r.now
    && r.deadline <= r.activity + r.period
    && r.marks[0] + r.period <= r.deadline <= r.marks[n - 1] + r.period
    && (r.activity + r.period == r.deadline || r.activity >= r.marks[n - 1])
    && (n >= 2 ==> r.deadline >= r.marks[n - 2] + r.period)
    && Spaced(r.marks, r.period)
    && (forall i :: 0 <= i < |r.moved| ==> r.moved[i] <= r.activity)
    && (r.activity == r.marks[0] || r.activity in r.moved)
    && (r.expired.Some? ==> r.expired.value == r.now >= r.activity + r.period)
  }

  // Two re-arms on, at least one whole period has passed.
  predicate Spaced(marks: seq<nat>, period: nat) {
    forall i :: 0 <= i < |marks| - 2 ==> marks[i + 2] >= marks[i] + period
  }

  lemma SpacedMore(marks: seq<nat>, period: nat, t: nat)
    requires Spaced(marks, period)
    requires |marks| >= 2 ==> t >= marks[|marks| - 2] + period
    ensures Spaced(marks + [t], period)
  {
    var more := marks + [t];
    forall i | 0 <= i < |more| - 2 ensures more[i + 2] >= more[i] + period {
      assert more[i] == marks[i];
    }
  }

  lemma Step(r: Relay, a: Action)
    requires Inv(r) && Can(r, a)
    ensures Inv(Next(r, a))
  {
    if a.Fire? && r.now < r.activity + r.period {
      SpacedMore(r.marks, r.period, r.now);
      var n := |r.marks|;
      assert Next(r, a).marks[n - 1] == r.marks[n - 1] && Next(r, a).marks[n] == r.now;
    }
    if a.Move? {
      var m := Next(r, a).moved;
      assert m[|m| - 1] == r.now;
    }
  }

  lemma {:induction false} RunInv(period: nat, start: nat, actions: seq<Action>)
    requires Runs(Begin(period, start), actions)
    ensures Inv(After(Begin(period, start), actions))
    ensures var r := After(Begin(period, start), actions); r.period == period && r.marks[0] == start
    decreases |actions|
  {
    hide Inv, Can;
    if actions == [] {
      BeginInv(period, start);
    } else {
      RunInv(period, start, actions[..|actions|-1]);
      Step(After(Begin(period, start), actions[..|actions|-1]), actions[|actions|-1]);
      StepStart(After(Begin(period, start), actions[..|actions|-1]), actions[|actions|-1]);
    }
  }

  lemma BeginInv(period: nat, start: nat)
    ensures Inv(Begin(period, start))
  {
  }

  lemma StepStart(r: Relay, a: Action)
    requires Inv(r) && Can(r, a)
    ensures Next(r, a).period == r.period && Next(r, a).marks[0] == r.marks[0]
  {
  }

  // Expiry comes only after a whole period without a byte in either direction.
  lemma ExpiresOnlyIdle(period: nat, start: nat, actions: seq<Action>)
    requires Runs(Begin(period, start), actions)
    requires After(Begin(period, start), actions).expired.Some?
    ensures var r := After(Begin(period, start), actions);
            && start + period <= r.expired.value
            && forall i :: 0 <= i < |r.moved| ==> r.moved[i] + period <= r.expired.value
  {
    RunInv(period, start, actions);
  }

  // A stale deadline is never later than the true one, so a clock that never
  // runs more than `lag` past the armed deadline never lets a relay stay idle
  // more than `lag` past its period.
  lemma StaleDeadlineNeverLate(period: nat, start: nat, actions: seq<Action>, lag: nat)
    requires Runs(Begin(period, start), actions)
    ensures var r := After(Begin(period, start), actions);
            && r.deadline <= r.activity + period
            && (r.now <= r.deadline + lag ==> r.now <= r.activity + period + lag)
            && (r.activity == start || r.activity in r.moved)
  {
    RunInv(period, start, actions);
  }

  // Wake-ups are linear in elapsed time: n re-arms need n / 2 whole periods.
  lemma {:induction false} MarksGrow(marks: seq<nat>, period: nat, k: nat)
    requires Spaced(marks, period) && 2 * k < |marks|
    ensures marks[2 * k] >= marks[0] + k * period
  {
    if k > 0 {
      MarksGrow(marks, period, k - 1);
      assert marks[2 * (k - 1) + 2] >= marks[2 * (k - 1)] + period;
      assert k * period == (k - 1) * period + period;
    }
  }

  lemma WakeUpsAreLinear(period: nat, start: nat, actions: seq<Action>)
    requires Runs(Begin(period, start), actions)
    ensures var r := After(Begin(period, start), actions);
            && (forall i :: 0 <= i < |r.marks| - 2 ==> r.marks[i + 2] >= r.marks[i] + period)
            && (|r.marks| - 1) / 2 * period <= r.now - start
  {
    RunInv(period, start, actions);
    var r := After(Begin(period, start), actions);
    var n := |r.marks| - 1;
    MarksGrow(r.marks, period, n / 2);
    assert r.marks[2 * (n / 2)] <= r.now by {
      LastMark(period, start, actions, 2 * (n / 2));
    }
  }

  lemma {:induction false} LastMark(period: nat, start: nat, actions: seq<Action>, i: nat)
    requires Runs(Begin(period, start), actions) && i < |After(Begin(period, start), actions).marks|
    ensures After(Begin(period, start), actions).marks[i] <= After(Begin(period, start), actions).now
    decreases |actions|
  {
    if actions != [] {
      var before := actions[..|actions|-1];
      if i < |After(Begin(period, start), before).marks| {
        LastMark(period, start, before, i);
      }
    }
  }

  // Until it fires again, a timer keeps the deadline it was armed with.
  lemma {:induction false} DeadlineKept(r: Relay, mid: seq<Action>)
    requires Runs(r, mid) && Fire !in mid
    ensures var r' := After(r, mid); r'.deadline == r.deadline && r'.period == r.period && r'.now >= r.now
    decreases |mid|
  {
    if mid != [] {
      assert mid[|mid|-1] != Fire;
      DeadlineKept(r, mid[..|mid|-1]);
    }
  }

  // The timer fires and re-arms in r0, and fires again, without a fire between, in
  // r1. That is a period or more later if and only if the silence before the first
  // fire was no longer than the second fire's delay behind its deadline. For a
  // second fire on time that means: a byte moved at the very instant of the first.
  lemma NeighboursApartIff(period: nat, start: nat, first: seq<Action>, mid: seq<Action>)
    requires Runs(Begin(period, start), first)
    requires var r0 := After(Begin(period, start), first);
             && Can(r0, Fire) && Next(r0, Fire).expired.None?
             && Runs(Next(r0, Fire), mid) && Fire !in mid && Can(After(Next(r0, Fire), mid), Fire)
    ensures var r0 := After(Begin(period, start), first); var r1 := After(Next(r0, Fire), mid);
            && (r1.now >= r0.now + period <==> r0.now - r0.activity <= r1.now - r1.deadline)
            && (r1.now == r1.deadline ==> (r1.now >= r0.now + period <==> r0.now in r0.moved))
  {
    RunInv(period, start, first);
    var r0 := After(Begin(period, start), first);
    hide Runs, After;
    DeadlineKept(Next(r0, Fire), mid);
  }

  // A single pair of neighbours can be closer than a period: here the timer
  // re-arms at 10 and again at 11, with a period of 10.
  lemma NeighboursMayBeClose() returns (run: seq<Action>)
    ensures Runs(Begin(10, 0), run)
    ensures After(Begin(10, 0), run).marks == [0, 10, 11]
  {
    hide Runs, After;
    var r := Begin(10, 0);
    run := Nothing(r);
    run := Grow(r, run, Tick(1));
    run := Grow(r, run, Move);
    run := Grow(r, run, Tick(9));
    assert After(r, run) == Relay(10, 10, 1, 10, None, [0], [1]);
    run := Grow(r, run, Fire);
    assert After(r, run) == Relay(10, 10, 1, 11, None, [0, 10], [1]);
    run := Grow(r, run, Move);
    run := Grow(r, run, Tick(1));
    assert After(r, run) == Relay(10, 11, 10, 11, None, [0, 10], [1, 10]);
    run := Grow(r, run, Fire);
  }

  lemma Nothing(r: Relay) returns (none: seq<Action>)
    ensures none == [] && Runs(r, none) && After(r, none) == r
  {
    none := [];
  }

  lemma Grow(r: Relay, actions: seq<Action>, a: Action) returns (more: seq<Action>)
    requires Runs(r, actions) && Can(After(r, actions), a)
    ensures more == actions + [a] && Runs(r, more) && After(r, more) == Next(After(r, actions), a)
  {
    more := actions + [a];
    assert more[..|more|-1] == actions;
  }

  // ----- the timer reset on every byte -----

  // It may expire from one period after the last byte on.
  datatype Eager = Eager(period: nat, now: nat, activity: nat, expired: Option<nat>)

  predicate EagerCan(e: Eager, a: Action) {
    e.expired.None? && (a.Fire? ==> e.now >= e.activity + e.period)
  }

  function EagerNext(e: Eager, a: Action): Eager
    requires EagerCan(e, a)
  {
    match a
    case Tick(dt) => e.(now := e.now + dt)
    case Move => e.(activity := e.now)
    case Fire => e.(expired := Some(e.now))
  }

  function Seen(r: Relay): Eager {
    Eager(r.period, r.now, r.activity, r.expired)
  }

  // Every step of the lazy timer is the same step of the eager one, or a re-arm
  // the eager timer does not notice.
  lemma LazyRefinesEager(period: nat, start: nat, actions: seq<Action>, a: Action)
    requires Runs(Begin(period, start), actions) && Can(After(Begin(period, start), actions), a)
    ensures var r := After(Begin(period, start), actions);
            || (EagerCan(Seen(r), a) && EagerNext(Seen(r), a) == Seen(Next(r, a)))
            || (a.Fire? && Seen(Next(r, a)) == Seen(r))
  {
    RunInv(period, start, actions);
  }

  // And every step the eager timer can take, the lazy one can take too, to the
  // same effect: it expires neither earlier nor later.
  lemma EagerRefinesLazy(period: nat, start: nat, actions: seq<Action>, a: Action)
    requires Runs(Begin(period, start), actions)
    requires EagerCan(Seen(After(Begin(period, start), actions)), a)
    ensures var r := After(Begin(period, start), actions);
            Can(r, a) && Seen(Next(r, a)) == EagerNext(Seen(r), a)
  {
    RunInv(period, start, actions);
  }
}
