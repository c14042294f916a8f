// Connection admission: each listener's own permits and the process-wide ones
// (crates/locho-client-native/src/forward.rs, src/attach.rs).

module Admission {
  import opened Bytes

  const PER_LISTENER: nat := 128
  const PER_PROCESS: nat := 512

  // ----- the semaphores, updated in place -----

  class Semaphore {
    var free: nat

    constructor (permits: nat)
      ensures free == permits
    {
      free := permits;
    }

    method TryAcquire() returns (ok: bool)
      modifies this
      ensures ok == (old(free) > 0)
      ensures free == if ok then old(free) - 1 else old(free)
    {
      ok := free > 0;
      if ok {
        free := free - 1;
      }
    }

    method Release()
      modifies this
      ensures free == old(free) + 1
    {
      free := free + 1;
    }
  }

  // One accepted connection asks for both permits. Refused the second, it gives
  // the first back: it then holds both or nothing.
  method Admit(own: Semaphore, total: Semaphore) returns (admitted: bool)
    requires own != total
    modifies own, total
    ensures admitted <==> old(own.free) > 0 && old(total.free) > 0
    ensures own.free == old(own.free) - (if admitted then 1 else 0)
    ensures total.free == old(total.free) - (if admitted then 1 else 0)
  {
    admitted := own.TryAcquire();
    if admitted {
      admitted := total.TryAcquire();
      if !admitted {
        own.Release();
      }
    }
  }

  // ----- any listeners, any interleaving -----

  // A connection's task drops its two permits one by one, in either order.
  datatype Listener = Listener(
    accepting: bool,
    own: nat,                        // free permits of this listener
    halfway: bool,                   // the accept loop holds a permit and asks for the second
    owns: set<nat>,                  // the tasks that hold one of them
    totals: set<nat>)                // the tasks that hold a process permit

  datatype Process = Process(listeners: seq<Listener>, total: nat)

  datatype Action =
    | Open                                  // one more listener
    | First(l: nat)                         // a connection arrived: try the listener's permit
    | Second(l: nat, task: nat)             // try the process permit
    | ReleaseTotal(l: nat, task: nat)       // the task ended, failed or was aborted
    | ReleaseOwn(l: nat, task: nat)
    | StopAccepting(l: nat)

  const Begin: Process := Process([], PER_PROCESS)

  predicate Unused(s: Listener, task: nat) { task !in s.owns && task !in s.totals }

  predicate Can(p: Process, a: Action) {
    match a
    case Open => true
    case First(l) => l < |p.listeners| && p.listeners[l].accepting && !p.listeners[l].halfway
    case Second(l, task) => l < |p.listeners| && p.listeners[l].halfway && Unused(p.listeners[l], task)
    case ReleaseTotal(l, task) => l < |p.listeners| && task in p.listeners[l].totals
    case ReleaseOwn(l, task) => l < |p.listeners| && task in p.listeners[l].owns
    case StopAccepting(l) => l < |p.listeners| && !p.listeners[l].halfway
  }

  function With(p: Process, l: nat, to: Listener, total: nat): Process
    requires l < |p.listeners|
  {
    Process(p.listeners[l := to], total)
  }

  function Next(p: Process, a: Action): Process
    requires Can(p, a)
  {
    match a
    case Open => p.(listeners := p.listeners + [Listener(true, PER_LISTENER, false, {}, {})])
    case First(l) =>
      var s := p.listeners[l];
      if s.own == 0 then p else With(p, l, s.(own := s.own - 1, halfway := true), p.total)
    case Second(l, task) =>
      var s := p.listeners[l];
      if p.total == 0 then With(p, l, s.(own := s.own + 1, halfway := false), p.total)
      else With(p, l, s.(halfway := false, owns := s.owns + {task}, totals := s.totals + {task}), p.total - 1)
    case ReleaseTotal(l, task) =>
      var s := p.listeners[l];
      With(p, l, s.(totals := s.totals - {task}), p.total + 1)
    case ReleaseOwn(l, task) =>
      var s := p.listeners[l];
      With(p, l, s.(own := s.own + 1, owns := s.owns - {task}), p.total)
    case StopAccepting(l) => With(p, l, p.listeners[l].(accepting := false), p.total)
  }

  predicate Runs(actions: seq<Action>)
    decreases |actions|, 0
  {
    actions == [] || (Runs(actions[..|actions|-1]) && Can(After(actions[..|actions|-1]), actions[|actions|-1]))
  }

  function After(actions: seq<Action>): Process
    requires Runs(actions)
    decreases |actions|, 1
  {
    if actions == [] then Begin else Next(After(actions[..|actions|-1]), actions[|actions|-1])
  }

  // ----- conservation -----

  function AllAdmitted(listeners: seq<Listener>): nat {
    if listeners == [] then 0
    else AllAdmitted(listeners[..|listeners|-1]) + |listeners[|listeners|-1].totals|
  }

  lemma {:induction false} AllAdmittedUpdate(listeners: seq<Listener>, l: nat, to: Listener)
    requires l < |listeners|
    ensures AllAdmitted(listeners[l := to]) == AllAdmitted(listeners) - |listeners[l].totals| + |to.totals|
    decreases |listeners|
  {
    var n := |listeners| - 1;
    if l == n {
      assert listeners[l := to][..n] == listeners[..n];
    } else {
      assert listeners[l := to][..n] == listeners[..n][l := to];
      AllAdmittedUpdate(listeners[..n], l, to);
    }
  }

  predicate Balanced(s: Listener) {
    s.own + (if s.halfway then 1 else 0) + |s.owns| == PER_LISTENER
  }

  predicate Inv(p: Process) {
    && (forall l :: 0 <= l < |p.listeners| ==> Balanced(p.listeners[l]))
    && p.total + AllAdmitted(p.listeners) == PER_PROCESS
  }

  lemma WithInv(p: Process, l: nat, to: Listener, total: nat)
    requires Inv(p) && l < |p.listeners| && Balanced(to)
    requires total + |to.totals| == p.total + |p.listeners[l].totals|
    ensures Inv(With(p, l, to, total))
  {
    hide Balanced, AllAdmitted;
    AllAdmittedUpdate(p.listeners, l, to);
  }

  lemma OpenInv(p: Process)
    requires Inv(p)
    ensures Inv(Next(p, Open))
  {
    assert Next(p, Open).listeners[..|p.listeners|] == p.listeners;
  }

  lemma InvStep(p: Process, a: Action)
    requires Inv(p) && Can(p, a)
    ensures Inv(Next(p, a))
  {
    hide AllAdmitted;
    if a == Open {
      OpenInv(p);
    } else {
      assert Balanced(p.listeners[a.l]);
      var v := Next(p, a);
      WithInv(p, a.l, v.listeners[a.l], v.total);
      assert v.listeners == p.listeners[a.l := v.listeners[a.l]];
    }
  }

  lemma {:induction false} RunInv(actions: seq<Action>)
    requires Runs(actions)
    ensures Inv(After(actions))
    decreases |actions|
  {
    hide Can, Next;
    if actions != [] {
      RunInv(actions[..|actions|-1]);
      hide Inv;
      InvStep(After(actions[..|actions|-1]), actions[|actions|-1]);
    }
  }

  // Over every run and any number of listeners: no permit is lost or made.
  lemma PermitsConserved(actions: seq<Action>, l: nat)
    requires Runs(actions) && l < |After(actions).listeners|
    ensures var p := After(actions);
            && p.listeners[l].own + (if p.listeners[l].halfway then 1 else 0) + |p.listeners[l].owns| == 128
            && p.total + AllAdmitted(p.listeners) == 512
  {
    RunInv(actions);
    hide Runs, After, AllAdmitted;
    assert Balanced(After(actions).listeners[l]);
  }

  // Both tries of one connection, with nothing in between.
  lemma TwoTries(p: Process, l: nat, task: nat)
    requires Can(p, First(l)) && Unused(p.listeners[l], task)
    ensures var asked := Next(p, First(l));
            && (asked == p <==> p.listeners[l].own == 0)
            && (asked != p ==>
                  && Can(asked, Second(l, task))
                  && (p.total == 0 ==> Next(asked, Second(l, task)) == p)
                  && (p.total > 0 ==>
                        && task in Next(asked, Second(l, task)).listeners[l].owns
                        && task in Next(asked, Second(l, task)).listeners[l].totals))
  {
    var asked := Next(p, First(l));
    if p.listeners[l].own > 0 {
      assert asked.listeners[l] != p.listeners[l];
      if p.total == 0 {
        assert Next(asked, Second(l, task)).listeners == p.listeners;
      }
    }
  }

  // A refusal means exactly that the limit is reached, and undoes itself.
  lemma RefusedIffFull(actions: seq<Action>, l: nat, task: nat)
    requires Runs(actions) && Can(After(actions), First(l)) && Unused(After(actions).listeners[l], task)
    ensures var p := After(actions);
            var asked := Next(p, First(l));
            && (asked == p <==> |p.listeners[l].owns| == 128)
            && (asked != p ==>
                  && Can(asked, Second(l, task))
                  && (Next(asked, Second(l, task)) == p <==> AllAdmitted(p.listeners) == 512)
                  && (Next(asked, Second(l, task)) != p <==>
                        var s := Next(asked, Second(l, task)).listeners[l]; task in s.owns * s.totals))
  {
    hide Runs, After, AllAdmitted, Next;
    PermitsConserved(actions, l);
    TwoTries(After(actions), l, task);
  }

  // ----- what the permits say of the run -----

  // The tasks of a listener that hold its permits, and those that hold a process
  // permit: admitted with both, and given up one by one.
  function OwnsOf(actions: seq<Action>, l: nat): set<nat>
    requires Runs(actions)
    decreases |actions|
  {
    if actions == [] then {}
    else
      var before := actions[..|actions|-1];
      match actions[|actions|-1]
      case Second(m, t) => OwnsOf(before, l) + (if m == l && After(before).total > 0 then {t} else {})
      case ReleaseOwn(m, t) => OwnsOf(before, l) - (if m == l then {t} else {})
      case _ => OwnsOf(before, l)
  }

  function TotalsOf(actions: seq<Action>, l: nat): set<nat>
    requires Runs(actions)
    decreases |actions|
  {
    if actions == [] then {}
    else
      var before := actions[..|actions|-1];
      match actions[|actions|-1]
      case Second(m, t) => TotalsOf(before, l) + (if m == l && After(before).total > 0 then {t} else {})
      case ReleaseTotal(m, t) => TotalsOf(before, l) - (if m == l then {t} else {})
      case _ => TotalsOf(before, l)
  }

  function Opened(actions: seq<Action>): nat {
    if actions == [] then 0 else Opened(actions[..|actions|-1]) + if actions[|actions|-1] == Open then 1 else 0
  }

  predicate Holds(p: Process, l: nat, owns: set<nat>, totals: set<nat>, stopped: bool) {
    if l < |p.listeners|
    then p.listeners[l].owns == owns && p.listeners[l].totals == totals && p.listeners[l].accepting == !stopped
    else owns == {} && totals == {} && !stopped
  }

  lemma HoldsStep(p: Process, a: Action, l: nat, owns: set<nat>, totals: set<nat>, stopped: bool)
    requires Holds(p, l, owns, totals, stopped) && Can(p, a)
    ensures Holds(Next(p, a), l,
                  if a.Second? && a.l == l && p.total > 0 then owns + {a.task}
                  else if a.ReleaseOwn? && a.l == l then owns - {a.task} else owns,
                  if a.Second? && a.l == l && p.total > 0 then totals + {a.task}
                  else if a.ReleaseTotal? && a.l == l then totals - {a.task} else totals,
                  stopped || a == StopAccepting(l))
    ensures |Next(p, a).listeners| == |p.listeners| + if a == Open then 1 else 0
  {
  }

  predicate StoppedBy(actions: seq<Action>, l: nat) {
    exists j :: 0 <= j < |actions| && actions[j] == StopAccepting(l)
  }

  lemma StoppedMore(actions: seq<Action>, l: nat)
    requires actions != []
    ensures StoppedBy(actions, l) <==>
              StoppedBy(actions[..|actions|-1], l) || actions[|actions|-1] == StopAccepting(l)
  {
    var before := actions[..|actions|-1];
    assert forall j :: 0 <= j < |before| ==> before[j] == actions[j];
  }

  // In every run a permit is held exactly by the tasks that were admitted and have
  // not given it up, and a listener accepts until it is stopped.
  lemma {:induction false} PermitsTellHistory(actions: seq<Action>, l: nat)
    requires Runs(actions)
    ensures Holds(After(actions), l, OwnsOf(actions, l), TotalsOf(actions, l), StoppedBy(actions, l))
    ensures |After(actions).listeners| == Opened(actions)
    decreases |actions|
  {
    hide Can, Next, Holds, StoppedBy;
    if actions == [] {
      NothingHeld(l);
    } else {
      var before, a := actions[..|actions|-1], actions[|actions|-1];
      PermitsTellHistory(before, l);
      StoppedMore(actions, l);
      HoldsStep(After(before), a, l, OwnsOf(before, l), TotalsOf(before, l), StoppedBy(before, l));
      assert OwnsOf(before, l) + {} == OwnsOf(before, l) == OwnsOf(before, l) - {};
      assert TotalsOf(before, l) + {} == TotalsOf(before, l) == TotalsOf(before, l) - {};
    }
  }

  lemma NothingHeld(l: nat)
    ensures !StoppedBy([], l) && Holds(Begin, l, {}, {}, false)
  {
  }
}
