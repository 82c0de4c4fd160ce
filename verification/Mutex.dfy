/**
  Mutexes with priority inheritance (src/ipc.c), one mutex used alone: no other object changes the
  priority of the threads that use it.

  `hold` is an 8-bit counter in the kernel, so it is kept modulo 256; `depth` is the true nesting depth
  of the owner's takes, which only the specification knows.
 */
module MutexSpec {
  import opened WaitLists

  datatype Owner = Nobody | Thread(t: Tid)

  datatype Reply = Slept | Returned(err: Err)

  datatype State = State(
    value: nat,
    owner: Owner,
    hold: nat,
    original: nat,
    order: Order,
    waiters: Side<()>,
    current: map<Tid, nat>,
    base: map<Tid, nat>,
    depth: nat)

  datatype Action =
    | Take(t: Tid, timeout: int)
    | Return(t: Tid)
    | Release(t: Tid)
    | TimerFires(t: Tid)

  const HOLD_MODULUS := 256
  const NO_PRIORITY := 0xff

  function Init(order: Order, base: map<Tid, nat>): State {
    State(1, Nobody, 0, NO_PRIORITY, order, Side([], map[]), base, base, 0)
  }

  function TakeStep(s: State, t: Tid, timeout: int): (State, Reply)
    requires t in s.current && (s.owner.Thread? ==> s.owner.t in s.current)
    requires s.value == 0 ==> s.owner.Thread?
  {
    if s.owner == Thread(t) then
      (s.(hold := (s.hold + 1) % HOLD_MODULUS, depth := s.depth + 1), Returned(Eok))
    else if s.value > 0 then
      (s.(value := s.value - 1, owner := Thread(t), original := s.current[t],
          hold := (s.hold + 1) % HOLD_MODULUS, depth := 1), Returned(Eok))
    else if timeout == 0 then
      (s, Returned(Etimeout))
    else
      var boosted :=
        if s.current[t] < s.current[s.owner.t] then s.current[s.owner.t := s.current[t]] else s.current;
      (s.(current := boosted, waiters := Sleep(s.waiters, t, Ticket(Eok, timeout, 0, ()), boosted, s.order)), Slept)
  }

  function ReleaseStep(s: State, t: Tid): (State, Reply)
    requires s.owner.Thread? ==> s.owner.t in s.current
    requires forall w :: w in s.waiters.asleep ==> w in s.current
  {
    if s.owner != Thread(t) then (s, Returned(Error))
    else
      var hold := (s.hold - 1) % HOLD_MODULUS;
      if hold != 0 then (s.(hold := hold, depth := if s.depth > 0 then s.depth - 1 else 0), Returned(Eok))
      else
        var restored := s.current[t := s.original];
        if s.waiters.asleep != [] then
          var next := s.waiters.asleep[0];
          assert next in s.waiters.asleep;
          (s.(owner := Thread(next), original := restored[next], hold := 1, depth := 1,
              current := restored, waiters := WakeFirst(s.waiters)), Returned(Eok))
        else
          (s.(value := s.value + 1, owner := Nobody, original := NO_PRIORITY, hold := 0, depth := 0,
              current := restored), Returned(Eok))
  }

  // A parked thread runs again and reports `thread->error`.
  function ReturnStep(s: State, t: Tid): (State, Reply)
    requires t in s.waiters.parked
  {
    (s.(waiters := Leave(s.waiters, t)), Returned(s.waiters.parked[t].error))
  }

  predicate Enabled(s: State, a: Action) {
    match a
    case Take(t, _) => t in s.current && t !in s.waiters.parked
    case Return(t) => t in s.waiters.parked && t !in s.waiters.asleep
    case Release(t) => t in s.current && t !in s.waiters.parked
    case TimerFires(t) => t in s.waiters.asleep && t in s.waiters.parked && s.waiters.parked[t].timeout > 0
  }

  function Step(s: State, a: Action): State
    requires Shape(s) && Enabled(s, a)
  {
    match a
    case Take(t, timeout) => TakeStep(s, t, timeout).0
    case Return(t) => ReturnStep(s, t).0
    case Release(t) => ReleaseStep(s, t).0
    case TimerFires(t) => s.(waiters := Expire(s.waiters, t))
  }

  // ----- what holds in every reachable state, whatever the waiting order

  ghost predicate Shape(s: State) {
    && s.value == (if s.owner.Nobody? then 1 else 0)
    && (s.owner.Nobody? ==> s.waiters.asleep == [] && s.hold == 0 && s.depth == 0)
    && (s.owner.Thread? ==> s.owner.t in s.current && s.owner.t !in s.waiters.asleep
                            && s.depth > 0 && s.hold == s.depth % HOLD_MODULUS)
    && SideOk(s.waiters)
    && s.current.Keys == s.base.Keys
    && (forall t :: t in s.waiters.parked ==> t in s.current)
    && (forall t :: t in Woken(s.waiters) ==> s.owner == Thread(t))
    && Priorities(s)
  }

  // Only the owner's priority differs from what the thread started with, and only upwards.
  ghost predicate Priorities(s: State)
    requires s.current.Keys == s.base.Keys && (s.owner.Thread? ==> s.owner.t in s.current)
  {
    && (forall t :: t in s.current && s.owner != Thread(t) ==> s.current[t] == s.base[t])
    && (s.owner.Thread? ==>
         && s.original == s.base[s.owner.t]
         && s.current[s.owner.t] <= s.original
         && exists t :: t in s.base && s.base[t] == s.current[s.owner.t])
  }

  // The owner is at least as urgent as every thread that waits, and the list is in priority order.
  ghost predicate Inherited(s: State) {
    && (forall w :: w in s.waiters.asleep ==> w in s.current)
    && SortedByPriority(s.waiters.asleep, s.current)
    && (s.owner.Thread? && s.owner.t in s.current ==>
         forall w :: w in s.waiters.asleep ==> s.current[s.owner.t] <= s.current[w])
  }

  lemma TakeKeepsShape(s: State, t: Tid, timeout: int)
    requires Shape(s) && Enabled(s, Take(t, timeout))
    ensures Shape(TakeStep(s, t, timeout).0)
  {
    var s' := TakeStep(s, t, timeout).0;
    if s.owner == Thread(t) || s.value > 0 {
      assert s'.waiters == s.waiters;
      assert s.base[t] == s.base[t];
    } else if timeout != 0 {
      EnqueuedElements(s.waiters.asleep, s'.current, t, s.order);
      assert Woken(s'.waiters) == Woken(s.waiters);
    }
  }

  lemma ReleaseKeepsShape(s: State, t: Tid)
    requires Shape(s) && Enabled(s, Release(t))
    ensures Shape(ReleaseStep(s, t).0)
  {
    if s.owner == Thread(t) && (s.hold - 1) % HOLD_MODULUS == 0 && s.waiters.asleep != [] {
      var s', next := ReleaseStep(s, t).0, s.waiters.asleep[0];
      assert next in s.waiters.asleep;
      assert Woken(s'.waiters) == Woken(s.waiters) + {next};
      assert s'.current[next] == s.base[next];
    }
  }

  lemma StepKeepsShape(s: State, a: Action)
    requires Shape(s) && Enabled(s, a)
    ensures Shape(Step(s, a))
  {
    match a
    case Take(t, timeout) => TakeKeepsShape(s, t, timeout);
    case Return(t) => assert Woken(Leave(s.waiters, t)) == Woken(s.waiters) - {t};
    case Release(t) => ReleaseKeepsShape(s, t);
    case TimerFires(t) =>
      ExpireKeeps(s.waiters, t, 0);
      assert Woken(Expire(s.waiters, t)) == Woken(s.waiters);
  }

  lemma TakeKeepsInherited(s: State, t: Tid, timeout: int)
    requires Shape(s) && Inherited(s) && s.order == Prio && Enabled(s, Take(t, timeout))
    ensures Inherited(TakeStep(s, t, timeout).0)
  {
    var s' := TakeStep(s, t, timeout).0;
    if s.owner != Thread(t) && s.value == 0 && timeout != 0 {
      assert SortedByPriority(s.waiters.asleep, s'.current);
      PrioInsertKeepsSorted(s.waiters.asleep, s'.current, t);
      EnqueuedElements(s.waiters.asleep, s'.current, t, Prio);
    }
  }

  lemma ReleaseKeepsInherited(s: State, t: Tid)
    requires Shape(s) && Inherited(s) && Enabled(s, Release(t))
    ensures Inherited(ReleaseStep(s, t).0)
  {
    var s' := ReleaseStep(s, t).0;
    if s.owner == Thread(t) && (s.hold - 1) % HOLD_MODULUS == 0 && s.waiters.asleep != [] {
      var list := s.waiters.asleep;
      assert list[0] in list;
      forall w | w in list[1..] ensures s'.current[list[0]] <= s'.current[w] {
        var k :| 0 <= k < |list[1..]| && list[1..][k] == w;
        assert w == list[k + 1];
        assert w in list;
      }
    }
  }

  lemma ConsSorted(x: Tid, list: seq<Tid>, prio: map<Tid, nat>)
    requires SortedByPriority(list, prio) && x in prio
    requires forall y :: y in list ==> prio[x] <= prio[y]
    ensures SortedByPriority([x] + list, prio)
  {
  }

  lemma TailSorted(list: seq<Tid>, prio: map<Tid, nat>)
    requires SortedByPriority(list, prio) && list != []
    ensures SortedByPriority(list[1..], prio)
    ensures forall y :: y in list[1..] ==> prio[list[0]] <= prio[y]
  {
    assert forall k :: 0 <= k < |list[1..]| ==> list[1..][k] == list[k + 1];
  }

  lemma {:induction false} WithoutKeepsSorted(list: seq<Tid>, prio: map<Tid, nat>, t: Tid)
    requires SortedByPriority(list, prio)
    ensures SortedByPriority(Without(list, t), prio)
  {
    if list != [] {
      TailSorted(list, prio);
      WithoutKeepsSorted(list[1..], prio, t);
      if list[0] != t {
        assert list[0] in list;
        ConsSorted(list[0], Without(list[1..], t), prio);
      }
    }
  }

  lemma StepKeepsInherited(s: State, a: Action)
    requires Shape(s) && Inherited(s) && s.order == Prio && Enabled(s, a)
    ensures Inherited(Step(s, a))
  {
    match a
    case Take(t, timeout) => TakeKeepsInherited(s, t, timeout);
    case Return(t) =>
    case Release(t) => ReleaseKeepsInherited(s, t);
    case TimerFires(t) => WithoutKeepsSorted(s.waiters.asleep, s.current, t);
  }

  // ----- runs

  lemma StepKeeps(s: State, a: Action)
    requires Shape(s) && Enabled(s, a)
    ensures Shape(Step(s, a)) && Step(s, a).order == s.order && Step(s, a).base == s.base
    ensures s.order == Prio && Inherited(s) ==> Inherited(Step(s, a))
  {
    hide Inherited, SortedByPriority, Priorities, Woken, SideOk, NoDup;
    StepKeepsShape(s, a);
    if s.order == Prio && Inherited(s) {
      StepKeepsInherited(s, a);
    }
  }

  ghost predicate IsRun(s: State, run: seq<Action>, e: State)
    requires Shape(s)
    decreases run
  {
    if run == [] then s == e
    else Enabled(s, run[0]) && (StepKeeps(s, run[0]); IsRun(Step(s, run[0]), run[1..], e))
  }

  lemma {:induction false} RunKeeps(s: State, run: seq<Action>, e: State)
    requires Shape(s) && IsRun(s, run, e)
    ensures Shape(e) && e.order == s.order && e.base == s.base
    ensures s.order == Prio && Inherited(s) ==> Inherited(e)
    decreases run
  {
    if run != [] {
      StepKeeps(s, run[0]);
      RunKeeps(Step(s, run[0]), run[1..], e);
    }
  }

  // ----- the theorems

  // In every reachable state of a priority-ordered mutex: it is available exactly when nobody owns it,
  // and then nobody waits; the owner is at least as urgent as every waiter; and every thread but the
  // owner runs at the priority it started with.
  lemma PriorityInheritance(base: map<Tid, nat>, run: seq<Action>, e: State)
    requires IsRun(Init(Prio, base), run, e)
    ensures e.value == 1 <==> e.owner.Nobody?
    ensures e.owner.Nobody? ==> e.waiters.asleep == []
    ensures e.owner.Thread? ==> forall w :: w in e.waiters.asleep ==>
              w in e.current && e.owner.t in e.current && e.current[e.owner.t] <= e.current[w]
    ensures forall t :: t in base && e.owner != Thread(t) ==> t in e.current && e.current[t] == base[t]
  {
    RunKeeps(Init(Prio, base), run, e);
  }

  // A take returns RT_EOK, at once or after sleeping, only to the owner.
  lemma TakenMeansOwned(s: State, t: Tid, timeout: int)
    requires Shape(s)
    ensures Enabled(s, Take(t, timeout)) && TakeStep(s, t, timeout).1 == Returned(Eok) ==>
              TakeStep(s, t, timeout).0.owner == Thread(t)
    ensures Enabled(s, Return(t)) && ReturnStep(s, t).1 == Returned(Eok) ==> s.owner == Thread(t)
  {
    if Enabled(s, Return(t)) && ReturnStep(s, t).1 == Returned(Eok) {
      assert t in Woken(s.waiters);
    }
  }

  // A take succeeds exactly if the mutex is free or the caller's own; else it reports the timeout at once,
  // or sleeps and lends the owner its priority if it is more urgent.
  lemma TakeReplies(s: State, t: Tid, timeout: int)
    requires Shape(s) && Enabled(s, Take(t, timeout))
    ensures var (s', r) := TakeStep(s, t, timeout);
      var mine := s.owner == Nobody || s.owner == Thread(t);
      && (r == Returned(Eok) <==> mine)
      && (r == Returned(Etimeout) <==> !mine && timeout == 0)
      && (r == Slept <==> !mine && timeout != 0)
      && (r == Returned(Eok) ==> s'.owner == Thread(t) && s'.depth == s.depth + 1 && s'.current == s.current && s'.waiters == s.waiters)
      && (r == Returned(Etimeout) ==> s' == s)
      && (r == Slept ==>
            && t in s'.waiters.asleep && s'.waiters.parked == s.waiters.parked[t := Ticket(Eok, timeout, 0, ())]
            && s'.owner == s.owner && s'.depth == s.depth && s'.current.Keys == s.current.Keys
            && forall x :: x in s.current ==>
                 s'.current[x] == if s.owner == Thread(x) && s.current[t] < s.current[x] then s.current[t] else s.current[x])
  {
    if s.owner != Thread(t) && s.value == 0 && timeout != 0 {
      EnqueuedElements(s.waiters.asleep, TakeStep(s, t, timeout).0.current, t, s.order);
    }
  }

  // A release is refused exactly to a thread that does not own the mutex.  The one that gives it away
  // wakes exactly its new owner, whose take then reports RT_EOK.
  lemma ReleaseReplies(s: State, t: Tid)
    requires Shape(s) && Enabled(s, Release(t))
    ensures var (s', r) := ReleaseStep(s, t);
      && (r == Returned(Error) <==> s.owner != Thread(t))
      && (r == Returned(Eok) <==> s.owner == Thread(t))
      && (s.owner != Thread(t) ==> s' == s)
      && (s.owner == Thread(t) && s'.owner == Thread(t) ==> s'.depth == s.depth - 1 && s'.current == s.current && s'.waiters == s.waiters)
      && (s.owner == Thread(t) && s'.owner.Nobody? ==> s.waiters.asleep == [] && s'.waiters == s.waiters)
      && (s.owner == Thread(t) && s'.owner.Thread? && s'.owner.t != t ==>
            && s.waiters.asleep == [s'.owner.t] + s'.waiters.asleep && s'.depth == 1
            && Enabled(s', Return(s'.owner.t)) && ReturnStep(s', s'.owner.t).1 == Returned(Eok))
  {
    if s.waiters.asleep != [] {
      assert s.waiters.asleep[0] in s.waiters.asleep;
    }
  }

  // The release that gives the mutex away puts the old owner back to the priority it had when it
  // acquired the mutex, and hands over to the first waiter if there is one.
  lemma FinalReleaseRestores(s: State, t: Tid)
    requires Shape(s) && s.owner == Thread(t) && ReleaseStep(s, t).0.owner != Thread(t)
    ensures ReleaseStep(s, t).0.current[t] == s.base[t]
    ensures ReleaseStep(s, t).0.owner == if s.waiters.asleep == [] then Nobody else Thread(s.waiters.asleep[0])
  {
  }

  // The 8-bit counter: a release gives the mutex away exactly when it matches the outermost take,
  // if and only if the nesting depth is not 1 modulo 256 above 1.
  lemma ReleaseMatchesOutermostTake(s: State, t: Tid)
    requires Shape(s) && s.owner == Thread(t) && t !in s.waiters.asleep
    ensures (ReleaseStep(s, t).0.owner != Thread(t) <==> s.depth == 1)
            <==> (s.depth == 1 || s.depth % HOLD_MODULUS != 1)
  {
    if s.waiters.asleep != [] {
      assert s.waiters.asleep[0] in s.waiters.asleep;
    }
  }

  // Hence nesting at most 256 takes is safe ...
  lemma ShallowNestingIsSafe(s: State, t: Tid)
    requires Shape(s) && s.owner == Thread(t) && s.depth <= HOLD_MODULUS
    ensures ReleaseStep(s, t).0.owner != Thread(t) <==> s.depth == 1
  {
    ReleaseMatchesOutermostTake(s, t);
  }

  // ... and 257 (or 513, ...) are not: the first release gives the mutex away with all but one of the
  // takes still open.
  lemma DeepNestingReleasesEarly(n: nat)
    requires n > 1 && n % HOLD_MODULUS == 1
    ensures IsNest(Init(Prio, map[0 := 5]), n, Nested(n))
    ensures Shape(Nested(n)) && ReleaseStep(Nested(n), 0).0.owner == Nobody
  {
    var i := Init(Prio, map[0 := 5]);
    assert Woken(i.waiters) == {};
    assert i.base[0] == 5;
    NestedShape(n);
    NestMore(1, n - 1);
    assert TakeStep(i, 0, 0).0 == Nested(1);
  }

  // The state after `n` takes of thread 0 in a row.
  function Nested(n: nat): State {
    Init(Prio, map[0 := 5]).(value := 0, owner := Thread(0), hold := n % HOLD_MODULUS, original := 5, depth := n)
  }

  ghost predicate IsNest(s: State, n: nat, e: State)
    decreases n
  {
    if n == 0 then s == e
    else Shape(s) && Enabled(s, Take(0, 0)) && IsNest(TakeStep(s, 0, 0).0, n - 1, e)
  }

  lemma NestedShape(n: nat)
    requires n > 0
    ensures Shape(Nested(n))
  {
    assert Woken(Nested(n).waiters) == {};
    assert Nested(n).base[0] == 5;
  }

  lemma {:induction false} NestMore(k: nat, n: nat)
    requires k > 0
    ensures IsNest(Nested(k), n, Nested(k + n))
    decreases n
  {
    if n > 0 {
      NestedShape(k);
      assert TakeStep(Nested(k), 0, 0).0 == Nested(k + 1);
      NestMore(k + 1, n - 1);
    }
  }

  // The owner is at least as urgent as every thread that waits.
  ghost predicate OwnerMostUrgent(s: State) {
    s.owner.Thread? ==> forall w :: w in s.waiters.asleep ==>
      w in s.current && s.owner.t in s.current && s.current[s.owner.t] <= s.current[w]
  }

  ghost predicate InheritsInEveryRun(order: Order) {
    forall base: map<Tid, nat>, run: seq<Action>, e: State :: IsRun(Init(order, base), run, e) ==> OwnerMostUrgent(e)
  }

  // Inheritance holds in every run exactly if the mutex waits by priority.  First-in-first-out waiting
  // loses it at the hand-over.
  lemma InheritanceNeedsPriorityOrder(order: Order)
    requires order == Fifo || order == Prio
    ensures InheritsInEveryRun(order) <==> order == Prio
  {
    if order == Prio {
      forall base: map<Tid, nat>, run: seq<Action>, e: State | IsRun(Init(Prio, base), run, e) ensures OwnerMostUrgent(e) {
        PriorityInheritance(base, run, e);
      }
    } else {
      FifoLosesInheritance();
    }
  }

  const THREE: map<Tid, nat> := map[0 := 30, 1 := 20, 2 := 10]

  // Thread 0 takes the mutex, threads 1 and 2 wait in this order ...
  function Stage(n: nat): State {
    var k, s := Ticket(Eok, -1, 0, ()), Init(Fifo, THREE);
    var taken := s.(value := 0, owner := Thread(0), original := 30, hold := 1, depth := 1);
    if n == 0 then s
    else if n == 1 then taken
    else if n == 2 then taken.(current := map[0 := 20, 1 := 20, 2 := 10], waiters := Side([1], map[1 := k]))
    else if n == 3 then taken.(current := map[0 := 10, 1 := 20, 2 := 10], waiters := Side([1, 2], map[1 := k, 2 := k]))
    else taken.(owner := Thread(1), original := 20, waiters := Side([2], map[1 := k, 2 := k]))
  }

  function Act(n: nat): Action { if n == 0 then Take(0, 0) else if n == 1 then Take(1, -1) else if n == 2 then Take(2, -1) else Release(0) }

  lemma StageSteps(n: nat)
    requires n < 4 && Shape(Stage(n))
    ensures Enabled(Stage(n), Act(n)) && Step(Stage(n), Act(n)) == Stage(n + 1) && Shape(Stage(n + 1))
  {
    hide Shape, Stage, TakeStep, ReleaseStep;
    if n == 0 { FirstTakes(); } else if n == 1 { SecondWaits(); } else if n == 2 { ThirdWaits(); } else { FirstReleases(); }
    StepKeeps(Stage(n), Act(n));
  }

  lemma FirstTakes()
    ensures Enabled(Stage(0), Take(0, 0)) && TakeStep(Stage(0), 0, 0).0 == Stage(1)
  {
  }

  lemma SecondWaits()
    ensures Enabled(Stage(1), Take(1, -1)) && TakeStep(Stage(1), 1, -1).0 == Stage(2)
  {
    var s := Stage(1);
    assert s.current[0 := 20] == map[0 := 20, 1 := 20, 2 := 10];
    assert s.waiters.parked == map[];
  }

  lemma ThirdWaits()
    ensures Enabled(Stage(2), Take(2, -1)) && TakeStep(Stage(2), 2, -1).0 == Stage(3)
  {
    var s := Stage(2);
    assert s.current[0 := 10] == map[0 := 10, 1 := 20, 2 := 10];
    assert s.waiters.parked[2 := Ticket(Eok, -1, 0, ())] == Stage(3).waiters.parked;
    assert [1] + [2] == [1, 2];
  }

  lemma FirstReleases()
    ensures Enabled(Stage(3), Release(0)) && (forall w :: w in Stage(3).waiters.asleep ==> w in Stage(3).current)
    ensures ReleaseStep(Stage(3), 0).0 == Stage(4)
  {
    assert Stage(3).current[0 := 30] == THREE;
    assert [1, 2][1..] == [2];
  }

  // ... and the release hands over to thread 1 (priority 20) while thread 2 (priority 10) still waits.
  lemma FifoLosesInheritance()
    ensures !InheritsInEveryRun(Fifo)
  {
    hide Step, Shape, Enabled, Stage;
    StartShape();
    StageSteps(0);
    StageSteps(1);
    StageSteps(2);
    StageSteps(3);
    OneMore(3, []);
    OneMore(2, [Act(3)] + []);
    OneMore(1, [Act(2)] + ([Act(3)] + []));
    OneMore(0, [Act(1)] + ([Act(2)] + ([Act(3)] + [])));
    EndsBadly();
  }

  lemma StartShape()
    ensures Shape(Stage(0)) && Stage(0) == Init(Fifo, THREE)
  {
  }

  lemma EndsBadly()
    ensures !OwnerMostUrgent(Stage(4))
  {
    assert 2 in Stage(4).waiters.asleep;
  }

  lemma OneMore(n: nat, rest: seq<Action>)
    requires n < 4 && Shape(Stage(n)) && Shape(Stage(n + 1)) && IsRun(Stage(n + 1), rest, Stage(4))
    ensures IsRun(Stage(n), [Act(n)] + rest, Stage(4))
  {
    hide Shape, Stage;
    StageSteps(n);
    assert ([Act(n)] + rest)[1..] == rest;
  }
}

module Mutexes {
  import opened WaitLists
  import opened MutexSpec

  class Mutex {
    var value: nat
    var owner: Owner
    var hold: nat
    var originalPriority: nat
    const order: Order
    const suspended: WaitList<()>
    var currentPriority: map<Tid, nat>   // thread->current_priority of the threads using the mutex
    ghost const base: map<Tid, nat>
    ghost var depth: nat

    ghost function Abs(): State
      reads this, suspended
    {
      State(value, owner, hold, originalPriority, order, suspended.Abs(), currentPriority, base, depth)
    }

    // rt_mutex_init
    constructor (order: Order, priorities: map<Tid, nat>)
      ensures Abs() == Init(order, priorities) && fresh(suspended) && Shape(Abs())
    {
      value, owner, hold, originalPriority := 1, Nobody, 0, NO_PRIORITY;
      this.order := order;
      suspended := new WaitList<()>();
      currentPriority, base := priorities, priorities;
      depth := 0;
    }

    // rt_mutex_take, up to rt_schedule().
    method TakeMutex(t: Tid, timeout: int) returns (r: Reply)
      requires Shape(Abs()) && Enabled(Abs(), Take(t, timeout))
      modifies this, suspended
      ensures (Abs(), r) == TakeStep(old(Abs()), t, timeout)
    {
      if owner == Thread(t) {
        hold := (hold + 1) % HOLD_MODULUS;
        depth := depth + 1;
        return Returned(Eok);
      }
      if value > 0 {
        value := value - 1;
        owner, originalPriority := Thread(t), currentPriority[t];
        hold := (hold + 1) % HOLD_MODULUS;
        depth := 1;
        return Returned(Eok);
      }
      if timeout == 0 {
        return Returned(Etimeout);
      }
      if currentPriority[t] < currentPriority[owner.t] {
        currentPriority := currentPriority[owner.t := currentPriority[t]];
      }
      suspended.Suspend(t, Ticket(Eok, timeout, 0, ()), currentPriority, order);
      return Slept;
    }

    // rt_mutex_take after rt_schedule().
    method ReturnFromTake(t: Tid) returns (r: Reply)
      requires t in suspended.parked
      modifies suspended
      ensures (Abs(), r) == ReturnStep(old(Abs()), t)
    {
      r := Returned(suspended.parked[t].error);
      suspended.Unpark(t);
    }

    // rt_mutex_release
    method ReleaseMutex(t: Tid) returns (r: Reply)
      requires t in currentPriority && (owner.Thread? ==> owner.t in currentPriority && depth > 0)
      requires forall w :: w in suspended.asleep ==> w in currentPriority
      modifies this, suspended
      ensures (Abs(), r) == ReleaseStep(old(Abs()), t)
    {
      if owner != Thread(t) {
        return Returned(Error);
      }
      hold := (hold - 1) % HOLD_MODULUS;
      depth := depth - 1;
      if hold == 0 {
        if originalPriority != currentPriority[t] {
          currentPriority := currentPriority[t := originalPriority];
        }
        assert currentPriority == old(currentPriority)[t := originalPriority];
        if suspended.asleep != [] {
          var thread := suspended.asleep[0];
          assert thread in suspended.asleep;
          owner, originalPriority := Thread(thread), currentPriority[thread];
          hold := hold + 1;
          depth := 1;
          suspended.ResumeFirst();
        } else {
          value := value + 1;
          owner, originalPriority := Nobody, NO_PRIORITY;
          depth := 0;
        }
      }
      return Returned(Eok);
    }
  }
}
