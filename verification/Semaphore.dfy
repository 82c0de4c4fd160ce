/**
  Counting semaphores (src/ipc.c).  A release hands its unit to the first waiter directly, without
  counting it; the counter has 16 bits.

  `granted`, `reported` and `released` only keep the books: units given out, takes that returned RT_EOK,
  and releases; `initial` is what the counter started from.
 */
module SemaphoreSpec {
  import opened WaitLists

  const VALUE_MODULUS := 0x1_0000

  datatype Reply = Slept | Returned(err: Err)

  datatype State = State(
    value: nat,
    order: Order,
    waiters: Side<()>,
    prio: map<Tid, nat>,
    initial: int,
    released: nat,
    granted: nat,
    reported: nat)

  datatype Action =
    | Take(t: Tid, timeout: int)
    | Return(t: Tid)
    | Release
    | TimerFires(t: Tid)
    | Reset(value: nat)
    | SetPriority(t: Tid, p: nat)

  function Init(value: nat, order: Order): State {
    State(value, order, Side([], map[]), map[], value, 0, 0, 0)
  }

  function TakeStep(s: State, t: Tid, timeout: int): (State, Reply) {
    if s.value > 0 then
      (s.(value := s.value - 1, granted := s.granted + 1, reported := s.reported + 1), Returned(Eok))
    else if timeout == 0 then (s, Returned(Etimeout))
    else (s.(waiters := Sleep(s.waiters, t, Ticket(Eok, timeout, 0, ()), s.prio, s.order)), Slept)
  }

  // A parked thread runs again and reports `thread->error`, without testing the counter again.
  function ReturnStep(s: State, t: Tid): (State, Reply)
    requires t in s.waiters.parked
  {
    var err := s.waiters.parked[t].error;
    (s.(waiters := Leave(s.waiters, t), reported := if err == Eok then s.reported + 1 else s.reported), Returned(err))
  }

  function ReleaseStep(s: State): State {
    if s.waiters.asleep != [] then s.(waiters := WakeFirst(s.waiters), released := s.released + 1, granted := s.granted + 1)
    else s.(value := (s.value + 1) % VALUE_MODULUS, released := s.released + 1)
  }

  // The books start anew with the value given.
  function ResetStep(s: State, value: nat): State {
    s.(waiters := FailAll(s.waiters), value := value % VALUE_MODULUS,
       initial := value % VALUE_MODULUS + s.granted - s.released)
  }

  predicate Enabled(s: State, a: Action) {
    match a
    case Take(t, _) => t !in s.waiters.parked
    case Return(t) => t in s.waiters.parked && t !in s.waiters.asleep
    case Release => true
    case TimerFires(t) => t in s.waiters.asleep && t in s.waiters.parked && s.waiters.parked[t].timeout > 0
    case Reset(_) => true
    case SetPriority(_, _) => true
  }

  function Step(s: State, a: Action): State
    requires Enabled(s, a)
  {
    match a
    case Take(t, timeout) => TakeStep(s, t, timeout).0
    case Return(t) => ReturnStep(s, t).0
    case Release => ReleaseStep(s)
    case TimerFires(t) => s.(waiters := Expire(s.waiters, t))
    case Reset(value) => ResetStep(s, value)
    case SetPriority(t, p) => s.(prio := s.prio[t := p])
  }

  ghost predicate IsRun(s: State, run: seq<Action>, e: State)
    decreases run
  {
    if run == [] then s == e
    else Enabled(s, run[0]) && IsRun(Step(s, run[0]), run[1..], e)
  }

  // The units that are there according to the books.
  function Left(s: State): int { s.initial + s.released - s.granted }

  // The 16-bit counter for `n` units.
  predicate Counts(value: nat, n: int) { 0 <= n && value == n % VALUE_MODULUS }

  lemma CountsUpAndDown(value: nat, n: int)
    requires Counts(value, n)
    ensures Counts((value + 1) % VALUE_MODULUS, n + 1)
    ensures value > 0 ==> Counts(value - 1, n - 1)
    ensures 0 <= n && (value == n <==> n < VALUE_MODULUS)
  {
  }

  lemma CountsAnew(v: nat)
    ensures Counts(v % VALUE_MODULUS, v % VALUE_MODULUS) && (v < VALUE_MODULUS ==> v % VALUE_MODULUS == v)
  {
  }

  ghost predicate Inv(s: State) {
    && SideOk(s.waiters)
    && (s.waiters.asleep != [] ==> s.value == 0)
    && Counts(s.value, Left(s))
    && s.granted == s.reported + |Woken(s.waiters)|
  }

  lemma TakeKeepsInv(s: State, t: Tid, timeout: int)
    requires Inv(s) && t !in s.waiters.parked
    ensures Inv(TakeStep(s, t, timeout).0)
  {
    hide Counts;
    CountsUpAndDown(s.value, Left(s));
    if s.value == 0 && timeout != 0 {
      EnqueuedElements(s.waiters.asleep, s.prio, t, s.order);
      assert Woken(TakeStep(s, t, timeout).0.waiters) == Woken(s.waiters);
    }
  }

  lemma ReleaseKeepsInv(s: State)
    requires Inv(s)
    ensures Inv(ReleaseStep(s))
  {
    hide Counts;
    CountsUpAndDown(s.value, Left(s));
    if s.waiters.asleep != [] {
      WakeFirstKeeps(s.waiters, 0);
      var t := s.waiters.asleep[0];
      assert t in s.waiters.asleep && t !in s.waiters.asleep[1..];
      assert Woken(ReleaseStep(s).waiters) == Woken(s.waiters) + {t};
    }
  }

  lemma StepKeepsInv(s: State, a: Action)
    requires Inv(s) && Enabled(s, a)
    ensures Inv(Step(s, a))
  {
    hide Counts;
    match a
    case Take(t, timeout) => TakeKeepsInv(s, t, timeout);
    case Return(t) =>
      assert Woken(Leave(s.waiters, t)) == Woken(s.waiters) - {t};
    case Release => ReleaseKeepsInv(s);
    case TimerFires(t) =>
      ExpireKeeps(s.waiters, t, 0);
      assert Woken(Expire(s.waiters, t)) == Woken(s.waiters);
    case Reset(value) =>
      CountsAnew(value);
      assert Woken(FailAll(s.waiters)) == Woken(s.waiters);
    case SetPriority(_, _) =>
  }

  lemma {:induction false} RunKeepsInv(s: State, run: seq<Action>, e: State)
    requires Inv(s) && IsRun(s, run, e)
    ensures Inv(e)
    decreases run
  {
    if run != [] {
      StepKeepsInv(s, run[0]);
      RunKeepsInv(Step(s, run[0]), run[1..], e);
    }
  }

  // In every run: nobody sleeps while units are there; every unit given out was reported by exactly one
  // take or belongs to a woken thread; and the counter is the number of units left, exactly as long as
  // that number fits 16 bits.
  lemma UnitsConserved(value: nat, order: Order, run: seq<Action>, e: State)
    requires value < VALUE_MODULUS && IsRun(Init(value, order), run, e)
    ensures e.waiters.asleep != [] ==> e.value == 0
    ensures e.granted == e.reported + |Woken(e.waiters)|
    ensures 0 <= Left(e)
    ensures e.value == Left(e) <==> Left(e) < VALUE_MODULUS
  {
    hide Counts;
    assert Woken(Init(value, order).waiters) == {};
    CountsAnew(value);
    RunKeepsInv(Init(value, order), run, e);
    CountsUpAndDown(e.value, Left(e));
  }

  // A release of a full counter that nobody waits for.
  predicate Overflows(s: State, a: Action) {
    a.Release? && s.value == VALUE_MODULUS - 1 && s.waiters.asleep == []
  }

  // As long as the counter is right, a step loses units exactly if it is such a release.
  lemma OnlyFullReleaseLoses(s: State, a: Action)
    requires Inv(s) && Enabled(s, a) && s.value == Left(s)
    ensures Step(s, a).value == Left(Step(s, a)) <==> !Overflows(s, a)
  {
    CountsAnew(if a.Reset? then a.value else 0);
  }

  ghost predicate NeverOverflows(s: State, run: seq<Action>)
    decreases run
  {
    run == [] || (Enabled(s, run[0]) && !Overflows(s, run[0]) && NeverOverflows(Step(s, run[0]), run[1..]))
  }

  // So the counter is right in every run that does not release a full semaphore.
  lemma {:induction false} CountIsRight(s: State, run: seq<Action>, e: State)
    requires Inv(s) && s.value == Left(s) && IsRun(s, run, e) && NeverOverflows(s, run)
    ensures e.value == Left(e)
    decreases run
  {
    hide Inv, Overflows, Step, Enabled;
    if run != [] {
      OnlyFullReleaseLoses(s, run[0]);
      StepKeepsInv(s, run[0]);
      CountIsRight(Step(s, run[0]), run[1..], e);
    }
  }

  // ----- what a caller is told

  // A take succeeds exactly if the counter is not 0, and exactly a successful take is counted; else it
  // reports the timeout at once, or sleeps.
  lemma TakeReplies(s: State, t: Tid, timeout: int)
    requires Inv(s) && Enabled(s, Take(t, timeout))
    ensures var (s', r) := TakeStep(s, t, timeout);
      && (r == Returned(Eok) <==> s.value > 0)
      && (r == Returned(Etimeout) <==> s.value == 0 && timeout == 0)
      && (r == Slept <==> s.value == 0 && timeout != 0)
      && s'.reported == s.reported + (if r == Returned(Eok) then 1 else 0)
      && s'.value == s.value - (if r == Returned(Eok) then 1 else 0)
      && s'.released == s.released
      && (if r == Slept then t in s'.waiters.asleep && s'.waiters.parked == s.waiters.parked[t := Ticket(Eok, timeout, 0, ())]
          else s'.waiters == s.waiters)
  {
    EnqueuedElements(s.waiters.asleep, s.prio, t, s.order);
  }

  // A thread that runs again reports its error, and is counted exactly if it was woken by a release.
  lemma ReturnReplies(s: State, t: Tid)
    requires Inv(s) && Enabled(s, Return(t))
    ensures var (s', r) := ReturnStep(s, t);
      && r == Returned(s.waiters.parked[t].error)
      && (r == Returned(Eok) <==> t in Woken(s.waiters))
      && s'.reported == s.reported + (if r == Returned(Eok) then 1 else 0)
      && t !in s'.waiters.parked && s'.value == s.value && s'.waiters.asleep == s.waiters.asleep
  {
  }

  // A release gives its unit to the first sleeper, or to the counter if nobody sleeps.
  lemma ReleaseGives(s: State)
    requires Inv(s)
    ensures var s' := ReleaseStep(s);
      if s.waiters.asleep != [] then
        s.waiters.asleep == [s.waiters.asleep[0]] + s'.waiters.asleep && s'.value == s.value
        && Woken(s'.waiters) == Woken(s.waiters) + {s.waiters.asleep[0]}
      else s'.waiters == s.waiters && s'.value == (if s.value < VALUE_MODULUS - 1 then s.value + 1 else 0)
  {
    if s.waiters.asleep != [] {
      FirstIsWoken(s.waiters);
    }
  }

  lemma OtherStepsLeave(s: State, a: Action, t: Tid)
    requires Inv(s) && Enabled(s, a) && a != Return(t)
    requires t in s.waiters.parked && t !in s.waiters.asleep
    ensures t in Step(s, a).waiters.parked && t !in Step(s, a).waiters.asleep
    ensures Step(s, a).waiters.parked[t] == s.waiters.parked[t]
  {
    if a.Take? {
      EnqueuedElements(s.waiters.asleep, s.prio, a.t, s.order);
    }
  }

  lemma {:induction false} AnswerStays(s: State, run: seq<Action>, e: State, t: Tid)
    requires Inv(s) && IsRun(s, run, e) && Return(t) !in run
    requires t in s.waiters.parked && t !in s.waiters.asleep
    ensures Inv(e) && t in e.waiters.parked && t !in e.waiters.asleep && e.waiters.parked[t] == s.waiters.parked[t]
    decreases run
  {
    hide Inv, Step;
    if run != [] {
      assert run[0] != Return(t);
      OtherStepsLeave(s, run[0], t);
      StepKeepsInv(s, run[0]);
      AnswerStays(Step(s, run[0]), run[1..], e, t);
    }
  }

  // A sleeper leaves the list by a release if it is the first, by its timer or by a reset.  Whatever
  // happens until it runs again, it reports then RT_EOK, -RT_ETIMEOUT and -RT_ERROR respectively.
  lemma SleeperIsAnswered(s: State, a: Action, t: Tid, run: seq<Action>, e: State)
    requires Inv(s) && Enabled(s, a) && t in s.waiters.asleep && t !in Step(s, a).waiters.asleep
    requires IsRun(Step(s, a), run, e) && Return(t) !in run
    ensures Enabled(e, Return(t))
    ensures (a == Release && t == s.waiters.asleep[0] && ReturnStep(e, t).1 == Returned(Eok))
         || (a == TimerFires(t) && ReturnStep(e, t).1 == Returned(Etimeout))
         || (a.Reset? && ReturnStep(e, t).1 == Returned(Error))
  {
    if a.Take? {
      EnqueuedElements(s.waiters.asleep, s.prio, a.t, s.order);
    }
    StepKeepsInv(s, a);
    AnswerStays(Step(s, a), run, e, t);
  }

  function Releases(n: nat): seq<Action> { seq(n, _ => Release) }

  lemma {:induction false} RunOfReleases(s: State, n: nat)
    requires s.waiters.asleep == [] && s.value < VALUE_MODULUS
    ensures IsRun(s, Releases(n), s.(value := (s.value + n) % VALUE_MODULUS, released := s.released + n))
    decreases n
  {
    if n > 0 {
      var m := Step(s, Release);
      assert Releases(n)[1..] == Releases(n - 1);
      RunOfReleases(m, n - 1);
      assert (m.value + (n - 1)) % VALUE_MODULUS == (s.value + n) % VALUE_MODULUS;
    } else {
      assert s.value % VALUE_MODULUS == s.value;
    }
  }

  // 65535 releases of an empty semaphore fill the counter, and one more leaves nothing of 65536 units.
  lemma FullCounterLosesAll(order: Order) returns (full: State, e: State)
    ensures IsRun(Init(0, order), Releases(VALUE_MODULUS - 1), full) && Overflows(full, Release)
    ensures IsRun(Init(0, order), Releases(VALUE_MODULUS), e) && e == Step(full, Release)
    ensures e.value == 0 && Left(e) == VALUE_MODULUS
  {
    var s := Init(0, order);
    RunOfReleases(s, VALUE_MODULUS - 1);
    RunOfReleases(s, VALUE_MODULUS);
    full := s.(value := VALUE_MODULUS - 1, released := VALUE_MODULUS - 1);
    e := s.(value := 0, released := VALUE_MODULUS);
  }
}

module Semaphores {
  import opened WaitLists
  import opened SemaphoreSpec

  class Semaphore {
    var value: nat
    const order: Order
    const suspended: WaitList<()>
    var prio: map<Tid, nat>
    ghost var initial: int
    ghost var released: nat
    ghost var granted: nat
    ghost var reported: nat

    ghost function Abs(): State
      reads this, suspended
    {
      State(value, order, suspended.Abs(), prio, initial, released, granted, reported)
    }

    // rt_sem_init
    constructor (value: nat, order: Order)
      requires value < VALUE_MODULUS
      ensures Abs() == Init(value, order) && fresh(suspended)
    {
      this.value, this.order, prio := value, order, map[];
      initial, released, granted, reported := value, 0, 0, 0;
      suspended := new WaitList<()>();
    }

    // rt_sem_take, up to rt_schedule().
    method TakeSemaphore(t: Tid, timeout: int) returns (r: Reply)
      modifies this, suspended
      ensures (Abs(), r) == TakeStep(old(Abs()), t, timeout)
    {
      if value > 0 {
        value := value - 1;
        granted, reported := granted + 1, reported + 1;
      } else {
        if timeout == 0 {
          return Returned(Etimeout);
        }
        suspended.Suspend(t, Ticket(Eok, timeout, 0, ()), prio, order);
        return Slept;
      }
      return Returned(Eok);
    }

    // rt_sem_take after rt_schedule().
    method ReturnFromTake(t: Tid) returns (r: Reply)
      requires t in suspended.parked
      modifies this`reported, suspended
      ensures (Abs(), r) == ReturnStep(old(Abs()), t)
    {
      var err := suspended.parked[t].error;
      suspended.Unpark(t);
      if err == Eok {
        reported := reported + 1;
      }
      return Returned(err);
    }

    // rt_sem_release
    method ReleaseSemaphore()
      modifies this, suspended
      ensures Abs() == ReleaseStep(old(Abs()))
    {
      if suspended.asleep != [] {
        suspended.ResumeFirst();
        granted := granted + 1;
      } else {
        value := (value + 1) % VALUE_MODULUS;
      }
      released := released + 1;
    }

    // rt_sem_control with RT_IPC_CMD_RESET.
    method ControlReset(arg: nat)
      requires SideOk(suspended.Abs())
      modifies this, suspended
      ensures Abs() == ResetStep(old(Abs()), arg)
    {
      suspended.ResumeAll();
      value := arg % VALUE_MODULUS;
      initial := arg % VALUE_MODULUS + granted - released;
    }
  }
}
