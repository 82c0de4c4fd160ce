/**
  Event sets (src/ipc.c): 32 flags, threads that wait for all or for any of some flags, and a send that
  scans the whole wait list.
 */
module EventSpec {
  import opened WaitLists

  // A 32-bit event set is kept as the set of its one bits: `&` is intersection, `|` union, `& ~` difference.
  type Bit = b: nat | b < 32
  type Flags = set<Bit>

  // The option byte, RT_EVENT_FLAG_AND, RT_EVENT_FLAG_OR and RT_EVENT_FLAG_CLEAR.
  datatype Option = Option(all: bool, any: bool, clear: bool)

  // thread->event_set and thread->event_info.
  datatype Interest = Interest(set_: Flags, info: Option)

  datatype Reply = Slept | Returned(err: Err) | Received(bits: Flags)

  datatype State = State(flags: Flags, order: Order, waiters: Side<Interest>, prio: map<Tid, nat>)

  datatype Action =
    | Send(bits: Flags)
    | Recv(t: Tid, want: Flags, option: Option, timeout: int)
    | Return(t: Tid)
    | TimerFires(t: Tid)
    | Reset
    | SetPriority(t: Tid, p: nat)

  function Init(order: Order): State {
    State({}, order, Side([], map[]), map[])
  }

  predicate Satisfied(flags: Flags, want: Flags, option: Option) {
    if option.all then flags * want == want else option.any && flags * want != {}
  }

  // ----- receiving

  // The non-blocking receive: the flags left, and the bits reported.
  function Consume(flags: Flags, want: Flags, option: Option): (Flags, Flags) {
    (if option.clear then flags - want else flags, flags * want)
  }

  function RecvStep(s: State, t: Tid, want: Flags, option: Option, timeout: int): (State, Reply) {
    if want == {} then (s, Returned(Error))
    else if Satisfied(s.flags, want, option) then
      var (left, bits) := Consume(s.flags, want, option);
      (s.(flags := left), Received(bits))
    else if timeout == 0 then (s, Returned(Etimeout))
    else
      (s.(waiters := Sleep(s.waiters, t, Ticket(Eok, timeout, 0, Interest(want, option)), s.prio, s.order)), Slept)
  }

  // The thread runs again: report the error, or the bits that the sender left in thread->event_set.
  function ReturnStep(s: State, t: Tid): (State, Reply)
    requires t in s.waiters.parked
  {
    var k := s.waiters.parked[t];
    (s.(waiters := Leave(s.waiters, t)), if k.error != Eok then Returned(k.error) else Received(k.item.set_))
  }

  // ----- sending: what the scan loop does

  datatype Scan = Scan(flags: Flags, asleep: seq<Tid>, parked: map<Tid, Ticket<Interest>>)

  // One waiter as rt_event_send treats it.
  function Visit(c: Scan, t: Tid): Scan
    requires t in c.parked
  {
    var i := c.parked[t].item;
    if !Satisfied(c.flags, i.set_, i.info) then c.(asleep := c.asleep + [t])
    else
      var bits := if i.info.all then i.set_ else i.set_ * c.flags;
      Scan(if i.info.clear then c.flags - bits else c.flags,
           c.asleep,
           c.parked[t := c.parked[t].(item := Interest(bits, i.info))])
  }

  function ScanAll(c: Scan, list: seq<Tid>): Scan
    requires forall t :: t in list ==> t in c.parked
    decreases list
  {
    if list == [] then c else ScanAll(Visit(c, list[0]), list[1..])
  }

  function SendStep(s: State, bits: Flags): (State, Reply)
    requires forall t :: t in s.waiters.asleep ==> t in s.waiters.parked
  {
    if bits == {} then (s, Returned(Error))
    else
      var c := ScanAll(Scan(s.flags + bits, [], s.waiters.parked), s.waiters.asleep);
      (s.(flags := c.flags, waiters := Side(c.asleep, c.parked)), Returned(Eok))
  }

  // ----- sending: set the bits, then let every waiter run the non-blocking receive in list order

  function Replay(flags: Flags, list: seq<Tid>, parked: map<Tid, Ticket<Interest>>): (Flags, seq<Tid>, map<Tid, Flags>)
    requires forall t :: t in list ==> t in parked
  {
    if list == [] then (flags, [], map[])
    else
      var i := parked[list[0]].item;
      if Satisfied(flags, i.set_, i.info) then
        var (left, bits) := Consume(flags, i.set_, i.info);
        var (f, rest, got) := Replay(left, list[1..], parked);
        (f, rest, got[list[0] := bits])
      else
        var (f, rest, got) := Replay(flags, list[1..], parked);
        (f, [list[0]] + rest, got)
  }

  lemma VisitConsumes(c: Scan, t: Tid)
    requires t in c.parked
    ensures var i := c.parked[t].item;
      Satisfied(c.flags, i.set_, i.info) ==>
        && Visit(c, t).flags == Consume(c.flags, i.set_, i.info).0
        && Visit(c, t).parked[t].item.set_ == Consume(c.flags, i.set_, i.info).1
  {
    var w := c.parked[t].item.set_;
    assert c.flags - (w * c.flags) == c.flags - w;
  }

  // The scan has the effect of the replay: the same flags left, the same threads still asleep in the
  // same order, and to each woken thread the bits its own receive would have reported.
  lemma {:induction false} ScanIsReplay(c: Scan, list: seq<Tid>)
    requires NoDup(list) && forall t :: t in list ==> t in c.parked
    ensures var e := ScanAll(c, list);
      var (f, rest, got) := Replay(c.flags, list, c.parked);
      && e.flags == f
      && e.asleep == c.asleep + rest
      && e.parked.Keys == c.parked.Keys
      && (forall t :: t in got ==> t in list)
      && forall t :: t in c.parked ==>
           e.parked[t] == if t in got then c.parked[t].(item := Interest(got[t], c.parked[t].item.info)) else c.parked[t]
    decreases list
  {
    if list != [] {
      var t := list[0];
      var c1 := Visit(c, t);
      VisitConsumes(c, t);
      assert t !in list[1..];
      ScanIsReplay(c1, list[1..]);
      ReplayIgnores(c1.flags, list[1..], c1.parked, c.parked);
    }
  }

  lemma {:induction false} ReplayIgnores(f: Flags, list: seq<Tid>, p: map<Tid, Ticket<Interest>>, q: map<Tid, Ticket<Interest>>)
    requires forall t :: t in list ==> t in p && t in q && p[t] == q[t]
    ensures Replay(f, list, p) == Replay(f, list, q)
  {
    if list != [] {
      var i := p[list[0]].item;
      ReplayIgnores(if Satisfied(f, i.set_, i.info) then Consume(f, i.set_, i.info).0 else f, list[1..], p, q);
    }
  }

  lemma SendIsReplay(s: State, bits: Flags)
    requires SideOk(s.waiters) && bits != {}
    ensures var e := SendStep(s, bits).0;
      var (f, rest, got) := Replay(s.flags + bits, s.waiters.asleep, s.waiters.parked);
      && e.flags == f
      && e.waiters.asleep == rest
      && (forall t :: t in got ==> t in e.waiters.parked && e.waiters.parked[t].item.set_ == got[t])
  {
    ScanIsReplay(Scan(s.flags + bits, [], s.waiters.parked), s.waiters.asleep);
  }

  // ----- nobody waits for what is already there

  ghost predicate NobodySatisfied(s: State) {
    forall t :: t in s.waiters.asleep ==>
      t in s.waiters.parked && !Satisfied(s.flags, s.waiters.parked[t].item.set_, s.waiters.parked[t].item.info)
  }

  ghost predicate Inv(s: State) {
    SideOk(s.waiters) && NobodySatisfied(s)
  }

  lemma FewerFlagsSatisfyLess(f: Flags, cleared: Flags, want: Flags, option: Option)
    requires Satisfied(f - cleared, want, option)
    ensures Satisfied(f, want, option)
  {
    if option.all {
      assert want <= f - cleared;
    } else {
      var b :| b in (f - cleared) * want;
      assert b in f * want;
    }
  }

  lemma {:induction false} ScanLeavesUnsatisfied(c: Scan, list: seq<Tid>)
    requires NoDup(list) && NoDup(c.asleep)
    requires forall t :: t in list ==> t in c.parked && t !in c.asleep
    requires forall t :: t in c.asleep ==> t in c.parked && !Satisfied(c.flags, c.parked[t].item.set_, c.parked[t].item.info)
    ensures var e := ScanAll(c, list);
      && NoDup(e.asleep)
      && (forall t :: t in e.asleep ==> t in c.asleep || t in list)
      && (forall t :: t in e.asleep ==> t in e.parked && e.parked[t] == c.parked[t])
      && (forall t :: t in e.asleep ==> !Satisfied(e.flags, e.parked[t].item.set_, e.parked[t].item.info))
    decreases list
  {
    if list != [] {
      var t := list[0];
      var c1 := Visit(c, t);
      assert t !in list[1..];
      var i := c.parked[t].item;
      forall u | u in c1.asleep
        ensures u in c1.parked && !Satisfied(c1.flags, c1.parked[u].item.set_, c1.parked[u].item.info)
      {
        if Satisfied(c.flags, i.set_, i.info) {
          var bits := if i.info.all then i.set_ else i.set_ * c.flags;
          if Satisfied(c.flags - bits, c.parked[u].item.set_, c.parked[u].item.info) {
            FewerFlagsSatisfyLess(c.flags, bits, c.parked[u].item.set_, c.parked[u].item.info);
          }
        }
      }
      ScanLeavesUnsatisfied(c1, list[1..]);
    }
  }

  predicate Enabled(s: State, a: Action) {
    match a
    case Send(_) => true
    case Recv(t, _, option, _) => t !in s.waiters.parked && (option.all || option.any)
    case Return(t) => t in s.waiters.parked && t !in s.waiters.asleep
    case TimerFires(t) => t in s.waiters.asleep && t in s.waiters.parked && s.waiters.parked[t].timeout > 0
    case Reset => true
    case SetPriority(_, _) => true
  }

  function Step(s: State, a: Action): State
    requires SideOk(s.waiters) && Enabled(s, a)
  {
    match a
    case Send(bits) => SendStep(s, bits).0
    case Recv(t, want, option, timeout) => RecvStep(s, t, want, option, timeout).0
    case Return(t) => ReturnStep(s, t).0
    case TimerFires(t) => s.(waiters := Expire(s.waiters, t))
    case Reset => s.(flags := {}, waiters := FailAll(s.waiters))
    case SetPriority(t, p) => s.(prio := s.prio[t := p])
  }

  lemma RecvKeepsInv(s: State, t: Tid, want: Flags, option: Option, timeout: int)
    requires Inv(s) && t !in s.waiters.parked
    ensures Inv(RecvStep(s, t, want, option, timeout).0)
  {
    var s' := RecvStep(s, t, want, option, timeout).0;
    if want != {} && Satisfied(s.flags, want, option) {
      forall u | u in s.waiters.asleep
        ensures !Satisfied(s'.flags, s.waiters.parked[u].item.set_, s.waiters.parked[u].item.info)
      {
        if Satisfied(s.flags - want, s.waiters.parked[u].item.set_, s.waiters.parked[u].item.info) {
          FewerFlagsSatisfyLess(s.flags, want, s.waiters.parked[u].item.set_, s.waiters.parked[u].item.info);
        }
      }
    } else if want != {} && timeout != 0 {
      EnqueuedElements(s.waiters.asleep, s.prio, t, s.order);
    }
  }

  lemma StepKeepsInv(s: State, a: Action)
    requires Inv(s) && Enabled(s, a)
    ensures Inv(Step(s, a))
  {
    match a
    case Send(bits) => ScanLeavesUnsatisfied(Scan(s.flags + bits, [], s.waiters.parked), s.waiters.asleep);
    case Recv(t, want, option, timeout) => RecvKeepsInv(s, t, want, option, timeout);
    case Return(t) =>
    case TimerFires(t) => WithoutNoDup(s.waiters.asleep, t);
    case Reset =>
    case SetPriority(_, _) =>
  }

  ghost predicate IsRun(s: State, run: seq<Action>, e: State)
    requires Inv(s)
    decreases run
  {
    if run == [] then s == e
    else Enabled(s, run[0]) && (StepKeepsInv(s, run[0]); IsRun(Step(s, run[0]), run[1..], e))
  }

  // In every reachable state no thread waits for a condition that the current flags satisfy.
  lemma {:induction false} NobodyWaitsInVain(s: State, run: seq<Action>, e: State)
    requires Inv(s) && IsRun(s, run, e)
    ensures forall t :: t in e.waiters.asleep ==>
      t in e.waiters.parked && !Satisfied(e.flags, e.waiters.parked[t].item.set_, e.waiters.parked[t].item.info)
    decreases run
  {
    if run != [] {
      StepKeepsInv(s, run[0]);
      NobodyWaitsInVain(Step(s, run[0]), run[1..], e);
    }
  }

  // ----- what a receiver is told

  // At once: bits exactly if the condition holds, which is then all of the wanted bits for AND and at
  // least one for OR; else the time is up, or the thread goes to sleep with its request.
  lemma RecvReports(s: State, t: Tid, want: Flags, option: Option, timeout: int)
    requires Inv(s) && t !in s.waiters.parked && (option.all || option.any)
    ensures Enabled(s, Recv(t, want, option, timeout))
    ensures var (s', r) := RecvStep(s, t, want, option, timeout);
      var holds := want != {} && if option.all then want <= s.flags else exists b :: b in want && b in s.flags;
      && (r.Received? <==> holds)
      && (holds ==> (forall b: Bit :: b in r.bits <==> b in want && b in s.flags) && s'.waiters == s.waiters)
      && (forall b: Bit :: b in s'.flags <==> b in s.flags && !(holds && option.clear && b in want))
      && (want == {} ==> r == Returned(Error) && s' == s)
      && (want != {} && !holds && timeout == 0 ==> r == Returned(Etimeout) && s' == s)
      && (want != {} && !holds && timeout != 0 ==>
            r == Slept && t in s'.waiters.asleep && s'.waiters.parked == s.waiters.parked[t := Ticket(Eok, timeout, 0, Interest(want, option))])
  {
    assert s.flags * want == want <==> want <= s.flags;
    if b :| b in want && b in s.flags { assert b in s.flags * want; }
    EnqueuedElements(s.waiters.asleep, s.prio, t, s.order);
  }

  // The flags when it is the turn of the waiter at place i, once those before it have had theirs.
  function FlagsAtTurn(s: State, bits: Flags, i: nat): Flags
    requires SideOk(s.waiters) && i <= |s.waiters.asleep|
  {
    Replay(s.flags + bits, s.waiters.asleep[..i], s.waiters.parked).0
  }

  lemma {:induction false} ReplayAt(flags: Flags, list: seq<Tid>, parked: map<Tid, Ticket<Interest>>, i: nat)
    requires NoDup(list) && (forall t :: t in list ==> t in parked) && i < |list|
    ensures var f, k := Replay(flags, list[..i], parked).0, parked[list[i]].item;
      var (_, rest, got) := Replay(flags, list, parked);
      && (list[i] in rest <==> !Satisfied(f, k.set_, k.info))
      && (list[i] in got <==> Satisfied(f, k.set_, k.info))
      && (list[i] in got ==> got[list[i]] == k.set_ * f)
      && forall t :: t in rest || t in got ==> t in list
    decreases list
  {
    var j := parked[list[0]].item;
    var left := if Satisfied(flags, j.set_, j.info) then Consume(flags, j.set_, j.info).0 else flags;
    ReplayInList(left, list[1..], parked);
    if i == 0 {
      assert list[..0] == [];
      assert list[0] !in list[1..];
    } else {
      assert list[..i][1..] == list[1..][..i - 1] && list[..i][0] == list[0];
      assert list[i] == list[1..][i - 1] && list[i] != list[0];
      ReplayAt(left, list[1..], parked, i - 1);
    }
  }

  lemma {:induction false} ReplayInList(flags: Flags, list: seq<Tid>, parked: map<Tid, Ticket<Interest>>)
    requires forall t :: t in list ==> t in parked
    ensures var (_, rest, got) := Replay(flags, list, parked); forall t :: t in rest || t in got ==> t in list
    decreases list
  {
    if list != [] {
      var j := parked[list[0]].item;
      assert list == [list[0]] + list[1..];
      if Satisfied(flags, j.set_, j.info) {
        ReplayInList(Consume(flags, j.set_, j.info).0, list[1..], parked);
      } else {
        ReplayInList(flags, list[1..], parked);
      }
    }
  }

  // A thread that has been taken off the list keeps what it will report until it runs.
  lemma {:induction false} NobodyInterferes(s: State, run: seq<Action>, e: State, t: Tid)
    requires Inv(s) && IsRun(s, run, e) && t in s.waiters.parked && t !in s.waiters.asleep
    requires Return(t) !in run
    ensures t in e.waiters.parked && t !in e.waiters.asleep && e.waiters.parked[t] == s.waiters.parked[t]
    decreases run
  {
    if run != [] {
      OtherStepsLeave(s, run[0], t);
      StepKeepsInv(s, run[0]);
      NobodyInterferes(Step(s, run[0]), run[1..], e, t);
    }
  }

  lemma OtherStepsLeave(s: State, a: Action, t: Tid)
    requires Inv(s) && Enabled(s, a) && t in s.waiters.parked && t !in s.waiters.asleep && a != Return(t)
    ensures var s' := Step(s, a);
      t in s'.waiters.parked && t !in s'.waiters.asleep && s'.waiters.parked[t] == s.waiters.parked[t]
  {
    match a
    case Send(bits) =>
      if bits != {} {
        ScanIsReplay(Scan(s.flags + bits, [], s.waiters.parked), s.waiters.asleep);
        ReplayInList(s.flags + bits, s.waiters.asleep, s.waiters.parked);
      }
    case Recv(u, _, _, _) => EnqueuedElements(s.waiters.asleep, s.prio, u, s.order);
    case _ =>
  }

  // Whenever a thread woken by a send runs again, it reports the wanted bits that were set at its turn: for
  // AND all it wanted, for OR at least one; the same as its own receive would have reported then.
  lemma WokenReportsItsTurn(s: State, bits: Flags, i: nat, run: seq<Action>, e: State)
    requires Inv(s) && bits != {} && i < |s.waiters.asleep|
    requires var t := s.waiters.asleep[i]; Enabled(s, Send(bits)) && t !in Step(s, Send(bits)).waiters.asleep && Return(t) !in run
    requires Inv(Step(s, Send(bits))) && IsRun(Step(s, Send(bits)), run, e)
    ensures var t := s.waiters.asleep[i];
      && t in s.waiters.parked && t in e.waiters.parked
      && var want, info, f := s.waiters.parked[t].item.set_, s.waiters.parked[t].item.info, FlagsAtTurn(s, bits, i);
      && ReturnStep(e, t).1 == Received(want * f)
      && (if info.all then want * f == want else want * f != {})
      && (want != {} ==> ReturnStep(e, t).1 == RecvStep(s.(flags := f), t, want, info, 0).1)
  {
    var t := s.waiters.asleep[i];
    SendIsReplay(s, bits);
    ScanIsReplay(Scan(s.flags + bits, [], s.waiters.parked), s.waiters.asleep);
    ReplayAt(s.flags + bits, s.waiters.asleep, s.waiters.parked, i);
    NobodyInterferes(Step(s, Send(bits)), run, e, t);
    assert FlagsAtTurn(s, bits, i) * s.waiters.parked[t].item.set_ == s.waiters.parked[t].item.set_ * FlagsAtTurn(s, bits, i);
  }

  // A waiter stays asleep exactly if its condition does not hold at its turn.
  lemma SendWakes(s: State, bits: Flags, i: nat)
    requires Inv(s) && bits != {} && i < |s.waiters.asleep| && Enabled(s, Send(bits))
    ensures var t := s.waiters.asleep[i];
      && t in s.waiters.parked
      && var want, info, f := s.waiters.parked[t].item.set_, s.waiters.parked[t].item.info, FlagsAtTurn(s, bits, i);
      t in Step(s, Send(bits)).waiters.asleep <==> !(if info.all then want <= f else info.any && exists b :: b in want && b in f)
  {
    var t := s.waiters.asleep[i];
    SendIsReplay(s, bits);
    ReplayAt(s.flags + bits, s.waiters.asleep, s.waiters.parked, i);
    var want, f := s.waiters.parked[t].item.set_, FlagsAtTurn(s, bits, i);
    assert f * want == want <==> want <= f;
    if b :| b in want && b in f { assert b in f * want; }
  }

  // A thread whose wait expired or was reset reports that, whatever happens before it runs.
  lemma FailedReportsError(s: State, t: Tid, a: Action, run: seq<Action>, e: State)
    requires Inv(s) && Enabled(s, a) && t in s.waiters.asleep && (a == TimerFires(t) || a == Reset) && Return(t) !in run
    requires Inv(Step(s, a)) && IsRun(Step(s, a), run, e)
    ensures t in e.waiters.parked && ReturnStep(e, t).1 == Returned(if a == Reset then Error else Etimeout)
    ensures a == Reset ==> Step(s, a).flags == {} && Step(s, a).waiters.asleep == []
  {
    NobodyInterferes(Step(s, a), run, e, t);
  }
}

module Events {
  import opened WaitLists
  import opened EventSpec

  class Event {
    var flags: Flags
    const order: Order
    const suspended: WaitList<Interest>
    var prio: map<Tid, nat>

    function Abs(): State
      reads this, suspended
    {
      State(flags, order, suspended.Abs(), prio)
    }

    // rt_event_init
    constructor (order: Order)
      ensures Abs() == Init(order) && fresh(suspended) && Inv(Abs())
    {
      flags, this.order, prio := {}, order, map[];
      suspended := new WaitList<Interest>();
    }

    // rt_event_send
    method SendEvent(bits: Flags) returns (r: Reply)
      requires SideOk(suspended.Abs())
      modifies this, suspended
      ensures (Abs(), r) == SendStep(old(Abs()), bits)
    {
      if bits == {} {
        return Returned(Error);
      }
      flags := flags + bits;
      var list, kept := suspended.asleep, [];
      var parked := suspended.parked;
      var n := 0;
      while n < |list|
        invariant n <= |list| && list == old(suspended.asleep) && prio == old(prio)
        invariant parked.Keys == old(suspended.parked.Keys)
        invariant forall t :: t in list ==> t in parked
        invariant ScanAll(Scan(flags, kept, parked), list[n..])
                  == ScanAll(Scan(old(flags) + bits, [], old(suspended.parked)), list)
      {
        var t := list[n];
        assert list[n..][1..] == list[n + 1..];
        var i := parked[t].item;
        var satisfied, got := false, i.set_;
        if i.info.all {
          satisfied := i.set_ * flags == i.set_;
        } else if i.info.any {
          if i.set_ * flags != {} {
            got := i.set_ * flags;
            satisfied := true;
          }
        }
        assert i.set_ * flags == flags * i.set_;
        n := n + 1;
        if satisfied {
          if i.info.clear {
            flags := flags - got;
          }
          parked := parked[t := parked[t].(item := Interest(got, i.info))];
        } else {
          kept := kept + [t];
        }
      }
      assert list[n..] == [];
      suspended.asleep, suspended.parked := kept, parked;
      return Returned(Eok);
    }

    // rt_event_recv, up to rt_schedule().
    method ReceiveEvent(t: Tid, want: Flags, option: Option, timeout: int) returns (r: Reply)
      modifies this, suspended
      ensures (Abs(), r) == RecvStep(old(Abs()), t, want, option, timeout)
    {
      if want == {} {
        return Returned(Error);
      }
      var satisfied := false;
      if option.all {
        satisfied := flags * want == want;
      } else if option.any {
        satisfied := flags * want != {};
      }
      if satisfied {
        r := Received(flags * want);
        if option.clear {
          flags := flags - want;
        }
      } else if timeout == 0 {
        r := Returned(Etimeout);
      } else {
        suspended.Suspend(t, Ticket(Eok, timeout, 0, Interest(want, option)), prio, order);
        r := Slept;
      }
    }

    // rt_event_recv after rt_schedule().
    method ReturnFromReceive(t: Tid) returns (r: Reply)
      requires t in suspended.parked
      modifies suspended
      ensures (Abs(), r) == ReturnStep(old(Abs()), t)
      ensures var k := old(suspended.parked[t]); r == if k.error == Eok then Received(k.item.set_) else Returned(k.error)
    {
      var k := suspended.parked[t];
      suspended.Unpark(t);
      r := if k.error != Eok then Returned(k.error) else Received(k.item.set_);
    }

    // rt_event_control with RT_IPC_CMD_RESET.
    method ControlReset()
      requires SideOk(suspended.Abs())
      modifies this, suspended
      ensures Abs() == old(Abs()).(flags := {}, waiters := FailAll(old(Abs()).waiters))
    {
      suspended.ResumeAll();
      flags := {};
    }
  }
}
