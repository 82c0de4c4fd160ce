/**
  Mailboxes (src/ipc.c).

  `MailboxSpec` is the step system: one step for each region the kernel runs with interrupts disabled,
  with threads interleaving at every `rt_schedule()`.  `Mailboxes.Mailbox` is the object itself, a ring
  buffer with two offsets and an entry counter, updated in place; every method is tied to one step.
 */
module MailboxSpec {
  import opened WaitLists

  type Word = int

  // What became of an accepted mail.
  datatype Fate = Delivered(value: Word, to: Tid) | Dropped(value: Word)

  datatype Reply = Slept | Returned(err: Err) | Mail(value: Word)

  datatype State = State(
    size: nat,
    order: Order,
    queue: seq<Word>,
    recv: Side<()>,
    send: Side<Word>,
    prio: map<Tid, nat>,
    accepted: seq<Word>,
    fates: seq<Fate>)

  datatype Action =
    | Send(t: Tid, value: Word, timeout: int, now: int)
    | Recv(t: Tid, timeout: int, now: int)
    | Rerun(t: Tid, now: int)
    | TimerFires(t: Tid)
    | Reset
    | SetPriority(t: Tid, p: nat)

  function Init(size: nat, order: Order): State {
    State(size, order, [], Side([], map[]), Side([], map[]), map[], [], [])
  }

  // ----- the steps

  // From the loop test of rt_mb_send_wait to the next time interrupts are enabled.
  function SendAttempt(s: State, t: Tid, v: Word, timeout: int, now: int): (State, Reply) {
    if |s.queue| == s.size then
      if timeout == 0 then (s, Returned(Efull))
      else (s.(send := Sleep(s.send, t, Ticket(Eok, timeout, now, v), s.prio, s.order)), Slept)
    else
      (s.(queue := s.queue + [v], accepted := s.accepted + [v], recv := WakeFirst(s.recv)), Returned(Eok))
  }

  // The same for rt_mb_recv.
  function RecvAttempt(s: State, t: Tid, timeout: int, now: int): (State, Reply) {
    if s.queue == [] then
      if timeout == 0 then (s, Returned(Etimeout))
      else (s.(recv := Sleep(s.recv, t, Ticket(Eok, timeout, now, ()), s.prio, s.order)), Slept)
    else
      (s.(queue := s.queue[1..], fates := s.fates + [Delivered(s.queue[0], t)], send := WakeFirst(s.send)),
       Mail(s.queue[0]))
  }

  // A parked thread runs again: report the error, or recompute the timeout and test once more.
  function SendResume(s: State, t: Tid, now: int): (State, Reply)
    requires t in s.send.parked
  {
    var k := s.send.parked[t];
    var s1 := s.(send := Leave(s.send, t));
    if k.error != Eok then (s1, Returned(k.error))
    else SendAttempt(s1, t, k.item, Remaining(k.timeout, k.since, now), now)
  }

  function RecvResume(s: State, t: Tid, now: int): (State, Reply)
    requires t in s.recv.parked
  {
    var k := s.recv.parked[t];
    var s1 := s.(recv := Leave(s.recv, t));
    if k.error != Eok then (s1, Returned(k.error))
    else RecvAttempt(s1, t, Remaining(k.timeout, k.since, now), now)
  }

  function Drop(queue: seq<Word>): (r: seq<Fate>)
    ensures |r| == |queue|
  {
    seq(|queue|, i requires 0 <= i < |queue| => Dropped(queue[i]))
  }

  function ResetStep(s: State): State {
    s.(recv := FailAll(s.recv), send := FailAll(s.send), queue := [], fates := s.fates + Drop(s.queue))
  }

  predicate Enabled(s: State, a: Action) {
    match a
    case Send(t, _, _, _) => t !in s.recv.parked && t !in s.send.parked
    case Recv(t, _, _) => t !in s.recv.parked && t !in s.send.parked
    case Rerun(t, _) => (t in s.recv.parked && t !in s.recv.asleep) || (t in s.send.parked && t !in s.send.asleep)
    case TimerFires(t) =>
      || (t in s.recv.asleep && t in s.recv.parked && s.recv.parked[t].timeout > 0)
      || (t in s.send.asleep && t in s.send.parked && s.send.parked[t].timeout > 0)
    case Reset => true
    case SetPriority(_, _) => true
  }

  function Step(s: State, a: Action): State
    requires Enabled(s, a)
  {
    match a
    case Send(t, v, timeout, now) => SendAttempt(s, t, v, timeout, now).0
    case Recv(t, timeout, now) => RecvAttempt(s, t, timeout, now).0
    case Rerun(t, now) =>
      if t in s.recv.parked && t !in s.recv.asleep then RecvResume(s, t, now).0 else SendResume(s, t, now).0
    case TimerFires(t) =>
      if t in s.recv.asleep && t in s.recv.parked then s.(recv := Expire(s.recv, t)) else s.(send := Expire(s.send, t))
    case Reset => ResetStep(s)
    case SetPriority(t, p) => s.(prio := s.prio[t := p])
  }

  ghost predicate IsRun(s: State, run: seq<Action>, e: State)
    decreases run
  {
    if run == [] then s == e
    else Enabled(s, run[0]) && IsRun(Step(s, run[0]), run[1..], e)
  }

  // ----- what every step keeps

  ghost predicate Inv(s: State) {
    && |s.queue| <= s.size
    && SideOk(s.recv) && SideOk(s.send)
    && s.recv.parked.Keys !! s.send.parked.Keys
    && NoLost(s.recv, |s.queue|)
    && NoLost(s.send, s.size - |s.queue|)
    && Accounted(s)
  }

  // The i-th fate is the fate of the i-th accepted mail; the rest is still queued, in order.
  ghost predicate Accounted(s: State) {
    && |s.fates| <= |s.accepted|
    && (forall i :: 0 <= i < |s.fates| ==> s.fates[i].value == s.accepted[i])
    && s.queue == s.accepted[|s.fates|..]
  }

  lemma SendAttemptKeeps(s: State, t: Tid, v: Word, timeout: int, now: int)
    requires |s.queue| <= s.size && SideOk(s.recv) && SideOk(s.send) && Accounted(s)
    requires s.recv.parked.Keys !! s.send.parked.Keys
    requires t !in s.recv.parked && t !in s.send.parked
    requires NoLost(s.recv, |s.queue|)
    requires |s.queue| < s.size ==> NoLost(s.send, s.size - |s.queue| - 1)
    ensures Inv(SendAttempt(s, t, v, timeout, now).0)
  {
    if |s.queue| == s.size {
      if timeout != 0 {
        SleepKeeps(s.send, t, Ticket(Eok, timeout, now, v), s.prio, s.order, 0);
      }
    } else {
      WakeFirstKeeps(s.recv, |s.queue|);
    }
  }

  lemma RecvAttemptKeeps(s: State, t: Tid, timeout: int, now: int)
    requires |s.queue| <= s.size && SideOk(s.recv) && SideOk(s.send) && Accounted(s)
    requires s.recv.parked.Keys !! s.send.parked.Keys
    requires t !in s.recv.parked && t !in s.send.parked
    requires s.queue != [] ==> NoLost(s.recv, |s.queue| - 1)
    requires NoLost(s.send, s.size - |s.queue|)
    ensures Inv(RecvAttempt(s, t, timeout, now).0)
  {
    if s.queue == [] {
      if timeout != 0 {
        SleepKeeps(s.recv, t, Ticket(Eok, timeout, now, ()), s.prio, s.order, 0);
      }
    } else {
      WakeFirstKeeps(s.send, s.size - |s.queue|);
      assert s.accepted[|s.fates|] == s.queue[0];
    }
  }

  lemma SendResumeKeeps(s: State, t: Tid, now: int)
    requires Inv(s) && t in s.send.parked && t !in s.send.asleep
    ensures Inv(SendResume(s, t, now).0)
  {
    var k := s.send.parked[t];
    LeaveKeeps(s.send, t, s.size - |s.queue|);
    if k.error == Eok {
      SendAttemptKeeps(s.(send := Leave(s.send, t)), t, k.item, Remaining(k.timeout, k.since, now), now);
    }
  }

  lemma RecvResumeKeeps(s: State, t: Tid, now: int)
    requires Inv(s) && t in s.recv.parked && t !in s.recv.asleep
    ensures Inv(RecvResume(s, t, now).0)
  {
    var k := s.recv.parked[t];
    LeaveKeeps(s.recv, t, |s.queue|);
    if k.error == Eok {
      RecvAttemptKeeps(s.(recv := Leave(s.recv, t)), t, Remaining(k.timeout, k.since, now), now);
    }
  }

  lemma StepKeepsInv(s: State, a: Action)
    requires Inv(s) && Enabled(s, a)
    ensures Inv(Step(s, a))
  {
    match a
    case Send(t, v, timeout, now) => SendAttemptKeeps(s, t, v, timeout, now);
    case Recv(t, timeout, now) => RecvAttemptKeeps(s, t, timeout, now);
    case Rerun(t, now) =>
      if t in s.recv.parked && t !in s.recv.asleep { RecvResumeKeeps(s, t, now); } else { SendResumeKeeps(s, t, now); }
    case TimerFires(t) =>
      if t in s.recv.asleep { ExpireKeeps(s.recv, t, |s.queue|); } else { ExpireKeeps(s.send, t, s.size - |s.queue|); }
    case Reset =>
    case SetPriority(_, _) =>
  }

  lemma {:induction false} RunKeepsInv(s: State, run: seq<Action>, e: State)
    requires Inv(s) && IsRun(s, run, e)
    ensures Inv(e)
    decreases run
  {
    if run != [] {
      StepKeepsInv(s, run[0]);
      RunKeepsInv(Step(s, run[0]), run[1..], e);
    }
  }

  // ----- the theorems

  // No wake-up is lost in any run: as long as a receiver sleeps there are at most as many mails as
  // receivers that were woken and have not run yet, and likewise for senders and free slots.
  lemma NoLostWakeUps(size: nat, order: Order, run: seq<Action>, e: State)
    requires IsRun(Init(size, order), run, e)
    ensures e.recv.asleep != [] ==> |e.queue| <= |Woken(e.recv)|
    ensures e.send.asleep != [] ==> size - |e.queue| <= |Woken(e.send)|
  {
    RunKeepsInv(Init(size, order), run, e);
    RunKeepsSize(Init(size, order), run, e);
  }

  lemma {:induction false} RunKeepsSize(s: State, run: seq<Action>, e: State)
    requires IsRun(s, run, e)
    ensures e.size == s.size
    decreases run
  {
    if run != [] {
      RunKeepsSize(Step(s, run[0]), run[1..], e);
    }
  }

  // Once every woken thread has run, nobody sleeps in front of something it could take.
  lemma NobodySleepsInVain(size: nat, order: Order, run: seq<Action>, e: State)
    requires IsRun(Init(size, order), run, e)
    requires Woken(e.recv) == {} && Woken(e.send) == {}
    ensures e.recv.asleep != [] ==> e.queue == []
    ensures e.send.asleep != [] ==> |e.queue| == size
  {
    NoLostWakeUps(size, order, run, e);
    RunKeepsInv(Init(size, order), run, e);
    RunKeepsSize(Init(size, order), run, e);
  }

  // In any run mails are delivered in the order they were accepted, each to at most one receiver.
  lemma MailsInOrder(size: nat, order: Order, run: seq<Action>, e: State)
    requires IsRun(Init(size, order), run, e)
    ensures e.accepted == FateValues(e.fates) + e.queue
    ensures |e.queue| <= size
  {
    RunKeepsInv(Init(size, order), run, e);
    RunKeepsSize(Init(size, order), run, e);
    FateValuesAt(e.fates);
  }

  // None disappears except through a reset.
  lemma {:induction false} OnlyResetDrops(s: State, run: seq<Action>, e: State)
    requires IsRun(s, run, e) && Reset !in run
    ensures |s.fates| <= |e.fates| && e.fates[..|s.fates|] == s.fates
    ensures forall i :: |s.fates| <= i < |e.fates| ==> e.fates[i].Delivered?
    decreases run
  {
    if run != [] {
      var m := Step(s, run[0]);
      assert |s.fates| <= |m.fates| <= |s.fates| + 1 && m.fates[..|s.fates|] == s.fates;
      assert forall i :: |s.fates| <= i < |m.fates| ==> m.fates[i].Delivered?;
      OnlyResetDrops(m, run[1..], e);
      assert forall i :: 0 <= i < |m.fates| ==> e.fates[i] == e.fates[..|m.fates|][i];
    }
  }

  function FateValues(fates: seq<Fate>): seq<Word> {
    if fates == [] then [] else [fates[0].value] + FateValues(fates[1..])
  }

  lemma {:induction false} FateValuesAt(fates: seq<Fate>)
    ensures |FateValues(fates)| == |fates|
    ensures forall i :: 0 <= i < |fates| ==> FateValues(fates)[i] == fates[i].value
  {
    if fates != [] {
      FateValuesAt(fates[1..]);
    }
  }

  // ----- what a caller is told

  // A send is accepted exactly if the box is not full; else it reports that at once, or sleeps.
  lemma SendReplies(s: State, t: Tid, v: Word, timeout: int, now: int)
    requires Inv(s) && Enabled(s, Send(t, v, timeout, now))
    ensures var (s', r) := SendAttempt(s, t, v, timeout, now);
      && (r == Returned(Eok) <==> |s.queue| < s.size)
      && (r == Returned(Efull) <==> |s.queue| == s.size && timeout == 0)
      && (r == Slept <==> |s.queue| == s.size && timeout != 0)
      && s'.queue == s.queue + (if r == Returned(Eok) then [v] else [])
      && (r == Returned(Eok) && s.recv.asleep != [] ==>
            s.recv.asleep == [s.recv.asleep[0]] + s'.recv.asleep && Woken(s'.recv) == Woken(s.recv) + {s.recv.asleep[0]})
      && (r == Returned(Efull) ==> s' == s)
      && (r == Slept ==> t in s'.send.asleep && s'.send.parked == s.send.parked[t := Ticket(Eok, timeout, now, v)]
                         && s'.recv == s.recv)
  {
    EnqueuedElements(s.send.asleep, s.prio, t, s.order);
    if s.recv.asleep != [] {
      FirstIsWoken(s.recv);
    }
  }

  // A receive gets the oldest mail exactly if there is one.
  lemma RecvReplies(s: State, t: Tid, timeout: int, now: int)
    requires Inv(s) && Enabled(s, Recv(t, timeout, now))
    ensures var (s', r) := RecvAttempt(s, t, timeout, now);
      && (r.Mail? <==> |s.queue| > 0)
      && (r == Returned(Etimeout) <==> |s.queue| == 0 && timeout == 0)
      && (r == Slept <==> |s.queue| == 0 && timeout != 0)
      && s.queue == (if r.Mail? then [r.value] else []) + s'.queue
      && (r.Mail? && s.send.asleep != [] ==>
            s.send.asleep == [s.send.asleep[0]] + s'.send.asleep && Woken(s'.send) == Woken(s.send) + {s.send.asleep[0]})
      && (r == Returned(Etimeout) ==> s' == s)
      && (r == Slept ==> t in s'.recv.asleep && s'.recv.parked == s.recv.parked[t := Ticket(Eok, timeout, now, ())]
                         && s'.send == s.send)
  {
    EnqueuedElements(s.recv.asleep, s.prio, t, s.order);
    if s.send.asleep != [] {
      FirstIsWoken(s.send);
    }
  }

  // A thread that runs again reports its error, or is answered as if it called now, with what is left of
  // its time.
  lemma RerunReplies(s: State, t: Tid, now: int)
    requires Inv(s)
    ensures (t in s.send.parked && t !in s.send.asleep) || (t in s.recv.parked && t !in s.recv.asleep) ==> Enabled(s, Rerun(t, now))
    ensures t in s.send.parked && t !in s.send.asleep ==>
      var k, (s', r) := s.send.parked[t], SendResume(s, t, now);
      && (k.error != Eok ==> r == Returned(k.error) && s'.queue == s.queue)
      && (k.error == Eok && |s.queue| < s.size ==> r == Returned(Eok) && s'.queue == s.queue + [k.item])
      && (k.error == Eok && |s.queue| == s.size ==>
            r == (if Remaining(k.timeout, k.since, now) == 0 then Returned(Efull) else Slept) && s'.queue == s.queue)
      && (r == Slept ==> t in s'.send.asleep && s'.send.parked[t] == Ticket(Eok, Remaining(k.timeout, k.since, now), now, k.item))
    ensures t in s.recv.parked && t !in s.recv.asleep ==>
      var k, (s', r) := s.recv.parked[t], RecvResume(s, t, now);
      && (k.error != Eok ==> r == Returned(k.error) && s'.queue == s.queue)
      && (k.error == Eok && |s.queue| > 0 ==> r == Mail(s.queue[0]) && s'.queue == s.queue[1..])
      && (k.error == Eok && |s.queue| == 0 ==>
            r == (if Remaining(k.timeout, k.since, now) == 0 then Returned(Etimeout) else Slept))
      && (r == Slept ==> t in s'.recv.asleep && s'.recv.parked[t] == Ticket(Eok, Remaining(k.timeout, k.since, now), now, ()))
  {
    if t in s.send.parked && t !in s.send.asleep {
      EnqueuedElements(s.send.asleep, s.prio, t, s.order);
    }
    if t in s.recv.parked && t !in s.recv.asleep {
      EnqueuedElements(s.recv.asleep, s.prio, t, s.order);
    }
  }

  // A woken receiver gets the oldest mail whenever there is one left, however little of its timeout
  // remains; it goes back to sleep or reports a timeout only in front of an empty mailbox.
  lemma WokenReceiverGetsOldest(s: State, t: Tid, now: int)
    requires t in Woken(s.recv)
    ensures s.queue != [] ==> RecvResume(s, t, now).1 == Mail(s.queue[0])
    ensures s.queue == [] ==> !RecvResume(s, t, now).1.Mail?
  {
  }
}

module Mailboxes {
  import opened WaitLists
  import opened MailboxSpec

  class Mailbox {
    const msgPool: array<Word>
    var entry: nat
    var inOffset: nat
    var outOffset: nat
    const order: Order
    const receivers: WaitList<()>
    const senders: WaitList<Word>
    var prio: map<Tid, nat>
    ghost var accepted: seq<Word>
    ghost var fates: seq<Fate>

    ghost predicate Valid()
      reads this, msgPool
    {
      && entry <= msgPool.Length
      && (if msgPool.Length == 0 then inOffset == outOffset == 0
          else inOffset < msgPool.Length && outOffset < msgPool.Length)
      && inOffset == if outOffset + entry < msgPool.Length then outOffset + entry else outOffset + entry - msgPool.Length
    }

    // The mails in the ring, oldest first.
    ghost function Queue(): seq<Word>
      requires Valid()
      reads this, msgPool
    {
      if outOffset + entry <= msgPool.Length then msgPool[outOffset..outOffset + entry]
      else msgPool[outOffset..] + msgPool[..outOffset + entry - msgPool.Length]
    }

    ghost function Abs(): State
      requires Valid()
      reads this, msgPool, receivers, senders
    {
      State(msgPool.Length, order, Queue(), receivers.Abs(), senders.Abs(), prio, accepted, fates)
    }

    // rt_mb_init with a pool of `size` words, of which a 16-bit field keeps the number.
    constructor (size: nat, order: Order)
      ensures Valid() && Abs() == Init(size % 0x1_0000, order)
      ensures fresh(msgPool) && fresh(receivers) && fresh(senders)
    {
      msgPool := new Word[size % 0x1_0000];
      entry, inOffset, outOffset := 0, 0, 0;
      this.order := order;
      receivers := new WaitList<()>();
      senders := new WaitList<Word>();
      prio, accepted, fates := map[], [], [];
    }

    // The ring-buffer half of rt_mb_send_wait: fill a slot, move the input offset, count the entry.
    method PutMail(value: Word)
      requires Valid() && entry < msgPool.Length
      modifies this`entry, this`inOffset, msgPool
      ensures Valid() && Queue() == old(Queue()) + [value]
    {
      msgPool[inOffset] := value;
      inOffset := inOffset + 1;
      if inOffset >= msgPool.Length {
        inOffset := 0;
      }
      entry := entry + 1;
    }

    // The ring-buffer half of rt_mb_recv.
    method FetchMail() returns (value: Word)
      requires Valid() && entry > 0
      modifies this`entry, this`outOffset
      ensures Valid() && old(Queue()) == [value] + Queue()
    {
      value := msgPool[outOffset];
      outOffset := outOffset + 1;
      if outOffset >= msgPool.Length {
        outOffset := 0;
      }
      entry := entry - 1;
    }

    method SendWait(t: Tid, value: Word, timeout: int, now: int) returns (r: Reply)
      requires Valid()
      modifies this, msgPool, receivers, senders
      ensures Valid()
      ensures (Abs(), r) == SendAttempt(old(Abs()), t, value, timeout, now)
    {
      if entry == msgPool.Length {
        if timeout == 0 {
          return Returned(Efull);
        }
        senders.Suspend(t, Ticket(Eok, timeout, now, value), prio, order);
        return Slept;
      }
      PutMail(value);
      accepted := accepted + [value];
      receivers.ResumeFirst();
      return Returned(Eok);
    }

    method ReceiveMail(t: Tid, timeout: int, now: int) returns (r: Reply)
      requires Valid()
      modifies this, msgPool, receivers, senders
      ensures Valid()
      ensures (Abs(), r) == RecvAttempt(old(Abs()), t, timeout, now)
    {
      if entry == 0 {
        if timeout == 0 {
          return Returned(Etimeout);
        }
        receivers.Suspend(t, Ticket(Eok, timeout, now, ()), prio, order);
        return Slept;
      }
      var value := FetchMail();
      fates := fates + [Delivered(value, t)];
      senders.ResumeFirst();
      return Mail(value);
    }

    // What rt_mb_send_wait does after rt_schedule().
    method ResumeSend(t: Tid, now: int) returns (r: Reply)
      requires Valid() && t in senders.parked
      modifies this, msgPool, receivers, senders
      ensures Valid()
      ensures (Abs(), r) == SendResume(old(Abs()), t, now)
    {
      var k := senders.parked[t];
      senders.Unpark(t);
      if k.error != Eok {
        return Returned(k.error);
      }
      r := SendWait(t, k.item, Remaining(k.timeout, k.since, now), now);
    }

    // What rt_mb_recv does after rt_schedule().
    method ResumeRecv(t: Tid, now: int) returns (r: Reply)
      requires Valid() && t in receivers.parked
      modifies this, msgPool, receivers, senders
      ensures Valid()
      ensures (Abs(), r) == RecvResume(old(Abs()), t, now)
    {
      var k := receivers.parked[t];
      receivers.Unpark(t);
      if k.error != Eok {
        return Returned(k.error);
      }
      r := ReceiveMail(t, Remaining(k.timeout, k.since, now), now);
    }

    // rt_mb_control with RT_IPC_CMD_RESET.
    method ControlReset()
      requires Valid() && Inv(Abs())
      modifies this, receivers, senders
      ensures Valid() && Abs() == ResetStep(old(Abs()))
    {
      receivers.ResumeAll();
      senders.ResumeAll();
      fates := fates + Drop(Queue());
      entry, inOffset, outOffset := 0, 0, 0;
    }
  }
}
