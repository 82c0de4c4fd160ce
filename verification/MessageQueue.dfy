/**
  Message queues (src/ipc.c).

  A send runs two regions with interrupts disabled: one takes a slot off the free list, the other links
  the filled slot into the message list.  Between them the slot belongs to the sender alone, which
  copies its buffer into it with interrupts enabled.  A receive is split the same way.  So at any time
  a slot is free, queued, or in flight, and every other thread may run between two halves.

  `MessageQueueSpec` is the step system; `MessageQueues.MessageQueue` keeps the intrusive singly linked
  lists (head, tail, free, entry) and updates them in place.
 */
module MessageQueueSpec {
  import opened WaitLists

  type Slot = nat
  type Bytes = seq<bv8>

  // A slot and the buffer its sender wanted in it, at the front of the queue if urgent.
  datatype Msg = Msg(slot: Slot, body: Bytes, urgent: bool)

  datatype Flight =
    | Filling(msg: Msg)                    // taken off the free list, not copied yet
    | Filled(msg: Msg)                     // copied, not linked yet
    | Draining(msg: Msg, size: nat)        // taken off the message list, not copied yet
    | Drained(msg: Msg, size: nat, bytes: Bytes)   // copied out, not given back yet

  // Where a slot is.
  datatype Owner = OnFreeList | OnQueue | With(t: Tid)

  datatype Reply = Slept | Returned(err: Err) | Continues | Message(bytes: Bytes)

  datatype State = State(
    max: nat,
    msgSize: nat,
    order: Order,
    queue: seq<Msg>,
    free: seq<Slot>,
    data: seq<Bytes>,
    flights: map<Tid, Flight>,
    owner: seq<Owner>,
    recv: Side<nat>,
    send: Side<Bytes>,
    prio: map<Tid, nat>)

  datatype Action =
    | Send(t: Tid, buffer: Bytes, timeout: int, now: int)
    | Urgent(t: Tid, buffer: Bytes)
    | Recv(t: Tid, size: nat, timeout: int, now: int)
    | Rerun(t: Tid, now: int)
    | Copy(t: Tid)
    | Finish(t: Tid)
    | TimerFires(t: Tid)
    | Reset
    | SetPriority(t: Tid, p: nat)

  function DownTo(n: nat): (r: seq<Slot>)
    ensures |r| == n && forall i :: 0 <= i < n ==> r[i] == n - 1 - i
  {
    if n == 0 then [] else [n - 1] + DownTo(n - 1)
  }

  // rt_mq_init pushes slot 0, 1, ... onto the free list.
  function Init(max: nat, msgSize: nat, order: Order, data: seq<Bytes>): State {
    State(max, msgSize, order, [], DownTo(max), data, map[], seq(max, _ => OnFreeList),
          Side([], map[]), Side([], map[]), map[])
  }

  // ----- the steps

  function Place(owner: seq<Owner>, x: Slot, o: Owner): seq<Owner> {
    if x < |owner| then owner[x := o] else owner
  }

  function TakeFreeSlot(s: State, t: Tid, buffer: Bytes, urgent: bool): State
    requires s.free != []
  {
    s.(free := s.free[1..],
       flights := s.flights[t := Filling(Msg(s.free[0], buffer, urgent))],
       owner := Place(s.owner, s.free[0], With(t)))
  }

  function SendAttempt(s: State, t: Tid, buffer: Bytes, timeout: int, now: int): (State, Reply) {
    if s.free == [] then
      if timeout == 0 then (s, Returned(Efull))
      else (s.(send := Sleep(s.send, t, Ticket(Eok, timeout, now, buffer), s.prio, s.order)), Slept)
    else
      (TakeFreeSlot(s, t, buffer, false), Continues)
  }

  function SendCall(s: State, t: Tid, buffer: Bytes, timeout: int, now: int): (State, Reply) {
    if |buffer| > s.msgSize then (s, Returned(Error)) else SendAttempt(s, t, buffer, timeout, now)
  }

  function UrgentCall(s: State, t: Tid, buffer: Bytes): (State, Reply) {
    if |buffer| > s.msgSize then (s, Returned(Error))
    else if s.free == [] then (s, Returned(Efull))
    else (TakeFreeSlot(s, t, buffer, true), Continues)
  }

  function RecvAttempt(s: State, t: Tid, size: nat, timeout: int, now: int): (State, Reply) {
    if s.queue == [] then
      if timeout == 0 then (s, Returned(Etimeout))
      else (s.(recv := Sleep(s.recv, t, Ticket(Eok, timeout, now, size), s.prio, s.order)), Slept)
    else
      (s.(queue := s.queue[1..],
          flights := s.flights[t := Draining(s.queue[0], size)],
          owner := Place(s.owner, s.queue[0].slot, With(t))), Continues)
  }

  // The unprotected rt_memcpy between the two regions of a call.
  function CopyStep(s: State, t: Tid): State
    requires t in s.flights && s.flights[t].msg.slot < |s.data|
  {
    match s.flights[t]
    case Filling(m) =>
      s.(data := s.data[m.slot := Overlay(m.body, s.data[m.slot])], flights := s.flights[t := Filled(m)])
    case Draining(m, size) =>
      s.(flights := s.flights[t := Drained(m, size, Prefix(s.data[m.slot], size))])
    case _ => s
  }

  function Overlay(body: Bytes, old_: Bytes): Bytes {
    if |body| <= |old_| then body + old_[|body|..] else body
  }

  function Prefix(b: Bytes, n: nat): Bytes {
    if n < |b| then b[..n] else b
  }

  // The second protected region of a send: link the message and wake a receiver.
  function LinkStep(s: State, t: Tid, m: Msg): State {
    s.(queue := if m.urgent then [m] + s.queue else s.queue + [m],
       flights := s.flights - {t},
       owner := Place(s.owner, m.slot, OnQueue),
       recv := WakeFirst(s.recv))
  }

  // The second protected region of a receive: give the slot back and wake a sender.
  function GiveBackStep(s: State, t: Tid, slot: Slot): State {
    s.(free := [slot] + s.free,
       flights := s.flights - {t},
       owner := Place(s.owner, slot, OnFreeList),
       send := WakeFirst(s.send))
  }

  function FinishStep(s: State, t: Tid): (State, Reply)
    requires t in s.flights
  {
    match s.flights[t]
    case Filled(m) => (LinkStep(s, t, m), Returned(Eok))
    case Drained(m, _, bytes) => (GiveBackStep(s, t, m.slot), Message(bytes))
    case _ => (s, Continues)
  }

  function SendResume(s: State, t: Tid, now: int): (State, Reply)
    requires t in s.send.parked
  {
    var k := s.send.parked[t];
    var s1 := s.(send := Leave(s.send, t));
    if k.error != Eok then (s1, Returned(k.error))
    else SendAttempt(s1, t, k.item, Remaining(k.timeout, k.since, now), now)
  }

  function RecvResume(s: State, t: Tid, now: int): (State, Reply)
    requires t in s.recv.parked
  {
    var k := s.recv.parked[t];
    var s1 := s.(recv := Leave(s.recv, t));
    if k.error != Eok then (s1, Returned(k.error))
    else RecvAttempt(s1, t, k.item, Remaining(k.timeout, k.since, now), now)
  }

  // RT_IPC_CMD_RESET moves the queued slots to the free list one by one, head first.
  function GiveBack(queue: seq<Msg>, free: seq<Slot>): seq<Slot> {
    if queue == [] then free else GiveBack(queue[1..], [queue[0].slot] + free)
  }

  function ResetStep(s: State): State {
    s.(recv := FailAll(s.recv), send := FailAll(s.send), queue := [], free := GiveBack(s.queue, s.free),
       owner := seq(|s.owner|, i requires 0 <= i < |s.owner| => if s.owner[i] == OnQueue then OnFreeList else s.owner[i]))
  }

  predicate Outside(s: State, t: Tid) {
    t !in s.recv.parked && t !in s.send.parked && t !in s.flights
  }

  predicate Enabled(s: State, a: Action) {
    match a
    case Send(t, b, _, _) => Outside(s, t) && b != []
    case Urgent(t, b) => Outside(s, t) && b != []
    case Recv(t, size, _, _) => Outside(s, t) && size != 0
    case Rerun(t, _) => (t in s.recv.parked && t !in s.recv.asleep) || (t in s.send.parked && t !in s.send.asleep)
    case Copy(t) =>
      t in s.flights && s.flights[t].msg.slot < |s.data| && (s.flights[t].Filling? || s.flights[t].Draining?)
    case Finish(t) => t in s.flights && (s.flights[t].Filled? || s.flights[t].Drained?)
    case TimerFires(t) =>
      || (t in s.recv.asleep && t in s.recv.parked && s.recv.parked[t].timeout > 0)
      || (t in s.send.asleep && t in s.send.parked && s.send.parked[t].timeout > 0)
    case Reset => true
    case SetPriority(_, _) => true
  }

  function Step(s: State, a: Action): State
    requires Enabled(s, a)
  {
    match a
    case Send(t, b, timeout, now) => SendCall(s, t, b, timeout, now).0
    case Urgent(t, b) => UrgentCall(s, t, b).0
    case Recv(t, size, timeout, now) => RecvAttempt(s, t, size, timeout, now).0
    case Rerun(t, now) =>
      if t in s.recv.parked && t !in s.recv.asleep then RecvResume(s, t, now).0 else SendResume(s, t, now).0
    case Copy(t) => CopyStep(s, t)
    case Finish(t) => FinishStep(s, t).0
    case TimerFires(t) =>
      if t in s.recv.asleep && t in s.recv.parked then s.(recv := Expire(s.recv, t)) else s.(send := Expire(s.send, t))
    case Reset => ResetStep(s)
    case SetPriority(t, p) => s.(prio := s.prio[t := p])
  }

  ghost predicate IsRun(s: State, run: seq<Action>, e: State)
    decreases run
  {
    if run == [] then s == e
    else Enabled(s, run[0]) && IsRun(Step(s, run[0]), run[1..], e)
  }

  // ----- conservation of slots

  function Slots(q: seq<Msg>): (r: seq<Slot>)
    ensures |r| == |q| && forall i :: 0 <= i < |q| ==> r[i] == q[i].slot
  {
    seq(|q|, i requires 0 <= i < |q| => q[i].slot)
  }

  // Every slot is in exactly one place: on the free list, on the message list, or in one flight.
  ghost predicate Placed(owner: seq<Owner>, free: seq<Slot>, queued: seq<Slot>, flights: map<Tid, Flight>) {
    && NoDup(free) && NoDup(queued)
    && (forall x :: x in free <==> 0 <= x < |owner| && owner[x] == OnFreeList)
    && (forall x :: x in queued <==> 0 <= x < |owner| && owner[x] == OnQueue)
    && (forall t :: t in flights ==> flights[t].msg.slot < |owner| && owner[flights[t].msg.slot] == With(t))
    && (forall x :: 0 <= x < |owner| && owner[x].With? ==>
         owner[x].t in flights && flights[owner[x].t].msg.slot == x)
  }

  ghost predicate Conserved(s: State) {
    && |s.owner| == s.max
    && |s.free| + |s.queue| + |s.flights| == s.max
    && Placed(s.owner, s.free, Slots(s.queue), s.flights)
  }

  lemma PlacedTakeFree(owner: seq<Owner>, free: seq<Slot>, queued: seq<Slot>, flights: map<Tid, Flight>, t: Tid, f: Flight)
    requires Placed(owner, free, queued, flights) && t !in flights
    requires free != [] && f.msg.slot == free[0]
    ensures Placed(Place(owner, free[0], With(t)), free[1..], queued, flights[t := f])
  {
    assert free[0] in free;
    forall x ensures x in free[1..] <==> x in free && x != free[0] {
      if x in free && x != free[0] { var k :| 0 <= k < |free| && free[k] == x; assert free[1..][k - 1] == x; }
    }
  }

  lemma PlacedTakeQueued(owner: seq<Owner>, free: seq<Slot>, queued: seq<Slot>, flights: map<Tid, Flight>, t: Tid, f: Flight)
    requires Placed(owner, free, queued, flights) && t !in flights
    requires queued != [] && f.msg.slot == queued[0]
    ensures Placed(Place(owner, queued[0], With(t)), free, queued[1..], flights[t := f])
  {
    assert queued[0] in queued;
    forall x ensures x in queued[1..] <==> x in queued && x != queued[0] {
      if x in queued && x != queued[0] { var k :| 0 <= k < |queued| && queued[k] == x; assert queued[1..][k - 1] == x; }
    }
  }

  lemma PlacedLink(owner: seq<Owner>, free: seq<Slot>, queued: seq<Slot>, flights: map<Tid, Flight>, t: Tid, urgent: bool)
    requires Placed(owner, free, queued, flights) && t in flights
    ensures var x := flights[t].msg.slot;
      Placed(Place(owner, x, OnQueue), free, if urgent then [x] + queued else queued + [x], flights - {t})
  {
    var x := flights[t].msg.slot;
    assert x !in queued;
    assert forall y :: y in [x] + queued <==> y == x || y in queued;
    assert forall y :: y in queued + [x] <==> y == x || y in queued;
  }

  lemma PlacedGiveBack(owner: seq<Owner>, free: seq<Slot>, queued: seq<Slot>, flights: map<Tid, Flight>, t: Tid)
    requires Placed(owner, free, queued, flights) && t in flights
    ensures var x := flights[t].msg.slot;
      Placed(Place(owner, x, OnFreeList), [x] + free, queued, flights - {t})
  {
    var x := flights[t].msg.slot;
    assert x !in free;
    assert forall y :: y in [x] + free <==> y == x || y in free;
  }

  lemma NoDupFront(queue: seq<Msg>, free: seq<Slot>)
    requires queue != [] && NoDup(free) && NoDup(Slots(queue)) && forall x :: x in Slots(queue) ==> x !in free
    ensures NoDup([queue[0].slot] + free) && NoDup(Slots(queue[1..])) && queue[0].slot !in Slots(queue[1..])
  {
    assert Slots(queue)[0] in Slots(queue);
    assert forall k :: 0 <= k < |queue| - 1 ==> Slots(queue[1..])[k] == Slots(queue)[k + 1];
  }

  lemma {:induction false} GiveBackElements(queue: seq<Msg>, free: seq<Slot>)
    requires NoDup(free) && NoDup(Slots(queue))
    requires forall x :: x in Slots(queue) ==> x !in free
    ensures |GiveBack(queue, free)| == |queue| + |free| && NoDup(GiveBack(queue, free))
    ensures forall x :: x in GiveBack(queue, free) <==> x in free || x in Slots(queue)
  {
    hide NoDup;
    if queue != [] {
      NoDupFront(queue, free);
      var x := queue[0].slot;
      assert Slots(queue) == [x] + Slots(queue[1..]);
      assert x in Slots(queue);
      assert forall y :: y in Slots(queue[1..]) ==> y in Slots(queue) && y != x;
      assert forall y :: y in [x] + free <==> y == x || y in free;
      GiveBackElements(queue[1..], [x] + free);
    }
  }

  // ----- contents of slots

  // `bytes` are what a receiver of `size` bytes gets of a slot of `msgSize` bytes that holds `body`.
  ghost predicate HandedOut(body: Bytes, size: nat, msgSize: nat, bytes: Bytes) {
    && |bytes| == (if size < msgSize then size else msgSize)
    && (if size < |body| then bytes == body[..size] else body <= bytes)
  }

  ghost predicate FlightIntact(data: seq<Bytes>, msgSize: nat, f: Flight) {
    && f.msg.slot < |data| && |f.msg.body| <= msgSize
    && match f
       case Filling(_) => true
       case Filled(m) => m.body <= data[m.slot]
       case Draining(m, _) => m.body <= data[m.slot]
       case Drained(m, size, bytes) => HandedOut(m.body, size, msgSize, bytes)
  }

  // A filled slot holds the message its sender gave, and a drained one has handed it out.
  ghost predicate Intact(data: seq<Bytes>, msgSize: nat, queue: seq<Msg>, flights: map<Tid, Flight>) {
    && (forall i :: 0 <= i < |data| ==> |data[i]| == msgSize)
    && (forall i :: 0 <= i < |queue| ==> queue[i].slot < |data| && queue[i].body <= data[queue[i].slot])
    && (forall t :: t in flights ==> FlightIntact(data, msgSize, flights[t]))
  }

  lemma IntactFill(data: seq<Bytes>, msgSize: nat, queue: seq<Msg>, flights: map<Tid, Flight>, owner: seq<Owner>, free: seq<Slot>, t: Tid)
    requires Intact(data, msgSize, queue, flights) && Placed(owner, free, Slots(queue), flights)
    requires t in flights && flights[t].Filling?
    ensures var m := flights[t].msg;
      m.slot < |data| && Intact(data[m.slot := Overlay(m.body, data[m.slot])], msgSize, queue, flights[t := Filled(m)])
  {
    var m := flights[t].msg;
    assert FlightIntact(data, msgSize, flights[t]);
    var data' := data[m.slot := Overlay(m.body, data[m.slot])];
    forall i | 0 <= i < |queue| ensures queue[i].slot != m.slot {
      assert queue[i].slot == Slots(queue)[i] && Slots(queue)[i] in Slots(queue);
    }
    forall v | v in flights && v != t ensures FlightIntact(data', msgSize, flights[v]) {
      assert FlightIntact(data, msgSize, flights[v]);
      assert flights[v].msg.slot != m.slot;
    }
  }

  lemma IntactDrain(data: seq<Bytes>, msgSize: nat, queue: seq<Msg>, flights: map<Tid, Flight>, t: Tid)
    requires Intact(data, msgSize, queue, flights) && t in flights && flights[t].Draining?
    ensures var Draining(m, size) := flights[t];
      m.slot < |data| && Intact(data, msgSize, queue, flights[t := Drained(m, size, Prefix(data[m.slot], size))])
  {
    var Draining(m, size) := flights[t];
    assert FlightIntact(data, msgSize, flights[t]);
  }

  // ----- the invariant

  ghost predicate Calls(s: State) {
    && SideOk(s.recv) && SideOk(s.send)
    && s.recv.parked.Keys !! s.send.parked.Keys
    && s.recv.parked.Keys !! s.flights.Keys
    && s.send.parked.Keys !! s.flights.Keys
    && forall t :: t in s.send.parked ==> |s.send.parked[t].item| <= s.msgSize
  }

  ghost predicate Storage(s: State) {
    && Conserved(s)
    && |s.data| == s.max
    && Intact(s.data, s.msgSize, s.queue, s.flights)
  }

  ghost predicate Inv(s: State) {
    && Storage(s)
    && Calls(s)
    && NoLost(s.recv, |s.queue|)
    && NoLost(s.send, |s.free|)
  }

  lemma TakeFreeKeepsStorage(s: State, t: Tid, buffer: Bytes, urgent: bool)
    requires Storage(s) && t !in s.flights && s.free != [] && |buffer| <= s.msgSize
    ensures Storage(TakeFreeSlot(s, t, buffer, urgent))
  {
    assert s.free[0] in s.free;
    PlacedTakeFree(s.owner, s.free, Slots(s.queue), s.flights, t, Filling(Msg(s.free[0], buffer, urgent)));
  }

  lemma SendAttemptKeeps(s: State, t: Tid, buffer: Bytes, timeout: int, now: int)
    requires Storage(s) && Calls(s) && Outside(s, t) && |buffer| <= s.msgSize
    requires NoLost(s.recv, |s.queue|) && (s.free != [] ==> NoLost(s.send, |s.free| - 1))
    ensures Inv(SendAttempt(s, t, buffer, timeout, now).0)
  {
    if s.free != [] {
      TakeFreeKeepsStorage(s, t, buffer, false);
    } else if timeout != 0 {
      SleepKeeps(s.send, t, Ticket(Eok, timeout, now, buffer), s.prio, s.order, 0);
    }
  }

  lemma TakeQueuedKeepsStorage(s: State, t: Tid, size: nat, timeout: int, now: int)
    requires Storage(s) && t !in s.flights && s.queue != []
    ensures Storage(RecvAttempt(s, t, size, timeout, now).0)
  {
    PlacedTakeQueued(s.owner, s.free, Slots(s.queue), s.flights, t, Draining(s.queue[0], size));
    assert Slots(s.queue[1..]) == Slots(s.queue)[1..];
    hide Placed;
  }

  lemma RecvAttemptKeeps(s: State, t: Tid, size: nat, timeout: int, now: int)
    requires Storage(s) && Calls(s) && Outside(s, t)
    requires NoLost(s.send, |s.free|) && (s.queue != [] ==> NoLost(s.recv, |s.queue| - 1))
    ensures Inv(RecvAttempt(s, t, size, timeout, now).0)
  {
    if s.queue != [] {
      TakeQueuedKeepsStorage(s, t, size, timeout, now);
      hide Storage;
    } else if timeout != 0 {
      SleepKeeps(s.recv, t, Ticket(Eok, timeout, now, size), s.prio, s.order, 0);
    }
  }

  lemma PlacedCopy(owner: seq<Owner>, free: seq<Slot>, queued: seq<Slot>, flights: map<Tid, Flight>, t: Tid, f: Flight)
    requires Placed(owner, free, queued, flights) && t in flights && f.msg == flights[t].msg
    ensures Placed(owner, free, queued, flights[t := f])
  {
  }

  lemma CopyKeepsStorage(s: State, t: Tid)
    requires Storage(s) && Enabled(s, Copy(t))
    ensures Storage(CopyStep(s, t))
  {
    var s' := CopyStep(s, t);
    PlacedCopy(s.owner, s.free, Slots(s.queue), s.flights, t, s'.flights[t]);
    if s.flights[t].Filling? {
      IntactFill(s.data, s.msgSize, s.queue, s.flights, s.owner, s.free, t);
    } else {
      IntactDrain(s.data, s.msgSize, s.queue, s.flights, t);
    }
  }

  lemma IntactLink(data: seq<Bytes>, msgSize: nat, queue: seq<Msg>, flights: map<Tid, Flight>, t: Tid)
    requires Intact(data, msgSize, queue, flights) && t in flights && flights[t].Filled?
    ensures var m := flights[t].msg;
      Intact(data, msgSize, if m.urgent then [m] + queue else queue + [m], flights - {t})
  {
    assert FlightIntact(data, msgSize, flights[t]);
  }

  lemma LinkKeepsStorage(s: State, t: Tid)
    requires Storage(s) && t in s.flights && s.flights[t].Filled?
    ensures Storage(LinkStep(s, t, s.flights[t].msg))
  {
    hide Placed, Intact, FlightIntact, Slots;
    var m := s.flights[t].msg;
    RemoveOne(s.flights, t);
    PlacedLink(s.owner, s.free, Slots(s.queue), s.flights, t, m.urgent);
    IntactLink(s.data, s.msgSize, s.queue, s.flights, t);
    SlotsLink(s.queue, m);
  }

  lemma SlotsLink(queue: seq<Msg>, m: Msg)
    ensures Slots(if m.urgent then [m] + queue else queue + [m]) ==
            if m.urgent then [m.slot] + Slots(queue) else Slots(queue) + [m.slot]
  {
    var q := if m.urgent then [m] + queue else queue + [m];
    var r := if m.urgent then [m.slot] + Slots(queue) else Slots(queue) + [m.slot];
    forall i | 0 <= i < |q| ensures Slots(q)[i] == r[i] {
      assert q[i] == if m.urgent then (if i == 0 then m else queue[i - 1]) else (if i < |queue| then queue[i] else m);
    }
  }

  lemma LinkKeeps(s: State, t: Tid)
    requires Inv(s) && t in s.flights && s.flights[t].Filled?
    ensures Inv(FinishStep(s, t).0)
  {
    LinkKeepsStorage(s, t);
    WakeFirstKeeps(s.recv, |s.queue|);
  }

  lemma GiveBackKeeps(s: State, t: Tid)
    requires Inv(s) && t in s.flights && s.flights[t].Drained?
    ensures Inv(FinishStep(s, t).0)
  {
    RemoveOne(s.flights, t);
    PlacedGiveBack(s.owner, s.free, Slots(s.queue), s.flights, t);
    WakeFirstKeeps(s.send, |s.free|);
  }

  lemma RemoveOne<V>(m: map<Tid, V>, t: Tid)
    requires t in m
    ensures |m - {t}| == |m| - 1
  {
    assert (m - {t}).Keys == m.Keys - {t};
    assert |(m - {t}).Keys| == |m - {t}| && |m.Keys| == |m|;
  }

  lemma ResetKeeps(s: State)
    requires Inv(s)
    ensures Inv(ResetStep(s))
  {
    GiveBackElements(s.queue, s.free);
    assert Slots([]) == [];
  }

  lemma RecvResumeKeeps(s: State, t: Tid, now: int)
    requires Inv(s) && t in s.recv.parked && t !in s.recv.asleep
    ensures Inv(RecvResume(s, t, now).0)
  {
    var k := s.recv.parked[t];
    LeaveKeeps(s.recv, t, |s.queue|);
    if k.error == Eok {
      RecvAttemptKeeps(s.(recv := Leave(s.recv, t)), t, k.item, Remaining(k.timeout, k.since, now), now);
    }
  }

  lemma SendResumeKeeps(s: State, t: Tid, now: int)
    requires Inv(s) && t in s.send.parked && t !in s.send.asleep
    ensures Inv(SendResume(s, t, now).0)
  {
    var k := s.send.parked[t];
    LeaveKeeps(s.send, t, |s.free|);
    if k.error == Eok {
      SendAttemptKeeps(s.(send := Leave(s.send, t)), t, k.item, Remaining(k.timeout, k.since, now), now);
    }
  }

  lemma RerunKeeps(s: State, t: Tid, now: int)
    requires Inv(s) && Enabled(s, Rerun(t, now))
    ensures Inv(Step(s, Rerun(t, now)))
  {
    hide Inv;
    if t in s.recv.parked && t !in s.recv.asleep {
      RecvResumeKeeps(s, t, now);
    } else {
      SendResumeKeeps(s, t, now);
    }
  }

  lemma CallKeeps(s: State, a: Action)
    requires Inv(s) && Enabled(s, a) && (a.Send? || a.Urgent? || a.Recv?)
    ensures Inv(Step(s, a))
  {
    match a
    case Send(t, b, timeout, now) => if |b| <= s.msgSize { SendAttemptKeeps(s, t, b, timeout, now); }
    case Urgent(t, b) => if |b| <= s.msgSize && s.free != [] { TakeFreeKeepsStorage(s, t, b, true); }
    case Recv(t, size, timeout, now) => RecvAttemptKeeps(s, t, size, timeout, now);
  }

  lemma TimerKeeps(s: State, t: Tid)
    requires Inv(s) && Enabled(s, TimerFires(t))
    ensures Inv(Step(s, TimerFires(t)))
  {
    if t in s.recv.asleep { ExpireKeeps(s.recv, t, |s.queue|); } else { ExpireKeeps(s.send, t, |s.free|); }
  }

  lemma StepKeepsInv(s: State, a: Action)
    requires Inv(s) && Enabled(s, a)
    ensures Inv(Step(s, a))
  {
    match a {
      case Rerun(t, now) => RerunKeeps(s, t, now);
      case Copy(t) => CopyKeepsStorage(s, t);
      case Finish(t) => if s.flights[t].Filled? { LinkKeeps(s, t); } else { GiveBackKeeps(s, t); }
      case TimerFires(t) => TimerKeeps(s, t);
      case Reset => ResetKeeps(s);
      case SetPriority(_, _) =>
      case _ => CallKeeps(s, a);
    }
  }

  lemma {:induction false} RunKeepsInv(s: State, run: seq<Action>, e: State)
    requires Inv(s) && IsRun(s, run, e)
    ensures Inv(e)
    decreases run
  {
    if run != [] {
      StepKeepsInv(s, run[0]);
      RunKeepsInv(Step(s, run[0]), run[1..], e);
    }
  }

  lemma InitInv(max: nat, msgSize: nat, order: Order, data: seq<Bytes>)
    requires |data| == max && forall i :: 0 <= i < max ==> |data[i]| == msgSize
    ensures Inv(Init(max, msgSize, order, data))
  {
    var d := DownTo(max);
    forall x: int | 0 <= x < max ensures x in d {
      assert d[max - 1 - x] == x;
    }
    assert Slots([]) == [];
  }

  // ----- the theorems

  // In every reachable state each slot is in exactly one place, and nobody sleeps through a wake-up:
  // a sleeping receiver (sender) is covered by a woken one for every queued message (free slot).
  lemma SlotsConservedAndNoLostWakeUps(max: nat, msgSize: nat, order: Order, data: seq<Bytes>, run: seq<Action>, e: State)
    requires |data| == max && forall i :: 0 <= i < max ==> |data[i]| == msgSize
    requires IsRun(Init(max, msgSize, order, data), run, e)
    ensures Conserved(e)
    ensures e.recv.asleep != [] ==> |e.queue| <= |Woken(e.recv)|
    ensures e.send.asleep != [] ==> |e.free| <= |Woken(e.send)|
  {
    InitInv(max, msgSize, order, data);
    RunKeepsInv(Init(max, msgSize, order, data), run, e);
  }

  // Whatever happens between the three phases of a receive: in every reachable state a receive that is
  // about to finish hands out as many bytes as it asked for, or the whole slot if that is less, and they
  // are those the sender of its message gave, as far as they go.
  lemma ReceiverGetsSentBytes(s: State, t: Tid)
    requires Inv(s) && t in s.flights && s.flights[t].Drained?
    ensures var f, reply := s.flights[t], FinishStep(s, t).1;
      reply.Message? && HandedOut(f.msg.body, f.size, s.msgSize, reply.bytes)
  {
    assert FlightIntact(s.data, s.msgSize, s.flights[t]);
  }

  // ----- what callers are told

  // A message is refused exactly if it is longer than a slot; one that fits takes the first free slot and
  // no other, or fails or sleeps if there is none.
  lemma SendReplies(s: State, t: Tid, b: Bytes, timeout: int, now: int)
    requires Inv(s) && Outside(s, t)
    ensures var (s', r) := SendCall(s, t, b, timeout, now);
      && (r == Returned(Error) <==> |b| > s.msgSize)
      && (r == Returned(Efull) <==> |b| <= s.msgSize && |s.free| == 0 && timeout == 0)
      && (r == Slept <==> |b| <= s.msgSize && |s.free| == 0 && timeout != 0)
      && (r == Continues <==> |b| <= s.msgSize && |s.free| > 0)
      && (r.Returned? ==> s' == s)
      && (r == Slept ==> t in s'.send.asleep && s'.send.parked == s.send.parked[t := Ticket(Eok, timeout, now, b)]
                         && s' == s.(send := s'.send))
      && (r == Continues ==> s'.flights == s.flights[t := Filling(Msg(s.free[0], b, false))] && s.free == [s.free[0]] + s'.free
                             && s' == s.(flights := s'.flights, free := s'.free, owner := s'.owner))
  {
    EnqueuedElements(s.send.asleep, s.prio, t, s.order);
  }

  lemma UrgentReplies(s: State, t: Tid, b: Bytes)
    ensures var (s', r) := UrgentCall(s, t, b);
      && (r == Returned(Error) <==> |b| > s.msgSize)
      && (r == Returned(Efull) <==> |b| <= s.msgSize && |s.free| == 0)
      && (r == Continues <==> |b| <= s.msgSize && |s.free| > 0)
      && (r.Returned? ==> s' == s)
      && (r == Continues ==> s'.flights == s.flights[t := Filling(Msg(s.free[0], b, true))] && s.free == [s.free[0]] + s'.free
                             && s' == s.(flights := s'.flights, free := s'.free, owner := s'.owner))
  {
  }

  lemma RecvReplies(s: State, t: Tid, size: nat, timeout: int, now: int)
    requires Inv(s) && Outside(s, t)
    ensures var (s', r) := RecvAttempt(s, t, size, timeout, now);
      && (r == Returned(Etimeout) <==> |s.queue| == 0 && timeout == 0)
      && (r == Slept <==> |s.queue| == 0 && timeout != 0)
      && (r == Continues <==> |s.queue| > 0)
      && (r.Returned? ==> s' == s)
      && (r == Slept ==> t in s'.recv.asleep && s'.recv.parked == s.recv.parked[t := Ticket(Eok, timeout, now, size)]
                         && s' == s.(recv := s'.recv))
      && (r == Continues ==> s'.flights == s.flights[t := Draining(s.queue[0], size)] && s.queue == [s.queue[0]] + s'.queue
                             && s' == s.(flights := s'.flights, queue := s'.queue, owner := s'.owner))
  {
    EnqueuedElements(s.recv.asleep, s.prio, t, s.order);
  }

  // A thread that runs again reports its error, or is answered as if it called now, with what is left of
  // its time.
  lemma RerunReplies(s: State, t: Tid, now: int)
    ensures (t in s.send.parked && t !in s.send.asleep) || (t in s.recv.parked && t !in s.recv.asleep) ==> Enabled(s, Rerun(t, now))
    ensures t in s.send.parked ==>
      var k := s.send.parked[t];
      if k.error != Eok then SendResume(s, t, now).1 == Returned(k.error)
      else if |s.free| > 0 then SendResume(s, t, now).1 == Continues
      else SendResume(s, t, now).1 == if Remaining(k.timeout, k.since, now) == 0 then Returned(Efull) else Slept
    ensures t in s.recv.parked ==>
      var k := s.recv.parked[t];
      if k.error != Eok then RecvResume(s, t, now).1 == Returned(k.error)
      else if |s.queue| > 0 then RecvResume(s, t, now).1 == Continues
      else RecvResume(s, t, now).1 == if Remaining(k.timeout, k.since, now) == 0 then Returned(Etimeout) else Slept
  {
  }

  lemma CopyFills(s: State, t: Tid, m: Msg)
    requires t in s.flights && s.flights[t] == Filling(m) && m.slot < |s.data|
    ensures Enabled(s, Copy(t))
    ensures var s' := Step(s, Copy(t)); s'.flights == s.flights[t := Filled(m)] && s' == s.(data := s'.data, flights := s'.flights)
  {
  }

  lemma FinishLinks(s: State, t: Tid, m: Msg)
    requires t in s.flights && s.flights[t] == Filled(m)
    ensures Enabled(s, Finish(t)) && FinishStep(s, t).1 == Returned(Eok)
    ensures var s' := Step(s, Finish(t));
      && s'.queue == (if m.urgent then [m] + s.queue else s.queue + [m])
      && s'.flights == s.flights - {t} && s'.recv.parked.Keys == s.recv.parked.Keys
      && s' == s.(queue := s'.queue, flights := s'.flights, owner := s'.owner, recv := s'.recv)
  {
  }

  lemma FirstIsStored(s: State)
    requires Inv(s) && s.free != []
    ensures s.free[0] < |s.data|
  {
    assert s.free[0] in s.free;
  }

  lemma CanSend(s: State, t: Tid, b: Bytes, urgent: bool)
    requires Outside(s, t) && b != []
    ensures Enabled(s, if urgent then Urgent(t, b) else Send(t, b, 0, 0))
  {
  }

  // A message that fits is linked with all its bytes, at the front if it is urgent, else at the back.
  lemma SentIsLinked(s: State, t: Tid, b: Bytes, urgent: bool)
    requires Inv(s) && Outside(s, t) && s.free != [] && 0 < |b| <= s.msgSize
    ensures var call := if urgent then Urgent(t, b) else Send(t, b, 0, 0); var s1 := Step(s, call);
      && Enabled(s1, Copy(t))
      && var s2 := Step(s1, Copy(t));
      && Enabled(s2, Finish(t)) && FinishStep(s2, t).1 == Returned(Eok)
      && var s3 := Step(s2, Finish(t));
      && Inv(s3) && s3.msgSize == s.msgSize && s3.flights == s.flights - {t} && s3.send == s.send
      && s3.recv.parked.Keys == s.recv.parked.Keys
      && s3.queue == (if urgent then [Msg(s.free[0], b, urgent)] + s.queue else s.queue + [Msg(s.free[0], b, urgent)])
  {
    hide Inv;
    FirstIsStored(s);
    var call := if urgent then Urgent(t, b) else Send(t, b, 0, 0);
    var m := Msg(s.free[0], b, urgent);
    var s1 := Step(s, call);
    assert s1.flights == s.flights[t := Filling(m)] && s1 == s.(free := s1.free, flights := s1.flights, owner := s1.owner);
    StepKeepsInv(s, call);
    hide Step, Enabled, FinishStep;
    CopyFills(s1, t, m);
    StepKeepsInv(s1, Copy(t));
    var s2 := Step(s1, Copy(t));
    FinishLinks(s2, t, m);
    StepKeepsInv(s2, Finish(t));
    assert s.flights[t := Filling(m)][t := Filled(m)] - {t} == s.flights - {t};
  }

  lemma RecvTakes(s: State, u: Tid, size: nat, now: int)
    requires Outside(s, u) && s.queue != [] && size > 0
    ensures Enabled(s, Recv(u, size, 0, now)) && RecvAttempt(s, u, size, 0, now).1 == Continues
    ensures var s' := Step(s, Recv(u, size, 0, now)); s'.flights == s.flights[u := Draining(s.queue[0], size)] && s'.data == s.data
  {
  }

  lemma CopyDrains(s: State, u: Tid, m: Msg, size: nat)
    requires u in s.flights && s.flights[u] == Draining(m, size) && m.slot < |s.data|
    ensures Enabled(s, Copy(u))
    ensures var s' := Step(s, Copy(u)); s'.flights == s.flights[u := Drained(m, size, Prefix(s.data[m.slot], size))]
  {
  }

  lemma FinishHands(s: State, u: Tid, m: Msg, size: nat, bytes: Bytes)
    requires u in s.flights && s.flights[u] == Drained(m, size, bytes)
    ensures Enabled(s, Finish(u)) && FinishStep(s, u).1 == Message(bytes)
  {
  }

  // The first message in the queue is received with all its bytes, as far as the buffer goes.
  lemma HeadIsReceived(s: State, u: Tid, size: nat, now: int)
    requires Inv(s) && Outside(s, u) && s.queue != [] && size > 0
    ensures Enabled(s, Recv(u, size, 0, now)) && RecvAttempt(s, u, size, 0, now).1 == Continues
    ensures var s4 := Step(s, Recv(u, size, 0, now));
      && Enabled(s4, Copy(u))
      && var s5 := Step(s4, Copy(u));
      && Enabled(s5, Finish(u)) && FinishStep(s5, u).1.Message?
      && var bytes, body := FinishStep(s5, u).1.bytes, s.queue[0].body;
      && |bytes| == (if size < s.msgSize then size else s.msgSize)
      && forall i :: 0 <= i < |body| && i < size ==> i < |bytes| && bytes[i] == body[i]
  {
    var m := s.queue[0];
    assert m.slot < |s.data| && m.body <= s.data[m.slot] && |s.data[m.slot]| == s.msgSize;
    hide Inv, Outside;
    RecvTakes(s, u, size, now);
    hide Step, FinishStep, Enabled, RecvAttempt;
    var s4 := Step(s, Recv(u, size, 0, now));
    CopyDrains(s4, u, m, size);
    var s5 := Step(s4, Copy(u));
    FinishHands(s5, u, m, size, Prefix(s.data[m.slot], size));
  }

  // So a message of any length that fits, sent into an empty queue and received with a buffer that is
  // large enough, comes back byte for byte.
  lemma SentComesBack(s: State, t: Tid, b: Bytes, urgent: bool, u: Tid, size: nat, now: int)
    requires Inv(s) && Outside(s, t) && Outside(s, u) && s.queue == [] && s.free != []
    requires 0 < |b| <= s.msgSize && |b| <= size
    ensures var s1 := Step(s, if urgent then Urgent(t, b) else Send(t, b, 0, 0));
      && Enabled(s1, Copy(t)) && Enabled(Step(s1, Copy(t)), Finish(t))
      && var s3 := Step(Step(s1, Copy(t)), Finish(t));
      && Enabled(s3, Recv(u, size, 0, now))
      && var s4 := Step(s3, Recv(u, size, 0, now));
      && Enabled(s4, Copy(u))
      && var s5 := Step(s4, Copy(u));
      && Enabled(s5, Finish(u)) && FinishStep(s5, u).1.Message?
      && var bytes := FinishStep(s5, u).1.bytes;
      |b| <= |bytes| && bytes[..|b|] == b
  {
    hide Inv, Step, FinishStep, Enabled;
    CanSend(s, t, b, urgent);
    SentIsLinked(s, t, b, urgent);
    var s1 := Step(s, if urgent then Urgent(t, b) else Send(t, b, 0, 0));
    var s3 := Step(Step(s1, Copy(t)), Finish(t));
    assert s3.queue == [Msg(s.free[0], b, urgent)];
    HeadIsReceived(s3, u, size, now);
  }

  // No step of another thread touches the slot a thread has in flight.
  lemma FlightUndisturbed(s: State, a: Action, t: Tid)
    requires Inv(s) && Enabled(s, a) && t in s.flights
    requires a != Copy(t) && a != Finish(t)
    ensures t in Step(s, a).flights && Step(s, a).flights[t] == s.flights[t]
    ensures var x, s' := s.flights[t].msg.slot, Step(s, a);
      |s'.data| == |s.data| && (x < |s.data| ==> s'.data[x] == s.data[x])
  {
    match a {
      case Copy(u) =>
        assert s.flights[u].msg.slot != s.flights[t].msg.slot;
        OtherStepsLeave(s, a, t);
      case _ => OtherStepsLeave(s, a, t);
    }
  }

  lemma OtherStepsLeave(s: State, a: Action, t: Tid)
    requires Enabled(s, a) && t in s.flights
    requires a != Copy(t) && a != Finish(t)
    requires s.send.parked.Keys !! s.flights.Keys && s.recv.parked.Keys !! s.flights.Keys
    requires a.Copy? ==> s.flights[a.t].msg.slot != s.flights[t].msg.slot
    ensures t in Step(s, a).flights && Step(s, a).flights[t] == s.flights[t]
    ensures var x, s' := s.flights[t].msg.slot, Step(s, a);
      |s'.data| == |s.data| && (x < |s.data| ==> s'.data[x] == s.data[x])
  {
    hide Sleep, Expire, FailAll, GiveBack, Place, Overlay, Prefix, Remaining, WakeFirst;
  }
}

// The sizes that rt_mq_init computes.
module MessageQueueSizes {
  import opened Division
  import opened HeapBytes

  const LINK: nat := 4            // sizeof(struct rt_mq_message)
  const MODULUS := 0x1_0000       // msg_size and max_msgs have 16 bits

  function SlotSize(requested: nat, align: nat): nat
    requires align > 0
  {
    AlignUp(requested, align) % MODULUS
  }

  function SlotsIn(poolSize: nat, requested: nat, align: nat): nat
    requires align > 0
  {
    poolSize / (SlotSize(requested, align) + LINK) % MODULUS
  }

  // The slots fit the pool, and hold the messages they were asked for exactly up to 2^16 - align bytes.
  lemma SlotsFit(poolSize: nat, requested: nat, align: nat)
    requires AlignOk(align) && MODULUS % align == 0 && align <= MODULUS && requested < SIZE_MODULUS
    ensures SlotsIn(poolSize, requested, align) * (SlotSize(requested, align) + LINK) <= poolSize
    ensures requested <= SlotSize(requested, align) <==> requested <= MODULUS - align
  {
    FitsPool(poolSize, SlotSize(requested, align) + LINK);
    if requested <= MODULUS - align {
      AlignUpIsEnough(requested, align);
      Euclid(requested + align - 1, align);
    } else if requested < MODULUS {
      LastSizes(requested, align);
    }
  }

  lemma FitsPool(pool: nat, size: nat)
    requires size > 0
    ensures pool / size % MODULUS * size <= pool
  {
    var q := pool / size;
    Euclid(pool, size);
    var d: nat := q - q % MODULUS;
    MulNat(d, size);
    assert q * size == q % MODULUS * size + d * size;
  }

  // The sizes just below 2^16 round to 2^16, which is 0 in 16 bits.
  lemma LastSizes(requested: nat, align: nat)
    requires 0 < align <= MODULUS && MODULUS % align == 0 && MODULUS - align < requested < MODULUS
    ensures AlignUp(requested, align) == MODULUS
  {
    var x, q := requested + align - 1, MODULUS / align;
    Euclid(x, align);
    Euclid(MODULUS, align);
    SameQuotient(q, x - MODULUS, x / align, x % align, align);
  }
}

module MessageQueues {
  import opened MessageQueueSizes
  import opened WaitLists
  import opened MessageQueueSpec

  const NULL := -1
  // `h` is the head pointer of a NULL-terminated list through `next` that visits `xs` in order.
  ghost predicate Chain(next: seq<int>, h: int, xs: seq<Slot>)
    decreases xs
  {
    if xs == [] then h == NULL
    else h == xs[0] && h < |next| && Chain(next, next[h], xs[1..])
  }

  lemma {:induction false} ChainFrame(next: seq<int>, h: int, xs: seq<Slot>, x: Slot, v: int)
    requires Chain(next, h, xs) && x !in xs && x < |next|
    ensures Chain(next[x := v], h, xs)
    decreases xs
  {
    if xs != [] {
      ChainFrame(next, next[h], xs[1..], x, v);
    }
  }

  lemma ChainPush(next: seq<int>, h: int, xs: seq<Slot>, x: Slot)
    requires Chain(next, h, xs) && x !in xs && x < |next|
    ensures Chain(next[x := h], x, [x] + xs)
  {
    ChainFrame(next, h, xs, x, h);
    assert ([x] + xs)[1..] == xs;
  }

  lemma {:induction false} ChainAppend(next: seq<int>, h: int, xs: seq<Slot>, x: Slot)
    requires Chain(next, h, xs) && x !in xs && x < |next| && next[x] == NULL && NoDup(xs) && xs != []
    ensures xs[|xs| - 1] < |next| && Chain(next[xs[|xs| - 1] := x], h, xs + [x])
    decreases xs
  {
    assert (xs + [x])[1..] == xs[1..] + [x];
    if |xs| > 1 {
      ChainAppend(next, next[h], xs[1..], x);
      assert xs[0] != xs[|xs| - 1];
    } else {
      assert xs[1..] + [x] == [x] && [x][1..] == [];
    }
  }

  // rt_mq_send_wait has already terminated the node it is about to link.
  ghost predicate Terminated(next: seq<int>, flights: map<Tid, Flight>) {
    forall t :: t in flights && flights[t].Filled? && !flights[t].msg.urgent ==>
      flights[t].msg.slot < |next| && next[flights[t].msg.slot] == NULL
  }

  // What conservation means for the link words: no node is in two lists.
  ghost predicate Apart(max: nat, free: seq<Slot>, queued: seq<Slot>, flights: map<Tid, Flight>) {
    && NoDup(queued)
    && (forall x :: x in queued ==> x !in free)
    && (forall t :: t in flights ==> flights[t].msg.slot < max && flights[t].msg.slot !in free && flights[t].msg.slot !in queued)
    && (forall t, u :: t in flights && u in flights && flights[t].msg.slot == flights[u].msg.slot ==> t == u)
  }

  lemma ConservedApart(s: State)
    requires Conserved(s)
    ensures Apart(s.max, s.free, Slots(s.queue), s.flights)
  {
  }

  class MessageQueue {
    const msgSize: nat
    const order: Order
    const next: array<int>          // the link word in front of each slot
    const data: array<Bytes>        // the slots
    var head: int
    var tail: int
    var freeHead: int
    var entry: nat
    const receivers: WaitList<nat>
    const senders: WaitList<Bytes>
    var prio: map<Tid, nat>
    ghost var queue: seq<Msg>
    ghost var free: seq<Slot>
    ghost var flights: map<Tid, Flight>   // who holds which slot between its two regions
    ghost var owner: seq<Owner>

    // The two linked lists represent `queue` and `free`.
    ghost predicate Lists()
      reads this, next, data
    {
      && next.Length == data.Length
      && Chain(next[..], head, Slots(queue))
      && tail == (if queue == [] then NULL else queue[|queue| - 1].slot)
      && Chain(next[..], freeHead, free)
      && entry == |queue|
    }

    ghost predicate Valid()
      reads this, next, data
    {
      Lists() && Terminated(next[..], flights)
    }

    ghost function Abs(): State
      reads this, data, receivers, senders
    {
      State(data.Length, msgSize, order, queue, free, data[..], flights, owner, receivers.Abs(), senders.Abs(), prio)
    }

    // rt_mq_init on a pool of `poolSize` bytes: thread all slots onto the free list.
    constructor (poolSize: nat, requested: nat, align: nat, order: Order)
      requires align > 0
      ensures Valid() && fresh(next) && fresh(data) && fresh(receivers) && fresh(senders)
      ensures Abs() == Init(SlotsIn(poolSize, requested, align), SlotSize(requested, align), order, data[..]) && Inv(Abs())
    {
      var msgSize := SlotSize(requested, align);
      var maxMsgs := SlotsIn(poolSize, requested, align);
      this.msgSize, this.order := msgSize, order;
      var link := new int[maxMsgs];
      var h := NULL;
      ghost var f: seq<Slot> := [];
      for i := 0 to maxMsgs
        invariant f == DownTo(i)
        invariant Chain(link[..], h, f)
      {
        ChainPush(link[..], h, f, i);
        link[i] := h;
        h := i;
        f := [i] + f;
      }
      next := link;
      data := new Bytes[maxMsgs](_ => seq(msgSize, _ => 0));
      head, tail, freeHead, entry := NULL, NULL, h, 0;
      receivers := new WaitList<nat>();
      senders := new WaitList<Bytes>();
      prio := map[];
      queue, free, flights := [], f, map[];
      owner := seq(maxMsgs, _ => OnFreeList);
      new;
      assert forall i :: 0 <= i < maxMsgs ==> |data[i]| == msgSize;
      InitInv(maxMsgs, msgSize, order, data[..]);
    }

    // Move the free-list pointer past the slot the sender takes.
    method TakeFree(t: Tid, m: Msg)
      requires Valid() && Apart(next.Length, free, Slots(queue), flights) && t !in flights && m.slot == freeHead
      modifies this`freeHead, this`free, this`flights, this`owner
      ensures Valid()
      ensures freeHead == next[old(freeHead)] && old(free) == [m.slot] + free
      ensures flights == old(flights)[t := Filling(m)] && owner == Place(old(owner), m.slot, With(t))
    {
      freeHead := next[freeHead];
      owner := Place(owner, m.slot, With(t));
      flights := flights[t := Filling(m)];
      free := free[1..];
    }

    // First region of rt_mq_send_wait.
    method SendWait(t: Tid, buffer: Bytes, timeout: int, now: int) returns (r: Reply, msg: int)
      requires Valid() && Conserved(Abs()) && t !in flights
      modifies this, senders
      ensures Valid()
      ensures r == Continues ==> t in flights && flights[t].Filling? && flights[t].msg.slot == msg
      ensures (Abs(), r) == SendCall(old(Abs()), t, buffer, timeout, now)
    {
      hide Conserved, Placed, Apart;
      ConservedApart(Abs());
      if |buffer| > msgSize {
        return Returned(Error), NULL;
      }
      msg := freeHead;
      if msg == NULL {
        if timeout == 0 {
          return Returned(Efull), NULL;
        }
        senders.Suspend(t, Ticket(Eok, timeout, now, buffer), prio, order);
        return Slept, NULL;
      }
      r := Continues;
      TakeFree(t, Msg(msg, buffer, false));
    }

    // First region of rt_mq_urgent, which never waits.
    method SendUrgent(t: Tid, buffer: Bytes) returns (r: Reply, msg: int)
      requires Valid() && Conserved(Abs()) && t !in flights
      modifies this
      ensures Valid()
      ensures r == Continues ==> t in flights && flights[t].Filling? && flights[t].msg.slot == msg
      ensures (Abs(), r) == UrgentCall(old(Abs()), t, buffer)
    {
      hide Conserved, Placed, Apart;
      ConservedApart(Abs());
      if |buffer| > msgSize {
        return Returned(Error), NULL;
      }
      msg := freeHead;
      if msg == NULL {
        return Returned(Efull), NULL;
      }
      r := Continues;
      TakeFree(t, Msg(msg, buffer, true));
    }

    // Between the regions of a send: terminate the node and copy the buffer into the slot.
    method FillSlot(t: Tid, msg: Slot, buffer: Bytes, urgent: bool)
      requires Valid() && t in flights && flights[t] == Filling(Msg(msg, buffer, urgent))
      requires Apart(next.Length, free, Slots(queue), flights)
      modifies this, next, data
      ensures Valid() && Abs() == CopyStep(old(Abs()), t)
    {
      ChainFrame(next[..], head, Slots(queue), msg, NULL);
      ChainFrame(next[..], freeHead, free, msg, NULL);
      if !urgent {
        next[msg] := NULL;
      }
      data[msg] := Overlay(buffer, data[msg]);
      flights := flights[t := Filled(Msg(msg, buffer, urgent))];
    }

    // Between the regions of a receive: copy the slot out.
    method DrainSlot(t: Tid, msg: Slot, size: nat) returns (bytes: Bytes)
      requires Valid() && t in flights && flights[t].Draining? && msg < data.Length
      requires flights[t].msg.slot == msg && flights[t].size == size
      modifies this`flights
      ensures Valid() && Abs() == CopyStep(old(Abs()), t)
      ensures flights[t] == Drained(old(flights)[t].msg, size, bytes)
    {
      bytes := Prefix(data[msg], size);
      flights := flights[t := Drained(flights[t].msg, size, bytes)];
    }

    // Link a terminated node at the tail.
    method AppendNode(msg: Slot, ghost m: Msg)
      requires Lists() && m.slot == msg < next.Length && next[msg] == NULL
      requires NoDup(Slots(queue)) && msg !in Slots(queue) && msg !in free
      requires forall x :: x in Slots(queue) ==> x !in free
      modifies this`head, this`tail, this`entry, this`queue, next
      ensures Lists() && queue == old(queue) + [m]
      ensures forall x :: 0 <= x < next.Length && x !in Slots(old(queue)) ==> next[x] == old(next[x])
    {
      ghost var q := Slots(queue);
      assert Slots(queue + [m]) == q + [msg];
      if queue != [] {
        assert tail == q[|q| - 1] && tail in q;
        ChainAppend(next[..], head, q, msg);
        ChainFrame(next[..], freeHead, free, tail, msg);
      } else {
        assert [msg][1..] == [];
      }
      if tail != NULL {
        next[tail] := msg;
      }
      tail := msg;
      if head == NULL {
        head := msg;
      }
      entry := entry + 1;
      queue := queue + [m];
    }

    // Link a node at the head.
    method PrependNode(msg: Slot, ghost m: Msg)
      requires Lists() && m.slot == msg < next.Length
      requires msg !in Slots(queue) && msg !in free
      modifies this`head, this`tail, this`entry, this`queue, next
      ensures Lists() && queue == [m] + old(queue)
      ensures forall x :: 0 <= x < next.Length && x != msg ==> next[x] == old(next[x])
    {
      assert Slots([m] + queue) == [msg] + Slots(queue);
      ChainPush(next[..], head, Slots(queue), msg);
      ChainFrame(next[..], freeHead, free, msg, head);
      next[msg] := head;
      head := msg;
      if tail == NULL {
        tail := msg;
      }
      entry := entry + 1;
      queue := [m] + queue;
    }

    // Second region of rt_mq_send_wait.
    method LinkTail(t: Tid, msg: Slot) returns (r: Reply)
      requires Valid() && t in flights && flights[t].Filled? && !flights[t].msg.urgent && flights[t].msg.slot == msg
      requires Conserved(Abs())
      modifies this, next, receivers
      ensures Valid() && r == Returned(Eok)
      ensures Abs() == LinkStep(old(Abs()), t, old(flights)[t].msg)
    {
      hide Conserved, Placed, Apart;
      ConservedApart(Abs());
      AppendNode(msg, flights[t].msg);
      owner := Place(owner, msg, OnQueue);
      flights := flights - {t};
      receivers.ResumeFirst();
      return Returned(Eok);
    }

    // Second region of rt_mq_urgent.
    method LinkHead(t: Tid, msg: Slot) returns (r: Reply)
      requires Valid() && t in flights && flights[t].Filled? && flights[t].msg.urgent && flights[t].msg.slot == msg
      requires Conserved(Abs())
      modifies this, next, receivers
      ensures Valid() && r == Returned(Eok)
      ensures Abs() == LinkStep(old(Abs()), t, old(flights)[t].msg)
    {
      hide Conserved, Placed, Apart;
      ConservedApart(Abs());
      PrependNode(msg, flights[t].msg);
      owner := Place(owner, msg, OnQueue);
      flights := flights - {t};
      receivers.ResumeFirst();
      return Returned(Eok);
    }

    // Unlink the first message.
    method UnlinkHead() returns (msg: Slot)
      requires Lists() && queue != [] && NoDup(Slots(queue))
      modifies this`head, this`tail, this`entry, this`queue
      ensures Lists() && old(queue) == [old(queue)[0]] + queue && msg == old(queue)[0].slot
    {
      assert Slots(queue)[1..] == Slots(queue[1..]);
      assert |queue| > 1 ==> Slots(queue)[0] != Slots(queue)[|queue| - 1];
      msg := head;
      head := next[msg];
      if tail == msg {
        tail := NULL;
      }
      entry := entry - 1;
      queue := queue[1..];
    }

    // First region of rt_mq_recv.
    method ReceiveWait(t: Tid, size: nat, timeout: int, now: int) returns (r: Reply, msg: int)
      requires Valid() && Conserved(Abs()) && t !in flights
      modifies this, receivers
      ensures Valid()
      ensures r == Continues ==> t in flights && flights[t].Draining? && flights[t].msg.slot == msg
      ensures (Abs(), r) == RecvAttempt(old(Abs()), t, size, timeout, now)
    {
      hide Conserved, Placed, Apart;
      ConservedApart(Abs());
      if entry == 0 {
        if timeout == 0 {
          return Returned(Etimeout), NULL;
        }
        receivers.Suspend(t, Ticket(Eok, timeout, now, size), prio, order);
        return Slept, NULL;
      }
      r := Continues;
      msg := UnlinkHead();
      owner := Place(owner, msg, With(t));
      flights := flights[t := Draining(old(queue)[0], size)];
    }

    // Put a node on the free list.
    method FreeNode(msg: Slot)
      requires Lists() && msg < next.Length && msg !in Slots(queue) && msg !in free
      modifies this`freeHead, this`free, next
      ensures Lists() && free == [msg] + old(free)
      ensures forall x :: 0 <= x < next.Length && x != msg ==> next[x] == old(next[x])
    {
      ChainPush(next[..], freeHead, free, msg);
      ChainFrame(next[..], head, Slots(queue), msg, freeHead);
      next[msg] := freeHead;
      freeHead := msg;
      free := [msg] + free;
    }

    // Second region of rt_mq_recv.
    method GiveSlotBack(t: Tid, msg: Slot, bytes: Bytes) returns (r: Reply)
      requires Valid() && t in flights && flights[t].Drained?
      requires flights[t].msg.slot == msg && flights[t].bytes == bytes
      requires Conserved(Abs())
      modifies this, next, senders
      ensures Valid() && r == Message(bytes)
      ensures Abs() == GiveBackStep(old(Abs()), t, msg)
    {
      hide Conserved, Placed, Apart;
      ConservedApart(Abs());
      FreeNode(msg);
      owner := Place(owner, msg, OnFreeList);
      flights := flights - {t};
      senders.ResumeFirst();
      return Message(bytes);
    }

    // The loop of RT_IPC_CMD_RESET: drain the message list node by node.
    method ReleaseAll()
      requires Lists() && NoDup(Slots(queue))
      requires forall x :: x in Slots(queue) ==> x !in free
      modifies this`head, this`tail, this`entry, this`queue, this`freeHead, this`free, next
      ensures Lists() && queue == [] && free == GiveBack(old(queue), old(free))
      ensures forall x :: 0 <= x < next.Length && x !in Slots(old(queue)) ==> next[x] == old(next[x])
    {
      while head != NULL
        invariant Lists() && NoDup(Slots(queue))
        invariant forall x :: x in Slots(queue) ==> x !in free && x in Slots(old(queue))
        invariant GiveBack(queue, free) == GiveBack(old(queue), old(free))
        invariant forall x :: 0 <= x < next.Length && x !in Slots(old(queue)) ==> next[x] == old(next[x])
        decreases |queue|
      {
        ghost var q := Slots(queue);
        assert q[0] in q && forall x :: x in q[1..] ==> x in q;
        var msg := UnlinkHead();
        assert Slots(queue) == q[1..];
        FreeNode(msg);
      }
    }

    // rt_mq_control with RT_IPC_CMD_RESET.
    method ControlReset()
      requires Valid() && SideOk(receivers.Abs()) && SideOk(senders.Abs())
      requires Apart(next.Length, free, Slots(queue), flights)
      modifies this, next, receivers, senders
      ensures Valid() && Abs() == ResetStep(old(Abs()))
    {
      owner := ResetStep(Abs()).owner;
      receivers.ResumeAll();
      senders.ResumeAll();
      ReleaseAll();
    }
  }
}
