/**
  The order in which a message queue delivers (src/ipc.c), over the steps of `MessageQueueSpec`.
 */
module MessageQueueOrder {
  import opened WaitLists
  import opened MessageQueueSpec

  // The messages a step takes off the message list and those it links.
  function TakenBy(s: State, a: Action): seq<Msg>
    requires Enabled(s, a)
  {
    if (a.Recv? || a.Rerun?) && a.t !in s.flights && a.t in Step(s, a).flights && Step(s, a).flights[a.t].Draining?
    then [Step(s, a).flights[a.t].msg] else []
  }

  function LinkedBy(s: State, a: Action): seq<Msg>
    requires Enabled(s, a)
  {
    if a.Finish? && s.flights[a.t].Filled? then [s.flights[a.t].msg] else []
  }

  ghost function TakenIn(s: State, run: seq<Action>, e: State): seq<Msg>
    requires IsRun(s, run, e)
    decreases run
  {
    if run == [] then [] else TakenBy(s, run[0]) + TakenIn(Step(s, run[0]), run[1..], e)
  }

  ghost function LinkedIn(s: State, run: seq<Action>, e: State): seq<Msg>
    requires IsRun(s, run, e)
    decreases run
  {
    if run == [] then [] else LinkedBy(s, run[0]) + LinkedIn(Step(s, run[0]), run[1..], e)
  }

  ghost predicate NoneUrgent(flights: map<Tid, Flight>) {
    forall t :: t in flights && (flights[t].Filling? || flights[t].Filled?) ==> !flights[t].msg.urgent
  }

  // One step moves messages through the queue, urgent ones in at the front and the others at the back.
  lemma StepInOrder(s: State, a: Action)
    requires Inv(s) && Enabled(s, a) && !a.Reset?
    ensures if a.Finish? && s.flights[a.t].Filled? && s.flights[a.t].msg.urgent then Step(s, a).queue == LinkedBy(s, a) + s.queue
            else TakenBy(s, a) + Step(s, a).queue == s.queue + LinkedBy(s, a)
    ensures !a.Urgent? && NoneUrgent(s.flights) ==> NoneUrgent(Step(s, a).flights)
  {
    hide Inv;
    match a {
      case Finish(t) => FinishInOrder(s, t);
      case Rerun(t, now) =>
        Outsider(s, t);
        RerunInOrder(s, t, now);
      case _ => hide Storage, Calls;
    }
  }

  lemma Outsider(s: State, t: Tid)
    requires Inv(s) && (t in s.recv.parked || t in s.send.parked)
    ensures t !in s.flights
  {
  }

  lemma CalmStep(s: State, a: Action)
    requires Inv(s) && Enabled(s, a) && !a.Reset? && !a.Urgent? && NoneUrgent(s.flights)
    ensures TakenBy(s, a) + Step(s, a).queue == s.queue + LinkedBy(s, a) && NoneUrgent(Step(s, a).flights)
  {
    hide Step, Inv, TakenBy, LinkedBy;
    StepInOrder(s, a);
  }

  lemma FinishInOrder(s: State, t: Tid)
    requires Enabled(s, Finish(t))
    ensures var a := Finish(t);
      if s.flights[t].Filled? && s.flights[t].msg.urgent then Step(s, a).queue == LinkedBy(s, a) + s.queue
      else TakenBy(s, a) + Step(s, a).queue == s.queue + LinkedBy(s, a)
    ensures NoneUrgent(s.flights) ==> NoneUrgent(Step(s, Finish(t)).flights)
  {
  }

  lemma RecvAttemptTakes(s: State, t: Tid, size: nat, timeout: int, now: int)
    requires t !in s.flights
    ensures var s' := RecvAttempt(s, t, size, timeout, now).0;
      && (NoneUrgent(s.flights) ==> NoneUrgent(s'.flights))
      && if s.queue == [] then s'.queue == [] && s'.flights == s.flights
         else s'.flights == s.flights[t := Draining(s.queue[0], size)] && s.queue == [s.queue[0]] + s'.queue
  {
    hide Sleep, Place;
  }

  lemma SendAttemptTakesNone(s: State, t: Tid, b: Bytes, timeout: int, now: int)
    requires t !in s.flights
    ensures var s' := SendAttempt(s, t, b, timeout, now).0;
      && s'.queue == s.queue && (NoneUrgent(s.flights) ==> NoneUrgent(s'.flights))
      && (t in s'.flights ==> s'.flights[t].Filling?)
  {
    hide Sleep, Place;
  }

  lemma RerunInOrder(s: State, t: Tid, now: int)
    requires Enabled(s, Rerun(t, now)) && t !in s.flights
    ensures var a := Rerun(t, now); TakenBy(s, a) + Step(s, a).queue == s.queue && LinkedBy(s, a) == []
    ensures NoneUrgent(s.flights) ==> NoneUrgent(Step(s, Rerun(t, now)).flights)
  {
    hide RecvAttempt, SendAttempt, Remaining, NoneUrgent;
    if t in s.recv.parked && t !in s.recv.asleep {
      var k := s.recv.parked[t];
      RecvAttemptTakes(s.(recv := Leave(s.recv, t)), t, k.item, Remaining(k.timeout, k.since, now), now);
    } else {
      var k := s.send.parked[t];
      SendAttemptTakesNone(s.(send := Leave(s.send, t)), t, k.item, Remaining(k.timeout, k.since, now), now);
    }
  }

  // In any run without urgent messages and resets, messages leave the queue in the order in which they
  // were linked, none is lost, and none is delivered twice.
  lemma {:induction false} MessagesInOrder(s: State, run: seq<Action>, e: State)
    requires Inv(s) && IsRun(s, run, e) && NoneUrgent(s.flights)
    requires forall a :: a in run ==> !a.Urgent? && !a.Reset?
    ensures TakenIn(s, run, e) + e.queue == s.queue + LinkedIn(s, run, e)
    decreases run
  {
    hide Step, Inv, Enabled, TakenBy, LinkedBy, NoneUrgent;
    if run == [] {
      assert s.queue + [] == s.queue;
    } else {
      var m := Step(s, run[0]);
      StepKeepsInv(s, run[0]);
      assert run[0] in run && forall a :: a in run[1..] ==> a in run;
      CalmStep(s, run[0]);
      MessagesInOrder(m, run[1..], e);
      calc {
        TakenBy(s, run[0]) + TakenIn(m, run[1..], e) + e.queue;
        TakenBy(s, run[0]) + (TakenIn(m, run[1..], e) + e.queue);
        TakenBy(s, run[0]) + (m.queue + LinkedIn(m, run[1..], e));
        (TakenBy(s, run[0]) + m.queue) + LinkedIn(m, run[1..], e);
        (s.queue + LinkedBy(s, run[0])) + LinkedIn(m, run[1..], e);
        s.queue + (LinkedBy(s, run[0]) + LinkedIn(m, run[1..], e));
      }
    }
  }

  // The messages that are not urgent.
  function Plain(q: seq<Msg>): seq<Msg> {
    if q == [] then [] else (if q[0].urgent then [] else [q[0]]) + Plain(q[1..])
  }

  lemma {:induction false} PlainConcat(a: seq<Msg>, b: seq<Msg>)
    ensures Plain(a + b) == Plain(a) + Plain(b)
    decreases a
  {
    if a == [] {
      assert a + b == b;
    } else {
      assert (a + b)[1..] == a[1..] + b;
      PlainConcat(a[1..], b);
    }
  }

  lemma StepPlain(s: State, a: Action)
    requires Inv(s) && Enabled(s, a) && !a.Reset?
    ensures Plain(TakenBy(s, a)) + Plain(Step(s, a).queue) == Plain(s.queue) + Plain(LinkedBy(s, a))
  {
    hide Step, Inv;
    StepInOrder(s, a);
    PlainConcat(TakenBy(s, a), Step(s, a).queue);
    PlainConcat(s.queue, LinkedBy(s, a));
    PlainConcat(LinkedBy(s, a), s.queue);
  }

  // With urgent messages among them, the others still leave the queue in the order in which they were
  // linked, whoever overtakes them.
  lemma {:induction false} PlainInOrder(s: State, run: seq<Action>, e: State)
    requires Inv(s) && IsRun(s, run, e) && forall a :: a in run ==> !a.Reset?
    ensures Plain(TakenIn(s, run, e)) + Plain(e.queue) == Plain(s.queue) + Plain(LinkedIn(s, run, e))
    decreases run
  {
    hide Step, Inv, Enabled, TakenBy, LinkedBy, Plain;
    if run == [] {
      NoPlain();
      assert Plain(s.queue) + [] == Plain(s.queue);
    } else {
      var m := Step(s, run[0]);
      StepKeepsInv(s, run[0]);
      assert run[0] in run && forall a :: a in run[1..] ==> a in run;
      StepPlain(s, run[0]);
      PlainInOrder(m, run[1..], e);
      var t, l := TakenIn(m, run[1..], e), LinkedIn(m, run[1..], e);
      PlainConcat(TakenBy(s, run[0]), t);
      PlainConcat(LinkedBy(s, run[0]), l);
      calc {
        Plain(TakenBy(s, run[0])) + Plain(t) + Plain(e.queue);
        Plain(TakenBy(s, run[0])) + (Plain(t) + Plain(e.queue));
        Plain(TakenBy(s, run[0])) + (Plain(m.queue) + Plain(l));
        (Plain(TakenBy(s, run[0])) + Plain(m.queue)) + Plain(l);
        (Plain(s.queue) + Plain(LinkedBy(s, run[0]))) + Plain(l);
        Plain(s.queue) + (Plain(LinkedBy(s, run[0])) + Plain(l));
      }
    }
  }

  lemma NoPlain()
    ensures Plain([]) == []
  {
  }

  // With urgent messages too, what goes in comes out or is still queued.
  lemma {:induction false} MessagesConserved(s: State, run: seq<Action>, e: State)
    requires Inv(s) && IsRun(s, run, e) && forall a :: a in run ==> !a.Reset?
    ensures multiset(TakenIn(s, run, e)) + multiset(e.queue) == multiset(s.queue) + multiset(LinkedIn(s, run, e))
    decreases run
  {
    hide Step, Inv, Enabled, TakenBy, LinkedBy;
    if run != [] {
      var m := Step(s, run[0]);
      StepKeepsInv(s, run[0]);
      assert run[0] in run && forall a :: a in run[1..] ==> a in run;
      MessagesConserved(m, run[1..], e);
      StepConserves(s, run[0]);
      var t, l := TakenIn(m, run[1..], e), LinkedIn(m, run[1..], e);
      assert TakenIn(s, run, e) == TakenBy(s, run[0]) + t && LinkedIn(s, run, e) == LinkedBy(s, run[0]) + l;
      assert multiset(TakenBy(s, run[0]) + t) == multiset(TakenBy(s, run[0])) + multiset(t);
      assert multiset(LinkedBy(s, run[0]) + l) == multiset(LinkedBy(s, run[0])) + multiset(l);
      Rearrange(multiset(TakenBy(s, run[0])), multiset(t), multiset(e.queue), multiset(m.queue), multiset(l), multiset(s.queue),
                multiset(LinkedBy(s, run[0])));
    }
  }

  lemma Rearrange(taken: multiset<Msg>, later: multiset<Msg>, end: multiset<Msg>, mid: multiset<Msg>, linked: multiset<Msg>,
                  start: multiset<Msg>, first: multiset<Msg>)
    requires later + end == mid + linked && taken + mid == start + first
    ensures taken + later + end == start + (first + linked)
  {
    forall x: Msg ensures (taken + later + end)[x] == (start + (first + linked))[x] {
      assert (later + end)[x] == (mid + linked)[x] && (taken + mid)[x] == (start + first)[x];
    }
  }

  lemma StepConserves(s: State, a: Action)
    requires Inv(s) && Enabled(s, a) && !a.Reset?
    ensures multiset(TakenBy(s, a)) + multiset(Step(s, a).queue) == multiset(s.queue) + multiset(LinkedBy(s, a))
  {
    hide Step, Inv, Enabled;
    StepInOrder(s, a);
    assert multiset(TakenBy(s, a) + Step(s, a).queue) == multiset(TakenBy(s, a)) + multiset(Step(s, a).queue);
    assert multiset(s.queue + LinkedBy(s, a)) == multiset(s.queue) + multiset(LinkedBy(s, a));
    assert multiset(LinkedBy(s, a) + s.queue) == multiset(s.queue) + multiset(LinkedBy(s, a));
  }

  // An urgent message that is linked before the next receive is the next one received.
  lemma UrgentIsNext(s: State, t: Tid, u: Tid, size: nat, timeout: int, now: int)
    requires Inv(s) && Enabled(s, Finish(t)) && s.flights[t].Filled? && s.flights[t].msg.urgent
    requires Enabled(Step(s, Finish(t)), Recv(u, size, timeout, now))
    ensures TakenBy(Step(s, Finish(t)), Recv(u, size, timeout, now)) == [s.flights[t].msg]
  {
  }
}
