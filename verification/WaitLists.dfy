/**
  Threads waiting on a kernel object.

  Every blocking call of the kernel follows the same protocol.  With interrupts disabled it tests a
  condition; if the condition fails it clears `thread->error`, puts the thread on a suspend list and
  calls `rt_schedule()`.  When the thread runs again it returns if `thread->error` was set (a timeout
  or a reset) and otherwise tests the condition again.  A thread between the two points is `parked`;
  it is `asleep` while it is on the list and `woken` once a grant has taken it off the list with
  `thread->error` still RT_EOK.

  `Side` is the abstract state of one suspend list, `WaitList` the object that updates it in place.
 */
module WaitLists {
  type Tid = nat

  datatype Err = Eok | Etimeout | Error | Efull

  // FIFO and PRIO are the two IPC flags; LIFO is what the memory pool does (it inserts at the head).
  datatype Order = Fifo | Prio | Lifo

  // What a parked thread keeps: `thread->error` and the local variables of the blocking call.
  datatype Ticket<T> = Ticket(error: Err, timeout: int, since: int, item: T)

  datatype Side<T> = Side(asleep: seq<Tid>, parked: map<Tid, Ticket<T>>)

  const TICK_MODULUS := 0x1_0000_0000

  ghost predicate NoDup(s: seq<Tid>) {
    forall i, j :: 0 <= i < j < |s| ==> s[i] != s[j]
  }

  ghost predicate SideOk<T>(s: Side<T>) {
    && NoDup(s.asleep)
    && forall t :: t in s.asleep ==> t in s.parked && s.parked[t].error == Eok
  }

  ghost function Woken<T>(s: Side<T>): set<Tid> {
    set t | t in s.parked && t !in s.asleep && s.parked[t].error == Eok
  }

  // No wake-up is lost while `avail` units of the resource are there: whoever still sleeps, a thread
  // that was woken and has not run yet stands ready for each available unit.
  ghost predicate NoLost<T>(s: Side<T>, avail: int) {
    s.asleep != [] ==> avail <= |Woken(s)|
  }

  // ----- where a thread goes in a suspend list

  function InsertionPoint(list: seq<Tid>, prio: map<Tid, nat>, p: nat): (i: nat)
    ensures i <= |list|
  {
    if list == [] then 0
    else if list[0] in prio && p < prio[list[0]] then 0
    else 1 + InsertionPoint(list[1..], prio, p)
  }

  function InsertAt(list: seq<Tid>, i: nat, t: Tid): (r: seq<Tid>)
    requires i <= |list|
    ensures |r| == |list| + 1 && r[i] == t
    ensures multiset(r) == multiset(list) + multiset{t}
  {
    assert list == list[..i] + list[i..];
    list[..i] + [t] + list[i..]
  }

  function Enqueued(list: seq<Tid>, prio: map<Tid, nat>, t: Tid, order: Order): seq<Tid> {
    match order
    case Fifo => list + [t]
    case Lifo => [t] + list
    case Prio => InsertAt(list, InsertionPoint(list, prio, if t in prio then prio[t] else 0), t)
  }

  lemma InsertAtElements(list: seq<Tid>, i: nat, t: Tid)
    requires NoDup(list) && t !in list && i <= |list|
    ensures NoDup(InsertAt(list, i, t))
    ensures forall x :: x in InsertAt(list, i, t) <==> x in list || x == t
  {
    var r := InsertAt(list, i, t);
    assert forall k :: 0 <= k < |r| ==> r[k] == if k < i then list[k] else if k == i then t else list[k - 1];
    forall x ensures x in r <==> x in list || x == t {
      assert x in multiset(r) <==> x in multiset(list) || x == t;
    }
  }

  lemma EnqueuedElements(list: seq<Tid>, prio: map<Tid, nat>, t: Tid, order: Order)
    requires NoDup(list) && t !in list
    ensures NoDup(Enqueued(list, prio, t, order))
    ensures forall x :: x in Enqueued(list, prio, t, order) <==> x in list || x == t
  {
    if order == Prio {
      var i := InsertionPoint(list, prio, if t in prio then prio[t] else 0);
      InsertAtElements(list, i, t);
    }
  }

  ghost predicate SortedByPriority(list: seq<Tid>, prio: map<Tid, nat>) {
    && (forall t :: t in list ==> t in prio)
    && forall i, j :: 0 <= i < j < |list| ==> prio[list[i]] <= prio[list[j]]
  }

  // In a sorted list the insertion point splits the waiters that are at least as urgent from the
  // ones that are strictly less urgent.
  lemma {:induction false} InsertionPointSplits(list: seq<Tid>, prio: map<Tid, nat>, p: nat)
    requires SortedByPriority(list, prio)
    ensures forall k :: 0 <= k < InsertionPoint(list, prio, p) ==> prio[list[k]] <= p
    ensures forall k :: InsertionPoint(list, prio, p) <= k < |list| ==> p < prio[list[k]]
  {
    if list != [] && prio[list[0]] <= p {
      InsertionPointSplits(list[1..], prio, p);
      var i := InsertionPoint(list[1..], prio, p);
      assert forall k :: 1 <= k < |list| ==> list[k] == list[1..][k - 1];
    }
  }

  lemma InsertKeepsSorted(list: seq<Tid>, prio: map<Tid, nat>, i: nat, t: Tid)
    requires SortedByPriority(list, prio) && t in prio && i <= |list|
    requires forall k :: 0 <= k < i ==> prio[list[k]] <= prio[t]
    requires forall k :: i <= k < |list| ==> prio[t] <= prio[list[k]]
    ensures SortedByPriority(InsertAt(list, i, t), prio)
  {
    var r := InsertAt(list, i, t);
    forall k | 0 <= k < |r| ensures r[k] in prio {
      assert r[k] == if k < i then list[k] else if k == i then t else list[k - 1];
    }
    forall a, b | 0 <= a < b < |r| ensures prio[r[a]] <= prio[r[b]] {
      assert r[a] == if a < i then list[a] else if a == i then t else list[a - 1];
      assert r[b] == if b < i then list[b] else if b == i then t else list[b - 1];
    }
  }

  // A priority-ordered list stays sorted, the most urgent waiter first, and a new waiter goes behind
  // all waiters that are as urgent as itself.
  lemma PrioInsertKeepsSorted(list: seq<Tid>, prio: map<Tid, nat>, t: Tid)
    requires SortedByPriority(list, prio) && t in prio
    ensures SortedByPriority(Enqueued(list, prio, t, Prio), prio)
    ensures forall k :: 0 <= k < |list| && prio[list[k]] == prio[t] ==> k < InsertionPoint(list, prio, prio[t])
  {
    InsertionPointSplits(list, prio, prio[t]);
    InsertKeepsSorted(list, prio, InsertionPoint(list, prio, prio[t]), t);
  }

  // ----- the abstract operations on one suspend list

  function Sleep<T>(s: Side<T>, t: Tid, k: Ticket<T>, prio: map<Tid, nat>, order: Order): Side<T> {
    Side(Enqueued(s.asleep, prio, t, order), s.parked[t := k.(error := Eok)])
  }

  function WakeFirst<T>(s: Side<T>): Side<T> {
    if s.asleep == [] then s else s.(asleep := s.asleep[1..])
  }

  function Without(list: seq<Tid>, t: Tid): (r: seq<Tid>)
    ensures t !in r && forall x :: x in list && x != t ==> x in r
    ensures forall x :: x in r ==> x in list
  {
    if list == [] then [] else if list[0] == t then Without(list[1..], t) else [list[0]] + Without(list[1..], t)
  }

  function Expire<T>(s: Side<T>, t: Tid): Side<T>
    requires t in s.parked
  {
    Side(Without(s.asleep, t), s.parked[t := s.parked[t].(error := Etimeout)])
  }

  function FailAll<T>(s: Side<T>): Side<T> {
    Side([], map t | t in s.parked :: if t in s.asleep then s.parked[t].(error := Error) else s.parked[t])
  }

  function Leave<T>(s: Side<T>, t: Tid): Side<T> {
    s.(parked := s.parked - {t})
  }

  // `timeout -= rt_tick_get() - before`, computed in 32 bits and clipped at zero; waiting forever
  // (a negative timeout) stays as it is.
  function Remaining(timeout: int, before: int, now: int): int {
    if timeout <= 0 then timeout
    else
      var r := (timeout - (now - before)) % TICK_MODULUS;
      if r >= TICK_MODULUS / 2 then 0 else r
  }

  // The remaining time is the difference in all cases that can come up: a wait shorter than half the
  // tick range.  A wait without end stays one.
  lemma RemainingIsDifference(timeout: int, before: int, elapsed: nat)
    requires timeout < TICK_MODULUS / 2 && elapsed < TICK_MODULUS / 2
    ensures Remaining(timeout, before, (before + elapsed) % TICK_MODULUS)
         == if timeout < 0 then timeout else if elapsed < timeout then timeout - elapsed else 0
  {
    var now := (before + elapsed) % TICK_MODULUS;
    var q := (before + elapsed) / TICK_MODULUS;
    assert timeout - (now - before) == timeout - elapsed + q * TICK_MODULUS;
    ModShift(timeout - elapsed, q);
  }

  lemma ModShift(x: int, q: int)
    ensures (x + q * TICK_MODULUS) % TICK_MODULUS == x % TICK_MODULUS
  {
    var r, d := x % TICK_MODULUS, x / TICK_MODULUS;
    assert x + q * TICK_MODULUS == r + (d + q) * TICK_MODULUS;
  }

  // ----- who is served when

  // A newcomer overtakes a waiter never in a FIFO list, always in a LIFO list, and in a priority list
  // exactly if it is strictly more urgent.
  lemma Overtakes<T>(s: Side<T>, i: nat, u: Tid, k: Ticket<T>, prio: map<Tid, nat>, order: Order)
    requires SideOk(s) && u !in s.asleep && i < |s.asleep|
    requires order == Prio ==> SortedByPriority(s.asleep, prio) && u in prio
    ensures var l := Sleep(s, u, k, prio, order).asleep;
      && |l| == |s.asleep| + 1 && u in l
      && s.asleep[i] == match order
                        case Fifo => l[i]
                        case Lifo => l[i + 1]
                        case Prio => if prio[u] < prio[s.asleep[i]] then l[i + 1] else l[i]
  {
    EnqueuedElements(s.asleep, prio, u, order);
    if order == Prio {
      InsertionPointSplits(s.asleep, prio, prio[u]);
    }
  }

  // A grant wakes the first sleeper and no other, and keeps the rest in their order.
  lemma FirstIsWoken<T>(s: Side<T>)
    requires SideOk(s) && s.asleep != []
    ensures Woken(WakeFirst(s)) == Woken(s) + {s.asleep[0]}
    ensures s.asleep == [s.asleep[0]] + WakeFirst(s).asleep && WakeFirst(s).parked == s.parked
  {
  }

  // A timeout takes one sleeper out of the list, a reset all of them; each is told the error, and no
  // other thread is told anything.
  lemma ErrorsAreTold<T>(s: Side<T>, t: Tid, i: nat)
    requires SideOk(s) && i < |s.asleep| && s.asleep[i] == t
    ensures Expire(s, t).asleep == s.asleep[..i] + s.asleep[i + 1..]
    ensures Expire(s, t).parked == s.parked[t := Ticket(Etimeout, s.parked[t].timeout, s.parked[t].since, s.parked[t].item)]
    ensures FailAll(s).asleep == [] && FailAll(s).parked.Keys == s.parked.Keys
    ensures forall x :: x in s.parked ==>
      FailAll(s).parked[x] == if x in s.asleep then s.parked[x].(error := Error) else s.parked[x]
  {
    WithoutAt(s.asleep, t, i);
  }

  // ----- every operation keeps the promise

  lemma {:induction false} WithoutNoDup(list: seq<Tid>, t: Tid)
    requires NoDup(list)
    ensures NoDup(Without(list, t))
    ensures |Without(list, t)| == if t in list then |list| - 1 else |list|
  {
    if list != [] {
      WithoutNoDup(list[1..], t);
      assert forall k :: 0 <= k < |list[1..]| ==> list[1..][k] == list[k + 1];
      if list[0] != t {
        assert list[0] !in Without(list[1..], t);
      }
    }
  }

  lemma SleepKeeps<T>(s: Side<T>, t: Tid, k: Ticket<T>, prio: map<Tid, nat>, order: Order, avail: int)
    requires SideOk(s) && t !in s.parked && avail <= 0
    ensures SideOk(Sleep(s, t, k, prio, order)) && NoLost(Sleep(s, t, k, prio, order), avail)
  {
    EnqueuedElements(s.asleep, prio, t, order);
  }

  // A grant adds one unit and wakes one sleeper.
  lemma WakeFirstKeeps<T>(s: Side<T>, avail: int)
    requires SideOk(s) && NoLost(s, avail)
    ensures SideOk(WakeFirst(s)) && NoLost(WakeFirst(s), avail + 1)
  {
    if s.asleep != [] {
      var t := s.asleep[0];
      assert Woken(WakeFirst(s)) == Woken(s) + {t};
    }
  }

  // A thread that was woken runs again: it uses up at most its own wake-up.
  lemma LeaveKeeps<T>(s: Side<T>, t: Tid, avail: int)
    requires SideOk(s) && NoLost(s, avail) && t !in s.asleep
    ensures SideOk(Leave(s, t))
    ensures NoLost(Leave(s, t), if t in Woken(s) then avail - 1 else avail)
  {
    assert Woken(Leave(s, t)) == Woken(s) - {t};
  }

  lemma ExpireKeeps<T>(s: Side<T>, t: Tid, avail: int)
    requires SideOk(s) && NoLost(s, avail) && t in s.asleep
    ensures SideOk(Expire(s, t)) && NoLost(Expire(s, t), avail)
  {
    WithoutNoDup(s.asleep, t);
    assert Woken(Expire(s, t)) == Woken(s);
  }

  // ----- the suspend list, updated in place

  class WaitList<T> {
    var asleep: seq<Tid>
    var parked: map<Tid, Ticket<T>>

    constructor ()
      ensures Abs() == Side([], map[])
    {
      asleep, parked := [], map[];
    }

    function Abs(): Side<T>
      reads this
    {
      Side(asleep, parked)
    }

    // rt_ipc_list_suspend: scan for the first waiter that is less urgent and insert before it.
    method Suspend(t: Tid, k: Ticket<T>, prio: map<Tid, nat>, order: Order)
      modifies this
      ensures Abs() == Sleep(old(Abs()), t, k, prio, order)
    {
      match order {
        case Fifo => asleep := asleep + [t];
        case Lifo => asleep := [t] + asleep;
        case Prio =>
          var p := if t in prio then prio[t] else 0;
          var n := 0;
          while n < |asleep| && !(asleep[n] in prio && p < prio[asleep[n]])
            invariant n <= |asleep|
            invariant InsertionPoint(asleep, prio, p) == n + InsertionPoint(asleep[n..], prio, p)
          {
            n := n + 1;
          }
          asleep := InsertAt(asleep, n, t);
      }
      parked := parked[t := k.(error := Eok)];
    }

    // rt_ipc_list_resume on a list that may be empty.
    method ResumeFirst()
      modifies this
      ensures Abs() == WakeFirst(old(Abs()))
    {
      if asleep != [] {
        asleep := asleep[1..];
      }
    }

    // rt_ipc_list_resume_all: every sleeper leaves the list with -RT_ERROR.
    method ResumeAll()
      requires SideOk(Abs())
      modifies this
      ensures Abs() == FailAll(old(Abs()))
    {
      while asleep != []
        invariant SideOk(Abs())
        invariant parked.Keys == old(parked.Keys)
        invariant forall t :: t in asleep ==> t in old(asleep)
        invariant forall t :: t in parked && (t in asleep || t !in old(asleep)) ==> parked[t] == old(parked)[t]
        invariant forall t :: t in old(asleep) && t !in asleep ==> parked[t] == old(parked)[t].(error := Error)
        decreases |asleep|
      {
        var t := asleep[0];
        assert t in asleep;
        parked := parked[t := parked[t].(error := Error)];
        asleep := asleep[1..];
      }
    }

    // rt_thread_timeout for a thread that sleeps here.
    method TimeOut(t: Tid)
      requires SideOk(Abs()) && t in asleep
      modifies this
      ensures Abs() == Expire(old(Abs()), t)
    {
      parked := parked[t := parked[t].(error := Etimeout)];
      var i := 0;
      while asleep[i] != t
        invariant 0 <= i < |asleep| && asleep == old(asleep)
        invariant t !in asleep[..i]
        decreases |asleep| - i
      {
        i := i + 1;
      }
      WithoutAt(asleep, t, i);
      asleep := asleep[..i] + asleep[i + 1..];
    }

    // The thread is done with the call.
    method Unpark(t: Tid)
      modifies this
      ensures Abs() == Leave(old(Abs()), t)
    {
      parked := parked - {t};
    }
  }

  lemma {:induction false} WithoutAbsent(list: seq<Tid>, t: Tid)
    requires t !in list
    ensures Without(list, t) == list
  {
    if list != [] {
      WithoutAbsent(list[1..], t);
    }
  }

  lemma {:induction false} WithoutAt(list: seq<Tid>, t: Tid, i: nat)
    requires i < |list| && list[i] == t && NoDup(list)
    ensures Without(list, t) == list[..i] + list[i + 1..]
  {
    if i == 0 {
      WithoutAbsent(list[1..], t);
    } else {
      assert list[0] != list[i];
      WithoutAt(list[1..], t, i - 1);
      assert [list[0]] + (list[1..][..i - 1] + list[1..][i..]) == list[..i] + list[i + 1..];
    }
  }
}
