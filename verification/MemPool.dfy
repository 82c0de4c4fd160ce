/**
  The fixed-block memory pool (src/mempool.c).

  A free block's header word links it to the next free block; a live block's header word points to the
  pool.  Threads that find no block wait in LIFO order and test again when they are woken.
 */
module MemPoolSpec {
  import opened WaitLists

  type Block = nat

  datatype Reply = Slept | Failed(err: Err) | Allocated(block: Block)

  datatype State = State(total: nat, free: seq<Block>, live: set<Block>, waiters: Side<()>)

  datatype Action =
    | Alloc(t: Tid, timeout: int, now: int)
    | Rerun(t: Tid, now: int)
    | Free(b: Block)
    | TimerFires(t: Tid)

  function UpTo(n: nat): seq<Block> {
    seq(n, i => i)
  }

  function Init(total: nat): State {
    State(total, UpTo(total), {}, Side([], map[]))
  }

  function AllocAttempt(s: State, t: Tid, timeout: int, now: int): (State, Reply) {
    if s.free == [] then
      if timeout == 0 then (s, Failed(Etimeout))
      else (s.(waiters := Sleep(s.waiters, t, Ticket(Eok, timeout, now, ()), map[], Lifo)), Slept)
    else
      (s.(free := s.free[1..], live := s.live + {s.free[0]}), Allocated(s.free[0]))
  }

  function AllocResume(s: State, t: Tid, now: int): (State, Reply)
    requires t in s.waiters.parked
  {
    var k := s.waiters.parked[t];
    var s1 := s.(waiters := Leave(s.waiters, t));
    if k.error != Eok then (s1, Failed(k.error))
    else AllocAttempt(s1, t, Remaining(k.timeout, k.since, now), now)
  }

  function FreeStep(s: State, b: Block): State {
    s.(free := [b] + s.free, live := s.live - {b}, waiters := WakeFirst(s.waiters))
  }

  predicate Enabled(s: State, a: Action) {
    match a
    case Alloc(t, _, _) => t !in s.waiters.parked
    case Rerun(t, _) => t in s.waiters.parked && t !in s.waiters.asleep
    case Free(b) => b in s.live
    case TimerFires(t) => t in s.waiters.asleep && t in s.waiters.parked && s.waiters.parked[t].timeout > 0
  }

  function Step(s: State, a: Action): State
    requires Enabled(s, a)
  {
    match a
    case Alloc(t, timeout, now) => AllocAttempt(s, t, timeout, now).0
    case Rerun(t, now) => AllocResume(s, t, now).0
    case Free(b) => FreeStep(s, b)
    case TimerFires(t) => s.(waiters := Expire(s.waiters, t))
  }

  ghost predicate IsRun(s: State, run: seq<Action>, e: State)
    decreases run
  {
    if run == [] then s == e
    else Enabled(s, run[0]) && IsRun(Step(s, run[0]), run[1..], e)
  }

  // Every block is either free, once, or live, and nothing else is.
  ghost predicate Blocks(s: State) {
    && NoDup(s.free)
    && (forall b :: b in s.free ==> b < s.total && b !in s.live)
    && (forall b :: b in s.live ==> b < s.total)
    && (forall b :: 0 <= b < s.total ==> b in s.free || b in s.live)
  }

  ghost predicate Inv(s: State) {
    Blocks(s) && SideOk(s.waiters) && NoLost(s.waiters, |s.free|)
  }

  lemma AttemptKeeps(s: State, t: Tid, timeout: int, now: int)
    requires Blocks(s) && SideOk(s.waiters) && t !in s.waiters.parked
    requires s.free != [] ==> NoLost(s.waiters, |s.free| - 1)
    ensures Inv(AllocAttempt(s, t, timeout, now).0)
  {
    if s.free != [] {
      var b, rest := s.free[0], s.free[1..];
      assert s.free == [b] + rest && b in s.free;
      assert forall x :: x in s.free <==> x == b || x in rest;
    } else if timeout != 0 {
      SleepKeeps(s.waiters, t, Ticket(Eok, timeout, now, ()), map[], Lifo, 0);
    }
  }

  lemma StepKeepsInv(s: State, a: Action)
    requires Inv(s) && Enabled(s, a)
    ensures Inv(Step(s, a))
  {
    match a
    case Alloc(t, timeout, now) => AttemptKeeps(s, t, timeout, now);
    case Rerun(t, now) =>
      var k := s.waiters.parked[t];
      LeaveKeeps(s.waiters, t, |s.free|);
      if k.error == Eok {
        AttemptKeeps(s.(waiters := Leave(s.waiters, t)), t, Remaining(k.timeout, k.since, now), now);
      }
    case Free(b) =>
      assert b !in s.free;
      WakeFirstKeeps(s.waiters, |s.free|);
    case TimerFires(t) => ExpireKeeps(s.waiters, t, |s.free|);
  }

  lemma {:induction false} RunKeepsInv(s: State, run: seq<Action>, e: State)
    requires Inv(s) && IsRun(s, run, e)
    ensures Inv(e)
    decreases run
  {
    if run != [] {
      StepKeepsInv(s, run[0]);
      RunKeepsInv(Step(s, run[0]), run[1..], e);
    }
  }

  // In every reachable state a block is free or live but not both, and no allocator sleeps through a
  // free: there are at most as many free blocks as allocators that were woken and have not run.
  lemma BlocksConservedAndNoLostWakeUps(total: nat, run: seq<Action>, e: State)
    requires IsRun(Init(total), run, e)
    ensures Blocks(e)
    ensures e.waiters.asleep != [] ==> |e.free| <= |Woken(e.waiters)|
  {
    forall b: int | 0 <= b < total ensures b in UpTo(total) {
      assert UpTo(total)[b] == b;
    }
    RunKeepsInv(Init(total), run, e);
  }

  // An allocation never hands out a block that somebody still holds.
  lemma AllocatedWasNotLive(s: State, t: Tid, timeout: int, now: int)
    requires Inv(s) && AllocAttempt(s, t, timeout, now).1.Allocated?
    ensures var b := AllocAttempt(s, t, timeout, now).1.block;
      b !in s.live && b < s.total && AllocAttempt(s, t, timeout, now).0.live == s.live + {b}
  {
    assert s.free[0] in s.free;
  }

  // An allocation succeeds exactly if a block is free, and gets the block freed last; else it reports the
  // timeout at once, or sleeps in front of all other sleepers.
  lemma AllocReplies(s: State, t: Tid, timeout: int, now: int)
    requires Inv(s) && Enabled(s, Alloc(t, timeout, now))
    ensures var (s', r) := AllocAttempt(s, t, timeout, now);
      && (r.Allocated? <==> |s.free| > 0)
      && (r == Failed(Etimeout) <==> |s.free| == 0 && timeout == 0)
      && (r == Slept <==> |s.free| == 0 && timeout != 0)
      && s.free == (if r.Allocated? then [r.block] else []) + s'.free
      && s'.live == s.live + (if r.Allocated? then {r.block} else {})
      && (if r == Slept then s'.waiters == Side([t] + s.waiters.asleep, s.waiters.parked[t := Ticket(Eok, timeout, now, ())])
          else s'.waiters == s.waiters)
  {
  }

  // A thread that runs again reports its error, or is answered as if it called now, with what is left of
  // its time.
  lemma RerunReplies(s: State, t: Tid, now: int)
    requires Inv(s) && Enabled(s, Rerun(t, now))
    ensures var k, (s', r) := s.waiters.parked[t], AllocResume(s, t, now);
      && (k.error != Eok ==> r == Failed(k.error) && s'.free == s.free && s'.live == s.live)
      && (k.error == Eok && |s.free| > 0 ==> r == Allocated(s.free[0]) && s'.free == s.free[1..] && s'.live == s.live + {r.block})
      && (k.error == Eok && |s.free| == 0 ==>
            r == (if Remaining(k.timeout, k.since, now) == 0 then Failed(Etimeout) else Slept) && s'.free == s.free && s'.live == s.live)
      && (r == Slept ==> t in s'.waiters.asleep && s'.waiters.parked[t].timeout == Remaining(k.timeout, k.since, now))
  {
  }

  // A free puts exactly this block in front of the free list and wakes the first sleeper, which is the
  // one that went to sleep last.
  lemma FreeWakes(s: State, b: Block)
    requires Inv(s) && Enabled(s, Free(b))
    ensures var s' := FreeStep(s, b);
      && s'.free == [b] + s.free && b !in s'.live && s'.live + {b} == s.live
      && (if s.waiters.asleep != [] then
            s.waiters.asleep == [s.waiters.asleep[0]] + s'.waiters.asleep
            && Woken(s'.waiters) == Woken(s.waiters) + {s.waiters.asleep[0]}
          else s'.waiters == s.waiters)
  {
    if s.waiters.asleep != [] {
      FirstIsWoken(s.waiters);
    }
  }

  // Freeing the block just allocated restores the pool, when nobody waits.
  lemma FreeUndoesAlloc(s: State, t: Tid, timeout: int, now: int)
    requires Inv(s) && AllocAttempt(s, t, timeout, now).1.Allocated? && s.waiters.asleep == []
    ensures FreeStep(AllocAttempt(s, t, timeout, now).0, AllocAttempt(s, t, timeout, now).1.block) == s
  {
    assert s.free[0] in s.free;
    assert [s.free[0]] + s.free[1..] == s.free;
    assert s.live + {s.free[0]} - {s.free[0]} == s.live;
  }
}

module MemPools {
  import opened WaitLists
  import opened MemPoolSpec

  const NULL := -1
  const POOL := -2   // the header word of a live block: the pool's own address

  // The free list through the header words, from the block `h` on.
  ghost predicate Links(word: seq<int>, h: int, free: seq<Block>)
    decreases free
  {
    if free == [] then h == NULL
    else h == free[0] && h < |word| && Links(word, word[h], free[1..])
  }

  lemma {:induction false} LinksFrame(word: seq<int>, h: int, free: seq<Block>, b: Block, v: int)
    requires Links(word, h, free) && b !in free && b < |word|
    ensures Links(word[b := v], h, free)
    decreases free
  {
    if free != [] {
      LinksFrame(word, word[h], free[1..], b, v);
    }
  }

  lemma {:induction false} LinksUpTo(word: seq<int>, n: nat, i: nat)
    requires i <= n == |word|
    requires forall k :: 0 <= k < n ==> word[k] == if k + 1 < n then k + 1 else NULL
    ensures Links(word, if i < n then i else NULL, UpTo(n)[i..])
    decreases n - i
  {
    if i < n {
      LinksUpTo(word, n, i + 1);
      assert UpTo(n)[i..][1..] == UpTo(n)[i + 1..];
    }
  }

  class MemPool {
    const word: array<int>       // the header word of each block
    var before: int              // what lies where a block before the first would have its header
    var blockList: int
    var blockFreeCount: nat
    const suspended: WaitList<()>
    ghost var free: seq<Block>
    ghost var live: set<Block>

    ghost predicate Valid()
      reads this, word
    {
      && (if word.Length == 0 then free == [] else Links(word[..], blockList, free))
      && blockFreeCount == |free|
      && forall b :: b in live <==> 0 <= b < word.Length && word[b] == POOL
    }

    ghost function Abs(): State
      reads this, word, suspended
    {
      State(word.Length, free, live, suspended.Abs())
    }

    // rt_mp_init for a region that holds `total` blocks.  If there is none, the header that it writes
    // last lies before the region and overwrites whatever is there.
    constructor (total: nat, outside: int)
      ensures Valid() && fresh(word) && fresh(suspended) && Abs() == Init(total)
      ensures before == if total == 0 then NULL else outside
    {
      var w := new int[total];
      var offset := 0;
      while offset < total
        invariant offset <= total
        invariant forall k :: 0 <= k < offset ==> w[k] == k + 1
      {
        w[offset] := offset + 1;
        offset := offset + 1;
      }
      before := outside;
      if offset == 0 {
        before := NULL;
      } else {
        w[offset - 1] := NULL;
      }
      word := w;
      blockList, blockFreeCount := 0, total;
      suspended := new WaitList<()>();
      free, live := UpTo(total), {};
      LinksUpTo(w[..], total, 0);
      assert UpTo(total)[0..] == UpTo(total);
    }

    // rt_mp_alloc, from the loop test on.
    method AllocBlock(t: Tid, timeout: int, now: int) returns (r: Reply)
      requires Valid() && NoDup(free)
      modifies this, word, suspended
      ensures Valid()
      ensures (Abs(), r) == AllocAttempt(old(Abs()), t, timeout, now)
    {
      if blockFreeCount == 0 {
        if timeout == 0 {
          return Failed(Etimeout);
        }
        suspended.Suspend(t, Ticket(Eok, timeout, now, ()), map[], Lifo);
        return Slept;
      }
      blockFreeCount := blockFreeCount - 1;
      var b := blockList;
      LinksFrame(word[..], word[b], free[1..], b, POOL);
      blockList := word[b];
      word[b] := POOL;
      free := free[1..];
      live := live + {b};
      return Allocated(b);
    }

    // rt_mp_alloc after rt_schedule().
    method ResumeAlloc(t: Tid, now: int) returns (r: Reply)
      requires Valid() && NoDup(free) && t in suspended.parked
      modifies this, word, suspended
      ensures Valid()
      ensures (Abs(), r) == AllocResume(old(Abs()), t, now)
    {
      var k := suspended.parked[t];
      suspended.Unpark(t);
      if k.error != Eok {
        return Failed(k.error);
      }
      r := AllocBlock(t, Remaining(k.timeout, k.since, now), now);
    }

    // rt_mp_free: the header word must still name this pool.
    method FreeBlock(b: Block)
      requires Valid() && b < word.Length && word[b] == POOL
      requires forall x :: x in free ==> x !in live
      modifies this, word, suspended
      ensures Valid() && Abs() == FreeStep(old(Abs()), b)
    {
      blockFreeCount := blockFreeCount + 1;
      LinksFrame(word[..], blockList, free, b, blockList);
      word[b] := blockList;
      assert blockList != POOL;
      blockList := b;
      free := [b] + free;
      live := live - {b};
      assert free[1..] == old(free);
      suspended.ResumeFirst();
    }
  }
}
