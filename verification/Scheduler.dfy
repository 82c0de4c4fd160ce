/**
  The single-core scheduler: src/scheduler.c, with __rt_ffs of src/kservice.c, the priority and state
  changes of src/thread.c and the time slice of src/clock.c.

  Ready threads wait in one FIFO list per priority.  A bitmap of one level (up to 32 priorities) or two
  levels (up to 256) tells which lists are not empty; the theorems are that it always does, that after
  scheduling nobody more urgent than the running thread is ready, and that equals take turns.
 */
module ReadyBits {
  // Bit k of v, and v with bit k set or cleared.
  function Bit(v: nat, k: nat): bool { if k == 0 then v % 2 == 1 else Bit(v / 2, k - 1) }

  function SetBit(v: nat, k: nat): nat {
    if k == 0 then (if v % 2 == 1 then v else v + 1) else 2 * SetBit(v / 2, k - 1) + v % 2
  }

  function ClearBit(v: nat, k: nat): nat {
    if k == 0 then (if v % 2 == 1 then v - 1 else v) else 2 * ClearBit(v / 2, k - 1) + v % 2
  }

  lemma {:induction false} BitOfSet(v: nat, k: nat, j: nat)
    ensures Bit(SetBit(v, k), j) <==> j == k || Bit(v, j)
    decreases k
  {
    if k > 0 && j > 0 {
      assert SetBit(v, k) / 2 == SetBit(v / 2, k - 1);
      BitOfSet(v / 2, k - 1, j - 1);
    }
  }

  lemma {:induction false} BitOfClear(v: nat, k: nat, j: nat)
    ensures Bit(ClearBit(v, k), j) <==> j != k && Bit(v, j)
    decreases k
  {
    if k > 0 && j > 0 {
      assert ClearBit(v, k) / 2 == ClearBit(v / 2, k - 1);
      BitOfClear(v / 2, k - 1, j - 1);
    }
  }

  function Pow2(w: nat): nat { if w == 0 then 1 else 2 * Pow2(w - 1) }

  lemma {:induction false} WidthKept(v: nat, k: nat, w: nat)
    requires v < Pow2(w) && k < w
    ensures SetBit(v, k) < Pow2(w) && ClearBit(v, k) < Pow2(w)
    decreases w
  {
    var half := Pow2(w - 1);
    assert Pow2(w) == 2 * half && v / 2 < half;
    if k > 0 {
      WidthKept(v / 2, k - 1, w - 1);
      assert SetBit(v, k) == 2 * SetBit(v / 2, k - 1) + v % 2;
      assert ClearBit(v, k) == 2 * ClearBit(v / 2, k - 1) + v % 2;
    }
  }

  lemma {:induction false} NoHighBits(v: nat, k: nat, w: nat)
    requires v < Pow2(w) && w <= k
    ensures !Bit(v, k)
    decreases w
  {
    if w > 0 {
      NoHighBits(v / 2, k - 1, w - 1);
    } else {
      ZeroHasNoBits(k);
    }
  }

  lemma {:induction false} ZeroHasNoBits(k: nat)
    ensures !Bit(0, k)
    decreases k
  {
    if k > 0 { ZeroHasNoBits(k - 1); }
  }

  // The position of the lowest bit that is set.
  function LowestBit(v: nat): nat
    requires v > 0
  {
    if v % 2 == 1 then 0 else 1 + LowestBit(v / 2)
  }

  lemma {:induction false} LowestBitIsLowest(v: nat)
    requires v > 0
    ensures Bit(v, LowestBit(v)) && forall j: nat :: j < LowestBit(v) ==> !Bit(v, j)
    decreases v
  {
    if v % 2 == 0 {
      LowestBitIsLowest(v / 2);
    }
  }

  // ----- __rt_ffs

  // __lowest_bit_bitmap: sixteen rows that differ in their first entry only.
  const FIRST: seq<nat> := [0, 4, 5, 4, 6, 4, 5, 4, 7, 4, 5, 4, 6, 4, 5, 4]
  const ROW: seq<nat> := [0, 0, 1, 0, 2, 0, 1, 0, 3, 0, 1, 0, 2, 0, 1, 0]

  function Bitmap(b: nat): nat
    requires b < 256
  {
    if b % 16 == 0 then FIRST[b / 16] else ROW[b % 16]
  }

  // __rt_ffs: by bytes, from the lowest.
  function Ffs(v: nat): nat
    requires v < 0x1_0000_0000
  {
    if v == 0 then 0
    else if v % 256 != 0 then Bitmap(v % 256) + 1
    else if v / 256 % 256 != 0 then Bitmap(v / 256 % 256) + 9
    else if v / 65536 % 256 != 0 then Bitmap(v / 65536 % 256) + 17
    else Bitmap(v / 16777216) + 25
  }

  // Two, four and eight bits at a time.
  lemma Quarter(v: nat)
    requires v > 0
    ensures v % 4 != 0 ==> LowestBit(v) == if v % 2 == 1 then 0 else 1
    ensures v % 4 == 0 ==> v / 4 > 0 && LowestBit(v) == 2 + LowestBit(v / 4)
  {
    assert v / 2 / 2 == v / 4;
    if v % 2 == 0 {
      assert LowestBit(v) == 1 + LowestBit(v / 2);
    }
  }

  function Low4(n: nat): nat
    requires 0 < n < 16
  {
    if n % 2 == 1 then 0 else if n % 4 == 2 then 1 else if n % 8 == 4 then 2 else 3
  }

  lemma Tables(n: nat)
    requires 0 < n < 16
    ensures ROW[n] == Low4(n) && FIRST[n] == Low4(n) + 4
  {
  }

  lemma Nibble(v: nat)
    requires v > 0
    ensures v % 16 != 0 ==> LowestBit(v) == Low4(v % 16)
    ensures v % 16 == 0 ==> v / 16 > 0 && LowestBit(v) == 4 + LowestBit(v / 16)
  {
    hide LowestBit;
    hide Low4;
    Quarter(v);
    var q, r := v / 16, v % 16;
    NibbleMods(v, q, r);
    if r > 0 { Low4Parts(r); }
    if v % 4 == 0 { Quarter(v / 4); }
  }

  lemma NibbleMods(v: nat, q: nat, r: nat)
    requires v == 16 * q + r && r < 16
    ensures v % 4 == r % 4 && v % 2 == r % 2 && v / 4 % 4 == r / 4 && v / 4 % 2 == r / 4 % 2 && v / 4 / 4 == q
  {
    Mod4(4 * q, r);
    Mod2(8 * q, r);
    Mod4(q, r / 4);
    Mod2(2 * q, r / 4);
  }

  lemma Mod2(a: nat, b: nat)
    ensures (2 * a + b) % 2 == b % 2 && (2 * a + b) / 2 == a + b / 2
  {
  }

  lemma Mod4(a: nat, b: nat)
    ensures (4 * a + b) % 4 == b % 4 && (4 * a + b) / 4 == a + b / 4
  {
  }

  lemma Low4Parts(r: nat)
    requires 0 < r < 16
    ensures r % 4 == 0 ==> Low4(r) == 2 + (if r / 4 % 2 == 1 then 0 else 1) && r / 4 > 0
    ensures r % 4 != 0 ==> Low4(r) == if r % 2 == 1 then 0 else 1
  {
  }

  lemma Byte(v: nat)
    requires v > 0
    ensures v % 256 != 0 ==> LowestBit(v) == Bitmap(v % 256)
    ensures v % 256 == 0 ==> v / 256 > 0 && LowestBit(v) == 8 + LowestBit(v / 256)
  {
    hide LowestBit, Low4;
    Nibble(v);
    assert v % 256 % 16 == v % 16 && v % 256 / 16 == v / 16 % 16 && v / 16 / 16 == v / 256;
    if v % 16 == 0 {
      Nibble(v / 16);
      if v / 16 % 16 != 0 { Tables(v / 16 % 16); }
    } else {
      Tables(v % 16);
    }
  }

  // __rt_ffs finds the lowest bit, counted from one, in every 32-bit value.
  lemma FfsIsLowest(v: nat)
    requires v < 0x1_0000_0000
    ensures v == 0 ==> Ffs(v) == 0
    ensures v > 0 ==> Ffs(v) == LowestBit(v) + 1
  {
    hide LowestBit, Bitmap;
    if v > 0 {
      Byte(v);
      if v % 256 == 0 {
        Byte(v / 256);
        assert v / 256 / 256 == v / 65536;
        if v / 256 % 256 == 0 {
          Byte(v / 65536);
          assert v / 65536 / 256 == v / 16777216;
          if v / 65536 % 256 == 0 {
            Byte(v / 16777216);
          }
        }
      }
    }
  }
}

module SchedulingSpec {
  import opened WaitLists
  import opened ReadyBits

  datatype Stat = Init | Ready | Suspended | Running | Closed

  type Word = n: nat | n < TICK_MODULUS witness 0

  datatype Thread = Thread(prio: nat, stat: Stat, yielding: bool, remaining: Word, initTick: Word)

  type Threads = map<Tid, Thread>

  predicate NonEmpty(lists: seq<seq<Tid>>, p: nat) { p < |lists| && lists[p] != [] }

  // The bitmap tells which lists are not empty.  With more than 32 priorities, bit p % 8 of byte p / 8
  // stands for priority p, and bit n of the group says whether byte n is not zero.
  ghost predicate Agree(lists: seq<seq<Tid>>, group: nat, table: seq<nat>) {
    && |lists| <= 256 && group < Pow2(32) && |table| == 32 && (forall n :: 0 <= n < 32 ==> table[n] < Pow2(8))
    && if |lists| > 32 then TwoLevels(lists, group, table) else OneLevel(lists, group)
  }

  ghost predicate OneLevel(lists: seq<seq<Tid>>, group: nat) {
    forall p: nat :: p < 32 ==> (Bit(group, p) <==> NonEmpty(lists, p))
  }

  ghost predicate TwoLevels(lists: seq<seq<Tid>>, group: nat, table: seq<nat>)
    requires |table| == 32
  {
    && (forall p: nat :: p < 256 ==> (Bit(table[p / 8], p % 8) <==> NonEmpty(lists, p)))
    && (forall n: nat :: n < 32 ==> (Bit(group, n) <==> table[n] != 0))
  }

  // p is the most urgent priority with a ready thread.
  ghost predicate Highest(lists: seq<seq<Tid>>, p: nat) {
    NonEmpty(lists, p) && forall q: nat :: q < p ==> !NonEmpty(lists, q)
  }

  function HighestByBits(levels: nat, group: nat, table: seq<nat>): int
    requires 0 < group < 0x1_0000_0000 && |table| == 32 && (forall n :: 0 <= n < 32 ==> table[n] < 0x1_0000_0000)
  {
    var number := Ffs(group) - 1;
    if levels > 32 then (if 0 <= number < 32 then number * 8 + Ffs(table[number]) - 1 else -1) else number
  }

  lemma Widths()
    ensures Pow2(32) == 0x1_0000_0000 && Pow2(8) == 256
  {
    assert Pow2(8) == 256;
    assert Pow2(16) == 256 * Pow2(8) by { assert Pow2(12) == 16 * Pow2(8); }
    assert Pow2(24) == 256 * Pow2(16) by { assert Pow2(20) == 16 * Pow2(16); }
    assert Pow2(32) == 256 * Pow2(24) by { assert Pow2(28) == 16 * Pow2(24); }
  }

  lemma LowestInWidth(v: nat, w: nat)
    requires 0 < v < Pow2(w)
    ensures LowestBit(v) < w
  {
    LowestBitIsLowest(v);
    if LowestBit(v) >= w { NoHighBits(v, LowestBit(v), w); }
  }

  // The fast search finds the most urgent list, and the group is zero just if all lists are empty.
  lemma HighestIsHighest(lists: seq<seq<Tid>>, group: nat, table: seq<nat>)
    requires Agree(lists, group, table) && group > 0
    ensures group < 0x1_0000_0000 && forall n :: 0 <= n < 32 ==> table[n] < 0x1_0000_0000
    ensures HighestByBits(|lists|, group, table) >= 0 && Highest(lists, HighestByBits(|lists|, group, table))
  {
    hide Pow2, Bit, LowestBit, Ffs;
    Widths();
    FfsIsLowest(group);
    LowestBitIsLowest(group);
    LowestInWidth(group, 32);
    var n := LowestBit(group);
    if |lists| > 32 {
      FfsIsLowest(table[n]);
      LowestBitIsLowest(table[n]);
      LowestInWidth(table[n], 8);
      var p := n * 8 + LowestBit(table[n]);
      assert p / 8 == n && p % 8 == LowestBit(table[n]);
      forall q: nat | q < p ensures !NonEmpty(lists, q) {
        if q / 8 < n {
          assert table[q / 8] == 0;
          ZeroHasNoBits(q % 8);
        } else {
          assert q / 8 == n && q % 8 < LowestBit(table[n]);
        }
        assert !Bit(table[q / 8], q % 8);
      }
    }
  }

  lemma GroupZero(lists: seq<seq<Tid>>, group: nat, table: seq<nat>)
    requires Agree(lists, group, table) && group == 0
    ensures forall p: nat :: !NonEmpty(lists, p)
  {
    hide Bit;
    forall p: nat ensures !NonEmpty(lists, p) {
      if p < |lists| {
        if |lists| > 32 {
          ZeroHasNoBits(p / 8);
          assert !Bit(group, p / 8);
          ZeroHasNoBits(p % 8);
          assert !Bit(table[p / 8], p % 8);
        } else {
          ZeroHasNoBits(p);
          assert !Bit(group, p);
        }
      }
    }
  }

  // ----- setting and clearing the bits of one priority

  // `lists'` differs from `lists` in list p only.
  ghost predicate OnlyAt(lists: seq<seq<Tid>>, lists': seq<seq<Tid>>, p: nat) {
    |lists'| == |lists| && p < |lists| && forall q :: 0 <= q < |lists| && q != p ==> lists'[q] == lists[q]
  }

  function MarkedTable(levels: nat, table: seq<nat>, p: nat): seq<nat>
    requires p < 256 && |table| == 32
  {
    if levels > 32 then table[p / 8 := SetBit(table[p / 8], p % 8)] else table
  }

  function GroupBit(levels: nat, p: nat): nat { if levels > 32 then p / 8 else p }

  lemma MarkAgree(lists: seq<seq<Tid>>, group: nat, table: seq<nat>, p: nat, lists': seq<seq<Tid>>)
    requires Agree(lists, group, table) && OnlyAt(lists, lists', p) && lists'[p] != []
    ensures Agree(lists', SetBit(group, GroupBit(|lists|, p)), MarkedTable(|lists|, table, p))
  {
    hide Pow2, Bit, SetBit;
    var k := GroupBit(|lists|, p);
    WidthKept(group, k, 32);
    forall q: nat ensures Bit(SetBit(group, k), q) <==> q == k || Bit(group, q) { BitOfSet(group, k, q); }
    if |lists| > 32 {
      MarkTwo(lists, group, table, p, lists');
    } else {
      assert forall q: nat :: NonEmpty(lists', q) <==> q == p || NonEmpty(lists, q);
    }
  }

  lemma MarkTwo(lists: seq<seq<Tid>>, group: nat, table: seq<nat>, p: nat, lists': seq<seq<Tid>>)
    requires Agree(lists, group, table) && OnlyAt(lists, lists', p) && lists'[p] != [] && |lists| > 32
    ensures var t := MarkedTable(|lists|, table, p);
      && TwoLevels(lists', SetBit(group, p / 8), t) && forall n :: 0 <= n < 32 ==> t[n] < Pow2(8)
  {
    hide Pow2, Bit, SetBit;
    var n := p / 8;
    var b := SetBit(table[n], p % 8);
    var t := table[n := b];
    WidthKept(table[n], p % 8, 8);
    BitOfSet(table[n], p % 8, p % 8);
    ZeroHasNoBits(p % 8);
    assert b != 0;
    forall q: nat | q < 256 ensures Bit(t[q / 8], q % 8) <==> NonEmpty(lists', q) {
      assert Bit(table[q / 8], q % 8) <==> NonEmpty(lists, q);
      if q / 8 == n {
        BitOfSet(table[n], p % 8, q % 8);
        assert q % 8 == p % 8 ==> q == p;
      }
    }
    forall m: nat | m < 32 ensures Bit(SetBit(group, n), m) <==> t[m] != 0 {
      BitOfSet(group, n, m);
      assert Bit(group, m) <==> table[m] != 0;
    }
  }

  function ClearedTable(levels: nat, table: seq<nat>, p: nat): seq<nat>
    requires p < 256 && |table| == 32
  {
    if levels > 32 then table[p / 8 := ClearBit(table[p / 8], p % 8)] else table
  }

  function ClearedGroup(levels: nat, group: nat, table: seq<nat>, p: nat): nat
    requires p < 256 && |table| == 32
  {
    if levels > 32 && ClearBit(table[p / 8], p % 8) != 0 then group else ClearBit(group, GroupBit(levels, p))
  }

  lemma ClearAgree(lists: seq<seq<Tid>>, group: nat, table: seq<nat>, p: nat, lists': seq<seq<Tid>>)
    requires Agree(lists, group, table) && OnlyAt(lists, lists', p) && lists'[p] == []
    ensures Agree(lists', ClearedGroup(|lists|, group, table, p), ClearedTable(|lists|, table, p))
  {
    hide Pow2, Bit, ClearBit;
    var k := GroupBit(|lists|, p);
    WidthKept(group, k, 32);
    forall q: nat ensures Bit(ClearBit(group, k), q) <==> q != k && Bit(group, q) { BitOfClear(group, k, q); }
    if |lists| > 32 {
      ClearTwo(lists, group, table, p, lists');
    } else {
      assert forall q: nat :: NonEmpty(lists', q) <==> q != p && NonEmpty(lists, q);
    }
  }

  lemma ClearTwo(lists: seq<seq<Tid>>, group: nat, table: seq<nat>, p: nat, lists': seq<seq<Tid>>)
    requires Agree(lists, group, table) && OnlyAt(lists, lists', p) && lists'[p] == [] && |lists| > 32
    ensures var t := ClearedTable(|lists|, table, p);
      && TwoLevels(lists', ClearedGroup(|lists|, group, table, p), t) && forall n :: 0 <= n < 32 ==> t[n] < Pow2(8)
  {
    hide Pow2, Bit, ClearBit;
    var n := p / 8;
    var b := ClearBit(table[n], p % 8);
    var t := table[n := b];
    WidthKept(table[n], p % 8, 8);
    forall q: nat | q < 256 ensures Bit(t[q / 8], q % 8) <==> NonEmpty(lists', q) {
      assert Bit(table[q / 8], q % 8) <==> NonEmpty(lists, q);
      if q / 8 == n {
        BitOfClear(table[n], p % 8, q % 8);
        assert q % 8 == p % 8 ==> q == p;
      }
    }
    forall m: nat | m < 32 ensures Bit(ClearedGroup(|lists|, group, table, p), m) <==> t[m] != 0 {
      BitOfClear(group, n, m);
      assert Bit(group, m) <==> table[m] != 0;
      if m == n && b != 0 && table[n] == 0 { ClearZero(p % 8); }
    }
  }

  lemma {:induction false} ClearZero(k: nat)
    ensures ClearBit(0, k) == 0
    decreases k
  {
    if k > 0 { ClearZero(k - 1); }
  }

  // ----- the ready lists

  // List p holds exactly the ready threads of priority p, each once.  The current thread is in no list,
  // and only it can be running.
  ghost predicate Queues(lists: seq<seq<Tid>>, threads: Threads, current: Tid) {
    && current in threads && threads[current].stat != Ready
    && (forall t :: t in threads ==> threads[t].prio < |lists| && (threads[t].stat == Running ==> t == current))
    && (forall p, t :: 0 <= p < |lists| ==> (t in lists[p] <==> Waits(threads, t, p)))
    && (forall p :: 0 <= p < |lists| ==> NoDup(lists[p]))
  }

  predicate Waits(threads: Threads, t: Tid, p: nat) {
    t in threads && threads[t].stat == Ready && threads[t].prio == p
  }

  // Nobody who is ready is more urgent than the running thread.
  ghost predicate MostUrgentRuns(threads: Threads, current: Tid) {
    && current in threads && threads[current].stat == Running
    && forall t :: t in threads && threads[t].stat == Ready ==> threads[current].prio <= threads[t].prio
  }

  function ListAdd(lists: seq<seq<Tid>>, p: nat, t: Tid): seq<seq<Tid>>
    requires p < |lists|
  {
    lists[p := lists[p] + [t]]
  }

  function ListDrop(lists: seq<seq<Tid>>, p: nat, t: Tid): seq<seq<Tid>>
    requires p < |lists|
  {
    lists[p := Without(lists[p], t)]
  }

  lemma AddQueues(lists: seq<seq<Tid>>, threads: Threads, current: Tid, t: Tid, v: Thread)
    requires Queues(lists, threads, current) && t in threads && t != current && threads[t].stat != Ready
    requires v.stat == Ready && v.prio < |lists|
    ensures Queues(ListAdd(lists, v.prio, t), threads[t := v], current)
  {
    assert t !in lists[v.prio];
  }

  // A thread that is taken off its list and changes its state or priority.
  lemma DropQueues(lists: seq<seq<Tid>>, threads: Threads, current: Tid, t: Tid, v: Thread, current': Tid)
    requires Queues(lists, threads, current) && t in threads
    requires v.stat != Ready && v.prio < |lists|
    requires v.stat == Running ==> t == current'
    requires current' == t || (current' == current && current != t)
    requires current' != current ==> threads[current].stat != Running
    ensures Queues(ListDrop(lists, threads[t].prio, t), threads[t := v], current')
  {
    WithoutNoDup(lists[threads[t].prio], t);
    var lists' := ListDrop(lists, threads[t].prio, t);
    forall p, x | 0 <= p < |lists| ensures x in lists'[p] <==> Waits(threads[t := v], x, p) {
      assert x in lists[p] <==> Waits(threads, x, p);
    }
  }

  // A thread that is not ready changes and stays unready.
  lemma ChangeQueues(lists: seq<seq<Tid>>, threads: Threads, current: Tid, t: Tid, v: Thread)
    requires Queues(lists, threads, current) && t in threads && threads[t].stat != Ready && v.stat != Ready && v.prio < |lists|
    requires v.stat == Running ==> t == current
    ensures Queues(lists, threads[t := v], current)
  {
    forall p, x | 0 <= p < |lists| ensures x in lists[p] <==> Waits(threads[t := v], x, p) {
      assert x in lists[p] <==> Waits(threads, x, p);
    }
  }

  lemma DropAbsent(lists: seq<seq<Tid>>, threads: Threads, current: Tid, t: Tid)
    requires Queues(lists, threads, current) && t in threads && threads[t].stat != Ready
    ensures ListDrop(lists, threads[t].prio, t) == lists
  {
    assert t !in lists[threads[t].prio];
    WithoutAbsent(lists[threads[t].prio], t);
  }

  // Comparing with the head of the most urgent list is comparing with everybody.
  lemma HighestThread(lists: seq<seq<Tid>>, threads: Threads, current: Tid, p: nat)
    requires Queues(lists, threads, current) && Highest(lists, p)
    ensures p < |lists| && lists[p] != [] && Waits(threads, lists[p][0], p) && lists[p][0] != current
    ensures forall t :: t in threads && threads[t].stat == Ready ==> p <= threads[t].prio
  {
    assert lists[p][0] in lists[p];
    forall t | t in threads && threads[t].stat == Ready ensures p <= threads[t].prio {
      assert Waits(threads, t, threads[t].prio);
      assert t in lists[threads[t].prio];
      assert NonEmpty(lists, threads[t].prio);
    }
  }

  lemma NobodyReady(lists: seq<seq<Tid>>, threads: Threads, current: Tid)
    requires Queues(lists, threads, current) && forall p: nat :: !NonEmpty(lists, p)
    ensures forall t :: t in threads ==> threads[t].stat != Ready
  {
    forall t | t in threads ensures threads[t].stat != Ready {
      assert t in lists[threads[t].prio] <==> Waits(threads, t, threads[t].prio);
      assert !NonEmpty(lists, threads[t].prio);
    }
  }

  // ----- rt_schedule

  // The current thread goes on: it runs, and is more urgent than the others or equally urgent without
  // its slice being used up.
  predicate GoesOn(v: Thread, p: nat) {
    v.stat == Running && (v.prio < p || (v.prio == p && !v.yielding))
  }

  // The lists after switching to the head of list p; a thread that was running goes to the end of its own.
  function Switched(lists: seq<seq<Tid>>, current: Tid, v: Thread, p: nat): seq<seq<Tid>>
    requires p < |lists| && lists[p] != [] && v.prio < |lists|
  {
    var filled := if v.stat == Running then ListAdd(lists, v.prio, current) else lists;
    filled[p := filled[p][1..]]
  }

  lemma DropHead(xs: seq<Tid>)
    requires xs != [] && NoDup(xs)
    ensures Without(xs, xs[0]) == xs[1..]
  {
    assert forall k :: 0 <= k < |xs[1..]| ==> xs[1..][k] == xs[k + 1];
    WithoutAbsent(xs[1..], xs[0]);
  }

  lemma CurrentKnown(lists: seq<seq<Tid>>, threads: Threads, current: Tid)
    requires Queues(lists, threads, current)
    ensures current in threads && threads[current].stat != Ready
    ensures forall t :: t in threads ==> threads[t].prio < |lists| && (threads[t].stat == Running ==> t == current)
  {
  }

  // The group is zero just if nobody is ready.
  lemma GroupTells(lists: seq<seq<Tid>>, group: nat, table: seq<nat>, threads: Threads, current: Tid)
    requires Agree(lists, group, table) && Queues(lists, threads, current)
    ensures group == 0 <==> forall p: nat :: !NonEmpty(lists, p)
    ensures group == 0 ==> (forall p: nat :: !Highest(lists, p)) && forall t :: t in threads ==> threads[t].stat != Ready
  {
    if group == 0 {
      GroupZero(lists, group, table);
      NobodyReady(lists, threads, current);
    } else {
      HighestIsHighest(lists, group, table);
    }
  }

  lemma HighestIsOne(lists: seq<seq<Tid>>, p: nat)
    requires Highest(lists, p)
    ensures forall q: nat :: Highest(lists, q) <==> q == p
  {
    forall q: nat ensures Highest(lists, q) <==> q == p {
      if q < p { assert !NonEmpty(lists, q); }
      if p < q { assert NonEmpty(lists, p); }
    }
  }

  // A list that is not empty before and after a change does not matter to the bitmap.
  lemma SameShape(lists: seq<seq<Tid>>, group: nat, table: seq<nat>, p: nat, lists': seq<seq<Tid>>)
    requires Agree(lists, group, table) && OnlyAt(lists, lists', p) && lists[p] != [] && lists'[p] != []
    ensures Agree(lists', group, table)
  {
    assert forall q: nat :: NonEmpty(lists', q) <==> NonEmpty(lists, q);
  }

  // What a switch does: the head of list p runs, and the thread that ran gives up its yield flag.
  ghost predicate Switch(lists: seq<seq<Tid>>, threads: Threads, current: Tid, p: nat,
                         lists': seq<seq<Tid>>, threads': Threads, current': Tid)
  {
    && p < |lists| && lists[p] != [] && current' == lists[p][0] && current in threads && current' in threads
    && threads[current].prio < |lists|
    && lists' == Switched(lists, current, threads[current], p)
    && threads' == PutBack(threads, current)[current' := threads[current'].(stat := Running)]
  }

  lemma SwitchChanges(lists: seq<seq<Tid>>, threads: Threads, current: Tid, p: nat,
                      lists': seq<seq<Tid>>, threads': Threads, current': Tid)
    requires Queues(lists, threads, current) && Highest(lists, p) && Switch(lists, threads, current, p, lists', threads', current')
    requires !GoesOn(threads[current], p)
    ensures current' != current && current' in threads && threads[current'].stat == Ready
    ensures threads[current].stat == Running && !threads[current].yielding ==> threads[current'].prio < threads[current].prio
    ensures forall x :: x in threads ==>
      && x in threads'
      && threads'[x].stat == if x == current' then Running else if x == current && threads[x].stat == Running then Ready else threads[x].stat
  {
    HighestThread(lists, threads, current, p);
  }

  function PutBack(threads: Threads, current: Tid): Threads
    requires current in threads
  {
    if threads[current].stat == Running then threads[current := threads[current].(stat := Ready, yielding := false)] else threads
  }

  // Adding the thread that ran, and then taking the head off list p.
  lemma SwitchQueues(lists: seq<seq<Tid>>, threads: Threads, current: Tid, p: nat)
    requires Queues(lists, threads, current) && Highest(lists, p)
    requires !GoesOn(threads[current], p)
    ensures p < |lists| && lists[p] != [] && lists[p][0] in threads
    ensures var to := lists[p][0];
      var filled := if threads[current].stat == Running then ListAdd(lists, threads[current].prio, current) else lists;
      var threads' := PutBack(threads, current)[to := threads[to].(stat := Running)];
      && Queues(Switched(lists, current, threads[current], p), threads', to)
      && Switched(lists, current, threads[current], p) == ListDrop(filled, p, to)
      && MostUrgentRuns(threads', to) && to != current && threads[to].prio == p
  {
    HighestThread(lists, threads, current, p);
    var to := lists[p][0];
    var v := threads[current];
    // Seen from a waiting thread that is about to be current, the one that ran is put back first.
    var filled := if v.stat == Running then ListAdd(lists, v.prio, current) else lists;
    PutBackLists(lists, threads, current);
    assert filled[p][0] == to && NoDup(filled[p]);
    DropHead(filled[p]);
    WithoutNoDup(filled[p], to);
    var threads' := PutBack(threads, current)[to := threads[to].(stat := Running)];
    var lists' := ListDrop(filled, p, to);
    forall q, x | 0 <= q < |lists| ensures x in lists'[q] <==> Waits(threads', x, q) {
      assert x in filled[q] <==> Waits(PutBack(threads, current), x, q);
    }
  }

  lemma PutBackLists(lists: seq<seq<Tid>>, threads: Threads, current: Tid)
    requires Queues(lists, threads, current)
    ensures var filled := if threads[current].stat == Running then ListAdd(lists, threads[current].prio, current) else lists;
      && (forall q :: 0 <= q < |lists| ==> NoDup(filled[q]))
      && forall q, x :: 0 <= q < |lists| ==> (x in filled[q] <==> Waits(PutBack(threads, current), x, q))
  {
    assert current !in lists[threads[current].prio];
    forall q, x | 0 <= q < |lists| && threads[current].stat == Running
      ensures x in ListAdd(lists, threads[current].prio, current)[q] <==> Waits(PutBack(threads, current), x, q)
    {
      assert x in lists[q] <==> Waits(threads, x, q);
    }
  }

  // ----- round robin

  datatype Turn = Turn(queue: seq<Tid>, left: map<Tid, nat>)

  ghost predicate TurnOk(s: Turn, slice: map<Tid, nat>) {
    s.queue != [] && NoDup(s.queue) && forall t :: t in s.queue ==> t in s.left && t in slice && slice[t] > 0 && s.left[t] > 0
  }

  function Rotate(q: seq<Tid>): seq<Tid> { if q == [] then [] else q[1..] + [q[0]] }

  // One tick: the head of the queue uses it up, and goes to the end when its slice is over.
  function TurnTick(s: Turn, slice: map<Tid, nat>): Turn {
    if s.queue == [] || s.queue[0] !in s.left || s.queue[0] !in slice || s.left[s.queue[0]] == 0 then s
    else
      var t := s.queue[0];
      if s.left[t] == 1 then Turn(Rotate(s.queue), s.left[t := slice[t]])
      else Turn(s.queue, s.left[t := s.left[t] - 1])
  }

  function TurnTicks(s: Turn, slice: map<Tid, nat>, n: nat): Turn
    decreases n
  {
    if n == 0 then s else TurnTicks(TurnTick(s, slice), slice, n - 1)
  }

  lemma {:induction false} TicksAdd(s: Turn, slice: map<Tid, nat>, n: nat, m: nat)
    ensures TurnTicks(s, slice, n + m) == TurnTicks(TurnTicks(s, slice, n), slice, m)
    decreases n
  {
    if n > 0 { TicksAdd(TurnTick(s, slice), slice, n - 1, m); }
  }

  // The head runs for the rest of its slice, and then all others have their turn before it.
  lemma {:induction false} HeadRunsOut(s: Turn, slice: map<Tid, nat>, n: nat)
    requires TurnOk(s, slice) && n <= s.left[s.queue[0]]
    ensures n < s.left[s.queue[0]] ==> TurnTicks(s, slice, n).queue == s.queue
    ensures n == s.left[s.queue[0]] ==>
      TurnTicks(s, slice, n) == Turn(Rotate(s.queue), s.left[s.queue[0] := slice[s.queue[0]]])
    decreases n
  {
    if n > 0 {
      var s' := TurnTick(s, slice);
      var t := s.queue[0];
      assert t in s.queue;
      if s.left[t] > 1 {
        HeadRunsOut(s', slice, n - 1);
        assert s'.left[t := slice[t]] == s.left[t := slice[t]];
      }
    }
  }

  function SliceSum(q: seq<Tid>, slice: map<Tid, nat>): nat {
    if q == [] then 0 else (if q[0] in slice then slice[q[0]] else 0) + SliceSum(q[1..], slice)
  }

  // Every thread of `q` has its full slice again.
  function Refilled(left: map<Tid, nat>, q: seq<Tid>, slice: map<Tid, nat>): map<Tid, nat> {
    map t | t in left :: if t in q && t in slice then slice[t] else left[t]
  }

  lemma {:induction false} SumOfOthers(q: seq<Tid>, left: map<Tid, nat>, t: Tid, n: nat)
    requires t !in q
    ensures SliceSum(q, left[t := n]) == SliceSum(q, left)
    decreases q
  {
    if q != [] { SumOfOthers(q[1..], left, t, n); }
  }

  // The threads of the queue take turns, each for what is left of its slice.
  lemma {:induction false} RoundTurns(s: Turn, slice: map<Tid, nat>, done: seq<Tid>, todo: seq<Tid>)
    requires TurnOk(s, slice) && s.queue == todo + done
    ensures TurnTicks(s, slice, SliceSum(todo, s.left)) == Turn(done + todo, Refilled(s.left, todo, slice))
    decreases todo
  {
    hide TurnOk, TurnTick, Refilled, NoDup;
    TurnHead(s, slice);
    if todo == [] {
      assert s.queue == done + todo;
      Refill(s.left, todo, slice);
    } else {
      var t, rest := todo[0], todo[1..];
      HeadRunsOut(s, slice, s.left[t]);
      var s' := Turn(Rotate(s.queue), s.left[t := slice[t]]);
      assert Rotate(s.queue) == rest + (done + [t]);
      RotateOk(s, slice);
      RoundTurns(s', slice, done + [t], rest);
      HeadIsAlone(s.queue, todo, done);
      SumOfOthers(rest, s.left, t, slice[t]);
      TicksAdd(s, slice, s.left[t], SliceSum(rest, s.left));
      assert done + [t] + rest == done + todo;
      RefillMore(s.left, todo, slice);
    }
  }

  lemma HeadIsAlone(q: seq<Tid>, todo: seq<Tid>, done: seq<Tid>)
    requires NoDup(q) && q == todo + done && todo != []
    ensures todo[0] !in todo[1..]
  {
    assert todo[0] == q[0] && forall k :: 0 <= k < |todo| - 1 ==> todo[1..][k] == q[k + 1];
  }

  lemma RefillMore(left: map<Tid, nat>, todo: seq<Tid>, slice: map<Tid, nat>)
    requires todo != [] && todo[0] in left && todo[0] in slice && todo[0] !in todo[1..]
    ensures Refilled(left[todo[0] := slice[todo[0]]], todo[1..], slice) == Refilled(left, todo, slice)
  {
    assert todo == [todo[0]] + todo[1..];
  }

  lemma Refill(left: map<Tid, nat>, q: seq<Tid>, slice: map<Tid, nat>)
    requires forall t :: t in q ==> t in left && t in slice
    ensures Refilled(left, [], slice) == left
    ensures Refilled(Refilled(left, q, slice), q, slice) == Refilled(left, q, slice)
    ensures forall t :: t in q ==> t in Refilled(left, q, slice) && Refilled(left, q, slice)[t] == slice[t]
  {
  }

  lemma TurnHead(s: Turn, slice: map<Tid, nat>)
    requires TurnOk(s, slice)
    ensures s.queue != [] && NoDup(s.queue) && forall t :: t in s.queue ==> t in s.left && t in slice
    ensures s.queue[0] in s.left && s.queue[0] in slice
  {
    assert s.queue[0] in s.queue;
  }

  lemma RotateOk(s: Turn, slice: map<Tid, nat>)
    requires TurnOk(s, slice)
    ensures TurnOk(Turn(Rotate(s.queue), s.left[s.queue[0] := slice[s.queue[0]]]), slice)
    ensures forall t :: t in Rotate(s.queue) <==> t in s.queue
  {
    var q := Rotate(s.queue);
    assert forall i :: 0 <= i < |q| ==> q[i] == if i < |q| - 1 then s.queue[i + 1] else s.queue[0];
    forall t | t in s.queue ensures t in q {
      var i :| 0 <= i < |s.queue| && s.queue[i] == t;
      assert q[if i == 0 then |q| - 1 else i - 1] == t;
    }
  }

  lemma TurnTickOk(s: Turn, slice: map<Tid, nat>)
    requires TurnOk(s, slice)
    ensures TurnOk(TurnTick(s, slice), slice)
  {
    assert s.queue[0] in s.queue;
    RotateOk(s, slice);
  }

  // Wherever the k threads stand in their slices, each runs once before the first runs again, for what is
  // left of its slice; from then on they rotate with full slices, whose sum is the period.
  lemma RoundRobin(s: Turn, slice: map<Tid, nat>)
    requires TurnOk(s, slice)
    ensures var full := TurnTicks(s, slice, SliceSum(s.queue, s.left));
      && full.queue == s.queue && (forall t :: t in s.queue ==> t in full.left && t in slice && full.left[t] == slice[t])
      && TurnTicks(full, slice, SliceSum(s.queue, slice)) == full
  {
    hide TurnTicks, Refilled;
    var full := Turn(s.queue, Refilled(s.left, s.queue, slice));
    Refill(s.left, s.queue, slice);
    assert s.queue + [] == s.queue && [] + s.queue == s.queue;
    RoundTurns(s, slice, [], s.queue);
    RoundTurns(full, slice, [], s.queue);
    SameSum(s.queue, full.left, slice);
  }

  lemma {:induction false} ManyRounds(s: Turn, slice: map<Tid, nat>, k: nat)
    requires TurnOk(s, slice)
    ensures var last := TurnTicks(s, slice, SliceSum(s.queue, s.left) + k * SliceSum(s.queue, slice));
      last.queue == s.queue && forall t :: t in s.queue ==> t in last.left && t in slice && last.left[t] == slice[t]
  {
    hide TurnTicks, TurnOk;
    RoundRobin(s, slice);
    var first, round := SliceSum(s.queue, s.left), SliceSum(s.queue, slice);
    var full := TurnTicks(s, slice, first);
    for i := 0 to k
      invariant TurnTicks(s, slice, first + i * round) == full
    {
      TicksAdd(s, slice, first + i * round, round);
      assert first + i * round + round == first + (i + 1) * round;
    }
  }

  lemma {:induction false} SameSum(q: seq<Tid>, a: map<Tid, nat>, b: map<Tid, nat>)
    requires forall t :: t in q ==> t in a && t in b && a[t] == b[t]
    ensures SliceSum(q, a) == SliceSum(q, b)
    decreases q
  {
    if q != [] {
      assert q[0] in q;
      SameSum(q[1..], a, b);
    }
  }

  // ----- the queue of the scheduler takes turns

  ghost predicate SameSlices(threads: Threads, threads': Threads) {
    threads'.Keys == threads.Keys && forall t :: t in threads ==>
      threads'[t].prio == threads[t].prio && threads'[t].remaining == threads[t].remaining && threads'[t].initTick == threads[t].initTick
  }

  ghost function TurnOf(lists: seq<seq<Tid>>, threads: Threads, current: Tid): Turn
    requires current in threads && threads[current].prio < |lists|
  {
    Turn([current] + lists[threads[current].prio], LeftOf(threads))
  }

  ghost function LeftOf(threads: Threads): map<Tid, nat> { map t | t in threads :: threads[t].remaining as nat }

  ghost function SlicesOf(threads: Threads): map<Tid, nat> { map t | t in threads :: threads[t].initTick as nat }

  lemma SameSliceMaps(threads: Threads, threads': Threads)
    requires SameSlices(threads, threads')
    ensures SlicesOf(threads') == SlicesOf(threads) && LeftOf(threads') == LeftOf(threads)
  {
  }

  lemma SliceGoesOn(lists: seq<seq<Tid>>, threads: Threads, current: Tid, v: Thread)
    requires current in threads && threads[current].prio < |lists|
    requires v == threads[current].(remaining := v.remaining) && v.remaining > 0
    ensures SlicesOf(threads[current := v]) == SlicesOf(threads)
    ensures threads[current].remaining == v.remaining + 1 ==>
      TurnOf(lists, threads[current := v], current) == TurnTick(TurnOf(lists, threads, current), SlicesOf(threads))
    ensures MostUrgentRuns(threads, current) ==> MostUrgentRuns(threads[current := v], current)
  {
    assert LeftOf(threads[current := v]) == LeftOf(threads)[current := v.remaining];
  }

  lemma HeadWaits(lists: seq<seq<Tid>>, threads: Threads, current: Tid, p: nat)
    requires Queues(lists, threads, current) && NonEmpty(lists, p)
    ensures Waits(threads, lists[p][0], p)
  {
    assert lists[p][0] in lists[p];
  }

  lemma OwnListIsHighest(lists: seq<seq<Tid>>, threads: Threads, current: Tid)
    requires Queues(lists, threads, current) && MostUrgentRuns(threads, current)
    requires threads[current].prio < |lists| && lists[threads[current].prio] != []
    ensures Highest(lists, threads[current].prio)
  {
    forall p: nat | p < threads[current].prio ensures !NonEmpty(lists, p) {
      if NonEmpty(lists, p) { HeadWaits(lists, threads, current, p); }
    }
  }

  // The next of the same priority takes over from the running thread, which goes to the end.
  lemma HeadTakesOver(lists: seq<seq<Tid>>, threads: Threads, current: Tid, lists': seq<seq<Tid>>, threads': Threads, current': Tid)
    requires Queues(lists, threads, current) && current in threads && threads[current].stat == Running
    requires Switch(lists, threads, current, threads[current].prio, lists', threads', current')
    ensures current' in threads' && threads'[current'].prio == threads[current].prio < |lists'|
    ensures [current'] + lists'[threads[current].prio] == Rotate([current] + lists[threads[current].prio])
  {
    HeadWaits(lists, threads, current, threads[current].prio);
  }

  // `t1` are the threads when the slice of the current thread has just run out.
  lemma SliceExpired(lists: seq<seq<Tid>>, threads: Threads, current: Tid, t1: Threads,
                     lists': seq<seq<Tid>>, threads': Threads, current': Tid)
    requires Queues(lists, t1, current) && current in threads && threads[current].prio < |lists| && threads[current].remaining == 1
    requires t1 == threads[current := threads[current].(remaining := threads[current].initTick, yielding := true)]
    requires MostUrgentRuns(threads, current) && SameSlices(t1, threads')
    requires (forall p: nat :: !NonEmpty(lists, p)) ==> lists' == lists && threads' == t1 && current' == current
    requires forall p: nat :: Highest(lists, p) ==>
        if GoesOn(t1[current], p) then lists' == lists && current' == current else Switch(lists, t1, current, p, lists', threads', current')
    requires current' in threads' && threads'[current'].prio < |lists'|
    ensures TurnOf(lists', threads', current') == TurnTick(TurnOf(lists, threads, current), SlicesOf(threads))
  {
    hide Queues, Highest, Switch, NonEmpty, Waits;
    var q := threads[current].prio;
    SameSliceMaps(t1, threads');
    assert LeftOf(t1) == LeftOf(threads)[current := threads[current].initTick];
    if lists[q] != [] {
      OwnListIsHighest(lists, t1, current);
      HeadTakesOver(lists, t1, current, lists', threads', current');
    } else {
      StaysAlone(lists, t1, current, lists', threads', current');
      assert Rotate([current]) == [current];
    }
  }

  lemma StaysAlone(lists: seq<seq<Tid>>, threads: Threads, current: Tid, lists': seq<seq<Tid>>, threads': Threads, current': Tid)
    requires Queues(lists, threads, current) && MostUrgentRuns(threads, current) && lists[threads[current].prio] == []
    requires (forall p: nat :: !NonEmpty(lists, p)) ==> lists' == lists && current' == current
    requires forall p: nat :: Highest(lists, p) ==>
        if GoesOn(threads[current], p) then lists' == lists && current' == current else Switch(lists, threads, current, p, lists', threads', current')
    ensures lists' == lists && current' == current
  {
    if exists p: nat :: NonEmpty(lists, p) {
      var p: nat :| NonEmpty(lists, p);
      var h := Least(lists, p);
      HighestThread(lists, threads, current, h);
      assert GoesOn(threads[current], h);
    }
  }

  lemma {:induction false} Least(lists: seq<seq<Tid>>, p: nat) returns (h: nat)
    requires NonEmpty(lists, p)
    ensures Highest(lists, h)
    decreases p
  {
    if q: nat :| q < p && NonEmpty(lists, q) {
      h := Least(lists, q);
    } else {
      h := p;
    }
  }

  // ----- the scheduler lock, a signed 16-bit counter

  type Int16 = x: int | -0x8000 <= x < 0x8000

  function Wrap16(x: int): Int16 { (x + 0x8000) % 0x1_0000 - 0x8000 }

  function EnterNest(nest: Int16): Int16 { Wrap16(nest + 1) }

  function ExitNest(nest: Int16): Int16 {
    var down := Wrap16(nest - 1);
    if down <= 0 then 0 else down
  }

  // The counter after `depth` nested rt_enter_critical.
  function Nested(depth: nat): Int16 {
    if depth == 0 then 0 else EnterNest(Nested(depth - 1))
  }

  // How many rt_exit_critical it takes to unlock the scheduler.
  function ExitsToUnlock(nest: Int16): (n: nat)
    ensures n >= 1
    decreases if nest < 0 then 0x8000 else nest as int
  {
    if ExitNest(nest) == 0 then 1 else 1 + ExitsToUnlock(ExitNest(nest))
  }

  // The outermost exit and no earlier one unlocks exactly up to depth 32768, half of what the comment at
  // the increment says; and 65536 enters leave the scheduler unlocked.
  lemma ExitMatchesOutermostEnter(depth: nat)
    requires depth > 0
    ensures ExitsToUnlock(Nested(depth)) == depth <==> depth <= 0x8000
    ensures Nested(depth) == 0 <==> depth % 0x1_0000 == 0
  {
    hide Wrap16, Nested, ExitsToUnlock;
    NestedWraps(depth);
    UnlockCount(Nested(depth));
    if depth <= 0x8000 { SmallWraps(depth); }
    WrapsToZero(depth);
  }

  lemma SmallWraps(depth: nat)
    requires depth <= 0x8000
    ensures Wrap16(depth) == if depth < 0x8000 then depth else -0x8000
  {
  }

  lemma WrapsToZero(depth: nat)
    ensures Wrap16(depth) == 0 <==> depth % 0x1_0000 == 0
  {
    var q, r := depth / 0x1_0000, depth % 0x1_0000;
    assert depth + 0x8000 == 0x1_0000 * q + (r + 0x8000);
    DivisionIs(depth + 0x8000, q, r + 0x8000);
  }

  lemma DivisionIs(x: nat, q: nat, r: nat)
    requires x == 0x1_0000 * q + r && r < 0x1_8000
    ensures x % 0x1_0000 == if r < 0x1_0000 then r else r - 0x1_0000
  {
  }

  lemma {:induction false} NestedWraps(depth: nat)
    ensures Nested(depth) == Wrap16(depth)
  {
    hide Wrap16, EnterNest;
    if depth == 0 {
      SmallWraps(0);
    } else {
      NestedWraps(depth - 1);
      WrapStep(depth - 1);
    }
  }

  lemma WrapStep(x: nat)
    ensures EnterNest(Wrap16(x)) == Wrap16(x + 1)
  {
    var y := x + 0x8000;
    var q, r := y / 0x1_0000, y % 0x1_0000;
    DivisionIs(y + 1, q, r + 1);
    DivisionIs(r + 1, 0, r + 1);
  }

  lemma {:induction false} UnlockCount(nest: Int16)
    ensures ExitsToUnlock(nest) == if nest > 0 then nest as nat else if nest == -0x8000 then 0x8000 else 1
    decreases if nest < 0 then 0x8000 else nest as int
  {
    if ExitNest(nest) != 0 {
      UnlockCount(ExitNest(nest));
    }
  }
}

module Scheduling {
  import opened WaitLists
  import opened ReadyBits
  import opened SchedulingSpec

  class Scheduler {
    var lists: seq<seq<Tid>>      // rt_thread_priority_table
    var group: nat                // rt_thread_ready_priority_group
    var table: seq<nat>           // rt_thread_ready_table
    var threads: Threads
    var current: Tid              // rt_current_thread
    var lockNest: Int16           // rt_scheduler_lock_nest

    ghost predicate Valid()
      reads this
    {
      Agree(lists, group, table) && Queues(lists, threads, current)
    }

    // rt_system_scheduler_init, and the start of the first thread.
    constructor (priorities: nat, first: Tid, prio: nat, slice: Word)
      requires prio < priorities <= 256
      ensures Valid() && |lists| == priorities && lockNest == 0
      ensures current == first && threads == map[first := Thread(prio, Running, false, slice, slice)]
    {
      lists := seq(priorities, _ => []);
      group, lockNest := 0, 0;
      table := seq(32, _ => 0);
      threads := map[first := Thread(prio, Running, false, slice, slice)];
      current := first;
      new;
      Widths();
      forall k: nat ensures !Bit(0, k) { ZeroHasNoBits(k); }
    }

    // rt_schedule_insert_thread
    method InsertThread(t: Tid)
      requires Agree(lists, group, table) && t in threads && threads[t].prio < |lists|
      modifies this`lists, this`group, this`table, this`threads
      ensures Agree(lists, group, table)
      ensures threads == old(threads)[t := old(threads)[t].(stat := if t == current then Running else Ready)]
      ensures lists == if t == current then old(lists) else ListAdd(old(lists), threads[t].prio, t)
    {
      hide Agree;
      LevelsBound();
      if t == current {
        threads := threads[t := threads[t].(stat := Running)];
        return;
      }
      var p := threads[t].prio;
      threads := threads[t := threads[t].(stat := Ready)];
      MarkAgree(lists, group, table, p, ListAdd(lists, p, t));
      lists := ListAdd(lists, p, t);
      if |lists| > 32 {
        table := table[p / 8 := SetBit(table[p / 8], p % 8)];
      }
      group := SetBit(group, GroupBit(|lists|, p));
    }

    lemma LevelsBound()
      requires Agree(lists, group, table)
      ensures |lists| <= 256 && |table| == 32 && group < Pow2(32)
    {
    }

    // rt_schedule_remove_thread
    method RemoveThread(t: Tid)
      requires Agree(lists, group, table) && t in threads && threads[t].prio < |lists|
      modifies this`lists, this`group, this`table
      ensures Agree(lists, group, table) && lists == ListDrop(old(lists), threads[t].prio, t)
    {
      hide Agree;
      LevelsBound();
      var p := threads[t].prio;
      ghost var was := lists;
      lists := ListDrop(lists, p, t);
      if lists[p] == [] {
        ClearAgree(was, group, table, p, lists);
        if |lists| > 32 {
          table := table[p / 8 := ClearBit(table[p / 8], p % 8)];
          if table[p / 8] == 0 {
            group := ClearBit(group, p / 8);
          }
        } else {
          group := ClearBit(group, p);
        }
      } else {
        SameShape(was, group, table, p, lists);
      }
    }

    // _get_highest_priority_thread
    method HighestPriority() returns (p: nat)
      requires Agree(lists, group, table) && group != 0
      ensures p < |lists| && Highest(lists, p)
    {
      HighestIsHighest(lists, group, table);
      hide Agree, Highest, Ffs;
      var number := Ffs(group) - 1;
      p := if |lists| > 32 then number * 8 + Ffs(table[number]) - 1 else number;
    }

    // rt_schedule
    method Schedule()
      requires Valid()
      modifies this
      ensures Valid() && lockNest == old(lockNest) && SameSlices(old(threads), threads)
      // a locked scheduler, or one without ready threads, does nothing
      ensures old(lockNest) != 0 || (forall p: nat :: !NonEmpty(old(lists), p)) ==>
        lists == old(lists) && threads == old(threads) && current == old(current)
      // otherwise the current thread goes on, or the head of the most urgent list takes over
      ensures forall p: nat :: old(lockNest) == 0 && Highest(old(lists), p) ==>
        if GoesOn(old(threads)[old(current)], p) then
          lists == old(lists) && current == old(current) && threads == old(threads)[current := old(threads)[current].(yielding := false)]
        else
          Switch(old(lists), old(threads), old(current), p, lists, threads, current)
      // no thread changes its state but the one that takes over and the one that gives way
      ensures current in old(threads) && (current != old(current) ==> old(threads)[current].stat == Ready)
      ensures forall x :: x in old(threads) ==>
        && x in threads
        && threads[x].stat == if current == old(current) then old(threads)[x].stat
                              else if x == current then Running
                              else if x == old(current) && old(threads)[x].stat == Running then Ready
                              else old(threads)[x].stat
      ensures current == old(current) ==> lists == old(lists)
      ensures (old(threads)[old(current)].stat == Running && !old(threads)[old(current)].yielding
               && forall x :: x in old(threads) && old(threads)[x].stat == Ready ==> old(threads)[old(current)].prio <= old(threads)[x].prio) ==>
        current == old(current)
      // and the most urgent thread runs
      ensures old(lockNest) == 0 && (old(threads)[old(current)].stat == Running || exists t :: t in old(threads) && old(threads)[t].stat == Ready) ==>
        MostUrgentRuns(threads, current)
    {
      hide Agree, Queues, Highest, Switched, Switch, MostUrgentRuns;
      GroupTells(lists, group, table, threads, current);
      CurrentKnown(lists, threads, current);
      if lockNest == 0 {
        if group != 0 {
          var p := HighestPriority();
          HighestIsOne(lists, p);
          HighestThread(lists, threads, current, p);
          var to := lists[p][0];
          if threads[current].stat == Running {
            if threads[current].prio < p {
              to := current;
            } else if threads[current].prio == p && !threads[current].yielding {
              to := current;
            }
          }
          if to != current {
            SwitchTo(to, p);
            SwitchChanges(old(lists), old(threads), old(current), p, lists, threads, current);
          } else {
            GoOn();
            assert MostUrgentRuns(threads, current) by { StillMostUrgent(old(lists), old(threads), threads, current, p); }
          }
        } else if threads[current].stat == Running {
          assert MostUrgentRuns(threads, current) by { NobodyElse(threads, current); }
        }
      }
    }

    // rt_schedule when the head of list p takes over.
    method SwitchTo(to: Tid, p: nat)
      requires Valid() && Highest(lists, p) && p < |lists| && lists[p] != [] && to == lists[p][0]
      requires current in threads && !GoesOn(threads[current], p)
      modifies this
      ensures Valid() && lockNest == old(lockNest) && SameSlices(old(threads), threads)
      ensures Switch(old(lists), old(threads), old(current), p, lists, threads, current)
      ensures MostUrgentRuns(threads, current)
    {
      hide Agree, Queues, Highest, MostUrgentRuns;
      CurrentKnown(lists, threads, current);
      SwitchQueues(lists, threads, current, p);
      var needInsert := threads[current].stat == Running;
      if needInsert {
        threads := threads[current := threads[current].(yielding := false)];
      }
      var from := current;
      current := to;
      if needInsert {
        InsertThread(from);
      }
      assert threads == PutBack(old(threads), from);
      RemoveThread(to);
      threads := threads[to := threads[to].(stat := Running)];
    }

    // rt_schedule when the current thread goes on.
    method GoOn()
      requires Valid() && current in threads && threads[current].stat == Running
      modifies this
      ensures Valid() && lockNest == old(lockNest) && current == old(current) && lists == old(lists)
      ensures threads == old(threads)[current := old(threads)[current].(yielding := false)]
    {
      hide Agree, Queues;
      CurrentKnown(lists, threads, current);
      DropAbsent(lists, threads, current, current);
      ChangeQueues(lists, threads, current, current, threads[current].(yielding := false));
      threads := threads[current := threads[current].(yielding := false)];
      RemoveThread(current);
      threads := threads[current := threads[current].(stat := Running)];
      assert threads == old(threads)[current := old(threads)[current].(yielding := false)];
    }

    // rt_thread_suspend
    method Suspend(t: Tid) returns (ok: bool)
      requires Valid() && t in threads
      modifies this`lists, this`group, this`table, this`threads
      ensures Valid()
      ensures ok <==> old(threads)[t].stat == Ready || old(threads)[t].stat == Running
      ensures threads == if ok then old(threads)[t := old(threads)[t].(stat := Suspended)] else old(threads)
      ensures lists == if ok then ListDrop(old(lists), threads[t].prio, t) else old(lists)
    {
      hide Agree, Queues;
      CurrentKnown(lists, threads, current);
      if threads[t].stat != Ready && threads[t].stat != Running {
        return false;
      }
      DropQueues(lists, threads, current, t, threads[t].(stat := Suspended), current) by {
        if t == current { assert current == t; }
      }
      RemoveThread(t);
      threads := threads[t := threads[t].(stat := Suspended)];
      return true;
    }

    // rt_thread_resume
    method Resume(t: Tid) returns (ok: bool)
      requires Valid() && t in threads
      modifies this`lists, this`group, this`table, this`threads
      ensures Valid()
      ensures ok <==> old(threads)[t].stat == Suspended
      ensures threads == if !ok then old(threads) else old(threads)[t := old(threads)[t].(stat := if t == current then Running else Ready)]
      ensures lists == if ok && t != current then ListAdd(old(lists), threads[t].prio, t) else old(lists)
    {
      hide Agree, Queues;
      CurrentKnown(lists, threads, current);
      if threads[t].stat != Suspended {
        return false;
      }
      if t == current {
        ChangeQueues(lists, threads, current, t, threads[t].(stat := Running));
      } else {
        AddQueues(lists, threads, current, t, threads[t].(stat := Ready));
      }
      InsertThread(t);
      return true;
    }

    // The first half of rt_thread_startup: the thread is suspended and resumed.
    method MakeReady(t: Tid)
      requires Valid() && t in threads && threads[t].stat == Init
      modifies this`lists, this`group, this`table, this`threads
      ensures Valid() && threads == old(threads)[t := old(threads)[t].(stat := if t == current then Running else Ready)]
      ensures threads[t].prio < |old(lists)|
      ensures lists == if t == current then old(lists) else old(lists)[threads[t].prio := old(lists)[threads[t].prio] + [t]]
    {
      hide Agree, Queues;
      CurrentKnown(lists, threads, current);
      ChangeQueues(lists, threads, current, t, threads[t].(stat := Suspended));
      threads := threads[t := threads[t].(stat := Suspended)];
      var ok := Resume(t);
      assert ok;
    }

    // rt_thread_startup
    method Startup(t: Tid)
      requires Valid() && t in threads && threads[t].stat == Init
      modifies this
      ensures Valid() && lockNest == old(lockNest)
      ensures old(lockNest) == 0 ==> MostUrgentRuns(threads, current)
      // the thread is started, and of the others only the one that gives way to it or to another ready
      // thread, and the one that takes over, change their state
      ensures threads.Keys == old(threads).Keys && (threads[t].stat == Ready || threads[t].stat == Running)
      ensures forall x :: x in threads ==>
        && threads[x].prio == old(threads)[x].prio
        && threads[x].remaining == old(threads)[x].remaining && threads[x].initTick == old(threads)[x].initTick
      ensures forall x :: x in threads && x != t && threads[x].stat != old(threads)[x].stat ==>
        && current != old(current)
        && ((x == current && old(threads)[x].stat == Ready && threads[x].stat == Running)
            || (x == old(current) && old(threads)[x].stat == Running && threads[x].stat == Ready))
      // a thread that is more urgent than the running and all ready ones runs at once
      ensures (old(lockNest) == 0 && old(threads)[old(current)].stat == Running && threads[t].prio < threads[old(current)].prio
               && forall x :: x in threads && old(threads)[x].stat == Ready ==> threads[t].prio < threads[x].prio) ==>
        current == t && threads[old(current)].stat == Ready
      // one that is not more urgent than the running thread waits behind its equals, as does any thread
      // while the scheduler is locked
      ensures (t != old(current) && (old(lockNest) != 0 ||
               (old(threads)[old(current)].stat == Running && !old(threads)[old(current)].yielding
                && forall x :: x in threads && (x == t || old(threads)[x].stat == Ready) ==> threads[old(current)].prio <= threads[x].prio))) ==>
        && current == old(current) && threads[t].stat == Ready && threads[t].prio < |old(lists)|
        && lists == old(lists)[threads[t].prio := old(lists)[threads[t].prio] + [t]]
    {
      hide Agree, Queues, MostUrgentRuns, SameSlices, Switch, Highest, NonEmpty, GoesOn;
      CurrentKnown(lists, threads, current);
      hide *;
      MakeReady(t);
      label Made:
      Schedule();
      SlicesMean(old@Made(threads), threads);
      if lockNest == 0 {
        MostUrgentMeans(threads, current);
      }
    }

    // rt_thread_control, RT_THREAD_CTRL_CHANGE_PRIORITY
    method ChangePriority(t: Tid, p: nat)
      requires Valid() && t in threads && p < |lists|
      modifies this`lists, this`group, this`table, this`threads
      ensures Valid() && threads == old(threads)[t := old(threads)[t].(prio := p)]
      ensures lists == if old(threads)[t].stat == Ready
                       then ListAdd(ListDrop(old(lists), old(threads)[t].prio, t), p, t) else old(lists)
    {
      hide Agree, Queues;
      CurrentKnown(lists, threads, current);
      if threads[t].stat == Ready {
        DropQueues(lists, threads, current, t, threads[t].(prio := p, stat := Suspended), current);
        RemoveThread(t);
        ghost var off := threads[t := threads[t].(prio := p, stat := Suspended)];
        AddQueues(lists, off, current, t, threads[t].(prio := p));
        threads := threads[t := threads[t].(prio := p)];
        InsertThread(t);
        assert threads == off[t := threads[t]];
      } else {
        ChangeQueues(lists, threads, current, t, threads[t].(prio := p));
        threads := threads[t := threads[t].(prio := p)];
      }
    }

    // rt_enter_critical
    method EnterCritical()
      requires Valid()
      modifies this`lockNest
      ensures Valid() && lockNest == EnterNest(old(lockNest))
    {
      lockNest := Wrap16(lockNest + 1);
    }

    // rt_exit_critical: the outermost one schedules.
    method ExitCritical()
      requires Valid()
      modifies this
      ensures Valid() && lockNest == ExitNest(old(lockNest))
      ensures lockNest != 0 ==> lists == old(lists) && threads == old(threads) && current == old(current)
      ensures SameSlices(old(threads), threads)
      ensures lockNest == 0 && (old(threads)[old(current)].stat == Running || exists t :: t in old(threads) && old(threads)[t].stat == Ready) ==>
        MostUrgentRuns(threads, current)
    {
      hide Agree, Queues, MostUrgentRuns;
      CurrentKnown(lists, threads, current);
      lockNest := Wrap16(lockNest - 1);
      if lockNest <= 0 {
        lockNest := 0;
        Schedule();
      }
    }

    // ----- time slices

    // The current thread and the ready threads of its priority, in the order in which they run.
    ghost function Turns(): Turn
      reads this
      requires current in threads && threads[current].prio < |lists|
    {
      TurnOf(lists, threads, current)
    }

    ghost function Slices(): map<Tid, nat>
      reads this`threads
    {
      SlicesOf(threads)
    }

    // The slice part of rt_tick_increase.
    method Tick()
      requires Valid()
      modifies this
      ensures Valid() && lockNest == old(lockNest) && Slices() == old(Slices())
      ensures old(threads)[old(current)].remaining != 1 ==>
        && current == old(current) && lists == old(lists)
        && threads == old(threads)[current := old(threads)[current].(remaining := (old(threads)[current].remaining - 1) % TICK_MODULUS)]
      // a slice that is used up is full again, and its thread gives way unless the scheduler is locked
      ensures old(threads)[old(current)].remaining == 1 ==>
        && threads.Keys == old(threads).Keys
        && (forall x :: x in threads ==> threads[x].prio == old(threads)[x].prio)
        && (forall x :: x in threads ==> threads[x].remaining == if x == old(current) then threads[x].initTick else old(threads)[x].remaining)
        && (old(lockNest) != 0 ==> current == old(current) && lists == old(lists) && threads[current].yielding)
      // while nobody more urgent is ready, equals take turns
      ensures old(lockNest) == 0 && old(MostUrgentRuns(threads, current)) && old(threads)[old(current)].remaining > 0 ==>
        && current in threads && threads[current].prio < |lists| && MostUrgentRuns(threads, current)
        && Turns() == TurnTick(old(Turns()), Slices())
    {
      hide Agree, Queues, Highest, Switch, TurnTick, TurnOf, LeftOf, GoesOn, NonEmpty, SameSlices;
      CurrentKnown(lists, threads, current);
      var v := threads[current];
      v := v.(remaining := (v.remaining - 1) % TICK_MODULUS);
      if v.remaining != 0 {
        ChangeQueues(lists, threads, current, current, v);
        SliceGoesOn(lists, threads, current, v);
        threads := threads[current := v];
      } else {
        v := v.(remaining := v.initTick, yielding := true);
        ChangeQueues(lists, threads, current, current, v);
        threads := threads[current := v];
        label Expired:
        assert SlicesOf(threads) == old(Slices());
        Schedule();
        SameSliceMaps(old@Expired(threads), threads);
        SlicesMean(old@Expired(threads), threads);
        if old(lockNest) == 0 && old(MostUrgentRuns(threads, current)) {
          CurrentKnown(lists, threads, current);
          SliceExpired(old(lists), old(threads), old(current), old@Expired(threads), lists, threads, current);
        }
      }
    }
  }

  method NextTick(s: Scheduler)
    requires s.Valid() && s.lockNest == 0 && MostUrgentRuns(s.threads, s.current) && TurnOk(s.Turns(), s.Slices())
    modifies s
    ensures s.Valid() && s.lockNest == 0 && MostUrgentRuns(s.threads, s.current) && s.Slices() == old(s.Slices())
    ensures s.current in s.threads && s.threads[s.current].prio < |s.lists|
    ensures s.Turns() == TurnTick(old(s.Turns()), s.Slices()) && TurnOk(s.Turns(), s.Slices())
  {
    hide TurnTick, Agree, Queues, MostUrgentRuns, TurnOk, TurnOf;
    CurrentKnown(s.lists, s.threads, s.current);
    TurnTickOk(s.Turns(), s.Slices());
    SliceLeft(s.lists, s.threads, s.current);
    s.Tick();
  }

  // Timer interrupts in a row, with nobody more urgent becoming ready in between.
  method Ticks(s: Scheduler, n: nat)
    requires s.Valid() && s.lockNest == 0 && MostUrgentRuns(s.threads, s.current) && TurnOk(s.Turns(), s.Slices())
    modifies s
    ensures s.Valid() && s.lockNest == 0 && MostUrgentRuns(s.threads, s.current) && s.Slices() == old(s.Slices())
    ensures s.current in s.threads && s.threads[s.current].prio < |s.lists|
    ensures s.Turns() == TurnTicks(old(s.Turns()), s.Slices(), n) && TurnOk(s.Turns(), s.Slices())
  {
    ghost var start, slice := s.Turns(), s.Slices();
    for i := 0 to n
      invariant s.Valid() && s.lockNest == 0 && MostUrgentRuns(s.threads, s.current) && s.Slices() == slice
      invariant s.current in s.threads && s.threads[s.current].prio < |s.lists|
      invariant s.Turns() == TurnTicks(start, slice, i) && TurnOk(s.Turns(), slice)
    {
      hide *;
      ghost var now := s.Turns();
      NextTick(s);
      TicksAdd(start, slice, i, 1);
      OneTurn(now, slice);
    }
  }

  // However far the slices have run down, a round later the threads of the running thread's priority
  // stand as before, with full slices; and after every further round the same again.
  method Rounds(s: Scheduler, n: nat, ghost k: nat)
    requires s.Valid() && s.lockNest == 0 && MostUrgentRuns(s.threads, s.current) && TurnOk(s.Turns(), s.Slices())
    requires n == SliceSum(s.Turns().queue, s.Turns().left) + k * SliceSum(s.Turns().queue, s.Slices())
    modifies s
    ensures s.Valid() && s.Slices() == old(s.Slices()) && s.current == old(s.current)
    ensures s.current in s.threads && s.threads[s.current].prio < |s.lists| && s.Turns().queue == old(s.Turns().queue)
    ensures forall t :: t in s.Turns().queue ==> t in s.threads && s.threads[t].remaining == s.threads[t].initTick
  {
    ManyRounds(s.Turns(), s.Slices(), k);
    hide TurnTicks, SliceSum, TurnOk, MostUrgentRuns, Agree, Queues, Rotate;
    Ticks(s, n);
    assert s.current == s.Turns().queue[0];
    forall t | t in s.Turns().queue ensures t in s.threads && s.threads[t].remaining == s.threads[t].initTick {
      assert s.Turns().left[t] == s.Slices()[t];
    }
  }

  lemma SliceLeft(lists: seq<seq<Tid>>, threads: Threads, current: Tid)
    requires current in threads && threads[current].prio < |lists|
    requires TurnOk(TurnOf(lists, threads, current), SlicesOf(threads))
    ensures threads[current].remaining > 0
  {
    assert current in TurnOf(lists, threads, current).queue;
  }

  lemma OneTurn(s: Turn, slice: map<Tid, nat>)
    ensures TurnTicks(s, slice, 1) == TurnTick(s, slice)
  {
    assert TurnTicks(TurnTick(s, slice), slice, 0) == TurnTick(s, slice);
  }

  lemma SlicesMean(threads: Threads, threads': Threads)
    requires SameSlices(threads, threads')
    ensures threads'.Keys == threads.Keys
    ensures forall t :: t in threads ==>
      && threads'[t].prio == threads[t].prio
      && threads'[t].remaining == threads[t].remaining && threads'[t].initTick == threads[t].initTick
  {
  }

  lemma MostUrgentMeans(threads: Threads, current: Tid)
    requires MostUrgentRuns(threads, current)
    ensures current in threads && threads[current].stat == Running
    ensures forall t :: t in threads && threads[t].stat == Ready ==> threads[current].prio <= threads[t].prio
  {
  }

  lemma StillMostUrgent(lists: seq<seq<Tid>>, threads: Threads, threads': Threads, current: Tid, p: nat)
    requires Queues(lists, threads, current) && Highest(lists, p) && GoesOn(threads[current], p)
    requires threads' == threads[current := threads[current].(yielding := false)]
    ensures MostUrgentRuns(threads', current)
  {
    HighestThread(lists, threads, current, p);
  }

  lemma NobodyElse(threads: Threads, current: Tid)
    requires current in threads && threads[current].stat == Running
    requires forall t :: t in threads ==> threads[t].stat != Ready
    ensures MostUrgentRuns(threads, current)
  {
  }
}
