/**
  Timers, src/timer.c.

  The active timers form a skip list: the bottom row holds all of them by deadline, and every row above
  it some of those in the row below.  Deadlines are 32-bit ticks that wrap around, and are compared by
  `(a - b) < RT_TICK_MAX / 2`.  The theorems say that this is a list sorted stably by deadline as long
  as the pending deadlines lie within half the tick range of some base tick.
 */
module TimerSpec {
  import opened Division
  import opened WaitLists

  const TICKS := 0x1_0000_0000
  const HALF := 0x7fff_ffff
  const TICK_MAX := 0xffff_ffff

  type Tick = t | 0 <= t < TICKS witness 0

  datatype Timer = Timer(initTick: Tick, timeout: Tick, periodic: bool, active: bool)

  type Timers = map<Tid, Timer>

  // Unsigned 32-bit subtraction and addition.
  function Minus(a: Tick, b: Tick): Tick { (a - b) % TICKS }

  function Plus(a: Tick, b: Tick): Tick { (a + b) % TICKS }

  // How far `d` lies after the base tick.
  function Dist(base: Tick, d: Tick): Tick { Minus(d, base) }

  // The comparison in rt_timer_start that ends the scan of a row.
  predicate Later(a: Tick, b: Tick) { Minus(a, b) != 0 && Minus(a, b) < HALF }

  // The comparison in rt_timer_check.
  predicate Due(now: Tick, d: Tick) { Minus(now, d) < HALF }

  lemma MinusByDist(base: Tick, a: Tick, b: Tick)
    ensures Minus(a, b) == if Dist(base, a) >= Dist(base, b) then Dist(base, a) - Dist(base, b)
                           else Dist(base, a) - Dist(base, b) + TICKS
  {
  }

  // Within half the range of a base tick, the wrapping comparisons are the order of distances.
  lemma CompareByDist(base: Tick, a: Tick, b: Tick)
    requires Dist(base, a) < HALF && Dist(base, b) < HALF
    ensures Later(a, b) <==> Dist(base, a) > Dist(base, b)
    ensures Due(a, b) <==> Dist(base, b) <= Dist(base, a)
  {
    MinusByDist(base, a, b);
  }

  lemma PlusDist(base: Tick, now: Tick, n: Tick)
    requires Dist(base, now) + n < TICKS
    ensures Dist(base, Plus(now, n)) == Dist(base, now) + n
  {
  }

  lemma LaterBase(base: Tick, now: Tick, d: Tick)
    requires Dist(base, now) <= Dist(base, d)
    ensures Dist(now, d) == Dist(base, d) - Dist(base, now)
  {
    MinusByDist(base, d, now);
  }

  // ----- the sorted list

  // Earlier deadline first, and among equal deadlines the timer that was started first.
  predicate Precedes(ts: Timers, serial: map<Tid, nat>, base: Tick, a: Tid, b: Tid)
    requires a in ts && b in ts && a in serial && b in serial
  {
    var x, y := Dist(base, ts[a].timeout), Dist(base, ts[b].timeout);
    x < y || (x == y && serial[a] < serial[b])
  }

  ghost predicate Known(ts: Timers, serial: map<Tid, nat>, base: Tick, xs: seq<Tid>) {
    forall t :: t in xs ==> t in ts && t in serial && Dist(base, ts[t].timeout) < HALF
  }

  ghost predicate Ordered(ts: Timers, serial: map<Tid, nat>, base: Tick, xs: seq<Tid>) {
    && Known(ts, serial, base, xs)
    && forall i, j :: 0 <= i < j < |xs| ==> Precedes(ts, serial, base, xs[i], xs[j])
  }

  lemma OrderedNoDup(ts: Timers, serial: map<Tid, nat>, base: Tick, xs: seq<Tid>)
    requires Ordered(ts, serial, base, xs)
    ensures NoDup(xs)
  {
    forall i, j | 0 <= i < j < |xs| ensures xs[i] != xs[j] {
      assert Precedes(ts, serial, base, xs[i], xs[j]);
    }
  }

  // The first p timers are not later than `d`.
  ghost predicate NoneLater(ts: Timers, d: Tick, xs: seq<Tid>, p: nat) {
    p <= |xs| && forall i :: 0 <= i < p ==> xs[i] in ts && !Later(ts[xs[i]].timeout, d)
  }

  // Where a linear scan of `xs` for the first timer that is later than `d` stops.
  ghost predicate ScanStops(ts: Timers, d: Tick, xs: seq<Tid>, p: nat) {
    && NoneLater(ts, d, xs, p)
    && (p < |xs| ==> xs[p] in ts && Later(ts[xs[p]].timeout, d))
  }

  lemma ScanIsUnique(ts: Timers, d: Tick, xs: seq<Tid>, p: nat, q: nat)
    requires ScanStops(ts, d, xs, p) && ScanStops(ts, d, xs, q)
    ensures p == q
  {
  }

  // In a sorted list the scan splits the timers up to the deadline from the later ones.
  lemma ScanSplits(ts: Timers, serial: map<Tid, nat>, base: Tick, xs: seq<Tid>, d: Tick, p: nat)
    requires Ordered(ts, serial, base, xs) && ScanStops(ts, d, xs, p) && Dist(base, d) < HALF
    ensures forall i :: 0 <= i < p ==> Dist(base, ts[xs[i]].timeout) <= Dist(base, d)
    ensures forall i :: p <= i < |xs| ==> Dist(base, d) < Dist(base, ts[xs[i]].timeout)
  {
    forall i | 0 <= i < p ensures Dist(base, ts[xs[i]].timeout) <= Dist(base, d) {
      assert xs[i] in xs;
      CompareByDist(base, ts[xs[i]].timeout, d);
    }
    if p < |xs| {
      assert xs[p] in xs;
      CompareByDist(base, ts[xs[p]].timeout, d);
      forall i | p <= i < |xs| ensures Dist(base, d) < Dist(base, ts[xs[i]].timeout) {
        if p < i { assert Precedes(ts, serial, base, xs[p], xs[i]); }
      }
    }
  }

  // Inserting where the scan stops keeps the list sorted, and puts a timer started now behind the
  // timers with the same deadline.
  lemma InsertOrdered(ts: Timers, serial: map<Tid, nat>, base: Tick, xs: seq<Tid>, t: Tid, p: nat)
    requires Ordered(ts, serial, base, xs) && t in ts && t in serial && t !in xs
    requires Dist(base, ts[t].timeout) < HALF && ScanStops(ts, ts[t].timeout, xs, p)
    requires forall x :: x in xs ==> serial[x] < serial[t]
    ensures Ordered(ts, serial, base, InsertAt(xs, p, t))
    ensures forall x :: x in InsertAt(xs, p, t) <==> x in xs || x == t
  {
    OrderedNoDup(ts, serial, base, xs);
    InsertAtElements(xs, p, t);
    ScanSplits(ts, serial, base, xs, ts[t].timeout, p);
    var ys := InsertAt(xs, p, t);
    hide NoDup, ScanStops, Dist;
    forall i, j | 0 <= i < j < |ys| ensures Precedes(ts, serial, base, ys[i], ys[j]) {
      var i', j' := if i < p then i else i - 1, if j < p then j else j - 1;
      if i == p {
        assert ys[j] == xs[j'] && xs[j'] in xs;
      } else if j == p {
        assert ys[i] == xs[i'] && xs[i'] in xs;
      } else {
        assert ys[i] == xs[i'] && ys[j] == xs[j'];
        assert Precedes(ts, serial, base, xs[i'], xs[j']);
      }
    }
  }

  lemma {:induction false} WithoutOrdered(ts: Timers, serial: map<Tid, nat>, base: Tick, xs: seq<Tid>, t: Tid)
    requires Ordered(ts, serial, base, xs)
    ensures Ordered(ts, serial, base, Without(xs, t))
    decreases xs
  {
    if xs != [] {
      OrderedTail(ts, serial, base, xs);
      WithoutOrdered(ts, serial, base, xs[1..], t);
      if xs[0] != t {
        OrderedCons(ts, serial, base, xs[0], Without(xs[1..], t));
      }
    }
  }

  // ----- the rows

  // The timers of `xs` that reach at least the given height, in the same order.
  function Tall(xs: seq<Tid>, height: map<Tid, nat>, h: nat): seq<Tid> {
    if xs == [] then []
    else if Reaches(height, xs[0], h) then [xs[0]] + Tall(xs[1..], height, h)
    else Tall(xs[1..], height, h)
  }

  predicate Reaches(height: map<Tid, nat>, t: Tid, h: nat) { t in height && h <= height[t] }

  lemma {:induction false} TallElements(xs: seq<Tid>, height: map<Tid, nat>, h: nat)
    ensures forall t :: t in Tall(xs, height, h) <==> t in xs && Reaches(height, t, h)
    decreases xs
  {
    if xs != [] {
      TallElements(xs[1..], height, h);
    }
  }

  lemma {:induction false} TallAppend(xs: seq<Tid>, ys: seq<Tid>, height: map<Tid, nat>, h: nat)
    ensures Tall(xs + ys, height, h) == Tall(xs, height, h) + Tall(ys, height, h)
    decreases xs
  {
    if xs == [] {
      assert xs + ys == ys;
    } else {
      assert (xs + ys)[1..] == xs[1..] + ys;
      TallAppend(xs[1..], ys, height, h);
    }
  }

  lemma {:induction false} TallWithout(xs: seq<Tid>, height: map<Tid, nat>, h: nat, t: Tid)
    ensures Tall(Without(xs, t), height, h) == Without(Tall(xs, height, h), t)
    decreases xs
  {
    if xs != [] {
      var rest := Tall(xs[1..], height, h);
      TallWithout(xs[1..], height, h, t);
      assert ([xs[0]] + rest)[1..] == rest;
      assert ([xs[0]] + Without(xs[1..], t))[1..] == Without(xs[1..], t);
    }
  }

  lemma {:induction false} TallForget(xs: seq<Tid>, height: map<Tid, nat>, h: nat, t: Tid, n: nat)
    requires t !in xs
    ensures Tall(xs, height[t := n], h) == Tall(xs, height, h)
    decreases xs
  {
    if xs != [] {
      TallForget(xs[1..], height, h, t, n);
    }
  }

  lemma {:induction false} TallOrdered(ts: Timers, serial: map<Tid, nat>, base: Tick, xs: seq<Tid>, height: map<Tid, nat>, h: nat)
    requires Ordered(ts, serial, base, xs)
    ensures Ordered(ts, serial, base, Tall(xs, height, h))
    decreases xs
  {
    TallElements(xs, height, h);
    if xs != [] {
      OrderedTail(ts, serial, base, xs);
      var rest := xs[1..];
      TallOrdered(ts, serial, base, rest, height, h);
      TallElements(rest, height, h);
      OrderedCons(ts, serial, base, xs[0], Tall(rest, height, h));
    }
  }

  lemma OrderedTail(ts: Timers, serial: map<Tid, nat>, base: Tick, xs: seq<Tid>)
    requires Ordered(ts, serial, base, xs) && xs != []
    ensures Ordered(ts, serial, base, xs[1..])
    ensures forall x :: x in xs[1..] ==> Precedes(ts, serial, base, xs[0], x)
  {
    assert forall k :: 0 <= k < |xs[1..]| ==> xs[1..][k] == xs[k + 1];
  }

  lemma OrderedCons(ts: Timers, serial: map<Tid, nat>, base: Tick, x: Tid, xs: seq<Tid>)
    requires Ordered(ts, serial, base, xs) && Known(ts, serial, base, [x])
    requires forall y :: y in xs ==> Precedes(ts, serial, base, x, y)
    ensures Ordered(ts, serial, base, [x] + xs)
  {
    hide Precedes;
    assert x in [x];
  }

  // Row l holds the timers that reach up to it; the last row holds all of them.
  ghost predicate Layered(rows: seq<seq<Tid>>, bottom: seq<Tid>, height: map<Tid, nat>) {
    && rows != []
    && (forall t :: t in bottom ==> t in height && 1 <= height[t])
    && (forall l :: 0 <= l < |rows| ==> rows[l] == Tall(bottom, height, |rows| - l))
  }

  lemma {:induction false} TallAll(xs: seq<Tid>, height: map<Tid, nat>)
    requires forall t :: t in xs ==> t in height && 1 <= height[t]
    ensures Tall(xs, height, 1) == xs
    decreases xs
  {
    if xs != [] {
      TallAll(xs[1..], height);
    }
  }

  lemma BottomRow(rows: seq<seq<Tid>>, bottom: seq<Tid>, height: map<Tid, nat>)
    requires Layered(rows, bottom, height)
    ensures rows[|rows| - 1] == bottom
  {
    TallAll(bottom, height);
  }

  // Every row above the bottom is a sub-list of the row below it: the same timers in the same order,
  // some of them left out.
  lemma RowsAreSubLists(rows: seq<seq<Tid>>, bottom: seq<Tid>, height: map<Tid, nat>, l: nat)
    requires Layered(rows, bottom, height) && l + 1 < |rows|
    ensures rows[l] == Tall(rows[l + 1], height, |rows| - l)
  {
    TallTwice(bottom, height, |rows| - l - 1);
  }

  lemma {:induction false} TallTwice(xs: seq<Tid>, height: map<Tid, nat>, h: nat)
    ensures Tall(Tall(xs, height, h), height, h + 1) == Tall(xs, height, h + 1)
    decreases xs
  {
    if xs != [] {
      TallTwice(xs[1..], height, h);
      assert ([xs[0]] + Tall(xs[1..], height, h))[1..] == Tall(xs[1..], height, h);
    }
  }

  // The scan of a row stops at the timers of that row that lie before the stop in the bottom row.
  lemma ScanOfRow(ts: Timers, serial: map<Tid, nat>, base: Tick, xs: seq<Tid>, height: map<Tid, nat>, h: nat, d: Tick, p: nat, q: nat)
    requires Ordered(ts, serial, base, xs) && Dist(base, d) < HALF && ScanStops(ts, d, xs, p)
    requires ScanStops(ts, d, Tall(xs, height, h), q)
    ensures Tall(xs, height, h)[..q] == Tall(xs[..p], height, h) && Tall(xs, height, h)[q..] == Tall(xs[p..], height, h)
  {
    hide Tall, Later, Precedes;
    var front, back := Tall(xs[..p], height, h), Tall(xs[p..], height, h);
    assert xs == xs[..p] + xs[p..];
    TallAppend(xs[..p], xs[p..], height, h);
    TallElements(xs[..p], height, h);
    TallElements(xs[p..], height, h);
    forall i | 0 <= i < |front| ensures front[i] in ts && !Later(ts[front[i]].timeout, d) {
      assert front[i] in front;
    }
    if back != [] {
      assert back[0] in back;
      LaterBehind(ts, serial, base, xs, d, p, back[0]);
    }
    ScanIsUnique(ts, d, front + back, |front|, q);
  }

  lemma LaterBehind(ts: Timers, serial: map<Tid, nat>, base: Tick, xs: seq<Tid>, d: Tick, p: nat, x: Tid)
    requires Ordered(ts, serial, base, xs) && Dist(base, d) < HALF && ScanStops(ts, d, xs, p)
    requires x in xs[p..]
    ensures x in ts && Later(ts[x].timeout, d)
  {
    ScanSplits(ts, serial, base, xs, d, p);
    var k :| 0 <= k < |xs[p..]| && xs[p..][k] == x;
    assert x == xs[p + k];
    CompareByDist(base, ts[x].timeout, d);
  }

  // Row with `t` inserted at `i`, if it reaches that row.
  function RowWith(row: seq<Tid>, i: nat, t: Tid, reaches: bool): seq<Tid> {
    if reaches && i <= |row| then InsertAt(row, i, t) else row
  }

  // Inserting a timer of height n into the lowest n rows, each time where the scan of the row stops.
  lemma InsertLayered(ts: Timers, serial: map<Tid, nat>, base: Tick, rows: seq<seq<Tid>>, bottom: seq<Tid>, height: map<Tid, nat>,
                      t: Tid, d: Tick, n: nat, heads: seq<nat>, rows': seq<seq<Tid>>)
    requires Layered(rows, bottom, height) && Ordered(ts, serial, base, bottom) && Dist(base, d) < HALF && t !in bottom
    requires |heads| == |rows| == |rows'| && 1 <= n
    requires forall l :: 0 <= l < |rows| ==> ScanStops(ts, d, rows[l], heads[l])
    requires forall l :: 0 <= l < |rows| ==> rows'[l] == RowWith(rows[l], heads[l], t, |rows| - l <= n)
    ensures ScanStops(ts, d, bottom, heads[|rows| - 1])
    ensures Layered(rows', InsertAt(bottom, heads[|rows| - 1], t), height[t := n])
  {
    hide Ordered, Tall, Later;
    BottomRow(rows, bottom, height);
    var p := heads[|rows| - 1];
    StopBound(ts, d, bottom, p);
    var height', bottom' := height[t := n], InsertAt(bottom, p, t);
    InsertMembers(bottom, p, t);
    hide InsertAt, RowWith, ScanStops;
    forall l | 0 <= l < |rows| ensures rows'[l] == Tall(bottom', height', |rows| - l) {
      assert ScanStops(ts, d, rows[l], heads[l]);
      RowOfInserted(ts, serial, base, bottom, height, t, d, n, p, |rows| - l, heads[l]);
    }
  }

  lemma InsertMembers(xs: seq<Tid>, p: nat, t: Tid)
    requires p <= |xs|
    ensures forall x :: x in InsertAt(xs, p, t) <==> x in xs || x == t
  {
    forall x ensures x in InsertAt(xs, p, t) <==> x in xs || x == t {
      assert x in multiset(InsertAt(xs, p, t)) <==> x in multiset(xs) || x == t;
    }
  }

  lemma RowOfInserted(ts: Timers, serial: map<Tid, nat>, base: Tick, bottom: seq<Tid>, height: map<Tid, nat>,
                      t: Tid, d: Tick, n: nat, p: nat, h: nat, q: nat)
    requires Ordered(ts, serial, base, bottom) && Dist(base, d) < HALF && t !in bottom
    requires ScanStops(ts, d, bottom, p) && ScanStops(ts, d, Tall(bottom, height, h), q)
    ensures Tall(InsertAt(bottom, p, t), height[t := n], h) == RowWith(Tall(bottom, height, h), q, t, h <= n)
  {
    hide Ordered, Later, ScanStops, Tall;
    var height' := height[t := n];
    StopBound(ts, d, bottom, p);
    StopBound(ts, d, Tall(bottom, height, h), q);
    var row, front, back := Tall(bottom, height, h), Tall(bottom[..p], height, h), Tall(bottom[p..], height, h);
    ScanOfRow(ts, serial, base, bottom, height, h, d, p, q);
    TallAround(bottom[..p], t, bottom[p..], height, h, n);
    assert front == row[..q] && back == row[q..];
  }

  lemma TallAround(front: seq<Tid>, t: Tid, back: seq<Tid>, height: map<Tid, nat>, h: nat, n: nat)
    requires t !in front && t !in back
    ensures Tall(front + [t] + back, height[t := n], h) ==
            Tall(front, height, h) + (if h <= n then [t] else []) + Tall(back, height, h)
  {
    var height' := height[t := n];
    assert Tall([t], height', h) == if h <= n then [t] else [] by { assert [t][1..] == []; }
    hide Tall;
    TallAppend(front + [t], back, height', h);
    TallAppend(front, [t], height', h);
    TallForget(front, height, h, t, n);
    TallForget(back, height, h, t, n);
  }

  lemma StopBound(ts: Timers, d: Tick, xs: seq<Tid>, p: nat)
    requires ScanStops(ts, d, xs, p)
    ensures p <= |xs|
  {
  }

  lemma RemoveLayered(rows: seq<seq<Tid>>, bottom: seq<Tid>, height: map<Tid, nat>, t: Tid, rows': seq<seq<Tid>>)
    requires Layered(rows, bottom, height) && |rows'| == |rows|
    requires forall l :: 0 <= l < |rows| ==> rows'[l] == Without(rows[l], t)
    ensures Layered(rows', Without(bottom, t), height)
  {
    hide Tall, Without;
    forall l | 0 <= l < |rows| ensures rows'[l] == Tall(Without(bottom, t), height, |rows| - l) {
      TallWithout(bottom, height, |rows| - l, t);
    }
  }

  // How many of the rows a timer enters, from the bottom, for a value of the counter.
  function RowsFor(tst: nat, b: nat, levels: nat): nat
    requires b > 0
    decreases levels
  {
    if levels <= 1 || tst % b != 0 then 1 else 1 + RowsFor(tst / b, b, levels - 1)
  }

  function Pow(b: nat, k: nat): nat { if k == 0 then 1 else b * Pow(b, k - 1) }

  lemma PowPositive(b: nat, k: nat)
    requires b > 0
    ensures Pow(b, k) > 0
  {
    if k > 0 {
      PowPositive(b, k - 1);
      MulGrows(0, Pow(b, k - 1), b);
    }
  }

  // A timer enters row k, counted from the bottom, exactly if the counter is divisible by b^(k - 1).
  lemma {:induction false} RowsByDivision(tst: nat, b: nat, levels: nat, k: nat)
    requires b > 1 && 1 <= k <= levels
    ensures Pow(b, k - 1) > 0 && (k <= RowsFor(tst, b, levels) <==> tst % Pow(b, k - 1) == 0)
    decreases k
  {
    PowPositive(b, k - 1);
    if k > 1 {
      var p := Pow(b, k - 2);
      PowPositive(b, k - 2);
      assert Pow(b, k - 1) == b * p;
      DivideTwice(tst, b, p);
      if tst % b == 0 {
        RowsByDivision(tst / b, b, levels - 1, k - 1);
      }
    }
  }

  lemma DivideTwice(x: nat, b: nat, p: nat)
    requires b > 0 && p > 0
    ensures b * p > 0 && (x % (b * p) == 0 <==> x % b == 0 && x / b % p == 0)
  {
    MulGrows(0, p, b);
    Euclid(x, b * p);
    Euclid(x, b);
    Euclid(x / b, p);
    if x % (b * p) == 0 {
      var q: nat := x / (b * p);
      assert x == (q * p) * b;
      DivMul(q * p, b);
      DivMul(q, p);
    } else if x % b == 0 && x / b % p == 0 {
      var q: nat := x / b / p;
      assert x == q * (b * p);
      DivMul(q, b * p);
    }
  }

  // ----- the plain sorted list that the skip list stands for

  ghost predicate AllIn(ts: Timers, xs: seq<Tid>) { forall x :: x in xs ==> x in ts }

  function LinearScan(ts: Timers, d: Tick, xs: seq<Tid>): nat {
    if xs == [] || (xs[0] in ts && Later(ts[xs[0]].timeout, d)) then 0 else 1 + LinearScan(ts, d, xs[1..])
  }

  lemma {:induction false} LinearScanStops(ts: Timers, d: Tick, xs: seq<Tid>)
    requires AllIn(ts, xs)
    ensures ScanStops(ts, d, xs, LinearScan(ts, d, xs))
    decreases xs
  {
    if xs != [] && !Later(ts[xs[0]].timeout, d) {
      assert forall k :: 0 <= k < |xs[1..]| ==> xs[1..][k] == xs[k + 1];
      LinearScanStops(ts, d, xs[1..]);
    }
  }

  function SortedInsert(ts: Timers, xs: seq<Tid>, t: Tid): seq<Tid>
    requires t in ts
  {
    var p := LinearScan(ts, ts[t].timeout, xs);
    if p <= |xs| then InsertAt(xs, p, t) else xs
  }

  // ----- starting a timer

  // Neither its old deadline nor its age matters for a timer that is not listed.
  lemma OrderedFrame(ts: Timers, serial: map<Tid, nat>, base: Tick, xs: seq<Tid>, t: Tid, v: Timer, n: nat)
    requires Ordered(ts, serial, base, xs) && t !in xs
    ensures Ordered(ts[t := v], serial[t := n], base, xs)
    ensures Ordered(ts[t := v], serial, base, xs)
  {
  }

  lemma RowOrdered(ts: Timers, serial: map<Tid, nat>, base: Tick, rows: seq<seq<Tid>>, bottom: seq<Tid>, height: map<Tid, nat>, l: nat)
    requires Layered(rows, bottom, height) && Ordered(ts, serial, base, bottom) && l < |rows|
    ensures Ordered(ts, serial, base, rows[l])
  {
    TallOrdered(ts, serial, base, bottom, height, |rows| - l);
  }

  function IndexOf(xs: seq<Tid>, x: Tid): (k: nat)
    requires x in xs
    ensures k < |xs| && xs[k] == x
  {
    if xs[0] == x then 0 else 1 + IndexOf(xs[1..], x)
  }

  // Going down from a timer that is not later than `d`, the scan of the next row may start behind it.
  lemma GoDown(ts: Timers, serial: map<Tid, nat>, base: Tick, rows: seq<seq<Tid>>, bottom: seq<Tid>, height: map<Tid, nat>,
               d: Tick, l: nat, i: nat)
    requires Layered(rows, bottom, height) && Ordered(ts, serial, base, bottom) && Dist(base, d) < HALF
    requires l + 1 < |rows| && ScanStops(ts, d, rows[l], i) && 0 < i
    ensures i <= |rows[l]| && rows[l][i - 1] in rows[l + 1]
    ensures NoneLater(ts, d, rows[l + 1], IndexOf(rows[l + 1], rows[l][i - 1]) + 1)
  {
    var x := rows[l][i - 1];
    RowsAreSubLists(rows, bottom, height, l);
    TallElements(rows[l + 1], height, |rows| - l);
    RowOrdered(ts, serial, base, rows, bottom, height, l + 1);
    var row, k := rows[l + 1], IndexOf(rows[l + 1], x);
    assert x in row && !Later(ts[x].timeout, d);
    CompareByDist(base, ts[x].timeout, d);
    forall j | 0 <= j <= k ensures row[j] in ts && !Later(ts[row[j]].timeout, d) {
      assert row[j] in row;
      CompareByDist(base, ts[row[j]].timeout, d);
      if j < k { assert Precedes(ts, serial, base, row[j], row[k]); }
    }
  }

  // The skip list in order: rows by height, timers by deadline, `starts` larger than all serial numbers.
  ghost predicate Sound(rows: seq<seq<Tid>>, bottom: seq<Tid>, height: map<Tid, nat>,
                        ts: Timers, serial: map<Tid, nat>, starts: nat, base: Tick)
  {
    && Layered(rows, bottom, height)
    && Ordered(ts, serial, base, bottom)
    && (forall t :: t in serial ==> serial[t] < starts)
  }

  lemma RemoveSound(rows: seq<seq<Tid>>, bottom: seq<Tid>, height: map<Tid, nat>,
                    ts: Timers, serial: map<Tid, nat>, starts: nat, base: Tick, t: Tid, rows': seq<seq<Tid>>)
    requires Sound(rows, bottom, height, ts, serial, starts, base) && |rows'| == |rows|
    requires forall l :: 0 <= l < |rows| ==> rows'[l] == Without(rows[l], t)
    ensures rows' != [] && rows'[|rows'| - 1] == Without(bottom, t)
    ensures Sound(rows', Without(bottom, t), height, ts, serial, starts, base)
  {
    hide Tall, Precedes;
    RemoveLayered(rows, bottom, height, t, rows');
    BottomRow(rows', Without(bottom, t), height);
    WithoutOrdered(ts, serial, base, bottom, t);
  }

  lemma RetimeSound(rows: seq<seq<Tid>>, bottom: seq<Tid>, height: map<Tid, nat>,
                    ts: Timers, serial: map<Tid, nat>, starts: nat, base: Tick, t: Tid, v: Timer)
    requires Sound(rows, bottom, height, ts, serial, starts, base) && t !in bottom
    ensures Sound(rows, bottom, height, ts[t := v], serial, starts, base)
  {
    hide Layered;
    OrderedFrame(ts, serial, base, bottom, t, v, 0);
  }

  lemma {:induction false} LinearScanFrame(ts: Timers, d: Tick, xs: seq<Tid>, t: Tid, v: Timer)
    requires t !in xs
    ensures LinearScan(ts[t := v], d, xs) == LinearScan(ts, d, xs)
    decreases xs
  {
    if xs != [] {
      LinearScanFrame(ts, d, xs[1..], t, v);
    }
  }

  lemma InsertSound(rows: seq<seq<Tid>>, bottom: seq<Tid>, height: map<Tid, nat>,
                    ts: Timers, serial: map<Tid, nat>, starts: nat, base: Tick,
                    t: Tid, n: nat, heads: seq<nat>, rows': seq<seq<Tid>>, ts': Timers)
    requires Sound(rows, bottom, height, ts, serial, starts, base) && t !in bottom && t in ts
    requires Dist(base, ts[t].timeout) < HALF && ts' == ts[t := ts[t].(active := true)]
    requires |heads| == |rows| == |rows'| && 1 <= n
    requires forall l :: 0 <= l < |rows| ==> ScanStops(ts, ts[t].timeout, rows[l], heads[l])
    requires forall l :: 0 <= l < |rows| ==> rows'[l] == RowWith(rows[l], heads[l], t, |rows| - l <= n)
    ensures rows' != [] && rows'[|rows'| - 1] == SortedInsert(ts', bottom, t)
    ensures Sound(rows', SortedInsert(ts', bottom, t), height[t := n], ts', serial[t := starts], starts + 1, base)
    ensures forall x :: x in SortedInsert(ts', bottom, t) <==> x in bottom || x == t
  {
    hide Later, Precedes, Dist, Tall;
    var d := ts[t].timeout;
    var p := heads[|rows| - 1];
    InsertLayered(ts, serial, base, rows, bottom, height, t, d, n, heads, rows');
    BottomRow(rows', InsertAt(bottom, p, t), height[t := n]);
    LinearScanStops(ts, d, bottom);
    ScanIsUnique(ts, d, bottom, p, LinearScan(ts, d, bottom));
    LinearScanFrame(ts, d, bottom, t, ts'[t]);
    LinearScanStops(ts', d, bottom);
    OrderedFrame(ts, serial, base, bottom, t, ts'[t], starts);
    InsertOrdered(ts', serial[t := starts], base, bottom, t, p);
  }

  // ----- firing

  // What rt_timer_check makes of a timer that is due.
  function AfterFire(v: Timer, now: Tick): Timer {
    if v.periodic then v.(timeout := Plus(now, v.initTick)) else v.(active := false)
  }

  lemma FiredOnce(v: Timer, now: Tick)
    ensures AfterFire(v, now) == if v.periodic then v.(timeout := (now + v.initTick) % TICKS) else v.(active := false)
  {
  }

  // What a timeout function does to other timers.
  datatype Act = Starting(timer: Tid) | Stopping(timer: Tid)

  type Acts = map<Tid, seq<Act>>

  function ActsOf(acts: Acts, t: Tid): seq<Act> { if t in acts then acts[t] else [] }

  function ActOn(ts: Timers, a: Act, now: Tick): Timers {
    if a.timer !in ts then ts
    else
      var v := ts[a.timer];
      ts[a.timer := if a.Starting? then v.(timeout := Plus(now, v.initTick), active := true) else v.(active := false)]
  }

  function ActAll(ts: Timers, list: seq<Act>, now: Tick): Timers
    decreases list
  {
    if list == [] then ts else ActAll(ActOn(ts, list[0], now), list[1..], now)
  }

  // A timer that fires: its timeout function, and then what rt_timer_check makes of it.
  function FireOn(ts: Timers, t: Tid, acts: Acts, now: Tick): Timers {
    var after := ActAll(ts, ActsOf(acts, t), now);
    if t in after then after[t := AfterFire(after[t], now)] else after
  }

  function FireAll(ts: Timers, fired: seq<Tid>, acts: Acts, now: Tick): Timers
    decreases |fired|
  {
    if fired == [] then ts else FireOn(FireAll(ts, fired[..|fired| - 1], acts, now), fired[|fired| - 1], acts, now)
  }

  // The timers of a list that a timeout function leaves alone.
  function LeftAlone(xs: seq<Tid>, list: seq<Act>): (ys: seq<Tid>)
    ensures |ys| <= |xs| && forall y :: y in ys ==> y in xs
    decreases list
  {
    if list == [] then xs
    else
      NotLonger(xs, list[0].timer);
      LeftAlone(Without(xs, list[0].timer), list[1..])
  }

  lemma {:induction false} NotLonger(xs: seq<Tid>, t: Tid)
    ensures |Without(xs, t)| <= |xs|
    decreases xs
  {
    if xs != [] { NotLonger(xs[1..], t); }
  }

  // Which timers of a sorted list fire, and in which order: those that are due and that no timeout
  // function has started or stopped before it is their turn.
  function Fires(xs: seq<Tid>, ts: Timers, acts: Acts, now: Tick): seq<Tid>
    decreases |xs|
  {
    if xs == [] || xs[0] !in ts || !Due(now, ts[xs[0]].timeout) then []
    else [xs[0]] + Fires(LeftAlone(xs[1..], ActsOf(acts, xs[0])), ts, acts, now)
  }

  predicate Touches(list: seq<Act>, t: Tid) { exists a :: a in list && a.timer == t }

  lemma {:induction false} LeftAloneElements(xs: seq<Tid>, list: seq<Act>)
    ensures forall x :: x in LeftAlone(xs, list) <==> x in xs && !Touches(list, x)
    decreases list
  {
    if list != [] {
      LeftAloneElements(Without(xs, list[0].timer), list[1..]);
      assert list == [list[0]] + list[1..];
    }
  }

  lemma {:induction false} LeftAloneOrdered(ts: Timers, serial: map<Tid, nat>, base: Tick, xs: seq<Tid>, list: seq<Act>)
    requires Ordered(ts, serial, base, xs)
    ensures Ordered(ts, serial, base, LeftAlone(xs, list))
    decreases list
  {
    hide Ordered;
    if list != [] {
      WithoutOrdered(ts, serial, base, xs, list[0].timer);
      LeftAloneOrdered(ts, serial, base, Without(xs, list[0].timer), list[1..]);
    }
  }

  // Only due timers fire, and a due timer does unless one that fires starts or stops it.
  lemma {:induction false} FiresUnlessTouched(xs: seq<Tid>, ts: Timers, serial: map<Tid, nat>, acts: Acts, base: Tick, now: Tick, t: Tid)
    requires Ordered(ts, serial, base, xs) && Dist(base, now) < HALF
    ensures t in Fires(xs, ts, acts, now) ==> t in xs && t in ts && Due(now, ts[t].timeout)
    ensures t in xs && t in ts && Due(now, ts[t].timeout) ==>
      t in Fires(xs, ts, acts, now) || exists x :: x in Fires(xs, ts, acts, now) && Touches(ActsOf(acts, x), t)
    decreases |xs|
  {
    hide Due, Touches;
    if xs != [] {
      HeadKnown(ts, serial, base, xs);
      if Due(now, ts[xs[0]].timeout) {
        var list := ActsOf(acts, xs[0]);
        OrderedTail(ts, serial, base, xs);
        LeftAloneOrdered(ts, serial, base, xs[1..], list);
        LeftAloneElements(xs[1..], list);
        FiresUnlessTouched(LeftAlone(xs[1..], list), ts, serial, acts, base, now, t);
        assert xs[0] in Fires(xs, ts, acts, now);
      } else {
        NoneDue(ts, serial, base, now, xs);
      }
    }
  }

  // Without interference exactly the due timers fire, which come first in the list.
  lemma {:induction false} FiresPlain(xs: seq<Tid>, ts: Timers, now: Tick)
    ensures Fires(xs, ts, map[], now) <= xs
    decreases |xs|
  {
    if xs != [] {
      FiresPlain(xs[1..], ts, now);
      assert LeftAlone(xs[1..], []) == xs[1..];
    }
  }

  lemma {:induction false} FireAllPlain(ts: Timers, fired: seq<Tid>, now: Tick)
    requires NoDup(fired)
    ensures FireAll(ts, fired, map[], now).Keys == ts.Keys
    ensures forall t :: t in ts ==> FireAll(ts, fired, map[], now)[t] == if t in fired then AfterFire(ts[t], now) else ts[t]
    decreases |fired|
  {
    hide AfterFire;
    if fired != [] {
      var front, last := fired[..|fired| - 1], fired[|fired| - 1];
      assert fired == front + [last] && last !in front;
      FireAllPlain(ts, front, now);
      assert ActAll(FireAll(ts, front, map[], now), [], now) == FireAll(ts, front, map[], now);
    }
  }

  // What the timeout functions do is possible: they start timers with a positive number of ticks that fits
  // the range, and leave the timer alone that fires.
  predicate ActsOk(list: seq<Act>, t: Tid, ts: Timers, lag: nat) {
    forall a :: a in list ==>
      a.timer != t && a.timer in ts && (a.Starting? ==> 1 <= ts[a.timer].initTick && lag + ts[a.timer].initTick < HALF)
  }

  // t was started or stopped by the timeout function of a timer that fired.
  predicate Interfered(fired: seq<Tid>, acts: Acts, t: Tid) { exists x :: x in fired && Touches(ActsOf(acts, x), t) }

  // What a check does to the timers `b0` that were listed, without and with interference.
  ghost predicate Checked(b0: seq<Tid>, ts0: Timers, acts: Acts, now: Tick, fired: seq<Tid>, ts: Timers) {
    && fired == Fires(b0, ts0, acts, now) && ts == FireAll(ts0, fired, acts, now)
    && (forall t :: t in fired ==> t in b0 && t in ts0 && Due(now, ts0[t].timeout))
    && (forall t :: t in b0 ==> t in ts0 && (Due(now, ts0[t].timeout) ==> t in fired || Interfered(fired, acts, t)))
    && (acts == map[] ==> Undisturbed(b0, ts0, now, fired, ts))
  }

  ghost predicate Undisturbed(b0: seq<Tid>, ts0: Timers, now: Tick, fired: seq<Tid>, ts: Timers) {
    && fired <= b0 && ts.Keys == ts0.Keys
    && (forall t :: t in b0 ==> t in ts0 && (t in fired <==> Due(now, ts0[t].timeout)))
    && forall t :: t in ts ==> ts[t] == if t in fired then AfterFire(ts0[t], now) else ts0[t]
  }

  lemma CheckMeans(b0: seq<Tid>, ts0: Timers, serial0: map<Tid, nat>, acts: Acts, base: Tick, now: Tick)
    requires Ordered(ts0, serial0, base, b0) && Dist(base, now) < HALF
    ensures var fired := Fires(b0, ts0, acts, now); Checked(b0, ts0, acts, now, fired, FireAll(ts0, fired, acts, now))
  {
    hide Due, AfterFire, Touches, Ordered, Fires, FireAll, Undisturbed, Interfered, Dist;
    var fired := Fires(b0, ts0, acts, now);
    forall t ensures t in fired ==> t in b0 && t in ts0 && Due(now, ts0[t].timeout) {
      FiresUnlessTouched(b0, ts0, serial0, acts, base, now, t);
    }
    forall t | t in b0 ensures t in ts0 && (Due(now, ts0[t].timeout) ==> t in fired || Interfered(fired, acts, t)) {
      OrderedKnown(ts0, serial0, base, b0, t);
      if Due(now, ts0[t].timeout) { FiresOrInterfered(b0, ts0, serial0, acts, base, now, t); }
    }
    if acts == map[] { UndisturbedMeans(b0, ts0, serial0, base, now); }
  }

  lemma OrderedKnown(ts: Timers, serial: map<Tid, nat>, base: Tick, xs: seq<Tid>, t: Tid)
    requires Ordered(ts, serial, base, xs) && t in xs
    ensures t in ts
  {
  }

  lemma FiresOrInterfered(b0: seq<Tid>, ts0: Timers, serial0: map<Tid, nat>, acts: Acts, base: Tick, now: Tick, t: Tid)
    requires Ordered(ts0, serial0, base, b0) && Dist(base, now) < HALF && t in b0 && t in ts0 && Due(now, ts0[t].timeout)
    ensures t in Fires(b0, ts0, acts, now) || Interfered(Fires(b0, ts0, acts, now), acts, t)
  {
    FiresUnlessTouched(b0, ts0, serial0, acts, base, now, t);
    hide Ordered, Fires, Dist, Due, Touches;
  }

  lemma UndisturbedMeans(b0: seq<Tid>, ts0: Timers, serial0: map<Tid, nat>, base: Tick, now: Tick)
    requires Ordered(ts0, serial0, base, b0) && Dist(base, now) < HALF
    ensures var fired := Fires(b0, ts0, map[], now); Undisturbed(b0, ts0, now, fired, FireAll(ts0, fired, map[], now))
  {
    var fired := Fires(b0, ts0, map[], now);
    FiresPlain(b0, ts0, now);
    OrderedNoDup(ts0, serial0, base, b0);
    FireAllPlain(ts0, fired, now);
    hide Fires, FireAll, AfterFire, Ordered, Dist, Due, Touches;
    forall t | t in b0 ensures t in ts0 && (t in fired <==> Due(now, ts0[t].timeout)) {
      OrderedKnown(ts0, serial0, base, b0, t);
      FiresUnlessTouched(b0, ts0, serial0, map[], base, now, t);
      forall x ensures !Touches(ActsOf(map[], x), t) { NoTouch(x, t); }
    }
  }

  lemma NoTouch(x: Tid, t: Tid)
    ensures !Touches(ActsOf(map[], x), t)
  {
  }

  // ----- the timers that no timeout function starts or stops

  lemma {:induction false} ActAllSpares(ts: Timers, list: seq<Act>, now: Tick, t: Tid)
    requires t in ts && forall a :: a in list ==> a.timer != t
    ensures var e := ActAll(ts, list, now); t in e && e[t] == ts[t]
    decreases list
  {
    if list != [] {
      assert list[0] in list;
      ActAllSpares(ActOn(ts, list[0], now), list[1..], now, t);
    }
  }

  // One that fires and is periodic gets a new deadline a period later, another that fires becomes inactive.
  lemma {:induction false} FireAllSpares(ts: Timers, fired: seq<Tid>, acts: Acts, now: Tick, t: Tid)
    requires t in ts && forall x, a :: x in fired && x in acts && a in acts[x] ==> a.timer != t
    ensures var e := FireAll(ts, fired, acts, now);
      && t in e
      && e[t] == if t !in fired then ts[t]
                 else if ts[t].periodic then ts[t].(timeout := (now + ts[t].initTick) % TICKS)
                 else ts[t].(active := false)
    decreases |fired|
  {
    if fired != [] {
      var front, last := fired[..|fired| - 1], fired[|fired| - 1];
      assert fired == front + [last];
      FireAllSpares(ts, front, acts, now, t);
      ActAllSpares(FireAll(ts, front, acts, now), ActsOf(acts, last), now, t);
    }
  }

  lemma SparedTimer(b0: seq<Tid>, ts0: Timers, acts: Acts, now: Tick, fired: seq<Tid>, ts: Timers, t: Tid)
    requires Checked(b0, ts0, acts, now, fired, ts) && t in ts0 && !Interfered(fired, acts, t)
    ensures t in fired <==> t in b0 && Due(now, ts0[t].timeout)
    ensures t in ts && ts[t] == if t !in fired then ts0[t]
                                else if ts0[t].periodic then ts0[t].(timeout := Plus(now, ts0[t].initTick))
                                else ts0[t].(active := false)
  {
    hide Fires, FireAll, Undisturbed;
    forall x, a | x in fired && x in acts && a in acts[x] ensures a.timer != t {
      assert !Touches(ActsOf(acts, x), t);
    }
    FireAllSpares(ts0, fired, acts, now, t);
  }

  lemma FiredAreKnown(b0: seq<Tid>, ts0: Timers, acts: Acts, now: Tick, fired: seq<Tid>, ts: Timers)
    requires Checked(b0, ts0, acts, now, fired, ts)
    ensures forall t :: t in fired ==> t in b0 && t in ts0
  {
  }

  // Period and kind of a timer never change.
  lemma WaitingKinds(ts0: Timers, serial0: map<Tid, nat>, base: Tick, now: Tick,
                     bottom: seq<Tid>, ts: Timers, serial: map<Tid, nat>, pending: seq<Tid>)
    requires Waiting(ts0, serial0, base, now, bottom, ts, serial, pending)
    ensures ts.Keys == ts0.Keys && forall t :: t in ts ==> ts[t].initTick == ts0[t].initTick && ts[t].periodic == ts0[t].periodic
  {
  }

  // Due periodic timers have a period of at least one tick that fits the range.
  ghost predicate Rearmable(b0: seq<Tid>, ts0: Timers, base: Tick, now: Tick) {
    forall t :: t in b0 && t in ts0 && ts0[t].periodic && Due(now, ts0[t].timeout) ==>
      1 <= ts0[t].initTick && Dist(base, now) + ts0[t].initTick < HALF
  }

  // A re-armed timer is not due again.
  lemma RearmedIsAhead(ts0: Timers, base: Tick, now: Tick, b0: seq<Tid>, t: Tid)
    requires Rearmable(b0, ts0, base, now) && Dist(base, now) < HALF
    requires t in b0 && t in ts0 && ts0[t].periodic && Due(now, ts0[t].timeout)
    ensures var d := AfterFire(ts0[t], now).timeout; Dist(base, now) < Dist(base, d) < HALF && !Due(now, d)
  {
    PlusDist(base, now, ts0[t].initTick);
    CompareByDist(base, now, AfterFire(ts0[t], now).timeout);
  }

  // While the check runs: the timers of the old list whose turn may still come are listed as before, and
  // all others that are listed lie ahead.
  ghost predicate Waiting(ts0: Timers, serial0: map<Tid, nat>, base: Tick, now: Tick,
                          bottom: seq<Tid>, ts: Timers, serial: map<Tid, nat>, pending: seq<Tid>)
  {
    && Ordered(ts0, serial0, base, pending) && ts.Keys == ts0.Keys
    && (forall t :: t in ts ==> ts[t].initTick == ts0[t].initTick && ts[t].periodic == ts0[t].periodic)
    && (forall t :: t in pending ==> t in bottom && t in serial && t in ts && ts[t] == ts0[t] && serial[t] == serial0[t])
    && (forall t :: t in bottom ==> t in ts && (t in pending || Dist(base, now) < Dist(base, ts[t].timeout)))
  }

  // The head precedes all others.
  lemma NotBefore(ts: Timers, serial: map<Tid, nat>, base: Tick, xs: seq<Tid>, x: Tid)
    requires Ordered(ts, serial, base, xs) && x in xs
    ensures x in ts && x in serial && xs[0] in ts && xs[0] in serial && !Precedes(ts, serial, base, x, xs[0])
  {
    var i :| 0 <= i < |xs| && xs[i] == x;
    assert xs[0] in xs;
    if i > 0 { assert Precedes(ts, serial, base, xs[0], xs[i]); }
  }

  // As long as the head is due, it is the next of the old list.
  lemma HeadIsNext(ts0: Timers, serial0: map<Tid, nat>, base: Tick, now: Tick,
                   bottom: seq<Tid>, ts: Timers, serial: map<Tid, nat>, pending: seq<Tid>)
    requires Waiting(ts0, serial0, base, now, bottom, ts, serial, pending)
    requires Ordered(ts, serial, base, bottom) && Dist(base, now) < HALF
    requires bottom != [] && bottom[0] in ts && Due(now, ts[bottom[0]].timeout)
    ensures pending != [] && bottom[0] == pending[0]
  {
    var t := bottom[0];
    assert t in bottom;
    CompareByDist(base, now, ts[t].timeout);
    assert t in pending;
    assert pending[0] in pending;
    if t != pending[0] {
      var j :| 0 < j < |pending| && pending[j] == t;
      assert Precedes(ts0, serial0, base, pending[0], pending[j]);
      NotBefore(ts, serial, base, bottom, pending[0]);
    }
  }

  // When the head is not due, nothing is.
  lemma NoneDue(ts: Timers, serial: map<Tid, nat>, base: Tick, now: Tick, bottom: seq<Tid>)
    requires Ordered(ts, serial, base, bottom) && Dist(base, now) < HALF
    requires bottom != [] ==> !Due(now, ts[bottom[0]].timeout)
    ensures forall t :: t in bottom ==> !Due(now, ts[t].timeout) && Dist(base, now) < Dist(base, ts[t].timeout)
  {
    forall t | t in bottom ensures !Due(now, ts[t].timeout) && Dist(base, now) < Dist(base, ts[t].timeout) {
      assert bottom[0] in bottom;
      CompareByDist(base, now, ts[bottom[0]].timeout);
      CompareByDist(base, now, ts[t].timeout);
      var i :| 0 <= i < |bottom| && bottom[i] == t;
      if i > 0 { assert Precedes(ts, serial, base, bottom[0], bottom[i]); }
    }
  }

  // The base tick can follow the clock up to the first deadline.
  lemma Rebase(ts: Timers, serial: map<Tid, nat>, base: Tick, now: Tick, bottom: seq<Tid>)
    requires Ordered(ts, serial, base, bottom)
    requires forall t :: t in bottom ==> Dist(base, now) <= Dist(base, ts[t].timeout)
    ensures Ordered(ts, serial, now, bottom)
    ensures forall t :: t in bottom ==> Dist(now, ts[t].timeout) == Dist(base, ts[t].timeout) - Dist(base, now)
  {
    forall t | t in bottom ensures Dist(now, ts[t].timeout) == Dist(base, ts[t].timeout) - Dist(base, now) {
      LaterBase(base, now, ts[t].timeout);
    }
    hide Dist;
    forall i, j | 0 <= i < j < |bottom| ensures Precedes(ts, serial, now, bottom[i], bottom[j]) {
      assert bottom[i] in bottom && bottom[j] in bottom;
      assert Precedes(ts, serial, base, bottom[i], bottom[j]);
    }
  }

  lemma DueIs(now: Tick, d: Tick)
    ensures Due(now, d) <==> Minus(now, d) < HALF
  {
  }

  lemma HeadKnown(ts: Timers, serial: map<Tid, nat>, base: Tick, xs: seq<Tid>)
    requires Ordered(ts, serial, base, xs) && xs != []
    ensures xs[0] in ts
  {
    assert xs[0] in xs;
  }

  // When the head is not due, nobody of the old list fires any more.
  lemma NoMoreFires(ts0: Timers, serial0: map<Tid, nat>, base: Tick, now: Tick,
                    bottom: seq<Tid>, ts: Timers, serial: map<Tid, nat>, pending: seq<Tid>, acts: Acts)
    requires Waiting(ts0, serial0, base, now, bottom, ts, serial, pending)
    requires Ordered(ts, serial, base, bottom) && Dist(base, now) < HALF
    requires bottom != [] ==> bottom[0] in ts && !(Minus(now, ts[bottom[0]].timeout) < HALF)
    ensures Fires(pending, ts0, acts, now) == []
    ensures forall t :: t in bottom ==> t in ts && Dist(base, now) < Dist(base, ts[t].timeout)
  {
    NoneDue(ts, serial, base, now, bottom);
    if pending != [] { assert pending[0] in pending; }
  }

  // ----- what the steps of a round keep

  lemma StartWaiting(ts0: Timers, serial0: map<Tid, nat>, base: Tick, now: Tick, bottom: seq<Tid>)
    requires Ordered(ts0, serial0, base, bottom)
    ensures Waiting(ts0, serial0, base, now, bottom, ts0, serial0, bottom)
  {
  }

  // The head is taken out.
  lemma UnlistWaiting(ts0: Timers, serial0: map<Tid, nat>, base: Tick, now: Tick,
                      bottom: seq<Tid>, ts: Timers, serial: map<Tid, nat>, pending: seq<Tid>, bottom': seq<Tid>)
    requires Waiting(ts0, serial0, base, now, bottom, ts, serial, pending) && pending != []
    requires bottom' == Without(bottom, pending[0])
    ensures Waiting(ts0, serial0, base, now, bottom', ts, serial, pending[1..])
    ensures pending[0] !in pending[1..]
  {
    hide Dist, Precedes;
    OrderedNoDup(ts0, serial0, base, pending);
    OrderedTail(ts0, serial0, base, pending);
    assert pending == [pending[0]] + pending[1..];
    assert forall k :: 0 <= k < |pending[1..]| ==> pending[1..][k] == pending[k + 1];
  }

  // Another timer is started or stopped.
  lemma ActWaiting(ts0: Timers, serial0: map<Tid, nat>, base: Tick, now: Tick,
                   bottom: seq<Tid>, ts: Timers, serial: map<Tid, nat>, pending: seq<Tid>,
                   a: Act, bottom': seq<Tid>, serial': map<Tid, nat>)
    requires Waiting(ts0, serial0, base, now, bottom, ts, serial, pending) && a.timer in ts
    requires a.Starting? ==> 1 <= ts[a.timer].initTick && Dist(base, now) + ts[a.timer].initTick < HALF
    requires forall t :: t in bottom' <==> (t in bottom && t != a.timer) || (t == a.timer && a.Starting?)
    requires forall t :: t in serial && t != a.timer ==> t in serial' && serial'[t] == serial[t]
    ensures Waiting(ts0, serial0, base, now, bottom', ActOn(ts, a, now), serial', Without(pending, a.timer))
  {
    WithoutOrdered(ts0, serial0, base, pending, a.timer);
    if a.Starting? { PlusDist(base, now, ts[a.timer].initTick); }
    hide Dist, Plus, Ordered;
  }

  // The timer that fires goes ahead, or out of the list.
  lemma RearmWaiting(ts0: Timers, serial0: map<Tid, nat>, base: Tick, now: Tick,
                     bottom: seq<Tid>, ts: Timers, serial: map<Tid, nat>, pending: seq<Tid>,
                     t: Tid, bottom': seq<Tid>, serial': map<Tid, nat>)
    requires Waiting(ts0, serial0, base, now, bottom, ts, serial, pending) && t in ts && t !in pending
    requires ts[t].periodic ==> 1 <= ts[t].initTick && Dist(base, now) + ts[t].initTick < HALF
    requires forall x :: x in bottom' <==> (x in bottom && x != t) || (x == t && ts[t].periodic)
    requires forall x :: x in serial && x != t ==> x in serial' && serial'[x] == serial[x]
    ensures Waiting(ts0, serial0, base, now, bottom', ts[t := AfterFire(ts[t], now)], serial', pending)
  {
    if ts[t].periodic { PlusDist(base, now, ts[t].initTick); }
    hide Dist, Plus, Ordered;
  }

  // What the next timer to fire was at the start, and that it can be re-armed.
  lemma FireFacts(ts0: Timers, serial0: map<Tid, nat>, base: Tick, now: Tick,
                  bottom: seq<Tid>, ts: Timers, serial: map<Tid, nat>, pending: seq<Tid>, b0: seq<Tid>, acts: Acts)
    requires Waiting(ts0, serial0, base, now, bottom, ts, serial, pending) && Rearmable(b0, ts0, base, now)
    requires pending != [] && (forall t :: t in pending ==> t in b0) && pending[0] in ts && Due(now, ts[pending[0]].timeout)
    requires forall t :: t in b0 ==> ActsOk(ActsOf(acts, t), t, ts0, Dist(base, now))
    ensures var t := pending[0];
      && t in ts0 && ts[t] == ts0[t] && ActsOk(ActsOf(acts, t), t, ts, Dist(base, now))
      && (ts[t].periodic ==> 1 <= ts[t].initTick && Dist(base, now) + ts[t].initTick < HALF)
  {
    assert pending[0] in pending;
  }

  lemma FireNone(ts0: Timers, acts: Acts, now: Tick)
    ensures FireAll(ts0, [], acts, now) == ts0
  {
  }

  lemma FireMore(ts0: Timers, fired: seq<Tid>, t: Tid, pending: seq<Tid>, acts: Acts, now: Tick)
    requires pending != [] && t == pending[0] && t in ts0 && Due(now, ts0[t].timeout)
    ensures fired + Fires(pending, ts0, acts, now) ==
            fired + [t] + Fires(LeftAlone(pending[1..], ActsOf(acts, t)), ts0, acts, now)
    ensures FireAll(ts0, fired + [t], acts, now) == FireOn(FireAll(ts0, fired, acts, now), t, acts, now)
  {
    assert (fired + [t])[..|fired|] == fired;
  }

  lemma Rebased(rows: seq<seq<Tid>>, bottom: seq<Tid>, height: map<Tid, nat>,
                ts: Timers, serial: map<Tid, nat>, starts: nat, base: Tick, now: Tick)
    requires Sound(rows, bottom, height, ts, serial, starts, base)
    requires forall t :: t in bottom ==> t in ts && Dist(base, now) <= Dist(base, ts[t].timeout)
    ensures Sound(rows, bottom, height, ts, serial, starts, now)
    ensures forall t :: t in bottom ==> t in ts && Dist(now, ts[t].timeout) == Dist(base, ts[t].timeout) - Dist(base, now)
    ensures Dist(now, now) == 0
  {
    hide Layered;
    Rebase(ts, serial, base, now, bottom);
  }

  // When no deadline has passed at the last tick, what is due at the next are the deadlines of both.
  lemma DueInTick(ts: Timers, serial: map<Tid, nat>, base: Tick, now: Tick, bottom: seq<Tid>)
    requires Ordered(ts, serial, base, bottom) && now == Plus(base, 1)
    ensures Dist(base, now) == 1
    ensures forall t :: t in bottom ==> t in ts && (Due(now, ts[t].timeout) <==> ts[t].timeout == now || ts[t].timeout == base)
    ensures forall t :: t in bottom && ts[t].timeout != base ==> Dist(base, now) <= Dist(base, ts[t].timeout)
  {
    forall t | t in bottom
      ensures t in ts && (Due(now, ts[t].timeout) <==> ts[t].timeout == now || ts[t].timeout == base)
    {
      CompareByDist(base, now, ts[t].timeout);
    }
  }
}

module Timers {
  import opened Division
  import opened WaitLists
  import opened TimerSpec

  class TimerList {
    const mask: nat   // RT_TIMER_SKIP_LIST_MASK
    var rows: seq<seq<Tid>>
    var timers: Timers
    var now: Tick
    var randomNr: nat
    ghost var height: map<Tid, nat>
    ghost var serial: map<Tid, nat>
    ghost var starts: nat
    ghost var base: Tick

    ghost function Bottom(): seq<Tid>
      reads this`rows
      requires rows != []
    {
      rows[|rows| - 1]
    }

    // All active timers are listed, sorted, within half the tick range after the base tick.
    ghost predicate Valid()
      reads this
    {
      ValidBut({})
    }

    // The same but for the timers that are firing just now.
    ghost predicate ValidBut(firing: set<Tid>)
      reads this
    {
      && (mask == 1 || mask == 3)
      && rows != [] && Sound(rows, Bottom(), height, timers, serial, starts, base)
      && (forall t :: t in timers && t !in firing ==> (timers[t].active <==> t in Bottom()))
      && Dist(base, now) < HALF
    }

    constructor (levels: nat, maskBits: nat, tick: Tick)
      requires 1 <= levels && (maskBits == 1 || maskBits == 3)
      ensures Valid() && |rows| == levels && Bottom() == [] && timers == map[] && now == base == tick
    {
      mask := maskBits;
      rows := seq(levels, _ => []);
      timers, now, randomNr := map[], tick, 0;
      height, serial, starts, base := map[], map[], 0, tick;
    }

    // _rt_timer_init: a new timer is not active.
    method Init(t: Tid, initTick: Tick, periodic: bool)
      requires Valid() && t !in timers
      modifies this`timers
      ensures Valid() && timers == old(timers)[t := Timer(initTick, 0, periodic, false)]
    {
      assert t !in Bottom();
      timers := timers[t := Timer(initTick, 0, periodic, false)];
    }

    // _rt_timer_remove
    method Remove(t: Tid)
      modifies this`rows
      ensures |rows| == |old(rows)|
      ensures forall l :: 0 <= l < |rows| ==> rows[l] == Without(old(rows)[l], t)
    {
      var i := 0;
      while i < |rows|
        invariant 0 <= i <= |rows| == |old(rows)|
        invariant forall l :: 0 <= l < |rows| ==> rows[l] == if l < i then Without(old(rows)[l], t) else old(rows)[l]
      {
        rows := rows[i := Without(rows[i], t)];
        i := i + 1;
      }
    }

    // The search of rt_timer_start: from the top row down, in each row from where the row above ended.
    method FindHeads(d: Tick) returns (heads: seq<nat>)
      requires rows != [] && Layered(rows, Bottom(), height) && Ordered(timers, serial, base, Bottom()) && Dist(base, d) < HALF
      ensures |heads| == |rows|
      ensures forall l :: 0 <= l < |rows| ==> ScanStops(timers, d, rows[l], heads[l])
    {
      hide Layered, Ordered, ScanStops;
      heads := [];
      var start := 0;
      var lvl := 0;
      while lvl < |rows|
        invariant 0 <= lvl == |heads| <= |rows|
        invariant forall l :: 0 <= l < lvl ==> ScanStops(timers, d, rows[l], heads[l])
        invariant lvl < |rows| ==> 0 <= start && NoneLater(timers, d, rows[lvl], start)
      {
        var i: nat := start;
        InTimers(lvl);
        while i < |rows[lvl]|
          invariant NoneLater(timers, d, rows[lvl], i)
        {
          var diff := Minus(timers[rows[lvl][i]].timeout, d);
          if diff == 0 {
          } else if diff < HALF {
            break;
          }
          i := i + 1;
        }
        assert ScanStops(timers, d, rows[lvl], i) by { Stopped(lvl, d, i); }
        if lvl != |rows| - 1 {
          if i == 0 {
            start := 0;
          } else {
            GoDown(timers, serial, base, rows, Bottom(), height, d, lvl, i);
            start := IndexOf(rows[lvl + 1], rows[lvl][i - 1]) + 1;
          }
        }
        heads := heads + [i];
        lvl := lvl + 1;
      }
    }

    lemma InTimers(l: nat)
      requires rows != [] && l < |rows| && Layered(rows, Bottom(), height) && Ordered(timers, serial, base, Bottom())
      ensures forall t :: t in rows[l] ==> t in timers
    {
      RowOrdered(timers, serial, base, rows, Bottom(), height, l);
    }

    lemma Stopped(l: nat, d: Tick, i: nat)
      requires l < |rows| && NoneLater(timers, d, rows[l], i)
      requires i < |rows[l]| ==> rows[l][i] in timers && Later(timers[rows[l][i]].timeout, d)
      ensures ScanStops(timers, d, rows[l], i)
    {
    }

    // The insertion of rt_timer_start: into the bottom row, and upwards as long as the counter's bits
    // are zero.
    method Insert(t: Tid, heads: seq<nat>) returns (n: nat)
      requires |heads| == |rows| && rows != [] && (mask == 1 || mask == 3)
      requires forall l :: 0 <= l < |rows| ==> heads[l] <= |rows[l]|
      modifies this`rows, this`randomNr
      ensures randomNr == (old(randomNr) + 1) % TICKS
      ensures 1 <= n <= |rows| == |heads| && n == RowsFor(randomNr, mask + 1, |rows|)
      ensures forall l :: 0 <= l < |rows| ==> rows[l] == RowWith(old(rows)[l], heads[l], t, |rows| - l <= n)
    {
      var levels := |rows|;
      randomNr := (randomNr + 1) % TICKS;
      var tst := randomNr;
      rows := rows[levels - 1 := InsertAt(rows[levels - 1], heads[levels - 1], t)];
      n := 1;
      while n + 1 <= levels
        invariant 1 <= n <= levels == |rows|
        invariant tst >= 0 && randomNr == (old(randomNr) + 1) % TICKS
        invariant RowsFor(randomNr, mask + 1, levels) == n - 1 + RowsFor(tst, mask + 1, levels - n + 1)
        invariant forall l :: 0 <= l < levels ==> rows[l] == RowWith(old(rows)[l], heads[l], t, levels - l <= n)
      {
        if tst % (mask + 1) != 0 {
          break;
        }
        var l := levels - (n + 1);
        rows := rows[l := InsertAt(rows[l], heads[l], t)];
        tst := tst / (mask + 1);
        n := n + 1;
      }
    }

    lemma HeadsInRange(d: Tick, heads: seq<nat>)
      requires |heads| == |rows| && forall l :: 0 <= l < |rows| ==> ScanStops(timers, d, rows[l], heads[l])
      ensures forall l :: 0 <= l < |rows| ==> heads[l] <= |rows[l]|
    {
      forall l | 0 <= l < |rows| ensures heads[l] <= |rows[l]| { StopBound(timers, d, rows[l], heads[l]); }
    }

    // Take the timer out of all rows.
    method Unlist(t: Tid)
      requires rows != [] && Sound(rows, Bottom(), height, timers, serial, starts, base)
      modifies this`rows
      ensures |rows| == |old(rows)| && rows != [] && Bottom() == Without(old(Bottom()), t)
      ensures Sound(rows, Bottom(), height, timers, serial, starts, base)
    {
      hide Sound, Without;
      Remove(t);
      RemoveSound(old(rows), old(Bottom()), height, timers, serial, starts, base, t, rows);
    }

    // The second half of rt_timer_start.
    method Enlist(t: Tid)
      requires rows != [] && Sound(rows, Bottom(), height, timers, serial, starts, base) && (mask == 1 || mask == 3)
      requires t in timers && t !in Bottom() && Dist(base, timers[t].timeout) < HALF
      modifies this`rows, this`timers, this`randomNr, this`height, this`serial, this`starts
      ensures |rows| == |old(rows)| && rows != []
      ensures timers == old(timers)[t := old(timers)[t].(active := true)]
      ensures Bottom() == SortedInsert(timers, old(Bottom()), t)
      ensures forall x :: x in Bottom() <==> x in old(Bottom()) || x == t
      ensures serial == old(serial)[t := old(starts)]
      ensures Sound(rows, Bottom(), height, timers, serial, starts, base)
    {
      hide Sound, Layered, Ordered, ScanStops, Dist, Later, SortedInsert, Tall, RowWith;
      PartsOfSound();
      var heads := FindHeads(timers[t].timeout);
      HeadsInRange(timers[t].timeout, heads);
      var n := Insert(t, heads);
      timers := timers[t := timers[t].(active := true)];
      InsertSound(old(rows), old(Bottom()), height, old(timers), serial, starts, base, t, n, heads, rows, timers);
      serial := serial[t := starts];
      starts := starts + 1;
      height := height[t := n];
    }

    // rt_timer_start: afterwards the timer is where a linear scan of the sorted list puts it.
    method Start(t: Tid, ghost firing: set<Tid>)
      requires ValidBut(firing) && t in timers && t !in firing
      requires Dist(base, now) + timers[t].initTick < HALF
      modifies this`rows, this`timers, this`randomNr, this`height, this`serial, this`starts
      ensures ValidBut(firing) && |rows| == |old(rows)|
      ensures timers == old(timers)[t := old(timers)[t].(timeout := Plus(now, old(timers)[t].initTick), active := true)]
      ensures Bottom() == SortedInsert(timers, Without(old(Bottom()), t), t)
      ensures forall x :: x in Bottom() <==> x in old(Bottom()) || x == t
      ensures serial == old(serial)[t := old(starts)]
    {
      hide Sound, Dist, SortedInsert, Without, Plus;
      Unlist(t);
      timers := timers[t := timers[t].(active := false)];
      timers := timers[t := timers[t].(timeout := Plus(now, timers[t].initTick))];
      assert timers == old(timers)[t := timers[t]];
      RetimeSound(rows, Bottom(), height, old(timers), serial, starts, base, t, timers[t]);
      PlusDist(base, now, timers[t].initTick);
      Enlist(t);
    }

    // rt_timer_stop
    method Stop(t: Tid, ghost firing: set<Tid>) returns (ok: bool)
      requires ValidBut(firing) && t in timers && t !in firing
      modifies this`rows, this`timers
      ensures ValidBut(firing) && |rows| == |old(rows)|
      ensures ok <==> t in old(Bottom())
      ensures Bottom() == Without(old(Bottom()), t)
      ensures timers == old(timers)[t := old(timers)[t].(active := false)]
    {
      hide Sound, Dist;
      if !timers[t].active {
        WithoutAbsent(Bottom(), t);
        return false;
      }
      Unlist(t);
      RetimeSound(rows, Bottom(), height, timers, serial, starts, base, t, timers[t].(active := false));
      timers := timers[t := timers[t].(active := false)];
      return true;
    }

    lemma PartsOfSound()
      requires rows != [] && Sound(rows, Bottom(), height, timers, serial, starts, base)
      ensures Layered(rows, Bottom(), height) && Ordered(timers, serial, base, Bottom())
    {
    }

    // The timeout function of t, which starts and stops other timers.
    method TimeoutFunction(t: Tid, list: seq<Act>, ghost ts0: Timers, ghost serial0: map<Tid, nat>, ghost pending: seq<Tid>)
      requires ValidBut({t}) && t in timers && t !in Bottom() && ActsOk(list, t, timers, Dist(base, now))
      requires Waiting(ts0, serial0, base, now, Bottom(), timers, serial, pending)
      modifies this`rows, this`timers, this`randomNr, this`height, this`serial, this`starts
      ensures ValidBut({t}) && |rows| == |old(rows)| && t !in Bottom()
      ensures timers == ActAll(old(timers), list, now) && timers.Keys == old(timers).Keys && timers[t] == old(timers)[t]
      ensures Waiting(ts0, serial0, base, now, Bottom(), timers, serial, LeftAlone(pending, list))
    {
      hide Sound, Dist, SortedInsert, Without, Plus, Waiting;
      ghost var left := pending;
      for i := 0 to |list|
        invariant ValidBut({t}) && |rows| == |old(rows)| && t !in Bottom() && ActsOk(list, t, timers, Dist(base, now))
        invariant timers.Keys == old(timers).Keys && timers[t] == old(timers)[t]
        invariant ActAll(timers, list[i..], now) == ActAll(old(timers), list, now)
        invariant LeftAlone(left, list[i..]) == LeftAlone(pending, list)
        invariant Waiting(ts0, serial0, base, now, Bottom(), timers, serial, left)
      {
        var a := list[i];
        ghost var bottom, ts, serial1 := Bottom(), timers, serial;
        if a.Starting? {
          Start(a.timer, {t});
        } else {
          var ok := Stop(a.timer, {t});
        }
        assert timers == ActOn(ts, a, now);
        ActWaiting(ts0, serial0, base, now, bottom, ts, serial1, left, a, Bottom(), serial);
        left := Without(left, a.timer);
        assert list[i..][0] == a && list[i..][1..] == list[i + 1..];
      }
    }

    // One round of rt_timer_check: the head is taken out and its timeout function called; a periodic
    // timer is started again.
    method FireHead(t: Tid, acts: Acts, ghost ts0: Timers, ghost serial0: map<Tid, nat>, ghost pending: seq<Tid>)
      requires Valid() && Bottom() != [] && t == Bottom()[0] && t in timers
      requires timers[t].periodic ==> 1 <= timers[t].initTick && Dist(base, now) + timers[t].initTick < HALF
      requires ActsOk(ActsOf(acts, t), t, timers, Dist(base, now))
      requires Waiting(ts0, serial0, base, now, Bottom(), timers, serial, pending) && pending != [] && t == pending[0]
      modifies this`rows, this`timers, this`randomNr, this`height, this`serial, this`starts
      ensures Valid() && |rows| == |old(rows)|
      ensures timers == FireOn(old(timers), t, acts, now)
      ensures t in timers && (t in Bottom() <==> timers[t].periodic)
      ensures timers[t] == if old(timers)[t].periodic then old(timers)[t].(timeout := (now + old(timers)[t].initTick) % TICKS)
                           else old(timers)[t].(active := false)
      ensures Waiting(ts0, serial0, base, now, Bottom(), timers, serial, LeftAlone(pending[1..], ActsOf(acts, t)))
    {
      hide Sound, Dist, SortedInsert, Without, Plus, Waiting, ActsOk;
      assert t in Bottom();
      ghost var bottom := Bottom();
      Unlist(t);
      UnlistWaiting(ts0, serial0, base, now, bottom, timers, serial, pending, Bottom());
      TimeoutFunction(t, ActsOf(acts, t), ts0, serial0, pending[1..]);
      ghost var left, ts, serial1 := LeftAlone(pending[1..], ActsOf(acts, t)), timers, serial;
      bottom := Bottom();
      RetimeSound(rows, Bottom(), height, timers, serial, starts, base, t, timers[t].(active := false));
      if timers[t].periodic && timers[t].active {
        timers := timers[t := timers[t].(active := false)];
        Start(t, {});
        assert timers == ts[t := AfterFire(ts[t], now)];
      } else {
        timers := timers[t := timers[t].(active := false)];
      }
      RearmWaiting(ts0, serial0, base, now, bottom, ts, serial1, left, t, Bottom(), serial);
      assert timers[t] == AfterFire(old(timers)[t], now);
      FiredOnce(old(timers)[t], now);
    }

    // The loop of rt_timer_check.
    method FireDue(acts: Acts) returns (fired: seq<Tid>)
      requires Valid() && Rearmable(Bottom(), timers, base, now)
      requires forall t :: t in Bottom() ==> ActsOk(ActsOf(acts, t), t, timers, Dist(base, now))
      modifies this`rows, this`timers, this`randomNr, this`height, this`serial, this`starts, this`base
      ensures Valid() && |rows| == |old(rows)| && base == now
      ensures Checked(old(Bottom()), old(timers), acts, now, fired, timers)
      ensures forall t :: t in Bottom() ==> t in timers && 0 < Dist(now, timers[t].timeout)
      ensures timers.Keys == old(timers).Keys
      ensures forall t :: t in timers ==> timers[t].initTick == old(timers)[t].initTick && timers[t].periodic == old(timers)[t].periodic
    {
      hide Sound, Dist, Due, AfterFire, Layered, Ordered, Waiting, Rearmable, SortedInsert, Without, Precedes;
      hide FireOn, ActsOk, Checked, Fires, FireAll, LeftAlone, Plus, Minus;
      fired := [];
      ghost var b0, ts0, serial0, pending := Bottom(), timers, serial, Bottom();
      PartsOfSound();
      StartWaiting(ts0, serial0, base, now, b0);
      CheckMeans(b0, ts0, serial0, acts, base, now);
      FireNone(ts0, acts, now);
      while rows[|rows| - 1] != []
        invariant Valid() && |rows| == |old(rows)| && base == old(base)
        invariant Waiting(ts0, serial0, base, now, Bottom(), timers, serial, pending)
        invariant fired + Fires(pending, ts0, acts, now) == Fires(b0, ts0, acts, now)
        invariant timers == FireAll(ts0, fired, acts, now) && forall t :: t in pending ==> t in b0
        decreases |pending|
      {
        var t := rows[|rows| - 1][0];
        PartsOfSound();
        HeadKnown(timers, serial, base, Bottom());
        if !(Minus(now, timers[t].timeout) < HALF) {
          break;
        }
        assert Due(now, timers[t].timeout) by { DueIs(now, timers[t].timeout); }
        HeadIsNext(ts0, serial0, base, now, Bottom(), timers, serial, pending);
        FireFacts(ts0, serial0, base, now, Bottom(), timers, serial, pending, b0, acts);
        FireHead(t, acts, ts0, serial0, pending);
        FireMore(ts0, fired, t, pending, acts, now);
        fired := fired + [t];
        pending := LeftAlone(pending[1..], ActsOf(acts, t));
      }
      PartsOfSound();
      WaitingKinds(ts0, serial0, base, now, Bottom(), timers, serial, pending);
      NoMoreFires(ts0, serial0, base, now, Bottom(), timers, serial, pending, acts);
      assert fired == Fires(b0, ts0, acts, now) by { assert fired + [] == fired; }
      base := now;
      Rebased(rows, Bottom(), height, timers, serial, starts, old(base), now);
    }

    // rt_timer_check: `acts` is what the timeout functions do, and `fired` lists their calls.
    method Check(acts: Acts) returns (fired: seq<Tid>)
      requires Valid() && Rearmable(Bottom(), timers, base, now)
      requires forall t :: t in Bottom() ==> ActsOk(ActsOf(acts, t), t, timers, Dist(base, now))
      modifies this`rows, this`timers, this`randomNr, this`height, this`serial, this`starts, this`base
      ensures Valid() && |rows| == |old(rows)| && base == now
      ensures Checked(old(Bottom()), old(timers), acts, now, fired, timers)
      ensures forall t :: t in Bottom() ==> t in timers && 0 < Dist(now, timers[t].timeout)
      ensures timers.Keys == old(timers).Keys
      ensures forall t :: t in timers ==> timers[t].initTick == old(timers)[t].initTick && timers[t].periodic == old(timers)[t].periodic
      // a timer that no timeout function starts or stops fires exactly if it is listed and due; a periodic one
      // is then listed again with a deadline one period from now, another is inactive and not listed; and
      // what does not fire is left as it is
      ensures forall t :: t in old(timers) && !Interfered(fired, acts, t) ==>
        (t in fired <==> t in old(Bottom()) && Due(now, old(timers)[t].timeout))
      ensures forall t :: t in fired && !Interfered(fired, acts, t) && t in timers && timers[t].periodic ==>
        t in Bottom() && timers[t].active && timers[t].timeout == Plus(now, timers[t].initTick)
      ensures forall t :: t in fired && !Interfered(fired, acts, t) && t in timers && !timers[t].periodic ==>
        t !in Bottom() && !timers[t].active
      ensures forall t :: t in timers && t !in fired && !Interfered(fired, acts, t) ==>
        timers[t] == old(timers)[t] && (t in Bottom() <==> t in old(Bottom()))
    {
      hide Sound, Dist, Due, AfterFire, Ordered, Rearmable, ActsOk, Checked, Fires, FireAll, Plus, Minus, Interfered;
      ghost var b0, ts0 := Bottom(), timers;
      fired := FireDue(acts);
      FiredAreKnown(b0, ts0, acts, now, fired, timers);
      forall t | t in ts0 && !Interfered(fired, acts, t)
        ensures t in fired <==> t in b0 && Due(now, ts0[t].timeout)
        ensures t in timers && timers[t] == if t !in fired then ts0[t]
                                            else if ts0[t].periodic then ts0[t].(timeout := Plus(now, ts0[t].initTick))
                                            else ts0[t].(active := false)
      {
        SparedTimer(b0, ts0, acts, now, fired, timers, t);
      }
    }

    // rt_timer_list_next_timeout: the earliest deadline, or RT_TICK_MAX.
    method NextTimeout() returns (next: Tick)
      requires Valid()
      ensures Bottom() == [] ==> next == TICK_MAX
      ensures Bottom() != [] ==> exists t :: t in Bottom() && t in timers && timers[t].timeout == next
      ensures forall t :: t in Bottom() ==> t in timers && Dist(base, next) <= Dist(base, timers[t].timeout)
    {
      var list := rows[|rows| - 1];
      if list == [] {
        return TICK_MAX;
      }
      assert list[0] in Bottom();
      next := timers[list[0]].timeout;
      forall t | t in Bottom() ensures Dist(base, next) <= Dist(base, timers[t].timeout) {
        NotBefore(timers, serial, base, Bottom(), t);
      }
    }

    // A timer that was started with zero ticks since the clock last moved.
    ghost predicate Overdue()
      reads this
      requires rows != []
    {
      exists t :: t in Bottom() && t in timers && timers[t].timeout == now
    }

    // rt_tick_increase: the clock ticks and the timers are checked.  A listed timer fires exactly at the
    // tick of its deadline, or at the next one if it was started with zero ticks; unless a timer that fires
    // before it starts or stops it.
    method Tick(acts: Acts) returns (fired: seq<Tid>)
      requires Valid() && base == now
      requires forall t :: t in Bottom() && t in timers && timers[t].periodic ==>
                 1 <= timers[t].initTick && (if Overdue() then 1 else 0) + timers[t].initTick < HALF
      requires forall t :: t in Bottom() ==> ActsOk(ActsOf(acts, t), t, timers, if Overdue() then 1 else 0)
      modifies this
      ensures Valid() && |rows| == |old(rows)| && base == now == Plus(old(now), 1)
      ensures forall t :: t in Bottom() ==> t in timers && 0 < Dist(now, timers[t].timeout)
      ensures Checked(old(Bottom()), old(timers), acts, now, fired, timers)
      ensures forall t :: t in old(Bottom()) ==>
                t in old(timers) && (Due(now, old(timers)[t].timeout) <==> old(timers)[t].timeout == now || old(timers)[t].timeout == old(now))
      ensures timers.Keys == old(timers).Keys
      ensures forall t :: t in timers ==> timers[t].initTick == old(timers)[t].initTick && timers[t].periodic == old(timers)[t].periodic
      // a timer that no timeout function starts or stops fires exactly if it is listed and due; a periodic one
      // is then listed again with a deadline one period from now, another is inactive and not listed; and
      // what does not fire is left as it is
      ensures forall t :: t in old(timers) && !Interfered(fired, acts, t) ==>
        (t in fired <==> t in old(Bottom()) && Due(now, old(timers)[t].timeout))
      ensures forall t :: t in fired && !Interfered(fired, acts, t) && t in timers && timers[t].periodic ==>
        t in Bottom() && timers[t].active && timers[t].timeout == Plus(now, timers[t].initTick)
      ensures forall t :: t in fired && !Interfered(fired, acts, t) && t in timers && !timers[t].periodic ==>
        t !in Bottom() && !timers[t].active
      ensures forall t :: t in timers && t !in fired && !Interfered(fired, acts, t) ==>
        timers[t] == old(timers)[t] && (t in Bottom() <==> t in old(Bottom()))
    {
      hide Sound, Layered, Ordered, AfterFire, ActsOk, Checked;
      ghost var overdue := Overdue();
      now := Plus(now, 1);
      PartsOfSound();
      DueInTick(timers, serial, base, now, Bottom());
      if !overdue {
        base := now;
        Rebased(rows, Bottom(), height, timers, serial, starts, old(base), now);
      }
      fired := Check(acts);
    }
  }

  // ----- periodic timers over many ticks

  // The timers and what their timeout functions do, whatever is listed when.
  ghost predicate TicksOk(ts: Timers, acts: Acts) {
    && (forall x :: x in ts && ts[x].periodic ==> 1 <= ts[x].initTick && 1 + ts[x].initTick < HALF)
    && forall x :: x in ts ==> ActsOk(ActsOf(acts, x), x, ts, 1)
  }

  lemma TicksStayOk(ts: Timers, ts': Timers, acts: Acts)
    requires TicksOk(ts, acts) && ts'.Keys == ts.Keys
    requires forall x :: x in ts' ==> ts'[x].initTick == ts[x].initTick && ts'[x].periodic == ts[x].periodic
    ensures TicksOk(ts', acts)
  {
    forall x | x in ts' ensures ActsOk(ActsOf(acts, x), x, ts', 1) {
      assert ActsOk(ActsOf(acts, x), x, ts, 1);
    }
  }

  lemma ActsOkNow(ts: Timers, acts: Acts, x: Tid, lag: nat)
    requires TicksOk(ts, acts) && x in ts && lag <= 1
    ensures ActsOk(ActsOf(acts, x), x, ts, lag)
  {
    assert ActsOk(ActsOf(acts, x), x, ts, 1);
  }

  lemma NotInterfered(fired: seq<Tid>, acts: Acts, t: Tid)
    requires forall x, a :: x in acts && a in acts[x] ==> a.timer != t
    ensures !Interfered(fired, acts, t)
  {
  }

  lemma OneTickLess(now: Tick, d: Tick)
    requires d != now
    ensures Dist(Plus(now, 1), d) == Dist(now, d) - 1 && (d == Plus(now, 1) <==> Dist(now, d) == 1)
  {
  }

  lemma PeriodAhead(now: Tick, n: Tick)
    ensures Dist(now, Plus(now, n)) == n
  {
  }

  // One tick, as an undisturbed timer sees it.
  method TickOnce(s: TimerList, acts: Acts, ghost t: Tid) returns (fired: seq<Tid>)
    requires s.Valid() && s.base == s.now && TicksOk(s.timers, acts) && t in s.timers
    requires forall x, a :: x in acts && a in acts[x] ==> a.timer != t
    requires t in s.Bottom() ==> s.timers[t].timeout != s.now
    modifies s
    ensures s.Valid() && s.rows != [] && s.base == s.now && s.timers.Keys == old(s.timers).Keys
    ensures forall x :: x in s.timers ==> s.timers[x].initTick == old(s.timers)[x].initTick && s.timers[x].periodic == old(s.timers)[x].periodic
    ensures t in fired <==> t in old(s.Bottom()) && Dist(old(s.now), old(s.timers)[t].timeout) == 1
    ensures t in s.Bottom() <==> t in old(s.Bottom()) && (t in fired ==> s.timers[t].periodic)
    ensures t in s.Bottom() ==> s.timers[t].timeout != s.now
    ensures t in s.Bottom() && t in fired ==> Dist(s.now, s.timers[t].timeout) == s.timers[t].initTick
    ensures t in s.Bottom() && t !in fired ==> Dist(s.now, s.timers[t].timeout) == Dist(old(s.now), old(s.timers)[t].timeout) - 1
  {
    hide Dist, Plus, Minus, ActsOk, Checked, Interfered, Due, TicksOk, Sound;
    var now := s.now;
    Positive(s.timers, acts);
    forall x | x in s.timers ensures ActsOk(ActsOf(acts, x), x, s.timers, 0) && ActsOk(ActsOf(acts, x), x, s.timers, 1) {
      ActsOkNow(s.timers, acts, x, 0);
      ActsOkNow(s.timers, acts, x, 1);
    }
    Listed(s);
    if t in s.Bottom() {
      OneTickLess(s.now, s.timers[t].timeout);
    }
    fired := s.Tick(acts);
    NotInterfered(fired, acts, t);
    PeriodAhead(s.now, s.timers[t].initTick);
  }

  lemma Positive(ts: Timers, acts: Acts)
    requires TicksOk(ts, acts)
    ensures forall x :: x in ts && ts[x].periodic ==> 1 <= ts[x].initTick && 1 + ts[x].initTick < HALF
  {
  }

  lemma Listed(s: TimerList)
    requires s.Valid()
    ensures forall x :: x in s.Bottom() ==> x in s.timers
  {
  }

  // How many ticks a timer is off after i ticks, when it was d ticks off and is started again for n ticks
  // whenever it fires.
  function Left(d: nat, n: nat, i: nat): nat
    requires n > 0
  {
    if i < d then d - i else n - (i - d) % n
  }

  lemma LeftSteps(d: nat, n: nat, i: nat)
    requires 1 <= d && 1 <= n
    ensures 1 <= Left(d, n, i)
    ensures Left(d, n, i) == 1 <==> d <= i + 1 && (i + 1 - d) % n == 0
    ensures Left(d, n, i + 1) == if Left(d, n, i) == 1 then n else Left(d, n, i) - 1
  {
    if d <= i {
      var k: nat := i - d;
      Euclid(k, n);
      Euclid(k + 1, n);
      if k % n == n - 1 {
        SameQuotient(k / n + 1, 0, (k + 1) / n, (k + 1) % n, n);
      } else {
        SameQuotient(k / n, k % n + 1, (k + 1) / n, (k + 1) % n, n);
      }
    } else if i + 1 == d {
      ZeroMod(n);
    }
  }

  lemma ZeroMod(n: nat)
    requires n > 0
    ensures 0 % n == 0
  {
  }

  // Whether a timer that is d ticks off is still listed after i ticks, and how far off it is then.
  predicate Pending(v: Timer, d: nat, i: nat) { v.periodic || i < d }

  function Away(v: Timer, d: nat, i: nat): int
    requires v.periodic ==> v.initTick > 0
  {
    if v.periodic then Left(d, v.initTick, i) else d - i
  }

  // Whether it fires at tick i + 1.
  predicate OnTime(v: Timer, d: nat, i: nat)
    requires v.periodic ==> v.initTick > 0
  {
    if v.periodic then d <= i + 1 && (i + 1 - d) % v.initTick == 0 else i + 1 == d
  }

  lemma AwaySteps(v: Timer, d: nat, i: nat)
    requires 1 <= d && (v.periodic ==> v.initTick > 0)
    ensures OnTime(v, d, i) <==> Pending(v, d, i) && Away(v, d, i) == 1
    ensures Pending(v, d, i + 1) <==> Pending(v, d, i) && (OnTime(v, d, i) ==> v.periodic)
    ensures Pending(v, d, i + 1) ==> Away(v, d, i + 1) == if OnTime(v, d, i) then v.initTick else Away(v, d, i) - 1
  {
    if v.periodic {
      LeftSteps(d, v.initTick, i);
    }
  }

  method RunTicks(s: TimerList, acts: seq<Acts>, ghost t: Tid) returns (fired: seq<seq<Tid>>)
    requires s.Valid() && s.rows != [] && s.base == s.now && t in s.Bottom() && t in s.timers && s.timers[t].timeout != s.now
    requires forall i :: 0 <= i < |acts| ==> TicksOk(s.timers, acts[i])
    requires forall i, x, a :: 0 <= i < |acts| && x in acts[i] && a in acts[i][x] ==> a.timer != t
    requires s.timers[t].periodic ==> 1 <= s.timers[t].initTick
    modifies s
    ensures s.Valid() && |fired| == |acts|
    ensures forall i :: 0 <= i < |acts| ==>
      (t in fired[i] <==> OnTime(old(s.timers)[t], Dist(old(s.now), old(s.timers)[t].timeout), i))
  {
    hide *;
    ghost var ts0, d, v := s.timers, Dist(s.now, s.timers[t].timeout), s.timers[t];
    FarOff(s.now, v);
    fired := [];
    for i := 0 to |acts|
      invariant s.Valid() && s.rows != [] && s.base == s.now && |fired| == i && s.timers.Keys == ts0.Keys
      invariant forall x :: x in s.timers ==> s.timers[x].initTick == ts0[x].initTick && s.timers[x].periodic == ts0[x].periodic
      invariant t in s.Bottom() <==> Pending(v, d, i)
      invariant t in s.Bottom() ==> s.timers[t].timeout != s.now && Dist(s.now, s.timers[t].timeout) == Away(v, d, i)
      invariant forall j :: 0 <= j < i ==> (t in fired[j] <==> OnTime(v, d, j))
    {
      TicksStayOk(ts0, s.timers, acts[i]);
      AwaySteps(v, d, i);
      var now := TickOnce(s, acts[i], t);
      fired := fired + [now];
    }
  }

  lemma FarOff(now: Tick, v: Timer)
    requires v.timeout != now && (v.periodic ==> v.initTick > 0)
    ensures var d := Dist(now, v.timeout); d >= 1 && Pending(v, d, 0) && Away(v, d, 0) == d
  {
  }

  // A timer that no timeout function starts or stops fires, if it is periodic, for the first time at the
  // tick of its deadline and then exactly at every n-th tick, n its period; otherwise at the tick of its
  // deadline alone.
  method Ticks(s: TimerList, acts: seq<Acts>, ghost t: Tid) returns (fired: seq<seq<Tid>>)
    requires s.Valid() && s.base == s.now && t in s.Bottom() && t in s.timers && s.timers[t].timeout != s.now
    requires forall i :: 0 <= i < |acts| ==> TicksOk(s.timers, acts[i])
    requires forall i, x, a :: 0 <= i < |acts| && x in acts[i] && a in acts[i][x] ==> a.timer != t
    requires s.timers[t].periodic ==> 1 <= s.timers[t].initTick
    modifies s
    ensures s.Valid() && |fired| == |acts|
    ensures forall i :: 0 <= i < |acts| ==>
      var d, v := Dist(old(s.now), old(s.timers)[t].timeout), old(s.timers)[t];
      t in fired[i] <==> if v.periodic then d <= i + 1 && (i + 1 - d) % v.initTick == 0 else i + 1 == d
  {
    assert s.rows != [];
    hide Sound, Dist, TicksOk;
    fired := RunTicks(s, acts, t);
  }
}
