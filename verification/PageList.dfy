/**
  The page allocator under the slab allocator, src/slab.c: a linked list of runs of free pages whose
  nodes lie in the first page of each run.  Pages are named by their number.

  The list is sorted and maximally merged, so it is determined by the set of free pages.
 */
module PageRuns {
  datatype Run = Run(start: nat, len: nat)

  function Range(a: nat, n: nat): (r: set<nat>)
    ensures forall p :: p in r <==> a <= p < a + n
    decreases n
  {
    if n == 0 then {} else {a} + Range(a + 1, n - 1)
  }

  function Pages(rs: seq<Run>): set<nat> {
    if rs == [] then {} else Range(rs[0].start, rs[0].len) + Pages(rs[1..])
  }

  // Runs in ascending order, none empty, with a gap between any two.
  ghost predicate Canonical(rs: seq<Run>)
    decreases rs
  {
    || rs == []
    || (rs[0].len > 0 && Canonical(rs[1..]) && (|rs| == 1 || rs[0].start + rs[0].len < rs[1].start))
  }

  lemma {:induction false} TailIsBehind(rs: seq<Run>)
    requires Canonical(rs) && rs != []
    ensures forall p :: p in Pages(rs[1..]) ==> rs[0].start + rs[0].len < p
    ensures forall i :: 0 < i < |rs| ==> rs[0].start + rs[0].len < rs[i].start
    decreases rs
  {
    if |rs| > 1 {
      TailIsBehind(rs[1..]);
      forall i | 1 < i < |rs| ensures rs[0].start + rs[0].len < rs[i].start { assert rs[i] == rs[1..][i - 1]; }
    }
  }

  // The list is determined by the set of free pages.
  lemma {:induction false} CanonicalIsUnique(rs: seq<Run>, ss: seq<Run>)
    requires Canonical(rs) && Canonical(ss) && Pages(rs) == Pages(ss)
    ensures rs == ss
    decreases rs
  {
    FirstRun(rs);
    FirstRun(ss);
    if rs != [] {
      TailIsBehind(rs);
      TailIsBehind(ss);
      SameFirst(rs, ss);
      assert Pages(rs[1..]) == Pages(rs) - Range(rs[0].start, rs[0].len);
      assert Pages(ss[1..]) == Pages(ss) - Range(ss[0].start, ss[0].len);
      CanonicalIsUnique(rs[1..], ss[1..]);
    }
  }

  lemma FirstRun(rs: seq<Run>)
    requires Canonical(rs)
    ensures rs == [] <==> Pages(rs) == {}
    ensures rs != [] ==> rs[0].start in Pages(rs) && rs[0].start + rs[0].len !in Pages(rs)
    ensures rs != [] ==> forall p :: p in Pages(rs) ==> rs[0].start <= p
    ensures rs != [] ==> forall p :: rs[0].start <= p < rs[0].start + rs[0].len ==> p in Pages(rs)
  {
    if rs != [] {
      TailIsBehind(rs);
      assert rs[0].start in Pages(rs);
    }
  }

  lemma SameFirst(rs: seq<Run>, ss: seq<Run>)
    requires Canonical(rs) && Canonical(ss) && Pages(rs) == Pages(ss) && rs != [] && ss != []
    ensures rs[0] == ss[0]
  {
    hide Pages, Canonical;
    FirstRun(rs);
    FirstRun(ss);
    assert rs[0].start == ss[0].start;
  }

  // ----- what allocation and freeing do to the list

  // `rs'` is the list after pages [a, a + n) were given back.
  ghost predicate Freed(rs: seq<Run>, a: nat, n: nat, rs': seq<Run>) {
    Canonical(rs') && Range(a, n) !! Pages(rs) && Pages(rs') == Pages(rs) + Range(a, n)
  }

  // `rs'` is the list after pages [a, a + n) were taken.
  ghost predicate Taken(rs: seq<Run>, a: nat, n: nat, rs': seq<Run>) {
    Canonical(rs') && Range(a, n) <= Pages(rs) && Pages(rs') == Pages(rs) - Range(a, n)
  }

  // The lowest run of at least n pages starts at a.
  ghost predicate LowestRun(rs: seq<Run>, a: nat, n: nat) {
    exists i :: 0 <= i < |rs| && rs[i].start == a && rs[i].len >= n && forall j :: 0 <= j < i ==> rs[j].len < n
  }

  // Frees commute.
  lemma FreesCommute(rs: seq<Run>, a: nat, n: nat, b: nat, k: nat, ab1: seq<Run>, ab2: seq<Run>, ba1: seq<Run>, ba2: seq<Run>)
    requires Freed(rs, a, n, ab1) && Freed(ab1, b, k, ab2)
    requires Freed(rs, b, k, ba1) && Freed(ba1, a, n, ba2)
    ensures ab2 == ba2
  {
    CanonicalIsUnique(ab2, ba2);
  }

  // Freeing what was just allocated restores the identical list.
  lemma FreeUndoesTake(rs: seq<Run>, a: nat, n: nat, rs1: seq<Run>, rs2: seq<Run>)
    requires Canonical(rs) && Taken(rs, a, n, rs1) && Freed(rs1, a, n, rs2)
    ensures rs2 == rs
  {
    CanonicalIsUnique(rs2, rs);
  }

  // Consecutive free pages always lie in one run: the list never hides a large enough block by
  // splitting it.
  lemma {:induction false} RunIsWhole(rs: seq<Run>, a: nat, n: nat)
    requires Canonical(rs) && n > 0 && Range(a, n) <= Pages(rs)
    ensures exists i :: 0 <= i < |rs| && rs[i].start <= a && a + n <= rs[i].start + rs[i].len
    decreases rs
  {
    assert a in Range(a, n);
    FirstRun(rs);
    TailIsBehind(rs);
    var r := rs[0];
    if a < r.start + r.len {
      assert r.start <= a;
      assert r.start + r.len !in Range(a, n);
    } else {
      assert Range(a, n) <= Pages(rs[1..]);
      RunIsWhole(rs[1..], a, n);
      var i :| 0 <= i < |rs[1..]| && rs[1..][i].start <= a && a + n <= rs[1..][i].start + rs[1..][i].len;
      assert rs[i + 1] == rs[1..][i];
    }
  }

  lemma {:induction false} RunIsFree(rs: seq<Run>, i: nat)
    requires i < |rs|
    ensures Range(rs[i].start, rs[i].len) <= Pages(rs)
    decreases rs
  {
    if i > 0 { RunIsFree(rs[1..], i - 1); }
  }

  // ----- pieces of a list

  lemma {:induction false} PagesConcat(rs: seq<Run>, ss: seq<Run>)
    ensures Pages(rs + ss) == Pages(rs) + Pages(ss)
    decreases rs
  {
    if rs == [] {
      assert rs + ss == ss;
    } else {
      assert (rs + ss)[1..] == rs[1..] + ss;
      PagesConcat(rs[1..], ss);
    }
  }

  lemma {:induction false} CanonicalConcat(rs: seq<Run>, ss: seq<Run>)
    ensures Canonical(rs + ss) <==>
      Canonical(rs) && Canonical(ss) && (rs == [] || ss == [] || rs[|rs| - 1].start + rs[|rs| - 1].len < ss[0].start)
    decreases rs
  {
    if rs == [] {
      assert rs + ss == ss;
    } else {
      assert (rs + ss)[1..] == rs[1..] + ss;
      CanonicalConcat(rs[1..], ss);
    }
  }

  // Replace the runs from i to j by `ms`.
  function Replace(rs: seq<Run>, i: nat, j: nat, ms: seq<Run>): seq<Run>
    requires i <= j <= |rs|
  {
    rs[..i] + ms + rs[j..]
  }

  // Where the part before run i ends, and where run i starts, seen from the runs between.
  ghost predicate FitsBetween(rs: seq<Run>, i: nat, j: nat, ms: seq<Run>)
    requires i <= j <= |rs|
  {
    && (i > 0 && ms != [] ==> rs[i - 1].start + rs[i - 1].len < ms[0].start)
    && (j < |rs| && ms != [] ==> ms[|ms| - 1].start + ms[|ms| - 1].len < rs[j].start)
  }

  lemma ReplaceRuns(rs: seq<Run>, i: nat, j: nat, ms: seq<Run>)
    requires Canonical(rs) && i <= j <= |rs| && Canonical(ms) && FitsBetween(rs, i, j, ms)
    ensures Canonical(Replace(rs, i, j, ms))
    ensures Pages(Replace(rs, i, j, ms)) == Pages(rs) - Pages(rs[i..j]) + Pages(ms)
  {
    ReplaceCanonical(rs, i, j, ms);
    ReplacePages(rs, i, j, ms);
  }

  lemma ReplaceCanonical(rs: seq<Run>, i: nat, j: nat, ms: seq<Run>)
    requires Canonical(rs) && i <= j <= |rs| && Canonical(ms) && FitsBetween(rs, i, j, ms)
    ensures Canonical(Replace(rs, i, j, ms))
  {
    hide Canonical;
    var a, c := rs[..i], rs[j..];
    assert rs == a + rs[i..] && rs == rs[..j] + c;
    CanonicalConcat(a, rs[i..]);
    CanonicalConcat(rs[..j], c);
    if ms == [] {
      assert Replace(rs, i, j, ms) == a + c;
      CanonicalConcat(a, c);
      if a != [] && c != [] { GapAcross(rs, i, j); }
    } else {
      assert Replace(rs, i, j, ms) == a + (ms + c);
      CanonicalConcat(a, ms + c);
      CanonicalConcat(ms, c);
    }
  }

  lemma ReplacePages(rs: seq<Run>, i: nat, j: nat, ms: seq<Run>)
    requires Canonical(rs) && i <= j <= |rs|
    ensures Pages(Replace(rs, i, j, ms)) == Pages(rs) - Pages(rs[i..j]) + Pages(ms)
  {
    hide Canonical, Pages;
    var a, m, c := rs[..i], rs[i..j], rs[j..];
    assert rs == a + (m + c);
    CanonicalConcat(a, m + c);
    PagesConcat(a, m + c);
    PagesConcat(m, c);
    PartsApart(a, m + c);
    PartsApart(m, c);
    assert Replace(rs, i, j, ms) == a + (ms + c);
    PagesConcat(a, ms + c);
    PagesConcat(ms, c);
  }

  lemma GapAcross(rs: seq<Run>, i: nat, j: nat)
    requires Canonical(rs) && 0 < i <= j < |rs|
    ensures rs[i - 1].start + rs[i - 1].len < rs[j].start
  {
    assert rs == rs[..i - 1] + rs[i - 1..];
    CanonicalConcat(rs[..i - 1], rs[i - 1..]);
    TailIsBehind(rs[i - 1..]);
    assert rs[i - 1..][j - i + 1] == rs[j];
  }

  lemma {:induction false} PartsApart(a: seq<Run>, b: seq<Run>)
    requires Canonical(a + b)
    ensures Pages(a) !! Pages(b)
    decreases a
  {
    if a != [] {
      assert (a + b)[1..] == a[1..] + b;
      TailIsBehind(a + b);
      PagesConcat(a[1..], b);
      PartsApart(a[1..], b);
    }
  }

  lemma OnePages(r: Run)
    ensures Pages([r]) == Range(r.start, r.len) && (Canonical([r]) <==> r.len > 0)
  {
    assert [r][1..] == [];
  }
}

module PageLists {
  import opened PageRuns

  const NULL := -1

  // Where the i-th run starts, or the null pointer at the end of the list.
  function StartOf(rs: seq<Run>, i: nat): int { if i < |rs| then rs[i].start else NULL }

  ghost predicate NodeIs(next: map<int, int>, page: map<int, nat>, rs: seq<Run>, i: nat)
    requires i < |rs|
  {
    && rs[i].start in next && next[rs[i].start] == StartOf(rs, i + 1)
    && rs[i].start in page && page[rs[i].start] == rs[i].len
  }

  // The list in memory spells out the runs.
  ghost predicate Listed(head: int, next: map<int, int>, page: map<int, nat>, rs: seq<Run>) {
    head == StartOf(rs, 0) && forall i :: 0 <= i < |rs| ==> NodeIs(next, page, rs, i)
  }

  // `*prev = x`, where prev points to the link that leads to run i.
  function Link(next: map<int, int>, rs: seq<Run>, i: nat, x: int): map<int, int>
    requires i <= |rs|
  {
    if i == 0 then next else next[rs[i - 1].start := x]
  }

  lemma Ascending(rs: seq<Run>, i: nat, j: nat)
    requires Canonical(rs) && i < j < |rs|
    ensures rs[i].start + rs[i].len < rs[j].start && rs[i].len > 0
  {
    assert rs == rs[..i] + rs[i..];
    CanonicalConcat(rs[..i], rs[i..]);
    TailIsBehind(rs[i..]);
    assert rs[i..][j - i] == rs[j];
  }

  lemma ListWithout(head: int, next: map<int, int>, page: map<int, nat>, rs: seq<Run>, i: nat, j: nat)
    requires Canonical(rs) && Listed(head, next, page, rs) && i <= j <= |rs|
    ensures Listed(if i == 0 then StartOf(rs, j) else head, Link(next, rs, i, StartOf(rs, j)), page, Replace(rs, i, j, []))
  {
    var rs', next' := Replace(rs, i, j, []), Link(next, rs, i, StartOf(rs, j));
    assert forall k :: 0 <= k < |rs'| ==> rs'[k] == if k < i then rs[k] else rs[k + j - i];
    forall k | 0 <= k < |rs'| ensures NodeIs(next', page, rs', k) {
      var k' := if k < i then k else k + j - i;
      assert NodeIs(next, page, rs, k');
      if i > 0 && k' != i - 1 {
        if k' < i - 1 { Ascending(rs, k', i - 1); } else { Ascending(rs, i - 1, k'); }
      }
    }
  }

  lemma ListWith(head: int, next: map<int, int>, page: map<int, nat>, rs: seq<Run>, i: nat, j: nat, m: Run)
    requires Canonical(rs) && Listed(head, next, page, rs) && i <= j <= |rs|
    requires i > 0 ==> rs[i - 1].start + rs[i - 1].len < m.start
    requires j < |rs| ==> m.start < rs[j].start
    ensures Listed(if i == 0 then m.start else head, Link(next[m.start := StartOf(rs, j)], rs, i, m.start), page[m.start := m.len],
                   Replace(rs, i, j, [m]))
  {
    hide Canonical;
    var rs' := Replace(rs, i, j, [m]);
    assert forall k :: 0 <= k < |rs'| ==> rs'[k] == if k < i then rs[k] else if k == i then m else rs[k + j - i - 1];
    var next', page' := Link(next[m.start := StartOf(rs, j)], rs, i, m.start), page[m.start := m.len];
    forall k | 0 <= k < |rs'| ensures NodeIs(next', page', rs', k) {
      if k != i {
        var k' := if k < i then k else k + j - i - 1;
        assert NodeIs(next, page, rs, k');
        NotTouched(rs, i, j, m, k');
      }
    }
  }

  lemma NotTouched(rs: seq<Run>, i: nat, j: nat, m: Run, k: nat)
    requires Canonical(rs) && i <= j <= |rs| && k < |rs| && (k < i || j <= k)
    requires i > 0 ==> rs[i - 1].start + rs[i - 1].len < m.start
    requires j < |rs| ==> m.start < rs[j].start
    ensures rs[k].start != m.start && (i > 0 && k != i - 1 ==> rs[k].start != rs[i - 1].start)
  {
    if k < i - 1 { Ascending(rs, k, i - 1); }
    if i > 0 && k > i - 1 { Ascending(rs, i - 1, k); }
    if k > j { Ascending(rs, j, k); }
  }

  class PageList {
    var head: int
    var next: map<int, int>
    var page: map<int, nat>
    ghost var runs: seq<Run>

    ghost predicate Valid()
      reads this
    {
      Canonical(runs) && Listed(head, next, page, runs)
    }

    // rt_page_init on `npages` pages from `addr`.
    constructor (addr: nat, npages: nat)
      requires npages > 0
      ensures Valid() && runs == [Run(addr, npages)]
    {
      head := NULL;
      next, page, runs := map[], map[], [];
      new;
      Free(addr, npages);
      OnePages(Run(addr, npages));
      CanonicalIsUnique(runs, [Run(addr, npages)]);
    }

    // Assign to the link behind node `prev`, or to the head of the list if there is none.
    method SetLink(prev: int, x: int)
      modifies this`head, this`next
      ensures head == if prev == NULL then x else old(head)
      ensures next == if prev == NULL then old(next) else old(next)[prev := x]
    {
      if prev == NULL {
        head := x;
      } else {
        next := next[prev := x];
      }
    }

    // rt_page_alloc: first fit, from the front of the run.
    method Alloc(npages: nat) returns (b: int)
      requires Valid()
      modifies this
      ensures Valid()
      ensures b == NULL ==> runs == old(runs)
      ensures b != NULL ==> b >= 0 && npages > 0 && Taken(old(runs), b, npages, runs)
      // it fails just if no `npages` consecutive pages are free
      ensures npages > 0 ==> (b == NULL <==> forall a: nat :: !(Range(a, npages) <= Pages(old(runs))))
      // and otherwise takes the lowest run that is long enough
      ensures b != NULL ==> LowestRun(old(runs), b, npages)
    {
      if npages == 0 {
        return NULL;
      }
      var prev := NULL;
      b := head;
      ghost var i: nat := 0;
      while b != NULL
        invariant Valid() && runs == old(runs) && i <= |runs| && b == StartOf(runs, i)
        invariant prev == if i == 0 then NULL else runs[i - 1].start
        invariant forall j :: 0 <= j < i ==> runs[j].len < npages
        decreases |runs| - i
      {
        assert NodeIs(next, page, runs, i);
        if page[b] >= npages {
          TakeFrom(prev, b, npages, i);
          assert Range(b, npages) <= Pages(old(runs));
          return;
        }
        prev := b;
        b := next[b];
        i := i + 1;
      }
      forall a: nat ensures !(Range(a, npages) <= Pages(runs)) {
        if Range(a, npages) <= Pages(runs) {
          RunIsWhole(runs, a, npages);
        }
      }
    }

    // Take `npages` pages from the front of run i, which `prev` leads to.
    method TakeFrom(prev: int, b: nat, npages: nat, ghost i: nat)
      requires Valid() && i < |runs| && b == runs[i].start && 0 < npages <= runs[i].len
      requires prev == if i == 0 then NULL else runs[i - 1].start
      modifies this
      ensures Valid() && Taken(old(runs), b, npages, runs)
    {
      hide Canonical, Pages, Listed, Replace;
      ListedNode(head, next, page, runs, i);
      TakenFront(runs, i, npages);
      if page[b] > npages {
        var n := b + npages;
        ListWith(head, next, page, runs, i, i + 1, Run(n, runs[i].len - npages));
        next := next[n := next[b]];
        page := page[n := page[b] - npages];
        SetLink(prev, n);
        runs := Replace(runs, i, i + 1, [Run(n, runs[i].len - npages)]);
      } else {
        ListWithout(head, next, page, runs, i, i + 1);
        SetLink(prev, next[b]);
        runs := Replace(runs, i, i + 1, []);
      }
    }

    // rt_page_free
    method Free(n: nat, npages: nat)
      requires Valid() && npages > 0 && Range(n, npages) !! Pages(runs)
      modifies this
      ensures Valid() && Freed(old(runs), n, npages, runs)
    {
      hide Canonical, Pages, Listed, Replace;
      var prev := NULL;
      var b := head;
      ghost var i: nat := 0;
      ListedHead(head, next, page, runs);
      while b != NULL
        invariant Valid() && runs == old(runs) && i <= |runs| && b == StartOf(runs, i)
        invariant prev == if i == 0 then NULL else runs[i - 1].start
        invariant i > 0 ==> runs[i - 1].start + runs[i - 1].len < n
        decreases |runs| - i
      {
        ListedNode(head, next, page, runs, i);
        ApartFrom(runs, i, n, npages);
        if b + page[b] == n {
          JoinBehind(b, n, npages, i);
          return;
        }
        if b == n + npages {
          FreedFront(runs, i, n, npages);
          Put(prev, n, page[b] + npages, next[b], i, i + 1);
          return;
        }
        if b > n + npages {
          break;
        }
        prev := b;
        b := next[b];
        i := i + 1;
      }
      FreedAlone(runs, i, n, npages);
      Put(prev, n, npages, b, i, i);
    }

    // Make `n` a node of `len` pages between what `prev` leads to and the node at `behind`, replacing
    // the runs from i to j.
    method Put(prev: int, n: nat, len: nat, behind: int, ghost i: nat, ghost j: nat)
      requires Valid() && i <= j <= |runs| && len > 0 && behind == StartOf(runs, j)
      requires prev == if i == 0 then NULL else runs[i - 1].start
      requires FitsBetween(runs, i, j, [Run(n, len)])
      modifies this
      ensures Valid() && runs == Replace(old(runs), i, j, [Run(n, len)])
    {
      hide Canonical, Pages, Listed, Replace;
      ghost var m := Run(n, len);
      ListWith(head, next, page, runs, i, j, m);
      OnePages(m);
      ReplaceRuns(runs, i, j, [m]);
      page := page[n := len];
      next := next[n := behind];
      SetLink(prev, n);
      runs := Replace(runs, i, j, [m]);
    }

    // The pages follow run i: it grows, and swallows the next run if that follows at once.
    method JoinBehind(b: nat, n: nat, npages: nat, ghost i: nat)
      requires Valid() && i < |runs| && b == runs[i].start && b + runs[i].len == n && npages > 0
      requires Range(n, npages) !! Pages(runs)
      modifies this
      ensures Valid() && Freed(old(runs), n, npages, runs)
    {
      hide Canonical, Pages, Listed, Replace, Link;
      ListedNode(head, next, page, runs, i);
      FreedBehind(runs, i, n, npages);
      page := page[b := page[b] + npages];
      ghost var j := i + 1;
      if b + page[b] == next[b] {
        ListedNode(head, next, old(page), runs, i + 1);
        page := page[b := page[b] + page[next[b]]];
        next := next[b := next[next[b]]];
        j := i + 2;
      }
      ghost var m := Run(b, page[b]);
      assert j == JoinEnd(runs, i, n, npages) && m == Joined(runs, i, n, npages);
      ListGrown(head, old(next), old(page), runs, i, j, m, next, page);
      runs := Replace(runs, i, j, [m]);
    }
  }

  lemma ListedHead(head: int, next: map<int, int>, page: map<int, nat>, rs: seq<Run>)
    requires Listed(head, next, page, rs)
    ensures head == StartOf(rs, 0)
  {
  }

  lemma ListedNode(head: int, next: map<int, int>, page: map<int, nat>, rs: seq<Run>, i: nat)
    requires Listed(head, next, page, rs) && i < |rs|
    ensures NodeIs(next, page, rs, i)
  {
  }

  // Run i grew in place over the runs up to j.
  lemma ListGrown(head: int, next: map<int, int>, page: map<int, nat>, rs: seq<Run>, i: nat, j: nat, m: Run,
                  next': map<int, int>, page': map<int, nat>)
    requires Canonical(rs) && Listed(head, next, page, rs) && i < j <= |rs| && m.start == rs[i].start
    requires j < |rs| ==> m.start < rs[j].start
    requires next'.Keys == next.Keys && next' == next[m.start := StartOf(rs, j)]
    requires page' == page[m.start := m.len]
    ensures Listed(head, next', page', Replace(rs, i, j, [m]))
  {
    if i > 0 {
      assert NodeIs(next, page, rs, i - 1);
      Ascending(rs, i - 1, i);
    }
    ListWith(head, next, page, rs, i, j, m);
    assert Link(next', rs, i, m.start) == next';
  }

  // A block of pages that is not free lies on one side of every run.
  lemma ApartFrom(rs: seq<Run>, i: nat, n: nat, npages: nat)
    requires Canonical(rs) && i < |rs| && npages > 0 && Range(n, npages) !! Pages(rs)
    ensures n + npages <= rs[i].start || rs[i].start + rs[i].len <= n
  {
    RunIsFree(rs, i);
    NotEmpty(rs, i);
    assert n in Range(n, npages) && rs[i].start in Range(rs[i].start, rs[i].len);
  }

  lemma NotEmpty(rs: seq<Run>, i: nat)
    requires Canonical(rs) && i < |rs|
    ensures rs[i].len > 0
  {
    assert rs == rs[..i] + rs[i..];
    CanonicalConcat(rs[..i], rs[i..]);
  }

  // ----- the cases of allocation and freeing

  lemma Middle(rs: seq<Run>, i: nat, j: nat)
    requires Canonical(rs) && i <= j <= |rs| && j <= i + 2
    ensures Pages(rs[i..j]) == (if j == i then {} else if j == i + 1 then Range(rs[i].start, rs[i].len)
                                else Range(rs[i].start, rs[i].len) + Range(rs[i + 1].start, rs[i + 1].len))
    ensures Pages(rs[i..j]) <= Pages(rs)
    ensures i > 0 && i < |rs| ==> rs[i - 1].start + rs[i - 1].len < rs[i].start
    ensures i < j < |rs| ==> rs[j - 1].start + rs[j - 1].len < rs[j].start
    ensures j == i + 2 ==> rs[i].start + rs[i].len < rs[i + 1].start
    ensures i < j ==> rs[i].len > 0
  {
    hide Canonical, Pages;
    if 0 < i < |rs| { Ascending(rs, i - 1, i); }
    if i < j < |rs| { Ascending(rs, j - 1, j); }
    if j == i + 2 { Ascending(rs, i, i + 1); }
    if i < j { NotEmpty(rs, i); }
    ShortRuns(rs, i, j);
    assert rs == rs[..i] + (rs[i..j] + rs[j..]);
    PagesConcat(rs[..i], rs[i..j] + rs[j..]);
    PagesConcat(rs[i..j], rs[j..]);
  }

  lemma ShortRuns(rs: seq<Run>, i: nat, j: nat)
    requires i <= j <= |rs| && j <= i + 2
    ensures Pages(rs[i..j]) == (if j == i then {} else if j == i + 1 then Range(rs[i].start, rs[i].len)
                                else Range(rs[i].start, rs[i].len) + Range(rs[i + 1].start, rs[i + 1].len))
  {
    if j == i + 2 {
      assert rs[i..j] == [rs[i], rs[i + 1]] && rs[i..j][1..] == [rs[i + 1]];
      OnePages(rs[i + 1]);
    } else if j == i + 1 {
      assert rs[i..j] == [rs[i]];
      OnePages(rs[i]);
    }
  }

  lemma TakenFront(rs: seq<Run>, i: nat, npages: nat)
    requires Canonical(rs) && i < |rs| && 0 < npages <= rs[i].len
    ensures var b, rest := rs[i].start, Run(rs[i].start + npages, rs[i].len - npages);
      && Taken(rs, b, npages, Replace(rs, i, i + 1, if rest.len > 0 then [rest] else []))
      && (i > 0 ==> rs[i - 1].start + rs[i - 1].len < rest.start) && (rest.len > 0 && i + 1 < |rs| ==> rest.start < rs[i + 1].start)
  {
    hide Canonical, Replace, Pages;
    var rest := Run(rs[i].start + npages, rs[i].len - npages);
    var ms := if rest.len > 0 then [rest] else [];
    Middle(rs, i, i + 1);
    OnePages(rest);
    EmptyCanonical();
    ReplaceRuns(rs, i, i + 1, ms);
    assert Pages(rs) - Pages(rs[i..i + 1]) + Pages(ms) == Pages(rs) - Range(rs[i].start, npages);
  }

  lemma EmptyCanonical()
    ensures Canonical([]) && Pages([]) == {}
  {
  }

  // The run that joining leaves behind run i, and the end of the runs it replaces.
  function JoinEnd(rs: seq<Run>, i: nat, n: nat, npages: nat): nat
    requires i < |rs|
  {
    if i + 1 < |rs| && n + npages == rs[i + 1].start then i + 2 else i + 1
  }

  function Joined(rs: seq<Run>, i: nat, n: nat, npages: nat): Run
    requires i < |rs|
  {
    Run(rs[i].start, rs[i].len + npages + (if i + 1 < |rs| && n + npages == rs[i + 1].start then rs[i + 1].len else 0))
  }

  lemma FreedBehind(rs: seq<Run>, i: nat, n: nat, npages: nat)
    requires Canonical(rs) && i < |rs| && npages > 0 && Range(n, npages) !! Pages(rs) && rs[i].start + rs[i].len == n
    ensures Freed(rs, n, npages, Replace(rs, i, JoinEnd(rs, i, n, npages), [Joined(rs, i, n, npages)]))
    ensures JoinEnd(rs, i, n, npages) < |rs| ==> rs[i].start < rs[JoinEnd(rs, i, n, npages)].start
  {
    hide Canonical, Replace, Pages;
    var j, m := JoinEnd(rs, i, n, npages), Joined(rs, i, n, npages);
    Middle(rs, i, j);
    if i + 1 < |rs| { Ascending(rs, i, i + 1); ApartFrom(rs, i + 1, n, npages); }
    if j < |rs| { Ascending(rs, i, j); }
    OnePages(m);
    ReplaceRuns(rs, i, j, [m]);
    assert Pages(rs) - Pages(rs[i..j]) + Range(m.start, m.len) == Pages(rs) + Range(n, npages);
  }

  lemma FreedFront(rs: seq<Run>, i: nat, n: nat, npages: nat)
    requires Canonical(rs) && i < |rs| && npages > 0 && Range(n, npages) !! Pages(rs) && rs[i].start == n + npages
    requires i > 0 ==> rs[i - 1].start + rs[i - 1].len < n
    ensures var m := Run(n, rs[i].len + npages);
      Freed(rs, n, npages, Replace(rs, i, i + 1, [m])) && FitsBetween(rs, i, i + 1, [m])
  {
    hide Canonical, Replace, Pages;
    var m := Run(n, rs[i].len + npages);
    Middle(rs, i, i + 1);
    OnePages(m);
    ReplaceRuns(rs, i, i + 1, [m]);
    assert Pages(rs) - Pages(rs[i..i + 1]) + Range(m.start, m.len) == Pages(rs) + Range(n, npages);
  }

  lemma FreedAlone(rs: seq<Run>, i: nat, n: nat, npages: nat)
    requires Canonical(rs) && i <= |rs| && npages > 0 && Range(n, npages) !! Pages(rs)
    requires i > 0 ==> rs[i - 1].start + rs[i - 1].len < n
    requires i < |rs| ==> n + npages < rs[i].start
    ensures Freed(rs, n, npages, Replace(rs, i, i, [Run(n, npages)])) && FitsBetween(rs, i, i, [Run(n, npages)])
  {
    hide Canonical, Replace, Pages;
    var m := Run(n, npages);
    Middle(rs, i, i);
    OnePages(m);
    ReplaceRuns(rs, i, i, [m]);
  }
}
