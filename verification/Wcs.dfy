/**
  Worst-case stack analysis, tools/WCS.py.

  `CalcWcs` is a depth-first search that memoises its results in the functions' records and recognises
  recursion by finding a function among its parents.  The theorem is that the results are exact: a
  function is `Unbounded` just when some call chain from it reaches a call through a pointer or goes
  round in a circle; otherwise its number is the largest stack any call chain from it needs, and the
  calls reported as unresolved are just those that some call chain can reach.
 */
module WcsSpec {
  // Functions with external linkage are found by name, others by name and translation unit.
  datatype Key = Global(name: string) | Local(name: string, tu: string)

  datatype Fxn = Fxn(tu: string, calls: set<string>, hasPtrCall: bool, localStack: nat, manual: bool)

  type Graph = map<Key, Fxn>

  datatype Stack = Unbounded | Bytes(n: nat)

  // find_fxn: a global function of that name, else one local to the translation unit.
  predicate Found(g: Graph, tu: string, call: string) {
    Global(call) in g || Local(call, tu) in g
  }

  function Find(g: Graph, tu: string, call: string): (k: Key)
    requires Found(g, tu, call)
    ensures k in g && k.name == call && (k.Local? ==> k.tu == tu && Global(call) !in g)
  {
    if Global(call) in g then Global(call) else Local(call, tu)
  }

  function Callees(g: Graph, f: Key): set<Key>
    requires f in g
  {
    set c | c in g[f].calls && Found(g, g[f].tu, c) :: Find(g, g[f].tu, c)
  }

  // A call goes to the global function of that name, else to the local one of the caller's unit, and else
  // is missing.
  lemma CallsAreResolved(g: Graph, f: Key, call: string)
    requires f in g && call in g[f].calls
    ensures call in Missing(g, f) <==> Global(call) !in g && Local(call, g[f].tu) !in g
    ensures Global(call) in Callees(g, f) <==> Global(call) in g
    ensures Local(call, g[f].tu) in Callees(g, f) <==> Global(call) !in g && Local(call, g[f].tu) in g
    ensures forall k :: k in Callees(g, f) ==> k in g && k.name in g[f].calls && (k.Local? ==> k.tu == g[f].tu)
  {
    if Global(call) in g { assert Find(g, g[f].tu, call) == Global(call); }
    if Global(call) !in g && Local(call, g[f].tu) in g { assert Find(g, g[f].tu, call) == Local(call, g[f].tu); }
  }

  function Missing(g: Graph, f: Key): set<string>
    requires f in g
  {
    set c | c in g[f].calls && !Found(g, g[f].tu, c)
  }

  // ----- call chains

  ghost predicate Chain(g: Graph, p: seq<Key>) {
    && p != []
    && (forall i :: 0 <= i < |p| ==> p[i] in g)
    && (forall i :: 0 <= i < |p| - 1 ==> p[i + 1] in Callees(g, p[i]))
  }

  ghost predicate ChainFrom(g: Graph, f: Key, p: seq<Key>) {
    Chain(g, p) && p[0] == f
  }

  predicate Repeats(p: seq<Key>) {
    exists i, j :: 0 <= i < j < |p| && p[i] == p[j]
  }

  function Total(g: Graph, p: seq<Key>): nat
    requires forall k :: k in p ==> k in g
  {
    if p == [] then 0 else g[p[0]].localStack + Total(g, p[1..])
  }

  // Some call chain from f ends in a function with a pointer call, or visits a function twice.
  ghost predicate NoBound(g: Graph, f: Key) {
    exists p :: ChainFrom(g, f, p) && (g[p[|p| - 1]].hasPtrCall || Repeats(p))
  }

  // n is the largest total of a call chain from f.
  ghost predicate Largest(g: Graph, f: Key, n: nat) {
    && (forall p :: ChainFrom(g, f, p) ==> Total(g, p) <= n)
    && (exists p :: ChainFrom(g, f, p) && Total(g, p) == n)
  }

  ghost predicate MissingBelow(g: Graph, f: Key, call: string) {
    exists p :: ChainFrom(g, f, p) && call in Missing(g, p[|p| - 1])
  }

  ghost predicate Exact(g: Graph, f: Key, s: Stack) {
    if s.Unbounded? then NoBound(g, f) else !NoBound(g, f) && Largest(g, f, s.n)
  }

  // An exact result is determined by the call graph alone.
  lemma ExactIsUnique(g: Graph, f: Key, s: Stack, t: Stack)
    requires Exact(g, f, s) && Exact(g, f, t)
    ensures s == t
  {
    if s.Bytes? {
      var p :| ChainFrom(g, f, p) && Total(g, p) == s.n;
      var q :| ChainFrom(g, f, q) && Total(g, q) == t.n;
      assert Total(g, q) <= s.n && Total(g, p) <= t.n;
    }
  }

  lemma ChainTail(g: Graph, p: seq<Key>)
    requires Chain(g, p) && |p| > 1
    ensures Chain(g, p[1..]) && p[1] in Callees(g, p[0])
  {
    var q := p[1..];
    forall i | 0 <= i < |q| - 1 ensures q[i + 1] in Callees(g, q[i]) {
      assert p[(i + 1) + 1] in Callees(g, p[i + 1]);
    }
    assert p[0 + 1] in Callees(g, p[0]);
  }

  lemma ChainCons(g: Graph, f: Key, p: seq<Key>)
    requires f in g && Chain(g, p) && p[0] in Callees(g, f)
    ensures ChainFrom(g, f, [f] + p) && Total(g, [f] + p) == g[f].localStack + Total(g, p)
  {
    var q := [f] + p;
    forall i | 0 <= i < |q| - 1 ensures q[i + 1] in Callees(g, q[i]) {
      if i > 0 { assert p[(i - 1) + 1] in Callees(g, p[i - 1]); }
    }
    assert q[1..] == p;
  }

  // A bound of a callee's kind is passed on to the caller.
  lemma NoBoundUp(g: Graph, f: Key, c: Key)
    requires f in g && c in Callees(g, f) && NoBound(g, c)
    ensures NoBound(g, f)
  {
    var p :| ChainFrom(g, c, p) && (g[p[|p| - 1]].hasPtrCall || Repeats(p));
    ChainCons(g, f, p);
    var q := [f] + p;
    if Repeats(p) {
      var i, j :| 0 <= i < j < |p| && p[i] == p[j];
      assert q[i + 1] == q[j + 1];
    }
    assert q[|q| - 1] == p[|p| - 1];
  }

  // A chain that comes back to a function gives recursion there.
  lemma CircleHasNoBound(g: Graph, p: seq<Key>, f: Key, i: nat)
    requires Chain(g, p) && i < |p| && p[i] == f && f in Callees(g, p[|p| - 1])
    ensures NoBound(g, f)
  {
    var q := p[i..] + [f];
    forall k | 0 <= k < |q| - 1 ensures q[k + 1] in Callees(g, q[k]) {
      if k + 1 < |p| - i { assert p[(i + k) + 1] in Callees(g, p[i + k]); }
    }
    assert q[0] == q[|q| - 1] == f;
    assert Chain(g, q) && Repeats(q);
    assert ChainFrom(g, f, q);
  }

  // A function without pointer calls all of whose callees are bounded is bounded.
  lemma BoundedByCallees(g: Graph, f: Key)
    requires f in g && !g[f].hasPtrCall
    requires forall c :: c in Callees(g, f) ==> !NoBound(g, c)
    ensures !NoBound(g, f)
  {
    if NoBound(g, f) {
      var p :| ChainFrom(g, f, p) && (g[p[|p| - 1]].hasPtrCall || Repeats(p));
      if |p| > 1 {
        ChainTail(g, p);
        var q := p[1..];
        assert ChainFrom(g, q[0], q) && q[|q| - 1] == p[|p| - 1];
        if Repeats(p) {
          RepeatsInTail(g, p);
        }
      }
    }
  }

  lemma RepeatsInTail(g: Graph, p: seq<Key>)
    requires Chain(g, p) && |p| > 1 && Repeats(p)
    ensures NoBound(g, p[1])
  {
    var i, j :| 0 <= i < j < |p| && p[i] == p[j];
    var q := p[1..];
    ChainTail(g, p);
    if i > 0 {
      assert q[i - 1] == q[j - 1];
      assert ChainFrom(g, q[0], q) && Repeats(q);
    } else {
      var r := q[..j];
      forall k | 0 <= k < |r| - 1 ensures r[k + 1] in Callees(g, r[k]) { assert q[k + 1] in Callees(g, q[k]); }
      assert r[|r| - 1] == p[0];
      CircleHasNoBound(g, r, q[0], 0);
    }
  }

  // The largest total of f is its own stack and the largest of its callees' totals.
  lemma LargestByCallees(g: Graph, f: Key, most: nat, largest: map<Key, nat>)
    requires f in g
    requires forall c :: c in Callees(g, f) ==> c in largest && Largest(g, c, largest[c]) && largest[c] <= most
    requires (Callees(g, f) == {} && most == 0) || (exists c :: c in Callees(g, f) && largest[c] == most)
    ensures Largest(g, f, most + g[f].localStack)
  {
    forall p | ChainFrom(g, f, p) ensures Total(g, p) <= most + g[f].localStack {
      if |p| == 1 {
        assert p[1..] == [];
      } else {
        ChainTail(g, p);
        assert ChainFrom(g, p[1], p[1..]);
        assert p[1] in Callees(g, f);
        assert Total(g, p[1..]) <= largest[p[1]];
      }
    }
    if Callees(g, f) == {} {
      assert [f][1..] == [];
      assert ChainFrom(g, f, [f]) && Total(g, [f]) == g[f].localStack;
    } else {
      var c :| c in Callees(g, f) && largest[c] == most;
      var p :| ChainFrom(g, c, p) && Total(g, p) == largest[c];
      ChainCons(g, f, p);
    }
  }

  lemma MissingByCallees(g: Graph, f: Key, call: string)
    requires f in g
    ensures MissingBelow(g, f, call) <==> call in Missing(g, f) || exists c :: c in Callees(g, f) && MissingBelow(g, c, call)
  {
    if MissingBelow(g, f, call) {
      var p :| ChainFrom(g, f, p) && call in Missing(g, p[|p| - 1]);
      if |p| > 1 {
        ChainTail(g, p);
        assert ChainFrom(g, p[1], p[1..]) && p[1..][|p| - 2] == p[|p| - 1];
        assert MissingBelow(g, p[1], call);
      }
    }
    if call in Missing(g, f) {
      assert ChainFrom(g, f, [f]);
    }
    if exists c :: c in Callees(g, f) && MissingBelow(g, c, call) {
      var c :| c in Callees(g, f) && MissingBelow(g, c, call);
      var p :| ChainFrom(g, c, p) && call in Missing(g, p[|p| - 1]);
      ChainCons(g, f, p);
      assert ([f] + p)[|p|] == p[|p| - 1];
    }
  }
}

module WcsAnalysis {
  import opened WcsSpec

  class CallGraph {
    const g: Graph
    var rCalls: map<Key, seq<Key>>
    var unresolved: map<Key, set<string>>
    var wcs: map<Key, Stack>
    var parents: seq<Key>

    // The records as resolve_all_calls leaves them; a manual entry already has its number.
    ghost predicate Resolved()
      reads this`rCalls
    {
      forall f :: f in g ==> f in rCalls && forall c :: c in rCalls[f] <==> c in Callees(g, f)
    }

    ghost predicate Valid()
      reads this
    {
      Resolved() && ResultsExact(g, wcs, unresolved) && Untouched(g, wcs, unresolved, parents)
    }

    constructor (fxns: Graph)
      requires forall f :: f in fxns && fxns[f].manual ==> fxns[f].calls == {} && !fxns[f].hasPtrCall
      ensures g == fxns && Valid() && parents == []
      ensures forall f :: f in wcs ==> fxns[f].manual
    {
      g := fxns;
      parents := [];
      rCalls, unresolved := map[], map[];
      wcs := map f | f in fxns && fxns[f].manual :: Bytes(fxns[f].localStack);
      new;
      ResolveAll();
      forall f | f in wcs ensures Exact(g, f, wcs[f]) {
        LeafIsExact(g, f);
      }
      forall f, u | f in wcs ensures u in unresolved[f] <==> MissingBelow(g, f, u) {
        MissingByCallees(g, f, u);
        assert Callees(g, f) == {};
      }
    }

    // resolve_all_calls
    method ResolveAll()
      modifies this`rCalls, this`unresolved
      ensures Resolved() && unresolved.Keys == g.Keys
      ensures forall f :: f in g ==> unresolved[f] == Missing(g, f)
    {
      rCalls, unresolved := map[], map[];
      var todo := g.Keys;
      while todo != {}
        invariant todo <= g.Keys && unresolved.Keys == g.Keys - todo
        invariant forall f :: f in g.Keys - todo ==> f in rCalls && forall c :: c in rCalls[f] <==> c in Callees(g, f)
        invariant forall f :: f in g.Keys - todo ==> unresolved[f] == Missing(g, f)
        decreases todo
      {
        var f :| f in todo;
        ResolveCalls(f);
        todo := todo - {f};
      }
    }

    method ResolveCalls(f: Key)
      requires f in g
      modifies this`rCalls, this`unresolved
      ensures rCalls.Keys == old(rCalls).Keys + {f} && (forall h :: h in old(rCalls) && h != f ==> rCalls[h] == old(rCalls)[h])
      ensures forall c :: c in rCalls[f] <==> c in Callees(g, f)
      ensures unresolved == old(unresolved)[f := Missing(g, f)]
    {
      var found: seq<Key> := [];
      var missing: set<string> := {};
      var calls := g[f].calls;
      while calls != {}
        invariant calls <= g[f].calls
        invariant forall c :: c in g[f].calls - calls && Found(g, g[f].tu, c) ==> Find(g, g[f].tu, c) in found
        invariant forall k :: k in found ==> k in Callees(g, f)
        invariant forall c :: c in missing <==> c in g[f].calls - calls && !Found(g, g[f].tu, c)
        decreases calls
      {
        var call :| call in calls;
        calls := calls - {call};
        if Found(g, g[f].tu, call) {
          found := found + [Find(g, g[f].tu, call)];
        } else {
          missing := missing + {call};
        }
      }
      rCalls := rCalls[f := found];
      unresolved := unresolved[f := missing];
      assert missing == Missing(g, f);
    }

    lemma CalleesOf(f: Key)
      requires Resolved() && f in g
      ensures f in rCalls && forall c :: c in rCalls[f] <==> c in Callees(g, f)
    {
    }

    // calc_wcs
    method CalcWcs(f: Key)
      requires Resolved() && ResultsExact(g, wcs, unresolved) && Untouched(g, wcs, unresolved, parents)
      requires f in g && CalledFrom(g, parents, f)
      modifies this`wcs, this`unresolved, this`parents
      ensures ResultsExact(g, wcs, unresolved) && Untouched(g, wcs, unresolved, parents)
      ensures f in wcs && parents == old(parents)
      ensures Extended(old(wcs), old(unresolved), wcs, unresolved, parents)
      decreases Idle(g, parents), 1
    {
      hide *;
      if f in wcs {
        Unchanged(wcs, unresolved, parents);
        return;
      }
      if g[f].hasPtrCall {
        PointerCallHasNoBound(g, f);
        Store(g, wcs, unresolved, parents, f, Unbounded);
        wcs := wcs[f := Unbounded];
        return;
      }
      if f in parents {
        Circle(g, parents, f);
        Store(g, wcs, unresolved, parents, f, Unbounded);
        wcs := wcs[f := Unbounded];
        return;
      }
      ScanCallees(f);
    }

    // The part of calc_wcs that goes through the callees.
    method ScanCallees(f: Key)
      requires Resolved() && ResultsExact(g, wcs, unresolved) && Untouched(g, wcs, unresolved, parents)
      requires f in g && CalledFrom(g, parents, f) && f !in wcs && f !in parents && !g[f].hasPtrCall
      modifies this`wcs, this`unresolved, this`parents
      ensures ResultsExact(g, wcs, unresolved) && Untouched(g, wcs, unresolved, parents)
      ensures f in wcs && parents == old(parents)
      ensures Extended(old(wcs), old(unresolved), wcs, unresolved, parents)
      decreases Idle(g, parents), 0
    {
      hide *;
      CalleesOf(f);
      var callees := rCalls[f];
      var callMax: nat := 0;
      var i := 0;
      Start(g, wcs, unresolved, parents, f);
      while i < |callees|
        invariant 0 <= i <= |callees| && parents == old(parents)
        invariant Resolved() && Scanning(g, old(wcs), old(unresolved), wcs, unresolved, parents, f, callees[..i], callMax)
      {
        var c := callees[i];
        ScanningParts(g, old(wcs), old(unresolved), wcs, unresolved, parents, f, callees[..i], callMax);
        Descend(g, parents, f, c);
        FewerIdle(g, parents, f);
        ghost var before, callsBefore := wcs, unresolved;
        parents := parents + [f];
        CalcWcs(c);
        parents := parents[..|parents| - 1];
        assert parents == old(parents);
        if wcs[c].Unbounded? {
          LeaveUnbounded(g, old(wcs), old(unresolved), before, callsBefore, wcs, unresolved, parents, f, callees[..i], callMax, c);
          wcs := wcs[f := Unbounded];
          return;
        }
        LeaveBounded(g, old(wcs), old(unresolved), before, callsBefore, wcs, unresolved, parents, f, callees, i, callMax);
        callMax := if wcs[c].n > callMax then wcs[c].n else callMax;
        unresolved := unresolved[f := unresolved[f] + unresolved[c]];
        i := i + 1;
      }
      assert callees[..i] == callees;
      Finish(g, old(wcs), old(unresolved), wcs, unresolved, parents, f, callees, callMax);
      wcs := wcs[f := Bytes(callMax + g[f].localStack)];
    }

    // calc_all_wcs
    method CalcAll()
      requires Valid() && parents == []
      modifies this`wcs, this`unresolved, this`parents
      ensures Valid() && wcs.Keys == g.Keys
      ensures forall f :: f in g ==> (wcs[f].Unbounded? <==> NoBound(g, f))
      ensures forall f :: f in g && wcs[f].Bytes? ==> Largest(g, f, wcs[f].n)
      ensures forall f, u :: f in g && wcs[f].Bytes? ==> (u in unresolved[f] <==> MissingBelow(g, f, u))
    {
      hide NoBound, Largest, MissingBelow, Missing;
      var todo := g.Keys;
      while todo != {}
        invariant Valid() && parents == [] && todo <= g.Keys && g.Keys - todo <= wcs.Keys
        decreases todo
      {
        var f :| f in todo;
        CalcWcs(f);
        todo := todo - {f};
      }
    }
  }

  // The functions being analysed call one another in order, and the last one calls `f`.
  ghost predicate CalledFrom(g: Graph, parents: seq<Key>, f: Key) {
    f in g && (parents != [] ==> Chain(g, parents) && f in Callees(g, parents[|parents| - 1]))
  }

  // Some call chain comes back to `f`.
  lemma Circle(g: Graph, parents: seq<Key>, f: Key)
    requires CalledFrom(g, parents, f) && f in parents
    ensures Exact(g, f, Unbounded)
  {
    var i :| 0 <= i < |parents| && parents[i] == f;
    CircleHasNoBound(g, parents, f, i);
  }

  // Every result so far is exact.
  ghost predicate ResultsExact(g: Graph, wcs: map<Key, Stack>, unresolved: map<Key, set<string>>) {
    && (forall f :: f in wcs ==> f in g && Exact(g, f, wcs[f]))
    && unresolved.Keys == g.Keys
    && (forall f, u :: f in wcs && wcs[f].Bytes? ==> (u in unresolved[f] <==> MissingBelow(g, f, u)))
  }

  // Functions not analysed yet still have the unresolved calls of their own.
  ghost predicate Untouched(g: Graph, wcs: map<Key, Stack>, unresolved: map<Key, set<string>>, busy: seq<Key>) {
    forall h :: h in g && h in unresolved && h !in wcs && h !in busy ==> unresolved[h] == Missing(g, h)
  }

  // Results stay; of the busy functions nothing changes but that some turn out unbounded.
  ghost predicate Extended(wcs0: map<Key, Stack>, unresolved0: map<Key, set<string>>,
                           wcs: map<Key, Stack>, unresolved: map<Key, set<string>>, busy: seq<Key>) {
    && (forall h :: h in wcs0 ==> h in wcs && wcs[h] == wcs0[h])
    && (forall h :: h in busy && h in wcs && h !in wcs0 ==> wcs[h] == Unbounded)
    && (forall h :: h in busy && h in unresolved && h in unresolved0 ==> unresolved[h] == unresolved0[h])
  }

  // The state of the loop over the callees of f.
  ghost predicate Scanning(g: Graph, wcs0: map<Key, Stack>, unresolved0: map<Key, set<string>>,
                           wcs: map<Key, Stack>, unresolved: map<Key, set<string>>, busy: seq<Key>,
                           f: Key, cs: seq<Key>, most: nat) {
    && f in g && f !in busy && f !in wcs0
    && ResultsExact(g, wcs, unresolved) && Untouched(g, wcs, unresolved, busy + [f])
    && Extended(wcs0, unresolved0, wcs, unresolved, busy)
    && (f in wcs ==> wcs[f] == Unbounded)
    && Scanned(cs, wcs, most) && Collected(g, f, cs, unresolved[f])
  }

  // The functions that are not being analysed.
  ghost function Idle(g: Graph, busy: seq<Key>): set<Key> {
    set k | k in g && k !in busy
  }

  lemma FewerIdle(g: Graph, busy: seq<Key>, f: Key)
    requires f in g && f !in busy
    ensures Idle(g, busy + [f]) < Idle(g, busy)
  {
    assert f in Idle(g, busy) && f !in Idle(g, busy + [f]);
  }

  lemma Unchanged(wcs: map<Key, Stack>, unresolved: map<Key, set<string>>, busy: seq<Key>)
    ensures Extended(wcs, unresolved, wcs, unresolved, busy)
  {
  }

  lemma Store(g: Graph, wcs: map<Key, Stack>, unresolved: map<Key, set<string>>, busy: seq<Key>, f: Key, s: Stack)
    requires f in g && f !in wcs && Exact(g, f, s) && s.Unbounded?
    requires ResultsExact(g, wcs, unresolved) && Untouched(g, wcs, unresolved, busy)
    ensures ResultsExact(g, wcs[f := s], unresolved) && Untouched(g, wcs[f := s], unresolved, busy)
    ensures Extended(wcs, unresolved, wcs[f := s], unresolved, busy)
  {
    hide Exact, Missing, MissingBelow;
  }

  lemma Start(g: Graph, wcs: map<Key, Stack>, unresolved: map<Key, set<string>>, busy: seq<Key>, f: Key)
    requires f in g && f !in wcs && f !in busy
    requires ResultsExact(g, wcs, unresolved) && Untouched(g, wcs, unresolved, busy)
    ensures Scanning(g, wcs, unresolved, wcs, unresolved, busy, f, [], 0)
  {
    hide Exact, Missing, MissingBelow;
  }

  lemma ScanningParts(g: Graph, wcs0: map<Key, Stack>, unresolved0: map<Key, set<string>>,
                      wcs: map<Key, Stack>, unresolved: map<Key, set<string>>, busy: seq<Key>,
                      f: Key, cs: seq<Key>, most: nat)
    requires Scanning(g, wcs0, unresolved0, wcs, unresolved, busy, f, cs, most)
    ensures f in g && f !in busy && f !in wcs0
    ensures ResultsExact(g, wcs, unresolved) && Untouched(g, wcs, unresolved, busy + [f])
  {
  }

  // Storing the result of f.
  lemma Update(g: Graph, wcs0: map<Key, Stack>, unresolved0: map<Key, set<string>>,
               wcs: map<Key, Stack>, unresolved: map<Key, set<string>>, busy: seq<Key>, f: Key, s: Stack)
    requires f in g && f !in busy && f !in wcs0
    requires ResultsExact(g, wcs, unresolved) && Untouched(g, wcs, unresolved, busy + [f])
    requires Extended(wcs0, unresolved0, wcs, unresolved, busy)
    requires Exact(g, f, s)
    requires s.Bytes? ==> forall u :: u in unresolved[f] <==> MissingBelow(g, f, u)
    ensures ResultsExact(g, wcs[f := s], unresolved) && Untouched(g, wcs[f := s], unresolved, busy)
    ensures Extended(wcs0, unresolved0, wcs[f := s], unresolved, busy)
  {
    hide Exact, Missing, MissingBelow;
  }

  lemma ExtendedAcross(wcs0: map<Key, Stack>, unresolved0: map<Key, set<string>>,
                       before: map<Key, Stack>, callsBefore: map<Key, set<string>>,
                       wcs: map<Key, Stack>, unresolved: map<Key, set<string>>, busy: seq<Key>, f: Key)
    requires Extended(wcs0, unresolved0, before, callsBefore, busy) && (f in before ==> before[f] == Unbounded)
    requires Extended(before, callsBefore, wcs, unresolved, busy + [f]) && callsBefore.Keys == unresolved.Keys
    ensures Extended(wcs0, unresolved0, wcs, unresolved, busy)
    ensures f in wcs ==> wcs[f] == Unbounded
    ensures f in unresolved ==> unresolved[f] == callsBefore[f]
    ensures forall h :: h in before ==> h in wcs && wcs[h] == before[h]
  {
    assert forall h :: h in busy ==> h in busy + [f];
    assert f in busy + [f];
  }

  // After the analysis of the callee `c` said that it is unbounded.
  lemma LeaveUnbounded(g: Graph, wcs0: map<Key, Stack>, unresolved0: map<Key, set<string>>,
                       before: map<Key, Stack>, callsBefore: map<Key, set<string>>,
                       wcs: map<Key, Stack>, unresolved: map<Key, set<string>>, busy: seq<Key>,
                       f: Key, cs: seq<Key>, most: nat, c: Key)
    requires Scanning(g, wcs0, unresolved0, before, callsBefore, busy, f, cs, most)
    requires ResultsExact(g, wcs, unresolved) && Untouched(g, wcs, unresolved, busy + [f])
    requires Extended(before, callsBefore, wcs, unresolved, busy + [f])
    requires c in Callees(g, f) && c in wcs && wcs[c].Unbounded?
    ensures ResultsExact(g, wcs[f := Unbounded], unresolved) && Untouched(g, wcs[f := Unbounded], unresolved, busy)
    ensures Extended(wcs0, unresolved0, wcs[f := Unbounded], unresolved, busy)
  {
    hide Exact, Missing, MissingBelow, Callees, Scanned, Collected, Extended, Untouched;
    NoBoundOfUnbounded(g, f, c, wcs[c]);
    ExtendedAcross(wcs0, unresolved0, before, callsBefore, wcs, unresolved, busy, f);
    Update(g, wcs0, unresolved0, wcs, unresolved, busy, f, Unbounded);
  }

  // After the analysis of the callee `cs[i]` gave a number.
  lemma LeaveBounded(g: Graph, wcs0: map<Key, Stack>, unresolved0: map<Key, set<string>>,
                     before: map<Key, Stack>, callsBefore: map<Key, set<string>>,
                     wcs: map<Key, Stack>, unresolved: map<Key, set<string>>, busy: seq<Key>,
                     f: Key, cs: seq<Key>, i: nat, most: nat)
    requires i < |cs| && Scanning(g, wcs0, unresolved0, before, callsBefore, busy, f, cs[..i], most)
    requires ResultsExact(g, wcs, unresolved) && Untouched(g, wcs, unresolved, busy + [f])
    requires Extended(before, callsBefore, wcs, unresolved, busy + [f])
    requires cs[i] in wcs && wcs[cs[i]].Bytes?
    ensures f in unresolved && cs[i] in unresolved
    ensures var calls := unresolved[f := unresolved[f] + unresolved[cs[i]]];
            var most' := if wcs[cs[i]].n > most then wcs[cs[i]].n else most;
            Scanning(g, wcs0, unresolved0, wcs, calls, busy, f, cs[..i + 1], most')
  {
    hide Exact, Missing, MissingBelow, Callees, Scanned, Collected, Untouched, Extended;
    var c := cs[i];
    ExtendedAcross(wcs0, unresolved0, before, callsBefore, wcs, unresolved, busy, f);
    ScanOne(g, f, cs, i, before, wcs, most, unresolved[f], unresolved[c]);
    MoreCalls(g, wcs0, unresolved0, wcs, unresolved, busy, f, unresolved[f] + unresolved[c]);
  }

  lemma MoreCalls(g: Graph, wcs0: map<Key, Stack>, unresolved0: map<Key, set<string>>,
                  wcs: map<Key, Stack>, unresolved: map<Key, set<string>>, busy: seq<Key>, f: Key, calls: set<string>)
    requires f in g && f !in busy && (f in wcs ==> wcs[f] == Unbounded)
    requires ResultsExact(g, wcs, unresolved) && Untouched(g, wcs, unresolved, busy + [f])
    requires Extended(wcs0, unresolved0, wcs, unresolved, busy)
    ensures ResultsExact(g, wcs, unresolved[f := calls]) && Untouched(g, wcs, unresolved[f := calls], busy + [f])
    ensures Extended(wcs0, unresolved0, wcs, unresolved[f := calls], busy)
  {
    hide Exact, Missing, MissingBelow;
  }

  // The callees in `cs` are bounded and `most` is the largest of their numbers.
  ghost predicate Scanned(cs: seq<Key>, wcs: map<Key, Stack>, most: nat) {
    && (forall c :: c in cs ==> c in wcs && wcs[c].Bytes? && wcs[c].n <= most)
    && (if cs == [] then most == 0 else exists c :: c in cs && wcs[c] == Bytes(most))
  }

  // `calls` are the unresolved calls of f itself and below the callees in `cs`.
  ghost predicate Collected(g: Graph, f: Key, cs: seq<Key>, calls: set<string>)
    requires f in g
  {
    forall u :: u in calls <==> u in Missing(g, f) || exists c :: c in cs && MissingBelow(g, c, u)
  }

  lemma ScanOne(g: Graph, f: Key, cs: seq<Key>, i: nat, before: map<Key, Stack>, wcs: map<Key, Stack>, most: nat, calls: set<string>, more: set<string>)
    requires f in g && i < |cs| && cs[i] in wcs && wcs[cs[i]].Bytes?
    requires forall h :: h in before ==> h in wcs && wcs[h] == before[h]
    requires Scanned(cs[..i], before, most) && Collected(g, f, cs[..i], calls)
    requires forall u :: u in more <==> MissingBelow(g, cs[i], u)
    ensures Scanned(cs[..i + 1], wcs, if wcs[cs[i]].n > most then wcs[cs[i]].n else most)
    ensures Collected(g, f, cs[..i + 1], calls + more)
  {
    hide Missing, MissingBelow;
    assert cs[..i + 1] == cs[..i] + [cs[i]];
  }

  lemma Descend(g: Graph, parents: seq<Key>, f: Key, c: Key)
    requires CalledFrom(g, parents, f) && c in Callees(g, f)
    ensures c in g && CalledFrom(g, parents + [f], c)
  {
    var p := parents + [f];
    forall i | 0 <= i < |p| - 1 ensures p[i + 1] in Callees(g, p[i]) {
      if i + 1 < |parents| { assert parents[i + 1] in Callees(g, parents[i]); }
    }
  }

  lemma NoBoundOfUnbounded(g: Graph, f: Key, c: Key, s: Stack)
    requires f in g && c in Callees(g, f) && Exact(g, c, s) && s.Unbounded?
    ensures Exact(g, f, Unbounded)
  {
    NoBoundUp(g, f, c);
  }

  lemma Finish(g: Graph, wcs0: map<Key, Stack>, unresolved0: map<Key, set<string>>,
               wcs: map<Key, Stack>, unresolved: map<Key, set<string>>, busy: seq<Key>,
               f: Key, cs: seq<Key>, most: nat)
    requires Scanning(g, wcs0, unresolved0, wcs, unresolved, busy, f, cs, most)
    requires !g[f].hasPtrCall && (forall c :: c in cs <==> c in Callees(g, f))
    ensures var done := wcs[f := Bytes(most + g[f].localStack)];
            && ResultsExact(g, done, unresolved) && Untouched(g, done, unresolved, busy)
            && Extended(wcs0, unresolved0, done, unresolved, busy)
  {
    hide Exact, Missing, MissingBelow, Callees, Scanned, Collected, Untouched, Extended;
    FinishExact(g, f, cs, wcs, most, unresolved[f]);
    Update(g, wcs0, unresolved0, wcs, unresolved, busy, f, Bytes(most + g[f].localStack));
  }

  lemma FinishExact(g: Graph, f: Key, cs: seq<Key>, wcs: map<Key, Stack>, most: nat, calls: set<string>)
    requires f in g && !g[f].hasPtrCall && (forall c :: c in cs <==> c in Callees(g, f))
    requires Scanned(cs, wcs, most) && Collected(g, f, cs, calls)
    requires forall h :: h in wcs ==> Exact(g, h, wcs[h])
    ensures Exact(g, f, Bytes(most + g[f].localStack))
    ensures forall u :: u in calls <==> MissingBelow(g, f, u)
  {
    hide NoBound, Largest, Callees, Missing, MissingBelow;
    var largest := map c | c in Callees(g, f) && c in wcs && wcs[c].Bytes? :: wcs[c].n;
    BoundedByCallees(g, f);
    LargestByCallees(g, f, most, largest);
    forall u ensures u in calls <==> MissingBelow(g, f, u) {
      MissingByCallees(g, f, u);
    }
  }

  lemma LeafIsExact(g: Graph, f: Key)
    requires f in g && g[f].calls == {} && !g[f].hasPtrCall
    ensures Exact(g, f, Bytes(g[f].localStack))
  {
    assert Callees(g, f) == {};
    BoundedByCallees(g, f);
    LargestByCallees(g, f, 0, map[]);
  }

  lemma PointerCallHasNoBound(g: Graph, f: Key)
    requires f in g && g[f].hasPtrCall
    ensures Exact(g, f, Unbounded)
  {
    assert ChainFrom(g, f, [f]);
  }
}
