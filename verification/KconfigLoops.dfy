/**
  The dependency-loop check of tools/kconfiglib.py: a depth-first search over symbols and choices in
  three colours that puts a loop together on the way back.

  A loop that is reported is a real one.  The check can miss a loop that goes through a choice to an item
  that depends on it without being one of its symbols, or from one symbol of a choice to another.  Where
  no dependencies lead that way round (`NoHiddenPaths`), it finds a loop exactly if there is one.
 */
module KconfigLoopSpec {
  type Id = nat

  // The `_dependents` of symbols and choices, in some order; the symbols of the choices; and the choice of
  // a choice symbol, the last one if it is listed in several.
  datatype Graph = Graph(dependents: map<Id, seq<Id>>, syms: map<Id, seq<Id>>, choiceOf: map<Id, Id>)

  function Nodes(g: Graph): set<Id> { g.dependents.Keys }

  predicate IsSym(g: Graph, x: Id) { x in g.dependents && x !in g.syms }

  ghost predicate Ok(g: Graph) {
    && g.syms.Keys <= g.dependents.Keys
    && (forall x, y :: x in g.dependents && y in g.dependents[x] ==> y in Nodes(g))
    && (forall c, s :: c in g.syms && s in g.syms[c] ==> IsSym(g, s))
    && (forall s :: s in g.choiceOf ==> g.choiceOf[s] in g.syms && s in g.syms[g.choiceOf[s]])
  }

  // ----- the search

  // A choice is entered from a symbol in its conditions, or from one of its symbols, which it skips.
  datatype Via = Dependent | Member(sym: Id)

  // _check_dep_loop_sym(sym, ignore_choice) and _check_dep_loop_choice(choice, skip)
  datatype Call = Sym(id: Id, ignoreChoice: bool) | Choice(id: Id, skip: Via)

  // `return None`, `return loop`, and `raise KconfigError`.
  datatype Outcome = NoLoop | Partial(loop: seq<Id>) | Error(loop: seq<Id>)

  // `_visited`: 0 at first, 1 while being visited, 2 when found not to be part of a loop.
  type Paint = x: int | 0 <= x <= 2

  type Colours = map<Id, Paint>

  datatype Search = Search(visited: Colours, out: Outcome)

  function Colour(v: Colours, x: Id): Paint { if x in v then v[x] else 0 }

  function White(g: Graph, v: Colours): set<Id> { set x | x in Nodes(g) && Colour(v, x) == 0 }

  predicate CallOk(g: Graph, call: Call) {
    match call
    case Sym(s, _) => IsSym(g, s)
    case Choice(c, skip) => c in g.syms && (skip.Member? ==> skip.sym in g.choiceOf && g.choiceOf[skip.sym] == c)
  }

  function ForDependents(g: Graph, deps: seq<Id>): (calls: seq<Call>)
    ensures |calls| == |deps| && forall i :: 0 <= i < |deps| ==> calls[i].id == deps[i]
  {
    if deps == [] then []
    else [if deps[0] in g.syms then Choice(deps[0], Dependent) else Sym(deps[0], false)] + ForDependents(g, deps[1..])
  }

  function ForMembers(members: seq<Id>, skip: Via): (calls: seq<Call>)
    ensures forall call :: call in calls <==> call.Sym? && call.ignoreChoice && call.id in members && skip != Member(call.id)
  {
    if members == [] then []
    else (if skip == Member(members[0]) then [] else [Sym(members[0], true)]) + ForMembers(members[1..], skip)
  }

  // The calls that a first visit makes.
  function Calls(g: Graph, call: Call): seq<Call>
    requires CallOk(g, call)
  {
    match call
    case Sym(s, ignoreChoice) =>
      ForDependents(g, g.dependents[s]) + (if s in g.choiceOf && !ignoreChoice then [Choice(g.choiceOf[s], Member(s))] else [])
    case Choice(c, skip) => ForMembers(g.syms[c], skip)
  }

  lemma {:induction false} DependentsOk(g: Graph, deps: seq<Id>)
    requires Ok(g) && forall y :: y in deps ==> y in Nodes(g)
    ensures forall call :: call in ForDependents(g, deps) ==>
      CallOk(g, call) && call.id in deps && (call.Sym? ==> !call.ignoreChoice) && (call.Choice? ==> call.skip.Dependent?)
    decreases deps
  {
    if deps != [] {
      DependentsOk(g, deps[1..]);
      assert ForDependents(g, deps)[1..] == ForDependents(g, deps[1..]) && deps == [deps[0]] + deps[1..];
      assert deps[0] in Nodes(g);
      forall call | call in ForDependents(g, deps)
        ensures CallOk(g, call) && call.id in deps && (call.Sym? ==> !call.ignoreChoice) && (call.Choice? ==> call.skip.Dependent?)
      {
        if call != ForDependents(g, deps)[0] { assert call in ForDependents(g, deps)[1..]; }
      }
    }
  }

  lemma CallsOk(g: Graph, call: Call)
    requires Ok(g) && CallOk(g, call)
    ensures forall next :: next in Calls(g, call) ==> CallOk(g, next)
  {
    if call.Sym? { DependentsOk(g, g.dependents[call.id]); }
  }

  // _found_dep_loop
  function Found(out: Outcome, cur: Id): Outcome {
    if !out.Partial? then out
    else if out.loop != [] && cur == out.loop[0] then Error(out.loop)
    else Partial(out.loop + [cur])
  }

  ghost function Visit(g: Graph, v: Colours, call: Call): (r: Search)
    requires Ok(g) && CallOk(g, call)
    ensures White(g, r.visited) <= White(g, v) && (r.out.Partial? ==> r.out.loop != [])
    decreases White(g, v), 0, 0
  {
    var x := call.id;
    if Colour(v, x) == 0 then
      CallsOk(g, call);
      assert x in White(g, v) && x !in White(g, v[x := 1]) && White(g, v[x := 1]) <= White(g, v);
      var r := VisitAll(g, v[x := 1], Calls(g, call));
      if r.out.NoLoop? then Search(r.visited[x := 2], NoLoop) else Search(r.visited, Found(r.out, x))
    else if Colour(v, x) == 2 then Search(v, NoLoop)
    else Search(v, Partial([x]))
  }

  ghost function VisitAll(g: Graph, v: Colours, calls: seq<Call>): (r: Search)
    requires Ok(g) && forall call :: call in calls ==> CallOk(g, call)
    ensures White(g, r.visited) <= White(g, v) && (r.out.Partial? ==> r.out.loop != [])
    decreases White(g, v), 1, |calls|
  {
    if calls == [] then Search(v, NoLoop)
    else
      var r := Visit(g, v, calls[0]);
      if r.out.NoLoop? then VisitAll(g, r.visited, calls[1..]) else r
  }

  // ----- loops

  // The search goes from symbols to their dependents.  It ignores those of choices.
  predicate Walked(g: Graph, x: Id, y: Id) { IsSym(g, x) && y in g.dependents[x] }

  predicate Own(g: Graph, c: Id, s: Id) { c in g.syms && s in g.syms[c] }

  predicate Up(g: Graph, s: Id, c: Id) { s in g.choiceOf && g.choiceOf[s] == c }

  // y depends on x, other than as a symbol of the choice x.
  predicate Dep(g: Graph, x: Id, y: Id) { x in g.dependents && y in g.dependents[x] && !Own(g, x, y) }

  // A choice and its symbols depend on each other.
  predicate Step(g: Graph, x: Id, y: Id) { Dep(g, x, y) || Own(g, x, y) || Own(g, y, x) }

  ghost predicate Walk(g: Graph, w: seq<Id>) {
    w != [] && forall i :: 0 <= i < |w| - 1 ==> Step(g, w[i], w[i + 1])
  }

  ghost predicate HasDep(g: Graph, w: seq<Id>) {
    exists i :: 0 <= i < |w| - 1 && Dep(g, w[i], w[i + 1])
  }

  // A way round through dependents that does not only go between choices and their symbols.
  ghost predicate Round(g: Graph, w: seq<Id>) {
    Walk(g, w) && HasDep(g, w) && w[0] == w[|w| - 1]
  }

  function Reverse(xs: seq<Id>): (ys: seq<Id>)
    ensures |ys| == |xs| && forall i :: 0 <= i < |ys| ==> ys[i] == xs[|xs| - 1 - i]
  {
    if xs == [] then [] else Reverse(xs[1..]) + [xs[0]]
  }

  // `loop` lists a round as it is put together, from its end.
  ghost predicate IsLoop(g: Graph, loop: seq<Id>) {
    loop != [] && Round(g, [loop[0]] + Reverse(loop))
  }

  lemma RoundIsLoop(g: Graph, w: seq<Id>)
    requires Round(g, w)
    ensures IsLoop(g, Reverse(w[1..]))
  {
    assert |w| >= 2;
    var loop := Reverse(w[1..]);
    assert [loop[0]] + Reverse(loop) == w;
  }

  // ----- a loop that is reported is one

  ghost predicate Chain(g: Graph, calls: seq<Call>) {
    && calls != [] && (forall i :: 0 <= i < |calls| ==> CallOk(g, calls[i]))
    && forall i :: 0 <= i < |calls| - 1 ==> calls[i + 1] in Calls(g, calls[i])
  }

  function Back(calls: seq<Call>): (ids: seq<Id>)
    ensures |ids| == |calls| && forall i :: 0 <= i < |ids| ==> ids[i] == calls[|calls| - 1 - i].id
  {
    if calls == [] then [] else Back(calls[1..]) + [calls[0].id]
  }

  // What comes back from a call: the calls from there to an item that is being visited, or a closed
  // chain of calls.
  ghost predicate Told(g: Graph, out: Outcome, calls: seq<Call>) {
    && Chain(g, calls)
    && (out.Partial? ==> out.loop == Back(calls))
    && (out.Error? ==> |calls| >= 2 && calls[0].id == calls[|calls| - 1].id && out.loop == Back(calls[1..]))
  }

  lemma {:induction false} VisitTells(g: Graph, v: Colours, call: Call) returns (calls: seq<Call>)
    requires Ok(g) && CallOk(g, call) && !Visit(g, v, call).out.NoLoop?
    ensures Told(g, Visit(g, v, call).out, calls)
    ensures Visit(g, v, call).out.Partial? ==> calls[0] == call
    decreases White(g, v), 0, 0
  {
    var x := call.id;
    if Colour(v, x) == 0 {
      CallsOk(g, call);
      assert x in White(g, v) && x !in White(g, v[x := 1]) && White(g, v[x := 1]) <= White(g, v);
      calls := VisitAllTells(g, v[x := 1], Calls(g, call));
      if VisitAll(g, v[x := 1], Calls(g, call)).out.Partial? {
        var more := [call] + calls;
        assert Chain(g, more) by { LongerChain(g, call, calls); }
        assert more[1..] == calls;
        calls := more;
      }
    } else {
      calls := [call];
    }
  }

  lemma LongerChain(g: Graph, call: Call, calls: seq<Call>)
    requires Chain(g, calls) && CallOk(g, call) && calls[0] in Calls(g, call)
    ensures Chain(g, [call] + calls)
  {
    hide CallOk, Calls;
    var more := [call] + calls;
    forall i | 0 <= i < |more| - 1 ensures more[i + 1] in Calls(g, more[i]) {
      if i > 0 { assert more[i] == calls[i - 1] && more[i + 1] == calls[i - 1 + 1]; }
    }
  }

  lemma {:induction false} VisitAllTells(g: Graph, v: Colours, calls: seq<Call>) returns (told: seq<Call>)
    requires Ok(g) && (forall call :: call in calls ==> CallOk(g, call)) && !VisitAll(g, v, calls).out.NoLoop?
    ensures Told(g, VisitAll(g, v, calls).out, told)
    ensures VisitAll(g, v, calls).out.Partial? ==> told[0] in calls
    decreases White(g, v), 1, |calls|
  {
    if Visit(g, v, calls[0]).out.NoLoop? {
      told := VisitAllTells(g, Visit(g, v, calls[0]).visited, calls[1..]);
    } else {
      told := VisitTells(g, v, calls[0]);
    }
  }

  // A chain that is still being put together ends at an item that is being visited further out.
  lemma {:induction false} VisitLeadsBack(g: Graph, v: Colours, call: Call)
    requires Ok(g) && CallOk(g, call)
    ensures var r := Visit(g, v, call);
      && (r.out.NoLoop? ==> forall x :: Colour(r.visited, x) == 1 <==> Colour(v, x) == 1)
      && (r.out.Partial? ==> Colour(v, r.out.loop[0]) == 1)
    decreases White(g, v), 0, 0
  {
    var x := call.id;
    if Colour(v, x) == 0 {
      CallsOk(g, call);
      assert x in White(g, v) && x !in White(g, v[x := 1]) && White(g, v[x := 1]) <= White(g, v);
      VisitAllLeadsBack(g, v[x := 1], Calls(g, call));
      var r := VisitAll(g, v[x := 1], Calls(g, call));
      forall y | r.out.NoLoop? ensures Colour(r.visited[x := 2], y) == 1 <==> Colour(v, y) == 1 {
        assert Colour(r.visited, y) == 1 <==> Colour(v[x := 1], y) == 1;
      }
    }
  }

  lemma {:induction false} VisitAllLeadsBack(g: Graph, v: Colours, calls: seq<Call>)
    requires Ok(g) && forall call :: call in calls ==> CallOk(g, call)
    ensures var r := VisitAll(g, v, calls);
      && (r.out.NoLoop? ==> forall x :: Colour(r.visited, x) == 1 <==> Colour(v, x) == 1)
      && (r.out.Partial? ==> Colour(v, r.out.loop[0]) == 1)
    decreases White(g, v), 1, |calls|
  {
    if calls != [] {
      VisitLeadsBack(g, v, calls[0]);
      if Visit(g, v, calls[0]).out.NoLoop? { VisitAllLeadsBack(g, Visit(g, v, calls[0]).visited, calls[1..]); }
    }
  }

  lemma CallIsStep(g: Graph, call: Call, next: Call)
    requires Ok(g) && CallOk(g, call) && next in Calls(g, call)
    ensures Step(g, call.id, next.id)
    ensures call.Sym? && call.ignoreChoice ==> Dep(g, call.id, next.id)
    ensures call.Sym? && !Dep(g, call.id, next.id) ==> next.Choice? && next.skip == Member(call.id)
    ensures call.Choice? ==> next.Sym? && next.ignoreChoice && call.skip != Member(next.id) && next.id != call.id
  {
    if call.Sym? {
      DependentsOk(g, g.dependents[call.id]);
    } else {
      OwnIsSym(g, call.id, next.id);
    }
  }

  lemma OwnIsSym(g: Graph, c: Id, s: Id)
    requires Ok(g) && Own(g, c, s)
    ensures IsSym(g, s) && !IsSym(g, c)
  {
  }

  lemma ClosedChainIsLoop(g: Graph, calls: seq<Call>)
    requires Ok(g) && Chain(g, calls) && |calls| >= 2 && calls[0].id == calls[|calls| - 1].id
    ensures IsLoop(g, Back(calls[1..]))
  {
    var loop := Back(calls[1..]);
    var w := [loop[0]] + Reverse(loop);
    SameForward(calls);
    ChainIsWalk(g, calls, w);
  }

  lemma SameForward(calls: seq<Call>)
    requires |calls| >= 2 && calls[0].id == calls[|calls| - 1].id
    ensures var loop := Back(calls[1..]); var w := [loop[0]] + Reverse(loop);
      |w| == |calls| && forall i :: 0 <= i < |w| ==> w[i] == calls[i].id
  {
  }

  lemma ChainIsWalk(g: Graph, calls: seq<Call>, w: seq<Id>)
    requires Ok(g) && Chain(g, calls) && |calls| >= 2 && calls[0].id == calls[|calls| - 1].id
    requires |w| == |calls| && forall i :: 0 <= i < |w| ==> w[i] == calls[i].id
    ensures Round(g, w)
  {
    hide Calls, CallOk, Step, Dep, Ok;
    forall i | 0 <= i < |w| - 1 ensures Step(g, w[i], w[i + 1]) { CallIsStep(g, calls[i], calls[i + 1]); }
    var j := SomeDep(g, calls);
    assert Dep(g, w[j], w[j + 1]);
  }

  // A choice symbol is left through its choice only if it was not entered that way.
  lemma SomeDep(g: Graph, calls: seq<Call>) returns (j: nat)
    requires Ok(g) && Chain(g, calls) && |calls| >= 2 && calls[0].id == calls[|calls| - 1].id
    ensures j < |calls| - 1 && Dep(g, calls[j].id, calls[j + 1].id)
  {
    hide Calls, Dep;
    CallIsStep(g, calls[0], calls[1]);
    j := 0;
    if !Dep(g, calls[0].id, calls[1].id) {
      CallIsStep(g, calls[1], calls[2]);
      j := 1;
      if !Dep(g, calls[1].id, calls[2].id) {
        CallIsStep(g, calls[2], calls[3]);
        j := 2;
      }
    }
  }

  lemma ReportedIsLoop(g: Graph, v: Colours, calls: seq<Call>)
    requires Ok(g) && (forall call :: call in calls ==> CallOk(g, call)) && VisitAll(g, v, calls).out.Error?
    ensures IsLoop(g, VisitAll(g, v, calls).out.loop)
  {
    var told := VisitAllTells(g, v, calls);
    ClosedChainIsLoop(g, told);
  }

  // ----- what the order says in which the items were finished

  // `entry[c]` is the symbol through which the choice c was entered, if it was.  What an item calls comes
  // before it, and what the entry of a choice calls comes before the choice as well.
  ghost predicate Finished(g: Graph, order: seq<Id>, entry: map<Id, Id>) {
    && (forall i, y :: 0 <= i < |order| && Walked(g, order[i], y) ==> y in order[..i])
    && (forall i, t :: 0 <= i < |order| && Own(g, order[i], t) ==> t in order[..i] || IsEntry(entry, t, order[i]))
    && (forall i, y :: 0 <= i < |order| && order[i] in entry && Walked(g, entry[order[i]], y) ==> y in order[..i])
    && (forall i, c :: 0 <= i < |order| && IsEntry(entry, order[i], c) ==> c in order[..i])
    && (forall c :: c in entry ==> c in order && Up(g, entry[c], c))
  }

  predicate IsEntry(entry: map<Id, Id>, s: Id, c: Id) { c in entry && entry[c] == s }

  ghost predicate Consistent(g: Graph, v: Colours, stack: set<Id>, order: seq<Id>, entry: map<Id, Id>) {
    && Finished(g, order, entry)
    && (forall x :: x in Nodes(g) ==> (Colour(v, x) == 1 <==> x in stack))
    && (forall x :: x in Nodes(g) ==> (Colour(v, x) == 2 <==> x in order))
    && (forall x :: x in order ==> x in Nodes(g))
  }

  // The symbol that a choice skips is being visited, and its dependents are finished.
  ghost predicate Ready(g: Graph, call: Call, stack: set<Id>, done: set<Id>) {
    call.Choice? && call.skip.Member? ==> call.skip.sym in stack && forall y :: Walked(g, call.skip.sym, y) ==> y in done
  }

  ghost function Elements(xs: seq<Id>): set<Id> { set x | x in xs }

  ghost function Ids(calls: seq<Call>): set<Id> { set call | call in calls :: call.id }

  lemma {:induction false} VisitFinishes(g: Graph, v: Colours, call: Call, stack: set<Id>, order: seq<Id>, entry: map<Id, Id>)
    returns (order': seq<Id>, entry': map<Id, Id>)
    requires Ok(g) && CallOk(g, call) && Consistent(g, v, stack, order, entry) && Ready(g, call, stack, Elements(order))
    requires Visit(g, v, call).out.NoLoop?
    ensures Consistent(g, Visit(g, v, call).visited, stack, order', entry')
    ensures call.id in order' && order <= order'
    decreases White(g, v), 0, 0
  {
    var x := call.id;
    if Colour(v, x) == 0 {
      hide Consistent;
      CallsOk(g, call);
      assert x in White(g, v) && x !in White(g, v[x := 1]) && White(g, v[x := 1]) <= White(g, v);
      Enter(g, v, x, stack, order, entry);
      CallsReady(g, call, stack + {x}, order);
      order', entry' := VisitAllFinishes(g, v[x := 1], Calls(g, call), stack + {x}, order, entry);
      var v1 := VisitAll(g, v[x := 1], Calls(g, call)).visited;
      Called(g, call);
      NotOnStack(g, v, x, stack, order, entry);
      var entry1 := if call.Choice? && call.skip.Member? then entry'[x := call.skip.sym] else entry';
      Finish(g, v1, call, stack, order, order', entry', entry1);
      order', entry' := order' + [x], entry1;
    } else {
      order', entry' := order, entry;
    }
  }

  lemma NotOnStack(g: Graph, v: Colours, x: Id, stack: set<Id>, order: seq<Id>, entry: map<Id, Id>)
    requires Consistent(g, v, stack, order, entry) && x in Nodes(g) && Colour(v, x) == 0
    ensures x !in stack
  {
  }

  lemma Enter(g: Graph, v: Colours, x: Id, stack: set<Id>, order: seq<Id>, entry: map<Id, Id>)
    requires Consistent(g, v, stack, order, entry) && x in Nodes(g) && Colour(v, x) == 0
    ensures Consistent(g, v[x := 1], stack + {x}, order, entry)
  {
    hide Finished;
  }

  // The dependents of a symbol are called before its choice.
  lemma CallsReady(g: Graph, call: Call, stack: set<Id>, order: seq<Id>)
    requires Ok(g) && CallOk(g, call) && call.id in stack
    ensures AllReady(g, Calls(g, call), stack, Elements(order))
  {
    var calls := Calls(g, call);
    if call.Sym? {
      var deps := g.dependents[call.id];
      DependentsOk(g, deps);
      forall i | 0 <= i < |calls| ensures Ready(g, calls[i], stack, Elements(order) + Ids(calls[..i])) {
        if i < |deps| {
          assert calls[i] in ForDependents(g, deps);
        } else {
          forall y | Walked(g, call.id, y) ensures y in Ids(calls[..i]) {
            var j :| 0 <= j < |deps| && deps[j] == y;
            assert calls[..i][j].id == y;
          }
        }
      }
    } else {
      forall i | 0 <= i < |calls| ensures calls[i].Sym? { assert calls[i] in calls; }
    }
  }

  ghost predicate AllReady(g: Graph, calls: seq<Call>, stack: set<Id>, done: set<Id>) {
    forall i :: 0 <= i < |calls| ==> Ready(g, calls[i], stack, done + Ids(calls[..i]))
  }

  lemma {:induction false} VisitAllFinishes(g: Graph, v: Colours, calls: seq<Call>, stack: set<Id>, order: seq<Id>, entry: map<Id, Id>)
    returns (order': seq<Id>, entry': map<Id, Id>)
    requires Ok(g) && (forall call :: call in calls ==> CallOk(g, call)) && Consistent(g, v, stack, order, entry)
    requires AllReady(g, calls, stack, Elements(order)) && VisitAll(g, v, calls).out.NoLoop?
    ensures Consistent(g, VisitAll(g, v, calls).visited, stack, order', entry')
    ensures order <= order' && Ids(calls) <= Elements(order')
    decreases White(g, v), 1, |calls|
  {
    hide Consistent;
    if calls == [] {
      order', entry' := order, entry;
    } else {
      FirstReady(g, calls, stack, Elements(order));
      var order1, entry1 := VisitFinishes(g, v, calls[0], stack, order, entry);
      RestReady(g, calls, stack, Elements(order), Elements(order1));
      order', entry' := VisitAllFinishes(g, Visit(g, v, calls[0]).visited, calls[1..], stack, order1, entry1);
      assert calls == [calls[0]] + calls[1..];
    }
  }

  lemma FirstReady(g: Graph, calls: seq<Call>, stack: set<Id>, done: set<Id>)
    requires AllReady(g, calls, stack, done) && calls != []
    ensures Ready(g, calls[0], stack, done)
  {
    assert Ready(g, calls[0], stack, done + Ids(calls[..0]));
  }

  lemma RestReady(g: Graph, calls: seq<Call>, stack: set<Id>, done: set<Id>, done1: set<Id>)
    requires AllReady(g, calls, stack, done) && calls != [] && done <= done1 && calls[0].id in done1
    ensures AllReady(g, calls[1..], stack, done1)
  {
    var rest := calls[1..];
    forall i | 0 <= i < |rest| ensures Ready(g, rest[i], stack, done1 + Ids(rest[..i])) {
      assert Ready(g, calls[i + 1], stack, done + Ids(calls[..i + 1]));
      assert calls[..i + 1] == [calls[0]] + rest[..i];
    }
  }

  lemma Called(g: Graph, call: Call)
    requires Ok(g) && CallOk(g, call)
    ensures forall y :: Walked(g, call.id, y) ==> y in Ids(Calls(g, call))
    ensures forall t :: Own(g, call.id, t) ==> t in Ids(Calls(g, call)) || (call.Choice? && call.skip == Member(t))
  {
    var calls := Calls(g, call);
    forall y | Walked(g, call.id, y) ensures y in Ids(calls) {
      var deps := g.dependents[call.id];
      var j :| 0 <= j < |deps| && deps[j] == y;
      assert calls[j].id == y;
    }
    forall t | Own(g, call.id, t) && call.Choice? && call.skip != Member(t) ensures t in Ids(calls) {
      assert Sym(t, true) in calls;
    }
  }

  // `order1` and `entry1` are from after the calls, `order` from before them.
  lemma Finish(g: Graph, v1: Colours, call: Call, stack: set<Id>, order: seq<Id>, order1: seq<Id>, entry1: map<Id, Id>, entry2: map<Id, Id>)
    requires Ok(g) && CallOk(g, call) && call.id !in stack && Consistent(g, v1, stack + {call.id}, order1, entry1)
    requires order <= order1 && Ready(g, call, stack, Elements(order)) && Ids(Calls(g, call)) <= Elements(order1)
    requires forall y :: Walked(g, call.id, y) ==> y in Ids(Calls(g, call))
    requires forall t :: Own(g, call.id, t) ==> t in Ids(Calls(g, call)) || (call.Choice? && call.skip == Member(t))
    requires entry2 == if call.Choice? && call.skip.Member? then entry1[call.id := call.skip.sym] else entry1
    ensures Consistent(g, v1[call.id := 2], stack, order1 + [call.id], entry2)
  {
    hide Calls, Finished;
    var x, order2 := call.id, order1 + [call.id];
    FinishOrder(g, v1, call, stack, order, order1, entry1, entry2);
    forall y | y in Nodes(g) ensures Colour(v1[x := 2], y) == if y == x then 2 else Colour(v1, y) {}
  }

  lemma FinishOrder(g: Graph, v1: Colours, call: Call, stack: set<Id>, order: seq<Id>, order1: seq<Id>, entry1: map<Id, Id>, entry2: map<Id, Id>)
    requires Ok(g) && CallOk(g, call) && call.id !in stack && Consistent(g, v1, stack + {call.id}, order1, entry1)
    requires order <= order1 && Ready(g, call, stack, Elements(order)) && Ids(Calls(g, call)) <= Elements(order1)
    requires forall y :: Walked(g, call.id, y) ==> y in Ids(Calls(g, call))
    requires forall t :: Own(g, call.id, t) ==> t in Ids(Calls(g, call)) || (call.Choice? && call.skip == Member(t))
    requires entry2 == if call.Choice? && call.skip.Member? then entry1[call.id := call.skip.sym] else entry1
    ensures Finished(g, order1 + [call.id], entry2)
  {
    hide Calls, Ids;
    var x := call.id;
    assert x !in order1 && x !in entry1;
    var s := if call.Choice? && call.skip.Member? then call.skip.sym else x;
    assert entry2 == if s == x then entry1 else entry1[x := s];
    if s != x {
      OwnIsSym(g, x, s);
      assert s !in order1 by { assert Colour(v1, s) == 1; }
    }
    forall y | Walked(g, x, y) ensures y in order1 { assert y in Elements(order1); }
    forall t | Own(g, x, t) ensures t in order1 || (s != x && s == t) { assert t in Ids(Calls(g, call)) ==> t in Elements(order1); }
    forall y | s != x && Walked(g, s, y) ensures y in order1 { assert y in Elements(order); }
    hide Ok, CallOk, Consistent, Walked, Own, Elements, Ready, Colour;
    AppendFinished(g, order1, entry1, x, s);
  }

  lemma AppendFinished(g: Graph, order: seq<Id>, entry: map<Id, Id>, x: Id, s: Id)
    requires Finished(g, order, entry) && x !in order && x !in entry
    requires (forall y :: Walked(g, x, y) ==> y in order) && forall t :: Own(g, x, t) ==> t in order || (s != x && s == t)
    requires s != x ==> s !in order && Up(g, s, x) && forall y :: Walked(g, s, y) ==> y in order
    ensures Finished(g, order + [x], if s == x then entry else entry[x := s])
  {
    hide Walked, Own, Up;
    var order2, entry2 := order + [x], if s == x then entry else entry[x := s];
    assert forall i :: 0 <= i < |order| ==> order2[..i] == order[..i];
    assert order2[..|order|] == order;
    forall i, c | 0 <= i < |order2| && IsEntry(entry2, order2[i], c) ensures c in order2[..i] {
      assert IsEntry(entry, order2[i], c) || c == x;
    }
    forall i, t | 0 <= i < |order2| && Own(g, order2[i], t) ensures t in order2[..i] || IsEntry(entry2, t, order2[i]) {
      if i < |order| { assert Own(g, order[i], t); }
    }
  }

  // ----- which loops are missed

  // The first place of x in the order.
  function Place(order: seq<Id>, x: Id): (i: nat)
    requires x in order
    ensures i < |order| && order[i] == x && x !in order[..i]
  {
    if order[0] == x then 0
    else
      assert order[1..][..Place(order[1..], x)] == order[..1 + Place(order[1..], x)][1..];
      1 + Place(order[1..], x)
  }

  lemma {:induction false} Before(order: seq<Id>, y: Id, i: nat)
    requires i <= |order| && y in order[..i]
    ensures y in order && Place(order, y) < i
    decreases order
  {
    var j :| 0 <= j < i && order[..i][j] == y;
    if order[0] != y {
      assert order[1..][..i - 1] == order[..i][1..];
      assert order[1..][..i - 1][j - 1] == y;
      Before(order[1..], y, i - 1);
    }
  }

  // The symbol through which a choice was entered counts as finished with its choice.
  ghost function Level(g: Graph, order: seq<Id>, entry: map<Id, Id>, x: Id): nat
    requires x in order && Finished(g, order, entry)
  {
    if x in g.choiceOf && IsEntry(entry, x, g.choiceOf[x]) then Place(order, g.choiceOf[x]) else Place(order, x)
  }

  // A step that the search never leaves out.
  predicate Direct(g: Graph, x: Id, y: Id) { Walked(g, x, y) || Own(g, x, y) }

  lemma LevelBound(g: Graph, order: seq<Id>, entry: map<Id, Id>, x: Id)
    requires Finished(g, order, entry) && x in order
    ensures Level(g, order, entry, x) <= Place(order, x)
  {
    var i := Place(order, x);
    if x in g.choiceOf && IsEntry(entry, x, g.choiceOf[x]) {
      assert IsEntry(entry, order[i], g.choiceOf[x]);
      Before(order, g.choiceOf[x], i);
    }
  }

  ghost predicate AllSymsIn(g: Graph, order: seq<Id>) { forall s :: IsSym(g, s) ==> s in order }

  lemma StepsGoDown(g: Graph, order: seq<Id>, entry: map<Id, Id>, x: Id, y: Id)
    requires Ok(g) && Finished(g, order, entry) && AllSymsIn(g, order) && x in order && Direct(g, x, y)
    ensures y in order && Level(g, order, entry, y) <= Level(g, order, entry, x)
    ensures Walked(g, x, y) ==> Level(g, order, entry, y) < Level(g, order, entry, x)
  {
    var l := Level(g, order, entry, x);
    if Walked(g, x, y) {
      assert y in order[..l] by {
        if x in g.choiceOf && IsEntry(entry, x, g.choiceOf[x]) { assert order[l] in entry && entry[order[l]] == x; }
      }
      Before(order, y, l);
      LevelBound(g, order, entry, y);
    } else {
      assert x !in g.choiceOf && order[l] == x;
      if !IsEntry(entry, y, x) {
        assert Own(g, order[l], y);
        Before(order, y, l);
        LevelBound(g, order, entry, y);
      }
    }
  }

  ghost predicate DirectWalk(g: Graph, w: seq<Id>) { forall i :: 0 <= i < |w| - 1 ==> Direct(g, w[i], w[i + 1]) }

  lemma {:induction false} LevelsFall(g: Graph, order: seq<Id>, entry: map<Id, Id>, w: seq<Id>)
    requires Ok(g) && Finished(g, order, entry) && AllSymsIn(g, order) && w != [] && w[0] in order && DirectWalk(g, w)
    ensures w[|w| - 1] in order && Level(g, order, entry, w[|w| - 1]) <= Level(g, order, entry, w[0])
    ensures HasDep(g, w) ==> Level(g, order, entry, w[|w| - 1]) < Level(g, order, entry, w[0])
    decreases w
  {
    hide Finished, Level, Ok, Direct, AllSymsIn, IsSym, Own, Dep;
    if |w| > 1 {
      var v := w[..|w| - 1];
      LevelsFall(g, order, entry, v);
      assert Direct(g, w[|w| - 2], w[|w| - 2 + 1]);
      StepsGoDown(g, order, entry, w[|w| - 2], w[|w| - 1]);
      if HasDep(g, w) && !HasDep(g, v) {
        LastIsDep(g, w);
        DirectDep(g, w[|w| - 2], w[|w| - 1]);
      }
    }
  }

  lemma LastIsDep(g: Graph, w: seq<Id>)
    requires HasDep(g, w) && !HasDep(g, w[..|w| - 1])
    ensures |w| >= 2 && Dep(g, w[|w| - 2], w[|w| - 1])
  {
    var v := w[..|w| - 1];
    var i :| 0 <= i < |w| - 1 && Dep(g, w[i], w[i + 1]);
    assert forall k :: 0 <= k < |v| ==> v[k] == w[k];
  }

  lemma DirectDep(g: Graph, x: Id, y: Id)
    requires Direct(g, x, y) && Dep(g, x, y)
    ensures Walked(g, x, y)
  {
  }

  lemma DirectTarget(g: Graph, order: seq<Id>, entry: map<Id, Id>, x: Id, y: Id)
    requires Ok(g) && Finished(g, order, entry) && AllSymsIn(g, order) && Direct(g, x, y)
    ensures y in order
  {
    if Walked(g, x, y) { assert order[Place(order, x)] == x; }
  }

  // A round of such steps is not missed.
  lemma DirectRoundsAreFound(g: Graph, order: seq<Id>, entry: map<Id, Id>, w: seq<Id>)
    requires Ok(g) && Finished(g, order, entry) && AllSymsIn(g, order) && DirectWalk(g, w)
    ensures !Round(g, w)
  {
    if Round(g, w) {
      assert Direct(g, w[|w| - 2], w[|w| - 2 + 1]);
      DirectTarget(g, order, entry, w[|w| - 2], w[0]);
      LevelsFall(g, order, entry, w);
    }
  }

  // ----- when no loop is missed

  // y depends on the choice c without being one of its symbols.
  predicate Other(g: Graph, c: Id, y: Id) { c in g.syms && Dep(g, c, y) }

  // What the search does not follow leads nowhere: no way leads from such an item back to its choice, and
  // none with a dependency leads from one symbol of a choice to another around the choice.
  ghost predicate NoHiddenPaths(g: Graph) {
    && (forall c, w :: Walk(g, w) && Other(g, c, w[0]) ==> w[|w| - 1] != c)
    && (forall c, w :: Walk(g, w) && HasDep(g, w) && c !in w && Own(g, c, w[0]) && Own(g, c, w[|w| - 1]) ==> w[0] == w[|w| - 1])
  }

  lemma WalkSlice(g: Graph, w: seq<Id>, i: nat, j: nat)
    requires Walk(g, w) && i < j <= |w|
    ensures Walk(g, w[i..j])
  {
    forall k | 0 <= k < j - i - 1 ensures Step(g, w[i..j][k], w[i..j][k + 1]) {
      assert Step(g, w[i + k], w[i + k + 1]);
    }
  }

  // Going on where a walk ends.
  lemma WalkJoin(g: Graph, w: seq<Id>, v: seq<Id>)
    requires Walk(g, w) && Walk(g, v) && w[|w| - 1] == v[0]
    ensures Walk(g, w + v[1..]) && (w + v[1..])[|w + v[1..]| - 1] == v[|v| - 1]
    ensures HasDep(g, w) || HasDep(g, v) <==> HasDep(g, w + v[1..])
  {
    hide Step, Dep;
    var x, n := w + v[1..], |w|;
    assert forall k :: 0 <= k < |v| ==> x[n - 1 + k] == v[k];
    forall k | 0 <= k < |x| - 1 ensures Step(g, x[k], x[k + 1]) {
      if k < n - 1 {
        assert x[k] == w[k] && x[k + 1] == w[k + 1];
      } else {
        assert x[k] == v[k - (n - 1)] && x[k + 1] == v[k - (n - 1) + 1];
      }
    }
    if k :| 0 <= k < n - 1 && Dep(g, w[k], w[k + 1]) { assert x[k] == w[k] && x[k + 1] == w[k + 1]; }
    if k :| 0 <= k < |v| - 1 && Dep(g, v[k], v[k + 1]) { assert x[n - 1 + k] == v[k] && x[n - 1 + k + 1] == v[k + 1]; }
    if k :| 0 <= k < |x| - 1 && Dep(g, x[k], x[k + 1]) {
      if k < n - 1 {
        assert x[k] == w[k] && x[k + 1] == w[k + 1];
      } else {
        assert x[k] == v[k - (n - 1)] && x[k + 1] == v[k - (n - 1) + 1];
      }
    }
  }

  // The same round from its i-th item on.
  lemma Rotate(g: Graph, w: seq<Id>, i: nat) returns (v: seq<Id>)
    requires Round(g, w) && i < |w|
    ensures Round(g, v) && |v| == |w| && v[0] == w[i] && (i > 0 ==> v[|v| - 2] == w[i - 1])
  {
    if i == 0 || i == |w| - 1 {
      v := w;
    } else {
      var front, back := w[0..i + 1], w[i..|w|];
      WalkSlice(g, w, 0, i + 1);
      WalkSlice(g, w, i, |w|);
      assert front + back[1..] == w;
      WalkJoin(g, front, back);
      WalkJoin(g, back, front);
      v := back + front[1..];
    }
  }

  lemma NoOtherOnRound(g: Graph, w: seq<Id>, i: nat)
    requires NoHiddenPaths(g) && Round(g, w) && i < |w| - 1
    ensures !Other(g, w[i], w[i + 1])
  {
    hide Other;
    var r := Rotate(g, w, i + 1);
    WalkSlice(g, r, 0, |r| - 1);
    assert r[0..|r| - 1][|r| - 2] == w[i];
  }

  lemma LastVisit(w: seq<Id>, c: Id, n: nat) returns (j: nat)
    requires 0 < n <= |w| && w[0] == c
    ensures j < n && w[j] == c && forall k :: j < k < n ==> w[k] != c
  {
    j := n - 1;
    while w[j] != c
      invariant j < n && forall k :: j < k < n ==> w[k] != c
      decreases j
    {
      j := j - 1;
    }
  }

  // A round that comes up to the choice c from one of its symbols is a detour: what lies between the last
  // two visits of c is a round of its own, or can be left out.
  lemma WithoutVisit(g: Graph, w: seq<Id>, c: Id) returns (v: seq<Id>)
    requires Ok(g) && NoHiddenPaths(g) && Round(g, w) && |w| >= 2 && w[0] == c
    requires Own(g, c, w[|w| - 2]) && !Dep(g, w[|w| - 2], c)
    ensures Round(g, v) && |v| < |w|
  {
    var j := LastDeparture(g, w, c);
    var part := w[j + 1..|w| - 1];
    WalkSlice(g, w, j + 1, |w| - 1);
    hide Ok, NoHiddenPaths, Dep, Own, Step, Walk;
    if HasDep(g, part) {
      AroundTheChoice(g, part, c);
      v := part;
    } else {
      CutPart(g, w, j);
      v := w[0..j + 1];
    }
  }

  lemma CutPart(g: Graph, w: seq<Id>, j: nat)
    requires Round(g, w) && j < |w| - 2 && w[j] == w[0] && !HasDep(g, w[j + 1..|w| - 1])
    requires !Dep(g, w[j], w[j + 1]) && !Dep(g, w[|w| - 2], w[|w| - 1])
    ensures Round(g, w[0..j + 1])
  {
    var v := w[0..j + 1];
    WalkSlice(g, w, 0, j + 1);
    hide Dep, Step, Walk;
    var k :| 0 <= k < |w| - 1 && Dep(g, w[k], w[k + 1]);
    if k > j && k < |w| - 2 { NotInPart(g, w, j, k); }
    assert v[k] == w[k] && v[k + 1] == w[k + 1];
  }

  lemma AroundTheChoice(g: Graph, w: seq<Id>, c: Id)
    requires NoHiddenPaths(g) && Walk(g, w) && HasDep(g, w) && c !in w && Own(g, c, w[0]) && Own(g, c, w[|w| - 1])
    ensures Round(g, w)
  {
  }

  // Where the round leaves c for the last time it goes to one of its symbols.
  lemma LastDeparture(g: Graph, w: seq<Id>, c: Id) returns (j: nat)
    requires Ok(g) && NoHiddenPaths(g) && Round(g, w) && |w| >= 2 && w[0] == c && Own(g, c, w[|w| - 2])
    ensures j < |w| - 2 && w[j] == c && c !in w[j + 1..|w| - 1]
    ensures Own(g, c, w[j + 1]) && !Dep(g, c, w[j + 1])
  {
    var n := |w|;
    j := LastVisit(w, c, n - 1);
    OwnIsSym(g, c, w[n - 2]);
    NoOtherOnRound(g, w, j);
    assert Step(g, w[j], w[j + 1]);
    if Own(g, w[j + 1], c) { OwnIsSym(g, w[j + 1], c); }
  }

  lemma NotInPart(g: Graph, w: seq<Id>, j: nat, k: nat)
    requires j < k + 1 < |w| && Dep(g, w[k], w[k + 1]) && k < |w| - 2 && j != k
    ensures HasDep(g, w[j + 1..|w| - 1])
  {
    var part := w[j + 1..|w| - 1];
    assert part[k - j - 1] == w[k] && part[k - j - 1 + 1] == w[k + 1];
  }

  // Without hidden paths there is a direct round if there is one at all.
  lemma {:induction false} SomeRoundIsDirect(g: Graph, w: seq<Id>) returns (v: seq<Id>)
    requires Ok(g) && NoHiddenPaths(g) && Round(g, w)
    ensures Round(g, v) && DirectWalk(g, v)
    decreases |w|
  {
    hide NoHiddenPaths, Round;
    if DirectWalk(g, w) {
      return w;
    }
    var i :| 0 <= i < |w| - 1 && !Direct(g, w[i], w[i + 1]);
    assert Step(g, w[i], w[i + 1]) by { RoundIsWalk(g, w); }
    NoOtherOnRound(g, w, i);
    var r := Rotate(g, w, i + 1);
    var shorter := WithoutVisit(g, r, w[i + 1]);
    v := SomeRoundIsDirect(g, shorter);
  }

  // A hidden path is part of a loop.
  lemma HiddenPathIsLoop(g: Graph) returns (w: seq<Id>)
    requires Ok(g) && !NoHiddenPaths(g)
    ensures Round(g, w)
  {
    if c, v :| Walk(g, v) && Other(g, c, v[0]) && v[|v| - 1] == c {
      w := [c] + v;
      forall i | 0 <= i < |w| - 1 ensures Step(g, w[i], w[i + 1]) {
        if i > 0 { assert Step(g, v[i - 1], v[i - 1 + 1]); }
      }
      assert Dep(g, w[0], w[1]);
    } else {
      var c: Id, v: seq<Id> :| Walk(g, v) && HasDep(g, v) && c !in v && Own(g, c, v[0]) && Own(g, c, v[|v| - 1]) && v[0] != v[|v| - 1];
      var home := [v[|v| - 1], c, v[0]];
      assert Walk(g, home);
      WalkJoin(g, v, home);
      w := v + home[1..];
    }
  }

  lemma RoundIsWalk(g: Graph, w: seq<Id>)
    requires Round(g, w)
    ensures Walk(g, w) && |w| >= 2
  {
  }
}

module KconfigLoops {
  import opened KconfigLoopSpec

  class LoopCheck {
    const g: Graph
    var visited: Colours

    constructor (graph: Graph)
      ensures g == graph && visited == map[]
    {
      g := graph;
      visited := map[];
    }

    // _found_dep_loop
    method FoundLoop(loop: seq<Id>, cur: Id) returns (r: Outcome)
      requires loop != []
      ensures r == Found(Partial(loop), cur)
    {
      if cur != loop[0] {
        return Partial(loop + [cur]);
      }
      return Error(loop);
    }

    // _check_dep_loop_sym
    method CheckSym(sym: Id, ignoreChoice: bool) returns (r: Outcome)
      requires Ok(g) && IsSym(g, sym)
      modifies this`visited
      ensures Search(visited, r) == Visit(g, old(visited), Sym(sym, ignoreChoice))
      decreases White(g, visited), 0
    {
      hide Visit, VisitAll, White, Calls, Ok;
      ghost var call := Sym(sym, ignoreChoice);
      var colour := Colour(visited, sym);
      if colour == 2 {
        OtherVisit(g, visited, call);
        return NoLoop;
      }
      if colour != 0 {
        OtherVisit(g, visited, call);
        return Partial([sym]);
      }
      FirstVisit(g, visited, call);
      visited := visited[sym := 1];
      ghost var start, calls := visited, Calls(g, call);
      var deps := g.dependents[sym];
      SymCalls(g, sym, ignoreChoice);
      var i := 0;
      while i < |deps|
        invariant 0 <= i <= |deps|
        invariant VisitAll(g, start, calls) == VisitAll(g, visited, calls[i..])
        invariant White(g, visited) <= White(g, start)
      {
        OneCall(g, visited, calls, i);
        if deps[i] in g.syms {
          r := CheckChoice(deps[i], Dependent);
        } else {
          r := CheckSym(deps[i], false);
        }
        if r.Error? {
          return;
        }
        if r.Partial? {
          r := FoundLoop(r.loop, sym);
          return;
        }
        i := i + 1;
      }
      if sym in g.choiceOf && !ignoreChoice {
        OneCall(g, visited, calls, i);
        r := CheckChoice(g.choiceOf[sym], Member(sym));
        if r.Error? {
          return;
        }
        if r.Partial? {
          r := FoundLoop(r.loop, sym);
          return;
        }
        i := i + 1;
      }
      NoMoreCalls(g, visited, calls[i..]);
      visited := visited[sym := 2];
      r := NoLoop;
    }

    // _check_dep_loop_choice
    method CheckChoice(choice: Id, skip: Via) returns (r: Outcome)
      requires Ok(g) && CallOk(g, Choice(choice, skip))
      modifies this`visited
      ensures Search(visited, r) == Visit(g, old(visited), Choice(choice, skip))
      decreases White(g, visited), 0
    {
      hide Visit, VisitAll, White, Ok, IsSym, VisitFrom, Calls, ForMembers;
      ghost var call := Choice(choice, skip);
      var colour := Colour(visited, choice);
      if colour == 2 {
        OtherVisit(g, visited, call);
        return NoLoop;
      }
      if colour != 0 {
        OtherVisit(g, visited, call);
        return Partial([choice]);
      }
      FirstVisit(g, visited, call);
      visited := visited[choice := 1];
      ghost var start := visited;
      var members := g.syms[choice];
      AllMembers(g, start, choice, skip);
      var i := 0;
      while i < |members|
        invariant 0 <= i <= |members|
        invariant VisitFrom(g, start, members, 0, skip) == VisitFrom(g, visited, members, i, skip)
        invariant White(g, visited) <= White(g, start)
      {
        MemberCall(g, visited, members, i, skip);
        if skip != Member(members[i]) {
          r := CheckSym(members[i], true);
          if r.Error? {
            return;
          }
          if r.Partial? {
            r := FoundLoop(r.loop, choice);
            return;
          }
        }
        i := i + 1;
      }
      NoMoreMembers(g, visited, members, skip);
      visited := visited[choice := 2];
      r := NoLoop;
    }

    // The check of all symbols, in the order of their definition.  A loop that is reported is real; every
    // round that is not has a step that the search leaves out; and when the check passes, there is one
    // exactly if there are hidden paths.
    method CheckAll(all: seq<Id>) returns (r: Outcome)
      requires Ok(g) && visited == map[] && forall s :: s in all <==> IsSym(g, s)
      modifies this`visited
      ensures Search(visited, r) == VisitAll(g, map[], Roots(all)) && !r.Partial?
      ensures r.Error? ==> IsLoop(g, r.loop)
      ensures r.NoLoop? ==> forall w :: Round(g, w) ==> !DirectWalk(g, w)
      ensures (r.NoLoop? <==> forall loop :: !IsLoop(g, loop)) <==> r.Error? || NoHiddenPaths(g)
    {
      hide Visit, VisitAll, White, Ok, IsLoop, Round, IsSym, NoHiddenPaths;
      var i := 0;
      RootsOk(g, all);
      while i < |all|
        invariant 0 <= i <= |all|
        invariant VisitAll(g, map[], Roots(all)) == VisitAll(g, visited, Roots(all)[i..])
      {
        OneCall(g, visited, Roots(all), i);
        r := CheckSym(all[i], false);
        if !r.NoLoop? {
          RootsTell(g, all, r);
          ReportedIsLoop(g, map[], Roots(all));
          return;
        }
        i := i + 1;
      }
      NoMoreCalls(g, visited, Roots(all)[i..]);
      r := NoLoop;
      NothingMissed(g, all);
    }
  }

  // What it means that the search ends without an error.
  lemma NothingMissed(g: Graph, all: seq<Id>)
    requires Ok(g) && (forall s :: s in all <==> IsSym(g, s)) && VisitAll(g, map[], Roots(all)).out.NoLoop?
    ensures forall w :: Round(g, w) ==> !DirectWalk(g, w)
    ensures NoHiddenPaths(g) <==> forall loop :: !IsLoop(g, loop)
  {
    hide Visit, VisitAll, Ok, Round, NoHiddenPaths, Finished;
    var order, entry := RootsFinish(g, all);
    forall w | DirectWalk(g, w) ensures !Round(g, w) { DirectRoundsAreFound(g, order, entry, w); }
    forall loop | NoHiddenPaths(g) ensures !IsLoop(g, loop) {
      if IsLoop(g, loop) {
        var w := SomeRoundIsDirect(g, [loop[0]] + Reverse(loop));
        DirectRoundsAreFound(g, order, entry, w);
      }
    }
    if !NoHiddenPaths(g) {
      var w := HiddenPathIsLoop(g);
      RoundIsLoop(g, w);
    }
  }

  // ----- what is missed

  // The choice 4 with the symbol 1; the symbol 2, from a menu inside the choice, depends on the choice but
  // is none of its symbols; the symbol 3 depends on 2, and the choice on 3.
  const MENU := Graph(
    map[1 := [], 2 := [3], 3 := [4], 4 := [1, 2]],
    map[4 := [1]],
    map[1 := 4])

  // The loop from 4 to 2 and 3 and back is not seen, because the search does not follow 4 to 2.
  lemma MenuLoopIsMissed()
    ensures Ok(MENU) && IsLoop(MENU, [4, 3, 2]) && !NoHiddenPaths(MENU)
    ensures forall call :: call in Roots([1, 2, 3]) ==> CallOk(MENU, call)
    ensures VisitAll(MENU, map[], Roots([1, 2, 3])).out.NoLoop?
  {
    MenuLoop();
    var last := MenuFromOne();
    hide Ok, Done, DoneAll, NoHiddenPaths, Visit, VisitAll, Round;
    var roots := Roots([1, 2, 3]);
    assert roots == [Sym(1, false)] + [Sym(2, false), Sym(3, false)];
    var end := MenuRest(last);
    Then(MENU, map[], Sym(1, false), last, [Sym(2, false), Sym(3, false)], end);
    DoneIsNoLoop(MENU, map[], roots, end);
  }

  lemma MenuLoop()
    ensures Ok(MENU) && IsLoop(MENU, [4, 3, 2]) && !NoHiddenPaths(MENU)
    ensures forall call :: call in Roots([1, 2, 3]) ==> CallOk(MENU, call)
  {
    var w := [4, 2, 3, 4];
    MenuSteps();
    hide Dep, Own, Ok, Other;
    assert Round(MENU, w) by { assert Dep(MENU, w[0], w[1]); }
    RoundIsLoop(MENU, w);
    hide Step;
    assert Reverse(w[1..]) == [4, 3, 2];
    WalkSlice(MENU, w, 1, 4);
    assert w[1..4] == [2, 3, 4];
    assert Other(MENU, 4, w[1..4][0]) && w[1..4][2] == 4;
  }

  lemma MenuSteps()
    ensures Ok(MENU) && Dep(MENU, 4, 2) && Dep(MENU, 2, 3) && Dep(MENU, 3, 4) && Other(MENU, 4, 2)
    ensures forall call :: call in Roots([1, 2, 3]) ==> CallOk(MENU, call)
  {
  }

  lemma MenuFromOne() returns (v1: Colours)
    requires Ok(MENU)
    ensures Done(MENU, map[], Sym(1, false), v1) && v1 == map[1 := 2, 4 := 2]
  {
    hide Ok, Done, DoneAll;
    var start: Colours := map[];
    var v := start[1 := 1];
    assert Calls(MENU, Choice(4, Member(1))) == [] by { assert ForMembers([1][1..], Member(1)) == []; }
    Nothing(MENU, v[4 := 1]);
    First(MENU, v, Choice(4, Member(1)), v[4 := 1]);
    Single(MENU, v, Choice(4, Member(1)), v[4 := 1][4 := 2]);
    assert Calls(MENU, Sym(1, false)) == [Choice(4, Member(1))];
    First(MENU, start, Sym(1, false), v[4 := 1][4 := 2]);
    v1 := v[4 := 1][4 := 2][1 := 2];
  }

  lemma MenuRest(v: Colours) returns (v1: Colours)
    requires Ok(MENU) && v == map[1 := 2, 4 := 2]
    ensures DoneAll(MENU, v, [Sym(2, false), Sym(3, false)], v1)
  {
    hide Ok, Done, DoneAll;
    var v2 := v[2 := 1];
    var v3 := v2[3 := 1];
    Again(MENU, v3, Choice(4, Dependent));
    Single(MENU, v3, Choice(4, Dependent), v3);
    assert Calls(MENU, Sym(3, false)) == [Choice(4, Dependent)] by { DependentCalls(MENU, [4]); }
    First(MENU, v2, Sym(3, false), v3);
    Single(MENU, v2, Sym(3, false), v3[3 := 2]);
    assert Calls(MENU, Sym(2, false)) == [Sym(3, false)] by { DependentCalls(MENU, [3]); }
    First(MENU, v, Sym(2, false), v3[3 := 2]);
    v1 := v3[3 := 2][2 := 2];
    Again(MENU, v1, Sym(3, false));
    Single(MENU, v1, Sym(3, false), v1);
    Then(MENU, v, Sym(2, false), v1, [Sym(3, false)], v1);
    assert [Sym(2, false)] + [Sym(3, false)] == [Sym(2, false), Sym(3, false)];
  }

  // The choice 4 with the symbols 0, 1 and 2, where 1 depends on the symbol 3, which depends on 2.
  const SIBLINGS := Graph(
    map[0 := [], 1 := [], 2 := [3], 3 := [1], 4 := [0, 1, 2]],
    map[4 := [0, 1, 2]],
    map[0 := 4, 1 := 4, 2 := 4])

  // The check enters the choice through the symbol 0 and finishes 1 without going up to the choice again,
  // so that it does not see how 1 leads back to 2.
  lemma SiblingLoopIsMissed()
    ensures Ok(SIBLINGS) && IsLoop(SIBLINGS, [2, 4, 1, 3])
    ensures forall call :: call in Roots([0, 1, 2, 3]) ==> CallOk(SIBLINGS, call)
    ensures VisitAll(SIBLINGS, map[], Roots([0, 1, 2, 3])).out.NoLoop?
  {
    SiblingLoop();
    var last := FromZero();
    hide Ok, Done, DoneAll;
    var g, roots := SIBLINGS, Roots([0, 1, 2, 3]);
    assert roots == [Sym(0, false)] + [Sym(1, false), Sym(2, false), Sym(3, false)];
    SiblingsAgain(last);
    Then(g, map[], Sym(0, false), last, [Sym(1, false), Sym(2, false), Sym(3, false)], last);
    DoneIsNoLoop(g, map[], roots, last);
  }

  // If the symbol 3 is defined first, the same loop is found.
  lemma SiblingLoopIsFound()
    ensures Ok(SIBLINGS) && forall call :: call in Roots([3, 0, 1, 2]) ==> CallOk(SIBLINGS, call)
    ensures VisitAll(SIBLINGS, map[], Roots([3, 0, 1, 2])).out == Error([3, 2, 4, 1])
  {
    SiblingSteps();
    var g, roots := SIBLINGS, Roots([3, 0, 1, 2]);
    assert roots == [Sym(3, false)] + [Sym(0, false), Sym(1, false), Sym(2, false)];
    FromThree();
    hide Ok, Fails, FailsAll;
    FailsFirst(g, map[], Sym(3, false), [Sym(0, false), Sym(1, false), Sym(2, false)], Error([3, 2, 4, 1]));
    FailsIsOut(g, map[], roots, Error([3, 2, 4, 1]));
  }

  lemma FromThree()
    requires Ok(SIBLINGS)
    ensures Fails(SIBLINGS, map[], Sym(3, false), Error([3, 2, 4, 1]))
  {
    hide Ok, Fails, FailsAll;
    var g := SIBLINGS;
    var start: Colours := map[];
    var v1 := start[3 := 1];
    var v2 := v1[1 := 1];
    FromChoice(v2);
    FailsFirst(g, v2, Choice(4, Member(1)), [], Partial([3, 2, 4]));
    assert Calls(g, Sym(1, false)) == [Choice(4, Member(1))] + [];
    FailsUp(g, v1, Sym(1, false), Partial([3, 2, 4]));
    assert [3, 2, 4] + [1] == [3, 2, 4, 1];
    FailsFirst(g, v1, Sym(1, false), [], Partial([3, 2, 4, 1]));
    assert Calls(g, Sym(3, false)) == [Sym(1, false)] + [] by { DependentCalls(g, [1]); }
    FailsUp(g, start, Sym(3, false), Partial([3, 2, 4, 1]));
  }

  // The choice, entered through 1, calls 2, whose dependent 3 is being visited.
  lemma FromChoice(v2: Colours)
    requires Ok(SIBLINGS) && v2 == map[3 := 1, 1 := 1]
    ensures Fails(SIBLINGS, v2, Choice(4, Member(1)), Partial([3, 2, 4]))
  {
    hide Ok, Fails, FailsAll, Done;
    var g := SIBLINGS;
    var v := v2[4 := 1];
    var v0 := Alone(v, 0);
    FailsHere(g, v0[2 := 1], Sym(3, false));
    FailsFirst(g, v0[2 := 1], Sym(3, false), [], Partial([3]));
    assert Calls(g, Sym(2, true)) == [Sym(3, false)] + [] by { DependentCalls(g, [3]); }
    FailsUp(g, v0, Sym(2, true), Partial([3]));
    assert [3] + [2] == [3, 2] && [3, 2] + [4] == [3, 2, 4];
    FailsFirst(g, v0, Sym(2, true), [], Partial([3, 2]));
    FailsThen(g, v, Sym(0, true), v0, [Sym(2, true)] + [], Partial([3, 2]));
    MembersFromOne();
    FailsUp(g, v2, Choice(4, Member(1)), Partial([3, 2]));
  }

  lemma MembersFromOne()
    ensures Calls(SIBLINGS, Choice(4, Member(1))) == [Sym(0, true)] + ([Sym(2, true)] + [])
  {
    var members := [0, 1, 2];
    assert members[1..] == [1, 2] && [1, 2][1..] == [2] && [2][1..] == [];
    assert ForMembers([2], Member(1)) == [Sym(2, true)] + ForMembers([2][1..], Member(1));
    assert ForMembers([1, 2], Member(1)) == [] + ForMembers([1, 2][1..], Member(1));
    assert ForMembers(members, Member(1)) == [Sym(0, true)] + ForMembers(members[1..], Member(1));
  }

  ghost predicate Fails(g: Graph, v: Colours, call: Call, out: Outcome) {
    Ok(g) && CallOk(g, call) && !out.NoLoop? && Visit(g, v, call).out == out
  }

  ghost predicate FailsAll(g: Graph, v: Colours, calls: seq<Call>, out: Outcome) {
    Ok(g) && (forall call :: call in calls ==> CallOk(g, call)) && !out.NoLoop? && VisitAll(g, v, calls).out == out
  }

  lemma FailsHere(g: Graph, v: Colours, call: Call)
    requires Ok(g) && CallOk(g, call) && Colour(v, call.id) == 1
    ensures Fails(g, v, call, Partial([call.id]))
  {
  }

  lemma FailsFirst(g: Graph, v: Colours, call: Call, rest: seq<Call>, out: Outcome)
    requires Fails(g, v, call, out) && forall next :: next in rest ==> CallOk(g, next)
    ensures FailsAll(g, v, [call] + rest, out)
  {
  }

  lemma FailsThen(g: Graph, v: Colours, call: Call, v1: Colours, rest: seq<Call>, out: Outcome)
    requires Done(g, v, call, v1) && FailsAll(g, v1, rest, out)
    ensures FailsAll(g, v, [call] + rest, out)
  {
    var calls := [call] + rest;
    assert calls[0] == call && calls[1..] == rest;
  }

  lemma FailsUp(g: Graph, v: Colours, call: Call, out: Outcome)
    requires Ok(g) && CallOk(g, call) && Colour(v, call.id) == 0 && FailsAll(g, v[call.id := 1], Calls(g, call), out)
    ensures Fails(g, v, call, Found(out, call.id))
  {
    FirstVisit(g, v, call);
  }

  lemma FailsIsOut(g: Graph, v: Colours, calls: seq<Call>, out: Outcome)
    requires FailsAll(g, v, calls, out)
    ensures Ok(g) && (forall call :: call in calls ==> CallOk(g, call)) && VisitAll(g, v, calls).out == out
  {
  }

  // 0 and 1 have no dependents, and skip their choice.
  lemma Alone(v: Colours, s: Id) returns (v1: Colours)
    requires Ok(SIBLINGS) && (s == 0 || s == 1) && Colour(v, s) == 0
    ensures Done(SIBLINGS, v, Sym(s, true), v1) && v1 == v[s := 1][s := 2]
  {
    hide Ok;
    v1 := v[s := 1][s := 2];
    assert Calls(SIBLINGS, Sym(s, true)) == [];
    Nothing(SIBLINGS, v[s := 1]);
    First(SIBLINGS, v, Sym(s, true), v[s := 1]);
  }

  // 3 finds 1 finished, and 2 finds 3 finished.
  lemma Two(v: Colours) returns (v1: Colours)
    requires Ok(SIBLINGS) && Colour(v, 1) == 2 && Colour(v, 2) == 0 && Colour(v, 3) == 0
    ensures Done(SIBLINGS, v, Sym(2, true), v1) && v1 == v[2 := 1][3 := 1][3 := 2][2 := 2]
  {
    hide Ok;
    var v2 := v[2 := 1][3 := 1];
    Again(SIBLINGS, v2, Sym(1, false));
    Single(SIBLINGS, v2, Sym(1, false), v2);
    assert Calls(SIBLINGS, Sym(3, false)) == [Sym(1, false)] by { DependentCalls(SIBLINGS, [1]); }
    First(SIBLINGS, v[2 := 1], Sym(3, false), v2);
    Single(SIBLINGS, v[2 := 1], Sym(3, false), v2[3 := 2]);
    assert Calls(SIBLINGS, Sym(2, true)) == [Sym(3, false)] by { DependentCalls(SIBLINGS, [3]); }
    First(SIBLINGS, v, Sym(2, true), v2[3 := 2]);
    v1 := v2[3 := 2][2 := 2];
  }

  lemma FromZero() returns (v1: Colours)
    requires Ok(SIBLINGS)
    ensures Done(SIBLINGS, map[], Sym(0, false), v1) && Colour(v1, 1) == 2 && Colour(v1, 2) == 2 && Colour(v1, 3) == 2
  {
    hide Ok, Done, DoneAll;
    var start: Colours := map[];
    var v0 := start[0 := 1];
    var v := v0[4 := 1];
    var after1 := Alone(v, 1);
    var after2 := Two(after1);
    Single(SIBLINGS, after1, Sym(2, true), after2);
    Then(SIBLINGS, v, Sym(1, true), after1, [Sym(2, true)], after2);
    MemberCalls();
    First(SIBLINGS, v0, Choice(4, Member(0)), after2);
    Single(SIBLINGS, v0, Choice(4, Member(0)), after2[4 := 2]);
    assert Calls(SIBLINGS, Sym(0, false)) == [Choice(4, Member(0))];
    First(SIBLINGS, start, Sym(0, false), after2[4 := 2]);
    v1 := after2[4 := 2][0 := 2];
  }

  lemma MemberCalls()
    ensures Calls(SIBLINGS, Choice(4, Member(0))) == [Sym(1, true)] + [Sym(2, true)]
  {
    var members := [0, 1, 2];
    assert members[1..] == [1, 2] && [1, 2][1..] == [2] && [2][1..] == [];
    assert ForMembers([2], Member(0)) == [Sym(2, true)] + ForMembers([2][1..], Member(0));
    assert ForMembers([1, 2], Member(0)) == [Sym(1, true)] + ForMembers([1, 2][1..], Member(0));
    assert ForMembers(members, Member(0)) == [] + ForMembers(members[1..], Member(0));
  }

  lemma SiblingsAgain(v: Colours)
    requires Ok(SIBLINGS) && Colour(v, 1) == 2 && Colour(v, 2) == 2 && Colour(v, 3) == 2
    ensures DoneAll(SIBLINGS, v, [Sym(1, false), Sym(2, false), Sym(3, false)], v)
  {
    hide Ok, Done, DoneAll;
    Again(SIBLINGS, v, Sym(1, false));
    Again(SIBLINGS, v, Sym(2, false));
    Again(SIBLINGS, v, Sym(3, false));
    Single(SIBLINGS, v, Sym(3, false), v);
    Then(SIBLINGS, v, Sym(2, false), v, [Sym(3, false)], v);
    assert [Sym(2, false)] + [Sym(3, false)] == [Sym(2, false), Sym(3, false)];
    Then(SIBLINGS, v, Sym(1, false), v, [Sym(2, false), Sym(3, false)], v);
    assert [Sym(1, false)] + [Sym(2, false), Sym(3, false)] == [Sym(1, false), Sym(2, false), Sym(3, false)];
  }

  lemma DoneIsNoLoop(g: Graph, v: Colours, calls: seq<Call>, v': Colours)
    requires DoneAll(g, v, calls, v')
    ensures Ok(g) && (forall call :: call in calls ==> CallOk(g, call)) && VisitAll(g, v, calls).out.NoLoop?
  {
  }

  // The search of one call, or of several, ends without a loop and with these colours.
  ghost predicate Done(g: Graph, v: Colours, call: Call, v': Colours) {
    Ok(g) && CallOk(g, call) && Visit(g, v, call) == Search(v', NoLoop)
  }

  ghost predicate DoneAll(g: Graph, v: Colours, calls: seq<Call>, v': Colours) {
    Ok(g) && (forall call :: call in calls ==> CallOk(g, call)) && VisitAll(g, v, calls) == Search(v', NoLoop)
  }

  lemma Nothing(g: Graph, v: Colours)
    requires Ok(g)
    ensures DoneAll(g, v, [], v)
  {
  }

  lemma Then(g: Graph, v: Colours, call: Call, v1: Colours, rest: seq<Call>, v2: Colours)
    requires Done(g, v, call, v1) && DoneAll(g, v1, rest, v2)
    ensures DoneAll(g, v, [call] + rest, v2)
  {
    var calls := [call] + rest;
    assert calls[0] == call && calls[1..] == rest;
  }

  lemma Single(g: Graph, v: Colours, call: Call, v1: Colours)
    requires Done(g, v, call, v1)
    ensures DoneAll(g, v, [call], v1)
  {
    Then(g, v, call, v1, [], v1);
    assert [call] + [] == [call];
  }

  lemma First(g: Graph, v: Colours, call: Call, v1: Colours)
    requires Ok(g) && CallOk(g, call) && Colour(v, call.id) == 0 && DoneAll(g, v[call.id := 1], Calls(g, call), v1)
    ensures Done(g, v, call, v1[call.id := 2])
  {
    FirstVisit(g, v, call);
  }

  lemma Again(g: Graph, v: Colours, call: Call)
    requires Ok(g) && CallOk(g, call) && Colour(v, call.id) == 2
    ensures Done(g, v, call, v)
  {
  }

  lemma SiblingLoop()
    ensures Ok(SIBLINGS) && IsLoop(SIBLINGS, [2, 4, 1, 3])
    ensures forall call :: call in Roots([0, 1, 2, 3]) ==> CallOk(SIBLINGS, call)
  {
    var w := [2, 3, 1, 4, 2];
    SiblingSteps();
    hide Dep, Own, Ok;
    assert Walk(SIBLINGS, w);
    assert HasDep(SIBLINGS, w) by { assert Dep(SIBLINGS, w[0], w[1]); }
    RoundIsLoop(SIBLINGS, w);
    assert Reverse(w[1..]) == [2, 4, 1, 3];
  }

  lemma SiblingSteps()
    ensures Ok(SIBLINGS) && Dep(SIBLINGS, 2, 3) && Dep(SIBLINGS, 3, 1) && Own(SIBLINGS, 4, 1) && Own(SIBLINGS, 4, 2)
    ensures forall call :: call in Roots([0, 1, 2, 3]) ==> CallOk(SIBLINGS, call)
  {
  }

  function Roots(all: seq<Id>): seq<Call> { seq(|all|, i requires 0 <= i < |all| => Sym(all[i], false)) }

  lemma RootsOk(g: Graph, all: seq<Id>)
    requires forall s :: s in all ==> IsSym(g, s)
    ensures forall call :: call in Roots(all) ==> CallOk(g, call)
  {
  }

  // Nothing is being visited at the start.
  lemma RootsTell(g: Graph, all: seq<Id>, out: Outcome)
    requires Ok(g) && (forall s :: s in all ==> IsSym(g, s)) && out == VisitAll(g, map[], Roots(all)).out
    ensures !out.Partial?
  {
    RootsOk(g, all);
    VisitAllLeadsBack(g, map[], Roots(all));
  }

  lemma RootsFinish(g: Graph, all: seq<Id>) returns (order: seq<Id>, entry: map<Id, Id>)
    requires Ok(g) && (forall s :: s in all <==> IsSym(g, s)) && VisitAll(g, map[], Roots(all)).out.NoLoop?
    ensures Finished(g, order, entry) && AllSymsIn(g, order)
  {
    hide VisitAll, Visit;
    var calls := Roots(all);
    RootsOk(g, all);
    assert Consistent(g, map[], {}, [], map[]);
    assert AllReady(g, calls, {}, Elements([]));
    order, entry := VisitAllFinishes(g, map[], calls, {}, [], map[]);
    forall s | IsSym(g, s) ensures s in order {
      var i :| 0 <= i < |all| && all[i] == s;
      assert calls[i] in calls && s in Ids(calls);
    }
  }

  lemma FirstVisit(g: Graph, v: Colours, call: Call)
    requires Ok(g) && CallOk(g, call) && Colour(v, call.id) == 0
    ensures White(g, v[call.id := 1]) < White(g, v) && forall next :: next in Calls(g, call) ==> CallOk(g, next)
    ensures var r := VisitAll(g, v[call.id := 1], Calls(g, call));
      Visit(g, v, call) == if r.out.NoLoop? then Search(r.visited[call.id := 2], NoLoop) else Search(r.visited, Found(r.out, call.id))
  {
    CallsOk(g, call);
    assert call.id in White(g, v) && call.id !in White(g, v[call.id := 1]);
  }

  lemma OtherVisit(g: Graph, v: Colours, call: Call)
    requires Ok(g) && CallOk(g, call) && Colour(v, call.id) != 0
    ensures Visit(g, v, call) == Search(v, if Colour(v, call.id) == 2 then NoLoop else Partial([call.id]))
  {
  }

  lemma OneCall(g: Graph, v: Colours, calls: seq<Call>, i: nat)
    requires Ok(g) && i < |calls| && forall call :: call in calls ==> CallOk(g, call)
    ensures var r := Visit(g, v, calls[i]);
      && VisitAll(g, v, calls[i..]) == (if r.out.NoLoop? then VisitAll(g, r.visited, calls[i + 1..]) else r)
      && White(g, r.visited) <= White(g, v) && (r.out.Partial? ==> r.out.loop != [])
  {
    assert calls[i..][1..] == calls[i + 1..];
  }

  // The calls for the members from the i-th on.
  ghost function VisitFrom(g: Graph, v: Colours, members: seq<Id>, i: nat, skip: Via): Search
    requires Ok(g) && i <= |members| && forall s :: s in members ==> IsSym(g, s)
  {
    VisitAll(g, v, ForMembers(members[i..], skip))
  }

  lemma AllMembers(g: Graph, v: Colours, c: Id, skip: Via)
    requires Ok(g) && CallOk(g, Choice(c, skip))
    ensures (forall s :: s in g.syms[c] ==> IsSym(g, s)) && forall call :: call in Calls(g, Choice(c, skip)) ==> CallOk(g, call)
    ensures VisitAll(g, v, Calls(g, Choice(c, skip))) == VisitFrom(g, v, g.syms[c], 0, skip)
  {
    hide VisitAll;
    assert g.syms[c][0..] == g.syms[c];
  }

  lemma MemberCall(g: Graph, v: Colours, members: seq<Id>, i: nat, skip: Via)
    requires Ok(g) && i < |members| && forall s :: s in members ==> IsSym(g, s)
    ensures CallOk(g, Sym(members[i], true))
    ensures var rest := VisitFrom(g, v, members, i, skip);
      if skip == Member(members[i]) then rest == VisitFrom(g, v, members, i + 1, skip)
      else
        var r := Visit(g, v, Sym(members[i], true));
        && rest == (if r.out.NoLoop? then VisitFrom(g, r.visited, members, i + 1, skip) else r)
        && White(g, r.visited) <= White(g, v) && (r.out.Partial? ==> r.out.loop != [])
  {
    var rest := ForMembers(members[i + 1..], skip);
    assert members[i..][0] == members[i] && members[i..][1..] == members[i + 1..];
    assert ForMembers(members[i..], skip) == (if skip == Member(members[i]) then [] else [Sym(members[i], true)]) + rest;
    hide Ok, White, ForMembers;
    if skip != Member(members[i]) {
      assert ([Sym(members[i], true)] + rest)[1..] == rest;
    } else {
      assert [] + rest == rest;
    }
  }

  lemma NoMoreMembers(g: Graph, v: Colours, members: seq<Id>, skip: Via)
    requires Ok(g) && forall s :: s in members ==> IsSym(g, s)
    ensures VisitFrom(g, v, members, |members|, skip) == Search(v, NoLoop)
  {
    assert members[|members|..] == [];
  }

  lemma NoMoreCalls(g: Graph, v: Colours, calls: seq<Call>)
    requires Ok(g) && calls == []
    ensures VisitAll(g, v, calls) == Search(v, NoLoop)
  {
  }

  lemma SymCalls(g: Graph, s: Id, ignoreChoice: bool)
    requires Ok(g) && IsSym(g, s)
    ensures var calls, deps := Calls(g, Sym(s, ignoreChoice)), g.dependents[s];
      && calls[0..] == calls && |calls| == |deps| + (if s in g.choiceOf && !ignoreChoice then 1 else 0)
      && (forall i :: 0 <= i < |deps| ==>
            calls[i] == (if deps[i] in g.syms then Choice(deps[i], Dependent) else Sym(deps[i], false)) && CallOk(g, calls[i]))
      && (s in g.choiceOf && !ignoreChoice ==> calls[|deps|] == Choice(g.choiceOf[s], Member(s)) && CallOk(g, calls[|deps|]))
  {
    DependentCalls(g, g.dependents[s]);
    CallsOk(g, Sym(s, ignoreChoice));
    var calls := Calls(g, Sym(s, ignoreChoice));
    forall i | 0 <= i < |calls| ensures CallOk(g, calls[i]) { assert calls[i] in calls; }
  }

  lemma {:induction false} DependentCalls(g: Graph, deps: seq<Id>)
    ensures forall i :: 0 <= i < |deps| ==>
      ForDependents(g, deps)[i] == if deps[i] in g.syms then Choice(deps[i], Dependent) else Sym(deps[i], false)
    decreases deps
  {
    if deps != [] { DependentCalls(g, deps[1..]); }
  }
}
