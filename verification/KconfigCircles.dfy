/**
  Configurations that pass the dependency-loop check of tools/kconfiglib.py although a value depends on
  itself: through MODULES, which every tristate symbol reads, through a symbol in a menu inside a choice,
  and through two symbols of a choice.
 */
module KconfigCircles {
  import opened Kconfig
  import opened KconfigCacheSpec
  import opened KconfigLoops
  import opened KconfigRanks
  import L = KconfigLoopSpec

  // The tristate symbol 1, without a prompt, is m by default; the symbol 2 is MODULES and depends on it.
  const BLIND := Model(map[
    1 := Symbol(true, [], [Default(Leaf(8), Leaf(9))], Leaf(7), Leaf(7), Leaf(9), Alone),
    2 := Symbol(false, [Leaf(1)], [], Leaf(7), Leaf(7), Leaf(1), Alone),
    8 := Constant(M),
    9 := Constant(Y)], 2)

  const BLIND_GRAPH := L.Graph(map[1 := [2], 2 := []], map[], map[])

  // There is no loop in `_dependents` here, and yet no evaluation of symbol 1 comes to an end: its value
  // needs that of MODULES, whose visibility needs its value.
  lemma CheckMissesModules()
    ensures WellBuilt(BLIND) && Joined(BLIND) && Describes(BLIND, BLIND_GRAPH) && forall loop :: !L.IsLoop(BLIND_GRAPH, loop)
    ensures Circle(BLIND, [Cell(1, Tri), Cell(2, Tri), Cell(2, Vis), Cell(1, Tri)])
  {
    BlindDependencies();
    forall loop ensures !L.IsLoop(BLIND_GRAPH, loop) { BlindHasNoLoop(loop); }
    BlindNeeds();
  }

  lemma BlindHasNoLoop(loop: seq<Id>)
    ensures !L.IsLoop(BLIND_GRAPH, loop)
  {
    var order := [2, 1];
    assert order[..1] == [2];
    assert L.Finished(BLIND_GRAPH, order, map[]);
    if L.IsLoop(BLIND_GRAPH, loop) {
      L.DirectRoundsAreFound(BLIND_GRAPH, order, map[], [loop[0]] + L.Reverse(loop));
    }
  }

  lemma BlindDependencies()
    ensures WellBuilt(BLIND) && Joined(BLIND) && Describes(BLIND, BLIND_GRAPH)
  {
    BlindIsJoined();
    hide WellBuilt, Joined;
    assert Recorded(BLIND, 1) == {7, 8, 9} && Recorded(BLIND, 2) == {1, 7};
    assert forall y :: y != 1 && y != 2 ==> Recorded(BLIND, y) == {};
    hide Recorded;
  }

  lemma BlindIsJoined()
    ensures WellBuilt(BLIND) && Joined(BLIND)
  {
  }

  lemma BlindNeeds()
    ensures Circle(BLIND, [Cell(1, Tri), Cell(2, Tri), Cell(2, Vis), Cell(1, Tri)])
  {
    BlindBody();
    var k := (vis: int) => TriBody(BLIND, 1, vis);
    assert TriCode(BLIND, 1) == Switch(Cell(1, Vis), k);
    assert Tests(k(N), Cell(2, Tri));
    assert Needs(BLIND, Cell(1, Tri), Cell(2, Tri));
    assert Needs(BLIND, Cell(2, Tri), Cell(2, Vis));
    assert VisCode(BLIND, 2).Test? && VisCode(BLIND, 2).cell == Cell(1, Tri);
    assert Needs(BLIND, Cell(2, Vis), Cell(1, Tri));
  }

  lemma BlindBody()
    ensures TriBody(BLIND, 1, N) == Test(Cell(2, Tri), N, Ret(Y), Ret(M))
  {
    var it := Get(BLIND, 1);
    var kw := (w: int) => Ret(if w == Y then Y else M);
    assert ExprCode(BLIND, it.weakRevDep, kw) == kw(N) == Ret(M);
    var kt := (t: int) => if t == N then Ret(Y) else ExprCode(BLIND, it.weakRevDep, w => Ret(if w == Y then Y else M));
    assert kt(Y) == Ret(M) && kt(N) == Ret(Y);
    assert IsTristate(BLIND, it, kt) == Test(Cell(2, Tri), N, Ret(Y), Ret(M));
    assert FinishTri(BLIND, it, M) == IsTristate(BLIND, it, kt);
    var kr := (dep: int) =>
      if dep == N then FinishTri(BLIND, it, M) else ExprCode(BLIND, it.directDep, direct => FinishTri(BLIND, it, Max(dep, M)));
    assert SelectCode(BLIND, it, M) == ExprCode(BLIND, it.revDep, kr) == kr(N);
    assert ByDefault(BLIND, it) == SelectCode(BLIND, it, M) by { BlindDefault(); }
  }

  lemma BlindDefault()
    ensures ByDefault(BLIND, Get(BLIND, 1)) == SelectCode(BLIND, Get(BLIND, 1), M)
  {
    var it := Get(BLIND, 1);
    hide SelectCode;
    var k := (v: int) => SelectCode(BLIND, it, v);
    var ki := (val: int) => ImplyCode(BLIND, it, val, v => SelectCode(BLIND, it, v));
    assert ki(M) == k(M);
    assert Min(M, Y) == M;
    var kv := (v: int) => ki(Min(v, Y));
    assert ExprCode(BLIND, Leaf(8), kv) == kv(M) == ki(M);
    assert DefaultsCode(BLIND, it.defaults, ki) == ki(M);
  }

  // ----- through a menu inside a choice

  // Choice 4 with the symbol 1; 2, in a menu inside the choice, depends on the choice without being one of
  // its symbols; 3 is 2 by default, and the choice has a prompt if 3.
  const NESTED := Model(map[
    1 := Symbol(false, [Leaf(4)], [], Leaf(7), Leaf(7), Leaf(4), Of(4)),
    2 := Symbol(false, [Leaf(4)], [], Leaf(7), Leaf(7), Leaf(4), Alone),
    3 := Symbol(false, [], [Default(Leaf(2), Leaf(9))], Leaf(7), Leaf(7), Leaf(9), Alone),
    4 := Choice(false, [Leaf(3)], false, [1], []),
    9 := Constant(Y)], 7)

  // The check passes, as `MenuLoopIsMissed` says of this graph.
  lemma CheckMissesMenu()
    ensures WellBuilt(NESTED) && Joined(NESTED) && Describes(NESTED, MENU) && forall c :: !Stray(NESTED, c)
    ensures L.Ok(MENU) && forall call :: call in Roots([1, 2, 3]) ==> L.CallOk(MENU, call)
    ensures L.VisitAll(MENU, map[], Roots([1, 2, 3])).out.NoLoop?
    ensures Circle(NESTED, [Cell(4, Vis), Cell(3, Tri), Cell(2, Tri), Cell(2, Vis), Cell(4, Vis)])
  {
    hide *;
    MenuLoopIsMissed();
    NestedGraph();
    NestedNeeds();
  }

  lemma NestedRecorded()
    ensures Recorded(NESTED, 1) == {4, 7} && Recorded(NESTED, 2) == {4, 7} && Recorded(NESTED, 3) == {2, 7, 9}
    ensures Recorded(NESTED, 4) == {3}
  {
  }

  lemma NestedGraph()
    ensures WellBuilt(NESTED) && Joined(NESTED) && Describes(NESTED, MENU) && forall c :: !Stray(NESTED, c)
  {
    NestedItems();
    hide WellBuilt, Joined, Stray, Recorded;
    forall x, y | x in MENU.dependents ensures y in MENU.dependents[x] <==> x in Recorded(NESTED, y) { NestedDependents(x, y); }
  }

  lemma NestedItems()
    ensures WellBuilt(NESTED) && Joined(NESTED) && forall c :: !Stray(NESTED, c)
    ensures forall x :: x in MENU.dependents <==> !Get(NESTED, x).Constant?
  {
    NestedIsJoined();
    forall c ensures !Stray(NESTED, c) { NestedIsNotStray(c); }
  }

  lemma NestedIsJoined()
    ensures WellBuilt(NESTED) && Joined(NESTED)
  {
  }

  lemma NestedIsNotStray(c: Cell)
    ensures !Stray(NESTED, c)
  {
    NestedRecorded();
    hide Recorded, Dead;
  }

  lemma NestedDependents(x: Id, y: Id)
    requires x in MENU.dependents
    ensures y in MENU.dependents[x] <==> x in Recorded(NESTED, y)
  {
    NestedRecorded();
    if y !in NESTED.items || y == 9 { assert Recorded(NESTED, y) == {}; }
    hide Recorded;
  }

  lemma NestedNeeds()
    ensures Circle(NESTED, [Cell(4, Vis), Cell(3, Tri), Cell(2, Tri), Cell(2, Vis), Cell(4, Vis)])
  {
    hide Needs;
    NestedVisibilities();
    NestedValues();
  }

  lemma NestedVisibilities()
    ensures Needs(NESTED, Cell(4, Vis), Cell(3, Tri)) && Needs(NESTED, Cell(2, Vis), Cell(4, Vis))
  {
    assert VisCode(NESTED, 4).Test? && VisCode(NESTED, 4).cell == Cell(3, Tri);
    assert VisCode(NESTED, 2).Test? && VisCode(NESTED, 2).cell == Cell(4, Vis);
  }

  lemma NestedValues()
    ensures Needs(NESTED, Cell(3, Tri), Cell(2, Tri)) && Needs(NESTED, Cell(2, Tri), Cell(2, Vis))
  {
    ThreeNeedsTwo(NESTED, 3);
    assert TriCode(NESTED, 2).Test? && TriCode(NESTED, 2).cell == Cell(2, Vis);
  }

  // ----- between the symbols of a choice

  // Choice 4 with the symbols 0, which is not visible, 1 and 2; 1 depends on the symbol 3, which is 2 by
  // default.
  const TWISTED := Model(map[
    0 := Symbol(false, [And(Leaf(4), Leaf(7))], [], Leaf(7), Leaf(7), Leaf(4), Of(4)),
    1 := Symbol(false, [And(Leaf(4), Leaf(3))], [], Leaf(7), Leaf(7), Leaf(4), Of(4)),
    2 := Symbol(false, [Leaf(4)], [], Leaf(7), Leaf(7), Leaf(4), Of(4)),
    3 := Symbol(false, [], [Default(Leaf(2), Leaf(9))], Leaf(7), Leaf(7), Leaf(9), Alone),
    4 := Choice(false, [Leaf(9)], false, [0, 1, 2], []),
    9 := Constant(Y)], 7)

  // The check passes, as `SiblingLoopIsMissed` says of this graph, and yet the selection of the choice
  // needs the visibility of 1, which needs 3, which needs 2, which needs the selection.
  lemma CheckMissesSiblings()
    ensures WellBuilt(TWISTED) && Joined(TWISTED) && Describes(TWISTED, SIBLINGS) && forall c :: !Stray(TWISTED, c)
    ensures L.Ok(SIBLINGS) && forall call :: call in Roots([0, 1, 2, 3]) ==> L.CallOk(SIBLINGS, call)
    ensures L.VisitAll(SIBLINGS, map[], Roots([0, 1, 2, 3])).out.NoLoop?
    ensures Circle(TWISTED, [Cell(4, Sel), Cell(1, Vis), Cell(3, Tri), Cell(2, Tri), Cell(4, Sel)])
  {
    hide *;
    SiblingLoopIsMissed();
    TwistedGraph();
    TwistedNeeds();
  }

  lemma TwistedNeeds()
    ensures Circle(TWISTED, [Cell(4, Sel), Cell(1, Vis), Cell(3, Tri), Cell(2, Tri), Cell(4, Sel)])
  {
    SelectionReadsOne();
    OneReadsThree();
    ThreeNeedsTwo(TWISTED, 3);
    TwoReadsSelection();
    hide VisCode, TriCode, SelCode, Tests;
    assert Needs(TWISTED, Cell(4, Sel), Cell(1, Vis)) && Needs(TWISTED, Cell(1, Vis), Cell(3, Tri));
    assert Needs(TWISTED, Cell(3, Tri), Cell(2, Tri)) && Needs(TWISTED, Cell(2, Tri), Cell(4, Sel));
  }

  lemma TwistedGraph()
    ensures WellBuilt(TWISTED) && Joined(TWISTED) && Describes(TWISTED, SIBLINGS) && forall c :: !Stray(TWISTED, c)
  {
    TwistedItems();
    hide WellBuilt, Joined, Stray, Recorded;
    forall x, y | x in SIBLINGS.dependents ensures y in SIBLINGS.dependents[x] <==> x in Recorded(TWISTED, y) {
      TwistedDependents(x, y);
    }
  }

  lemma TwistedItems()
    ensures WellBuilt(TWISTED) && Joined(TWISTED) && forall c :: !Stray(TWISTED, c)
    ensures forall x :: x in SIBLINGS.dependents <==> !Get(TWISTED, x).Constant?
  {
    TwistedIsJoined();
    forall c ensures !Stray(TWISTED, c) { TwistedIsNotStray(c); }
    hide WellBuilt, Joined, Stray;
  }

  lemma TwistedIsJoined()
    ensures WellBuilt(TWISTED) && Joined(TWISTED)
  {
  }

  lemma TwistedIsNotStray(c: Cell)
    ensures !Stray(TWISTED, c)
  {
    TwistedRecorded();
    hide Recorded, Dead;
  }

  lemma TwistedDependents(x: Id, y: Id)
    requires x in SIBLINGS.dependents
    ensures y in SIBLINGS.dependents[x] <==> x in Recorded(TWISTED, y)
  {
    hide Recorded;
    TwistedRecordedIs(x, y);
  }

  predicate TwistedEdge(x: Id, y: Id) {
    (x == 4 && y <= 2) || (x == 3 && y == 1) || (x == 2 && y == 3)
  }

  lemma TwistedRecordedIs(x: Id, y: Id)
    requires x <= 4
    ensures x in Recorded(TWISTED, y) <==> TwistedEdge(x, y)
  {
    TwistedRecorded();
    if y !in [0, 1, 2, 3, 4] { assert Recorded(TWISTED, y) == {}; }
    hide Recorded;
  }

  lemma TwistedRecorded()
    ensures Recorded(TWISTED, 0) == {4, 7} && Recorded(TWISTED, 1) == {3, 4, 7} && Recorded(TWISTED, 2) == {4, 7}
    ensures Recorded(TWISTED, 3) == {2, 7, 9} && Recorded(TWISTED, 4) == {9} && Recorded(TWISTED, 9) == {}
  {
  }

  lemma ChoiceTriTests(m: Model, id: Id, k: int -> Code, c: Cell)
    requires Tests(k(Y), c)
    ensures Tests(ChoiceTri(m, id, false, false, k), c)
  {
    var k2 := (vis: int) => Mode(id, false, val =>
        if Min(val, vis) == M then (if false then IfModules(m, k(M), k(Y)) else k(Y)) else k(Min(val, vis)));
    assert ChoiceTri(m, id, false, false, k) == Switch(Cell(id, Vis), k2);
    var k1 := (val: int) => if Min(val, M) == M then (if false then IfModules(m, k(M), k(Y)) else k(Y)) else k(Min(val, M));
    assert k2(M) == Mode(id, false, k1);
    assert Min(M, M) == M && k1(M) == k(Y);
    assert Tests(k2(M), c);
  }

  lemma SelectionReadsOne()
    ensures Tests(SelCode(TWISTED, 4), Cell(1, Vis))
  {
    var syms := [0, 1, 2];
    var k := (v: int) => if v != Y then Ret(NO_SYMBOL) else UserSelected(4, syms, FromDefaults(TWISTED, [], syms));
    assert SelCode(TWISTED, 4) == ChoiceTri(TWISTED, 4, false, false, k);
    assert syms[1..] == [1, 2] && [1, 2][0] == 1;
    assert Tests(UserSelected(4, syms[1..], FromDefaults(TWISTED, [], syms)), Cell(1, Vis));
    assert Tests(k(Y), Cell(1, Vis));
    ChoiceTriTests(TWISTED, 4, k, Cell(1, Vis));
  }

  lemma OneReadsThree()
    ensures Tests(VisCode(TWISTED, 1), Cell(3, Tri))
  {
    var it := Get(TWISTED, 1);
    var last := (vis: int) =>
      match it.inChoice
      case Alone => Promote(TWISTED, Get(TWISTED, 1), vis)
      case Of(c) => ChoiceSymVis(TWISTED, Get(TWISTED, 1), c, vis);
    var k := (v: int) => PromptsCode(TWISTED, it.prompts[1..], Max(N, v), last);
    var k1 := (v1: int) => if v1 == N then k(N) else ExprCode(TWISTED, Leaf(3), v2 => k(Min(v1, v2)));
    assert VisCode(TWISTED, 1) == ExprCode(TWISTED, it.prompts[0], k) == ExprCode(TWISTED, Leaf(4), k1);
    assert ExprCode(TWISTED, Leaf(4), k1) == ChoiceTri(TWISTED, 4, false, false, k1);
    assert Tests(k1(Y), Cell(3, Tri));
    ChoiceTriTests(TWISTED, 4, k1, Cell(3, Tri));
  }

  // In both models symbol 3 is 2 by default.
  lemma ThreeNeedsTwo(m: Model, id: Id)
    requires (m == NESTED || m == TWISTED) && id == 3
    ensures Tests(TriCode(m, id), Cell(2, Tri))
  {
    var it := Get(m, 3);
    var ki := (val: int) => ImplyCode(m, it, val, v => SelectCode(m, it, v));
    var kv := (v: int) => ki(Min(v, Y));
    assert ByDefault(m, it) == DefaultsCode(m, it.defaults, ki) == ExprCode(m, Leaf(2), kv);
    assert Tests(TriBody(m, 3, N), Cell(2, Tri));
    var k := (vis: int) => TriBody(m, 3, vis);
    assert TriCode(m, 3) == Switch(Cell(3, Vis), k);
    assert Tests(k(N), Cell(2, Tri));
  }

  lemma TwoReadsSelection()
    ensures Tests(TriCode(TWISTED, 2), Cell(4, Sel))
  {
    var k := (vis: int) => TriBody(TWISTED, 2, vis);
    assert TriCode(TWISTED, 2) == Switch(Cell(2, Vis), k);
    assert Tests(k(Y), Cell(4, Sel));
  }
}
