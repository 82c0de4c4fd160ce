/**
  What goes wrong at the stray cells of tools/kconfiglib.py, on a model with one of each kind: a choice
  whose default symbol lies outside the choice, so that the choice is missing from that symbol's
  dependents, and a choice symbol with its prompt outside the choice, which is missing from the choice's.
 */
module KconfigStray {
  import opened Kconfig
  import opened KconfigReads
  import opened KconfigCacheSpec
  import opened KconfigEngine

  // Choice 0 with the symbols 1 and 4 and the default 2; the symbol 2 is visible if the symbol 3 is y, and
  // the symbol 4 always.
  const STRAY := Model(map[
    0 := Choice(false, [Leaf(9)], false, [1, 4], [ChoiceDefault(2, Leaf(9))]),
    1 := Symbol(false, [Leaf(0)], [], Leaf(8), Leaf(8), Leaf(0), Of(0)),
    2 := Symbol(false, [Leaf(3)], [], Leaf(8), Leaf(8), Leaf(9), Alone),
    3 := Symbol(false, [Leaf(9)], [], Leaf(8), Leaf(8), Leaf(9), Alone),
    4 := Symbol(false, [Leaf(9)], [], Leaf(8), Leaf(8), Leaf(9), Of(0)),
    9 := Constant(Y)], 7)

  function Height(c: Cell): nat {
    match c.attr
    case Vis => if c.id == 1 then 1 else if c.id == 2 then 2 else 0
    case Tri => if c.id == 1 || c.id == 4 then 5 else if c.id == 2 then 3 else 1
    case Sel => 4
    case _ => 0
  }

  // What the formulas of STRAY read.
  predicate MayRead(c: Cell, d: Cell) {
    match c.attr
    case Vis => (c.id == 1 && d == Cell(0, Vis)) || (c.id == 1 && d == Cell(0, UserValue)) || (c.id == 2 && d == Cell(3, Tri))
    case Tri => d == Cell(c.id, Vis) || d == Cell(c.id, UserValue) || ((c.id == 1 || c.id == 4) && d.id == 0 && d.attr != Tri)
    case _ => ((d.id <= 2 || d.id == 4) && d.attr == Vis) || (d.id == 0 && IsInput(d))
  }

  lemma Dependencies()
    ensures DependsOn(STRAY, 0) == {1, 4, 9} && DependsOn(STRAY, 1) == {0, 8}
    ensures DependsOn(STRAY, 2) == {3, 8, 9} && DependsOn(STRAY, 3) == {8, 9} && DependsOn(STRAY, 4) == {8, 9}
  {
  }

  lemma VisReads(id: Id, p: Cell -> bool)
    requires id <= 4 && forall d :: MayRead(Cell(id, Vis), d) ==> p(d)
    ensures Covered(VisCode(STRAY, id), p)
  {
    Dependencies();
    hide DependsOn, VisCode;
    var c := Cell(id, Vis);
    if id == 1 {
      assert MayRead(c, Cell(0, Vis)) && MayRead(c, Cell(0, UserValue));
      VisOk(STRAY, 1, p);
    } else if id == 2 {
      assert MayRead(c, Cell(3, Tri));
      VisOk(STRAY, 2, p);
    } else if id == 3 {
      VisOk(STRAY, 3, p);
    } else if id == 4 {
      assert VisCode(STRAY, 4) == Ret(Y) by { FourVis(); }
    } else {
      assert VisCode(STRAY, 0) == Ret(Y) by { ChoiceVis(); }
    }
  }

  lemma ChoiceVis()
    ensures VisCode(STRAY, 0) == Ret(Y)
  {
  }

  lemma FourVis()
    ensures VisCode(STRAY, 4) == Ret(Y)
  {
  }

  lemma TriReads(id: Id, p: Cell -> bool)
    requires 1 <= id <= 4 && forall d :: MayRead(Cell(id, Tri), d) ==> p(d)
    ensures Covered(TriCode(STRAY, id), p)
  {
    hide DependsOn, TriCode;
    var c := Cell(id, Tri);
    assert MayRead(c, Cell(id, Vis)) && MayRead(c, Cell(id, UserValue));
    if id == 1 {
      assert MayRead(c, Cell(0, Vis)) && MayRead(c, Cell(0, UserValue)) && MayRead(c, Cell(0, Sel));
      TriOk(STRAY, 1, p);
    } else if id == 2 {
      TriOk(STRAY, 2, p);
    } else if id == 3 {
      TriOk(STRAY, 3, p);
    } else {
      assert MayRead(c, Cell(0, Vis)) && MayRead(c, Cell(0, UserValue)) && MayRead(c, Cell(0, Sel));
      TriOk(STRAY, 4, p);
    }
  }

  lemma SelReads(p: Cell -> bool)
    requires forall d :: MayRead(Cell(0, Sel), d) ==> p(d)
    ensures Covered(SelCode(STRAY, 0), p)
  {
    hide DependsOn, SelCode;
    var c := Cell(0, Sel);
    assert MayRead(c, Cell(0, Vis)) && MayRead(c, Cell(1, Vis)) && MayRead(c, Cell(2, Vis)) && MayRead(c, Cell(4, Vis));
    assert MayRead(c, Cell(0, UserValue)) && MayRead(c, Cell(0, UserSelection));
    SelOk(STRAY, 0, p);
  }

  lemma ReadsCovered(c: Cell, p: Cell -> bool)
    requires c.id <= 4 && Cacheable(STRAY, c) && forall d :: MayRead(c, d) ==> p(d)
    ensures Covered(CodeOf(STRAY, c), p)
  {
    hide Covered, VisCode, TriCode, SelCode, MayRead;
    match c.attr
    case Vis => VisReads(c.id, p);
    case Tri => TriReads(c.id, p);
    case Sel => SelReads(p);
  }

  lemma HeightRanks()
    ensures Ranked(STRAY, Height)
  {
    hide Covered, VisCode, TriCode, SelCode;
    forall c: Cell ensures Below(Height, CodeOf(STRAY, c), Height(c)) {
      if c.id <= 4 && Cacheable(STRAY, c) {
        forall d | MayRead(c, d) ensures Lower(Height, Height(c))(d) {
          assert IsInput(d) || Height(d) < Height(c);
        }
        ReadsCovered(c, Lower(Height, Height(c)));
        CoveredIsBelow(Height, CodeOf(STRAY, c), Height(c));
      } else {
        NoCode(c);
      }
    }
  }

  lemma NoCode(c: Cell)
    requires !(c.id <= 4 && Cacheable(STRAY, c))
    ensures CodeOf(STRAY, c).Ret?
  {
  }

  // ----- the values that matter, with symbol 3 set to n or to y

  function Setting(v: int): Inputs { map[Cell(3, UserValue) := v] }

  ghost function ValueOf(v: int, c: Cell): int
    requires Ranked(STRAY, Height)
  {
    Value(STRAY, Height, Setting(v), c)
  }

  lemma ThreeIsSet(v: int)
    requires Ranked(STRAY, Height) && (v == N || v == Y)
    ensures ValueOf(v, Cell(3, Tri)) == v
  {
    assert VisCode(STRAY, 3) == Ret(Y);
    var it := Get(STRAY, 3);
    var body := TriBody(STRAY, 3, Y);
    var c := Cell(3, Tri);
    assert SelectCode(STRAY, it, Min(v, Y)) == Ret(v) by { assert FinishTri(STRAY, it, Min(v, Y)) == Ret(v); }
    UseRank(STRAY, Height, c);
    RunSwitch(STRAY, Height, Setting(v), Cell(3, Vis), vis => TriBody(STRAY, 3, vis), Height(c), Y);
    var k := (u: int) => SelectCode(STRAY, it, Min(u, Y));
    assert Exec(STRAY, Height, Setting(v), body, 1) == Exec(STRAY, Height, Setting(v), Switch(Cell(3, UserValue), k), 1);
    RunSwitch(STRAY, Height, Setting(v), Cell(3, UserValue), k, Height(c), v);
  }

  lemma TwoFollows(v: int)
    requires Ranked(STRAY, Height) && (v == N || v == Y)
    ensures ValueOf(v, Cell(2, Vis)) == v
  {
    ThreeIsSet(v);
    var c := Cell(2, Vis);
    assert VisCode(STRAY, 2) == Switch(Cell(3, Tri), t => Ret(if t == M then Y else t)) by {
      assert VisCode(STRAY, 2) == Test(Cell(3, Tri), N, Ret(N), Test(Cell(3, Tri), M, Ret(Y), Ret(Y)));
    }
    UseRank(STRAY, Height, c);
    RunSwitch(STRAY, Height, Setting(v), Cell(3, Tri), t => Ret(if t == M then Y else t), Height(c), v);
  }

  // The choice is in y mode.
  lemma RunChoice(u: Inputs, k: int -> Code, r: nat)
    requires Ranked(STRAY, Height) && Below(Height, ChoiceTri(STRAY, 0, false, false, k), r)
    requires Input(u, Cell(0, UserValue)) == NONE
    ensures Below(Height, k(Y), r)
    ensures Exec(STRAY, Height, u, ChoiceTri(STRAY, 0, false, false, k), r) == Exec(STRAY, Height, u, k(Y), r)
  {
    hide Ranked;
    ChoiceVis();
    var k1 := (val: int) => if Min(val, Y) == M then (if false then IfModules(STRAY, k(M), k(Y)) else k(Y)) else k(Min(val, Y));
    var k2 := (vis: int) => Mode(0, false, val =>
        if Min(val, vis) == M then (if false then IfModules(STRAY, k(M), k(Y)) else k(Y)) else k(Min(val, vis)));
    assert ChoiceTri(STRAY, 0, false, false, k) == Switch(Cell(0, Vis), k2);
    RunSwitch(STRAY, Height, u, Cell(0, Vis), k2, r, Y);
    assert k2(Y) == Mode(0, false, k1);
    assert Min(M, Y) == M;
    assert k1(M) == k(Y);
    assert Read(STRAY, Height, u, Cell(0, UserValue), r) == NONE;
  }

  lemma OneIsVisible(u: Inputs)
    requires Ranked(STRAY, Height) && Input(u, Cell(0, UserValue)) == NONE
    ensures Value(STRAY, Height, u, Cell(1, Vis)) == Y
  {
    hide Exec, Ranked, Below;
    var it := Get(STRAY, 1);
    var last := (vis: int) =>
      match it.inChoice
      case Alone => Promote(STRAY, Get(STRAY, 1), vis)
      case Of(c) => ChoiceSymVis(STRAY, Get(STRAY, 1), c, vis);
    var k := (v: int) => PromptsCode(STRAY, it.prompts[1..], Max(N, v), last);
    UseRank(STRAY, Height, Cell(1, Vis));
    assert VisCode(STRAY, 1) == ExprCode(STRAY, Leaf(0), k) == ChoiceTri(STRAY, 0, false, false, k);
    RunChoice(u, k, 1);
    assert k(Y) == last(Y) == Ret(Y);
    ReturnsIt(u, Y, 1);
  }

  lemma ReturnsIt(u: Inputs, v: int, r: nat)
    requires Ranked(STRAY, Height)
    ensures Exec(STRAY, Height, u, Ret(v), r) == v
  {
  }

  // The selection once the choice is known to be in y mode.
  function Selecting(): Code {
    var last := Test(Cell(4, Vis), N, Ret(NO_SYMBOL), Ret(4));
    var first := Test(Cell(1, Vis), N, last, Ret(1));
    var byDefault := Test(Cell(2, Vis), N, first, Ret(2));
    Test(Cell(0, UserSelection), 1, Test(Cell(1, Vis), N, byDefault, Ret(1)),
         Test(Cell(0, UserSelection), 4, Test(Cell(4, Vis), N, byDefault, Ret(4)), byDefault))
  }

  lemma SelectingCode()
    ensures UserSelected(0, [1, 4], FromDefaults(STRAY, [ChoiceDefault(2, Leaf(9))], [1, 4])) == Selecting()
  {
    var syms, defaults := [1, 4], [ChoiceDefault(2, Leaf(9))];
    assert syms[1..] == [4] && [4][1..] == [];
    assert FirstVisible([4]) == Test(Cell(4, Vis), N, FirstVisible([4][1..]), Ret(4));
    assert FirstVisible(syms) == Test(Cell(1, Vis), N, FirstVisible(syms[1..]), Ret(1));
    assert FromDefaults(STRAY, defaults[1..], syms) == FirstVisible(syms);
    var byDefault := FromDefaults(STRAY, defaults, syms);
    assert byDefault == Test(Cell(2, Vis), N, FirstVisible(syms), Ret(2));
    assert UserSelected(0, [4][1..], byDefault) == byDefault;
    assert UserSelected(0, syms[1..], byDefault) ==
           Test(Cell(0, UserSelection), 4, Test(Cell(4, Vis), N, byDefault, Ret(4)), byDefault);
  }

  lemma Select(u: Inputs)
    requires Ranked(STRAY, Height) && Input(u, Cell(0, UserValue)) == NONE
    ensures Below(Height, Selecting(), 4)
    ensures Value(STRAY, Height, u, Cell(0, Sel)) == Exec(STRAY, Height, u, Selecting(), 4)
  {
    hide Exec, Ranked, Below, UserSelected, Selecting;
    var syms, defaults := [1, 4], [ChoiceDefault(2, Leaf(9))];
    var k := (w: int) => if w != Y then Ret(NO_SYMBOL) else UserSelected(0, syms, FromDefaults(STRAY, defaults, syms));
    UseRank(STRAY, Height, Cell(0, Sel));
    assert SelCode(STRAY, 0) == ChoiceTri(STRAY, 0, false, false, k);
    RunChoice(u, k, 4);
    assert k(Y) == Selecting() by { SelectingCode(); }
  }

  lemma SelectionFollows(v: int)
    requires Ranked(STRAY, Height) && (v == N || v == Y)
    ensures ValueOf(v, Cell(0, Sel)) == if v == N then 1 else 2
  {
    var u := Setting(v);
    Select(u);
    hide Ranked, Value;
    TwoFollows(v);
    OneIsVisible(u);
    assert Read(STRAY, Height, u, Cell(0, UserSelection), 4) == NO_SYMBOL;
    assert Read(STRAY, Height, u, Cell(2, Vis), 4) == v;
    assert Read(STRAY, Height, u, Cell(1, Vis), 4) == Y;
  }

  // The settings after the user sets symbol 4 to y.
  function Chosen(): Inputs { SymbolSet(STRAY, Setting(N), 4, Y) }

  lemma FourIsSelected()
    requires Ranked(STRAY, Height)
    ensures Value(STRAY, Height, Chosen(), Cell(0, Sel)) == 4
  {
    var u := Chosen();
    Select(u);
    FourIsVisible(u);
    hide Ranked, Value;
    assert Read(STRAY, Height, u, Cell(0, UserSelection), 4) == 4;
    assert Read(STRAY, Height, u, Cell(4, Vis), 4) == Y;
  }

  lemma FourIsVisible(u: Inputs)
    requires Ranked(STRAY, Height)
    ensures Value(STRAY, Height, u, Cell(4, Vis)) == Y
  {
    FourVis();
  }

  lemma FourFollows(u: Inputs)
    requires Ranked(STRAY, Height)
    ensures Value(STRAY, Height, u, Cell(4, Tri)) == if Value(STRAY, Height, u, Cell(0, Sel)) == 4 then Y else N
  {
    hide Value;
    FourIsVisible(u);
    var c := Cell(4, Tri);
    var body := TriBody(STRAY, 4, Y);
    assert body == Test(Cell(0, Sel), 4, Ret(Y), Ret(N));
    UseRank(STRAY, Height, c);
    RunSwitch(STRAY, Height, u, Cell(4, Vis), vis => TriBody(STRAY, 4, vis), Height(c), Y);
    ByCode(u, c);
    assert Read(STRAY, Height, u, Cell(0, Sel), 5) == Value(STRAY, Height, u, Cell(0, Sel));
  }

  lemma ByCode(u: Inputs, c: Cell)
    requires Ranked(STRAY, Height) && !IsInput(c)
    ensures Below(Height, CodeOf(STRAY, c), Height(c))
    ensures Value(STRAY, Height, u, c) == Exec(STRAY, Height, u, CodeOf(STRAY, c), Height(c))
  {
  }

  // ----- stale values

  const CACHED: set<Cell> :=
    {Cell(0, Vis), Cell(1, Vis), Cell(2, Vis), Cell(3, Vis), Cell(3, Tri), Cell(0, Sel),
     Cell(4, Vis), Cell(4, Tri)}

  ghost function FullCache(): Cache
    requires Ranked(STRAY, Height)
  {
    map c | c in CACHED :: ValueOf(N, c)
  }

  lemma FullCacheIsFresh()
    requires Ranked(STRAY, Height)
    ensures Fresh(STRAY, Height, Setting(N), FullCache())
  {
    hide Covered, ReadsOf, Value, CodeOf, Ranked, Below, MayRead, Dead;
    var cache := FullCache();
    assert forall c :: c in cache <==> c in CACHED;
    forall c, d | c in cache && d in ReadsOf(STRAY, Height, Setting(N), c) ensures Held(STRAY, cache, d) {
      CachedReadsCached(c, d);
    }
  }

  predicate Kept(d: Cell) { Cell(d.id, Vis) in CACHED && (IsInput(d) || d in CACHED) }

  lemma CachedReadsCached(c: Cell, d: Cell)
    requires Ranked(STRAY, Height) && c in CACHED && d in ReadsOf(STRAY, Height, Setting(N), c)
    ensures Kept(d)
  {
    hide Covered, Value, CodeOf, Ranked, Below;
    assert forall d :: MayRead(c, d) ==> Kept(d);
    UseRank(STRAY, Height, c);
    ReadsCovered(c, Kept);
    CoveredReads(STRAY, Height, Setting(N), CodeOf(STRAY, c), Height(c), Kept, d);
  }

  lemma StrayIsBuilt()
    ensures WellBuilt(STRAY)
    ensures forall c :: Cacheable(STRAY, c) ==> (Stray(STRAY, c) <==> c == Cell(0, Sel) || c.id == 4)
  {
    Dependencies();
    hide DependsOn;
    assert forall d :: d in STRAY.items[0].choiceDefaults ==> d == ChoiceDefault(2, Leaf(9));
    assert STRAY.items[0].choiceDefaults[0] == ChoiceDefault(2, Leaf(9));
    assert StrayDefault(STRAY, 0, ChoiceDefault(2, Leaf(9)));
    assert Get(STRAY, 4).prompts[0] == Leaf(9);
  }

  // Symbol 3 goes from n to y.  Invalidation clears 3 and 2 but never reaches the choice, whose cached
  // selection is now wrong.
  lemma StrayDefaultGoesStale()
    ensures Ranked(STRAY, Height) && WellBuilt(STRAY) && Stray(STRAY, Cell(0, Sel))
    ensures
      var u' := SymbolSet(STRAY, Setting(N), 3, Y);
      var after := Drop(FullCache(), {2, 3});
      && Fresh(STRAY, Height, Setting(N), FullCache())
      && Invalidated(STRAY, FullCache(), after, 3, {2, 3})
      && Cell(0, Sel) in after && after[Cell(0, Sel)] == 1 && Value(STRAY, Height, u', Cell(0, Sel)) == 2
  {
    hide Fresh, Value, Invalidated, Ranked, WellBuilt, Stray;
    HeightRanks();
    FullCacheIsFresh();
    SelectionFollows(N);
    SelectionFollows(Y);
    assert SymbolSet(STRAY, Setting(N), 3, Y) == Setting(Y);
    InvalidatesTwoAndThree();
    StrayIsBuilt();
    assert Cacheable(STRAY, Cell(0, Sel));
  }

  // Symbol 4 is set to y.  This invalidates its choice and symbol 1, but not symbol 4 itself, which still
  // reads n.
  lemma StraySymbolGoesStale()
    ensures Ranked(STRAY, Height) && WellBuilt(STRAY) && Stray(STRAY, Cell(4, Tri))
    ensures
      var after := Drop(FullCache(), {0, 1});
      && Fresh(STRAY, Height, Setting(N), FullCache())
      && Invalidated(STRAY, FullCache(), after, 0, {0, 1})
      && Cell(4, Tri) in after && after[Cell(4, Tri)] == N && Value(STRAY, Height, Chosen(), Cell(4, Tri)) == Y
  {
    hide Fresh, Value, Invalidated, Ranked, WellBuilt, Stray;
    HeightRanks();
    FullCacheIsFresh();
    SelectionFollows(N);
    FourFollows(Setting(N));
    FourIsSelected();
    FourFollows(Chosen());
    InvalidatesZeroAndOne();
    StrayIsBuilt();
    assert Cacheable(STRAY, Cell(4, Tri));
  }

  lemma InvalidatesTwoAndThree()
    requires Ranked(STRAY, Height)
    ensures Invalidated(STRAY, FullCache(), Drop(FullCache(), {2, 3}), 3, {2, 3})
  {
    Dependencies();
    hide DependsOn, Value;
    var gone := {2, 3};
    assert Reached(STRAY, 2, 3);
    assert Justified(STRAY, gone, 3);
    forall x, g | g in gone && g in DependsOn(STRAY, x) ensures x == 2 {
      NoOthers(x);
    }
    assert Swept(STRAY, Drop(FullCache(), gone), gone);
  }

  // The choice and symbol 1 depend on each other.
  lemma InvalidatesZeroAndOne()
    requires Ranked(STRAY, Height)
    ensures Invalidated(STRAY, FullCache(), Drop(FullCache(), {0, 1}), 0, {0, 1})
  {
    Dependencies();
    hide DependsOn, Value;
    var gone := {0, 1};
    assert Reached(STRAY, 1, 0);
    assert Justified(STRAY, gone, 0);
    forall x, g | g in gone && g in DependsOn(STRAY, x) ensures x in gone {
      NoOthers(x);
    }
    assert Swept(STRAY, Drop(FullCache(), gone), gone);
  }

  lemma NoOthers(x: Id)
    ensures x > 4 ==> DependsOn(STRAY, x) == {}
  {
  }
}
