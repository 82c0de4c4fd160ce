/**
  What the dependency-loop check of tools/kconfiglib.py means for evaluation: where there is no loop,
  every value is well-defined, if no tristate symbol lies below MODULES.  The examples at the end are
  configurations that pass the check although a value depends on itself.
 */
module KconfigRanks {
  import opened Kconfig
  import opened KconfigReads
  import opened KconfigCacheSpec
  import opened KconfigEngine
  import opened KconfigLoops
  import L = KconfigLoopSpec

  // ----- when evaluation is well-founded

  predicate Tests(code: Code, c: Cell) {
    code.Test? && (code.cell == c || Tests(code.yes, c) || Tests(code.no, c))
  }

  // On some path the computation of c needs the value of d.
  predicate Needs(m: Model, c: Cell, d: Cell) { Tests(CodeOf(m, c), d) && !IsInput(d) }

  ghost predicate Chain(m: Model, cs: seq<Cell>) {
    |cs| >= 2 && forall i :: 0 <= i < |cs| - 1 ==> Needs(m, cs[i], cs[i + 1])
  }

  ghost predicate Circle(m: Model, cs: seq<Cell>) { Chain(m, cs) && cs[0] == cs[|cs| - 1] }

  // The condition that the cache theorems assume: no value needs itself, on any path.
  lemma RankedIffNoCircle(m: Model)
    ensures (exists rank: Cell -> nat :: Ranked(m, rank)) <==> forall cs :: !Circle(m, cs)
  {
    hide Ranked, Needs;
    if rank: Cell -> nat :| Ranked(m, rank) {
      forall cs ensures !Circle(m, cs) {
        if Circle(m, cs) { ChainDescends(m, rank, cs); }
      }
    }
    if forall cs :: !Circle(m, cs) {
      CountRanks(m);
      assert Ranked(m, Count(m));
    }
  }

  lemma {:induction false} TestsAreBelow(rank: Cell -> nat, code: Code, r: nat, c: Cell)
    requires Below(rank, code, r) && Tests(code, c) && !IsInput(c)
    ensures rank(c) < r
    decreases code
  {
    if code.cell != c {
      if Tests(code.yes, c) { TestsAreBelow(rank, code.yes, r, c); } else { TestsAreBelow(rank, code.no, r, c); }
    }
  }

  lemma {:induction false} BelowByTests(rank: Cell -> nat, code: Code, r: nat)
    requires forall d :: Tests(code, d) && !IsInput(d) ==> rank(d) < r
    ensures Below(rank, code, r)
    decreases code
  {
    if code.Test? {
      assert Tests(code, code.cell);
      forall d | Tests(code.yes, d) || Tests(code.no, d) ensures Tests(code, d) {}
      BelowByTests(rank, code.yes, r);
      BelowByTests(rank, code.no, r);
    }
  }

  lemma {:induction false} ChainDescends(m: Model, rank: Cell -> nat, cs: seq<Cell>)
    requires Ranked(m, rank) && Chain(m, cs)
    ensures rank(cs[|cs| - 1]) < rank(cs[0])
    decreases cs
  {
    hide Ranked, Tests, Below, CodeOf;
    assert Needs(m, cs[0], cs[0 + 1]);
    UseRank(m, rank, cs[0]);
    TestsAreBelow(rank, CodeOf(m, cs[0]), rank(cs[0]), cs[1]);
    if |cs| > 2 {
      forall i | 0 <= i < |cs[1..]| - 1 ensures Needs(m, cs[1..][i], cs[1..][i + 1]) {
        assert Needs(m, cs[i + 1], cs[i + 1 + 1]);
      }
      ChainDescends(m, rank, cs[1..]);
    }
  }

  // The cells that the computation of c needs, directly or through others.
  ghost predicate NeededBy(m: Model, c: Cell, d: Cell) { exists cs :: Chain(m, cs) && cs[0] == c && cs[|cs| - 1] == d }

  ghost function Cells(m: Model): set<Cell> {
    set id, a | id in m.items && a in {Vis, Tri, Sel} :: Cell(id, a)
  }

  ghost function From(m: Model, c: Cell): set<Cell> { set d | d in Cells(m) && NeededBy(m, c, d) }

  ghost function Count(m: Model): Cell -> nat {
    (c: Cell) => (if CodeOf(m, c).Ret? then 0 else 1) + |From(m, c)|
  }

  lemma CountRanks(m: Model)
    requires forall cs :: !Circle(m, cs)
    ensures Ranked(m, Count(m))
  {
    var rank := Count(m);
    forall c: Cell ensures Below(rank, CodeOf(m, c), rank(c)) {
      hide CodeOf, Circle;
      forall d | Tests(CodeOf(m, c), d) && !IsInput(d) ensures rank(d) < rank(c) { NeedsFewer(m, c, d); }
      BelowByTests(rank, CodeOf(m, c), rank(c));
    }
  }

  lemma NeedsFewer(m: Model, c: Cell, d: Cell)
    requires Needs(m, c, d) && forall cs :: !Circle(m, cs)
    ensures Count(m)(d) < Count(m)(c)
  {
    hide Circle, Cells, CodeOf;
    assert CodeOf(m, c).Test?;
    if d in Cells(m) {
      Needed(m, c, d);
      assert d !in From(m, d) by { NotItself(m, d); }
      forall e | e in From(m, d) ensures e in From(m, c) { NeededThrough(m, c, d, e); }
      Smaller(From(m, d), From(m, c), d);
    } else {
      OutsideIsRet(m, d);
      forall e ensures !NeededBy(m, d, e) { RetNeedsNothing(m, d, e); }
    }
  }

  lemma Needed(m: Model, c: Cell, d: Cell)
    requires Needs(m, c, d)
    ensures NeededBy(m, c, d)
  {
    var cs := [c, d];
    assert Chain(m, cs) && cs[0] == c && cs[|cs| - 1] == d;
  }

  lemma NotItself(m: Model, d: Cell)
    requires forall cs :: !Circle(m, cs)
    ensures !NeededBy(m, d, d)
  {
    if cs :| Chain(m, cs) && cs[0] == d && cs[|cs| - 1] == d { assert Circle(m, cs); }
  }

  lemma NeededThrough(m: Model, c: Cell, d: Cell, e: Cell)
    requires Needs(m, c, d) && NeededBy(m, d, e)
    ensures NeededBy(m, c, e)
  {
    hide Needs;
    var cs :| Chain(m, cs) && cs[0] == d && cs[|cs| - 1] == e;
    var more := [c] + cs;
    forall i | 0 <= i < |more| - 1 ensures Needs(m, more[i], more[i + 1]) {
      if i > 0 { assert Needs(m, cs[i - 1], cs[i - 1 + 1]); }
    }
    assert Chain(m, more) && more[0] == c && more[|more| - 1] == e;
  }

  lemma OutsideIsRet(m: Model, d: Cell)
    requires d !in Cells(m) && !IsInput(d)
    ensures CodeOf(m, d).Ret?
  {
    if d.id in m.items { InsideCells(m, d); }
  }

  lemma InsideCells(m: Model, d: Cell)
    requires d.id in m.items && !IsInput(d)
    ensures d in Cells(m)
  {
    assert d == Cell(d.id, d.attr);
  }

  lemma RetNeedsNothing(m: Model, d: Cell, e: Cell)
    requires CodeOf(m, d).Ret?
    ensures !NeededBy(m, d, e)
  {
    if cs :| Chain(m, cs) && cs[0] == d && cs[|cs| - 1] == e { ChainStarts(m, cs); }
  }

  lemma ChainStarts(m: Model, cs: seq<Cell>)
    requires Chain(m, cs)
    ensures CodeOf(m, cs[0]).Test?
  {
    assert Needs(m, cs[0], cs[0 + 1]);
  }

  // ----- the loop check and evaluation

  // `g` is what `_dependents` holds when the loop check runs, in some order.
  ghost predicate Describes(m: Model, g: L.Graph) {
    && (forall x :: x in g.dependents <==> !Get(m, x).Constant?)
    && (forall x, y :: x in g.dependents ==> (y in g.dependents[x] <==> x in Recorded(m, y)))
    && (forall c :: c in g.syms <==> Get(m, c).Choice?)
    && (forall c :: c in g.syms ==> g.syms[c] == Get(m, c).syms)
    && (forall s :: s in g.choiceOf <==> Get(m, s).Symbol? && Get(m, s).inChoice.Of?)
    && (forall s :: s in g.choiceOf ==> g.choiceOf[s] == Get(m, s).inChoice.choice)
  }

  // A choice symbol is listed in its choice, and defaults outside the choice are recorded.
  predicate Joined(m: Model) {
    forall x :: x in m.items ==> Listed(m, x) && DefaultsRecorded(m, x)
  }

  predicate Listed(m: Model, x: Id) {
    var it := Get(m, x);
    it.Symbol? && it.inChoice.Of? ==> Get(m, it.inChoice.choice).Choice? && x in Get(m, it.inChoice.choice).syms
  }

  predicate DefaultsRecorded(m: Model, x: Id) {
    Get(m, x).Choice? ==> forall d :: d in Get(m, x).choiceDefaults ==> !StrayDefault(m, x, d)
  }

  // `low` holds MODULES and all that it depends on, through symbols and choices, and no tristate item.
  ghost predicate NoTristateBelow(m: Model, low: set<Id>) {
    && m.modules in low
    && (forall x, y :: y in low && x in DependsOn(m, y) ==> x in low)
    && (forall y :: y in low && Get(m, y).Symbol? && Get(m, y).inChoice.Of? ==> Get(m, y).inChoice.choice in low)
    && (forall y :: y in low ==> !Tristate(Get(m, y)))
  }

  lemma DescribedIsOk(m: Model, g: L.Graph)
    requires WellBuilt(m) && Joined(m) && Describes(m, g)
    ensures L.Ok(g)
  {
    hide Recorded;
    forall x, y | x in g.dependents && y in g.dependents[x] ensures y in L.Nodes(g) {
      RecordedIsNotConstant(m, x, y);
    }
    forall s | s in g.choiceOf ensures g.choiceOf[s] in g.syms && s in g.syms[g.choiceOf[s]] {
      assert s in m.items;
    }
    forall c, s | c in g.syms && s in g.syms[c] ensures L.IsSym(g, s) {
      assert c in m.items;
    }
  }

  lemma RecordedIsNotConstant(m: Model, x: Id, y: Id)
    requires x in Recorded(m, y)
    ensures !Get(m, y).Constant?
  {
  }

  // ----- how many items depend on an item

  ghost predicate Leads(g: L.Graph, x: Id, y: Id) {
    exists w :: L.Walk(g, w) && L.HasDep(g, w) && w[0] == x && w[|w| - 1] == y
  }

  ghost function Above(g: L.Graph, x: Id): set<Id> { set y | y in L.Nodes(g) && Leads(g, x, y) }

  ghost predicate NoRound(g: L.Graph) { forall w :: !L.Round(g, w) }

  lemma StepThenLeads(g: L.Graph, x: Id, y: Id, z: Id)
    requires L.Step(g, x, y) && Leads(g, y, z)
    ensures Leads(g, x, z)
  {
    var w :| L.Walk(g, w) && L.HasDep(g, w) && w[0] == y && w[|w| - 1] == z;
    L.WalkJoin(g, [x, y], w);
    assert L.Walk(g, [x, y] + w[1..]);
  }

  lemma AboveGrows(g: L.Graph, x: Id, y: Id)
    requires L.Ok(g) && L.Step(g, x, y)
    ensures Above(g, y) <= Above(g, x)
  {
    forall z | z in Above(g, y) ensures z in Above(g, x) { StepThenLeads(g, x, y, z); }
  }

  lemma DepAbove(g: L.Graph, x: Id, y: Id)
    requires L.Ok(g) && NoRound(g) && L.Dep(g, x, y)
    ensures |Above(g, y)| < |Above(g, x)|
  {
    AboveGrows(g, x, y);
    var w := [x, y];
    assert L.Dep(g, w[0], w[1]);
    assert L.Walk(g, w) && Leads(g, x, y);
    if Leads(g, y, y) {
      var v :| L.Walk(g, v) && L.HasDep(g, v) && v[0] == y && v[|v| - 1] == y;
      assert L.Round(g, v);
    }
    Smaller(Above(g, y), Above(g, x), y);
  }

  lemma OwnAbove(g: L.Graph, c: Id, s: Id)
    requires L.Ok(g) && L.Own(g, c, s)
    ensures Above(g, c) == Above(g, s)
  {
    AboveGrows(g, c, s);
    AboveGrows(g, s, c);
  }

  lemma Smaller<T>(a: set<T>, b: set<T>, x: T)
    requires a <= b && x in b && x !in a
    ensures |a| < |b|
  {
    NotLarger(a, b - {x});
  }

  lemma {:induction false} NotLarger<T>(a: set<T>, b: set<T>)
    requires a <= b
    ensures |a| <= |b|
    decreases |a|
  {
    if a != {} {
      var x :| x in a;
      NotLarger(a - {x}, b - {x});
    }
  }

  // ----- the order of evaluation

  ghost function Depth(g: L.Graph, x: Id): (n: nat)
    ensures n <= |L.Nodes(g)|
  {
    NotLarger(Above(g, x), L.Nodes(g));
    |L.Nodes(g)| - |Above(g, x)|
  }

  // A choice's visibility comes before those of its symbols, these before its selection, and that before
  // the values of the symbols.
  ghost function Part(g: L.Graph, c: Cell): nat {
    match c.attr
    case Vis => if c.id in g.syms then 0 else 1
    case Sel => 2
    case Tri => 3
    case _ => 0
  }

  // What MODULES depends on comes first.
  ghost function RankIn(g: L.Graph, low: set<Id>, c: Cell): nat {
    if c.id !in L.Nodes(g) then 0
    else (if c.id in low then 0 else 4 * |L.Nodes(g)| + 4) + 4 * Depth(g, c.id) + Part(g, c)
  }

  ghost function Ranking(g: L.Graph, low: set<Id>): Cell -> nat { (c: Cell) => RankIn(g, low, c) }

  lemma DepIsLower(m: Model, g: L.Graph, low: set<Id>, c: Cell, d: Cell)
    requires Describes(m, g) && L.Ok(g) && NoRound(g) && NoTristateBelow(m, low)
    requires !Get(m, c.id).Constant? && !Get(m, d.id).Constant? && d.id in Recorded(m, c.id) && !L.Own(g, d.id, c.id)
    ensures RankIn(g, low, d) < RankIn(g, low, c)
  {
    assert L.Dep(g, d.id, c.id);
    assert c.id in low ==> d.id in low by { assert d.id in DependsOn(m, c.id); }
    hide Recorded, DependsOn, Describes, NoTristateBelow, L.Dep, NoRound, L.Own, L.Ok;
    DepAbove(g, d.id, c.id);
    DepIsNode(g, d.id, c.id);
  }

  lemma DepIsNode(g: L.Graph, x: Id, y: Id)
    requires L.Ok(g) && L.Dep(g, x, y)
    ensures x in L.Nodes(g) && y in L.Nodes(g)
  {
  }

  lemma OwnIsLower(g: L.Graph, low: set<Id>, c: Cell, d: Cell)
    requires L.Ok(g) && (c.id in low ==> d.id in low) && (L.Own(g, c.id, d.id) || L.Own(g, d.id, c.id)) && Part(g, d) < Part(g, c)
    ensures RankIn(g, low, d) < RankIn(g, low, c)
  {
    if L.Own(g, c.id, d.id) {
      OwnAbove(g, c.id, d.id);
      L.OwnIsSym(g, c.id, d.id);
    } else {
      OwnAbove(g, d.id, c.id);
      L.OwnIsSym(g, d.id, c.id);
    }
  }

  lemma ModulesIsLower(m: Model, g: L.Graph, low: set<Id>, c: Cell)
    requires NoTristateBelow(m, low) && c.id in L.Nodes(g) && c.id !in low
    ensures CanReadModules(m, Lower(Ranking(g, low), RankIn(g, low, c)))
  {
  }

  // An item can read what it is recorded to depend on, and the choice it belongs to.
  lemma CanReadRecorded(m: Model, g: L.Graph, low: set<Id>, c: Cell, x: Id)
    requires Describes(m, g) && L.Ok(g) && NoRound(g) && NoTristateBelow(m, low)
    requires !Get(m, c.id).Constant? && (c.id in low ==> x in low)
    requires (x in Recorded(m, c.id) && !L.Own(g, x, c.id)) || (L.Own(g, x, c.id) && Part(g, c) > 0)
    ensures CanRead(m, x, Lower(Ranking(g, low), RankIn(g, low, c)))
  {
    hide Recorded, RankIn;
    var p := Lower(Ranking(g, low), RankIn(g, low, c));
    match Get(m, x)
    case Constant(_) =>
    case Symbol(_, _, _, _, _, _, _) => DepIsLower(m, g, low, c, Cell(x, Tri));
    case Choice(tristate, _, _, _, _) =>
      if L.Own(g, x, c.id) {
        OwnIsLower(g, low, c, Cell(x, Vis));
      } else {
        DepIsLower(m, g, low, c, Cell(x, Vis));
      }
      assert IsInput(Cell(x, UserValue)) && p(Cell(x, UserValue)) && p(Cell(x, Vis));
      if tristate { ModulesIsLower(m, g, low, c); }
  }

  lemma CanReadAllRecorded(m: Model, g: L.Graph, low: set<Id>, c: Cell)
    requires Describes(m, g) && L.Ok(g) && NoRound(g) && NoTristateBelow(m, low)
    requires (Get(m, c.id).Symbol? && (c.attr == Vis || c.attr == Tri)) || Get(m, c.id).Choice?
    ensures CanReadAll(m, Recorded(m, c.id), Lower(Ranking(g, low), RankIn(g, low, c)))
  {
    forall x | x in Recorded(m, c.id) ensures CanRead(m, x, Lower(Ranking(g, low), RankIn(g, low, c))) {
      assert x in DependsOn(m, c.id);
      if L.Own(g, x, c.id) { L.OwnIsSym(g, x, c.id); }
      CanReadRecorded(m, g, low, c, x);
    }
  }

  lemma TypeIsLower(m: Model, g: L.Graph, low: set<Id>, c: Cell)
    requires Joined(m) && Describes(m, g) && L.Ok(g) && NoRound(g) && NoTristateBelow(m, low)
    requires (Get(m, c.id).Symbol? && (c.attr == Vis || c.attr == Tri)) || Get(m, c.id).Choice?
    ensures TypeKnown(m, Get(m, c.id), Lower(Ranking(g, low), RankIn(g, low, c)))
  {
    hide RankIn, Recorded;
    var it := Get(m, c.id);
    if Tristate(it) { ModulesIsLower(m, g, low, c); }
    if it.Symbol? && it.inChoice.Of? {
      assert c.id in m.items;
      assert L.Own(g, it.inChoice.choice, c.id);
      CanReadRecorded(m, g, low, c, it.inChoice.choice);
    }
  }

  lemma SymbolReadsLower(m: Model, g: L.Graph, low: set<Id>, c: Cell)
    requires Joined(m) && Describes(m, g) && L.Ok(g) && NoRound(g) && NoTristateBelow(m, low)
    requires Get(m, c.id).Symbol? && (c.attr == Vis || c.attr == Tri)
    ensures Covered(CodeOf(m, c), Lower(Ranking(g, low), RankIn(g, low, c)))
  {
    hide Recorded, Covered, VisCode, TriCode, RankIn;
    var it, p := Get(m, c.id), Lower(Ranking(g, low), RankIn(g, low, c));
    CanReadAllRecorded(m, g, low, c);
    TypeIsLower(m, g, low, c);
    match c.attr
    case Vis => VisOk(m, c.id, p);
    case Tri =>
      assert p(Cell(c.id, Vis)) by { SameItemIsLower(g, low, c, Cell(c.id, Vis)); }
      if it.inChoice.Of? {
        assert c.id in m.items;
        assert L.Own(g, it.inChoice.choice, c.id);
        OwnIsLower(g, low, c, Cell(it.inChoice.choice, Sel));
      }
      assert IsInput(Cell(c.id, UserValue)) && p(Cell(c.id, UserValue));
      KnownFromRecorded(m, c.id, p);
      TriOk(m, c.id, p);
  }

  lemma SameItemIsLower(g: L.Graph, low: set<Id>, c: Cell, d: Cell)
    requires c.id in L.Nodes(g) && d.id == c.id && Part(g, d) < Part(g, c)
    ensures RankIn(g, low, d) < RankIn(g, low, c)
  {
  }

  lemma KnownFromRecorded(m: Model, id: Id, p: Cell -> bool)
    requires Get(m, id).Symbol? && CanReadAll(m, Recorded(m, id), p) && TypeKnown(m, Get(m, id), p)
    requires p(Cell(id, UserValue))
    requires Get(m, id).inChoice.Of? ==> p(Cell(Get(m, id).inChoice.choice, Sel))
    ensures BodyKnown(m, id, Y, p)
  {
  }

  lemma ChoiceReadsLower(m: Model, g: L.Graph, low: set<Id>, c: Cell)
    requires WellBuilt(m) && Joined(m) && Describes(m, g) && L.Ok(g) && NoRound(g) && NoTristateBelow(m, low)
    requires Get(m, c.id).Choice? && (c.attr == Vis || c.attr == Sel)
    ensures Covered(CodeOf(m, c), Lower(Ranking(g, low), RankIn(g, low, c)))
  {
    hide Covered, VisCode, SelCode, RankIn;
    var it, p := Get(m, c.id), Lower(Ranking(g, low), RankIn(g, low, c));
    CanReadAllRecorded(m, g, low, c);
    TypeIsLower(m, g, low, c);
    match c.attr
    case Vis => VisOk(m, c.id, p);
    case Sel =>
      SameItemIsLower(g, low, c, Cell(c.id, Vis));
      assert IsInput(Cell(c.id, UserValue)) && IsInput(Cell(c.id, UserSelection));
      assert p(Cell(c.id, UserValue)) && p(Cell(c.id, UserSelection));
      forall s | s in it.syms ensures p(Cell(s, Vis)) { SymIsLower(m, g, low, c, s); }
      forall d | d in it.choiceDefaults ensures p(Cell(d.sym, Vis)) { DefaultIsLower(m, g, low, c, d); }
      SelOk(m, c.id, p);
  }

  lemma SymIsLower(m: Model, g: L.Graph, low: set<Id>, c: Cell, s: Id)
    requires Describes(m, g) && L.Ok(g) && NoTristateBelow(m, low) && Get(m, c.id).Choice? && c.attr == Sel && s in Get(m, c.id).syms
    ensures RankIn(g, low, Cell(s, Vis)) < RankIn(g, low, c)
  {
    hide RankIn, Recorded;
    assert L.Own(g, c.id, s);
    L.OwnIsSym(g, c.id, s);
    assert s in DependsOn(m, c.id);
    OwnIsLower(g, low, c, Cell(s, Vis));
  }

  lemma DefaultIsLower(m: Model, g: L.Graph, low: set<Id>, c: Cell, d: ChoiceDefault)
    requires Joined(m) && Describes(m, g) && L.Ok(g) && NoRound(g) && NoTristateBelow(m, low)
    requires Get(m, c.id).Choice? && c.attr == Sel && d in Get(m, c.id).choiceDefaults
    requires WellBuilt(m)
    ensures RankIn(g, low, Cell(d.sym, Vis)) < RankIn(g, low, c)
  {
    hide Recorded;
    assert c.id in m.items;
    if d.sym in Get(m, c.id).syms {
      SymIsLower(m, g, low, c, d.sym);
    } else if Get(m, d.sym).Symbol? {
      assert !StrayDefault(m, c.id, d);
      DepIsLower(m, g, low, c, Cell(d.sym, Vis));
    }
  }

  // Where no loop is, evaluation is well-founded.
  lemma AcyclicIsRanked(m: Model, g: L.Graph, low: set<Id>)
    requires WellBuilt(m) && Joined(m) && Describes(m, g) && NoTristateBelow(m, low)
    requires forall loop :: !L.IsLoop(g, loop)
    ensures Ranked(m, Ranking(g, low))
  {
    var rank := Ranking(g, low);
    DescribedIsOk(m, g);
    forall w ensures !L.Round(g, w) {
      if L.Round(g, w) { L.RoundIsLoop(g, w); }
    }
    hide RankIn, Recorded, Describes, Joined, NoTristateBelow, L.Ok, WellBuilt, L.Round, L.IsLoop;
    forall c: Cell ensures Below(rank, CodeOf(m, c), rank(c)) {
      if Get(m, c.id).Symbol? && (c.attr == Vis || c.attr == Tri) {
        SymbolReadsLower(m, g, low, c);
        CoveredIsBelow(rank, CodeOf(m, c), rank(c));
      } else if Get(m, c.id).Choice? && (c.attr == Vis || c.attr == Sel) {
        ChoiceReadsLower(m, g, low, c);
        CoveredIsBelow(rank, CodeOf(m, c), rank(c));
      }
    }
  }

  // If there are no hidden paths, the check passes exactly if there is no loop, and then every value has a
  // meaning; none that the engine gives out is stale if there are no stray cells either.
  method Load(m: Model, g: L.Graph, all: seq<Id>, ghost low: set<Id>) returns (r: L.Outcome, e: Engine?)
    requires WellBuilt(m) && Joined(m) && Describes(m, g) && NoTristateBelow(m, low)
    requires L.NoHiddenPaths(g) && forall s :: s in all <==> L.IsSym(g, s)
    ensures r.NoLoop? || (r.Error? && L.IsLoop(g, r.loop))
    ensures r.NoLoop? <==> forall loop :: !L.IsLoop(g, loop)
    ensures r.NoLoop? <==> e != null
    ensures e != null ==> e.Valid() && e.m == m && ((forall d :: !Stray(m, d)) ==> forall c :: Clean(m, e.rank, c))
  {
    e := null;
    DescribedIsOk(m, g);
    hide Describes, Joined, NoTristateBelow, L.Ok, L.NoHiddenPaths, L.IsLoop, L.Round;
    var check := new LoopCheck(g);
    r := check.CheckAll(all);
    if r.NoLoop? {
      AcyclicIsRanked(m, g, low);
      e := new Engine(m, Ranking(g, low));
      if forall d :: !Stray(m, d) {
        forall c ensures Clean(m, e.rank, c) { WithoutStrayAllClean(m, e.rank, c); }
      }
    }
  }
}
