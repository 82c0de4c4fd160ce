/**
  What the values of tools/kconfiglib.py are.

  `Kconfig` transcribes how a value is computed.  Here the values of expressions, visibilities, symbols
  and selections are described by the values they depend on, without the computation: what an expression
  means under an assignment (`KconfigExprSpec.Sem`), and for every model with a well-founded evaluation and
  all user values what `visibility`, `tri_value` and `selection` are in these terms.
 */
module KconfigValues {
  import opened Kconfig
  import opened KconfigReads
  import opened KconfigCacheSpec
  import opened KconfigEngine
  import E = KconfigExprSpec

  // Constants are n, m or y, and user values n, m, y or not set, which is all that the setters store.
  ghost predicate Proper(m: Model, u: Inputs) {
    && (forall id :: id in m.items && m.items[id].Constant? ==> N <= m.items[id].value <= Y)
    && forall id: Id :: N <= Input(u, Cell(id, UserValue)) <= NONE
  }

  // MODULES is a symbol and its value is not n.
  ghost predicate ModulesOn(m: Model, rank: Cell -> nat, u: Inputs)
    requires Ranked(m, rank)
  {
    Get(m, m.modules).Symbol? && Value(m, rank, u, Cell(m.modules, Tri)) != N
  }

  // What an item counts for in an expression.
  ghost function ItemVal(m: Model, rank: Cell -> nat, u: Inputs, id: Id): int
    requires Ranked(m, rank)
  {
    match Get(m, id)
    case Constant(v) => v
    case Symbol(_, _, _, _, _, _, _) => Value(m, rank, u, Cell(id, Tri))
    case Choice(tristate, _, isOptional, _, _) =>
      var user, vis := Input(u, Cell(id, UserValue)), Value(m, rank, u, Cell(id, Vis));
      var least := if isOptional then N else M;
      var mode := Min(if user == NONE then least else Max(least, user), vis);
      if mode == M && !(tristate && ModulesOn(m, rank, u)) then Y else mode
  }

  ghost function Env(m: Model, rank: Cell -> nat, u: Inputs): Id -> int
    requires Ranked(m, rank)
  {
    (id: Id) => ItemVal(m, rank, u, id)
  }

  ghost function Order(m: Model, rank: Cell -> nat, u: Inputs): (Id, Id) -> int
    requires Ranked(m, rank)
  {
    (a: Id, b: Id) => ItemVal(m, rank, u, a) - ItemVal(m, rank, u, b)
  }

  // The value of an expression, both operands of which always count.
  ghost function ExprVal(m: Model, rank: Cell -> nat, u: Inputs, e: Expr): int
    requires Ranked(m, rank)
  {
    E.Sem(e, Env(m, rank, u), Order(m, rank, u))
  }

  // The same with the short circuits.
  ghost function ShortVal(m: Model, rank: Cell -> nat, u: Inputs, e: Expr): int
    requires Ranked(m, rank)
  {
    E.ExprValue(e, Env(m, rank, u), Order(m, rank, u))
  }

  // All values of smaller rank are tristate values.
  ghost predicate InRange(m: Model, rank: Cell -> nat, u: Inputs, r: nat)
    requires Ranked(m, rank)
  {
    forall c: Cell {:trigger Value(m, rank, u, c)} :: (c.attr == Vis || c.attr == Tri) && rank(c) < r ==> N <= Value(m, rank, u, c) <= Y
  }

  ghost predicate Ready(m: Model, rank: Cell -> nat, u: Inputs, r: nat) {
    Ranked(m, rank) && Proper(m, u) && InRange(m, rank, u, r)
  }

  // ----- running the formulas

  lemma TestRuns(m: Model, rank: Cell -> nat, u: Inputs, c: Cell, v: int, yes: Code, no: Code, r: nat)
    requires Ranked(m, rank) && Below(rank, Test(c, v, yes, no), r)
    ensures IsInput(c) || rank(c) < r
    ensures Below(rank, yes, r) && Below(rank, no, r)
    ensures Exec(m, rank, u, Test(c, v, yes, no), r) ==
            if Value(m, rank, u, c) == v then Exec(m, rank, u, yes, r) else Exec(m, rank, u, no, r)
  {
    hide Ranked;
    assert KconfigCacheSpec.Read(m, rank, u, c, r) == Value(m, rank, u, c);
  }

  lemma SwitchRuns(m: Model, rank: Cell -> nat, u: Inputs, c: Cell, k: int -> Code, r: nat)
    requires Ready(m, rank, u, r) && Below(rank, Switch(c, k), r) && (c.attr == Vis || c.attr == Tri)
    ensures var v := Value(m, rank, u, c);
      N <= v <= Y && Below(rank, k(v), r) && Exec(m, rank, u, Switch(c, k), r) == Exec(m, rank, u, k(v), r)
  {
    hide Ranked, Proper;
    TestRuns(m, rank, u, c, N, k(N), Test(c, M, k(M), k(Y)), r);
    RunSwitch(m, rank, u, c, k, r, Value(m, rank, u, c));
  }

  lemma IfModulesRuns(m: Model, rank: Cell -> nat, u: Inputs, on: Code, off: Code, r: nat)
    requires Ready(m, rank, u, r) && Below(rank, IfModules(m, on, off), r)
    ensures var code := if ModulesOn(m, rank, u) then on else off;
      Below(rank, code, r) && Exec(m, rank, u, IfModules(m, on, off), r) == Exec(m, rank, u, code, r)
  {
    hide Ranked, Proper;
    if Get(m, m.modules).Symbol? {
      TestRuns(m, rank, u, Cell(m.modules, Tri), N, off, on, r);
    }
  }

  lemma ModeRuns(m: Model, rank: Cell -> nat, u: Inputs, id: Id, isOptional: bool, k: int -> Code, r: nat)
    requires Ready(m, rank, u, r) && Below(rank, Mode(id, isOptional, k), r)
    ensures var user := Input(u, Cell(id, UserValue));
      var least := if isOptional then N else M;
      var v := if user == NONE then least else Max(least, user);
      N <= v <= Y && Below(rank, k(v), r) && Exec(m, rank, u, Mode(id, isOptional, k), r) == Exec(m, rank, u, k(v), r)
  {
    hide Ranked;
    var c := Cell(id, UserValue);
    var least := if isOptional then N else M;
    var k' := (u: int) => k(Max(least, u));
    assert Value(m, rank, u, c) == Input(u, c);
    assert Mode(id, isOptional, k) == Test(c, NONE, k(least), Switch(c, k'));
    TestRuns(m, rank, u, c, NONE, k(least), Switch(c, k'), r);
    if Input(u, c) != NONE {
      RunSwitch(m, rank, u, c, k', r, Input(u, c));
    }
  }

  lemma ChoiceTriRuns(m: Model, rank: Cell -> nat, u: Inputs, id: Id, k: int -> Code, r: nat)
    requires Ready(m, rank, u, r) && Get(m, id).Choice?
    requires Below(rank, ChoiceTri(m, id, Get(m, id).tristate, Get(m, id).isOptional, k), r)
    ensures var v := ItemVal(m, rank, u, id);
      && N <= v <= Y && Below(rank, k(v), r)
      && Exec(m, rank, u, ChoiceTri(m, id, Get(m, id).tristate, Get(m, id).isOptional, k), r) == Exec(m, rank, u, k(v), r)
  {
    var tristate, isOptional := Get(m, id).tristate, Get(m, id).isOptional;
    var k2 := (vis: int) => Mode(id, isOptional, val =>
        if Min(val, vis) == M then (if tristate then IfModules(m, k(M), k(Y)) else k(Y)) else k(Min(val, vis)));
    assert ChoiceTri(m, id, tristate, isOptional, k) == Switch(Cell(id, Vis), k2);
    hide Ready, Ranked, Below, Exec, Mode, Switch, ChoiceTri, IfModules, ModulesOn;
    SwitchRuns(m, rank, u, Cell(id, Vis), k2, r);
    var vis := Value(m, rank, u, Cell(id, Vis));
    var k1 := (val: int) => if Min(val, vis) == M then (if tristate then IfModules(m, k(M), k(Y)) else k(Y)) else k(Min(val, vis));
    assert k2(vis) == Mode(id, isOptional, k1);
    ModeRuns(m, rank, u, id, isOptional, k1, r);
    var user := Input(u, Cell(id, UserValue));
    var least := if isOptional then N else M;
    var val := if user == NONE then least else Max(least, user);
    if Min(val, vis) == M && tristate {
      assert k1(val) == IfModules(m, k(M), k(Y));
      IfModulesRuns(m, rank, u, k(M), k(Y), r);
    }
  }

  lemma TriOfRuns(m: Model, rank: Cell -> nat, u: Inputs, id: Id, k: int -> Code, r: nat)
    requires Ready(m, rank, u, r) && Below(rank, TriOf(m, id, k), r)
    ensures var v := ItemVal(m, rank, u, id);
      N <= v <= Y && Below(rank, k(v), r) && Exec(m, rank, u, TriOf(m, id, k), r) == Exec(m, rank, u, k(v), r)
  {
    match Get(m, id)
    case Constant(v) =>
    case Symbol(_, _, _, _, _, _, _) => SwitchRuns(m, rank, u, Cell(id, Tri), k, r);
    case Choice(_, _, _, _, _) => ChoiceTriRuns(m, rank, u, id, k, r);
  }

  lemma {:induction false} ExprRuns(m: Model, rank: Cell -> nat, u: Inputs, e: Expr, k: int -> Code, r: nat)
    requires Ready(m, rank, u, r) && Below(rank, ExprCode(m, e, k), r)
    ensures var v := ShortVal(m, rank, u, e);
      N <= v <= Y && Below(rank, k(v), r) && Exec(m, rank, u, ExprCode(m, e, k), r) == Exec(m, rank, u, k(v), r)
    decreases e
  {
    assert Ranked(m, rank);
    hide Ready, Ranked, Below, Exec, TriOf, ItemVal;
    match e
    case Leaf(id) => TriOfRuns(m, rank, u, id, k, r);
    case And(l, x) =>
      var k1 := (v1: int) => if v1 == N then k(N) else ExprCode(m, x, v2 => k(Min(v1, v2)));
      ExprRuns(m, rank, u, l, k1, r);
      var v1 := ShortVal(m, rank, u, l);
      if v1 != N {
        var k2 := (v2: int) => k(Min(v1, v2));
        assert k1(v1) == ExprCode(m, x, k2);
        ExprRuns(m, rank, u, x, k2, r);
      }
    case Or(l, x) =>
      var k1 := (v1: int) => if v1 == Y then k(Y) else ExprCode(m, x, v2 => k(Max(v1, v2)));
      ExprRuns(m, rank, u, l, k1, r);
      var v1 := ShortVal(m, rank, u, l);
      if v1 != Y {
        var k2 := (v2: int) => k(Max(v1, v2));
        assert k1(v1) == ExprCode(m, x, k2);
        ExprRuns(m, rank, u, x, k2, r);
      }
    case Not(x) => ExprRuns(m, rank, u, x, v => k(Y - v), r);
    case Relation(rel, a, b) =>
      var k1 := (v1: int) => TriOf(m, b, v2 => k(if RelHolds(rel, v1 - v2) then Y else N));
      TriOfRuns(m, rank, u, a, k1, r);
      var v1 := ItemVal(m, rank, u, a);
      var k2 := (v2: int) => k(if RelHolds(rel, v1 - v2) then Y else N);
      assert k1(v1) == TriOf(m, b, k2);
      TriOfRuns(m, rank, u, b, k2, r);
  }

  // The largest value of some conditions.
  ghost function Highest(m: Model, rank: Cell -> nat, u: Inputs, prompts: seq<Expr>): int
    requires Ranked(m, rank)
  {
    if prompts == [] then N else Max(ShortVal(m, rank, u, prompts[0]), Highest(m, rank, u, prompts[1..]))
  }

  lemma {:induction false} PromptsRuns(m: Model, rank: Cell -> nat, u: Inputs, prompts: seq<Expr>, vis: int, k: int -> Code, r: nat)
    requires Ready(m, rank, u, r) && Below(rank, PromptsCode(m, prompts, vis, k), r) && N <= vis <= Y
    ensures var v := Max(vis, Highest(m, rank, u, prompts));
      N <= v <= Y && Below(rank, k(v), r) && Exec(m, rank, u, PromptsCode(m, prompts, vis, k), r) == Exec(m, rank, u, k(v), r)
    decreases prompts
  {
    assert Ranked(m, rank);
    hide Ready, Ranked, Below, Exec, ShortVal;
    if prompts != [] {
      var k1 := (v: int) => PromptsCode(m, prompts[1..], Max(vis, v), k);
      ExprRuns(m, rank, u, prompts[0], k1, r);
      PromptsRuns(m, rank, u, prompts[1..], Max(vis, ShortVal(m, rank, u, prompts[0])), k, r);
    }
  }

  // The type: `tristate`, unless modules are off or, for a symbol of a choice, the choice is in y mode.
  ghost predicate IsTri(m: Model, rank: Cell -> nat, u: Inputs, it: Item)
    requires Ranked(m, rank)
  {
    && (it.Symbol? || it.Choice?) && it.tristate && ModulesOn(m, rank, u)
    && (it.Symbol? && it.inChoice.Of? ==> ItemVal(m, rank, u, it.inChoice.choice) != Y)
  }

  lemma IsTristateRuns(m: Model, rank: Cell -> nat, u: Inputs, it: Item, k: int -> Code, r: nat)
    requires Ready(m, rank, u, r) && Below(rank, IsTristate(m, it, k), r)
    ensures var v := if IsTri(m, rank, u, it) then Y else N;
      Below(rank, k(v), r) && Exec(m, rank, u, IsTristate(m, it, k), r) == Exec(m, rank, u, k(v), r)
  {
    assert Ranked(m, rank);
    hide Ready, Ranked, Below, Exec, TriOf, ItemVal, IfModules, ModulesOn;
    if it.Symbol? && it.tristate && it.inChoice.Of? {
      var k1 := (v: int) => if v == Y then k(N) else IfModules(m, k(Y), k(N));
      assert IsTristate(m, it, k) == TriOf(m, it.inChoice.choice, k1);
      TriOfRuns(m, rank, u, it.inChoice.choice, k1, r);
      if ItemVal(m, rank, u, it.inChoice.choice) != Y {
        IfModulesRuns(m, rank, u, k(Y), k(N), r);
      }
    } else if !it.Constant? && it.tristate {
      IfModulesRuns(m, rank, u, k(Y), k(N), r);
    }
  }

  lemma PromoteRuns(m: Model, rank: Cell -> nat, u: Inputs, it: Item, vis: int, r: nat)
    requires Ready(m, rank, u, r) && Below(rank, Promote(m, it, vis), r)
    ensures Exec(m, rank, u, Promote(m, it, vis), r) == if vis == M && !IsTri(m, rank, u, it) then Y else vis
  {
    if vis == M {
      IsTristateRuns(m, rank, u, it, t => Ret(if t == N then Y else M), r);
    }
  }

  // The visibility of a symbol of choice `c` whose prompts have the value h.
  ghost function InChoiceVis(m: Model, rank: Cell -> nat, u: Inputs, it: Item, c: Id, h: int): int
    requires Ranked(m, rank) && it.Symbol?
  {
    var mode := ItemVal(m, rank, u, c);
    if Get(m, c).Choice? && Get(m, c).tristate && !it.tristate && mode != Y then N
    else if it.tristate && h == M && mode == Y then N
    else if h == M && !IsTri(m, rank, u, it) then Y
    else h
  }

  lemma ChoiceSymVisRuns(m: Model, rank: Cell -> nat, u: Inputs, it: Item, c: Id, h: int, r: nat)
    requires Ready(m, rank, u, r) && it.Symbol? && it.inChoice == Of(c) && Below(rank, ChoiceSymVis(m, it, c, h), r)
    ensures Exec(m, rank, u, ChoiceSymVis(m, it, c, h), r) == InChoiceVis(m, rank, u, it, c, h)
  {
    assert Ranked(m, rank);
    var mode := ItemVal(m, rank, u, c);
    if Get(m, c).Choice? && Get(m, c).tristate && !it.tristate {
      var k := (v: int) => if v != Y then Ret(N) else Promote(m, it, h);
      assert ChoiceSymVis(m, it, c, h) == TriOf(m, c, k);
      TriOfRuns(m, rank, u, c, k, r);
      hide Ready, Ranked, Below, TriOf, ItemVal, Promote, IsTri;
      if mode == Y { PromoteRuns(m, rank, u, it, h, r); }
    } else if it.tristate && h == M {
      var k := (v: int) => if v == Y then Ret(N) else Promote(m, it, h);
      assert ChoiceSymVis(m, it, c, h) == TriOf(m, c, k);
      TriOfRuns(m, rank, u, c, k, r);
      hide Ready, Ranked, Below, TriOf, ItemVal, Promote, IsTri;
      if mode != Y { PromoteRuns(m, rank, u, it, h, r); }
    } else {
      hide Ready, Ranked, Below, TriOf, ItemVal, Promote, IsTri;
      PromoteRuns(m, rank, u, it, h, r);
    }
  }

  ghost function VisVal(m: Model, rank: Cell -> nat, u: Inputs, id: Id): int
    requires Ranked(m, rank)
  {
    var it := Get(m, id);
    if it.Constant? then N
    else
      var h := Highest(m, rank, u, it.prompts);
      if it.Symbol? && it.inChoice.Of? then InChoiceVis(m, rank, u, it, it.inChoice.choice, h)
      else if h == M && !IsTri(m, rank, u, it) then Y
      else h
  }

  lemma VisRuns(m: Model, rank: Cell -> nat, u: Inputs, id: Id)
    requires Ready(m, rank, u, rank(Cell(id, Vis)))
    ensures Value(m, rank, u, Cell(id, Vis)) == VisVal(m, rank, u, id) && N <= VisVal(m, rank, u, id) <= Y
  {
    var c, it, r := Cell(id, Vis), Get(m, id), rank(Cell(id, Vis));
    UseRank(m, rank, c);
    assert Value(m, rank, u, c) == Exec(m, rank, u, VisCode(m, id), r);
    hide Ready, Ranked, Below, Exec, Value, ItemVal, PromptsCode, Highest, IsTri;
    match it
    case Constant(_) => RetRuns(m, rank, u, N, r);
    case Choice(_, prompts, _, _, _) =>
      var k := (vis: int) => Promote(m, Get(m, id), vis);
      assert VisCode(m, id) == PromptsCode(m, prompts, N, k);
      PromptsRuns(m, rank, u, prompts, N, k, r);
      PromoteRuns(m, rank, u, it, Max(N, Highest(m, rank, u, prompts)), r);
      HighestNotNegative(m, rank, u, prompts);
    case Symbol(_, prompts, _, _, _, _, inChoice) =>
      var k := (vis: int) =>
        match inChoice
        case Alone => Promote(m, Get(m, id), vis)
        case Of(c) => ChoiceSymVis(m, Get(m, id), c, vis);
      assert VisCode(m, id) == PromptsCode(m, prompts, N, k);
      PromptsRuns(m, rank, u, prompts, N, k, r);
      HighestNotNegative(m, rank, u, prompts);
      var h := Highest(m, rank, u, prompts);
      match inChoice
      case Alone => PromoteRuns(m, rank, u, it, h, r);
      case Of(x) => ChoiceSymVisRuns(m, rank, u, it, x, h, r);
  }

  lemma RetRuns(m: Model, rank: Cell -> nat, u: Inputs, v: int, r: nat)
    requires Ranked(m, rank)
    ensures Below(rank, Ret(v), r) && Exec(m, rank, u, Ret(v), r) == v
  {
  }

  lemma {:induction false} HighestNotNegative(m: Model, rank: Cell -> nat, u: Inputs, prompts: seq<Expr>)
    requires Ranked(m, rank)
    ensures Highest(m, rank, u, prompts) >= N
  {
    if prompts != [] { HighestNotNegative(m, rank, u, prompts[1..]); }
  }

  // ----- tri_value

  // The first default whose condition is not n, or n.
  ghost function DefaultVal(m: Model, rank: Cell -> nat, u: Inputs, defaults: seq<Default>): int
    requires Ranked(m, rank)
  {
    if defaults == [] then N
    else if ShortVal(m, rank, u, defaults[0].cond) != N then
      Min(ShortVal(m, rank, u, defaults[0].value), ShortVal(m, rank, u, defaults[0].cond))
    else DefaultVal(m, rank, u, defaults[1..])
  }

  lemma {:induction false} DefaultsRuns(m: Model, rank: Cell -> nat, u: Inputs, defaults: seq<Default>, k: int -> Code, r: nat)
    requires Ready(m, rank, u, r) && Below(rank, DefaultsCode(m, defaults, k), r)
    ensures var v := DefaultVal(m, rank, u, defaults);
      N <= v <= Y && Below(rank, k(v), r) && Exec(m, rank, u, DefaultsCode(m, defaults, k), r) == Exec(m, rank, u, k(v), r)
    decreases defaults
  {
    assert Ranked(m, rank);
    hide Ready, Ranked, Below, Exec, ShortVal;
    if defaults != [] {
      var k1 := (dep: int) =>
        if dep != N then ExprCode(m, defaults[0].value, v => k(Min(v, dep))) else DefaultsCode(m, defaults[1..], k);
      ExprRuns(m, rank, u, defaults[0].cond, k1, r);
      var dep := ShortVal(m, rank, u, defaults[0].cond);
      if dep != N {
        var k2 := (v: int) => k(Min(v, dep));
        assert k1(dep) == ExprCode(m, defaults[0].value, k2);
        ExprRuns(m, rank, u, defaults[0].value, k2, r);
      } else {
        DefaultsRuns(m, rank, u, defaults[1..], k, r);
      }
    }
  }

  ghost function ImplyVal(m: Model, rank: Cell -> nat, u: Inputs, it: Item, v: int): int
    requires Ranked(m, rank) && it.Symbol?
  {
    var weak := ShortVal(m, rank, u, it.weakRevDep);
    if weak != N && ShortVal(m, rank, u, it.directDep) != N then Max(weak, v) else v
  }

  lemma ImplyRuns(m: Model, rank: Cell -> nat, u: Inputs, it: Item, val: int, k: int -> Code, r: nat)
    requires Ready(m, rank, u, r) && it.Symbol? && N <= val <= Y && Below(rank, ImplyCode(m, it, val, k), r)
    ensures var v := ImplyVal(m, rank, u, it, val);
      N <= v <= Y && Below(rank, k(v), r) && Exec(m, rank, u, ImplyCode(m, it, val, k), r) == Exec(m, rank, u, k(v), r)
  {
    assert Ranked(m, rank);
    hide Ready, Ranked, Below, Exec, ShortVal;
    var k1 := (dep: int) =>
      if dep == N then k(val)
      else ExprCode(m, it.directDep, direct => if direct != N then k(Max(dep, val)) else k(val));
    ExprRuns(m, rank, u, it.weakRevDep, k1, r);
    var dep := ShortVal(m, rank, u, it.weakRevDep);
    if dep != N {
      var k2 := (direct: int) => if direct != N then k(Max(dep, val)) else k(val);
      assert k1(dep) == ExprCode(m, it.directDep, k2);
      ExprRuns(m, rank, u, it.directDep, k2, r);
    }
  }

  // The value once it is known what the symbol would be without reverse dependencies.
  ghost function SelectVal(m: Model, rank: Cell -> nat, u: Inputs, it: Item, v: int): int
    requires Ranked(m, rank) && it.Symbol?
  {
    var w := Max(ShortVal(m, rank, u, it.revDep), v);
    if w == M && (!IsTri(m, rank, u, it) || ShortVal(m, rank, u, it.weakRevDep) == Y) then Y else w
  }

  lemma FinishRuns(m: Model, rank: Cell -> nat, u: Inputs, it: Item, w: int, r: nat)
    requires Ready(m, rank, u, r) && it.Symbol? && Below(rank, FinishTri(m, it, w), r)
    ensures Exec(m, rank, u, FinishTri(m, it, w), r) ==
            if w == M && (!IsTri(m, rank, u, it) || ShortVal(m, rank, u, it.weakRevDep) == Y) then Y else w
  {
    assert Ranked(m, rank);
    if w == M {
      var kw := (x: int) => Ret(if x == Y then Y else M);
      var k := (t: int) => if t == N then Ret(Y) else ExprCode(m, it.weakRevDep, x => Ret(if x == Y then Y else M));
      assert k(Y) == ExprCode(m, it.weakRevDep, kw) && k(N) == Ret(Y);
      assert FinishTri(m, it, w) == IsTristate(m, it, k);
      IsTristateRuns(m, rank, u, it, k, r);
      if IsTri(m, rank, u, it) {
        ExprRuns(m, rank, u, it.weakRevDep, kw, r);
      }
    }
  }

  lemma SelectRuns(m: Model, rank: Cell -> nat, u: Inputs, it: Item, val: int, r: nat)
    requires Ready(m, rank, u, r) && it.Symbol? && N <= val <= Y && Below(rank, SelectCode(m, it, val), r)
    ensures var v := SelectVal(m, rank, u, it, val);
      N <= v <= Y && Exec(m, rank, u, SelectCode(m, it, val), r) == v
  {
    assert Ranked(m, rank);
    hide Ready, Ranked, Below, Exec, ShortVal, FinishTri, IsTri;
    var k := (dep: int) =>
      if dep == N then FinishTri(m, it, val)
      else ExprCode(m, it.directDep, direct => FinishTri(m, it, Max(dep, val)));
    assert SelectCode(m, it, val) == ExprCode(m, it.revDep, k);
    ExprRuns(m, rank, u, it.revDep, k, r);
    var dep := ShortVal(m, rank, u, it.revDep);
    if dep != N {
      var k2 := (direct: int) => FinishTri(m, it, Max(dep, val));
      assert k(dep) == ExprCode(m, it.directDep, k2);
      ExprRuns(m, rank, u, it.directDep, k2, r);
    }
    FinishRuns(m, rank, u, it, Max(dep, val), r);
  }

  ghost function ByDefaultVal(m: Model, rank: Cell -> nat, u: Inputs, it: Item): int
    requires Ranked(m, rank) && it.Symbol?
  {
    ImplyVal(m, rank, u, it, DefaultVal(m, rank, u, it.defaults))
  }

  lemma ByDefaultRuns(m: Model, rank: Cell -> nat, u: Inputs, it: Item, r: nat)
    requires Ready(m, rank, u, r) && it.Symbol? && Below(rank, ByDefault(m, it), r)
    ensures var v := SelectVal(m, rank, u, it, ByDefaultVal(m, rank, u, it));
      N <= v <= Y && Exec(m, rank, u, ByDefault(m, it), r) == v
  {
    assert Ranked(m, rank);
    hide Ready, Ranked, Below, Exec, DefaultVal, ImplyVal, SelectVal, SelectCode, ImplyCode, DefaultsCode;
    var kSelect := (v: int) => SelectCode(m, it, v);
    var kImply := (val: int) => ImplyCode(m, it, val, v => SelectCode(m, it, v));
    assert ByDefault(m, it) == DefaultsCode(m, it.defaults, kImply);
    DefaultsRuns(m, rank, u, it.defaults, kImply, r);
    var v := DefaultVal(m, rank, u, it.defaults);
    assert kImply(v) == ImplyCode(m, it, v, kSelect);
    ImplyRuns(m, rank, u, it, v, kSelect, r);
    SelectRuns(m, rank, u, it, ImplyVal(m, rank, u, it, v), r);
  }

  ghost function TriVal(m: Model, rank: Cell -> nat, u: Inputs, id: Id): int
    requires Ranked(m, rank) && Get(m, id).Symbol?
  {
    var it, vis, user := Get(m, id), Value(m, rank, u, Cell(id, Vis)), Input(u, Cell(id, UserValue));
    match it.inChoice
    case Alone =>
      SelectVal(m, rank, u, it, if vis != N && user != NONE then Min(user, vis) else ByDefaultVal(m, rank, u, it))
    case Of(c) =>
      if vis == Y then (if Get(m, c).Choice? && Value(m, rank, u, Cell(c, Sel)) == id then Y else N)
      else if vis != N && user != NONE && user != N then M
      else N
  }

  lemma AloneRuns(m: Model, rank: Cell -> nat, u: Inputs, id: Id, r: nat)
    requires Ready(m, rank, u, r) && Get(m, id).Symbol? && Get(m, id).inChoice.Alone? && N <= Value(m, rank, u, Cell(id, Vis)) <= Y
    requires Below(rank, TriBody(m, id, Value(m, rank, u, Cell(id, Vis))), r)
    ensures Exec(m, rank, u, TriBody(m, id, Value(m, rank, u, Cell(id, Vis))), r) == TriVal(m, rank, u, id) && N <= TriVal(m, rank, u, id) <= Y
  {
    assert Ranked(m, rank);
    var it, vis, c := Get(m, id), Value(m, rank, u, Cell(id, Vis)), Cell(id, UserValue);
    if vis == N {
      ByDefaultRuns(m, rank, u, it, r);
    } else {
      var k := (x: int) => SelectCode(m, it, Min(x, vis));
      assert TriBody(m, id, vis) == Test(c, NONE, ByDefault(m, it), Switch(c, k));
      assert Value(m, rank, u, c) == Input(u, c);
      assert N <= Input(u, c) <= NONE;
      hide Ready, Ranked, Below, Exec, Value, SelectCode, ByDefault, Switch, TriBody, SelectVal;
      TestRuns(m, rank, u, c, NONE, ByDefault(m, it), Switch(c, k), r);
      if Input(u, c) == NONE {
        ByDefaultRuns(m, rank, u, it, r);
      } else {
        assert Ranked(m, rank);
        RunSwitch(m, rank, u, c, k, r, Input(u, c));
        SelectRuns(m, rank, u, it, Min(Input(u, c), vis), r);
      }
    }
  }

  lemma ChoiceSymRuns(m: Model, rank: Cell -> nat, u: Inputs, id: Id, r: nat)
    requires Ready(m, rank, u, r) && Get(m, id).Symbol? && Get(m, id).inChoice.Of? && N <= Value(m, rank, u, Cell(id, Vis)) <= Y
    requires Below(rank, TriBody(m, id, Value(m, rank, u, Cell(id, Vis))), r)
    ensures Exec(m, rank, u, TriBody(m, id, Value(m, rank, u, Cell(id, Vis))), r) == TriVal(m, rank, u, id) && N <= TriVal(m, rank, u, id) <= Y
  {
    var x, vis, c := Get(m, id).inChoice.choice, Value(m, rank, u, Cell(id, Vis)), Cell(id, UserValue);
    assert Value(m, rank, u, c) == Input(u, c);
    hide Ranked, Proper, InRange, Value;
    if vis == Y {
      if Get(m, x).Choice? { TestRuns(m, rank, u, Cell(x, Sel), id, Ret(Y), Ret(N), r); }
    } else if vis != N {
      TestRuns(m, rank, u, c, NONE, Ret(N), Test(c, N, Ret(N), Ret(M)), r);
      TestRuns(m, rank, u, c, N, Ret(N), Ret(M), r);
    }
  }

  lemma TriRuns(m: Model, rank: Cell -> nat, u: Inputs, id: Id)
    requires Ready(m, rank, u, rank(Cell(id, Tri))) && Get(m, id).Symbol?
    ensures Value(m, rank, u, Cell(id, Tri)) == TriVal(m, rank, u, id) && N <= TriVal(m, rank, u, id) <= Y
  {
    var c, r := Cell(id, Tri), rank(Cell(id, Tri));
    UseRank(m, rank, c);
    var k := (vis: int) => TriBody(m, id, vis);
    assert CodeOf(m, c) == TriCode(m, id) == Switch(Cell(id, Vis), k);
    assert Value(m, rank, u, c) == Exec(m, rank, u, TriCode(m, id), r);
    hide Ready, Ranked, Below, Exec, Value, TriBody, TriVal;
    SwitchRuns(m, rank, u, Cell(id, Vis), k, r);
    if Get(m, id).inChoice.Alone? { AloneRuns(m, rank, u, id, r); } else { ChoiceSymRuns(m, rank, u, id, r); }
  }

  // ----- all values are n, m or y

  lemma {:induction false} AllInRange(m: Model, rank: Cell -> nat, u: Inputs, r: nat)
    requires Ranked(m, rank) && Proper(m, u)
    ensures Ready(m, rank, u, r)
    decreases r
  {
    hide Ranked, Proper, Value;
    forall c: Cell | (c.attr == Vis || c.attr == Tri) && rank(c) < r ensures N <= Value(m, rank, u, c) <= Y {
      AllInRange(m, rank, u, rank(c));
      CellInRange(m, rank, u, c);
    }
  }

  lemma CellInRange(m: Model, rank: Cell -> nat, u: Inputs, c: Cell)
    requires Ready(m, rank, u, rank(c)) && (c.attr == Vis || c.attr == Tri)
    ensures N <= Value(m, rank, u, c) <= Y
  {
    if c.attr == Vis {
      VisRuns(m, rank, u, c.id);
    } else if Get(m, c.id).Symbol? {
      TriRuns(m, rank, u, c.id);
    } else {
      UseRank(m, rank, c);
    }
  }

  // So the short circuits do not matter.
  lemma ValuesAreTristate(m: Model, rank: Cell -> nat, u: Inputs)
    requires Ranked(m, rank) && Proper(m, u)
    ensures forall id :: N <= ItemVal(m, rank, u, id) <= Y
    ensures forall e :: ShortVal(m, rank, u, e) == ExprVal(m, rank, u, e) && N <= ExprVal(m, rank, u, e) <= Y
  {
    forall id ensures N <= ItemVal(m, rank, u, id) <= Y {
      AllInRange(m, rank, u, rank(Cell(id, Vis)) + 1);
      AllInRange(m, rank, u, rank(Cell(id, Tri)) + 1);
      ItemInRange(m, rank, u, id);
    }
    assert E.Tristate(Env(m, rank, u));
    forall e ensures ShortVal(m, rank, u, e) == ExprVal(m, rank, u, e) && N <= ExprVal(m, rank, u, e) <= Y {
      E.ShortCircuitsAreRight(e, Env(m, rank, u), Order(m, rank, u));
      E.SemRange(e, Env(m, rank, u), Order(m, rank, u));
    }
  }

  lemma ItemInRange(m: Model, rank: Cell -> nat, u: Inputs, id: Id)
    requires Ready(m, rank, u, rank(Cell(id, Vis)) + 1) && Ready(m, rank, u, rank(Cell(id, Tri)) + 1)
    ensures N <= ItemVal(m, rank, u, id) <= Y
  {
    hide Ranked, Value, ModulesOn;
    assert Ranked(m, rank);
    assert N <= Value(m, rank, u, Cell(id, Vis)) <= Y && N <= Value(m, rank, u, Cell(id, Tri)) <= Y;
    assert N <= Input(u, Cell(id, UserValue)) <= NONE;
  }

  // ----- the selection

  lemma {:induction false} FirstVisibleRuns(m: Model, rank: Cell -> nat, u: Inputs, syms: seq<Id>, r: nat) returns (i: nat)
    requires Ready(m, rank, u, r) && Below(rank, FirstVisible(syms), r)
    ensures i <= |syms| && (forall j :: 0 <= j < i ==> Value(m, rank, u, Cell(syms[j], Vis)) == N)
    ensures i < |syms| ==> Value(m, rank, u, Cell(syms[i], Vis)) != N
    ensures Exec(m, rank, u, FirstVisible(syms), r) == if i < |syms| then syms[i] else NO_SYMBOL
    decreases syms
  {
    i := 0;
    if syms != [] {
      assert Ranked(m, rank);
      TestRuns(m, rank, u, Cell(syms[0], Vis), N, FirstVisible(syms[1..]), Ret(syms[0]), r);
      hide Ready, Ranked, Below, Value;
      if Value(m, rank, u, Cell(syms[0], Vis)) == N {
        i := FirstVisibleRuns(m, rank, u, syms[1..], r);
        i := i + 1;
      }
    }
  }

  // A default applies if its condition is not n and its symbol is visible.
  ghost predicate Applies(m: Model, rank: Cell -> nat, u: Inputs, d: ChoiceDefault)
    requires Ranked(m, rank)
  {
    ShortVal(m, rank, u, d.cond) != N && Value(m, rank, u, Cell(d.sym, Vis)) != N
  }

  lemma {:induction false} FromDefaultsRuns(m: Model, rank: Cell -> nat, u: Inputs, defaults: seq<ChoiceDefault>, syms: seq<Id>, r: nat)
    returns (i: nat)
    requires Ready(m, rank, u, r) && Below(rank, FromDefaults(m, defaults, syms), r)
    ensures i <= |defaults| && forall j :: 0 <= j < i ==> !Applies(m, rank, u, defaults[j])
    ensures i < |defaults| ==>
      Applies(m, rank, u, defaults[i]) && Exec(m, rank, u, FromDefaults(m, defaults, syms), r) == defaults[i].sym
    ensures i == |defaults| ==>
      && Below(rank, FirstVisible(syms), r)
      && Exec(m, rank, u, FromDefaults(m, defaults, syms), r) == Exec(m, rank, u, FirstVisible(syms), r)
    decreases defaults
  {
    i := 0;
    if defaults != [] {
      assert Ranked(m, rank);
      var d, rest := defaults[0], FromDefaults(m, defaults[1..], syms);
      var byVis := Test(Cell(d.sym, Vis), N, rest, Ret(d.sym));
      var k := (v: int) =>
        if v == N then FromDefaults(m, defaults[1..], syms)
        else Test(Cell(defaults[0].sym, Vis), N, FromDefaults(m, defaults[1..], syms), Ret(defaults[0].sym));
      assert FromDefaults(m, defaults, syms) == ExprCode(m, d.cond, k);
      assert k(N) == rest && forall v :: v != N ==> k(v) == byVis;
      RetRuns(m, rank, u, d.sym, r);
      hide Ready, Ranked, Below, Exec, ShortVal, Value, ExprCode, FromDefaults;
      ExprRuns(m, rank, u, d.cond, k, r);
      if ShortVal(m, rank, u, d.cond) != N {
        TestRuns(m, rank, u, Cell(d.sym, Vis), N, rest, Ret(d.sym), r);
      }
      if !Applies(m, rank, u, d) {
        i := FromDefaultsRuns(m, rank, u, defaults[1..], syms, r);
        assert forall j :: 1 <= j < i + 1 ==> defaults[j] == defaults[1..][j - 1];
        i := i + 1;
      }
    }
  }

  lemma {:induction false} UserSelectedRuns(m: Model, rank: Cell -> nat, u: Inputs, id: Id, syms: seq<Id>, otherwise: Code, r: nat)
    requires Ready(m, rank, u, r) && Below(rank, UserSelected(id, syms, otherwise), r)
    ensures var x := Input(u, Cell(id, UserSelection));
      if exists s :: s in syms && s == x && Value(m, rank, u, Cell(s, Vis)) != N then
        Exec(m, rank, u, UserSelected(id, syms, otherwise), r) == x
      else
        Below(rank, otherwise, r) && Exec(m, rank, u, UserSelected(id, syms, otherwise), r) == Exec(m, rank, u, otherwise, r)
    decreases syms
  {
    if syms != [] {
      assert Ranked(m, rank);
      var c, s, rest := Cell(id, UserSelection), syms[0], UserSelected(id, syms[1..], otherwise);
      var byVis := Test(Cell(s, Vis), N, otherwise, Ret(s));
      assert UserSelected(id, syms, otherwise) == Test(c, s, byVis, rest);
      assert Value(m, rank, u, c) == Input(u, c);
      RetRuns(m, rank, u, s, r);
      hide Ready, Ranked, Below, Exec, Value, UserSelected;
      TestRuns(m, rank, u, c, s, byVis, rest, r);
      if Input(u, c) == s {
        TestRuns(m, rank, u, Cell(s, Vis), N, otherwise, Ret(s), r);
        assert s in syms;
        assert forall x :: x in syms && x == Input(u, c) ==> x == s;
      } else {
        UserSelectedRuns(m, rank, u, id, syms[1..], otherwise, r);
        assert forall x :: x in syms <==> x == s || x in syms[1..];
      }
    }
  }

  // ----- the theorems

  // Conjunction is the minimum and disjunction the maximum of both operands, negation mirrors n and y, and a
  // comparison is y or n.
  lemma ExpressionMeans(m: Model, rank: Cell -> nat, u: Inputs, l: Expr, x: Expr, rel: Rel, a: Id, b: Id)
    requires Ranked(m, rank) && Proper(m, u)
    ensures var v, w := ExprVal(m, rank, u, l), ExprVal(m, rank, u, x);
      && N <= v <= Y
      && ExprVal(m, rank, u, And(l, x)) == (if v < w then v else w)
      && ExprVal(m, rank, u, Or(l, x)) == (if v < w then w else v)
      && ExprVal(m, rank, u, Not(l)) == (if v == N then Y else if v == Y then N else M)
    ensures var v, w := ItemVal(m, rank, u, a), ItemVal(m, rank, u, b);
      && ExprVal(m, rank, u, Leaf(a)) == v
      && ExprVal(m, rank, u, Relation(rel, a, b)) ==
           if match rel
              case EQUAL => v == w
              case UNEQUAL => v != w
              case LESS => v < w
              case LESS_EQUAL => v <= w
              case GREATER => w < v
              case GREATER_EQUAL => w <= v
           then Y else N
  {
    ValuesAreTristate(m, rank, u);
    hide Ranked, ItemVal;
  }

  // The prompt conditions count with their maximum h.  It is cut off for a symbol of a choice in the wrong
  // mode, and m becomes y for what is not a tristate.
  lemma VisibilityIs(m: Model, rank: Cell -> nat, u: Inputs, id: Id) returns (h: int)
    requires Ranked(m, rank) && Proper(m, u) && !Get(m, id).Constant?
    ensures forall e :: e in Get(m, id).prompts ==> ExprVal(m, rank, u, e) <= h
    ensures h == N || exists e :: e in Get(m, id).prompts && ExprVal(m, rank, u, e) == h
    ensures var it, vis := Get(m, id), Value(m, rank, u, Cell(id, Vis));
      var modules := Get(m, m.modules).Symbol? && Value(m, rank, u, Cell(m.modules, Tri)) != N;
      if it.Choice? || it.inChoice.Alone? then
        vis == if h == M && !(it.tristate && modules) then Y else h
      else
        var c := it.inChoice.choice;
        var yMode := ItemVal(m, rank, u, c) == Y;
        vis == if Get(m, c).Choice? && Get(m, c).tristate && !it.tristate && !yMode then N
               else if it.tristate && h == M && yMode then N
               else if h == M && !(it.tristate && modules) then Y
               else h
  {
    AllInRange(m, rank, u, rank(Cell(id, Vis)));
    VisRuns(m, rank, u, id);
    ValuesAreTristate(m, rank, u);
    h := Highest(m, rank, u, Get(m, id).prompts);
    HighestIsMax(m, rank, u, Get(m, id).prompts);
    hide Ranked, Value, ItemVal, Highest, ShortVal, ExprVal;
  }

  lemma {:induction false} HighestIsMax(m: Model, rank: Cell -> nat, u: Inputs, prompts: seq<Expr>)
    requires Ranked(m, rank)
    ensures var h := Highest(m, rank, u, prompts);
      && (forall e :: e in prompts ==> ShortVal(m, rank, u, e) <= h)
      && (h == N || exists e :: e in prompts && ShortVal(m, rank, u, e) == h)
    decreases prompts
  {
    if prompts != [] {
      HighestIsMax(m, rank, u, prompts[1..]);
      assert prompts[0] in prompts;
      assert forall e :: e in prompts <==> e == prompts[0] || e in prompts[1..];
    }
  }

  lemma {:induction false} DefaultIs(m: Model, rank: Cell -> nat, u: Inputs, defaults: seq<Default>) returns (i: nat)
    requires Ranked(m, rank)
    ensures i <= |defaults| && forall j :: 0 <= j < i ==> ShortVal(m, rank, u, defaults[j].cond) == N
    ensures i < |defaults| ==> ShortVal(m, rank, u, defaults[i].cond) != N
    ensures DefaultVal(m, rank, u, defaults) ==
            if i < |defaults| then Min(ShortVal(m, rank, u, defaults[i].value), ShortVal(m, rank, u, defaults[i].cond)) else N
    decreases defaults
  {
    i := 0;
    if defaults != [] && ShortVal(m, rank, u, defaults[0].cond) == N {
      hide ShortVal;
      i := DefaultIs(m, rank, u, defaults[1..]);
      assert forall j :: 1 <= j < i + 1 ==> defaults[j] == defaults[1..][j - 1];
      i := i + 1;
    }
  }

  // A symbol outside choices.  Default number i is the first that applies.  Without reverse dependencies the
  // symbol is b: the user value up to the visibility if there is one and the symbol is visible; else the
  // default up to its condition, raised to the implied value if the direct dependencies are met.  Its value
  // is the larger of b and the value of the reverse dependencies, but m becomes y for what is not a
  // tristate or is implied to be y.
  lemma TriValueIs(m: Model, rank: Cell -> nat, u: Inputs, id: Id) returns (i: nat, b: int)
    requires Ranked(m, rank) && Proper(m, u) && Get(m, id).Symbol? && Get(m, id).inChoice.Alone?
    ensures var ds := Get(m, id).defaults;
      && i <= |ds|
      && (forall j :: 0 <= j < i ==> ExprVal(m, rank, u, ds[j].cond) == N)
      && (i < |ds| ==> ExprVal(m, rank, u, ds[i].cond) != N)
    ensures var it, vis, user := Get(m, id), Value(m, rank, u, Cell(id, Vis)), Input(u, Cell(id, UserValue));
      if vis != N && user != NONE then b == if user < vis then user else vis
      else
        var value := if i == |it.defaults| then N else ExprVal(m, rank, u, it.defaults[i].value);
        var cond := if i == |it.defaults| then N else ExprVal(m, rank, u, it.defaults[i].cond);
        var default := if value < cond then value else cond;
        var weak := ExprVal(m, rank, u, it.weakRevDep);
        b == if weak > default && ExprVal(m, rank, u, it.directDep) != N then weak else default
    ensures var it, val := Get(m, id), Value(m, rank, u, Cell(id, Tri));
      var rev, weak := ExprVal(m, rank, u, it.revDep), ExprVal(m, rank, u, it.weakRevDep);
      var modules := Get(m, m.modules).Symbol? && Value(m, rank, u, Cell(m.modules, Tri)) != N;
      var raised := if rev > b then rev else b;
      && val == (if raised == M && (!(it.tristate && modules) || weak == Y) then Y else raised)
      && rev <= val <= Y
  {
    AllInRange(m, rank, u, rank(Cell(id, Tri)));
    TriRuns(m, rank, u, id);
    ValuesAreTristate(m, rank, u);
    var it, vis, user := Get(m, id), Value(m, rank, u, Cell(id, Vis)), Input(u, Cell(id, UserValue));
    i := DefaultIs(m, rank, u, it.defaults);
    b := if vis != N && user != NONE then Min(user, vis) else ByDefaultVal(m, rank, u, it);
    hide Ranked, Value, ItemVal, DefaultVal, ShortVal, ExprVal;
  }

  // A symbol of a choice is y exactly if it is fully visible and the selection of the choice, and m exactly
  // if it is visible only up to m and the user asked for it.
  lemma ChoiceSymbolIs(m: Model, rank: Cell -> nat, u: Inputs, id: Id)
    requires Ranked(m, rank) && Proper(m, u) && Get(m, id).Symbol? && Get(m, id).inChoice.Of?
    ensures var c, val, vis := Get(m, id).inChoice.choice, Value(m, rank, u, Cell(id, Tri)), Value(m, rank, u, Cell(id, Vis));
      var user := Input(u, Cell(id, UserValue));
      && (val == Y <==> vis == Y && Get(m, c).Choice? && Value(m, rank, u, Cell(c, Sel)) == id)
      && (val == M <==> vis == M && user != N && user != NONE)
      && N <= val <= Y
  {
    AllInRange(m, rank, u, rank(Cell(id, Tri)));
    TriRuns(m, rank, u, id);
    AllInRange(m, rank, u, rank(Cell(id, Vis)) + 1);
    hide Ranked;
  }

  // The mode of a choice, wherever it is asked for: what the user set, but at least m unless the choice is
  // optional, and at most the visibility; m becomes y unless the choice is a tristate and modules are on.
  lemma ChoiceModeIs(m: Model, rank: Cell -> nat, u: Inputs, id: Id, k: int -> Code, r: nat)
    requires Ranked(m, rank) && Proper(m, u) && Get(m, id).Choice? && Below(rank, TriOf(m, id, k), r)
    ensures var it, user, vis := Get(m, id), Input(u, Cell(id, UserValue)), Value(m, rank, u, Cell(id, Vis));
      var modules := Get(m, m.modules).Symbol? && Value(m, rank, u, Cell(m.modules, Tri)) != N;
      var asked := if !it.isOptional && (user == N || user == NONE) then M else if user == NONE then N else user;
      var low := if asked < vis then asked else vis;
      var mode := if low == M && !(it.tristate && modules) then Y else low;
      mode == ItemVal(m, rank, u, id) && Below(rank, k(mode), r) && Exec(m, rank, u, TriOf(m, id, k), r) == Exec(m, rank, u, k(mode), r)
  {
    AllInRange(m, rank, u, r);
    TriOfRuns(m, rank, u, id, k, r);
    hide Ranked, Below, Exec, TriOf;
    assert N <= Input(u, Cell(id, UserValue)) <= NONE;
  }

  // The selection, in y mode alone: the symbol the user selected, if it is visible; else the symbol of the
  // first default, number i, whose condition holds and whose symbol is visible; else the first visible
  // symbol, number n; else none.
  lemma SelectionIs(m: Model, rank: Cell -> nat, u: Inputs, id: Id) returns (i: nat, n: nat)
    requires Ranked(m, rank) && Proper(m, u) && Get(m, id).Choice?
    ensures var ds := Get(m, id).choiceDefaults;
      && i <= |ds|
      && (forall j :: 0 <= j < i ==> ExprVal(m, rank, u, ds[j].cond) == N || Value(m, rank, u, Cell(ds[j].sym, Vis)) == N)
      && (i < |ds| ==> ExprVal(m, rank, u, ds[i].cond) != N && Value(m, rank, u, Cell(ds[i].sym, Vis)) != N)
    ensures var syms := Get(m, id).syms;
      && n <= |syms|
      && (forall j :: 0 <= j < n ==> Value(m, rank, u, Cell(syms[j], Vis)) == N)
      && (n < |syms| ==> Value(m, rank, u, Cell(syms[n], Vis)) != N)
    ensures var it, x := Get(m, id), Input(u, Cell(id, UserSelection));
      Value(m, rank, u, Cell(id, Sel)) ==
        if ItemVal(m, rank, u, id) != Y then NO_SYMBOL
        else if exists s :: s in it.syms && s == x && Value(m, rank, u, Cell(s, Vis)) != N then x
        else if i < |it.choiceDefaults| then it.choiceDefaults[i].sym
        else if n < |it.syms| then it.syms[n]
        else NO_SYMBOL
  {
    i := FirstApplies(m, rank, u, Get(m, id).choiceDefaults);
    n := FirstSeen(m, rank, u, Get(m, id).syms);
    ValuesAreTristate(m, rank, u);
    var c, r := Cell(id, Sel), rank(Cell(id, Sel));
    UseRank(m, rank, c);
    var it := Get(m, id);
    var Choice(tristate, _, isOptional, syms, defaults) := it;
    var otherwise := FromDefaults(m, defaults, syms);
    var k := (v: int) => if v != Y then Ret(NO_SYMBOL) else UserSelected(id, syms, FromDefaults(m, defaults, syms));
    assert SelCode(m, id) == ChoiceTri(m, id, tristate, isOptional, k);
    assert Value(m, rank, u, c) == Exec(m, rank, u, SelCode(m, id), r);
    AllInRange(m, rank, u, r);
    hide Ranked, Proper, InRange, Below, Exec, Value, ItemVal, ShortVal, ExprVal, SelCode, ChoiceTri, UserSelected, FromDefaults, FirstVisible, Input;
    ChoiceTriRuns(m, rank, u, id, k, r);
    RetRuns(m, rank, u, NO_SYMBOL, r);
    if ItemVal(m, rank, u, id) == Y {
      UserSelectedRuns(m, rank, u, id, it.syms, otherwise, r);
      if !exists s :: s in it.syms && s == Input(u, Cell(id, UserSelection)) && Value(m, rank, u, Cell(s, Vis)) != N {
        var i' := FromDefaultsRuns(m, rank, u, it.choiceDefaults, it.syms, r);
        if i' == |it.choiceDefaults| {
          var n' := FirstVisibleRuns(m, rank, u, it.syms, r);
          assert n' == n;
        }
        assert i' == i;
      }
    }
  }

  lemma {:induction false} FirstApplies(m: Model, rank: Cell -> nat, u: Inputs, ds: seq<ChoiceDefault>) returns (i: nat)
    requires Ranked(m, rank)
    ensures i <= |ds| && (forall j :: 0 <= j < i ==> !Applies(m, rank, u, ds[j])) && (i < |ds| ==> Applies(m, rank, u, ds[i]))
  {
    hide *;
    i := 0;
    while i < |ds| && !Applies(m, rank, u, ds[i])
      invariant i <= |ds| && forall j :: 0 <= j < i ==> !Applies(m, rank, u, ds[j])
    {
      i := i + 1;
    }
  }

  lemma FirstSeen(m: Model, rank: Cell -> nat, u: Inputs, syms: seq<Id>) returns (n: nat)
    requires Ranked(m, rank)
    ensures n <= |syms| && (forall j :: 0 <= j < n ==> Value(m, rank, u, Cell(syms[j], Vis)) == N)
    ensures n < |syms| ==> Value(m, rank, u, Cell(syms[n], Vis)) != N
  {
    hide *;
    n := 0;
    while n < |syms| && Value(m, rank, u, Cell(syms[n], Vis)) == N
      invariant n <= |syms| && forall j :: 0 <= j < n ==> Value(m, rank, u, Cell(syms[j], Vis)) == N
    {
      n := n + 1;
    }
  }

  // In y mode a visible symbol of the choice is fully visible.
  lemma VisibleInYMode(m: Model, rank: Cell -> nat, u: Inputs, id: Id)
    requires Ranked(m, rank) && Proper(m, u) && Get(m, id).Symbol? && Get(m, id).inChoice.Of?
    requires ItemVal(m, rank, u, Get(m, id).inChoice.choice) == Y
    ensures Value(m, rank, u, Cell(id, Vis)) == N || Value(m, rank, u, Cell(id, Vis)) == Y
  {
    var h := VisibilityIs(m, rank, u, id);
    AllInRange(m, rank, u, rank(Cell(id, Vis)) + 1);
    hide Ranked, ItemVal, ExprVal;
  }

  // At most one symbol of a choice is y, and none unless the choice is in y mode.  In y mode no symbol is m,
  // and the selected symbol is y.
  lemma ChoiceSelectsOne(m: Model, rank: Cell -> nat, u: Inputs, c: Id, s: Id, t: Id)
    requires Ranked(m, rank) && Proper(m, u) && Get(m, c).Choice?
    requires Get(m, s).Symbol? && Get(m, s).inChoice == Of(c) && Get(m, t).Symbol? && Get(m, t).inChoice == Of(c)
    ensures Value(m, rank, u, Cell(s, Tri)) == Y && Value(m, rank, u, Cell(t, Tri)) == Y ==> s == t
    ensures Value(m, rank, u, Cell(s, Tri)) == Y ==> ItemVal(m, rank, u, c) == Y
    ensures ItemVal(m, rank, u, c) == Y ==>
      Value(m, rank, u, Cell(s, Tri)) == if Value(m, rank, u, Cell(c, Sel)) == s then Y else N
  {
    ChoiceSymbolIs(m, rank, u, s);
    ChoiceSymbolIs(m, rank, u, t);
    var i, n := SelectionIs(m, rank, u, c);
    if ItemVal(m, rank, u, c) == Y {
      VisibleInYMode(m, rank, u, s);
    }
    hide Ranked, ItemVal, ExprVal, Input;
    if ItemVal(m, rank, u, c) == Y && Value(m, rank, u, Cell(c, Sel)) == s {
      assert Value(m, rank, u, Cell(s, Vis)) != N;
    }
  }

  // The setters store proper values.
  lemma SettersStayProper(m: Model, u: Inputs, x: Id, v: int)
    requires Proper(m, u)
    ensures Get(m, x).Symbol? ==> Proper(m, SymbolSet(m, u, x, v))
    ensures Get(m, x).Choice? ==> Proper(m, ChoiceSet(m, u, x, v))
  {
    if Get(m, x).Symbol? {
      var u' := SymbolSet(m, u, x, v);
      forall id: Id ensures N <= Input(u', Cell(id, UserValue)) <= NONE {
        assert N <= Input(u, Cell(id, UserValue)) <= NONE;
      }
    }
    if Get(m, x).Choice? {
      var u' := ChoiceSet(m, u, x, v);
      forall id: Id ensures N <= Input(u', Cell(id, UserValue)) <= NONE {
        assert N <= Input(u, Cell(id, UserValue)) <= NONE;
      }
    }
  }

  // Setting a symbol of a choice to y selects it: if it is visible then and the choice is in y mode, it is y
  // and every other symbol of the choice is n.
  lemma SettingSelects(m: Model, rank: Cell -> nat, u: Inputs, x: Id, t: Id)
    requires Ranked(m, rank) && Proper(m, u) && Get(m, x).Symbol? && Get(m, x).inChoice.Of?
    requires var c := Get(m, x).inChoice.choice;
      && Get(m, c).Choice? && x in Get(m, c).syms && Get(m, t).Symbol? && Get(m, t).inChoice == Of(c)
    ensures var c, u' := Get(m, x).inChoice.choice, SymbolSet(m, u, x, Y);
      ItemVal(m, rank, u', c) == Y && Value(m, rank, u', Cell(x, Vis)) != N ==>
        && Value(m, rank, u', Cell(c, Sel)) == x
        && Value(m, rank, u', Cell(t, Tri)) == if t == x then Y else N
  {
    var c, u' := Get(m, x).inChoice.choice, SymbolSet(m, u, x, Y);
    assert Input(u', Cell(c, UserSelection)) == x;
    SettersStayProper(m, u, x, Y);
    var i, n := SelectionIs(m, rank, u', c);
    ChoiceSelectsOne(m, rank, u', c, t, x);
    hide Ranked, Proper, ItemVal, ExprVal, SymbolSet;
  }
}
