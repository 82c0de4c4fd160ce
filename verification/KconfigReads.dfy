/**
  Which values the formulas of Kconfig can read, on any path.
 */
module KconfigReads {
  import opened Kconfig

  ghost predicate Covered(code: Code, p: Cell -> bool) {
    match code
    case Ret(_) => true
    case Test(c, _, yes, no) => p(c) && Covered(yes, p) && Covered(no, p)
  }

  // A user's value is read only behind some cached value of the same item.
  ghost predicate Guarded(code: Code, seen: set<Id>) {
    match code
    case Ret(_) => true
    case Test(c, _, yes, no) =>
      if c.attr == UserValue || c.attr == UserSelection then c.id in seen && Guarded(yes, seen) && Guarded(no, seen)
      else Guarded(yes, seen + {c.id}) && Guarded(no, seen + {c.id})
  }

  lemma {:induction false} GuardedMore(code: Code, seen: set<Id>, more: set<Id>)
    requires Guarded(code, seen) && seen <= more
    ensures Guarded(code, more)
    decreases code
  {
    match code
    case Ret(_) =>
    case Test(c, _, yes, no) =>
      if c.attr == UserValue || c.attr == UserSelection {
        GuardedMore(yes, seen, more);
        GuardedMore(no, seen, more);
      } else {
        GuardedMore(yes, seen + {c.id}, more + {c.id});
        GuardedMore(no, seen + {c.id}, more + {c.id});
      }
  }

  // Both properties at once.
  ghost predicate Ok(code: Code, p: Cell -> bool, seen: set<Id>) {
    Covered(code, p) && Guarded(code, seen)
  }

  ghost predicate OkAll(k: int -> Code, p: Cell -> bool, seen: set<Id>) {
    forall v :: Ok(k(v), p, seen)
  }

  // Reading the value of item `id`.
  ghost predicate CanRead(m: Model, id: Id, p: Cell -> bool) {
    match Get(m, id)
    case Constant(_) => true
    case Symbol(_, _, _, _, _, _, _) => p(Cell(id, Tri))
    case Choice(tristate, _, _, _, _) => p(Cell(id, Vis)) && p(Cell(id, UserValue)) && (tristate ==> CanReadModules(m, p))
  }

  ghost predicate CanReadModules(m: Model, p: Cell -> bool) {
    Get(m, m.modules).Symbol? ==> p(Cell(m.modules, Tri))
  }

  ghost predicate CanReadAll(m: Model, ids: set<Id>, p: Cell -> bool) {
    forall id :: id in ids ==> CanRead(m, id, p)
  }

  lemma OkMore(code: Code, p: Cell -> bool, seen: set<Id>, more: set<Id>)
    requires Ok(code, p, seen) && seen <= more
    ensures Ok(code, p, more)
  {
    GuardedMore(code, seen, more);
  }

  lemma SwitchOk(c: Cell, k: int -> Code, p: Cell -> bool, seen: set<Id>)
    requires p(c) && OkAll(k, p, seen)
    requires (c.attr == UserValue || c.attr == UserSelection) ==> c.id in seen
    ensures Ok(Switch(c, k), p, seen)
  {
    assert Ok(k(N), p, seen) && Ok(k(M), p, seen) && Ok(k(Y), p, seen);
    OkMore(k(N), p, seen, seen + {c.id});
    OkMore(k(M), p, seen, seen + {c.id});
    OkMore(k(Y), p, seen, seen + {c.id});
    assert seen + {c.id} + {c.id} == seen + {c.id};
  }

  lemma IfModulesOk(m: Model, on: Code, off: Code, p: Cell -> bool, seen: set<Id>)
    requires CanReadModules(m, p) && Ok(on, p, seen) && Ok(off, p, seen)
    ensures Ok(IfModules(m, on, off), p, seen)
  {
    OkMore(on, p, seen, seen + {m.modules});
    OkMore(off, p, seen, seen + {m.modules});
  }

  lemma ModeOk(id: Id, isOptional: bool, k: int -> Code, p: Cell -> bool, seen: set<Id>)
    requires p(Cell(id, UserValue)) && id in seen && OkAll(k, p, seen)
    ensures Ok(Mode(id, isOptional, k), p, seen)
  {
    var least := if isOptional then N else M;
    var k' := (u: int) => k(Max(least, u));
    forall v ensures Ok(k'(v), p, seen) { assert Ok(k(Max(least, v)), p, seen); }
    SwitchOk(Cell(id, UserValue), k', p, seen);
    assert Ok(k(least), p, seen);
  }

  // The continuation of ChoiceTri runs behind the choice's visibility.
  lemma ChoiceTriBehindVis(m: Model, id: Id, tristate: bool, isOptional: bool, k: int -> Code, p: Cell -> bool, seen: set<Id>)
    requires p(Cell(id, Vis)) && p(Cell(id, UserValue)) && (tristate ==> CanReadModules(m, p)) && OkAll(k, p, seen + {id})
    ensures Ok(ChoiceTri(m, id, tristate, isOptional, k), p, seen)
  {
    var seen' := seen + {id};
    var k2 := (vis: int) => Mode(id, isOptional, val =>
        if Min(val, vis) == M then (if tristate then IfModules(m, k(M), k(Y)) else k(Y)) else k(Min(val, vis)));
    forall vis ensures Ok(k2(vis), p, seen') {
      var k1 := (val: int) =>
        if Min(val, vis) == M then (if tristate then IfModules(m, k(M), k(Y)) else k(Y)) else k(Min(val, vis));
      forall val ensures Ok(k1(val), p, seen') {
        assert Ok(k(M), p, seen') && Ok(k(Y), p, seen') && Ok(k(Min(val, vis)), p, seen');
        if tristate { IfModulesOk(m, k(M), k(Y), p, seen'); }
      }
      ModeOk(id, isOptional, k1, p, seen');
      assert k2(vis) == Mode(id, isOptional, k1);
    }
    VisFirst(id, k2, p, seen);
    assert ChoiceTri(m, id, tristate, isOptional, k) == Switch(Cell(id, Vis), k2);
  }

  lemma ChoiceTriOk(m: Model, id: Id, tristate: bool, isOptional: bool, k: int -> Code, p: Cell -> bool, seen: set<Id>)
    requires p(Cell(id, Vis)) && p(Cell(id, UserValue)) && (tristate ==> CanReadModules(m, p)) && OkAll(k, p, seen)
    ensures Ok(ChoiceTri(m, id, tristate, isOptional, k), p, seen)
  {
    forall v ensures Ok(k(v), p, seen + {id}) { OkMore(k(v), p, seen, seen + {id}); }
    ChoiceTriBehindVis(m, id, tristate, isOptional, k, p, seen);
  }

  lemma VisFirst(id: Id, k: int -> Code, p: Cell -> bool, seen: set<Id>)
    requires p(Cell(id, Vis)) && OkAll(k, p, seen + {id})
    ensures Ok(Switch(Cell(id, Vis), k), p, seen)
  {
    assert Ok(k(N), p, seen + {id}) && Ok(k(M), p, seen + {id}) && Ok(k(Y), p, seen + {id});
    assert seen + {id} + {id} == seen + {id};
  }

  lemma TriOfOk(m: Model, id: Id, k: int -> Code, p: Cell -> bool, seen: set<Id>)
    requires CanRead(m, id, p) && OkAll(k, p, seen)
    ensures Ok(TriOf(m, id, k), p, seen)
  {
    match Get(m, id)
    case Constant(v) => assert Ok(k(v), p, seen);
    case Symbol(_, _, _, _, _, _, _) => SwitchOk(Cell(id, Tri), k, p, seen);
    case Choice(tristate, _, isOptional, _, _) => ChoiceTriOk(m, id, tristate, isOptional, k, p, seen);
  }

  lemma {:induction false} ExprOk(m: Model, e: Expr, k: int -> Code, p: Cell -> bool, seen: set<Id>)
    requires CanReadAll(m, Items(e), p) && OkAll(k, p, seen)
    ensures Ok(ExprCode(m, e, k), p, seen)
    decreases e
  {
    match e
    case Leaf(id) => TriOfOk(m, id, k, p, seen);
    case And(l, r) =>
      var k1 := (v1: int) => if v1 == N then k(N) else ExprCode(m, r, v2 => k(Min(v1, v2)));
      forall v1 ensures Ok(k1(v1), p, seen) {
        assert Ok(k(N), p, seen);
        var k2 := (v2: int) => k(Min(v1, v2));
        forall v2 ensures Ok(k2(v2), p, seen) { assert Ok(k(Min(v1, v2)), p, seen); }
        ExprOk(m, r, k2, p, seen);
      }
      ExprOk(m, l, k1, p, seen);
    case Or(l, r) =>
      var k1 := (v1: int) => if v1 == Y then k(Y) else ExprCode(m, r, v2 => k(Max(v1, v2)));
      forall v1 ensures Ok(k1(v1), p, seen) {
        assert Ok(k(Y), p, seen);
        var k2 := (v2: int) => k(Max(v1, v2));
        forall v2 ensures Ok(k2(v2), p, seen) { assert Ok(k(Max(v1, v2)), p, seen); }
        ExprOk(m, r, k2, p, seen);
      }
      ExprOk(m, l, k1, p, seen);
    case Not(x) =>
      var k1 := (v: int) => k(Y - v);
      forall v ensures Ok(k1(v), p, seen) { assert Ok(k(Y - v), p, seen); }
      ExprOk(m, x, k1, p, seen);
    case Relation(rel, a, b) =>
      var k1 := (v1: int) => TriOf(m, b, v2 => k(if RelHolds(rel, v1 - v2) then Y else N));
      forall v1 ensures Ok(k1(v1), p, seen) {
        var k2 := (v2: int) => k(if RelHolds(rel, v1 - v2) then Y else N);
        forall v2 ensures Ok(k2(v2), p, seen) { assert Ok(k(Y), p, seen) && Ok(k(N), p, seen); }
        TriOfOk(m, b, k2, p, seen);
      }
      TriOfOk(m, a, k1, p, seen);
  }

  lemma {:induction false} PromptsOk(m: Model, prompts: seq<Expr>, vis: int, k: int -> Code, p: Cell -> bool, seen: set<Id>)
    requires CanReadAll(m, ItemsOf(prompts), p) && OkAll(k, p, seen)
    ensures Ok(PromptsCode(m, prompts, vis, k), p, seen)
    decreases prompts
  {
    if prompts == [] {
      assert Ok(k(vis), p, seen);
    } else {
      var k1 := (v: int) => PromptsCode(m, prompts[1..], Max(vis, v), k);
      forall v ensures Ok(k1(v), p, seen) { PromptsOk(m, prompts[1..], Max(vis, v), k, p, seen); }
      ExprOk(m, prompts[0], k1, p, seen);
    }
  }

  // What IsTristate may read.
  ghost predicate TypeKnown(m: Model, it: Item, p: Cell -> bool) {
    (Tristate(it) ==> CanReadModules(m, p)) && (it.Symbol? && it.inChoice.Of? ==> CanRead(m, it.inChoice.choice, p))
  }

  predicate Tristate(it: Item) { !it.Constant? && it.tristate }

  lemma IsTristateOk(m: Model, it: Item, k: int -> Code, p: Cell -> bool, seen: set<Id>)
    requires TypeKnown(m, it, p) && OkAll(k, p, seen)
    ensures Ok(IsTristate(m, it, k), p, seen)
  {
    assert Ok(k(N), p, seen) && Ok(k(Y), p, seen);
    if Tristate(it) { IfModulesOk(m, k(Y), k(N), p, seen); }
    if it.Symbol? && it.tristate && it.inChoice.Of? {
      var k1 := (v: int) => if v == Y then k(N) else IfModules(m, k(Y), k(N));
      assert OkAll(k1, p, seen);
      TriOfOk(m, it.inChoice.choice, k1, p, seen);
    }
  }

  lemma PromoteOk(m: Model, it: Item, vis: int, p: Cell -> bool, seen: set<Id>)
    requires TypeKnown(m, it, p)
    ensures Ok(Promote(m, it, vis), p, seen)
  {
    IsTristateOk(m, it, t => Ret(if t == N then Y else M), p, seen);
  }

  lemma ChoiceSymVisOk(m: Model, it: Item, vis: int, p: Cell -> bool, seen: set<Id>)
    requires it.Symbol? && it.inChoice.Of? && TypeKnown(m, it, p)
    ensures Ok(ChoiceSymVis(m, it, it.inChoice.choice, vis), p, seen)
  {
    var c := it.inChoice.choice;
    PromoteOk(m, it, vis, p, seen);
    TriOfOk(m, c, v => if v != Y then Ret(N) else Promote(m, it, vis), p, seen);
    TriOfOk(m, c, v => if v == Y then Ret(N) else Promote(m, it, vis), p, seen);
  }

  lemma VisOk(m: Model, id: Id, p: Cell -> bool)
    requires TypeKnown(m, Get(m, id), p) && CanReadAll(m, Recorded(m, id), p)
    ensures Ok(VisCode(m, id), p, {})
  {
    var it := Get(m, id);
    match it
    case Constant(_) =>
    case Choice(_, prompts, _, _, _) =>
      var k := (vis: int) => Promote(m, Get(m, id), vis);
      forall vis ensures Ok(k(vis), p, {}) { PromoteOk(m, it, vis, p, {}); }
      PromptsOk(m, prompts, N, k, p, {});
    case Symbol(_, prompts, _, _, _, _, inChoice) =>
      var k := (vis: int) =>
        match inChoice
        case Alone => Promote(m, Get(m, id), vis)
        case Of(c) => ChoiceSymVis(m, Get(m, id), c, vis);
      forall vis ensures Ok(k(vis), p, {}) {
        PromoteOk(m, it, vis, p, {});
        if inChoice.Of? { ChoiceSymVisOk(m, it, vis, p, {}); }
      }
      PromptsOk(m, prompts, N, k, p, {});
  }

  lemma {:induction false} DefaultsOk(m: Model, defaults: seq<Default>, k: int -> Code, p: Cell -> bool, seen: set<Id>)
    requires CanReadAll(m, DefaultItems(defaults), p) && OkAll(k, p, seen)
    ensures Ok(DefaultsCode(m, defaults, k), p, seen)
    decreases defaults
  {
    if defaults == [] {
      assert Ok(k(N), p, seen);
    } else {
      var k1 := (dep: int) =>
        if dep != N then ExprCode(m, defaults[0].value, v => k(Min(v, dep))) else DefaultsCode(m, defaults[1..], k);
      DefaultsOk(m, defaults[1..], k, p, seen);
      forall dep ensures Ok(k1(dep), p, seen) {
        var k2 := (v: int) => k(Min(v, dep));
        forall v ensures Ok(k2(v), p, seen) { assert Ok(k(Min(v, dep)), p, seen); }
        ExprOk(m, defaults[0].value, k2, p, seen);
      }
      ExprOk(m, defaults[0].cond, k1, p, seen);
    }
  }

  // What the formulas behind a symbol's visibility may read, apart from its own user value.
  ghost predicate ValueKnown(m: Model, it: Item, p: Cell -> bool)
    requires it.Symbol?
  {
    && TypeKnown(m, it, p) && CanReadAll(m, DefaultItems(it.defaults), p) && CanReadAll(m, Items(it.revDep), p)
    && CanReadAll(m, Items(it.weakRevDep), p) && CanReadAll(m, Items(it.directDep), p)
  }

  lemma FinishTriOk(m: Model, it: Item, val: int, p: Cell -> bool, seen: set<Id>)
    requires it.Symbol? && ValueKnown(m, it, p)
    ensures Ok(FinishTri(m, it, val), p, seen)
  {
    var k := (t: int) => if t == N then Ret(Y) else ExprCode(m, it.weakRevDep, w => Ret(if w == Y then Y else M));
    ExprOk(m, it.weakRevDep, w => Ret(if w == Y then Y else M), p, seen);
    assert OkAll(k, p, seen);
    IsTristateOk(m, it, k, p, seen);
  }

  lemma SelectOk(m: Model, it: Item, val: int, p: Cell -> bool, seen: set<Id>)
    requires it.Symbol? && ValueKnown(m, it, p)
    ensures Ok(SelectCode(m, it, val), p, seen)
  {
    var k := (dep: int) =>
      if dep == N then FinishTri(m, it, val)
      else ExprCode(m, it.directDep, direct => FinishTri(m, it, Max(dep, val)));
    forall dep ensures Ok(k(dep), p, seen) {
      FinishTriOk(m, it, val, p, seen);
      FinishTriOk(m, it, Max(dep, val), p, seen);
      ExprOk(m, it.directDep, direct => FinishTri(m, it, Max(dep, val)), p, seen);
    }
    ExprOk(m, it.revDep, k, p, seen);
  }

  lemma ByDefaultOk(m: Model, it: Item, p: Cell -> bool, seen: set<Id>)
    requires it.Symbol? && ValueKnown(m, it, p)
    ensures Ok(ByDefault(m, it), p, seen)
  {
    var kSelect := (v: int) => SelectCode(m, it, v);
    forall v ensures Ok(kSelect(v), p, seen) { SelectOk(m, it, v, p, seen); }
    var kImply := (val: int) => ImplyCode(m, it, val, v => SelectCode(m, it, v));
    forall val ensures Ok(kImply(val), p, seen) { ImplyOk(m, it, val, kSelect, p, seen); }
    DefaultsOk(m, it.defaults, kImply, p, seen);
  }

  lemma ImplyOk(m: Model, it: Item, val: int, k: int -> Code, p: Cell -> bool, seen: set<Id>)
    requires it.Symbol? && ValueKnown(m, it, p) && OkAll(k, p, seen)
    ensures Ok(ImplyCode(m, it, val, k), p, seen)
  {
    assert Ok(k(val), p, seen);
    var k1 := (dep: int) =>
      if dep == N then k(val)
      else ExprCode(m, it.directDep, direct => if direct != N then k(Max(dep, val)) else k(val));
    forall dep ensures Ok(k1(dep), p, seen) {
      assert Ok(k(Max(dep, val)), p, seen);
      ExprOk(m, it.directDep, direct => if direct != N then k(Max(dep, val)) else k(val), p, seen);
    }
    ExprOk(m, it.weakRevDep, k1, p, seen);
  }

  // What Symbol.tri_value may read once it knows the visibility.  An invisible symbol reads neither
  // its user value nor its choice's selection.
  ghost predicate BodyKnown(m: Model, id: Id, vis: int, p: Cell -> bool) {
    var it := Get(m, id);
    && it.Symbol? && ValueKnown(m, it, p)
    && (vis != N ==> p(Cell(id, UserValue)))
    && (vis != N && it.inChoice.Of? && Get(m, it.inChoice.choice).Choice? ==> p(Cell(it.inChoice.choice, Sel)))
  }

  lemma TriBodyOk(m: Model, id: Id, vis: int, p: Cell -> bool)
    requires BodyKnown(m, id, vis, p)
    ensures Ok(TriBody(m, id, vis), p, {id})
  {
    var it := Get(m, id);
    if it.inChoice.Alone? {
      ByDefaultOk(m, it, p, {id});
      if vis != N {
        var k := (u: int) => SelectCode(m, it, Min(u, vis));
        forall u ensures Ok(k(u), p, {id}) { SelectOk(m, it, Min(u, vis), p, {id}); }
        SwitchOk(Cell(id, UserValue), k, p, {id});
      }
    }
  }

  lemma TriOk(m: Model, id: Id, p: Cell -> bool)
    requires Get(m, id).Symbol? && p(Cell(id, Vis)) && BodyKnown(m, id, Y, p)
    ensures Ok(TriCode(m, id), p, {})
  {
    var k := (vis: int) => TriBody(m, id, vis);
    forall vis ensures Ok(k(vis), p, {} + {id}) {
      TriBodyOk(m, id, vis, p);
      assert {} + {id} == {id};
    }
    VisFirst(id, k, p, {});
  }

  lemma {:induction false} FromDefaultsOk(m: Model, defaults: seq<ChoiceDefault>, syms: seq<Id>, p: Cell -> bool, seen: set<Id>)
    requires CanReadAll(m, CondItems(defaults), p)
    requires forall d :: d in defaults ==> p(Cell(d.sym, Vis))
    requires forall s :: s in syms ==> p(Cell(s, Vis))
    ensures Ok(FromDefaults(m, defaults, syms), p, seen)
    decreases defaults
  {
    if defaults == [] {
      FirstVisibleOk(syms, p, seen);
    } else {
      var rest := FromDefaults(m, defaults[1..], syms);
      FromDefaultsOk(m, defaults[1..], syms, p, seen);
      var k := (v: int) =>
        if v == N then FromDefaults(m, defaults[1..], syms)
        else Test(Cell(defaults[0].sym, Vis), N, FromDefaults(m, defaults[1..], syms), Ret(defaults[0].sym));
      assert defaults[0] in defaults;
      OkMore(rest, p, seen, seen + {defaults[0].sym});
      var byVis := Test(Cell(defaults[0].sym, Vis), N, rest, Ret(defaults[0].sym));
      assert Ok(byVis, p, seen);
      forall v ensures Ok(k(v), p, seen) { assert k(v) == if v == N then rest else byVis; }
      ExprOk(m, defaults[0].cond, k, p, seen);
    }
  }

  lemma {:induction false} FirstVisibleOk(syms: seq<Id>, p: Cell -> bool, seen: set<Id>)
    requires forall s :: s in syms ==> p(Cell(s, Vis))
    ensures Ok(FirstVisible(syms), p, seen)
    decreases syms
  {
    if syms != [] {
      FirstVisibleOk(syms[1..], p, seen + {syms[0]});
    }
  }

  lemma {:induction false} UserSelectedOk(id: Id, syms: seq<Id>, otherwise: Code, p: Cell -> bool, seen: set<Id>)
    requires p(Cell(id, UserSelection)) && id in seen && Ok(otherwise, p, seen)
    requires forall s :: s in syms ==> p(Cell(s, Vis))
    ensures Ok(UserSelected(id, syms, otherwise), p, seen)
    decreases syms
  {
    if syms != [] {
      UserSelectedOk(id, syms[1..], otherwise, p, seen);
      OkMore(otherwise, p, seen, seen + {syms[0]});
    }
  }

  lemma SelOk(m: Model, id: Id, p: Cell -> bool)
    requires Get(m, id).Choice?
    requires p(Cell(id, Vis)) && p(Cell(id, UserValue)) && p(Cell(id, UserSelection)) && (Get(m, id).tristate ==> CanReadModules(m, p))
    requires CanReadAll(m, CondItems(Get(m, id).choiceDefaults), p)
    requires forall d :: d in Get(m, id).choiceDefaults ==> p(Cell(d.sym, Vis))
    requires forall s :: s in Get(m, id).syms ==> p(Cell(s, Vis))
    ensures Ok(SelCode(m, id), p, {})
  {
    var Choice(tristate, _, isOptional, syms, defaults) := Get(m, id);
    var otherwise := FromDefaults(m, defaults, syms);
    FromDefaultsOk(m, defaults, syms, p, {id});
    UserSelectedOk(id, syms, otherwise, p, {id});
    var k := (v: int) => if v != Y then Ret(NO_SYMBOL) else UserSelected(id, syms, FromDefaults(m, defaults, syms));
    forall v ensures Ok(k(v), p, {} + {id}) { assert {} + {id} == {id}; }
    ChoiceTriBehindVis(m, id, tristate, isOptional, k, p, {});
  }
}
