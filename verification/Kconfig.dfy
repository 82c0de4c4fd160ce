/**
  The configuration model of tools/kconfiglib.py: symbols, choices and their formulas, for bool and
  tristate symbols.

  The value of an item depends on other values by a short-circuiting computation.  Each formula of the
  source (`_visibility`, `Symbol.tri_value`, `Choice._selection`, `expr_value`) is transcribed as the
  decision tree it walks: `Test(c, v, yes, no)` reads cell `c` and goes on with `yes` if the value is
  `v`.  So a formula determines which values are read, in which order, and the result.
 */
module Kconfig {
  type Id = nat

  // Tristate values n, m, y; `NONE` stands for Python's None where a user value is expected.
  const N := 0
  const M := 1
  const Y := 2
  const NONE := 3
  const NO_SYMBOL := -1

  datatype Rel = EQUAL | UNEQUAL | LESS | LESS_EQUAL | GREATER | GREATER_EQUAL

  datatype Expr =
    | Leaf(id: Id)
    | And(l: Expr, r: Expr)
    | Or(l: Expr, r: Expr)
    | Not(e: Expr)
    | Relation(rel: Rel, a: Id, b: Id)

  datatype Default = Default(value: Expr, cond: Expr)

  datatype ChoiceDefault = ChoiceDefault(sym: Id, cond: Expr)

  datatype InChoice = Alone | Of(choice: Id)

  datatype Item =
    | Constant(value: int)
    | Symbol(tristate: bool, prompts: seq<Expr>, defaults: seq<Default>, revDep: Expr, weakRevDep: Expr,
             directDep: Expr, inChoice: InChoice)
    | Choice(tristate: bool, prompts: seq<Expr>, isOptional: bool, syms: seq<Id>, choiceDefaults: seq<ChoiceDefault>)

  // The items by name, and the symbol MODULES.  Names that are not defined evaluate to n.
  datatype Model = Model(items: map<Id, Item>, modules: Id)

  // What can be read of an item: its visibility, a symbol's value, a choice's selection (these three
  // are cached), and what the user set.
  datatype Attr = Vis | Tri | Sel | UserValue | UserSelection

  datatype Cell = Cell(id: Id, attr: Attr)

  datatype Code = Ret(val: int) | Test(cell: Cell, v: int, yes: Code, no: Code)

  function Get(m: Model, id: Id): Item {
    if id in m.items then m.items[id] else Constant(N)
  }

  // Go on with `k` of the tristate value of cell `c`.
  function Switch(c: Cell, k: int -> Code): Code {
    Test(c, N, k(N), Test(c, M, k(M), k(Y)))
  }

  function Min(a: int, b: int): int { if a <= b then a else b }

  function Max(a: int, b: int): int { if a >= b then a else b }

  function RelHolds(rel: Rel, comp: int): bool {
    match rel
    case EQUAL => comp == 0
    case UNEQUAL => comp != 0
    case LESS => comp < 0
    case LESS_EQUAL => comp <= 0
    case GREATER => comp > 0
    case GREATER_EQUAL => comp >= 0
  }

  // ----- the formulas

  // Choice.tri_value, which is computed anew each time.  (The visibility is read first; reading the
  // user's mode, a plain attribute, commutes with that.)
  function ChoiceTri(m: Model, id: Id, tristate: bool, isOptional: bool, k: int -> Code): Code {
    Switch(Cell(id, Vis), vis =>
      Mode(id, isOptional, val =>
        if Min(val, vis) == M then (if tristate then IfModules(m, k(M), k(Y)) else k(Y))
        else k(Min(val, vis))))
  }

  // Branch on `kconfig.modules.tri_value`.
  function IfModules(m: Model, on: Code, off: Code): Code {
    if Get(m, m.modules).Symbol? then Test(Cell(m.modules, Tri), N, off, on) else off
  }

  // The mode the user asks for, at least m unless the choice is optional.
  function Mode(id: Id, isOptional: bool, k: int -> Code): Code {
    var least := if isOptional then N else M;
    Test(Cell(id, UserValue), NONE, k(least), Switch(Cell(id, UserValue), u => k(Max(least, u))))
  }

  // The tri_value property of any item.
  function TriOf(m: Model, id: Id, k: int -> Code): Code {
    match Get(m, id)
    case Constant(v) => k(v)
    case Symbol(_, _, _, _, _, _, _) => Switch(Cell(id, Tri), k)
    case Choice(tristate, _, isOptional, _, _) => ChoiceTri(m, id, tristate, isOptional, k)
  }

  // expr_value, with its short circuits.
  function ExprCode(m: Model, e: Expr, k: int -> Code): Code {
    match e
    case Leaf(id) => TriOf(m, id, k)
    case And(l, r) => ExprCode(m, l, v1 => if v1 == N then k(N) else ExprCode(m, r, v2 => k(Min(v1, v2))))
    case Or(l, r) => ExprCode(m, l, v1 => if v1 == Y then k(Y) else ExprCode(m, r, v2 => k(Max(v1, v2))))
    case Not(x) => ExprCode(m, x, v => k(Y - v))
    case Relation(rel, a, b) =>
      TriOf(m, a, v1 => TriOf(m, b, v2 => k(if RelHolds(rel, v1 - v2) then Y else N)))
  }

  // The loop over prompt conditions in _visibility.
  function PromptsCode(m: Model, prompts: seq<Expr>, vis: int, k: int -> Code): Code
    decreases prompts
  {
    if prompts == [] then k(vis)
    else ExprCode(m, prompts[0], v => PromptsCode(m, prompts[1..], Max(vis, v), k))
  }

  // `sc.type is TRISTATE`, as N or Y.
  function IsTristate(m: Model, it: Item, k: int -> Code): Code {
    match it
    case Constant(_) => k(N)
    case Choice(tristate, _, _, _, _) => if tristate then IfModules(m, k(Y), k(N)) else k(N)
    case Symbol(tristate, _, _, _, _, _, inChoice) =>
      if !tristate then k(N)
      else if inChoice.Alone? then IfModules(m, k(Y), k(N))
      else TriOf(m, inChoice.choice, v => if v == Y then k(N) else IfModules(m, k(Y), k(N)))
  }

  // The end of _visibility: promote m to y for anything that is not a tristate.
  function Promote(m: Model, it: Item, vis: int): Code {
    if vis == M then IsTristate(m, it, t => Ret(if t == N then Y else M)) else Ret(vis)
  }

  // The part of _visibility for choice symbols.
  function ChoiceSymVis(m: Model, it: Item, c: Id, vis: int): Code
    requires it.Symbol?
  {
    if Get(m, c).Choice? && Get(m, c).tristate && !it.tristate then
      TriOf(m, c, v => if v != Y then Ret(N) else Promote(m, it, vis))
    else if it.tristate && vis == M then
      TriOf(m, c, v => if v == Y then Ret(N) else Promote(m, it, vis))
    else Promote(m, it, vis)
  }

  // _visibility
  function VisCode(m: Model, id: Id): Code {
    match Get(m, id)
    case Constant(_) => Ret(N)
    case Choice(_, prompts, _, _, _) => PromptsCode(m, prompts, N, vis => Promote(m, Get(m, id), vis))
    case Symbol(_, prompts, _, _, _, _, inChoice) =>
      PromptsCode(m, prompts, N, vis =>
        match inChoice
        case Alone => Promote(m, Get(m, id), vis)
        case Of(c) => ChoiceSymVis(m, Get(m, id), c, vis))
  }

  // The loop over defaults in Symbol.tri_value: the first whose condition is not n decides.
  function DefaultsCode(m: Model, defaults: seq<Default>, k: int -> Code): Code
    decreases defaults
  {
    if defaults == [] then k(N)
    else ExprCode(m, defaults[0].cond, dep =>
      if dep != N then ExprCode(m, defaults[0].value, v => k(Min(v, dep)))
      else DefaultsCode(m, defaults[1..], k))
  }

  // Weak reverse dependencies, considered only when the direct dependencies are met.
  function ImplyCode(m: Model, it: Item, val: int, k: int -> Code): Code
    requires it.Symbol?
  {
    ExprCode(m, it.weakRevDep, dep =>
      if dep == N then k(val)
      else ExprCode(m, it.directDep, direct => if direct != N then k(Max(dep, val)) else k(val)))
  }

  // Reverse dependencies, and the promotion of m to y at the end of Symbol.tri_value.
  function SelectCode(m: Model, it: Item, val: int): Code
    requires it.Symbol?
  {
    ExprCode(m, it.revDep, dep =>
      if dep == N then FinishTri(m, it, val)
      else ExprCode(m, it.directDep, direct => FinishTri(m, it, Max(dep, val))))
  }

  function FinishTri(m: Model, it: Item, val: int): Code
    requires it.Symbol?
  {
    if val != M then Ret(val)
    else IsTristate(m, it, t =>
      if t == N then Ret(Y) else ExprCode(m, it.weakRevDep, w => Ret(if w == Y then Y else M)))
  }

  // Symbol.tri_value
  function TriCode(m: Model, id: Id): Code {
    match Get(m, id)
    case Constant(v) => Ret(v)
    case Choice(_, _, _, _, _) => Ret(N)
    case Symbol(_, _, _, _, _, _, _) => Switch(Cell(id, Vis), vis => TriBody(m, id, vis))
  }

  function TriBody(m: Model, id: Id, vis: int): Code
    requires Get(m, id).Symbol?
  {
    var it := Get(m, id);
    match it.inChoice
    case Alone =>
      if vis == N then ByDefault(m, it)
      else Test(Cell(id, UserValue), NONE, ByDefault(m, it),
                Switch(Cell(id, UserValue), u => SelectCode(m, it, Min(u, vis))))
    case Of(c) =>
      if vis == Y then (if Get(m, c).Choice? then Test(Cell(c, Sel), id, Ret(Y), Ret(N)) else Ret(N))
      else if vis != N then
        Test(Cell(id, UserValue), NONE, Ret(N), Test(Cell(id, UserValue), N, Ret(N), Ret(M)))
      else Ret(N)
  }

  // The value without a user value: defaults, then weak and plain reverse dependencies.
  function ByDefault(m: Model, it: Item): Code
    requires it.Symbol?
  {
    DefaultsCode(m, it.defaults, val => ImplyCode(m, it, val, v => SelectCode(m, it, v)))
  }

  // _selection_from_defaults
  function FromDefaults(m: Model, defaults: seq<ChoiceDefault>, syms: seq<Id>): Code
    decreases defaults
  {
    if defaults == [] then FirstVisible(syms)
    else ExprCode(m, defaults[0].cond, v =>
      if v == N then FromDefaults(m, defaults[1..], syms)
      else Test(Cell(defaults[0].sym, Vis), N, FromDefaults(m, defaults[1..], syms), Ret(defaults[0].sym)))
  }

  function FirstVisible(syms: seq<Id>): Code
    decreases syms
  {
    if syms == [] then Ret(NO_SYMBOL)
    else Test(Cell(syms[0], Vis), N, FirstVisible(syms[1..]), Ret(syms[0]))
  }

  // The user's selection if it is visible; the user can only have selected a symbol of the choice.
  function UserSelected(id: Id, syms: seq<Id>, otherwise: Code): Code
    decreases syms
  {
    if syms == [] then otherwise
    else Test(Cell(id, UserSelection), syms[0],
              Test(Cell(syms[0], Vis), N, otherwise, Ret(syms[0])),
              UserSelected(id, syms[1..], otherwise))
  }

  // Choice._selection
  function SelCode(m: Model, id: Id): Code {
    match Get(m, id)
    case Choice(tristate, _, isOptional, syms, defaults) =>
      ChoiceTri(m, id, tristate, isOptional, v =>
        if v != Y then Ret(NO_SYMBOL) else UserSelected(id, syms, FromDefaults(m, defaults, syms)))
    case _ => Ret(NO_SYMBOL)
  }

  function CodeOf(m: Model, c: Cell): Code {
    match c.attr
    case Vis => VisCode(m, c.id)
    case Tri => TriCode(m, c.id)
    case Sel => SelCode(m, c.id)
    case _ => Ret(N)
  }

  // ----- what each item depends on

  function Items(e: Expr): set<Id> {
    match e
    case Leaf(id) => {id}
    case And(l, r) => Items(l) + Items(r)
    case Or(l, r) => Items(l) + Items(r)
    case Not(x) => Items(x)
    case Relation(_, a, b) => {a, b}
  }

  function ItemsOf(es: seq<Expr>): set<Id> {
    if es == [] then {} else Items(es[0]) + ItemsOf(es[1..])
  }

  function DefaultItems(ds: seq<Default>): set<Id> {
    if ds == [] then {} else Items(ds[0].value) + Items(ds[0].cond) + DefaultItems(ds[1..])
  }

  function CondItems(ds: seq<ChoiceDefault>): set<Id> {
    if ds == [] then {} else Items(ds[0].cond) + CondItems(ds[1..])
  }

  // `x` is put into the `_dependents` of these by _build_dep.
  function Recorded(m: Model, x: Id): set<Id> {
    match Get(m, x)
    case Constant(_) => {}
    case Symbol(_, prompts, defaults, rev, weak, direct, _) =>
      ItemsOf(prompts) + DefaultItems(defaults) + Items(rev) + Items(weak) + Items(direct)
    case Choice(_, prompts, _, _, defaults) => ItemsOf(prompts) + CondItems(defaults)
  }

  // The same after _add_choice_deps, which makes a choice depend on its symbols.
  function DependsOn(m: Model, x: Id): set<Id> {
    match Get(m, x)
    case Choice(_, _, _, syms, _) => Recorded(m, x) + (set s | s in syms)
    case _ => Recorded(m, x)
  }
}
