/**
  The value cache of tools/kconfiglib.py and its invalidation.

  Values are computed on demand and cached per item.  Setting a user value calls `_rec_invalidate`,
  which clears the item and walks to the items in `_dependents`, but stops at items whose visibility is
  not cached.  `InvalidationKeepsFresh` is why this never leaves a stale value; the engine that does
  it step by step is in `KconfigEngine`.
 */
module KconfigCacheSpec {
  import opened Kconfig
  import opened KconfigReads

  // The user's values; cells that are missing read as not set.
  type Inputs = map<Cell, int>

  type Cache = map<Cell, int>

  predicate IsInput(c: Cell) { c.attr == UserValue || c.attr == UserSelection }

  // Visibilities, values of symbols and selections of choices are cached.
  predicate Cacheable(m: Model, c: Cell) {
    match c.attr
    case Vis => !Get(m, c.id).Constant?
    case Tri => Get(m, c.id).Symbol?
    case Sel => Get(m, c.id).Choice?
    case _ => false
  }

  function Input(u: Inputs, c: Cell): int {
    if c in u then u[c] else if c.attr == UserSelection then NO_SYMBOL else NONE
  }

  // ----- computing from scratch

  // Every value read by `code` has a smaller rank: evaluation is well-founded.
  predicate Below(rank: Cell -> nat, code: Code, r: nat) {
    match code
    case Ret(_) => true
    case Test(c, _, yes, no) => (IsInput(c) || rank(c) < r) && Below(rank, yes, r) && Below(rank, no, r)
  }

  ghost predicate Ranked(m: Model, rank: Cell -> nat) {
    forall c: Cell :: Below(rank, CodeOf(m, c), rank(c))
  }

  function Lower(rank: Cell -> nat, r: nat): Cell -> bool {
    d => IsInput(d) || rank(d) < r
  }

  lemma {:induction false} CoveredIsBelow(rank: Cell -> nat, code: Code, r: nat)
    requires Covered(code, Lower(rank, r))
    ensures Below(rank, code, r)
    decreases code
  {
    if code.Test? {
      CoveredIsBelow(rank, code.yes, r);
      CoveredIsBelow(rank, code.no, r);
    }
  }

  ghost function Value(m: Model, rank: Cell -> nat, u: Inputs, c: Cell): int
    requires Ranked(m, rank)
    decreases rank(c), 2
  {
    if IsInput(c) then Input(u, c) else Exec(m, rank, u, CodeOf(m, c), rank(c))
  }

  ghost function Exec(m: Model, rank: Cell -> nat, u: Inputs, code: Code, r: nat): int
    requires Ranked(m, rank) && Below(rank, code, r)
    decreases r, 1, code
  {
    match code
    case Ret(v) => v
    case Test(c, v, yes, no) => if Read(m, rank, u, c, r) == v then Exec(m, rank, u, yes, r) else Exec(m, rank, u, no, r)
  }

  ghost function Read(m: Model, rank: Cell -> nat, u: Inputs, c: Cell, r: nat): int
    requires Ranked(m, rank) && (IsInput(c) || rank(c) < r)
    decreases r, 0
  {
    if IsInput(c) then Input(u, c) else Value(m, rank, u, c)
  }

  // The cells that the computation of `code` reads.
  ghost function Reads(m: Model, rank: Cell -> nat, u: Inputs, code: Code, r: nat): set<Cell>
    requires Ranked(m, rank) && Below(rank, code, r)
  {
    match code
    case Ret(_) => {}
    case Test(c, v, yes, no) =>
      {c} + (if Read(m, rank, u, c, r) == v then Reads(m, rank, u, yes, r) else Reads(m, rank, u, no, r))
  }

  ghost function ReadsOf(m: Model, rank: Cell -> nat, u: Inputs, c: Cell): set<Cell>
    requires Ranked(m, rank)
  {
    Reads(m, rank, u, CodeOf(m, c), rank(c))
  }

  // A computation is determined by what it reads.
  lemma {:induction false} SameReadsSameResult(m: Model, rank: Cell -> nat, u: Inputs, u': Inputs, code: Code, r: nat)
    requires Ranked(m, rank) && Below(rank, code, r)
    requires forall c :: c in Reads(m, rank, u, code, r) ==> Value(m, rank, u', c) == Value(m, rank, u, c)
    ensures Exec(m, rank, u', code, r) == Exec(m, rank, u, code, r)
    ensures Reads(m, rank, u', code, r) == Reads(m, rank, u, code, r)
    decreases code
  {
    hide Ranked, Below;
    match code
    case Ret(_) =>
    case Test(c, v, yes, no) =>
      ParsesBelow(rank, code, r);
      assert Value(m, rank, u', c) == Value(m, rank, u, c);
      assert Read(m, rank, u', c, r) == Read(m, rank, u, c, r);
      if Read(m, rank, u, c, r) == v {
        SameReadsSameResult(m, rank, u, u', yes, r);
      } else {
        SameReadsSameResult(m, rank, u, u', no, r);
      }
  }

  lemma ParsesBelow(rank: Cell -> nat, code: Code, r: nat)
    requires Below(rank, code, r) && code.Test?
    ensures IsInput(code.cell) || rank(code.cell) < r
    ensures Below(rank, code.yes, r) && Below(rank, code.no, r)
  {
  }

  lemma {:induction false} ReadsAreBelow(m: Model, rank: Cell -> nat, u: Inputs, code: Code, r: nat, d: Cell)
    requires Ranked(m, rank) && Below(rank, code, r) && d in Reads(m, rank, u, code, r)
    ensures IsInput(d) || rank(d) < r
    decreases code
  {
    hide Ranked, Value, Input;
    match code
    case Ret(_) =>
    case Test(c, v, yes, no) =>
      if d != c {
        if Read(m, rank, u, c, r) == v { ReadsAreBelow(m, rank, u, yes, r, d); } else { ReadsAreBelow(m, rank, u, no, r, d); }
      }
  }

  lemma {:induction false} CoveredReads(m: Model, rank: Cell -> nat, u: Inputs, code: Code, r: nat, p: Cell -> bool, d: Cell)
    requires Ranked(m, rank) && Below(rank, code, r) && Covered(code, p) && d in Reads(m, rank, u, code, r)
    ensures p(d)
    decreases code
  {
    hide Ranked, Value, Input;
    match code
    case Ret(_) =>
    case Test(c, v, yes, no) =>
      if d != c {
        if Read(m, rank, u, c, r) == v { CoveredReads(m, rank, u, yes, r, p, d); } else { CoveredReads(m, rank, u, no, r, p, d); }
      }
  }

  // ----- what a value may depend on, and what `_dependents` records

  // No prompt of `id` can ever be visible: there is none, or its condition was simplified to n.
  predicate NeverVisible(m: Model, id: Id) {
    Get(m, id).Symbol? && forall e :: e in Get(m, id).prompts ==> e.Leaf? && Get(m, e.id) == Constant(N)
  }

  // A choice symbol that is never visible is n whatever the choice does.
  predicate Dead(m: Model, id: Id) {
    NeverVisible(m, id) && Get(m, id).inChoice.Of?
  }

  // A choice's symbols are symbols, and its defaults name symbols, defined or not (line 3730).
  predicate WellBuilt(m: Model) {
    forall x :: x in m.items && m.items[x].Choice? ==>
      && (forall s :: s in m.items[x].syms ==> Get(m, s).Symbol?)
      && (forall d :: d in m.items[x].choiceDefaults ==> !Get(m, d.sym).Choice?)
  }

  // A default outside the choice that the choice does not depend on either (warned about at line 3734).
  predicate StrayDefault(m: Model, x: Id, d: ChoiceDefault)
    requires Get(m, x).Choice?
  {
    Get(m, d.sym).Symbol? && d.sym !in Get(m, x).syms && d.sym !in DependsOn(m, x)
  }

  // The computation of `c` may read what a change does not carry over to it: the selection of a choice
  // with a stray default, and a choice symbol without a dependency on its choice that can be visible.
  predicate Stray(m: Model, c: Cell) {
    match Get(m, c.id)
    case Constant(_) => false
    case Choice(_, _, _, _, defaults) => c.attr == Sel && exists d :: d in defaults && StrayDefault(m, c.id, d)
    case Symbol(_, _, _, _, _, _, inChoice) =>
      inChoice.Of? && !Dead(m, c.id) && inChoice.choice !in DependsOn(m, c.id)
  }

  // Neither `c` nor any cell its computation may read, directly or through others, is stray.
  ghost predicate Clean(m: Model, rank: Cell -> nat, c: Cell)
    decreases rank(c), 1
  {
    IsInput(c) || (!Stray(m, c) && CleanCode(m, rank, CodeOf(m, c), rank(c)))
  }

  ghost predicate CleanCode(m: Model, rank: Cell -> nat, code: Code, r: nat)
    decreases r, 0, code
  {
    match code
    case Ret(_) => true
    case Test(c, _, yes, no) =>
      (IsInput(c) || (rank(c) < r && Clean(m, rank, c))) && CleanCode(m, rank, yes, r) && CleanCode(m, rank, no, r)
  }

  // The value of an undefined name is never cleared, because it never changes.
  predicate Fixed(m: Model, d: Cell) { d.attr == Vis && Get(m, d.id).Constant? }

  // A change of `y` reaches `x`: `x` is among y's dependents, or `y` is MODULES.
  predicate Reached(m: Model, x: Id, y: Id) {
    y in DependsOn(m, x) || (y == m.modules && Get(m, y).Symbol?)
  }

  predicate Allowed(m: Model, c: Cell, d: Cell) {
    || Fixed(m, d)
    || (Reached(m, c.id, d.id) && (Cacheable(m, d) || (d.attr == UserValue && Get(m, d.id).Choice?)))
    || (c.attr == Tri && (d == Cell(c.id, Vis) || d == Cell(c.id, UserValue)))
    || (c.attr == Sel && (d == Cell(c.id, Vis) || d == Cell(c.id, UserValue) || d == Cell(c.id, UserSelection)))
  }

  lemma CanReadDependencies(m: Model, c: Cell, p: Cell -> bool)
    requires forall d: Cell :: Reached(m, c.id, d.id) && (Cacheable(m, d) || (d.attr == UserValue && Get(m, d.id).Choice?)) ==> p(d)
    ensures CanReadAll(m, DependsOn(m, c.id), p) && CanReadModules(m, p)
  {
    hide DependsOn;
    forall id | id in DependsOn(m, c.id) ensures CanRead(m, id, p) {
      assert Reached(m, c.id, id);
      assert Reached(m, c.id, Cell(id, Vis).id) && Reached(m, c.id, Cell(id, UserValue).id);
    }
  }

  lemma AllowedReads(m: Model, c: Cell)
    requires WellBuilt(m) && Cacheable(m, c) && !Stray(m, c) && !Dead(m, c.id)
    ensures Covered(CodeOf(m, c), d => Allowed(m, c, d))
  {
    var p := (d: Cell) => Allowed(m, c, d);
    CanReadDependencies(m, c, p);
    assert c.id in m.items;
    match c.attr
    case Vis => VisOk(m, c.id, p);
    case Tri =>
      var it := Get(m, c.id);
      if it.inChoice.Of? { assert Reached(m, c.id, Cell(it.inChoice.choice, Sel).id); }
      TriOk(m, c.id, p);
    case Sel =>
      forall s | s in Get(m, c.id).syms ensures p(Cell(s, Vis)) { assert Reached(m, c.id, Cell(s, Vis).id); }
      forall d | d in Get(m, c.id).choiceDefaults ensures p(Cell(d.sym, Vis)) {
        assert !StrayDefault(m, c.id, d);
        if !Fixed(m, Cell(d.sym, Vis)) { assert Reached(m, c.id, Cell(d.sym, Vis).id); }
      }
      SelOk(m, c.id, p);
  }

  // Whatever is evaluated is fixed, can be cached or is an input, which is read behind a cached value.
  predicate Readable(m: Model, d: Cell) { Fixed(m, d) || Cacheable(m, d) || (IsInput(d) && !Get(m, d.id).Constant?) }

  lemma ReadableReads(m: Model, c: Cell)
    requires WellBuilt(m) && Cacheable(m, c)
    ensures Ok(CodeOf(m, c), d => Readable(m, d), {})
  {
    var p := (d: Cell) => Readable(m, d);
    assert CanReadAll(m, DependsOn(m, c.id), p) && CanReadModules(m, p);
    assert c.id in m.items;
    match c.attr
    case Vis => VisOk(m, c.id, p);
    case Tri => TriOk(m, c.id, p);
    case Sel =>
      forall s | s in Get(m, c.id).syms ensures p(Cell(s, Vis)) { assert Get(m, s).Symbol?; }
      forall d | d in Get(m, c.id).choiceDefaults ensures p(Cell(d.sym, Vis)) { assert !Get(m, d.sym).Choice?; }
      SelOk(m, c.id, p);
  }

  // ----- invisible symbols

  lemma {:induction false} ConstantPrompts(m: Model, prompts: seq<Expr>, k: int -> Code)
    requires forall e :: e in prompts ==> e.Leaf? && Get(m, e.id) == Constant(N)
    ensures PromptsCode(m, prompts, N, k) == k(N)
    decreases prompts
  {
    if prompts != [] {
      assert prompts[0] in prompts;
      ConstantPrompts(m, prompts[1..], k);
    }
  }

  // `code` gives n on every path.
  predicate AlwaysN(code: Code) {
    match code
    case Ret(v) => v == N
    case Test(_, _, yes, no) => AlwaysN(yes) && AlwaysN(no)
  }

  lemma {:induction false} AlwaysNGivesN(m: Model, rank: Cell -> nat, u: Inputs, code: Code, r: nat)
    requires Ranked(m, rank) && Below(rank, code, r) && AlwaysN(code)
    ensures Exec(m, rank, u, code, r) == N
    decreases code
  {
    hide Ranked, Read;
    if code.Test? {
      AlwaysNGivesN(m, rank, u, code.yes, r);
      AlwaysNGivesN(m, rank, u, code.no, r);
    }
  }

  lemma TriOfAlwaysN(m: Model, id: Id, k: int -> Code)
    requires forall v :: AlwaysN(k(v))
    ensures AlwaysN(TriOf(m, id, k))
  {
    match Get(m, id)
    case Constant(_) =>
    case Symbol(_, _, _, _, _, _, _) =>
    case Choice(tristate, _, isOptional, _, _) =>
      var k2 := (vis: int) => Mode(id, isOptional, val =>
        if Min(val, vis) == M then (if tristate then IfModules(m, k(M), k(Y)) else k(Y)) else k(Min(val, vis)));
      forall vis ensures AlwaysN(k2(vis)) {
        var k1 := (val: int) =>
          if Min(val, vis) == M then (if tristate then IfModules(m, k(M), k(Y)) else k(Y)) else k(Min(val, vis));
        assert forall val :: AlwaysN(k1(val));
        assert k2(vis) == Mode(id, isOptional, k1);
      }
      assert TriOf(m, id, k) == Switch(Cell(id, Vis), k2);
  }

  lemma NeverVisibleIsInvisible(m: Model, rank: Cell -> nat, u: Inputs, id: Id)
    requires Ranked(m, rank) && NeverVisible(m, id)
    ensures Value(m, rank, u, Cell(id, Vis)) == N
  {
    var it := Get(m, id);
    var k := (vis: int) =>
      match it.inChoice
      case Alone => Promote(m, Get(m, id), vis)
      case Of(c) => ChoiceSymVis(m, Get(m, id), c, vis);
    ConstantPrompts(m, it.prompts, k);
    if it.inChoice.Of? {
      TriOfAlwaysN(m, it.inChoice.choice, v => if v != Y then Ret(N) else Promote(m, it, N));
      TriOfAlwaysN(m, it.inChoice.choice, v => if v == Y then Ret(N) else Promote(m, it, N));
    }
    assert AlwaysN(VisCode(m, id));
    AlwaysNGivesN(m, rank, u, VisCode(m, id), rank(Cell(id, Vis)));
  }

  // The value of an invisible symbol is computed without its user value.
  lemma InvisibleBody(m: Model, rank: Cell -> nat, u: Inputs, id: Id)
    requires Ranked(m, rank) && Get(m, id).Symbol? && Value(m, rank, u, Cell(id, Vis)) == N
    ensures var c := Cell(id, Tri);
            && Below(rank, TriBody(m, id, N), rank(c))
            && Value(m, rank, u, c) == Exec(m, rank, u, TriBody(m, id, N), rank(c))
            && ReadsOf(m, rank, u, c) == {Cell(id, Vis)} + Reads(m, rank, u, TriBody(m, id, N), rank(c))
  {
    hide TriBody, Reads, DependsOn;
    var c := Cell(id, Tri);
    assert CodeOf(m, c) == Switch(Cell(id, Vis), vis => TriBody(m, id, vis));
    RunSwitch(m, rank, u, Cell(id, Vis), vis => TriBody(m, id, vis), rank(c), N);
  }

  lemma RunSwitch(m: Model, rank: Cell -> nat, u: Inputs, d: Cell, k: int -> Code, r: nat, v: int)
    requires Ranked(m, rank) && Below(rank, Switch(d, k), r) && Value(m, rank, u, d) == v && N <= v <= Y
    ensures Below(rank, k(v), r)
    ensures Exec(m, rank, u, Switch(d, k), r) == Exec(m, rank, u, k(v), r)
    ensures Reads(m, rank, u, Switch(d, k), r) == {d} + Reads(m, rank, u, k(v), r)
  {
    hide Ranked;
    assert Read(m, rank, u, d, r) == v;
  }

  lemma DeadIsN(m: Model, rank: Cell -> nat, u: Inputs, c: Cell)
    requires Ranked(m, rank) && Dead(m, c.id) && Cacheable(m, c)
    ensures Value(m, rank, u, c) == N
  {
    NeverVisibleIsInvisible(m, rank, u, c.id);
    if c.attr == Tri {
      InvisibleBody(m, rank, u, c.id);
    }
  }

  // ----- the cache

  // Clean cached values are right, and were computed from values that are still cached.
  ghost predicate Fresh(m: Model, rank: Cell -> nat, u: Inputs, cache: Cache)
    requires Ranked(m, rank)
  {
    && (forall c :: c in cache ==> Cacheable(m, c) && Cell(c.id, Vis) in cache)
    && (forall c :: c in cache && Clean(m, rank, c) ==> cache[c] == Value(m, rank, u, c))
    && SourcesCached(m, rank, u, cache)
  }

  ghost predicate SourcesCached(m: Model, rank: Cell -> nat, u: Inputs, cache: Cache)
    requires Ranked(m, rank)
  {
    forall c, d :: c in cache && Clean(m, rank, c) && !Dead(m, c.id) && d in ReadsOf(m, rank, u, c) ==> Held(m, cache, d)
  }

  // `d` was read, and no change to it has come by since.
  predicate Held(m: Model, cache: Cache, d: Cell) {
    Fixed(m, d) || (Cell(d.id, Vis) in cache && (IsInput(d) || d in cache))
  }

  // Drop everything cached for the items in `gone`.
  ghost function Drop(cache: Cache, gone: set<Id>): (rest: Cache)
    ensures forall c :: c in rest <==> c in cache && c.id !in gone
    ensures forall c :: c in rest ==> rest[c] == cache[c]
  {
    map c | c in cache && c.id !in gone :: cache[c]
  }

  // No item with cached values is reached by a change of an item in `gone`.
  ghost predicate Closed(m: Model, cache: Cache, gone: set<Id>) {
    forall x, g :: Cell(x, Vis) in cache && g in gone ==> !Reached(m, x, g)
  }

  // The inputs changed only for dropped items, for symbols without a visible prompt, and for choice
  // symbols whose choice is dropped.
  ghost predicate ChangeCovered(m: Model, u: Inputs, u': Inputs, gone: set<Id>) {
    forall d: Cell :: IsInput(d) && Input(u', d) != Input(u, d) ==>
      || d.id in gone
      || (d.attr == UserValue && NeverVisible(m, d.id))
      || (d.attr == UserValue && Get(m, d.id).Symbol? && Get(m, d.id).inChoice.Of? && Get(m, d.id).inChoice.choice in gone)
  }

  lemma {:induction false} UnchangedValue(m: Model, rank: Cell -> nat, u: Inputs, u': Inputs, cache: Cache, c: Cell)
    requires Ranked(m, rank) && SourcesCached(m, rank, u, cache)
    requires forall x :: x in cache ==> Cacheable(m, x)
    requires forall x, d :: x in cache && Clean(m, rank, x) && !Dead(m, x.id) && d in ReadsOf(m, rank, u, x) && IsInput(d) ==>
               Input(u', d) == Input(u, d)
    requires c in cache && Clean(m, rank, c)
    ensures Value(m, rank, u', c) == Value(m, rank, u, c)
    ensures !Dead(m, c.id) ==> ReadsOf(m, rank, u', c) == ReadsOf(m, rank, u, c)
    decreases rank(c)
  {
    hide Ranked, Below, Reads, Dead, Clean;
    if Dead(m, c.id) {
      DeadIsN(m, rank, u, c);
      DeadIsN(m, rank, u', c);
    } else {
      forall d | d in ReadsOf(m, rank, u, c) ensures Value(m, rank, u', d) == Value(m, rank, u, d) {
        if Fixed(m, d) {
          FixedIsN(m, rank, u, d);
          FixedIsN(m, rank, u', d);
        } else if !IsInput(d) {
          UseRank(m, rank, c);
          ReadsAreBelow(m, rank, u, CodeOf(m, c), rank(c), d);
          CleanReadsClean(m, rank, u, c, d);
          assert Held(m, cache, d);
          UnchangedValue(m, rank, u, u', cache, d);
        }
      }
      UseRank(m, rank, c);
      SameReadsSameResult(m, rank, u, u', CodeOf(m, c), rank(c));
    }
  }

  lemma FixedIsN(m: Model, rank: Cell -> nat, u: Inputs, d: Cell)
    requires Ranked(m, rank) && Fixed(m, d)
    ensures Value(m, rank, u, d) == N
  {
    assert CodeOf(m, d) == Ret(N);
  }

  lemma CleanReadsClean(m: Model, rank: Cell -> nat, u: Inputs, c: Cell, d: Cell)
    requires Ranked(m, rank) && !IsInput(c) && Clean(m, rank, c) && d in ReadsOf(m, rank, u, c)
    ensures Clean(m, rank, d)
  {
    UseRank(m, rank, c);
    CleanIsCovered(m, rank, CodeOf(m, c), rank(c));
    CoveredReads(m, rank, u, CodeOf(m, c), rank(c), x => Clean(m, rank, x), d);
  }

  lemma {:induction false} CleanIsCovered(m: Model, rank: Cell -> nat, code: Code, r: nat)
    requires CleanCode(m, rank, code, r)
    ensures Covered(code, c => Clean(m, rank, c))
    decreases code
  {
    if code.Test? {
      CleanIsCovered(m, rank, code.yes, r);
      CleanIsCovered(m, rank, code.no, r);
    }
  }

  // Only stray cells and what reads them are not clean: any set of cells that holds no stray cell and
  // all its members may read is clean.
  lemma {:induction false} UncleanReadsStray(m: Model, rank: Cell -> nat, safe: Cell -> bool, c: Cell)
    requires Ranked(m, rank) && safe(c)
    requires forall d :: safe(d) && !IsInput(d) ==> !Stray(m, d) && Covered(CodeOf(m, d), safe)
    ensures Clean(m, rank, c)
    decreases rank(c), 1
  {
    if !IsInput(c) {
      UseRank(m, rank, c);
      UncleanCodeReadsStray(m, rank, safe, CodeOf(m, c), rank(c));
    }
  }

  lemma {:induction false} UncleanCodeReadsStray(m: Model, rank: Cell -> nat, safe: Cell -> bool, code: Code, r: nat)
    requires Ranked(m, rank) && Covered(code, safe) && Below(rank, code, r)
    requires forall d :: safe(d) && !IsInput(d) ==> !Stray(m, d) && Covered(CodeOf(m, d), safe)
    ensures CleanCode(m, rank, code, r)
    decreases r, 0, code
  {
    hide Ranked, Stray;
    if code.Test? {
      if !IsInput(code.cell) {
        UncleanReadsStray(m, rank, safe, code.cell);
      }
      UncleanCodeReadsStray(m, rank, safe, code.yes, r);
      UncleanCodeReadsStray(m, rank, safe, code.no, r);
    }
  }

  lemma {:induction false} AllCovered(code: Code, p: Cell -> bool)
    requires forall c :: p(c)
    ensures Covered(code, p)
    decreases code
  {
    if code.Test? {
      AllCovered(code.yes, p);
      AllCovered(code.no, p);
    }
  }

  // Without stray cells every cell is clean.
  lemma WithoutStrayAllClean(m: Model, rank: Cell -> nat, c: Cell)
    requires Ranked(m, rank) && forall d :: !Stray(m, d)
    ensures Clean(m, rank, c)
  {
    var all := (d: Cell) => true;
    forall d: Cell ensures Covered(CodeOf(m, d), all) { AllCovered(CodeOf(m, d), all); }
    UncleanReadsStray(m, rank, all, c);
  }

  lemma UseRank(m: Model, rank: Cell -> nat, c: Cell)
    requires Ranked(m, rank)
    ensures Below(rank, CodeOf(m, c), rank(c))
  {
  }

  // An input read by a value that survives did not change.
  lemma SurvivorsReadNoChange(m: Model, rank: Cell -> nat, u: Inputs, u': Inputs, rest: Cache, gone: set<Id>, c: Cell, d: Cell)
    requires WellBuilt(m) && Ranked(m, rank) && Closed(m, rest, gone) && ChangeCovered(m, u, u', gone)
    requires Cacheable(m, c) && Cell(c.id, Vis) in rest && c.id !in gone && !Stray(m, c) && !Dead(m, c.id)
    requires d in ReadsOf(m, rank, u, c) && IsInput(d)
    ensures Input(u', d) == Input(u, d)
  {
    AllowedReads(m, c);
    UseRank(m, rank, c);
    CoveredReads(m, rank, u, CodeOf(m, c), rank(c), d => Allowed(m, c, d), d);
    hide Covered, Reads, Ranked, Below, DependsOn;
    assert d.id !in gone by { SurvivorsReadSurvivors(m, rank, u, rest, gone, c, d); }
    if Input(u', d) != Input(u, d) {
      assert d.attr == UserValue && Get(m, d.id).Symbol?;
      assert c == Cell(d.id, Tri);
      var it := Get(m, c.id);
      if it.inChoice.Of? {
        assert false;
      }
      OwnValueUnread(m, rank, u, c.id);
    }
  }

  lemma OwnValueUnread(m: Model, rank: Cell -> nat, u: Inputs, id: Id)
    requires Ranked(m, rank) && NeverVisible(m, id) && Get(m, id).inChoice.Alone?
    ensures Cell(id, UserValue) !in ReadsOf(m, rank, u, Cell(id, Tri))
  {
    NeverVisibleIsInvisible(m, rank, u, id);
    InvisibleBody(m, rank, u, id);
    var c := Cell(id, Tri);
    var p := (d: Cell) => Reached(m, id, d.id) && (Cacheable(m, d) || (d.attr == UserValue && Get(m, d.id).Choice?));
    CanReadDependencies(m, c, p);
    TriBodyOk(m, id, N, p);
    if Cell(id, UserValue) in ReadsOf(m, rank, u, c) {
      CoveredReads(m, rank, u, TriBody(m, id, N), rank(c), p, Cell(id, UserValue));
    }
  }

  // The heart of the matter: dropping a closed set of items that covers the change makes what is left
  // of the cache right for the new inputs.
  lemma InvalidationKeepsFresh(m: Model, rank: Cell -> nat, u: Inputs, u': Inputs, cache: Cache, gone: set<Id>)
    requires WellBuilt(m) && Ranked(m, rank) && Fresh(m, rank, u, cache)
    requires Closed(m, Drop(cache, gone), gone) && ChangeCovered(m, u, u', gone)
    ensures Fresh(m, rank, u', Drop(cache, gone))
  {
    hide Ranked, Reads, ReadsOf, WellBuilt, Reached, Dead, Value, ChangeCovered, Cacheable, DependsOn, Clean, Stray;
    var rest := Drop(cache, gone);
    forall c, d | c in rest && Clean(m, rank, c) && !Dead(m, c.id) && d in ReadsOf(m, rank, u, c)
      ensures Held(m, rest, d)
    {
      CleanIsNotStray(m, rank, c);
      SurvivorsReadSurvivors(m, rank, u, rest, gone, c, d);
      assert Held(m, cache, d);
    }
    forall c, d | c in rest && Clean(m, rank, c) && !Dead(m, c.id) && d in ReadsOf(m, rank, u, c) && IsInput(d)
      ensures Input(u', d) == Input(u, d)
    {
      CleanIsNotStray(m, rank, c);
      SurvivorsReadNoChange(m, rank, u, u', rest, gone, c, d);
    }
    forall c | c in rest && Clean(m, rank, c)
      ensures Value(m, rank, u', c) == Value(m, rank, u, c)
      ensures !Dead(m, c.id) ==> ReadsOf(m, rank, u', c) == ReadsOf(m, rank, u, c)
    {
      UnchangedValue(m, rank, u, u', rest, c);
    }
  }

  lemma CleanIsNotStray(m: Model, rank: Cell -> nat, c: Cell)
    requires Cacheable(m, c) && Clean(m, rank, c)
    ensures !Stray(m, c)
  {
  }

  lemma SurvivorsReadSurvivors(m: Model, rank: Cell -> nat, u: Inputs, rest: Cache, gone: set<Id>, c: Cell, d: Cell)
    requires WellBuilt(m) && Ranked(m, rank) && Closed(m, rest, gone)
    requires Cacheable(m, c) && Cell(c.id, Vis) in rest && c.id !in gone && !Stray(m, c) && !Dead(m, c.id)
    requires d in ReadsOf(m, rank, u, c)
    ensures d.id !in gone || Fixed(m, d)
  {
    AllowedReads(m, c);
    UseRank(m, rank, c);
    CoveredReads(m, rank, u, CodeOf(m, c), rank(c), d => Allowed(m, c, d), d);
  }
}
