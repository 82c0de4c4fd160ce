/**
  The evaluation engine of tools/kconfiglib.py: cached evaluation, `_rec_invalidate`, and the setters
  of symbols and choices.  `Valid` says that nothing in the cache is stale but perhaps stray cells and
  what may read them; every method keeps it.
 */
module KconfigEngine {
  import opened Kconfig
  import opened KconfigReads
  import opened KconfigCacheSpec

  predicate ValidValue(tristate: bool, v: int) {
    v == N || v == Y || (tristate && v == M)
  }

  // The user values after Symbol.set_value and Choice.set_value.
  function SymbolSet(m: Model, u: Inputs, x: Id, v: int): Inputs
    requires Get(m, x).Symbol?
  {
    if !ValidValue(Get(m, x).tristate, v) then u
    else
      match Get(m, x).inChoice
      case Alone => if Input(u, Cell(x, UserValue)) == v then u else u[Cell(x, UserValue) := v]
      case Of(c) =>
        if v == Y then u[Cell(x, UserValue) := v][Cell(c, UserSelection) := x] else u[Cell(x, UserValue) := v]
  }

  function ChoiceSet(m: Model, u: Inputs, c: Id, v: int): Inputs
    requires Get(m, c).Choice?
  {
    if !ValidValue(Get(m, c).tristate, v) || Input(u, Cell(c, UserValue)) == v then u else u[Cell(c, UserValue) := v]
  }

  class Engine {
    const m: Model
    ghost const rank: Cell -> nat
    var dependents: map<Id, set<Id>>
    var user: Inputs
    var cache: Cache

    ghost predicate Valid()
      reads this
    {
      && WellBuilt(m) && Ranked(m, rank)
      && Linked()
      && Fresh(m, rank, user, cache)
    }

    function DependentsOf(x: Id): set<Id>
      reads this`dependents
    {
      if x in dependents then dependents[x] else {}
    }

    // `_dependents` is the inverse of the dependency relation.
    ghost predicate Linked()
      reads this`dependents
    {
      forall x, y :: y in DependentsOf(x) <==> x in DependsOn(m, y)
    }

    // _build_dep and _add_choice_deps
    constructor (model: Model, ghost ranking: Cell -> nat)
      requires WellBuilt(model) && Ranked(model, ranking)
      ensures Valid() && m == model && rank == ranking && user == map[] && cache == map[]
    {
      m, rank := model, ranking;
      user, cache, dependents := map[], map[], map[];
      new;
      var todo := model.items.Keys;
      while todo != {}
        invariant m == model && rank == ranking && user == map[] && cache == map[]
        invariant todo <= m.items.Keys
        invariant forall x, y :: y in DependentsOf(x) <==> y !in todo && x in DependsOn(m, y)
        decreases todo
      {
        var y :| y in todo;
        AddDependent(y, todo);
        todo := todo - {y};
      }
    }

    // Put `y` into the dependents of everything it depends on.
    method AddDependent(y: Id, ghost todo: set<Id>)
      requires y in todo
      requires forall x, z :: z in DependentsOf(x) <==> z !in todo && x in DependsOn(m, z)
      modifies this`dependents
      ensures forall x, z :: z in DependentsOf(x) <==> z !in todo - {y} && x in DependsOn(m, z)
    {
      hide DependsOn;
      var deps := DependsOn(m, y);
      while deps != {}
        invariant deps <= DependsOn(m, y)
        invariant forall x :: DependentsOf(x) == old(DependentsOf(x)) + (if x in DependsOn(m, y) - deps then {y} else {})
        decreases deps
      {
        var x :| x in deps;
        dependents := dependents[x := DependentsOf(x) + {y}];
        deps := deps - {x};
      }
    }

    // The cached properties `visibility`, `tri_value` and `selection`: never stale for clean cells.
    method Read(c: Cell) returns (v: int)
      requires Valid() && Cacheable(m, c)
      modifies this`cache
      ensures Valid() && (Clean(m, rank, c) ==> v == Value(m, rank, user, c))
      ensures c in cache && cache[c] == v && forall d :: d in old(cache) ==> d in cache
      decreases rank(c), 1
    {
      if c in cache {
        return cache[c];
      }
      v := Compute(c);
      AddFresh(m, rank, user, cache, c, v);
      cache := cache[c := v];
    }

    // Runs the formula of `c`.
    method Compute(c: Cell) returns (v: int)
      requires Valid() && Cacheable(m, c)
      modifies this`cache
      ensures Valid() && (Clean(m, rank, c) ==> v == Value(m, rank, user, c))
      ensures forall d :: d in old(cache) ==> d in cache
      ensures c.attr == Vis || Cell(c.id, Vis) in cache
      ensures Clean(m, rank, c) ==> forall d :: d in ReadsOf(m, rank, user, c) ==> Held(m, cache, d)
      decreases rank(c), 0
    {
      hide Ranked, Below, Covered, Guarded, WellBuilt, Exec, Reads, Fresh, CodeOf, Dead, Get, Clean, CleanCode;
      ReadableReads(m, c);
      UseRank(m, rank, c);
      StartsWithVisibility(m, c);
      if Clean(m, rank, c) { CleanCodeOf(m, rank, c); }
      ghost var p := (d: Cell) => Readable(m, d);
      ghost var r := rank(c);
      ghost var clean := Clean(m, rank, c);
      ghost var seen: set<Id> := {};
      ghost var done: set<Cell> := {};
      var code := CodeOf(m, c);
      while code.Test?
        invariant Valid() && Below(rank, code, r) && Ok(code, p, seen)
        invariant clean ==> CleanCode(m, rank, code, r)
        invariant clean ==> Exec(m, rank, user, code, r) == Value(m, rank, user, c)
        invariant clean ==> ReadsOf(m, rank, user, c) <= done + Reads(m, rank, user, code, r)
        invariant forall d :: d in old(cache) ==> d in cache
        invariant forall id :: id in seen ==> Get(m, id).Constant? || Cell(id, Vis) in cache
        invariant forall d :: d in done ==> Held(m, cache, d)
        invariant c.attr == Vis || Cell(c.id, Vis) in cache || code == CodeOf(m, c)
        decreases code
      {
        var d := code.cell;
        StepRun(m, rank, user, code, r, p, seen);
        if clean { StepClean(m, rank, code, r); }
        var w;
        if IsInput(d) {
          w := Input(user, d);
        } else if Fixed(m, d) {
          w := N;
          FixedIsN(m, rank, user, d);
          seen := seen + {d.id};
        } else {
          w := this.Read(d);
          seen := seen + {d.id};
          UseFresh(m, rank, user, cache, d);
        }
        done := done + {d};
        code := if w == code.v then code.yes else code.no;
      }
      v := code.val;
      EndRun(m, rank, user, code, r);
    }

    ghost predicate OnlyCacheable()
      reads this`cache
    {
      forall c :: c in cache ==> Cacheable(m, c)
    }

    // _invalidate
    method Invalidate(x: Id)
      requires OnlyCacheable()
      modifies this`cache
      ensures cache == Drop(old(cache), {x})
    {
      cache := cache - {Cell(x, Vis), Cell(x, Tri), Cell(x, Sel)};
    }

    // _invalidate_all
    method InvalidateAll() returns (ghost gone: set<Id>)
      requires OnlyCacheable()
      modifies this`cache
      ensures cache == map[] && gone == m.items.Keys
      ensures forall c :: c in old(cache) ==> c.id in m.items
    {
      var todo := m.items.Keys;
      gone := {};
      while todo != {}
        invariant gone == m.items.Keys - todo && todo <= m.items.Keys && OnlyCacheable()
        invariant cache == Drop(old(cache), gone)
        decreases todo
      {
        var y :| y in todo;
        Invalidate(y);
        gone := gone + {y};
        todo := todo - {y};
      }
      assert forall c :: c in old(cache) ==> c.id in m.items;
    }

    // _rec_invalidate
    method RecInvalidate(x: Id) returns (ghost gone: set<Id>)
      requires OnlyCacheable() && Linked()
      modifies this`cache
      ensures Invalidated(m, old(cache), cache, x, gone)
      ensures OnlyCacheable()
      decreases cache.Keys, if Cell(x, Vis) in cache then 0 else 1
    {
      hide Cacheable, Swept, Justified, DependsOn;
      if x == m.modules && Get(m, x).Symbol? {
        gone := InvalidateAll();
        AllInvalidated(m, old(cache), x);
        return;
      }
      Invalidate(x);
      gone := {x};
      var todo := DependentsOf(x);
      OneInvalidated(m, old(cache), x);
      ghost var after := cache;
      while todo != {}
        invariant Partly(m, old(cache), cache, x, gone) && OnlyCacheable()
        invariant cache.Keys <= after.Keys
        invariant todo <= DependentsOf(x)
        invariant forall y :: y in DependentsOf(x) - todo ==> Cell(y, Vis) !in cache
        decreases todo
      {
        var y :| y in todo;
        todo := todo - {y};
        if Cell(y, Vis) in cache {
          ghost var before := cache;
          ghost var more := RecInvalidate(y);
          Join(m, old(cache), before, cache, x, gone, y, more);
          gone := gone + more;
        }
      }
      FullySwept(m, cache, x, gone);
    }

    // _rec_invalidate_if_has_prompt
    method InvalidateIfPrompt(x: Id) returns (ghost gone: set<Id>)
      requires OnlyCacheable() && Linked() && Get(m, x).Symbol?
      modifies this`cache
      ensures Get(m, x).prompts != [] ==> Invalidated(m, old(cache), cache, x, gone)
      ensures Get(m, x).prompts == [] ==> cache == old(cache) && gone == {}
    {
      gone := {};
      if Get(m, x).prompts != [] {
        gone := RecInvalidate(x);
      }
    }

    // Symbol.set_value.  Whatever is still cached afterwards is right for the new user values.
    method SetSymbol(x: Id, v: int) returns (ok: bool)
      requires Valid() && Get(m, x).Symbol?
      modifies this`user, this`cache
      ensures Valid() && user == SymbolSet(m, old(user), x, v)
      ensures !(v == N || v == Y || (v == M && Get(m, x).tristate)) ==> user == old(user)
      ensures v == N || v == Y || (v == M && Get(m, x).tristate) ==> Input(user, Cell(x, UserValue)) == v
      ensures v == Y && Get(m, x).inChoice.Of? ==> Input(user, Cell(Get(m, x).inChoice.choice, UserSelection)) == x
      ensures forall d: Cell :: d != Cell(x, UserValue) && (d.attr == UserSelection ==> v != Y || Get(m, x).inChoice != Of(d.id)) ==>
        Input(user, d) == Input(old(user), d)
      ensures ok <==> ValidValue(Get(m, x).tristate, v) || (Get(m, x).inChoice.Alone? && Input(old(user), Cell(x, UserValue)) == v)
      ensures cache.Keys <= old(cache).Keys
    {
      hide Cacheable, DependsOn, Invalidated, ChangeCovered, Closed, WellBuilt, Ranked, Fresh, Drop;
      var it := Get(m, x);
      if it.inChoice.Alone? && Input(user, Cell(x, UserValue)) == v {
        return true;
      }
      if !ValidValue(it.tristate, v) {
        return false;
      }
      FreshIsCacheable(m, rank, user, cache);
      ghost var gone;
      user := user[Cell(x, UserValue) := v];
      if it.inChoice.Of? && v == Y {
        user := user[Cell(it.inChoice.choice, UserSelection) := x];
        gone := RecInvalidate(it.inChoice.choice);
      } else {
        gone := InvalidateIfPrompt(x);
      }
      AfterSymbolChange(m, rank, old(user), user, old(cache), cache, x, gone);
      return true;
    }

    // Symbol.unset_value
    method UnsetSymbol(x: Id)
      requires Valid() && Get(m, x).Symbol?
      modifies this`user, this`cache
      ensures Valid() && cache.Keys <= old(cache).Keys
      ensures forall d :: Input(user, d) == if d == Cell(x, UserValue) then NONE else Input(old(user), d)
    {
      hide Cacheable, DependsOn, Invalidated, ChangeCovered, Closed, WellBuilt, Ranked, Fresh, Drop;
      if Input(user, Cell(x, UserValue)) != NONE {
        FreshIsCacheable(m, rank, user, cache);
        user := user - {Cell(x, UserValue)};
        ghost var gone := InvalidateIfPrompt(x);
        AfterSymbolChange(m, rank, old(user), user, old(cache), cache, x, gone);
      }
    }

    // Choice.set_value
    method SetChoice(c: Id, v: int) returns (ok: bool)
      requires Valid() && Get(m, c).Choice?
      modifies this`user, this`cache
      ensures Valid() && user == ChoiceSet(m, old(user), c, v)
      ensures !(v == N || v == Y || (v == M && Get(m, c).tristate)) ==> user == old(user)
      ensures v == N || v == Y || (v == M && Get(m, c).tristate) ==> Input(user, Cell(c, UserValue)) == v
      ensures forall d: Cell :: d != Cell(c, UserValue) ==> Input(user, d) == Input(old(user), d)
      ensures ok <==> ValidValue(Get(m, c).tristate, v) || Input(old(user), Cell(c, UserValue)) == v
      ensures cache.Keys <= old(cache).Keys
    {
      hide Cacheable, DependsOn, Invalidated, ChangeCovered, Closed, WellBuilt, Ranked, Fresh, Drop;
      if Input(user, Cell(c, UserValue)) == v {
        return true;
      }
      if !ValidValue(Get(m, c).tristate, v) {
        return false;
      }
      FreshIsCacheable(m, rank, user, cache);
      user := user[Cell(c, UserValue) := v];
      ghost var gone := RecInvalidate(c);
      AfterItemChange(m, rank, old(user), user, old(cache), cache, c, gone);
      return true;
    }

    // Choice.unset_value
    method UnsetChoice(c: Id)
      requires Valid() && Get(m, c).Choice?
      modifies this`user, this`cache
      ensures Valid() && cache.Keys <= old(cache).Keys
      ensures Input(user, Cell(c, UserValue)) == NONE && Input(user, Cell(c, UserSelection)) == NO_SYMBOL
      ensures forall d :: d != Cell(c, UserValue) && d != Cell(c, UserSelection) ==> Input(user, d) == Input(old(user), d)
    {
      hide Cacheable, DependsOn, Invalidated, ChangeCovered, Closed, WellBuilt, Ranked, Fresh, Drop;
      if Input(user, Cell(c, UserValue)) != NONE || Input(user, Cell(c, UserSelection)) != NO_SYMBOL {
        FreshIsCacheable(m, rank, user, cache);
        user := user - {Cell(c, UserValue), Cell(c, UserSelection)};
        ghost var gone := RecInvalidate(c);
        AfterItemChange(m, rank, old(user), user, old(cache), cache, c, gone);
      }
    }
  }

  lemma FreshIsCacheable(m: Model, rank: Cell -> nat, u: Inputs, cache: Cache)
    requires Ranked(m, rank) && Fresh(m, rank, u, cache)
    ensures forall c :: c in cache ==> Cacheable(m, c)
  {
  }

  lemma InvalidatedIsClosed(m: Model, before: Cache, now: Cache, x: Id, gone: set<Id>)
    requires Invalidated(m, before, now, x, gone)
    ensures now == Drop(before, gone) && Closed(m, now, gone) && now.Keys <= before.Keys && x in gone
  {
    hide DependsOn, Justified;
    InvalidatedItself(m, gone, x);
    forall y, g | Cell(y, Vis) in now && g in gone ensures !Reached(m, y, g) {
    }
  }

  lemma DropNothing(cache: Cache)
    ensures Drop(cache, {}) == cache
  {
  }

  // After a symbol's user value changed, and the choice's selection if the choice was invalidated.
  lemma AfterSymbolChange(m: Model, rank: Cell -> nat, u: Inputs, u': Inputs, before: Cache, now: Cache, x: Id, gone: set<Id>)
    requires WellBuilt(m) && Ranked(m, rank) && Fresh(m, rank, u, before) && Get(m, x).Symbol?
    requires
      || (Get(m, x).inChoice.Of? && Invalidated(m, before, now, Get(m, x).inChoice.choice, gone)
          && (forall d :: IsInput(d) && Input(u', d) != Input(u, d) ==>
                d == Cell(x, UserValue) || d == Cell(Get(m, x).inChoice.choice, UserSelection)))
      || ((if Get(m, x).prompts == [] then now == before && gone == {} else Invalidated(m, before, now, x, gone))
          && forall d :: IsInput(d) && Input(u', d) != Input(u, d) ==> d == Cell(x, UserValue))
    ensures Fresh(m, rank, u', now) && now.Keys <= before.Keys
  {
    hide Invalidated, WellBuilt, Ranked, Fresh, DependsOn, Drop, Reached;
    var it := Get(m, x);
    if it.inChoice.Of? && Invalidated(m, before, now, it.inChoice.choice, gone) {
      InvalidatedIsClosed(m, before, now, it.inChoice.choice, gone);
    } else if it.prompts == [] {
      DropNothing(before);
    } else {
      InvalidatedIsClosed(m, before, now, x, gone);
    }
    InvalidationKeepsFresh(m, rank, u, u', before, gone);
  }

  lemma AfterItemChange(m: Model, rank: Cell -> nat, u: Inputs, u': Inputs, before: Cache, now: Cache, x: Id, gone: set<Id>)
    requires WellBuilt(m) && Ranked(m, rank) && Fresh(m, rank, u, before)
    requires Invalidated(m, before, now, x, gone)
    requires forall d :: IsInput(d) && Input(u', d) != Input(u, d) ==> d.id == x
    ensures Fresh(m, rank, u', now) && now.Keys <= before.Keys
  {
    hide Invalidated, WellBuilt, Ranked, Fresh, DependsOn, Drop, Reached;
    InvalidatedIsClosed(m, before, now, x, gone);
    InvalidationKeepsFresh(m, rank, u, u', before, gone);
  }

  // Every item in `gone` but `x` is reached by a change of another item in `gone`.
  ghost predicate Justified(m: Model, gone: set<Id>, x: Id) {
    x in gone && forall y :: y in gone && y != x ==> exists g :: g in gone && Reached(m, y, g)
  }

  // Nothing that depends directly on an item of `gone` is cached.
  ghost predicate Swept(m: Model, cache: Cache, gone: set<Id>) {
    && (forall x, g :: g in gone && g in DependsOn(m, x) ==> Cell(x, Vis) !in cache)
    && (m.modules in gone && Get(m, m.modules).Symbol? ==> cache == map[])
  }

  // What `_rec_invalidate` of `x` does: exactly the items in `gone` are cleared, each with a reason, and
  // all that depends on them.
  ghost predicate Invalidated(m: Model, before: Cache, after: Cache, x: Id, gone: set<Id>) {
    after == Drop(before, gone) && Justified(m, gone, x) && Swept(m, after, gone)
  }

  // The same while the dependents of `x` itself are being visited.
  ghost predicate Partly(m: Model, before: Cache, now: Cache, x: Id, gone: set<Id>) {
    now == Drop(before, gone) && Justified(m, gone, x) && Swept(m, now, gone - {x})
  }

  lemma OneInvalidated(m: Model, before: Cache, x: Id)
    ensures Partly(m, before, Drop(before, {x}), x, {x})
  {
  }

  lemma AllInvalidated(m: Model, before: Cache, x: Id)
    requires x == m.modules && Get(m, x).Symbol?
    requires forall c :: c in before ==> c.id in m.items
    ensures Invalidated(m, before, map[], x, m.items.Keys)
  {
    assert Drop(before, m.items.Keys) == map[];
    assert forall y :: y in m.items ==> Reached(m, y, x);
  }

  lemma FullySwept(m: Model, now: Cache, x: Id, gone: set<Id>)
    requires Swept(m, now, gone - {x}) && !(x == m.modules && Get(m, x).Symbol?)
    requires forall y :: x in DependsOn(m, y) ==> Cell(y, Vis) !in now
    ensures Swept(m, now, gone)
  {
    hide DependsOn;
    forall y, g | g in gone && g in DependsOn(m, y) ensures Cell(y, Vis) !in now {
      if g != x { assert g in gone - {x}; }
    }
    if m.modules in gone && m.modules != x { assert m.modules in gone - {x}; }
  }

  lemma Join(m: Model, start: Cache, before: Cache, now: Cache, x: Id, gone: set<Id>, y: Id, more: set<Id>)
    requires Partly(m, start, before, x, gone) && Invalidated(m, before, now, y, more) && x in DependsOn(m, y)
    ensures Partly(m, start, now, x, gone + more)
    ensures now.Keys <= before.Keys && Cell(y, Vis) !in now
  {
    hide Justified, Swept, DependsOn;
    assert now == Drop(start, gone + more);
    assert now.Keys <= before.Keys;
    JoinJustified(m, x, gone, y, more);
    JoinSwept(m, before, now, x, gone, more);
    assert y in more by { InvalidatedItself(m, more, y); }
  }

  lemma InvalidatedItself(m: Model, gone: set<Id>, x: Id)
    requires Justified(m, gone, x)
    ensures x in gone
  {
  }

  lemma JoinJustified(m: Model, x: Id, gone: set<Id>, y: Id, more: set<Id>)
    requires Justified(m, gone, x) && Justified(m, more, y) && x in DependsOn(m, y)
    ensures Justified(m, gone + more, x)
  {
    hide DependsOn;
    forall z | z in gone + more && z != x ensures exists g :: g in gone + more && Reached(m, z, g) {
      if z == y {
        assert x in gone + more && Reached(m, y, x);
      } else if z in gone {
        var g :| g in gone && Reached(m, z, g);
        assert g in gone + more;
      } else {
        var g :| g in more && Reached(m, z, g);
        assert g in gone + more;
      }
    }
  }

  lemma JoinSwept(m: Model, before: Cache, now: Cache, x: Id, gone: set<Id>, more: set<Id>)
    requires Swept(m, before, gone - {x}) && Swept(m, now, more) && now.Keys <= before.Keys
    ensures Swept(m, now, gone + more - {x})
  {
    hide DependsOn;
    forall y, g | g in gone + more - {x} && g in DependsOn(m, y) ensures Cell(y, Vis) !in now {
      if g !in more { assert g in gone - {x}; }
    }
    if m.modules in gone + more - {x} && m.modules !in more { assert m.modules in gone - {x}; }
  }

  lemma StartsWithVisibility(m: Model, c: Cell)
    requires Cacheable(m, c)
    ensures c.attr == Vis || (CodeOf(m, c).Test? && CodeOf(m, c).cell == Cell(c.id, Vis))
  {
  }

  // One step of running a formula.
  lemma StepRun(m: Model, rank: Cell -> nat, u: Inputs, code: Code, r: nat, p: Cell -> bool, seen: set<Id>)
    requires Ranked(m, rank) && Below(rank, code, r) && Ok(code, p, seen) && code.Test?
    ensures p(code.cell) && (IsInput(code.cell) || rank(code.cell) < r)
    ensures IsInput(code.cell) ==> code.cell.id in seen && Ok(code.yes, p, seen) && Ok(code.no, p, seen)
    ensures !IsInput(code.cell) ==> Ok(code.yes, p, seen + {code.cell.id}) && Ok(code.no, p, seen + {code.cell.id})
    ensures Below(rank, code.yes, r) && Below(rank, code.no, r)
    ensures var next := if Value(m, rank, u, code.cell) == code.v then code.yes else code.no;
            && Exec(m, rank, u, code, r) == Exec(m, rank, u, next, r)
            && Reads(m, rank, u, code, r) == {code.cell} + Reads(m, rank, u, next, r)
  {
    hide Ranked;
    assert KconfigCacheSpec.Read(m, rank, u, code.cell, r) == Value(m, rank, u, code.cell);
  }

  lemma CleanCodeOf(m: Model, rank: Cell -> nat, c: Cell)
    requires Clean(m, rank, c) && Cacheable(m, c)
    ensures CleanCode(m, rank, CodeOf(m, c), rank(c))
  {
  }

  lemma StepClean(m: Model, rank: Cell -> nat, code: Code, r: nat)
    requires CleanCode(m, rank, code, r) && code.Test?
    ensures IsInput(code.cell) || Clean(m, rank, code.cell)
    ensures CleanCode(m, rank, code.yes, r) && CleanCode(m, rank, code.no, r)
  {
  }

  lemma EndRun(m: Model, rank: Cell -> nat, u: Inputs, code: Code, r: nat)
    requires Ranked(m, rank) && Below(rank, code, r) && code.Ret?
    ensures Exec(m, rank, u, code, r) == code.val && Reads(m, rank, u, code, r) == {}
  {
  }

  lemma UseFresh(m: Model, rank: Cell -> nat, u: Inputs, cache: Cache, c: Cell)
    requires Ranked(m, rank) && Fresh(m, rank, u, cache) && c in cache
    ensures Cell(c.id, Vis) in cache
  {
  }

  lemma AddFresh(m: Model, rank: Cell -> nat, u: Inputs, cache: Cache, c: Cell, v: int)
    requires Ranked(m, rank) && Fresh(m, rank, u, cache)
    requires Cacheable(m, c) && (c.attr == Vis || Cell(c.id, Vis) in cache)
    requires Clean(m, rank, c) ==> v == Value(m, rank, u, c) && forall d :: d in ReadsOf(m, rank, u, c) ==> Held(m, cache, d)
    ensures Fresh(m, rank, u, cache[c := v])
  {
    hide Ranked, ReadsOf, Value, Dead, Cacheable, Clean;
    var more := cache[c := v];
    forall x, d | x in more && Clean(m, rank, x) && !Dead(m, x.id) && d in ReadsOf(m, rank, u, x) ensures Held(m, more, d) {
      assert Held(m, cache, d);
    }
  }
}
