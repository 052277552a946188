/** `QueryDslPredicateBuilder`: collects filters for one entity class and folds the
    predicates its factory builds for them into one conjunction. */
module Builder {
  import opened Wrappers
  import opened Operators
  import opened Types
  import opened Errors
  import opened Filters
  import opened Platform
  import opened Predicates
  import opened Factory

  /** `getPredicate(entityType, filter)` of a factory with this context. */
  function FilterPredicate(ctx: Context, t: JavaType, f: Filter): (r: Res<Option<Pred>>)
    ensures EntityName(t).Err? ==> r == Err(IndexOutOfBounds)
  {
    var name :- EntityName(t);
    Compile(ctx, t, Root(name), f)
  }

  /** The factory's `getPredicate(entityType, ·)` as a function of the filter. */
  function Compiler(ctx: Context, t: JavaType): (compile: Filter -> Res<Option<Pred>>)
    ensures forall f :: compile(f) == FilterPredicate(ctx, t, f)
  {
    f => FilterPredicate(ctx, t, f)
  }

  /** The stream of `build`, for the factory's `getPredicate` as `compile`: null
      filters are skipped, each other filter is turned into a predicate in order, null
      predicates are dropped, and the first exception ends the stream. */
  function CompileAll(compile: Filter -> Res<Option<Pred>>, fs: seq<Option<Filter>>): Res<seq<Pred>> {
    if |fs| == 0 then Ok([])
    else
      var init :- CompileAll(compile, fs[..|fs| - 1]);
      var last := fs[|fs| - 1];
      if last.None? then Ok(init)
      else
        var p :- compile(last.value);
        Ok(init + if p.Some? then [p.value] else [])
  }

  /** `build()`: no filters give no predicate; filters that give no predicate at all
      are an error; otherwise the predicates are and-ed onto `TRUE`. */
  function BuildResult(ctx: Context, t: JavaType, fs: seq<Option<Filter>>): Res<Option<Pred>> {
    if |fs| == 0 then Ok(None)
    else
      var ps :- CompileAll(Compiler(ctx, t), fs);
      if |ps| == 0 then Err(NoPredicates) else Ok(Some(Conjunction(ps)))
  }

  /** The stream fails exactly when some non-null filter fails, and then with the error
      of the first one. */
  lemma {:induction false} CompileAllFails(compile: Filter -> Res<Option<Pred>>, fs: seq<Option<Filter>>)
    ensures CompileAll(compile, fs).Ok? <==> forall i :: 0 <= i < |fs| && fs[i].Some? ==> compile(fs[i].value).Ok?
    ensures CompileAll(compile, fs).Err? ==>
      exists i :: 0 <= i < |fs| && fs[i].Some? && compile(fs[i].value) == Err(CompileAll(compile, fs).error) &&
        forall j :: 0 <= j < i && fs[j].Some? ==> compile(fs[j].value).Ok?
  {
    if |fs| > 0 {
      var init := fs[..|fs| - 1];
      CompileAllFails(compile, init);
      assert forall i :: 0 <= i < |init| ==> init[i] == fs[i];
      if CompileAll(compile, init).Err? {
        var i :| 0 <= i < |init| && init[i].Some? && compile(init[i].value) == Err(CompileAll(compile, init).error) &&
          forall j :: 0 <= j < i && init[j].Some? ==> compile(init[j].value).Ok?;
        assert fs[i] == init[i];
      }
    }
  }

  /** When the stream succeeds, the predicate of every non-null filter that gives one
      is in its list. */
  lemma {:induction false} CompileAllKeeps(compile: Filter -> Res<Option<Pred>>, fs: seq<Option<Filter>>)
    requires CompileAll(compile, fs).Ok?
    ensures forall i, p :: 0 <= i < |fs| && fs[i].Some? && compile(fs[i].value) == Ok(Some(p)) ==>
      p in CompileAll(compile, fs).value
  {
    if |fs| > 0 {
      var init := fs[..|fs| - 1];
      CompileAllKeeps(compile, init);
      assert forall i :: 0 <= i < |init| ==> init[i] == fs[i];
    }
  }

  /** And every member of the list is the predicate of one of those filters. */
  lemma {:induction false} CompileAllInvents(compile: Filter -> Res<Option<Pred>>, fs: seq<Option<Filter>>)
    requires CompileAll(compile, fs).Ok?
    ensures forall p :: p in CompileAll(compile, fs).value ==>
      exists i :: 0 <= i < |fs| && fs[i].Some? && compile(fs[i].value) == Ok(Some(p))
    ensures |CompileAll(compile, fs).value| <= |fs|
  {
    if |fs| > 0 {
      var init := fs[..|fs| - 1];
      CompileAllInvents(compile, init);
      assert forall i :: 0 <= i < |init| ==> init[i] == fs[i];
    }
  }

  /** The built predicate holds exactly when every filter's predicate holds. */
  lemma BuildIsConjunction(ctx: Context, t: JavaType, fs: seq<Option<Filter>>, atom: Pred -> bool)
    requires BuildResult(ctx, t, fs).Ok? && BuildResult(ctx, t, fs).value.Some?
    ensures CompileAll(Compiler(ctx, t), fs).Ok?
    ensures Holds(BuildResult(ctx, t, fs).value.value, atom) <==>
      forall p :: p in CompileAll(Compiler(ctx, t), fs).value ==> Holds(p, atom)
  {
    var ps := CompileAll(Compiler(ctx, t), fs).value;
    ConjunctionHolds(ps, atom);
    assert forall p :: p in ps ==> exists i :: 0 <= i < |ps| && ps[i] == p;
  }

  /** One more filter of the stream. */
  lemma CompileAllStep(compile: Filter -> Res<Option<Pred>>, fs: seq<Option<Filter>>, i: nat, ps: seq<Pred>)
    requires i < |fs| && CompileAll(compile, fs[..i]) == Ok(ps)
    ensures fs[i].None? ==> CompileAll(compile, fs[..i + 1]) == Ok(ps)
    ensures fs[i].Some? && compile(fs[i].value).Err? ==>
      CompileAll(compile, fs[..i + 1]) == Err(compile(fs[i].value).error)
    ensures fs[i].Some? && compile(fs[i].value) == Ok(None) ==> CompileAll(compile, fs[..i + 1]) == Ok(ps)
    ensures fs[i].Some? && compile(fs[i].value).Ok? && compile(fs[i].value).value.Some? ==>
      CompileAll(compile, fs[..i + 1]) == Ok(ps + [compile(fs[i].value).value.value])
  {
    assert fs[..i + 1][..i] == fs[..i];
    assert fs[..i + 1][i] == fs[i];
    assert ps + [] == ps;
  }

  /** Once a prefix of the filters fails, the whole stream fails with its error. */
  lemma {:induction false} CompileAllPrefixFails(compile: Filter -> Res<Option<Pred>>, fs: seq<Option<Filter>>, i: nat)
    requires i <= |fs| && CompileAll(compile, fs[..i]).Err?
    ensures CompileAll(compile, fs) == CompileAll(compile, fs[..i])
    decreases |fs|
  {
    if i < |fs| {
      var init := fs[..|fs| - 1];
      assert init[..i] == fs[..i];
      CompileAllPrefixFails(compile, init, i);
    } else {
      assert fs[..i] == fs;
    }
  }

  /** The builder object: its entity class, the filters added so far and its own
      factory. */
  class PredicateBuilder {
    const entityType: JavaType
    var filters: seq<Option<Filter>>
    const factory: PredicateFactory

    constructor (t: JavaType)
      ensures entityType == t && filters == []
      ensures fresh(factory) && !factory.collectionManagerCreated && factory.custom.None?
    {
      entityType := t;
      filters := [];
      factory := new PredicateFactory();
    }

    /** `addCustomTypeManager`: installs the manager in the builder's factory. */
    method AddCustomTypeManager(m: TypeManager)
      modifies factory
      ensures factory.custom == Some(m)
      ensures factory.collectionManagerCreated == old(factory.collectionManagerCreated)
    {
      factory.AddCustomTypeManager(m);
    }

    /** `with(key, operatorText, value)`: the filter `QueryDslFilter.from` builds, which
        is null for an unknown operator text; a blank key or operator is thrown. */
    method WithText(key: Option<string>, operator: Option<string>, value: Option<string>) returns (r: Res<()>)
      modifies this
      ensures Filters.From(key, operator, value).Err? ==>
        r == Err(Filters.From(key, operator, value).error) && filters == old(filters)
      ensures Filters.From(key, operator, value).Ok? ==>
        r == Ok(()) && filters == old(filters) + [Filters.From(key, operator, value).value]
    {
      var f := Filters.From(key, operator, value);
      if f.Err? {
        r := Err(f.error);
        return;
      }
      filters := filters + [f.value];
      r := Ok(());
    }

    /** `with(key, operator, value)`. */
    method WithOperator(key: Option<string>, operator: Operator, value: Option<string>)
      modifies this
      ensures filters == old(filters) + [Some(Filter(key, Some(operator), value))]
    {
      filters := filters + [Some(Filter(key, Some(operator), value))];
    }

    /** `with(filter)`: a null filter is kept and skipped by `build`. */
    method With(f: Option<Filter>)
      modifies this
      ensures filters == old(filters) + [f]
    {
      filters := filters + [f];
    }

    /** `with(filters)`. */
    method WithAll(fs: seq<Option<Filter>>)
      modifies this
      ensures filters == old(filters) + fs
    {
      filters := filters + fs;
    }

    /** The stream of `build()`: the predicates of the filters, in order. */
    method CollectPredicates(schema: Schema, lib: Library) returns (r: Res<seq<Pred>>)
      modifies factory
      ensures factory.custom == old(factory.custom)
      ensures r == CompileAll(Compiler(ProgramContext(schema, lib, factory.custom), entityType), filters)
    {
      var compile := Compiler(ProgramContext(schema, lib, factory.custom), entityType);
      var predicates: seq<Pred> := [];
      for i := 0 to |filters|
        invariant factory.custom == old(factory.custom)
        invariant CompileAll(compile, filters[..i]) == Ok(predicates)
      {
        CompileAllStep(compile, filters, i, predicates);
        if filters[i].Some? {
          var p := factory.GetPredicate(schema, lib, entityType, filters[i].value);
          assert p == compile(filters[i].value);
          if p.Err? {
            CompileAllPrefixFails(compile, filters, i + 1);
            return Err(p.error);
          }
          if p.value.Some? {
            predicates := predicates + [p.value.value];
          }
        }
      }
      assert filters[..|filters|] == filters;
      r := Ok(predicates);
    }

    /** `build()`. */
    method Build(schema: Schema, lib: Library) returns (r: Res<Option<Pred>>)
      modifies factory
      ensures factory.custom == old(factory.custom)
      ensures r == BuildResult(ProgramContext(schema, lib, factory.custom), entityType, filters)
    {
      if |filters| == 0 {
        return Ok(None);
      }
      var predicates := CollectPredicates(schema, lib);
      if predicates.Err? {
        return Err(predicates.error);
      }
      if |predicates.value| == 0 {
        return Err(NoPredicates);
      }
      var result := AndAll(predicates.value);
      r := Ok(Some(result));
    }
  }

  /** The loop of `build()` that and-s the predicates onto `TRUE`. */
  method AndAll(predicates: seq<Pred>) returns (result: Pred)
    ensures result == Conjunction(predicates)
  {
    result := True;
    for j := 0 to |predicates|
      invariant result == Conjunction(predicates[..j])
    {
      assert predicates[..j + 1][..j] == predicates[..j];
      result := And(result, predicates[j]);
    }
    assert predicates[..|predicates|] == predicates;
  }
}
