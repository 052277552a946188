/** The older `es.squdan` builder, whose `PredicateGenerator` ignores the entity's field
    classes and instead chooses a comparison from what the filter's value text parses
    as, and the older value-based date and UUID managers. */
module Legacy {
  import opened Wrappers
  import opened Text
  import opened Operators
  import opened Types
  import opened Errors
  import opened Filters
  import opened Platform
  import opened DateTimes
  import opened Predicates
  import opened Handlers
  import opened Factory
  import Builder

  /** A `QueryDslCustomTypesManager` an application supplies. It receives the builder's
      filter as it is, null included. */
  datatype CustomTypesManager = CustomTypesManager(
    isCustomType: Option<Filter> -> Res<bool>,
    manageCustomType: (EntityPath, Option<Filter>) -> Res<Option<Pred>>)

  /** What one `PredicateGenerator` reads: the library calls and the builder's custom
      manager. */
  datatype LegacyContext = LegacyContext(lib: Library, custom: Option<CustomTypesManager>)

  /** `isDate()`: `toInstantUtc` reads the text with the current formatter list, which
      happens exactly when the text is not blank and some formatter in the list accepts
      it. */
  predicate IsDateText(lib: Library, text: string): (r: bool)
    ensures r <==>
      !IsBlank(Some(text)) && exists i :: 0 <= i < |lib.formatters| && lib.parseDateTime(lib.formatters[i], text).Some?
  {
    FirstParseNone(lib.parseDateTime, lib.formatters, text);
    InstantUtcOf(lib.parseDateTime, lib.formatters, Some(text)).Some?
  }

  /** `isInteger()`: `Integer.parseInt` accepts the text; its `NumberFormatException` is
      caught, never thrown. */
  predicate IsIntegerText(lib: Library, text: string): (r: bool)
    ensures r <==> lib.parseInt(text).Some?
  {
    lib.parseInt(text).Some?
  }

  /** `isDecimal()`: not an integer, and `Double.parseDouble` accepts the text. So it
      never holds together with `isInteger()`, and the two together hold exactly when
      one of the two parsers accepts the text. */
  predicate IsDecimalText(lib: Library, text: string): (r: bool)
    ensures r ==> !IsIntegerText(lib, text) && lib.parseDouble(text).Some?
    ensures (r || IsIntegerText(lib, text)) <==> (lib.parseInt(text).Some? || lib.parseDouble(text).Some?)
  {
    !IsIntegerText(lib, text) && lib.parseDouble(text).Some?
  }

  /** `isUUID()`: `UUID.fromString` accepts the text; the parser never returns null, so
      the null check cannot fail, and its `IllegalArgumentException` is caught. */
  predicate IsUuidText(lib: Library, text: string): (r: bool)
    ensures r <==> lib.uuidFromString(text).Some?
  {
    lib.uuidFromString(text).Some?
  }

  /** The branch of `getPredicate` a value text falls into. */
  datatype ValueKind = DateKind | NumberKind | UuidKind | TextKind

  /** The branches are tried in the order date, number, UUID, and text for the rest. */
  function KindOf(lib: Library, text: string): (k: ValueKind)
    ensures k == DateKind <==> IsDateText(lib, text)
    ensures k == NumberKind <==> !IsDateText(lib, text) && (lib.parseInt(text).Some? || lib.parseDouble(text).Some?)
    ensures k == UuidKind <==>
      !IsDateText(lib, text) && lib.parseInt(text).None? && lib.parseDouble(text).None? && IsUuidText(lib, text)
  {
    if IsDateText(lib, text) then DateKind
    else if IsIntegerText(lib, text) || IsDecimalText(lib, text) then NumberKind
    else if IsUuidText(lib, text) then UuidKind
    else TextKind
  }

  /** The constant a branch compares with: the instant, the `Double.parseDouble`
      reading (absent when only `Integer.parseInt` accepts the text), the UUID, or the
      text itself. */
  function ConstantOf(lib: Library, text: string): (r: Option<Constant>)
    ensures KindOf(lib, text) == DateKind ==>
      r == Some(InstantConstant(InstantUtcOf(lib.parseDateTime, lib.formatters, Some(text)).value))
    ensures KindOf(lib, text) == NumberKind ==>
      (r.Some? <==> lib.parseDouble(text).Some?) && (r.Some? ==> r.value == DoubleConstant(lib.parseDouble(text).value))
    ensures KindOf(lib, text) == UuidKind ==> r == Some(UuidConstant(lib.uuidFromString(text).value))
    ensures KindOf(lib, text) == TextKind ==> r == Some(StringConstant(text))
  {
    match KindOf(lib, text)
    case DateKind => Some(InstantConstant(InstantUtcOf(lib.parseDateTime, lib.formatters, Some(text)).value))
    case NumberKind => (match lib.parseDouble(text) case None => None case Some(d) => Some(DoubleConstant(d)))
    case UuidKind => Some(UuidConstant(lib.uuidFromString(text).value))
    case TextKind => Some(StringConstant(text))
  }

  /** A branch's `switch`, as a table from an operator's meaning to the meaning of the
      comparison the branch builds for it, or to none where the branch only logs a
      warning. `Kept(ms)` builds the operator's own comparison for the meanings `ms`; the
      other two are the tables the code has (see `Entry`). */
  datatype Table = OrderedAsWritten | TextAsWritten | Kept(meanings: set<Meaning>)

  /** The date and number branches as written map `<=` and `lte` to `lt`; the text
      branch as written builds the starts-with comparison but never stores it. */
  function Entry(table: Table, m: Meaning): Option<Meaning> {
    match table
    case OrderedAsWritten =>
      if m == LowerOrEqual then Some(Lower) else if m in OrderedMeanings then Some(m) else None
    case TextAsWritten =>
      if m == StartsWith then None else if m in TextMeanings then Some(m) else None
    case Kept(ms) => if m in ms then Some(m) else None
  }

  /** The meanings each branch is meant to compare. */
  function SupportedBy(k: ValueKind): set<Meaning> {
    match k
    case DateKind => OrderedMeanings
    case NumberKind => OrderedMeanings
    case UuidKind => EqualityMeanings
    case TextKind => TextMeanings
  }

  /** The table a branch uses, given the tables of the ordered and the text branches;
      the UUID branch has no discrepancy. */
  function TableFor(k: ValueKind, ordered: Table, text: Table): Table {
    match k
    case DateKind => ordered
    case NumberKind => ordered
    case UuidKind => Kept(EqualityMeanings)
    case TextKind => text
  }

  /** Switching on a null operator is a `NullPointerException`; an operator without an
      entry gives no predicate, and no exception. */
  function LegacySwitch(table: Table, o: Option<Operator>, e: EntityPath, key: string, c: Constant)
    : (r: Res<Option<Pred>>)
    ensures o.None? ==> r == Err(NullPointer)
    ensures o.Some? ==> r.Ok? && (r.value.Some? <==> Entry(table, MeaningOf(o.value)).Some?)
    ensures o.Some? && r.value.Some? ==>
      r.value.value == PredicateFor(Entry(table, MeaningOf(o.value)).value, e, key, c)
  {
    match o
    case None => Err(NullPointer)
    case Some(op) =>
      match Entry(table, MeaningOf(op))
      case None => Ok(None)
      case Some(m) => Ok(Some(PredicateFor(m, e, key, c)))
  }

  /** `customTypesManager.isCustomType(filter)`, skipped when there is no manager. */
  function CustomClaims(custom: Option<CustomTypesManager>, f: Option<Filter>): (r: Res<bool>)
    ensures custom.None? ==> r == Ok(false)
    ensures r == Ok(true) ==> custom.Some?
  {
    if custom.None? then Ok(false) else custom.value.isCustomType(f)
  }

  /** The built-in branches of `getPredicate`. The value is dereferenced by `isDate`
      before anything else, so a null filter or value is a `NullPointerException`
      whatever the operator; a text only `Integer.parseInt` accepts escapes from
      `Double.parseDouble`. */
  function Dispatch(lib: Library, ordered: Table, text: Table, e: EntityPath, f: Option<Filter>)
    : (r: Res<Option<Pred>>)
    ensures f.None? || f.value.value.None? || f.value.key.None? ==> r == Err(NullPointer)
    ensures f.Some? && f.value.value.Some? && f.value.key.Some? && ConstantOf(lib, f.value.value.value).None? ==>
      r == Err(UncheckedParseFailure("Double.parseDouble", f.value.value.value))
    ensures f.Some? && f.value.value.Some? && f.value.key.Some? && ConstantOf(lib, f.value.value.value).Some? ==>
      var v := f.value.value.value;
      r == LegacySwitch(TableFor(KindOf(lib, v), ordered, text), f.value.operator, e, f.value.key.value,
                        ConstantOf(lib, v).value)
  {
    if f.None? || f.value.value.None? || f.value.key.None? then Err(NullPointer)
    else
      var v := f.value.value.value;
      match ConstantOf(lib, v)
      case None => Err(UncheckedParseFailure("Double.parseDouble", v))
      case Some(c) => LegacySwitch(TableFor(KindOf(lib, v), ordered, text), f.value.operator, e, f.value.key.value, c)
  }

  /** `new PredicateGenerator(entityType, filter).getPredicate()` with the given
      branch tables: the entity name first, then the custom manager, then the value
      tests. */
  function Generate(ctx: LegacyContext, ordered: Table, text: Table, t: JavaType, f: Option<Filter>)
    : (r: Res<Option<Pred>>)
    ensures EntityName(t).Err? ==> r == Err(IndexOutOfBounds)
    ensures EntityName(t).Ok? && CustomClaims(ctx.custom, f).Err? ==> r == Err(CustomClaims(ctx.custom, f).error)
    ensures EntityName(t).Ok? && CustomClaims(ctx.custom, f) == Ok(true) ==>
      r == ctx.custom.value.manageCustomType(Root(EntityName(t).value), f)
    ensures EntityName(t).Ok? && CustomClaims(ctx.custom, f) == Ok(false) ==>
      r == Dispatch(ctx.lib, ordered, text, Root(EntityName(t).value), f)
  {
    match EntityName(t)
    case Err(err) => Err(err)
    case Ok(name) =>
      match CustomClaims(ctx.custom, f)
      case Err(err) => Err(err)
      case Ok(true) => ctx.custom.value.manageCustomType(Root(name), f)
      case Ok(false) => Dispatch(ctx.lib, ordered, text, Root(name), f)
  }

  /** The filters the built-in branches compare: the entity has a name, the custom
      manager does not claim the filter, and its key, operator and a value the branch
      can convert are present. */
  predicate Convertible(ctx: LegacyContext, t: JavaType, f: Option<Filter>) {
    EntityName(t).Ok? && CustomClaims(ctx.custom, f) == Ok(false) && f.Some? &&
    f.value.key.Some? && f.value.operator.Some? && f.value.value.Some? &&
    ConstantOf(ctx.lib, f.value.value.value).Some?
  }

  /** `getPredicate()` as the code has it: a convertible filter gives a predicate
      exactly when its branch supports the operator's meaning, except starts-with on a
      text value, which gives none; the predicate compares on the entity's own path
      against the value's constant, with `<=` built as the strict `<`. */
  function PredicateAsWritten(ctx: LegacyContext, t: JavaType, f: Option<Filter>): (r: Res<Option<Pred>>)
    ensures Convertible(ctx, t, f) ==>
      var m, k := MeaningOf(f.value.operator.value), KindOf(ctx.lib, f.value.value.value);
      r.Ok? && (r.value.Some? <==> m in SupportedBy(k) && !(k == TextKind && m == StartsWith))
    ensures Convertible(ctx, t, f) && r.Ok? && r.value.Some? ==>
      var m := MeaningOf(f.value.operator.value);
      r.value.value == PredicateFor(if m == LowerOrEqual then Lower else m, Root(EntityName(t).value),
                                    f.value.key.value, ConstantOf(ctx.lib, f.value.value.value).value)
  {
    Generate(ctx, OrderedAsWritten, TextAsWritten, t, f)
  }

  /** `getPredicate()` with every branch building the comparison its operator names: a
      convertible filter gives a predicate exactly when its branch supports the
      operator's meaning, and that predicate is the comparison the meaning names, on the
      entity's own path, against the value's constant. */
  function GetPredicate(ctx: LegacyContext, t: JavaType, f: Option<Filter>): (r: Res<Option<Pred>>)
    ensures Convertible(ctx, t, f) ==>
      r.Ok? && (r.value.Some? <==> MeaningOf(f.value.operator.value) in SupportedBy(KindOf(ctx.lib, f.value.value.value)))
    ensures Convertible(ctx, t, f) && r.Ok? && r.value.Some? ==>
      r.value.value == PredicateFor(MeaningOf(f.value.operator.value), Root(EntityName(t).value),
                                    f.value.key.value, ConstantOf(ctx.lib, f.value.value.value).value)
  {
    Generate(ctx, Kept(OrderedMeanings), Kept(TextMeanings), t, f)
  }

  /** For a field whose values are strictly totally ordered, the predicate holds in
      exactly the rows the filter operator's meaning selects. */
  lemma GetPredicateIsIntended(ctx: LegacyContext, t: JavaType, f: Filter, row: Row)
    requires EntityName(t).Ok? && CustomClaims(ctx.custom, Some(f)) == Ok(false)
    requires f.key.Some? && f.operator.Some? && f.value.Some? && ConstantOf(ctx.lib, f.value.value).Some?
    requires GetPredicate(ctx, t, Some(f)) != Ok(None)
    requires StrictTotalOrder(row.less)
    ensures GetPredicate(ctx, t, Some(f)).Ok? && GetPredicate(ctx, t, Some(f)).value.Some?
    ensures AtomHolds(GetPredicate(ctx, t, Some(f)).value.value, row) <==>
      Intended(MeaningOf(f.operator.value), row.field, ConstantOf(ctx.lib, f.value.value).value, row.less)
  {
    PredicateForIsIntended(MeaningOf(f.operator.value), Root(EntityName(t).value), f.key.value,
                           ConstantOf(ctx.lib, f.value.value).value, row);
  }

  /** A null value fails even for `isNull` and `nonNull`, unless the custom manager
      claims the filter first. */
  lemma NullValueFails(ctx: LegacyContext, t: JavaType, f: Filter)
    requires EntityName(t).Ok? && CustomClaims(ctx.custom, Some(f)) == Ok(false)
    requires f.value.None?
    ensures PredicateAsWritten(ctx, t, Some(f)) == Err(NullPointer)
    ensures GetPredicate(ctx, t, Some(f)) == Err(NullPointer)
  {
  }

  /** The as-written `<=` on a date or number value: the code builds `lt`, which does
      not hold in a row whose field equals the value, although `<=` asks for exactly
      such rows; the corrected table's `loe` holds there. */
  lemma LowerOrEqualIsStrictAsWritten(ctx: LegacyContext, t: JavaType, key: string, v: string, row: Row)
    requires EntityName(t).Ok? && ctx.custom.None?
    requires KindOf(ctx.lib, v) in {DateKind, NumberKind} && ConstantOf(ctx.lib, v).Some?
    requires StrictTotalOrder(row.less) && row.field == ConstantOf(ctx.lib, v)
    ensures
      var f := Some(Filter(Some(key), Some(LowerThanOrEquals), Some(v)));
      var c := ConstantOf(ctx.lib, v).value;
      PredicateAsWritten(ctx, t, f) == Ok(Some(Compare(Root(EntityName(t).value), key, Lt, c))) &&
      !AtomHolds(Compare(Root(EntityName(t).value), key, Lt, c), row) &&
      Intended(LowerOrEqual, row.field, c, row.less) &&
      GetPredicate(ctx, t, f) == Ok(Some(Compare(Root(EntityName(t).value), key, Loe, c))) &&
      AtomHolds(Compare(Root(EntityName(t).value), key, Loe, c), row)
  {
    var c := ConstantOf(ctx.lib, v).value;
    LowerOrEqualBuiltAsWritten(ctx, t, key, v);
    LowerOrEqualBuiltCorrected(ctx, t, key, v);
    assert !row.less(c, c);
  }

  /** What the as-written table builds for `<=` on a date or number value. */
  lemma LowerOrEqualBuiltAsWritten(ctx: LegacyContext, t: JavaType, key: string, v: string)
    requires EntityName(t).Ok? && ctx.custom.None?
    requires KindOf(ctx.lib, v) in {DateKind, NumberKind} && ConstantOf(ctx.lib, v).Some?
    ensures PredicateAsWritten(ctx, t, Some(Filter(Some(key), Some(LowerThanOrEquals), Some(v))))
      == Ok(Some(Compare(Root(EntityName(t).value), key, Lt, ConstantOf(ctx.lib, v).value)))
  {
  }

  /** What the corrected table builds for `<=` on a date or number value. */
  lemma LowerOrEqualBuiltCorrected(ctx: LegacyContext, t: JavaType, key: string, v: string)
    requires EntityName(t).Ok? && ctx.custom.None?
    requires KindOf(ctx.lib, v) in {DateKind, NumberKind} && ConstantOf(ctx.lib, v).Some?
    ensures GetPredicate(ctx, t, Some(Filter(Some(key), Some(LowerThanOrEquals), Some(v))))
      == Ok(Some(Compare(Root(EntityName(t).value), key, Loe, ConstantOf(ctx.lib, v).value)))
  {
  }

  /** The as-written `starts` on a text value: the comparison is built and dropped, so
      the filter gives no predicate, where the corrected table gives the ignore-case
      prefix comparison. */
  lemma StartsWithDroppedAsWritten(ctx: LegacyContext, t: JavaType, key: string, v: string)
    requires EntityName(t).Ok? && ctx.custom.None? && KindOf(ctx.lib, v) == TextKind
    ensures PredicateAsWritten(ctx, t, Some(Filter(Some(key), Some(StartsWithFunction), Some(v)))) == Ok(None)
    ensures GetPredicate(ctx, t, Some(Filter(Some(key), Some(StartsWithFunction), Some(v)))) ==
      Ok(Some(Compare(Root(EntityName(t).value), key, StartsWithIgnoreCase, StringConstant(v))))
  {
  }

  /** The corrected tables agree with the as-written ones everywhere else. */
  lemma TablesDifferOnlyThere(m: Meaning)
    ensures m != LowerOrEqual ==> Entry(OrderedAsWritten, m) == Entry(Kept(OrderedMeanings), m)
    ensures m != StartsWith ==> Entry(TextAsWritten, m) == Entry(Kept(TextMeanings), m)
    ensures Entry(OrderedAsWritten, LowerOrEqual) == Some(Lower) && Entry(Kept(OrderedMeanings), LowerOrEqual) == Some(LowerOrEqual)
    ensures Entry(TextAsWritten, StartsWith).None? && Entry(Kept(TextMeanings), StartsWith) == Some(StartsWith)
  {
  }

  /** The stream of `build`: every filter, null ones included, goes through
      `getPredicate`; null predicates are dropped; the first exception ends the stream. */
  function CompileEach(compile: Option<Filter> -> Res<Option<Pred>>, fs: seq<Option<Filter>>): Res<seq<Pred>> {
    if |fs| == 0 then Ok([])
    else
      match CompileEach(compile, fs[..|fs| - 1])
      case Err(err) => Err(err)
      case Ok(init) =>
        match compile(fs[|fs| - 1])
        case Err(err) => Err(err)
        case Ok(p) => Ok(init + if p.Some? then [p.value] else [])
  }

  /** `build()` over a per-filter compilation: no filters, or no predicates from them,
      give no predicate (the latter is only logged); otherwise the predicates are
      and-ed onto `TRUE`. */
  function BuildWith(compile: Option<Filter> -> Res<Option<Pred>>, fs: seq<Option<Filter>>): Res<Option<Pred>> {
    if |fs| == 0 then Ok(None)
    else
      match CompileEach(compile, fs)
      case Err(err) => Err(err)
      case Ok(ps) => if |ps| == 0 then Ok(None) else Ok(Some(Conjunction(ps)))
  }

  /** `getPredicate()` as a function of the filter. */
  function Compiler(ctx: LegacyContext, t: JavaType): (compile: Option<Filter> -> Res<Option<Pred>>)
    ensures forall f :: compile(f) == GetPredicate(ctx, t, f)
  {
    f => GetPredicate(ctx, t, f)
  }

  /** The as-written `getPredicate()` as a function of the filter. */
  function CompilerAsWritten(ctx: LegacyContext, t: JavaType): (compile: Option<Filter> -> Res<Option<Pred>>)
    ensures forall f :: compile(f) == PredicateAsWritten(ctx, t, f)
  {
    f => PredicateAsWritten(ctx, t, f)
  }

  /** The stream fails exactly when some filter fails, and then with the error of the
      first one. */
  lemma {:induction false} CompileEachFails(compile: Option<Filter> -> Res<Option<Pred>>, fs: seq<Option<Filter>>)
    ensures CompileEach(compile, fs).Ok? <==> forall i :: 0 <= i < |fs| ==> compile(fs[i]).Ok?
    ensures CompileEach(compile, fs).Err? ==>
      exists i :: 0 <= i < |fs| && compile(fs[i]) == Err(CompileEach(compile, fs).error) &&
        forall j :: 0 <= j < i ==> compile(fs[j]).Ok?
  {
    if |fs| > 0 {
      var init := fs[..|fs| - 1];
      CompileEachFails(compile, init);
      assert forall i :: 0 <= i < |init| ==> init[i] == fs[i];
      if CompileEach(compile, init).Err? {
        var i :| 0 <= i < |init| && compile(init[i]) == Err(CompileEach(compile, init).error) &&
          forall j :: 0 <= j < i ==> compile(init[j]).Ok?;
        assert fs[i] == init[i];
      }
    }
  }

  /** When the stream succeeds, its list holds the predicate of every filter that gives
      one, and nothing else. */
  lemma {:induction false} CompileEachMembers(compile: Option<Filter> -> Res<Option<Pred>>, fs: seq<Option<Filter>>)
    requires CompileEach(compile, fs).Ok?
    ensures forall i, p :: 0 <= i < |fs| && compile(fs[i]) == Ok(Some(p)) ==> p in CompileEach(compile, fs).value
    ensures forall p :: p in CompileEach(compile, fs).value ==> exists i :: 0 <= i < |fs| && compile(fs[i]) == Ok(Some(p))
    ensures |CompileEach(compile, fs).value| <= |fs|
  {
    if |fs| > 0 {
      var init := fs[..|fs| - 1];
      CompileEachMembers(compile, init);
      assert forall i :: 0 <= i < |init| ==> init[i] == fs[i];
    }
  }

  /** Unlike the newer builder, `build` never fails for want of predicates: it fails
      exactly when some filter's `getPredicate` throws. */
  lemma BuildFailsOnlyByException(compile: Option<Filter> -> Res<Option<Pred>>, fs: seq<Option<Filter>>)
    ensures BuildWith(compile, fs).Err? <==> exists i :: 0 <= i < |fs| && compile(fs[i]).Err?
    ensures BuildWith(compile, fs).Err? ==> BuildWith(compile, fs).error == CompileEach(compile, fs).error
  {
    CompileEachFails(compile, fs);
  }

  /** The built predicate holds exactly when every filter's predicate holds. */
  lemma BuildIsConjunction(compile: Option<Filter> -> Res<Option<Pred>>, fs: seq<Option<Filter>>, atom: Pred -> bool)
    requires BuildWith(compile, fs).Ok? && BuildWith(compile, fs).value.Some?
    ensures CompileEach(compile, fs).Ok?
    ensures Holds(BuildWith(compile, fs).value.value, atom) <==>
      forall p :: p in CompileEach(compile, fs).value ==> Holds(p, atom)
  {
    var ps := CompileEach(compile, fs).value;
    ConjunctionHolds(ps, atom);
    assert forall p :: p in ps ==> exists i :: 0 <= i < |ps| && ps[i] == p;
  }

  /** Finding 3 at the level of `build`: a query with only a starts-with filter on a
      text value as written applies no condition at all. */
  lemma StartsWithQueryMatchesEverything(ctx: LegacyContext, t: JavaType, key: string, v: string)
    requires EntityName(t).Ok? && ctx.custom.None? && KindOf(ctx.lib, v) == TextKind
    ensures BuildWith(CompilerAsWritten(ctx, t), [Some(Filter(Some(key), Some(StartsWithFunction), Some(v)))]) == Ok(None)
    ensures BuildWith(Compiler(ctx, t), [Some(Filter(Some(key), Some(StartsWithFunction), Some(v)))]) ==
      Ok(Some(And(True, Compare(Root(EntityName(t).value), key, StartsWithIgnoreCase, StringConstant(v)))))
  {
    var fs := [Some(Filter(Some(key), Some(StartsWithFunction), Some(v)))];
    StartsWithDroppedAsWritten(ctx, t, key, v);
    assert fs[..0] == [] && fs[..1] == fs;
    CompileEachStep(CompilerAsWritten(ctx, t), fs, 0, []);
    CompileEachStep(Compiler(ctx, t), fs, 0, []);
    ConjunctionAppend([], Compare(Root(EntityName(t).value), key, StartsWithIgnoreCase, StringConstant(v)));
  }

  /** One more filter of the stream. */
  lemma CompileEachStep(compile: Option<Filter> -> Res<Option<Pred>>, fs: seq<Option<Filter>>, i: nat, ps: seq<Pred>)
    requires i < |fs| && CompileEach(compile, fs[..i]) == Ok(ps)
    ensures compile(fs[i]).Err? ==> CompileEach(compile, fs[..i + 1]) == Err(compile(fs[i]).error)
    ensures compile(fs[i]) == Ok(None) ==> CompileEach(compile, fs[..i + 1]) == Ok(ps)
    ensures compile(fs[i]).Ok? && compile(fs[i]).value.Some? ==>
      CompileEach(compile, fs[..i + 1]) == Ok(ps + [compile(fs[i]).value.value])
  {
    assert fs[..i + 1][..i] == fs[..i];
    assert fs[..i + 1][i] == fs[i];
    assert ps + [] == ps;
  }

  /** Once a prefix of the filters fails, the whole stream fails with its error. */
  lemma {:induction false} CompileEachPrefixFails(compile: Option<Filter> -> Res<Option<Pred>>, fs: seq<Option<Filter>>, i: nat)
    requires i <= |fs| && CompileEach(compile, fs[..i]).Err?
    ensures CompileEach(compile, fs) == CompileEach(compile, fs[..i])
    decreases |fs|
  {
    if i < |fs| {
      var init := fs[..|fs| - 1];
      assert init[..i] == fs[..i];
      CompileEachPrefixFails(compile, init, i);
    } else {
      assert fs[..i] == fs;
    }
  }

  /** The legacy builder object: its entity class, the filters added so far and the
      optional custom manager. */
  class LegacyPredicateBuilder {
    const entityType: JavaType
    var filters: seq<Option<Filter>>
    var customTypesManager: Option<CustomTypesManager>

    constructor (t: JavaType)
      ensures entityType == t && filters == [] && customTypesManager.None?
    {
      entityType := t;
      filters := [];
      customTypesManager := None;
    }

    /** `addCustomTypesManager`: replaces any earlier manager. */
    method AddCustomTypesManager(m: CustomTypesManager)
      modifies this
      ensures customTypesManager == Some(m) && filters == old(filters)
    {
      customTypesManager := Some(m);
    }

    /** `with(key, operatorText, value)`: the filter `QueryDslFilter.from` builds, which
        is null for an unknown operator text; a blank key or operator is thrown. */
    method WithText(key: Option<string>, operator: Option<string>, value: Option<string>) returns (r: Res<()>)
      modifies this
      ensures customTypesManager == old(customTypesManager)
      ensures Filters.From(key, operator, value).Err? ==>
        r == Err(Filters.From(key, operator, value).error) && filters == old(filters)
      ensures Filters.From(key, operator, value).Ok? ==>
        r == Ok(()) && filters == old(filters) + [Filters.From(key, operator, value).value]
    {
      var f := Filters.From(key, operator, value);
      if f.Err? {
        r := Err(f.error);
        return;
      }
      filters := filters + [f.value];
      r := Ok(());
    }

    /** `with(key, operator, value)`. */
    method WithOperator(key: Option<string>, operator: Operator, value: Option<string>)
      modifies this
      ensures customTypesManager == old(customTypesManager)
      ensures filters == old(filters) + [Some(Filter(key, Some(operator), value))]
    {
      filters := filters + [Some(Filter(key, Some(operator), value))];
    }

    /** `with(filter)`: a null filter is kept, and reaches `getPredicate`. */
    method With(f: Option<Filter>)
      modifies this
      ensures customTypesManager == old(customTypesManager)
      ensures filters == old(filters) + [f]
    {
      filters := filters + [f];
    }

    /** `with(filters)`. */
    method WithAll(fs: seq<Option<Filter>>)
      modifies this
      ensures customTypesManager == old(customTypesManager)
      ensures filters == old(filters) + fs
    {
      filters := filters + fs;
    }

    /** The stream of `build()`: one fresh `PredicateGenerator` per filter, in order. */
    method CollectPredicates(lib: Library) returns (r: Res<seq<Pred>>)
      ensures r == CompileEach(CompilerAsWritten(LegacyContext(lib, customTypesManager), entityType), filters)
    {
      var compile := CompilerAsWritten(LegacyContext(lib, customTypesManager), entityType);
      var predicates: seq<Pred> := [];
      for i := 0 to |filters|
        invariant CompileEach(compile, filters[..i]) == Ok(predicates)
      {
        CompileEachStep(compile, filters, i, predicates);
        var p := PredicateAsWritten(LegacyContext(lib, customTypesManager), entityType, filters[i]);
        if p.Err? {
          CompileEachPrefixFails(compile, filters, i + 1);
          return Err(p.error);
        }
        if p.value.Some? {
          predicates := predicates + [p.value.value];
        }
      }
      assert filters[..|filters|] == filters;
      r := Ok(predicates);
    }

    /** `build()`. */
    method Build(lib: Library) returns (r: Res<Option<Pred>>)
      ensures r == BuildWith(CompilerAsWritten(LegacyContext(lib, customTypesManager), entityType), filters)
    {
      if |filters| == 0 {
        return Ok(None);
      }
      var predicates := CollectPredicates(lib);
      if predicates.Err? {
        return Err(predicates.error);
      }
      if |predicates.value| == 0 {
        return Ok(None);
      }
      var result := Builder.AndAll(predicates.value);
      r := Ok(Some(result));
    }
  }

  /** The legacy date manager's `isAsignable`: the value is present and `toInstantUtc`
      reads it. */
  function DateAssignable(lib: Library, f: Filter): (r: bool)
    ensures r <==> f.value.Some? && InstantUtcOf(lib.parseDateTime, lib.formatters, f.value).Some?
  {
    f.value.Some? && IsDateText(lib, f.value.value)
  }

  /** The instant `manage` compares with: the value re-parsed without a check, so the
      null reference when it does not parse. */
  function InstantOrNull(lib: Library, text: string): (c: Constant)
    ensures IsDateText(lib, text) ==> c == InstantConstant(InstantUtcOf(lib.parseDateTime, lib.formatters, Some(text)).value)
    ensures !IsDateText(lib, text) ==> c == NullConstant
  {
    match InstantUtcOf(lib.parseDateTime, lib.formatters, Some(text))
    case None => NullConstant
    case Some(i) => InstantConstant(i)
  }

  /** The legacy date manager's `manage`: the key and the value must be present; the
      eight order comparisons are built, and the text operators are rejected as
      unsupported for "Date". */
  function DateManagerManage(lib: Library, e: EntityPath, f: Filter): (r: Res<Pred>)
    ensures f.key.None? || f.value.None? ==> r == Err(NullPointer)
    ensures f.key.Some? && f.value.Some? ==>
      r == Switch(OrderedMeanings, f.operator, e, f.key.value, InstantOrNull(lib, f.value.value), "Date")
  {
    if f.key.None? || f.value.None? then Err(NullPointer)
    else Switch(OrderedMeanings, f.operator, e, f.key.value, InstantOrNull(lib, f.value.value), "Date")
  }

  /** After `isAsignable`, `manage` compares with the parsed instant, `<=` included as
      `loe`, and rejects exactly the operators outside the order comparisons. */
  lemma AssignableDateIsCompared(lib: Library, e: EntityPath, f: Filter)
    requires DateAssignable(lib, f) && f.key.Some? && f.operator.Some?
    ensures DateManagerManage(lib, e, f).Ok? <==> MeaningOf(f.operator.value) in OrderedMeanings
    ensures DateManagerManage(lib, e, f).Err? ==>
      DateManagerManage(lib, e, f).error == OperationNotSupported(f.operator.value, "Date")
    ensures DateManagerManage(lib, e, f).Ok? ==>
      DateManagerManage(lib, e, f).value ==
        PredicateFor(MeaningOf(f.operator.value), e, f.key.value,
                     InstantConstant(InstantUtcOf(lib.parseDateTime, lib.formatters, f.value).value))
  {
  }

  /** The legacy UUID manager's `isAsignable`: the value is present and `UUID.fromString`
      accepts it. */
  function UuidAssignable(lib: Library, f: Filter): (r: bool)
    ensures r <==> f.value.Some? && lib.uuidFromString(f.value.value).Some?
  {
    f.value.Some? && IsUuidText(lib, f.value.value)
  }

  /** The legacy UUID manager's `manage`: the value, printed with `String.valueOf`, is
      parsed again without a guard, so a text that is not a UUID escapes as the parser's
      own exception. */
  function UuidManagerManage(lib: Library, e: EntityPath, f: Filter): (r: Res<Pred>)
    ensures f.key.None? ==> r == Err(NullPointer)
    ensures f.key.Some? && lib.uuidFromString(ValueOf(f.value)).None? ==>
      r == Err(UncheckedParseFailure("UUID.fromString", ValueOf(f.value)))
    ensures f.key.Some? && lib.uuidFromString(ValueOf(f.value)).Some? ==>
      r == Switch(EqualityMeanings, f.operator, e, f.key.value, UuidConstant(lib.uuidFromString(ValueOf(f.value)).value), "UUID")
  {
    if f.key.None? then Err(NullPointer)
    else
      match lib.uuidFromString(ValueOf(f.value))
      case None => Err(UncheckedParseFailure("UUID.fromString", ValueOf(f.value)))
      case Some(u) => Switch(EqualityMeanings, f.operator, e, f.key.value, UuidConstant(u), "UUID")
  }

  /** `manage` on a filter `isAsignable` refuses fails with an exception that is not a
      `QueryDslFiltersException`; on one it accepts, it fails only for an operator
      outside the four equality checks. */
  lemma UuidManagerOutcomes(lib: Library, e: EntityPath, f: Filter)
    requires f.key.Some? && f.value.Some? && f.operator.Some?
    ensures !UuidAssignable(lib, f) ==>
      UuidManagerManage(lib, e, f).Err? && !IsFiltersException(UuidManagerManage(lib, e, f).error)
    ensures UuidAssignable(lib, f) ==>
      (UuidManagerManage(lib, e, f).Ok? <==> MeaningOf(f.operator.value) in EqualityMeanings)
  {
  }
}
