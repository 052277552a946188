/** The built-in `QueryDslTypeManager`s: each decides from the field's declared class
    whether it handles a filter, converts the filter's value text into a constant of that
    class, and maps the filter's operator to a QueryDSL comparison, or rejects it. */
module Handlers {
  import opened Wrappers
  import opened Text
  import opened Operators
  import opened Types
  import opened Errors
  import opened Filters
  import opened Platform
  import opened DateTimes
  import opened Predicates
  import opened Paths

  /** A strict total order, as the order of a comparable Java type is. */
  ghost predicate StrictTotalOrder(less: (Constant, Constant) -> bool) {
    (forall x :: !less(x, x)) &&
    (forall x, y :: less(x, y) ==> !less(y, x)) &&
    (forall x, y :: less(x, y) || x == y || less(y, x))
  }

  /** What a filter with an operator of meaning `m` and the value `c` asks of a row whose
      field holds `field`: the reading the operator names promise, with the text
      operators matching regardless of case. */
  ghost predicate Intended(m: Meaning, field: Option<Constant>, c: Constant, less: (Constant, Constant) -> bool) {
    match m
    case NullCheck => field.None?
    case NotNullCheck => field.Some?
    case Equality => field == Some(c)
    case Inequality => field.Some? && field != Some(c)
    case Greater => field.Some? && less(c, field.value)
    case GreaterOrEqual => field.Some? && !less(field.value, c)
    case Lower => field.Some? && less(field.value, c)
    case LowerOrEqual => field.Some? && !less(c, field.value)
    case StartsWith =>
      field.Some? && field.value.StringConstant? && c.StringConstant? &&
      exists rest :: LowerText(field.value.text) == LowerText(c.text) + rest
    case EndsWith =>
      field.Some? && field.value.StringConstant? && c.StringConstant? &&
      exists front :: LowerText(field.value.text) == front + LowerText(c.text)
    case Contains =>
      field.Some? && field.value.StringConstant? && c.StringConstant? &&
      exists front, rest :: LowerText(field.value.text) == front + LowerText(c.text) + rest
  }

  /** The predicate every handler builds for an operator of meaning `m` on the field
      `key` of `e`, compared with `c`. */
  function PredicateFor(m: Meaning, e: EntityPath, key: string, c: Constant): (r: Pred)
    ensures !r.True? && !r.And? && r.entity == e && r.key == key
  {
    match m
    case NullCheck => IsNull(e, key)
    case NotNullCheck => IsNotNull(e, key)
    case Equality => Compare(e, key, Eq, c)
    case Inequality => Compare(e, key, Ne, c)
    case StartsWith => Compare(e, key, StartsWithIgnoreCase, c)
    case EndsWith => Compare(e, key, EndsWithIgnoreCase, c)
    case Contains => Compare(e, key, ContainsIgnoreCase, c)
    case Greater => Compare(e, key, Gt, c)
    case GreaterOrEqual => Compare(e, key, Goe, c)
    case Lower => Compare(e, key, Lt, c)
    case LowerOrEqual => Compare(e, key, Loe, c)
  }

  lemma PrefixWitness(x: string, c: string)
    ensures c <= x <==> exists rest :: x == c + rest
  {
    if c <= x {
      assert x == c + x[|c|..];
    }
  }

  lemma SuffixWitness(x: string, c: string)
    ensures (|c| <= |x| && x[|x| - |c|..] == c) <==> exists front :: x == front + c
  {
    if |c| <= |x| && x[|x| - |c|..] == c {
      assert x == x[..|x| - |c|] + c;
    }
    if exists front :: x == front + c {
      var front :| x == front + c;
      assert x[|x| - |c|..] == c;
    }
  }

  lemma InfixWitness(x: string, c: string)
    ensures (exists i: nat :: i <= |x| && OccursAt(x, c, i)) <==> exists front, rest :: x == front + c + rest
  {
    if exists i: nat :: i <= |x| && OccursAt(x, c, i) {
      var i: nat :| i <= |x| && OccursAt(x, c, i);
      assert x == x[..i] + c + x[i + |c|..];
    }
    if exists front, rest :: x == front + c + rest {
      var front, rest :| x == front + c + rest;
      assert OccursAt(x, c, |front|) by {
        assert x[|front|..|front| + |c|] == c;
      }
    }
  }

  lemma OrderFacts(less: (Constant, Constant) -> bool, x: Constant, c: Constant)
    requires StrictTotalOrder(less)
    ensures !less(x, c) <==> less(c, x) || x == c
    ensures !less(c, x) <==> less(x, c) || x == c
  {
    assert !less(x, x);
    assert less(x, c) || x == c || less(c, x);
    assert less(x, c) ==> !less(c, x);
  }

  lemma TextFacts(m: Meaning, e: EntityPath, key: string, c: Constant, row: Row)
    requires m in {StartsWith, EndsWith, Contains}
    ensures AtomHolds(PredicateFor(m, e, key, c), row) <==> Intended(m, row.field, c, row.less)
  {
    if row.field.Some? && row.field.value.StringConstant? && c.StringConstant? {
      var x := LowerText(row.field.value.text);
      var y := LowerText(c.text);
      match m
      case StartsWith => PrefixWitness(x, y);
      case EndsWith => SuffixWitness(x, y);
      case Contains => InfixWitness(x, y);
    }
  }

  /** Every predicate a handler builds holds in exactly the rows its operator's meaning
      selects, when the field's order is a strict total order. */
  lemma PredicateForIsIntended(m: Meaning, e: EntityPath, key: string, c: Constant, row: Row)
    requires StrictTotalOrder(row.less)
    ensures AtomHolds(PredicateFor(m, e, key, c), row) <==> Intended(m, row.field, c, row.less)
  {
    if m in {StartsWith, EndsWith, Contains} {
      TextFacts(m, e, key, c, row);
    } else if row.field.Some? {
      OrderFacts(row.less, row.field.value, c);
    }
  }

  /** The meanings the date and number handlers compare. */
  const OrderedMeanings: set<Meaning> :=
    {NullCheck, NotNullCheck, Equality, Inequality, Greater, GreaterOrEqual, Lower, LowerOrEqual}

  /** The meanings the UUID and boolean handlers compare. */
  const EqualityMeanings: set<Meaning> := {NullCheck, NotNullCheck, Equality, Inequality}

  /** The meanings the string handler compares. */
  const TextMeanings: set<Meaning> := EqualityMeanings + {StartsWith, EndsWith, Contains}

  /** A handler's `switch (filter.getOperator())`: a null operator is a
      `NullPointerException`; an operator outside the handler's meanings is an
      `OperationNotSupported` naming the handler's type label. */
  function Switch(supported: set<Meaning>, o: Option<Operator>, e: EntityPath, key: string, c: Constant, typeLabel: string)
    : (r: Res<Pred>)
    ensures o.None? ==> r == Err(NullPointer)
    ensures o.Some? ==> (r.Ok? <==> MeaningOf(o.value) in supported)
    ensures o.Some? && r.Err? ==> r.error == OperationNotSupported(o.value, typeLabel)
  {
    if o.None? then Err(NullPointer)
    else if MeaningOf(o.value) in supported then Ok(PredicateFor(MeaningOf(o.value), e, key, c))
    else Err(OperationNotSupported(o.value, typeLabel))
  }

  /** The date handler's `isSupported`: the declared class at the end of the key is a
      `Temporal` or a `Date`. */
  function DateSupports(schema: Schema, t: JavaType, f: Filter): (r: Res<bool>)
    ensures f.key.None? ==> r == Err(NullPointer)
    ensures f.key.Some? ==> r.Ok? == TypeOf(schema, t, f.key.value).Ok?
    ensures r.Ok? ==> (r.value <==> IsDateLike(TypeOf(schema, t, f.key.value).value))
  {
    if f.key.None? then Err(NullPointer)
    else
      var fieldType :- TypeOf(schema, t, f.key.value);
      Ok(IsDateLike(fieldType))
  }

  /** The date handler's conversion of the value text for a field of class `fieldType`:
      date-times go through `toInstantUtc` with the current formatter list, local dates
      through `toLocalDate`. */
  function DateValue(lib: Library, fieldType: JavaType, text: string): (r: Option<Constant>)
    requires fieldType.InstantType? || fieldType.LocalDateTimeType? || fieldType.LocalDateType?
    ensures !fieldType.LocalDateType? ==>
      (r.Some? <==> LocalDateTimeOf(lib.parseDateTime, lib.formatters, Some(text)).Some?)
    ensures !fieldType.LocalDateType? && r.Some? ==>
      r.value == InstantConstant(AtUtc(LocalDateTimeOf(lib.parseDateTime, lib.formatters, Some(text)).value))
    ensures fieldType.LocalDateType? ==> (r.Some? <==> lib.toLocalDate(text).Some?)
  {
    if fieldType.LocalDateType? then
      match lib.toLocalDate(text)
      case None => None
      case Some(d) => Some(LocalDateConstant(d))
    else
      match InstantUtcOf(lib.parseDateTime, lib.formatters, Some(text))
      case None => None
      case Some(i) => Some(InstantConstant(i))
  }

  /** The date handler's `manage`. The field class must be `Instant`, `LocalDateTime` or
      `LocalDate`; the value must be present and parse, whatever the operator, before the
      operator is looked at. */
  function DateManage(schema: Schema, lib: Library, t: JavaType, e: EntityPath, f: Filter): (r: Res<Pred>)
    ensures f.key.None? ==> r == Err(NullPointer)
    ensures f.key.Some? && TypeOf(schema, t, f.key.value).Err? ==> r == Err(TypeOf(schema, t, f.key.value).error)
    ensures r.Ok? ==> f.key.Some? && f.value.Some? && f.operator.Some?
    ensures r.Ok? ==> MeaningOf(f.operator.value) in OrderedMeanings
    ensures f.key.Some? && TypeOf(schema, t, f.key.value).Ok? ==>
      var fieldType := TypeOf(schema, t, f.key.value).value;
      if !(fieldType.InstantType? || fieldType.LocalDateTimeType? || fieldType.LocalDateType?) then
        r == Err(DateTypeNotSupported(fieldType))
      else if f.value.None? then r == Err(NullPointer)
      else if DateValue(lib, fieldType, f.value.value).None? then r == Err(ValueNotParsable(f.operator, f.value))
      else r == Switch(OrderedMeanings, f.operator, e, f.key.value, DateValue(lib, fieldType, f.value.value).value, "Date")
  {
    if f.key.None? then Err(NullPointer)
    else
      var fieldType :- TypeOf(schema, t, f.key.value);
      if !(fieldType.InstantType? || fieldType.LocalDateTimeType? || fieldType.LocalDateType?) then
        Err(DateTypeNotSupported(fieldType))
      else if f.value.None? then Err(NullPointer)
      else
        match DateValue(lib, fieldType, f.value.value)
        case None => Err(ValueNotParsable(f.operator, f.value))
        case Some(c) => Switch(OrderedMeanings, f.operator, e, f.key.value, c, "Date")
  }

  /** The number handler's `isSupported`: the declared class is a `Number` subclass. */
  function NumberSupports(schema: Schema, t: JavaType, f: Filter): (r: Res<bool>)
    ensures f.key.None? ==> r == Err(NullPointer)
    ensures f.key.Some? ==> r.Ok? == TypeOf(schema, t, f.key.value).Ok?
    ensures r.Ok? ==> (r.value <==> IsNumber(TypeOf(schema, t, f.key.value).value))
  {
    if f.key.None? then Err(NullPointer)
    else
      var fieldType :- TypeOf(schema, t, f.key.value);
      Ok(IsNumber(fieldType))
  }

  /** The number handler's `manage`: the value text is read with `Double.parseDouble`,
      whatever the field's numeric class. */
  function NumberManage(lib: Library, e: EntityPath, f: Filter): (r: Res<Pred>)
    ensures f.key.None? || f.value.None? ==> r == Err(NullPointer)
    ensures f.key.Some? && f.value.Some? && lib.parseDouble(f.value.value).None? ==>
      r == Err(ValueNotParsable(f.operator, f.value))
    ensures f.key.Some? && f.value.Some? && lib.parseDouble(f.value.value).Some? ==>
      r == Switch(OrderedMeanings, f.operator, e, f.key.value, DoubleConstant(lib.parseDouble(f.value.value).value), "Number")
  {
    if f.key.None? || f.value.None? then Err(NullPointer)
    else
      match lib.parseDouble(f.value.value)
      case None => Err(ValueNotParsable(f.operator, f.value))
      case Some(d) => Switch(OrderedMeanings, f.operator, e, f.key.value, DoubleConstant(d), "Number")
  }

  /** The UUID handler's `isSupported`: the declared class is `UUID`. */
  function UuidSupports(schema: Schema, t: JavaType, f: Filter): (r: Res<bool>)
    ensures f.key.None? ==> r == Err(NullPointer)
    ensures f.key.Some? ==> r.Ok? == TypeOf(schema, t, f.key.value).Ok?
    ensures r.Ok? ==> (r.value <==> TypeOf(schema, t, f.key.value).value == UuidType)
  {
    if f.key.None? then Err(NullPointer)
    else
      var fieldType :- TypeOf(schema, t, f.key.value);
      Ok(fieldType == UuidType)
  }

  /** The UUID handler's `manage`: the value is printed with `String.valueOf`, so a null
      value is the text "null", which does not parse. */
  function UuidManage(lib: Library, e: EntityPath, f: Filter): (r: Res<Pred>)
    ensures f.key.None? ==> r == Err(NullPointer)
    ensures f.key.Some? && lib.uuidFromString(ValueOf(f.value)).None? ==>
      r == Err(ValueNotParsable(f.operator, f.value))
    ensures f.key.Some? && lib.uuidFromString(ValueOf(f.value)).Some? ==>
      r == Switch(EqualityMeanings, f.operator, e, f.key.value, UuidConstant(lib.uuidFromString(ValueOf(f.value)).value), "UUID")
  {
    if f.key.None? then Err(NullPointer)
    else
      match lib.uuidFromString(ValueOf(f.value))
      case None => Err(ValueNotParsable(f.operator, f.value))
      case Some(u) => Switch(EqualityMeanings, f.operator, e, f.key.value, UuidConstant(u), "UUID")
  }

  /** `Boolean.parseBoolean`: "true" in any letter case, and nothing else, is true. */
  function ParseBoolean(text: string): (r: bool)
    ensures r <==> |text| == 4 && LowerCase(text[0]) == 't' && LowerCase(text[1]) == 'r' &&
                   LowerCase(text[2]) == 'u' && LowerCase(text[3]) == 'e'
  {
    LowerText(text) == "true"
  }

  /** The boolean handler's `isSupported`: `Boolean` or `boolean`. */
  function BooleanSupports(schema: Schema, t: JavaType, f: Filter): (r: Res<bool>)
    ensures f.key.None? ==> r == Err(NullPointer)
    ensures f.key.Some? ==> r.Ok? == TypeOf(schema, t, f.key.value).Ok?
    ensures r.Ok? ==> (r.value <==> TypeOf(schema, t, f.key.value).value in {BoxedBoolean, PrimitiveBoolean})
  {
    if f.key.None? then Err(NullPointer)
    else
      var fieldType :- TypeOf(schema, t, f.key.value);
      Ok(fieldType == BoxedBoolean || fieldType == PrimitiveBoolean)
  }

  /** The boolean handler's `manage`: any text other than "true" reads as false, so the
      conversion never fails; a null value is a `NullPointerException`. */
  function BooleanManage(e: EntityPath, f: Filter): (r: Res<Pred>)
    ensures f.key.None? || f.value.None? ==> r == Err(NullPointer)
    ensures f.key.Some? && f.value.Some? ==>
      r == Switch(EqualityMeanings, f.operator, e, f.key.value, BooleanConstant(ParseBoolean(f.value.value)), "Boolean")
  {
    if f.key.None? || f.value.None? then Err(NullPointer)
    else Switch(EqualityMeanings, f.operator, e, f.key.value, BooleanConstant(ParseBoolean(f.value.value)), "Boolean")
  }

  /** The string handler's `manage`: the value is printed with `String.valueOf`; an
      ordering operator gives no predicate (Java null) instead of an error. */
  function StringManage(e: EntityPath, f: Filter): (r: Res<Option<Pred>>)
    ensures f.key.None? || f.operator.None? ==> r == Err(NullPointer)
    ensures f.key.Some? && f.operator.Some? ==> r.Ok?
    ensures r.Ok? ==> (r.value.Some? <==> MeaningOf(f.operator.value) in TextMeanings)
    ensures r.Ok? && r.value.Some? ==>
      r.value.value == PredicateFor(MeaningOf(f.operator.value), e, f.key.value, StringConstant(ValueOf(f.value)))
  {
    if f.key.None? || f.operator.None? then Err(NullPointer)
    else if MeaningOf(f.operator.value) in TextMeanings then
      Ok(Some(PredicateFor(MeaningOf(f.operator.value), e, f.key.value, StringConstant(ValueOf(f.value)))))
    else Ok(None)
  }

  /** Aliases are interchangeable: two operators of the same meaning give the same
      predicate in every handler, and are rejected together. */
  lemma AliasesAgree(supported: set<Meaning>, a: Operator, b: Operator, e: EntityPath, key: string, c: Constant, typeLabel: string)
    requires MeaningOf(a) == MeaningOf(b)
    ensures Switch(supported, Some(a), e, key, c, typeLabel).Ok? == Switch(supported, Some(b), e, key, c, typeLabel).Ok?
    ensures Switch(supported, Some(a), e, key, c, typeLabel).Ok? ==>
      Switch(supported, Some(a), e, key, c, typeLabel) == Switch(supported, Some(b), e, key, c, typeLabel)
  {
  }
}
