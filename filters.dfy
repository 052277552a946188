/** `QueryDslFilter`: an immutable `(key, operator, value)` triple. Every field may be
    null. Handlers only ever read the value through `toString` / `String.valueOf`, so it is
    kept as its text. */
module Filters {
  import opened Wrappers
  import opened Text
  import opened Operators
  import opened Errors

  datatype Filter = Filter(key: Option<string>, operator: Option<Operator>, value: Option<string>)

  /** The two-argument constructor, for `isNull(key)`-style filters: the value is null. */
  function OneArgumentFilter(key: Option<string>, operator: Operator): (r: Filter)
    ensures r.key == key && r.operator == Some(operator)
    ensures r.value.None?
  {
    Filter(key, Some(operator), None)
  }

  /** `QueryDslFilter.from(key, operator, value)`. A blank key or operator text is an
      error; an operator text outside the catalog gives no filter (Java null) rather than
      an error; the value is taken as given, whatever the operator's arity. */
  function From(key: Option<string>, operator: Option<string>, value: Option<string>)
    : (r: Res<Option<Filter>>)
    ensures r.Err? <==> IsBlank(key) || IsBlank(operator)
    ensures r.Err? ==> r.error == InvalidFilter(key, operator)
    ensures r.Ok? ==> (r.value.None? <==> Operators.From(operator.value).None?)
    ensures r.Ok? && r.value.Some? ==>
      var f := r.value.value;
      f.key == key && f.value == value && f.operator.Some? && Symbol(f.operator.value) == operator.value
  {
    if !IsBlank(key) && !IsBlank(operator) then
      match Operators.From(operator.value)
      case Some(o) => Ok(Some(Filter(key, Some(o), value)))
      case None => Ok(None)
    else
      Err(InvalidFilter(key, operator))
  }

  /** With a key and an operator text present, `from` gives no filter exactly when no
      catalog constant has that symbol. */
  lemma FromNoneIffUnknownSymbol(key: Option<string>, operator: Option<string>, value: Option<string>)
    requires !IsBlank(key) && !IsBlank(operator)
    ensures From(key, operator, value) == Ok(None) <==> forall o: Operator :: Symbol(o) != operator.value
  {
    FromNoneIffUnknown(operator.value);
  }

  /** `QueryDslFilter.from(key, operator)`, which delegates with a null value. */
  function FromWithoutValue(key: Option<string>, operator: Option<string>): (r: Res<Option<Filter>>)
    ensures r == From(key, operator, None)
    ensures r.Ok? && r.value.Some? ==> r.value.value.value.None?
  {
    From(key, operator, None)
  }

  /** `QueryDslFilter.toString`. Function operators print as `name(key : value)`, or as
      `name(key)` without a value; infix operators print key, symbol and value with no
      separator, a null part printing as "null". */
  function ToString(f: Filter): (r: Res<string>)
    ensures f.operator.None? ==> r == Err(MissingOperator)
    ensures f.operator.Some? && IsFunction(f.operator.value) && f.key.None? ==>
      r == Err(FunctionWithoutArguments(f.operator.value))
    ensures r.Err? ==> f.operator.None? || (IsFunction(f.operator.value) && f.key.None?)
    ensures r.Ok? && !IsFunction(f.operator.value) ==>
      r.value == ValueOf(f.key) + Symbol(f.operator.value) + ValueOf(f.value)
    ensures f.operator.Some? && IsFunction(f.operator.value) && f.key.Some? && f.value.Some? ==>
      r == Ok(Symbol(f.operator.value) + "(" + f.key.value + " : " + f.value.value + ")")
    ensures f.operator.Some? && IsFunction(f.operator.value) && f.key.Some? && f.value.None? ==>
      r == Ok(Symbol(f.operator.value) + "(" + f.key.value + ")")
  {
    match f.operator
    case None => Err(MissingOperator)
    case Some(o) =>
      if IsFunction(o) then
        if f.key.Some? && f.value.Some? then
          Ok(Symbol(o) + "(" + f.key.value + " : " + f.value.value + ")")
        else if f.key.Some? then
          Ok(Symbol(o) + "(" + f.key.value + ")")
        else
          Err(FunctionWithoutArguments(o))
      else
        Ok(ValueOf(f.key) + Symbol(o) + ValueOf(f.value))
  }

  /** `from` performs no arity check: the symbol of any operator, with any value or
      none (a value for `isNull`, no value for `=`), gives the filter with exactly those
      parts. */
  lemma FromAnyArity(key: Option<string>, o: Operator, value: Option<string>)
    requires !IsBlank(key)
    ensures From(key, Some(Symbol(o)), value) == Ok(Some(Filter(key, Some(o), value)))
  {
    SymbolNotBlank(o);
    FromSymbol(o);
  }

  lemma SymbolNotBlank(o: Operator)
    ensures !IsBlank(Some(Symbol(o)))
  {
    SymbolShape(o);
    assert !IsWhitespace(Symbol(o)[0]);
  }
}
