/** The operator catalog (`QueryDslOperators`): 23 constants, each with the symbol that
    names it in filter text and a flag telling whether it is written in function form. */
module Operators {
  import opened Wrappers
  import opened Text

  /** The constants, in declaration order. */
  datatype Operator =
    | IsNullFunction | NonNullFunction
    | Equals | EqualsFunction | EqualsFunctionEq
    | NotEquals | NonEqualsFunction | NonEqualsFunctionNe
    | StartsWithFunction | StartsWithFunctionSw
    | EndsWithFunction | EndsWithFunctionEw
    | ContainFunction | ContainFunctionC | ContainsFunctionLike
    | GreaterThan | GreaterThanFunctionGt
    | GreaterThanOrEquals | GreaterThanOrEqualsFunctionGte
    | LowerThan | LowerThanFunctionLt
    | LowerThanOrEquals | LowerThanOrEqualsFunctionLte

  /** `values()`: every constant, in declaration order. */
  const AllOperators: seq<Operator> := [
    IsNullFunction, NonNullFunction, Equals, EqualsFunction, EqualsFunctionEq, NotEquals,
    NonEqualsFunction, NonEqualsFunctionNe, StartsWithFunction, StartsWithFunctionSw,
    EndsWithFunction, EndsWithFunctionEw, ContainFunction, ContainFunctionC,
    ContainsFunctionLike, GreaterThan, GreaterThanFunctionGt, GreaterThanOrEquals,
    GreaterThanOrEqualsFunctionGte, LowerThan, LowerThanFunctionLt, LowerThanOrEquals,
    LowerThanOrEqualsFunctionLte]

  /** `getOperator()`: the symbol of a constant. */
  function Symbol(o: Operator): string {
    match o
    case IsNullFunction => "isNull"
    case NonNullFunction => "nonNull"
    case Equals => "="
    case EqualsFunction => "equals"
    case EqualsFunctionEq => "eq"
    case NotEquals => "!="
    case NonEqualsFunction => "nonEquals"
    case NonEqualsFunctionNe => "ne"
    case StartsWithFunction => "starts"
    case StartsWithFunctionSw => "sw"
    case EndsWithFunction => "ends"
    case EndsWithFunctionEw => "ew"
    case ContainFunction => "contains"
    case ContainFunctionC => "c"
    case ContainsFunctionLike => "like"
    case GreaterThan => ">"
    case GreaterThanFunctionGt => "gt"
    case GreaterThanOrEquals => ">="
    case GreaterThanOrEqualsFunctionGte => "gte"
    case LowerThan => "<"
    case LowerThanFunctionLt => "lt"
    case LowerThanOrEquals => "<="
    case LowerThanOrEqualsFunctionLte => "lte"
  }

  /** `isFunction()`: whether the constant is written `name(key ...)` rather than infix. */
  predicate IsFunction(o: Operator) {
    !(o == Equals || o == NotEquals || o == GreaterThan || o == GreaterThanOrEquals
      || o == LowerThan || o == LowerThanOrEquals)
  }

  /** The comparison a constant stands for. Several constants are aliases of one
      comparison; the handlers list them in one `case` group. */
  datatype Meaning =
    | NullCheck | NotNullCheck | Equality | Inequality | StartsWith | EndsWith | Contains
    | Greater | GreaterOrEqual | Lower | LowerOrEqual

  function MeaningOf(o: Operator): Meaning {
    match o
    case IsNullFunction => NullCheck
    case NonNullFunction => NotNullCheck
    case Equals | EqualsFunction | EqualsFunctionEq => Equality
    case NotEquals | NonEqualsFunction | NonEqualsFunctionNe => Inequality
    case StartsWithFunction | StartsWithFunctionSw => StartsWith
    case EndsWithFunction | EndsWithFunctionEw => EndsWith
    case ContainFunction | ContainFunctionC | ContainsFunctionLike => Contains
    case GreaterThan | GreaterThanFunctionGt => Greater
    case GreaterThanOrEquals | GreaterThanOrEqualsFunctionGte => GreaterOrEqual
    case LowerThan | LowerThanFunctionLt => Lower
    case LowerThanOrEquals | LowerThanOrEqualsFunctionLte => LowerOrEqual
  }

  /** The first operator of `ops` whose symbol equals `symbol` exactly
      (`filter(o -> o.getOperator().equals(symbol)).findFirst()`). */
  function FindFirst(ops: seq<Operator>, symbol: string): (r: Option<Operator>)
    ensures r.Some? ==> r.value in ops && Symbol(r.value) == symbol
    ensures r.None? <==> forall i :: 0 <= i < |ops| ==> Symbol(ops[i]) != symbol
  {
    if |ops| == 0 then None
    else if Symbol(ops[0]) == symbol then Some(ops[0])
    else FindFirst(ops[1..], symbol)
  }

  /** `QueryDslOperators.from`: the constant named by `symbol`, if any.
      It is found iff some constant has exactly that symbol, and it never fails. */
  function From(symbol: string): (r: Option<Operator>)
    ensures r.Some? ==> Symbol(r.value) == symbol
  {
    FindFirst(AllOperators, symbol)
  }

  /** `from` finds nothing exactly when no constant has that symbol. */
  lemma FromNoneIffUnknown(symbol: string)
    ensures From(symbol).None? <==> forall o: Operator :: Symbol(o) != symbol
  {
    if From(symbol).None? {
      forall o: Operator ensures Symbol(o) != symbol {
        assert AllOperators[Ordinal(o)] == o;
      }
    }
  }

  /** `ordinal()`: the position of a constant in declaration order. */
  function Ordinal(o: Operator): (r: nat)
    ensures r < |AllOperators| && AllOperators[r] == o
  {
    match o
    case IsNullFunction => 0
    case NonNullFunction => 1
    case Equals => 2
    case EqualsFunction => 3
    case EqualsFunctionEq => 4
    case NotEquals => 5
    case NonEqualsFunction => 6
    case NonEqualsFunctionNe => 7
    case StartsWithFunction => 8
    case StartsWithFunctionSw => 9
    case EndsWithFunction => 10
    case EndsWithFunctionEw => 11
    case ContainFunction => 12
    case ContainFunctionC => 13
    case ContainsFunctionLike => 14
    case GreaterThan => 15
    case GreaterThanFunctionGt => 16
    case GreaterThanOrEquals => 17
    case GreaterThanOrEqualsFunctionGte => 18
    case LowerThan => 19
    case LowerThanFunctionLt => 20
    case LowerThanOrEquals => 21
    case LowerThanOrEqualsFunctionLte => 22
  }

  /** `values()` lists every constant. */
  lemma AllOperatorsComplete()
    ensures forall o: Operator :: o in AllOperators
  {
    forall o: Operator ensures o in AllOperators {
      assert AllOperators[Ordinal(o)] == o;
    }
  }

  /** Looking up the symbol of any constant gives back that constant. */
  lemma FromSymbol(o: Operator)
    ensures From(Symbol(o)) == Some(o)
  {
    FromNoneIffUnknown(Symbol(o));
    var r := From(Symbol(o));
    assert r.Some?;
    SymbolsDistinct(r.value, o);
  }

  /** The 23 symbols are pairwise distinct. */
  lemma SymbolsDistinct(a: Operator, b: Operator)
    requires Symbol(a) == Symbol(b)
    ensures a == b
  {
    SymbolDetermines(a);
    SymbolDetermines(b);
  }

  /** A constant is recovered from its symbol by comparing with each symbol in turn. */
  lemma SymbolDetermines(o: Operator)
    ensures SymbolOwner(Symbol(o)) == o
  {
    match o
    case IsNullFunction => {}
    case NonNullFunction => {}
    case Equals => {}
    case EqualsFunction => {}
    case EqualsFunctionEq => {}
    case NotEquals => {}
    case NonEqualsFunction => {}
    case NonEqualsFunctionNe => {}
    case StartsWithFunction => {}
    case StartsWithFunctionSw => {}
    case EndsWithFunction => {}
    case EndsWithFunctionEw => {}
    case ContainFunction => {}
    case ContainFunctionC => {}
    case ContainsFunctionLike => {}
    case GreaterThan => {}
    case GreaterThanFunctionGt => {}
    case GreaterThanOrEquals => {}
    case GreaterThanOrEqualsFunctionGte => {}
    case LowerThan => {}
    case LowerThanFunctionLt => {}
    case LowerThanOrEquals => {}
    case LowerThanOrEqualsFunctionLte => {}
  }

  /** Names, for each symbol of the catalog, the constant that carries it. */
  function SymbolOwner(s: string): Operator {
    if s == "isNull" then IsNullFunction
    else if s == "nonNull" then NonNullFunction
    else if s == "=" then Equals
    else if s == "equals" then EqualsFunction
    else if s == "eq" then EqualsFunctionEq
    else if s == "!=" then NotEquals
    else if s == "nonEquals" then NonEqualsFunction
    else if s == "ne" then NonEqualsFunctionNe
    else if s == "starts" then StartsWithFunction
    else if s == "sw" then StartsWithFunctionSw
    else if s == "ends" then EndsWithFunction
    else if s == "ew" then EndsWithFunctionEw
    else if s == "contains" then ContainFunction
    else if s == "c" then ContainFunctionC
    else if s == "like" then ContainsFunctionLike
    else if s == ">" then GreaterThan
    else if s == "gt" then GreaterThanFunctionGt
    else if s == ">=" then GreaterThanOrEquals
    else if s == "gte" then GreaterThanOrEqualsFunctionGte
    else if s == "<" then LowerThan
    else if s == "lt" then LowerThanFunctionLt
    else if s == "<=" then LowerThanOrEquals
    else LowerThanOrEqualsFunctionLte
  }

  /** Lookup is exact and case-sensitive: no symbol starts with an upper-case letter, so
      texts such as "ISNULL" or "Eq" name no operator. */
  lemma FromRejectsUpperCaseStart(s: string)
    requires |s| > 0 && 'A' <= s[0] <= 'Z'
    ensures From(s) == None
  {
    FromNoneIffUnknown(s);
    forall o: Operator ensures Symbol(o) != s {
      NoSymbolStartsUpperCase(o);
    }
  }

  lemma NoSymbolStartsUpperCase(o: Operator)
    ensures |Symbol(o)| > 0 && !('A' <= Symbol(o)[0] <= 'Z')
  {
    match o
    case IsNullFunction => {}
    case NonNullFunction => {}
    case Equals => {}
    case EqualsFunction => {}
    case EqualsFunctionEq => {}
    case NotEquals => {}
    case NonEqualsFunction => {}
    case NonEqualsFunctionNe => {}
    case StartsWithFunction => {}
    case StartsWithFunctionSw => {}
    case EndsWithFunction => {}
    case EndsWithFunctionEw => {}
    case ContainFunction => {}
    case ContainFunctionC => {}
    case ContainsFunctionLike => {}
    case GreaterThan => {}
    case GreaterThanFunctionGt => {}
    case GreaterThanOrEquals => {}
    case GreaterThanOrEqualsFunctionGte => {}
    case LowerThan => {}
    case LowerThanFunctionLt => {}
    case LowerThanOrEquals => {}
    case LowerThanOrEqualsFunctionLte => {}
  }

  /** The characters infix symbols are made of. */
  predicate IsOperatorChar(c: char) {
    c == '=' || c == '!' || c == '<' || c == '>'
  }

  /** Infix symbols are one or two operator characters; function symbols are non-empty
      and made of letters only. The text parser relies on this split. */
  lemma SymbolShape(o: Operator)
    ensures !IsFunction(o) ==>
      1 <= |Symbol(o)| <= 2 && forall i :: 0 <= i < |Symbol(o)| ==> IsOperatorChar(Symbol(o)[i])
    ensures IsFunction(o) ==>
      1 <= |Symbol(o)| && forall i :: 0 <= i < |Symbol(o)| ==> IsAsciiLetter(Symbol(o)[i])
  {
    match o
    case IsNullFunction => {}
    case NonNullFunction => {}
    case Equals => {}
    case EqualsFunction => {}
    case EqualsFunctionEq => {}
    case NotEquals => {}
    case NonEqualsFunction => {}
    case NonEqualsFunctionNe => {}
    case StartsWithFunction => {}
    case StartsWithFunctionSw => {}
    case EndsWithFunction => {}
    case EndsWithFunctionEw => {}
    case ContainFunction => {}
    case ContainFunctionC => {}
    case ContainsFunctionLike => {}
    case GreaterThan => {}
    case GreaterThanFunctionGt => {}
    case GreaterThanOrEquals => {}
    case GreaterThanOrEqualsFunctionGte => {}
    case LowerThan => {}
    case LowerThanFunctionLt => {}
    case LowerThanOrEquals => {}
    case LowerThanOrEqualsFunctionLte => {}
  }


  /** How the parser's static initialiser classifies a constant: function names, and
      infix symbols of one character ("simple") or of two ("multiple"). */
  datatype Form = FunctionForm | SimpleInfix | MultipleInfix

  function FormOf(o: Operator): Form {
    FormFor(IsFunction(o), Symbol(o))
  }

  /** The form of a constant from its `isFunction()` flag and its symbol. */
  function FormFor(isFunction: bool, symbol: string): Form {
    if isFunction then FunctionForm
    else if |symbol| == 1 then SimpleInfix
    else MultipleInfix
  }

  /** The symbols of the constants of `ops` that have form `f`, in order: what the static
      initialiser appends to one alternation. */
  function SymbolsOfForm(f: Form, ops: seq<Operator>): seq<string> {
    if |ops| == 0 then []
    else
      var last := ops[|ops| - 1];
      SymbolsOfForm(f, ops[..|ops| - 1]) + (if FormOf(last) == f then [Symbol(last)] else [])
  }

  /** Extending the list by one constant adds its symbol to the list of its own form and
      leaves the other forms' lists alone. */
  lemma SymbolsOfFormStep(f: Form, ops: seq<Operator>, i: nat)
    requires i < |ops|
    ensures FormOf(ops[i]) == f ==> SymbolsOfForm(f, ops[..i + 1]) == SymbolsOfForm(f, ops[..i]) + [Symbol(ops[i])]
    ensures FormOf(ops[i]) != f ==> SymbolsOfForm(f, ops[..i + 1]) == SymbolsOfForm(f, ops[..i])
  {
    assert ops[..i + 1][..i] == ops[..i];
    assert SymbolsOfForm(f, ops[..i]) + [] == SymbolsOfForm(f, ops[..i]);
  }

  /** The list for form `f` holds the symbol of every constant of `ops` with that form,
      and nothing else: each entry is the symbol of a constant of form `f`. */
  lemma {:induction false} SymbolsOfFormMembers(f: Form, ops: seq<Operator>)
    ensures forall o :: o in ops && FormOf(o) == f ==> Symbol(o) in SymbolsOfForm(f, ops)
    ensures forall x :: x in SymbolsOfForm(f, ops) ==>
      exists o :: o in ops && FormOf(o) == f && Symbol(o) == x
    ensures forall x :: x in SymbolsOfForm(f, ops) ==> |x| > 0
  {
    if |ops| > 0 {
      var init := ops[..|ops| - 1];
      var last := ops[|ops| - 1];
      SymbolsOfFormMembers(f, init);
      NoSymbolStartsUpperCase(last);
      assert ops == init + [last];
    }
  }
}
