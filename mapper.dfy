/** `QueryDslFiltersMapper`: parses filter text in the infix form `key<op>value` or the
    function form `name(key <sep> value)`.

    The two Java regular expressions are modelled by a scanner that makes the same
    choices as `java.util.regex`: each expression is searched for with `Matcher.find`
    (leftmost start first), greedy quantifiers try their longest run first and give back
    one character at a time, `?` tries "present" before "absent", and an alternation tries
    its alternatives in order. Each search function states which matches exist
    (soundness and completeness against a declarative description of the expression)
    and which one is chosen. */
module Mapper {
  import opened Wrappers
  import opened Text
  import opened Operators
  import opened Errors
  import opened Filters

  /** `[A-Za-z0-9._()-]`, the characters of a key. */
  predicate IsKeyChar(c: char) {
    IsAsciiLetter(c) || IsAsciiDigit(c) || c == '.' || c == '_' || c == '(' || c == ')' || c == '-'
  }

  /** `[A-Za-z0-9.:_-]`, the characters of a value. */
  predicate IsValueChar(c: char) {
    IsAsciiLetter(c) || IsAsciiDigit(c) || c == '.' || c == ':' || c == '_' || c == '-'
  }

  /** `[,:;]`, the separator between a function's key and value. */
  predicate IsSeparator(c: char) {
    c == ',' || c == ':' || c == ';'
  }

  /** The character classes the expressions repeat. */
  datatype CharClass = KeyChars | ValueChars | Spaces

  predicate InClass(c: char, cls: CharClass) {
    match cls
    case KeyChars => IsKeyChar(c)
    case ValueChars => IsValueChar(c)
    case Spaces => c == ' '
  }

  /** Every character of `s[i..j]` is in `cls`. */
  predicate AllIn(s: string, i: nat, j: nat, cls: CharClass)
    requires i <= j <= |s|
  {
    forall k {:trigger InClass(s[k], cls)} :: i <= k < j ==> InClass(s[k], cls)
  }

  /** Where a greedy repetition of `cls` starting at `i` stops: the end of the longest run. */
  function RunEnd(s: string, i: nat, cls: CharClass): (r: nat)
    requires i <= |s|
    ensures i <= r <= |s| && AllIn(s, i, r, cls)
    ensures r < |s| ==> !InClass(s[r], cls)
    decreases |s| - i
  {
    if i < |s| && InClass(s[i], cls) then RunEnd(s, i + 1, cls) else i
  }

  /** No run of `cls` from `i` is longer than the greedy one. */
  lemma RunEndIsLongest(s: string, i: nat, j: nat, cls: CharClass)
    requires i <= j <= |s| && AllIn(s, i, j, cls)
    ensures j <= RunEnd(s, i, cls)
  {
  }

  // ---------------------------------------------------------------------------------
  // The alternations built by the static initialiser.

  /** The text a `StringBuilder` holds after the parts were appended with "|" before
      every part but the first. */
  function Join(parts: seq<string>): string {
    if |parts| == 0 then ""
    else if |parts| == 1 then parts[0]
    else parts[0] + "|" + Join(parts[1..])
  }

  /** How `java.util.regex` reads an alternation: the text between the bars. */
  function SplitBars(t: string): (r: seq<string>)
    ensures |r| > 0
    decreases |t|
  {
    match IndexOf(t, "|")
    case None => [t]
    case Some(i) => [t[..i]] + SplitBars(t[i + 1..])
  }

  /** No part contains a bar. */
  predicate BarFree(parts: seq<string>) {
    forall j, k :: 0 <= j < |parts| && 0 <= k < |parts[j]| ==> parts[j][k] != '|'
  }

  /** Appending one part to the builder. */
  lemma {:induction false} JoinAppend(parts: seq<string>, x: string)
    requires |parts| > 0
    ensures Join(parts + [x]) == Join(parts) + "|" + x
    decreases |parts|
  {
    if |parts| == 1 {
      assert parts + [x] == [parts[0], x];
    } else {
      assert (parts + [x])[1..] == parts[1..] + [x];
      JoinAppend(parts[1..], x);
    }
  }

  /** Two alternations written one after the other with a bar between them. */
  lemma {:induction false} JoinConcat(a: seq<string>, b: seq<string>)
    requires |a| > 0 && |b| > 0
    ensures Join(a + b) == Join(a) + "|" + Join(b)
    decreases |a|
  {
    if |a| == 1 {
      assert (a + b)[1..] == b;
      assert (a + b)[0] == a[0];
    } else {
      assert (a + b)[1..] == a[1..] + b;
      JoinConcat(a[1..], b);
    }
  }

  /** The alternation text reads back as exactly the parts it was built from. */
  lemma {:induction false} SplitJoin(parts: seq<string>)
    requires |parts| > 0 && BarFree(parts)
    ensures SplitBars(Join(parts)) == parts
    decreases |parts|
  {
    assert forall k :: 0 <= k < |parts[0]| ==> parts[0][k] != '|';
    if |parts| == 1 {
      SplitBarFree(parts[0]);
    } else {
      assert BarFree(parts[1..]) by {
        forall j, k | 0 <= j < |parts[1..]| && 0 <= k < |parts[1..][j]|
          ensures parts[1..][j][k] != '|'
        {
          assert parts[1..][j] == parts[j + 1];
        }
      }
      SplitJoin(parts[1..]);
      SplitAtFirstBar(parts[0], Join(parts[1..]));
      assert parts == [parts[0]] + parts[1..];
    }
  }

  /** A text without a bar reads as a single alternative. */
  lemma SplitBarFree(t: string)
    requires forall k :: 0 <= k < |t| ==> t[k] != '|'
    ensures SplitBars(t) == [t]
  {
    NoBarOccurs(t);
  }

  lemma NoBarOccurs(t: string)
    requires forall k :: 0 <= k < |t| ==> t[k] != '|'
    ensures forall j: nat :: !OccursAt(t, "|", j)
  {
    forall j: nat | j + 1 <= |t| ensures !OccursAt(t, "|", j) {
      assert t[j..j + 1][0] == t[j];
    }
  }

  /** A bar after a bar-free first part splits it off. */
  lemma SplitAtFirstBar(p: string, rest: string)
    requires forall k :: 0 <= k < |p| ==> p[k] != '|'
    ensures SplitBars(p + "|" + rest) == [p] + SplitBars(rest)
  {
    var t := p + "|" + rest;
    assert OccursAt(t, "|", |p|);
    forall j | 0 <= j < |p| ensures !OccursAt(t, "|", j) {
      assert t[j] == p[j];
    }
    assert IndexOf(t, "|") == Some(|p|);
    assert t[..|p|] == p;
    assert t[|p| + 1..] == rest;
  }

  /** The alternatives of the infix expression: two-character symbols, then
      one-character symbols, each group in catalog order. */
  function InfixAlternatives(): seq<string> {
    SymbolsOfForm(MultipleInfix, AllOperators) + SymbolsOfForm(SimpleInfix, AllOperators)
  }

  /** The alternatives of the function expression: the function names in catalog order. */
  function FunctionAlternatives(): seq<string> {
    SymbolsOfForm(FunctionForm, AllOperators)
  }

  /** `builder.append("|")` when the builder is non-empty, then `builder.append(symbol)`. */
  method AppendAlternative(builder: string, ghost parts: seq<string>, symbol: string)
    returns (r: string)
    requires builder == Join(parts) && forall k :: 0 <= k < |parts| ==> |parts[k]| > 0
    ensures r == Join(parts + [symbol])
  {
    JoinIsEmpty(parts);
    r := builder;
    if r != "" {
      JoinAppend(parts, symbol);
      r := r + "|";
    } else {
      assert parts + [symbol] == [symbol];
    }
    r := r + symbol;
  }

  /** A builder of non-empty parts is empty exactly when nothing was appended. */
  lemma JoinIsEmpty(parts: seq<string>)
    requires forall k :: 0 <= k < |parts| ==> |parts[k]| > 0
    ensures Join(parts) == "" <==> |parts| == 0
  {
  }

  /** The static initialiser: one pass over `values()` appends each symbol to the builder
      of its form (function names; one-character infix symbols; longer ones). The
      expressions are then `(K+)(multiple|simple)(V+)` and
      `(functions)\((K+) *[,:;]? *(V*)\)`. */
  method BuildAlternations() returns (multiple: string, simple: string, functions: string)
    ensures multiple == Join(SymbolsOfForm(MultipleInfix, AllOperators))
    ensures simple == Join(SymbolsOfForm(SimpleInfix, AllOperators))
    ensures functions == Join(SymbolsOfForm(FunctionForm, AllOperators))
  {
    multiple, simple, functions := CollectAlternations(AllOperators);
  }

  /** The loop of `BuildAlternations` over the constants `ops`, in order. */
  method CollectAlternations(ops: seq<Operator>) returns (multiple: string, simple: string, functions: string)
    ensures multiple == Join(SymbolsOfForm(MultipleInfix, ops))
    ensures simple == Join(SymbolsOfForm(SimpleInfix, ops))
    ensures functions == Join(SymbolsOfForm(FunctionForm, ops))
  {
    multiple, simple, functions := "", "", "";
    var i := 0;
    while i < |ops|
      invariant i <= |ops|
      invariant multiple == Join(SymbolsOfForm(MultipleInfix, ops[..i]))
      invariant simple == Join(SymbolsOfForm(SimpleInfix, ops[..i]))
      invariant functions == Join(SymbolsOfForm(FunctionForm, ops[..i]))
      decreases |ops| - i
    {
      SymbolsNonEmpty(MultipleInfix, ops[..i]);
      SymbolsNonEmpty(SimpleInfix, ops[..i]);
      SymbolsNonEmpty(FunctionForm, ops[..i]);
      SymbolsOfFormStep(MultipleInfix, ops, i);
      SymbolsOfFormStep(SimpleInfix, ops, i);
      SymbolsOfFormStep(FunctionForm, ops, i);
      multiple, simple, functions := CollectOne(IsFunction(ops[i]), Symbol(ops[i]),
        multiple, simple, functions, SymbolsOfForm(MultipleInfix, ops[..i]),
        SymbolsOfForm(SimpleInfix, ops[..i]), SymbolsOfForm(FunctionForm, ops[..i]));
      i := i + 1;
    }
    assert ops[..i] == ops;
  }

  /** One turn of that loop, for a constant with flag `isFunction` and symbol `symbol`:
      the symbol goes to the builder of its form, the other two are left alone. */
  method CollectOne(isFunction: bool, symbol: string, multiple: string, simple: string,
    functions: string, ghost pm: seq<string>, ghost ps: seq<string>, ghost pf: seq<string>)
    returns (multiple': string, simple': string, functions': string)
    requires multiple == Join(pm) && forall k :: 0 <= k < |pm| ==> |pm[k]| > 0
    requires simple == Join(ps) && forall k :: 0 <= k < |ps| ==> |ps[k]| > 0
    requires functions == Join(pf) && forall k :: 0 <= k < |pf| ==> |pf[k]| > 0
    ensures FormFor(isFunction, symbol) == MultipleInfix ==> multiple' == Join(pm + [symbol])
    ensures FormFor(isFunction, symbol) != MultipleInfix ==> multiple' == multiple
    ensures FormFor(isFunction, symbol) == SimpleInfix ==> simple' == Join(ps + [symbol])
    ensures FormFor(isFunction, symbol) != SimpleInfix ==> simple' == simple
    ensures FormFor(isFunction, symbol) == FunctionForm ==> functions' == Join(pf + [symbol])
    ensures FormFor(isFunction, symbol) != FunctionForm ==> functions' == functions
  {
    multiple', simple', functions' := multiple, simple, functions;
    if !isFunction {
      if |symbol| == 1 {
        simple' := AppendAlternative(simple, ps, symbol);
      } else {
        multiple' := AppendAlternative(multiple, pm, symbol);
      }
    } else {
      functions' := AppendAlternative(functions, pf, symbol);
    }
  }

  /** No symbol of the catalog is empty. */
  lemma SymbolsNonEmpty(f: Form, ops: seq<Operator>)
    ensures forall k :: 0 <= k < |SymbolsOfForm(f, ops)| ==> |SymbolsOfForm(f, ops)[k]| > 0
  {
    var xs := SymbolsOfForm(f, ops);
    SymbolsOfFormMembers(f, ops);
    forall k | 0 <= k < |xs| ensures |xs[k]| > 0 {
      assert xs[k] in xs;
      var o :| o in ops && FormOf(o) == f && Symbol(o) == xs[k];
      SymbolShape(o);
    }
  }

  /** One or two operator characters: the shape of every infix symbol. */
  predicate IsInfixSymbolText(a: string) {
    1 <= |a| <= 2 && forall i :: 0 <= i < |a| ==> IsOperatorChar(a[i])
  }

  /** Letters only: the shape of every function name. */
  predicate IsNameText(a: string) {
    |a| > 0 && forall i :: 0 <= i < |a| ==> IsAsciiLetter(a[i])
  }

  /** Every infix alternative has the shape of an infix symbol. */
  lemma InfixAlternativesShape()
    ensures forall a :: a in InfixAlternatives() ==> IsInfixSymbolText(a)
  {
    forall a | a in InfixAlternatives() ensures IsInfixSymbolText(a) {
      InfixAlternativeOwner(a);
      var o :| !IsFunction(o) && Symbol(o) == a;
      SymbolShape(o);
    }
  }

  /** Every function alternative is a name of letters. */
  lemma FunctionAlternativesShape()
    ensures forall a :: a in FunctionAlternatives() ==> IsNameText(a)
  {
    forall a | a in FunctionAlternatives() ensures IsNameText(a) {
      FunctionAlternativeOwner(a);
      var o :| IsFunction(o) && Symbol(o) == a;
      SymbolShape(o);
    }
  }

  lemma InfixAlternativeIsSymbol(a: string)
    requires a in InfixAlternatives()
    ensures IsInfixSymbolText(a)
  {
    InfixAlternativesShape();
  }

  lemma FunctionAlternativeIsName(a: string)
    requires a in FunctionAlternatives()
    ensures IsNameText(a)
  {
    FunctionAlternativesShape();
  }

  /** Parts made of operator characters or of letters hold no bar. */
  lemma SymbolTextsBarFree(parts: seq<string>)
    requires forall x :: x in parts ==> IsInfixSymbolText(x) || IsNameText(x)
    ensures BarFree(parts)
  {
    forall j, k | 0 <= j < |parts| && 0 <= k < |parts[j]| ensures parts[j][k] != '|' {
      assert parts[j] in parts;
    }
  }

  /** The infix expression's alternation text reads as `InfixAlternatives()`. */
  lemma InfixAlternationText(multiple: string, simple: string)
    requires multiple == Join(SymbolsOfForm(MultipleInfix, AllOperators))
    requires simple == Join(SymbolsOfForm(SimpleInfix, AllOperators))
    ensures SplitBars(multiple + "|" + simple) == InfixAlternatives()
  {
    InfixFormsNonEmpty();
    InfixAlternativesShape();
    SymbolTextsBarFree(InfixAlternatives());
    SplitJoinConcat(SymbolsOfForm(MultipleInfix, AllOperators), SymbolsOfForm(SimpleInfix, AllOperators));
  }

  /** Both infix forms have symbols in the catalog. */
  lemma InfixFormsNonEmpty()
    ensures |SymbolsOfForm(MultipleInfix, AllOperators)| > 0
    ensures |SymbolsOfForm(SimpleInfix, AllOperators)| > 0
  {
    AllOperatorsComplete();
    FormNonEmpty(MultipleInfix, AllOperators, NotEquals);
    FormNonEmpty(SimpleInfix, AllOperators, Equals);
  }

  /** A form that some constant of `ops` has contributes at least one symbol. */
  lemma FormNonEmpty(f: Form, ops: seq<Operator>, o: Operator)
    requires o in ops && FormOf(o) == f
    ensures |SymbolsOfForm(f, ops)| > 0
  {
    SymbolsOfFormMembers(f, ops);
  }

  /** Two bar-free alternations written with a bar between them read back as both lists,
      one after the other. */
  lemma SplitJoinConcat(a: seq<string>, b: seq<string>)
    requires |a| > 0 && |b| > 0 && BarFree(a + b)
    ensures SplitBars(Join(a) + "|" + Join(b)) == a + b
  {
    JoinConcat(a, b);
    SplitJoin(a + b);
  }

  /** The function expression's alternation text reads as `FunctionAlternatives()`. */
  lemma FunctionAlternationText(functions: string)
    requires functions == Join(SymbolsOfForm(FunctionForm, AllOperators))
    ensures SplitBars(functions) == FunctionAlternatives()
  {
    SymbolIsAlternative(IsNullFunction);
    FunctionAlternativesShape();
    SymbolTextsBarFree(FunctionAlternatives());
    SplitJoin(FunctionAlternatives());
  }

  // ---------------------------------------------------------------------------------
  // The infix expression `(K+)(alternatives)(V+)`.

  /** A match of the infix expression: the key is `s[start..keyEnd]`, then the operator
      text, then the value up to `valueEnd`. */
  datatype InfixMatch = InfixMatch(start: nat, keyEnd: nat, operator: string, valueEnd: nat)

  predicate IsInfixMatch(s: string, alts: seq<string>, m: InfixMatch) {
    m.start < m.keyEnd && m.operator in alts
    && m.keyEnd + |m.operator| < m.valueEnd <= |s|
    && AllIn(s, m.start, m.keyEnd, KeyChars)
    && OccursAt(s, m.operator, m.keyEnd)
    && AllIn(s, m.keyEnd + |m.operator|, m.valueEnd, ValueChars)
  }

  /** With the key ending at `k`: the first alternative present at `k` and followed by at
      least one value character, with the greedy value after it. */
  function InfixOperatorAt(s: string, k: nat, alts: seq<string>): (r: Option<(string, nat)>)
    requires k <= |s|
    ensures r.Some? ==>
      r.value.0 in alts && OccursAt(s, r.value.0, k)
      && r.value.1 == RunEnd(s, k + |r.value.0|, ValueChars) > k + |r.value.0|
    ensures r.None? ==>
      forall a {:trigger OccursAt(s, a, k)} :: a in alts && OccursAt(s, a, k) ==> RunEnd(s, k + |a|, ValueChars) == k + |a|
  {
    if |alts| == 0 then None
    else if OccursAt(s, alts[0], k) && RunEnd(s, k + |alts[0]|, ValueChars) > k + |alts[0]| then
      Some((alts[0], RunEnd(s, k + |alts[0]|, ValueChars)))
    else
      InfixOperatorAt(s, k, alts[1..])
  }

  /** The key group giving back characters: key ends `k`, `k - 1`, ..., `i + 1` in turn. */
  function InfixKeyEnds(s: string, i: nat, k: nat, alts: seq<string>): (r: Option<InfixMatch>)
    requires i <= k <= |s| && AllIn(s, i, k, KeyChars)
    ensures r.Some? ==>
      IsInfixMatch(s, alts, r.value) && r.value.start == i && r.value.keyEnd <= k
      && r.value.valueEnd == RunEnd(s, r.value.keyEnd + |r.value.operator|, ValueChars)
    ensures forall m {:trigger IsInfixMatch(s, alts, m)} :: IsInfixMatch(s, alts, m) && m.start == i && m.keyEnd <= k ==>
      r.Some? && m.keyEnd <= r.value.keyEnd
    decreases k
  {
    if k <= i then None
    else match InfixOperatorAt(s, k, alts)
      case Some((op, e)) => Some(InfixMatch(i, k, op, e))
      case None =>
        assert forall m {:trigger IsInfixMatch(s, alts, m)} :: IsInfixMatch(s, alts, m) && m.start == i && m.keyEnd <= k ==> m.keyEnd < k;
        InfixKeyEnds(s, i, k - 1, alts)
  }

  /** The infix expression tried at start `i`: the greedy key first. Any match at `i` is
      found, and none has a longer key than the one chosen. */
  function InfixAt(s: string, i: nat, alts: seq<string>): (r: Option<InfixMatch>)
    requires i <= |s|
    ensures r.Some? ==>
      IsInfixMatch(s, alts, r.value) && r.value.start == i
      && r.value.valueEnd == RunEnd(s, r.value.keyEnd + |r.value.operator|, ValueChars)
    ensures forall m {:trigger IsInfixMatch(s, alts, m)} :: IsInfixMatch(s, alts, m) && m.start == i ==>
      r.Some? && m.keyEnd <= r.value.keyEnd
  {
    var k := RunEnd(s, i, KeyChars);
    assert forall m {:trigger IsInfixMatch(s, alts, m)} :: IsInfixMatch(s, alts, m) && m.start == i ==> m.keyEnd <= k by {
      forall m {:trigger IsInfixMatch(s, alts, m)} | IsInfixMatch(s, alts, m) && m.start == i ensures m.keyEnd <= k {
        RunEndIsLongest(s, i, m.keyEnd, KeyChars);
      }
    }
    InfixKeyEnds(s, i, k, alts)
  }

  /** `Matcher.find` for the infix expression from position `i`: the match with the
      leftmost start. There is a result exactly when some match starts at or after `i`. */
  function FindInfix(s: string, i: nat, alts: seq<string>): (r: Option<InfixMatch>)
    requires i <= |s|
    ensures r.Some? ==>
      IsInfixMatch(s, alts, r.value) && i <= r.value.start
      && r.value.valueEnd == RunEnd(s, r.value.keyEnd + |r.value.operator|, ValueChars)
    ensures forall m {:trigger IsInfixMatch(s, alts, m)} :: IsInfixMatch(s, alts, m) && i <= m.start ==>
      r.Some? && r.value.start <= m.start
      && (m.start == r.value.start ==> m.keyEnd <= r.value.keyEnd)
    decreases |s| - i
  {
    match InfixAt(s, i, alts)
    case Some(m) => Some(m)
    case None =>
      if i == |s| then None
      else FindInfix(s, i + 1, alts)
  }

  // ---------------------------------------------------------------------------------
  // The function expression `(names)\((K+) *[,:;]? *(V*)\)`.

  /** A match of the function expression. The name starts at `start` and is followed by
      `(`; the key runs to `keyEnd`; spaces run to `spacesEnd`; the separator, if any,
      ends at `separatorEnd`; more spaces run to `valueStart`; the value runs to
      `valueEnd`, where the closing `)` is. */
  datatype FunctionMatch = FunctionMatch(
    start: nat, name: string, keyEnd: nat, spacesEnd: nat, separatorEnd: nat,
    valueStart: nat, valueEnd: nat)

  /** ` *[,:;]? *` from `k` to `b`, split at `a` and `b0`. */
  predicate IsMiddle(s: string, k: nat, a: nat, b0: nat, b: nat) {
    k <= a <= b0 <= b <= |s|
    && AllIn(s, k, a, Spaces)
    && (b0 == a || (b0 == a + 1 && IsSeparator(s[a])))
    && AllIn(s, b0, b, Spaces)
  }

  /** `(V*)\)` from `b`, the `)` at `e`. */
  predicate IsTail(s: string, b: nat, e: nat) {
    b <= e < |s| && AllIn(s, b, e, ValueChars) && s[e] == ')'
  }

  /** Position of the `(` after the name. */
  function Paren(m: FunctionMatch): nat {
    m.start + |m.name|
  }

  /** Whether `name` followed by `(` is at `i`. */
  predicate NameAt(s: string, name: string, i: nat) {
    OccursAt(s, name, i) && i + |name| < |s| && s[i + |name|] == '('
  }

  /** A match of the function expression, whichever name it uses. */
  predicate IsNamedMatch(s: string, m: FunctionMatch) {
    NameAt(s, m.name, m.start)
    && Paren(m) + 1 < m.keyEnd <= |s|
    && AllIn(s, Paren(m) + 1, m.keyEnd, KeyChars)
    && IsMiddle(s, m.keyEnd, m.spacesEnd, m.separatorEnd, m.valueStart)
    && IsTail(s, m.valueStart, m.valueEnd)
  }

  /** A match of the function expression with one of `names`. */
  predicate IsFunctionMatch(s: string, names: seq<string>, m: FunctionMatch) {
    m.name in names && IsNamedMatch(s, m)
  }

  /** `(V*)\)`: the value group giving back characters from `e` down to `b` until a `)`
      follows it. */
  function ValueEnds(s: string, b: nat, e: nat): (r: Option<nat>)
    requires b <= e <= |s| && AllIn(s, b, e, ValueChars)
    ensures r.Some? ==> IsTail(s, b, r.value) && r.value <= e
    ensures forall e': nat :: b <= e' <= e && IsTail(s, b, e') ==> r.Some?
    decreases e
  {
    if e < |s| && s[e] == ')' then Some(e)
    else if e == b then None
    else ValueEnds(s, b, e - 1)
  }

  /** The value group tried from `b` with its greedy run first. */
  function TailAt(s: string, b: nat): (r: Option<nat>)
    requires b <= |s|
    ensures r.Some? ==> IsTail(s, b, r.value)
    ensures forall e: nat :: IsTail(s, b, e) ==> r.Some?
  {
    var e := RunEnd(s, b, ValueChars);
    assert forall e': nat :: IsTail(s, b, e') ==> e' <= e by {
      forall e': nat | IsTail(s, b, e') ensures e' <= e {
        RunEndIsLongest(s, b, e', ValueChars);
      }
    }
    ValueEnds(s, b, e)
  }

  /** The second ` *` giving back spaces: value starts `b`, `b - 1`, ..., `b0`.
      The result is `(valueStart, valueEnd)`. */
  function SecondSpaces(s: string, b0: nat, b: nat): (r: Option<(nat, nat)>)
    requires b0 <= b <= |s| && AllIn(s, b0, b, Spaces)
    ensures r.Some? ==>
      b0 <= r.value.0 <= b && AllIn(s, b0, r.value.0, Spaces) && IsTail(s, r.value.0, r.value.1)
    ensures forall v: nat, e: nat :: b0 <= v <= b && IsTail(s, v, e) ==> r.Some?
    decreases b
  {
    match TailAt(s, b)
    case Some(e) => Some((b, e))
    case None => if b == b0 then None else SecondSpaces(s, b0, b - 1)
  }

  /** After the first spaces end at `a`: the separator when one is there, then without. The
      result is `(separatorEnd, valueStart, valueEnd)`. */
  function SeparatorThen(s: string, a: nat): (r: Option<(nat, nat, nat)>)
    requires a <= |s|
    ensures r.Some? ==>
      (r.value.0 == a || (r.value.0 == a + 1 && a < |s| && IsSeparator(s[a])))
      && r.value.0 <= r.value.1 <= |s| && AllIn(s, r.value.0, r.value.1, Spaces)
      && IsTail(s, r.value.1, r.value.2)
    ensures forall b0: nat, v: nat, e: nat ::
      ((b0 == a || (b0 == a + 1 && a < |s| && IsSeparator(s[a])))
      && b0 <= v <= |s| && AllIn(s, b0, v, Spaces) && IsTail(s, v, e)) ==> r.Some?
  {
    var withSeparator :=
      if a < |s| && IsSeparator(s[a]) then SecondSpaces(s, a + 1, RunEnd(s, a + 1, Spaces))
      else None;
    assert forall v: nat, e: nat :: (a < |s| && IsSeparator(s[a]) && a + 1 <= v <= |s|
      && AllIn(s, a + 1, v, Spaces) && IsTail(s, v, e)) ==> withSeparator.Some? by {
      forall v: nat, e: nat | a < |s| && IsSeparator(s[a]) && a + 1 <= v <= |s|
        && AllIn(s, a + 1, v, Spaces) && IsTail(s, v, e)
        ensures withSeparator.Some?
      {
        RunEndIsLongest(s, a + 1, v, Spaces);
      }
    }
    match withSeparator
    case Some((v, e)) => Some((a + 1, v, e))
    case None =>
      var b := RunEnd(s, a, Spaces);
      assert forall v: nat, e: nat :: a <= v <= |s| && AllIn(s, a, v, Spaces) && IsTail(s, v, e) ==> v <= b by {
        forall v: nat, e: nat | a <= v <= |s| && AllIn(s, a, v, Spaces) && IsTail(s, v, e) ensures v <= b {
          RunEndIsLongest(s, a, v, Spaces);
        }
      }
      match SecondSpaces(s, a, b)
      case Some((v, e)) => Some((a, v, e))
      case None => None
  }

  /** The first ` *` giving back spaces: ends `a`, `a - 1`, ..., `k`. The result is
      `(spacesEnd, separatorEnd, valueStart, valueEnd)`. */
  function FirstSpaces(s: string, k: nat, a: nat): (r: Option<(nat, nat, nat, nat)>)
    requires k <= a <= |s| && AllIn(s, k, a, Spaces)
    ensures r.Some? ==>
      IsMiddle(s, k, r.value.0, r.value.1, r.value.2) && IsTail(s, r.value.2, r.value.3)
    ensures forall a': nat, b0: nat, v: nat, e: nat :: a' <= a && IsMiddle(s, k, a', b0, v) && IsTail(s, v, e) ==> r.Some?
    decreases a
  {
    match SeparatorThen(s, a)
    case Some((b0, v, e)) => Some((a, b0, v, e))
    case None =>
      assert forall a': nat, b0: nat, v: nat, e: nat :: a' == a && IsMiddle(s, k, a', b0, v) && IsTail(s, v, e) ==> false;
      if a == k then None else FirstSpaces(s, k, a - 1)
  }

  /** Everything after the key, from `k`. */
  function AfterKey(s: string, k: nat): (r: Option<(nat, nat, nat, nat)>)
    requires k <= |s|
    ensures r.Some? ==>
      IsMiddle(s, k, r.value.0, r.value.1, r.value.2) && IsTail(s, r.value.2, r.value.3)
    ensures forall a: nat, b0: nat, v: nat, e: nat :: IsMiddle(s, k, a, b0, v) && IsTail(s, v, e) ==> r.Some?
  {
    var a := RunEnd(s, k, Spaces);
    assert forall a': nat, b0: nat, v: nat, e: nat :: IsMiddle(s, k, a', b0, v) && IsTail(s, v, e) ==> a' <= a by {
      forall a': nat, b0: nat, v: nat, e: nat | IsMiddle(s, k, a', b0, v) && IsTail(s, v, e) ensures a' <= a {
        RunEndIsLongest(s, k, a', Spaces);
      }
    }
    FirstSpaces(s, k, a)
  }

  /** The key group of a function giving back characters: key ends `k`, ..., `q + 2`,
      where `q` is the position of the `(` after `name`. */
  function FunctionKeyEnds(s: string, i: nat, name: string, k: nat): (r: Option<FunctionMatch>)
    requires NameAt(s, name, i) && i + |name| + 1 <= k <= |s|
    requires AllIn(s, i + |name| + 1, k, KeyChars)
    ensures r.Some? ==>
      IsNamedMatch(s, r.value) && r.value.start == i && r.value.name == name && r.value.keyEnd <= k
    ensures forall m {:trigger IsNamedMatch(s, m)} :: IsNamedMatch(s, m) && m.start == i && m.name == name && m.keyEnd <= k ==>
      r.Some? && m.keyEnd <= r.value.keyEnd
    decreases k
  {
    if k <= i + |name| + 1 then None
    else match AfterKey(s, k)
      case Some((a, b0, v, e)) => Some(FunctionMatch(i, name, k, a, b0, v, e))
      case None => FunctionKeyEnds(s, i, name, k - 1)
  }

  /** The function expression with one name tried at start `i`, the greedy key first. */
  function NamedAt(s: string, i: nat, name: string): (r: Option<FunctionMatch>)
    requires i <= |s|
    ensures r.Some? ==> IsNamedMatch(s, r.value) && r.value.start == i && r.value.name == name
    ensures forall m {:trigger IsNamedMatch(s, m)} :: IsNamedMatch(s, m) && m.start == i && m.name == name ==>
      r.Some? && m.keyEnd <= r.value.keyEnd
  {
    if NameAt(s, name, i) then
      var k := RunEnd(s, i + |name| + 1, KeyChars);
      assert forall m {:trigger IsNamedMatch(s, m)} :: IsNamedMatch(s, m) && m.start == i && m.name == name ==> m.keyEnd <= k by {
        forall m {:trigger IsNamedMatch(s, m)} | IsNamedMatch(s, m) && m.start == i && m.name == name ensures m.keyEnd <= k {
          RunEndIsLongest(s, i + |name| + 1, m.keyEnd, KeyChars);
        }
      }
      FunctionKeyEnds(s, i, name, k)
    else None
  }

  /** The function expression tried at start `i`: the names in order. Any match at `i` is
      found; among matches with the chosen name, none has a longer key. */
  function FunctionAt(s: string, i: nat, names: seq<string>): (r: Option<FunctionMatch>)
    requires i <= |s|
    ensures r.Some? ==> IsFunctionMatch(s, names, r.value) && r.value.start == i
    ensures forall m {:trigger IsFunctionMatch(s, names, m)} :: IsFunctionMatch(s, names, m) && m.start == i ==> r.Some?
    ensures r.Some? ==> forall m {:trigger IsNamedMatch(s, m)} ::
      IsNamedMatch(s, m) && m.start == i && m.name == r.value.name ==> m.keyEnd <= r.value.keyEnd
    decreases |names|
  {
    if |names| == 0 then None
    else match NamedAt(s, i, names[0])
      case Some(m) => Some(m)
      case None =>
        assert forall m {:trigger IsFunctionMatch(s, names, m)} :: IsFunctionMatch(s, names, m) && m.start == i ==>
          IsFunctionMatch(s, names[1..], m) by {
          forall m {:trigger IsFunctionMatch(s, names, m)} | IsFunctionMatch(s, names, m) && m.start == i
            ensures IsFunctionMatch(s, names[1..], m)
          {
            assert m.name != names[0];
            assert m.name in names[1..];
          }
        }
        FunctionAt(s, i, names[1..])
  }

  /** `Matcher.find` for the function expression from position `i`: the leftmost start. */
  function FindFunction(s: string, i: nat, names: seq<string>): (r: Option<FunctionMatch>)
    requires i <= |s|
    ensures r.Some? ==> IsFunctionMatch(s, names, r.value) && i <= r.value.start
    ensures forall m {:trigger IsFunctionMatch(s, names, m)} :: IsFunctionMatch(s, names, m) && i <= m.start ==>
      r.Some? && r.value.start <= m.start
    ensures r.Some? ==> forall m {:trigger IsNamedMatch(s, m)} ::
      IsNamedMatch(s, m) && m.start == r.value.start && m.name == r.value.name ==>
        m.keyEnd <= r.value.keyEnd
    decreases |s| - i
  {
    match FunctionAt(s, i, names)
    case Some(m) => Some(m)
    case None =>
      if i == |s| then None
      else FindFunction(s, i + 1, names)
  }

  // ---------------------------------------------------------------------------------
  // `map`

  /** Every infix alternative is the symbol of an infix constant. */
  lemma InfixAlternativeOwner(a: string)
    requires a in InfixAlternatives()
    ensures exists o :: !IsFunction(o) && Symbol(o) == a
  {
    SymbolsOfFormMembers(MultipleInfix, AllOperators);
    SymbolsOfFormMembers(SimpleInfix, AllOperators);
  }

  /** Every function alternative is the symbol of a function constant. */
  lemma FunctionAlternativeOwner(a: string)
    requires a in FunctionAlternatives()
    ensures exists o :: IsFunction(o) && Symbol(o) == a
  {
    SymbolsOfFormMembers(FunctionForm, AllOperators);
  }

  /** The symbol of every constant is among the alternatives of its form. */
  lemma SymbolIsAlternative(o: Operator)
    ensures !IsFunction(o) ==> Symbol(o) in InfixAlternatives()
    ensures IsFunction(o) ==> Symbol(o) in FunctionAlternatives()
  {
    AllOperatorsComplete();
    SymbolsOfFormMembers(FormOf(o), AllOperators);
  }

  /** A non-empty run of key characters is never blank. */
  lemma KeyRunNotBlank(s: string, i: nat, j: nat)
    requires i < j <= |s| && AllIn(s, i, j, KeyChars)
    ensures !IsBlank(Some(s[i..j]))
  {
    assert s[i..j][0] == s[i];
    assert InClass(s[i], KeyChars);
  }

  /** A non-empty run of value characters is never blank. */
  lemma ValueRunNotBlank(s: string, i: nat, j: nat)
    requires i < j <= |s| && AllIn(s, i, j, ValueChars)
    ensures !IsBlank(Some(s[i..j]))
  {
    assert s[i..j][0] == s[i];
    assert InClass(s[i], ValueChars);
  }

  /** `group(1)` of an infix match: the key. */
  function InfixKey(s: string, m: InfixMatch): string
    requires m.start <= m.keyEnd <= |s|
  {
    s[m.start..m.keyEnd]
  }

  /** `group(3)` of an infix match: the value. */
  function InfixValue(s: string, m: InfixMatch): string
    requires m.keyEnd + |m.operator| <= m.valueEnd <= |s|
  {
    s[m.keyEnd + |m.operator|..m.valueEnd]
  }

  /** `processAsOperatorFilters`: nothing for a blank filter or one in which the infix
      expression does not occur; otherwise the filter made of the three groups of the
      leftmost match. Making that filter never fails: the key group is never blank and
      the operator group is always a symbol of the catalog. */
  function ProcessAsOperator(s: Option<string>): (r: Res<Option<Filter>>)
    ensures r.Ok?
    ensures r.value.None? <==> IsBlank(s) || forall m :: !IsInfixMatch(s.value, InfixAlternatives(), m)
    ensures r.value.Some? ==>
      var m := FindInfix(s.value, 0, InfixAlternatives()).value;
      r.value.value == Filter(Some(InfixKey(s.value, m)), Operators.From(m.operator),
        Some(InfixValue(s.value, m)))
  {
    if IsBlank(s) then Ok(None)
    else
      match FindInfix(s.value, 0, InfixAlternatives())
      case None => Ok(None)
      case Some(m) =>
        var t := s.value;
        InfixAlternativeKnown(m.operator);
        InfixAlternativeIsSymbol(m.operator);
        KeyRunNotBlank(t, m.start, m.keyEnd);
        FromCatalogName(Some(InfixKey(t, m)), m.operator, Some(InfixValue(t, m)));
        Filters.From(Some(InfixKey(t, m)), Some(m.operator), Some(InfixValue(t, m)))
  }

  /** `group(2)` of a function match: the key. */
  function FunctionKey(s: string, m: FunctionMatch): string
    requires Paren(m) + 1 <= m.keyEnd <= |s|
  {
    s[Paren(m) + 1..m.keyEnd]
  }

  /** `group(3)` of a function match: the value, possibly empty. */
  function FunctionValue(s: string, m: FunctionMatch): string
    requires m.valueStart <= m.valueEnd <= |s|
  {
    s[m.valueStart..m.valueEnd]
  }

  /** `processAsFunctionOperatorFilters`: nothing for a blank filter or one in which the
      function expression does not occur; otherwise the filter of the leftmost match, made
      without a value when the value group is empty. */
  function ProcessAsFunction(s: Option<string>): (r: Res<Option<Filter>>)
    ensures r.Ok?
    ensures r.value.None? <==> IsBlank(s) || forall m :: !IsFunctionMatch(s.value, FunctionAlternatives(), m)
    ensures r.value.Some? ==>
      var m := FindFunction(s.value, 0, FunctionAlternatives()).value;
      var value := FunctionValue(s.value, m);
      r.value.value == Filter(Some(FunctionKey(s.value, m)), Operators.From(m.name),
        if value == "" then None else Some(value))
  {
    if IsBlank(s) then Ok(None)
    else
      match FindFunction(s.value, 0, FunctionAlternatives())
      case None => Ok(None)
      case Some(m) =>
        var t := s.value;
        FunctionGroupsMakeFilter(t, m);
        if IsBlank(Some(FunctionValue(t, m))) then
          FromWithoutValue(Some(FunctionKey(t, m)), Some(m.name))
        else
          Filters.From(Some(FunctionKey(t, m)), Some(m.name), Some(FunctionValue(t, m)))
  }

  /** A non-blank text whose leftmost infix match is `m` reads as the filter of `m`'s
      groups. */
  lemma OperatorReadingFound(s: string, m: InfixMatch)
    requires !IsBlank(Some(s)) && FindInfix(s, 0, InfixAlternatives()) == Some(m)
    ensures ProcessAsOperator(Some(s))
      == Ok(Some(Filter(Some(InfixKey(s, m)), Operators.From(m.operator), Some(InfixValue(s, m)))))
  {
  }

  /** Without an infix match the infix reading gives nothing. */
  lemma OperatorReadingAbsent(s: string)
    requires forall m :: !IsInfixMatch(s, InfixAlternatives(), m)
    ensures ProcessAsOperator(Some(s)) == Ok(None)
  {
  }

  /** A non-blank text whose leftmost function match is `m` reads as the filter of `m`'s
      groups. */
  lemma FunctionReadingFound(s: string, m: FunctionMatch)
    requires !IsBlank(Some(s)) && FindFunction(s, 0, FunctionAlternatives()) == Some(m)
    ensures ProcessAsFunction(Some(s)) == Ok(Some(Filter(Some(FunctionKey(s, m)), Operators.From(m.name),
      if FunctionValue(s, m) == "" then None else Some(FunctionValue(s, m)))))
  {
    FunctionGroupsMakeFilter(s, m);
  }

  /** The groups of a function match always make a filter: the key group is never blank,
      the name is a symbol of the catalog, and the value group is blank only when empty. */
  lemma FunctionGroupsMakeFilter(t: string, m: FunctionMatch)
    requires IsFunctionMatch(t, FunctionAlternatives(), m)
    ensures IsBlank(Some(FunctionValue(t, m))) <==> FunctionValue(t, m) == ""
    ensures Operators.From(m.name).Some?
    ensures FromWithoutValue(Some(FunctionKey(t, m)), Some(m.name))
      == Ok(Some(Filter(Some(FunctionKey(t, m)), Operators.From(m.name), None)))
    ensures Filters.From(Some(FunctionKey(t, m)), Some(m.name), Some(FunctionValue(t, m)))
      == Ok(Some(Filter(Some(FunctionKey(t, m)), Operators.From(m.name), Some(FunctionValue(t, m)))))
  {
    FunctionAlternativeKnown(m.name);
    FunctionAlternativeIsName(m.name);
    KeyGroupNotBlank(t, m);
    ValueGroupBlank(t, m);
    FromCatalogName(Some(FunctionKey(t, m)), m.name, None);
    FromCatalogName(Some(FunctionKey(t, m)), m.name, Some(FunctionValue(t, m)));
  }

  /** The key group of a function match is never blank. */
  lemma KeyGroupNotBlank(t: string, m: FunctionMatch)
    requires IsFunctionMatch(t, FunctionAlternatives(), m)
    ensures !IsBlank(Some(FunctionKey(t, m)))
  {
    KeyRunNotBlank(t, Paren(m) + 1, m.keyEnd);
  }

  /** The value group of a function match is blank only when it is empty. */
  lemma ValueGroupBlank(t: string, m: FunctionMatch)
    requires IsFunctionMatch(t, FunctionAlternatives(), m)
    ensures IsBlank(Some(FunctionValue(t, m))) <==> FunctionValue(t, m) == ""
  {
    if m.valueStart < m.valueEnd {
      ValueRunNotBlank(t, m.valueStart, m.valueEnd);
    }
  }

  /** Every function alternative names a function constant of the catalog. */
  lemma FunctionAlternativeKnown(a: string)
    requires a in FunctionAlternatives()
    ensures Operators.From(a).Some? && IsFunction(Operators.From(a).value)
  {
    FunctionAlternativeOwner(a);
    var o :| IsFunction(o) && Symbol(o) == a;
    FromSymbol(o);
  }

  /** `from` with a non-blank key and the name of a catalog constant makes the filter of
      that constant, whatever the value. */
  lemma FromCatalogName(key: Option<string>, name: string, value: Option<string>)
    requires !IsBlank(key) && (IsNameText(name) || IsInfixSymbolText(name))
    requires Operators.From(name).Some?
    ensures Filters.From(key, Some(name), value) == Ok(Some(Filter(key, Operators.From(name), value)))
  {
    assert IsAsciiLetter(name[0]) || IsOperatorChar(name[0]);
  }

  /** Every infix alternative names an infix constant of the catalog. */
  lemma InfixAlternativeKnown(a: string)
    requires a in InfixAlternatives()
    ensures Operators.From(a).Some? && !IsFunction(Operators.From(a).value)
  {
    InfixAlternativeOwner(a);
    var o :| !IsFunction(o) && Symbol(o) == a;
    FromSymbol(o);
  }

  /** `map(String)`: the infix reading first, then the function reading; a filter
      text neither reading accepts is rejected with `WrongFormat`. */
  function Map(s: Option<string>): (r: Res<Filter>)
    ensures r.Err? ==> r.error == WrongFormat(s)
  {
    var operatorResult := ProcessAsOperator(s).value;
    if operatorResult.Some? then Ok(operatorResult.value)
    else
      var functionResult := ProcessAsFunction(s).value;
      if functionResult.Some? then Ok(functionResult.value)
      else Err(WrongFormat(s))
  }

  /** A filter text is rejected exactly when it is blank or neither expression occurs in
      it. */
  lemma MapRejectsExactly(s: Option<string>)
    ensures Map(s).Err? <==>
      IsBlank(s)
      || ((forall m :: !IsInfixMatch(s.value, InfixAlternatives(), m))
          && (forall m :: !IsFunctionMatch(s.value, FunctionAlternatives(), m)))
  {
    if IsBlank(s) {
      assert ProcessAsOperator(s).value.None? && ProcessAsFunction(s).value.None?;
    } else if exists m :: IsInfixMatch(s.value, InfixAlternatives(), m) {
      assert ProcessAsOperator(s).value.Some?;
    } else if exists m :: IsFunctionMatch(s.value, FunctionAlternatives(), m) {
      assert ProcessAsFunction(s).value.Some?;
    } else {
      assert ProcessAsOperator(s).value.None? && ProcessAsFunction(s).value.None?;
    }
  }

  /** When the infix expression occurs in the text, its reading is the result, even if the
      function expression occurs too; otherwise the function reading is. */
  lemma MapPrefersInfix(s: Option<string>)
    requires !IsBlank(s)
    ensures (exists m :: IsInfixMatch(s.value, InfixAlternatives(), m)) ==>
      Map(s) == Ok(ProcessAsOperator(s).value.value)
    ensures
      ((forall m :: !IsInfixMatch(s.value, InfixAlternatives(), m))
       && (exists m :: IsFunctionMatch(s.value, FunctionAlternatives(), m))) ==>
      Map(s) == Ok(ProcessAsFunction(s).value.value)
  {
    if exists m :: IsInfixMatch(s.value, InfixAlternatives(), m) {
      assert ProcessAsOperator(s).value.Some?;
    } else if exists m :: IsFunctionMatch(s.value, FunctionAlternatives(), m) {
      assert ProcessAsOperator(s).value.None?;
      assert ProcessAsFunction(s).value.Some?;
    }
  }

  /** The elements of a batch mapped in order by `mapOne`; the first failure stops the
      batch and is its result. */
  function MapEach(mapOne: Option<string> -> Res<Filter>, filters: seq<Option<string>>)
    : Res<seq<Filter>>
    decreases |filters|
  {
    if |filters| == 0 then Ok([])
    else
      var head :- mapOne(filters[0]);
      var tail :- MapEach(mapOne, filters[1..]);
      Ok([head] + tail)
  }

  /** The batch succeeds exactly when every element maps, and then holds each element's
      filter at its position; otherwise its error is that of the first element that does
      not map. */
  lemma {:induction false} MapEachMeaning(mapOne: Option<string> -> Res<Filter>,
    filters: seq<Option<string>>)
    ensures MapEach(mapOne, filters).Ok? <==> forall i :: 0 <= i < |filters| ==> mapOne(filters[i]).Ok?
    ensures MapEach(mapOne, filters).Ok? ==>
      var fs := MapEach(mapOne, filters).value;
      |fs| == |filters| && forall i :: 0 <= i < |filters| ==> mapOne(filters[i]) == Ok(fs[i])
    ensures MapEach(mapOne, filters).Err? ==>
      exists i :: 0 <= i < |filters| && mapOne(filters[i]) == Err(MapEach(mapOne, filters).error)
        && forall j :: 0 <= j < i ==> mapOne(filters[j]).Ok?
    decreases |filters|
  {
    if |filters| > 0 {
      MapEachMeaning(mapOne, filters[1..]);
      assert forall i :: 1 <= i < |filters| ==> filters[1..][i - 1] == filters[i];
      if mapOne(filters[0]).Ok? && MapEach(mapOne, filters[1..]).Err? {
        var i :| 0 <= i < |filters[1..]| && mapOne(filters[1..][i]) == Err(MapEach(mapOne, filters[1..]).error)
          && forall j :: 0 <= j < i ==> mapOne(filters[1..][j]).Ok?;
        assert mapOne(filters[i + 1]) == Err(MapEach(mapOne, filters).error);
      }
    }
  }

  /** A batch of filter texts is rejected with the `WrongFormat` error of its first
      rejected element. */
  lemma MapBatchError(filters: seq<Option<string>>)
    requires MapEach(Map, filters).Err?
    ensures exists i :: 0 <= i < |filters| && MapEach(Map, filters).error == WrongFormat(filters[i])
  {
    MapEachMeaning(Map, filters);
    var i :| 0 <= i < |filters| && Map(filters[i]) == Err(MapEach(Map, filters).error);
  }

  /** `map(List)`: a null or empty batch gives null; otherwise each element is mapped in
      order and the first wrong element stops the loop with its error. */
  method MapAll(filters: Option<seq<Option<string>>>) returns (r: Res<Option<seq<Filter>>>)
    ensures filters.None? || |filters.value| == 0 ==> r == Ok(None)
    ensures filters.Some? && |filters.value| > 0 ==>
      match MapEach(Map, filters.value)
      case Ok(fs) => r == Ok(Some(fs))
      case Err(e) => r == Err(e)
  {
    if filters.None? || |filters.value| == 0 {
      return Ok(None);
    }
    var mapped := MapInOrder(Map, filters.value);
    match mapped
    case Ok(fs) => return Ok(Some(fs));
    case Err(e) => return Err(e);
  }

  /** The loop of `map(List)`: each element mapped by `mapOne` in order, the first
      failure ending the loop with its error. */
  method MapInOrder(mapOne: Option<string> -> Res<Filter>, list: seq<Option<string>>)
    returns (r: Res<seq<Filter>>)
    ensures r == MapEach(mapOne, list)
  {
    var result: seq<Filter> := [];
    var i := 0;
    while i < |list|
      invariant i <= |list| && |result| == i
      invariant forall k :: 0 <= k < i ==> mapOne(list[k]) == Ok(result[k])
      decreases |list| - i
    {
      var mapped := mapOne(list[i]);
      if mapped.Err? {
        MapEachFirstError(mapOne, list, i);
        return Err(mapped.error);
      }
      result := result + [mapped.value];
      i := i + 1;
    }
    MapEachAllMapped(mapOne, list, result);
    return Ok(result);
  }

  /** When every element maps, the batch holds their filters in order. */
  lemma {:induction false} MapEachAllMapped(mapOne: Option<string> -> Res<Filter>,
    filters: seq<Option<string>>, fs: seq<Filter>)
    requires |fs| == |filters| && forall k :: 0 <= k < |filters| ==> mapOne(filters[k]) == Ok(fs[k])
    ensures MapEach(mapOne, filters) == Ok(fs)
    decreases |filters|
  {
    if |filters| > 0 {
      MapEachAllMapped(mapOne, filters[1..], fs[1..]);
      assert fs == [fs[0]] + fs[1..];
    }
  }

  /** When the elements before `i` map and element `i` does not, the batch fails with
      element `i`'s error. */
  lemma {:induction false} MapEachFirstError(mapOne: Option<string> -> Res<Filter>,
    filters: seq<Option<string>>, i: nat)
    requires i < |filters| && mapOne(filters[i]).Err?
    requires forall k :: 0 <= k < i ==> mapOne(filters[k]).Ok?
    ensures MapEach(mapOne, filters) == Err(mapOne(filters[i]).error)
    decreases i
  {
    if i > 0 {
      MapEachFirstError(mapOne, filters[1..], i - 1);
    }
  }

}
