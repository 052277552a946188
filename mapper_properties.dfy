/** What the mapper reads back: the text `toString` prints for a filter with a key of key
    characters and a value of value characters maps to that same filter, and the
    malformed texts of the mapper's test suite are rejected. */
module MapperProperties {
  import opened Wrappers
  import opened Text
  import opened Operators
  import opened Errors
  import opened Filters
  import opened Mapper

  /** Text the key group `[A-Za-z0-9._()-]+` matches in full. */
  predicate IsKeyText(k: string) {
    |k| > 0 && forall i :: 0 <= i < |k| ==> IsKeyChar(k[i])
  }

  /** Text the value group `[A-Za-z0-9.:_-]+` matches in full. */
  predicate IsValueText(v: string) {
    |v| > 0 && forall i :: 0 <= i < |v| ==> IsValueChar(v[i])
  }

  /** A run of `cls` from `i` that ends at `j`, where the next character is outside `cls`
      or the text ends, is the greedy run. */
  lemma RunEndAt(s: string, i: nat, j: nat, cls: CharClass)
    requires i <= j <= |s| && AllIn(s, i, j, cls)
    requires j < |s| ==> !InClass(s[j], cls)
    ensures RunEnd(s, i, cls) == j
  {
    RunEndIsLongest(s, i, j, cls);
  }

  /** Two infix symbols present at `k` and each followed by a value character are the
      same text: they are made of operator characters, which are not value characters,
      so neither can stop where the other goes on. */
  lemma SameInfixText(s: string, k: nat, a: string, b: string)
    requires IsInfixSymbolText(a) && IsInfixSymbolText(b)
    requires OccursAt(s, a, k) && k + |a| < |s| && IsValueChar(s[k + |a|])
    requires OccursAt(s, b, k) && k + |b| < |s| && IsValueChar(s[k + |b|])
    ensures a == b
  {
    assert forall j :: 0 <= j < |a| ==> s[k + j] == a[j] by {
      assert s[k..k + |a|] == a;
    }
    assert forall j :: 0 <= j < |b| ==> s[k + j] == b[j] by {
      assert s[k..k + |b|] == b;
    }
    assert |a| == |b|;
    assert a == s[k..k + |a|] == b;
  }

  /** With `op` the only alternative at `k` followed by a value character: when the text
      is a key run up to `k`, then `op`, then value characters to the end, the infix
      expression matches from the start with exactly those groups. */
  lemma FindInfixWhole(s: string, k: nat, op: string, alts: seq<string>)
    requires op in alts && 0 < k && k + |op| < |s|
    requires AllIn(s, 0, k, KeyChars) && !IsKeyChar(s[k])
    requires OccursAt(s, op, k) && AllIn(s, k + |op|, |s|, ValueChars)
    requires forall a {:trigger OccursAt(s, a, k)} :: a in alts && OccursAt(s, a, k) && k + |a| < |s| && IsValueChar(s[k + |a|]) ==> a == op
    ensures FindInfix(s, 0, alts) == Some(InfixMatch(0, k, op, |s|))
  {
    RunEndAt(s, 0, k, KeyChars);
    RunEndAt(s, k + |op|, |s|, ValueChars);
    var m0 := InfixMatch(0, k, op, |s|);
    assert IsInfixMatch(s, alts, m0);
    var m := FindInfix(s, 0, alts).value;
    assert m.start == 0 && k <= m.keyEnd;
    InfixMatchIsWhole(s, k, op, alts, m);
  }

  /** A match from the start whose key reaches at least `k` is the match of the whole
      text with `op` at `k`. */
  lemma InfixMatchIsWhole(s: string, k: nat, op: string, alts: seq<string>, m: InfixMatch)
    requires IsInfixMatch(s, alts, m) && m.start == 0 && k <= m.keyEnd
    requires k + |op| <= |s| && RunEnd(s, 0, KeyChars) == k && RunEnd(s, k + |op|, ValueChars) == |s|
    requires m.valueEnd == RunEnd(s, m.keyEnd + |m.operator|, ValueChars)
    requires forall a {:trigger OccursAt(s, a, k)} :: a in alts && OccursAt(s, a, k) && k + |a| < |s| && IsValueChar(s[k + |a|]) ==> a == op
    ensures m == InfixMatch(0, k, op, |s|)
  {
    RunEndIsLongest(s, 0, m.keyEnd, KeyChars);
    assert m.keyEnd == k;
    assert InClass(s[k + |m.operator|], ValueChars);
    assert m.operator == op;
  }

  /** An infix symbol present at `k` and followed by a value character is the only
      alternative of that shape that is. */
  lemma OnlySymbolAt(s: string, k: nat, op: string, alts: seq<string>)
    requires forall a :: a in alts ==> IsInfixSymbolText(a)
    requires IsInfixSymbolText(op) && OccursAt(s, op, k)
    requires k + |op| < |s| && IsValueChar(s[k + |op|])
    ensures forall a {:trigger OccursAt(s, a, k)} :: a in alts && OccursAt(s, a, k) && k + |a| < |s| && IsValueChar(s[k + |a|]) ==>
      a == op
  {
    forall a {:trigger OccursAt(s, a, k)} | a in alts && OccursAt(s, a, k) && k + |a| < |s| && IsValueChar(s[k + |a|])
      ensures a == op
    {
      SameInfixText(s, k, a, op);
    }
  }

  /** The layout of `key + op + value` when `op` is made of operator characters. */
  lemma InfixTextShape(key: string, op: string, value: string)
    requires IsKeyText(key) && IsInfixSymbolText(op) && IsValueText(value)
    ensures
      var s, k := key + op + value, |key|;
      0 < k && k + |op| < |s| && AllIn(s, 0, k, KeyChars) && !IsKeyChar(s[k])
      && OccursAt(s, op, k) && IsValueChar(s[k + |op|]) && AllIn(s, k + |op|, |s|, ValueChars)
  {
    var s, k := key + op + value, |key|;
    assert s[k..k + |op|] == op;
    assert forall j :: 0 <= j < k ==> s[j] == key[j];
    assert forall j :: k + |op| <= j < |s| ==> s[j] == value[j - k - |op|];
    assert s[k] == op[0];
  }

  /** What the search needs to know about `key + op + value` when every alternative,
      `op` among them, has the shape of an infix symbol. */
  lemma InfixCanonicalLayout(key: string, op: string, value: string, alts: seq<string>)
    requires IsKeyText(key) && op in alts && IsValueText(value)
    requires forall a :: a in alts ==> IsInfixSymbolText(a)
    ensures
      var s, k := key + op + value, |key|;
      0 < k && k + |op| < |s|
      && AllIn(s, 0, k, KeyChars) && !IsKeyChar(s[k])
      && OccursAt(s, op, k) && AllIn(s, k + |op|, |s|, ValueChars)
      && forall a {:trigger OccursAt(s, a, k)} :: a in alts && OccursAt(s, a, k) && k + |a| < |s| && IsValueChar(s[k + |a|]) ==> a == op
  {
    InfixTextShape(key, op, value);
    OnlySymbolAt(key + op + value, |key|, op, alts);
  }

  /** In `key + op + value` the infix expression matches from the start, with the key,
      the alternative `op` and the value as its three groups. */
  lemma FindInfixCanonical(key: string, op: string, value: string, alts: seq<string>)
    requires IsKeyText(key) && op in alts && IsValueText(value)
    requires forall a :: a in alts ==> IsInfixSymbolText(a)
    ensures
      var s := key + op + value;
      FindInfix(s, 0, alts) == Some(InfixMatch(0, |key|, op, |s|))
  {
    InfixCanonicalLayout(key, op, value, alts);
    FindInfixWhole(key + op + value, |key|, op, alts);
  }

  /** The key and value groups of the match of the whole of `key + op + value`, with `op`
      after the key, are the key and the value. */
  lemma InfixCanonicalGroups(key: string, op: string, value: string)
    ensures
      var s := key + op + value;
      var m := InfixMatch(0, |key|, op, |s|);
      InfixKey(s, m) == key && InfixValue(s, m) == value
  {
    var s := key + op + value;
    ThreeParts(key, op, value);
    InfixMatchGroups(s, InfixMatch(0, |key|, op, |s|), key, value);
  }

  /** `FindInfixCanonical` for the alternatives of the infix expression. */
  lemma FindInfixCanonicalAlternatives(key: string, op: string, value: string)
    requires IsKeyText(key) && op in InfixAlternatives() && IsValueText(value)
    ensures
      var s := key + op + value;
      FindInfix(s, 0, InfixAlternatives()) == Some(InfixMatch(0, |key|, op, |s|))
  {
    InfixAlternativesShape();
    FindInfixCanonical(key, op, value, InfixAlternatives());
  }

  /** The groups of an infix match, read off from where its key and value lie. */
  lemma InfixMatchGroups(s: string, m: InfixMatch, key: string, value: string)
    requires m.start <= m.keyEnd && m.keyEnd + |m.operator| <= m.valueEnd <= |s|
    requires s[m.start..m.keyEnd] == key && s[m.keyEnd + |m.operator|..m.valueEnd] == value
    ensures InfixKey(s, m) == key && InfixValue(s, m) == value
  {
  }

  /** A text holding a key character is not blank. */
  lemma KeyCharNotBlank(s: string, i: nat)
    requires i < |s| && IsKeyChar(s[i])
    ensures !IsBlank(Some(s))
  {
  }

  /** A text whose leftmost infix match is `m` maps to the filter of `m`'s groups. */
  lemma MapInfixReading(s: string, m: InfixMatch)
    requires FindInfix(s, 0, InfixAlternatives()) == Some(m)
    ensures Map(Some(s)) == Ok(Filter(Some(InfixKey(s, m)), Operators.From(m.operator), Some(InfixValue(s, m))))
  {
    assert InClass(s[m.start], KeyChars);
    KeyCharNotBlank(s, m.start);
    OperatorReadingFound(s, m);
  }

  /** The parts of `a + b + c`, sliced back out. */
  lemma ThreeParts(a: string, b: string, c: string)
    ensures var s := a + b + c;
      s[0..|a|] == a && s[|a|..|a| + |b|] == b && s[|a| + |b|..|s|] == c
  {
  }

  /** The same with the groups named: `key`, the symbol of `o`, and `value`. */
  lemma MapInfixGroups(s: string, m: InfixMatch, key: string, o: Operator, value: string)
    requires FindInfix(s, 0, InfixAlternatives()) == Some(m) && m.operator == Symbol(o)
    requires InfixKey(s, m) == key && InfixValue(s, m) == value
    ensures Map(Some(s)) == Ok(Filter(Some(key), Some(o), Some(value)))
  {
    FromSymbol(o);
    MapInfixReading(s, m);
  }

  /** `key + symbol + value` is read back as its three parts, whatever the infix symbol. */
  lemma MapInfixRoundTrip(key: string, o: Operator, value: string)
    requires IsKeyText(key) && !IsFunction(o) && IsValueText(value)
    ensures Map(Some(key + Symbol(o) + value)) == Ok(Filter(Some(key), Some(o), Some(value)))
  {
    var s := key + Symbol(o) + value;
    SymbolIsAlternative(o);
    FindInfixCanonicalAlternatives(key, Symbol(o), value);
    InfixCanonicalGroups(key, Symbol(o), value);
    MapInfixGroups(s, InfixMatch(0, |key|, Symbol(o), |s|), key, o, value);
  }

  // ---------------------------------------------------------------------------------
  // Function texts.

  /** No text without an operator character holds an infix match. */
  lemma NoInfixWithoutOperatorChars(s: string)
    requires forall i :: 0 <= i < |s| ==> !IsOperatorChar(s[i])
    ensures forall m :: !IsInfixMatch(s, InfixAlternatives(), m)
  {
    InfixAlternativesShape();
    NoSymbolWithoutOperatorChars(s, InfixAlternatives());
  }

  lemma NoSymbolWithoutOperatorChars(s: string, alts: seq<string>)
    requires forall a :: a in alts ==> IsInfixSymbolText(a)
    requires forall i :: 0 <= i < |s| ==> !IsOperatorChar(s[i])
    ensures forall m :: !IsInfixMatch(s, alts, m)
  {
    forall m: InfixMatch {:trigger IsInfixMatch(s, alts, m)} | m.operator in alts ensures !IsInfixMatch(s, alts, m) {
      NotAt(s, m.operator, m.keyEnd);
    }
  }

  /** Text starting with an operator character does not occur in a text without one. */
  lemma NotAt(s: string, p: string, k: nat)
    requires |p| > 0 && IsOperatorChar(p[0])
    requires forall i :: 0 <= i < |s| ==> !IsOperatorChar(s[i])
    ensures !OccursAt(s, p, k)
  {
    if k + |p| <= |s| {
      assert s[k..k + |p|][0] == s[k];
    }
  }

  /** Two names of letters both followed by `(` at the same position are the same text:
      neither can stop where the other goes on. */
  lemma SameNameText(s: string, i: nat, a: string, b: string)
    requires IsNameText(a) && IsNameText(b)
    requires NameAt(s, a, i) && NameAt(s, b, i)
    ensures a == b
  {
    assert forall j :: 0 <= j < |a| ==> s[i + j] == a[j] by {
      assert s[i..i + |a|] == a;
    }
    assert forall j :: 0 <= j < |b| ==> s[i + j] == b[j] by {
      assert s[i..i + |b|] == b;
    }
    assert |a| == |b|;
    assert a == s[i..i + |a|] == b;
  }

  /** A name of letters followed by `(` at `i` is the only alternative of that shape that
      is. */
  lemma OnlyNameAt(s: string, i: nat, name: string, names: seq<string>)
    requires forall a :: a in names ==> IsNameText(a)
    requires IsNameText(name) && NameAt(s, name, i)
    ensures forall a {:trigger NameAt(s, a, i)} :: a in names && NameAt(s, a, i) ==> a == name
  {
    forall a {:trigger NameAt(s, a, i)} | a in names && NameAt(s, a, i) ensures a == name {
      SameNameText(s, i, a, name);
    }
  }

  /** What the search of the function expression needs to know about `s`: `name` and
      only `name` among `names` is at the start, followed by `(`; the key runs to `q` and
      no further; the separator and value parts `a`, `b0`, `vs`, `ve` are the only ones
      that reach the `)`. */
  ghost predicate FunctionLayout(s: string, name: string, q: nat, a: nat, b0: nat, vs: nat, ve: nat,
    names: seq<string>)
  {
    name in names && NameAt(s, name, 0)
    && (forall x {:trigger NameAt(s, x, 0)} :: x in names && NameAt(s, x, 0) ==> x == name)
    && |name| + 1 < q <= |s| && AllIn(s, |name| + 1, q, KeyChars)
    && IsMiddle(s, q, a, b0, vs) && IsTail(s, vs, ve)
    && (forall m {:trigger IsNamedMatch(s, m)} :: IsNamedMatch(s, m) && m.start == 0 && m.name == name ==> m.keyEnd <= q)
    && (forall a': nat, b': nat, v: nat, e: nat ::
      IsMiddle(s, q, a', b', v) && IsTail(s, v, e) ==> v == vs && e == ve)
  }

  /** The leftmost function match when `name` followed by `(` starts the text and is the
      only such name, no key before a valid rest is longer than `q`, and every valid rest
      after a key ending at `q` puts the value at `vs..ve`: the match uses `name`, starts
      at 0, and has its key at `|name| + 1..q` and its value at `vs..ve`. */
  lemma FindFunctionWhole(s: string, name: string, q: nat, a: nat, b0: nat, vs: nat, ve: nat,
    names: seq<string>)
    requires FunctionLayout(s, name, q, a, b0, vs, ve, names)
    ensures
      var r := FindFunction(s, 0, names);
      r.Some? && r.value.start == 0 && r.value.name == name && r.value.keyEnd == q
      && r.value.valueStart == vs && r.value.valueEnd == ve
  {
    var m0 := FunctionMatch(0, name, q, a, b0, vs, ve);
    assert IsFunctionMatch(s, names, m0);
    var m := FindFunction(s, 0, names).value;
    assert m.start == 0;
    assert m.name == name;
    assert m.keyEnd == q;
  }

  /** With key characters from just after the `(` up to `q` and no key character at `q`,
      no function match with that name at the start has a key ending after `q`. */
  lemma KeyEndsAt(s: string, name: string, q: nat)
    requires |name| + 1 <= q < |s| && AllIn(s, |name| + 1, q, KeyChars) && !IsKeyChar(s[q])
    ensures forall m {:trigger IsNamedMatch(s, m)} :: IsNamedMatch(s, m) && m.start == 0 && m.name == name ==> m.keyEnd <= q
  {
    RunEndAt(s, |name| + 1, q, KeyChars);
    forall m {:trigger IsNamedMatch(s, m)} | IsNamedMatch(s, m) && m.start == 0 && m.name == name ensures m.keyEnd <= q {
      RunEndIsLongest(s, |name| + 1, m.keyEnd, KeyChars);
    }
  }

  /** After a key ending at `q`, the text ` : value)` leaves one way through the rest of
      the expression: the value group is `value`. */
  lemma CanonicalRest(s: string, q: nat)
    requires q + 4 < |s| && s[q] == ' ' && s[q + 1] == ':' && s[q + 2] == ' ' && s[|s| - 1] == ')'
    requires forall j :: q + 3 <= j < |s| - 1 ==> IsValueChar(s[j])
    ensures IsMiddle(s, q, q + 1, q + 2, q + 3) && IsTail(s, q + 3, |s| - 1)
    ensures forall a: nat, b0: nat, v: nat, e: nat ::
      IsMiddle(s, q, a, b0, v) && IsTail(s, v, e) ==> v == q + 3 && e == |s| - 1
  {
    forall a: nat, b0: nat, v: nat, e: nat | IsMiddle(s, q, a, b0, v) && IsTail(s, v, e)
      ensures v == q + 3 && e == |s| - 1
    {
      assert !InClass(s[q + 1], Spaces) && !IsSeparator(s[q]);
      assert a <= q + 1;
      assert !InClass(s[q + 2], ValueChars) && !InClass(s[q], ValueChars);
      assert b0 <= q + 2;
      assert !InClass(s[q + 3], Spaces);
      assert v <= q + 3;
      assert s[v] != ')' ==> InClass(s[v], ValueChars);
      assert v == q + 3;
      assert forall j :: q + 3 <= j < |s| - 1 ==> s[j] != ')';
    }
  }

  /** After a key ending at `k`, a lone `)` closing the text leaves one way through the
      rest of the expression: the value group is empty. */
  lemma ClosingRest(s: string, k: nat)
    requires k + 1 == |s| && s[k] == ')'
    ensures IsMiddle(s, k, k, k, k) && IsTail(s, k, k)
    ensures forall a: nat, b0: nat, v: nat, e: nat ::
      IsMiddle(s, k, a, b0, v) && IsTail(s, v, e) ==> v == k && e == k
  {
  }

  /** The layout of `name(key : value)`. */
  lemma FunctionTextShape(name: string, key: string, value: string)
    requires IsNameText(name) && IsKeyText(key) && IsValueText(value)
    ensures
      var s := name + "(" + key + " : " + value + ")";
      var q := |name| + 1 + |key|;
      NameAt(s, name, 0) && q + 4 < |s| && AllIn(s, |name| + 1, q, KeyChars)
      && s[q] == ' ' && s[q + 1] == ':' && s[q + 2] == ' ' && s[|s| - 1] == ')'
      && (forall j :: q + 3 <= j < |s| - 1 ==> IsValueChar(s[j]))
  {
    FunctionTextGroups(name, key, value);
  }

  /** Where the key and the value of `name(key : value)` are, and that it has no
      operator character. */
  lemma FunctionTextGroups(name: string, key: string, value: string)
    requires IsNameText(name) && IsKeyText(key) && IsValueText(value)
    ensures
      var s := name + "(" + key + " : " + value + ")";
      var q := |name| + 1 + |key|;
      q + 4 < |s| && s[|name| + 1..q] == key && s[q + 3..|s| - 1] == value
      && (forall i :: 0 <= i < |s| ==> !IsOperatorChar(s[i]))
  {
    var s := name + "(" + key + " : " + value + ")";
    var n, q := |name|, |name| + 1 + |key|;
    FunctionTextSlices(name, key, value);
    assert forall j :: 0 <= j < n ==> s[j] == name[j];
    assert forall j :: n + 1 <= j < q ==> s[j] == key[j - n - 1];
    assert forall j :: q + 3 <= j < |s| - 1 ==> s[j] == value[j - q - 3];
  }

  /** Where the key and the value of `name(key : value)` are. */
  lemma FunctionTextSlices(name: string, key: string, value: string)
    ensures
      var s := name + "(" + key + " : " + value + ")";
      var q := |name| + 1 + |key|;
      q + 4 <= |s| && s[|name| + 1..q] == key && s[q + 3..|s| - 1] == value
  {
    var s := name + "(" + key + " : " + value + ")";
    var n, q := |name|, |name| + 1 + |key|;
    assert forall j :: n + 1 <= j < q ==> s[j] == key[j - n - 1];
    assert forall j :: q + 3 <= j < |s| - 1 ==> s[j] == value[j - q - 3];
    assert s[n + 1..q] == key;
    assert s[q + 3..|s| - 1] == value;
  }

  /** The layout of `name(key)`. */
  lemma OneArgumentTextShape(name: string, key: string)
    requires IsNameText(name) && IsKeyText(key)
    ensures
      var s := name + "(" + key + ")";
      NameAt(s, name, 0) && |name| + 1 < |s| - 1 && AllIn(s, |name| + 1, |s| - 1, KeyChars)
      && s[|s| - 1] == ')' && s[|name| + 1..|s| - 1] == key
      && (forall i :: 0 <= i < |s| ==> !IsOperatorChar(s[i]))
  {
    var s := name + "(" + key + ")";
    var n := |name|;
    assert s[..n] == name;
    assert forall j :: 0 <= j < n ==> s[j] == name[j];
    assert forall j :: n + 1 <= j < |s| - 1 ==> s[j] == key[j - n - 1];
    assert s[n + 1..|s| - 1] == key;
  }

  /** A text without an infix match whose leftmost function match is `m` maps to the
      filter of `m`'s groups, without a value when the value group is empty. */
  lemma MapFunctionReading(s: string, m: FunctionMatch)
    requires forall m' :: !IsInfixMatch(s, InfixAlternatives(), m')
    requires FindFunction(s, 0, FunctionAlternatives()) == Some(m)
    ensures Map(Some(s)) == Ok(Filter(Some(FunctionKey(s, m)), Operators.From(m.name),
      if FunctionValue(s, m) == "" then None else Some(FunctionValue(s, m))))
  {
    FunctionMatchNotBlank(s, FunctionAlternatives(), m);
    OperatorReadingAbsent(s);
    FunctionReadingFound(s, m);
  }

  /** A text in which the function expression matches is not blank. */
  lemma FunctionMatchNotBlank(s: string, names: seq<string>, m: FunctionMatch)
    requires IsFunctionMatch(s, names, m)
    ensures !IsBlank(Some(s))
  {
    assert InClass(s[Paren(m) + 1], KeyChars);
    KeyCharNotBlank(s, Paren(m) + 1);
  }

  /** The same with the groups named: the name of `o`, `key`, and `value` if non-empty. */
  lemma MapFunctionGroups(s: string, o: Operator, key: string, value: string)
    requires forall m' :: !IsInfixMatch(s, InfixAlternatives(), m')
    requires
      var r := FindFunction(s, 0, FunctionAlternatives());
      r.Some? && r.value.name == Symbol(o) && FunctionKey(s, r.value) == key
      && FunctionValue(s, r.value) == value
    ensures Map(Some(s)) == Ok(Filter(Some(key), Some(o), if value == "" then None else Some(value)))
  {
    FromSymbol(o);
    MapFunctionReading(s, FindFunction(s, 0, FunctionAlternatives()).value);
  }

  /** What the search needs to know about `name(key : value)`, for a function
      alternative `name`. */
  lemma FunctionCanonicalLayout(name: string, key: string, value: string, names: seq<string>)
    requires name in names && (forall a :: a in names ==> IsNameText(a))
    requires IsKeyText(key) && IsValueText(value)
    ensures
      var s, q := name + "(" + key + " : " + value + ")", |name| + 1 + |key|;
      FunctionLayout(s, name, q, q + 1, q + 2, q + 3, |s| - 1, names)
  {
    var s := name + "(" + key + " : " + value + ")";
    var q := |name| + 1 + |key|;
    FunctionTextShape(name, key, value);
    OnlyNameAt(s, 0, name, names);
    KeyEndsAt(s, name, q);
    CanonicalRest(s, q);
  }

  /** In `name(key : value)` the function expression matches from the start with the
      name, the key and the value as its groups. */
  lemma FindFunctionCanonical(name: string, key: string, value: string, names: seq<string>)
    requires name in names && (forall a :: a in names ==> IsNameText(a))
    requires IsKeyText(key) && IsValueText(value)
    ensures
      var s := name + "(" + key + " : " + value + ")";
      var q := |name| + 1 + |key|;
      var r := FindFunction(s, 0, names);
      r.Some? && r.value.start == 0 && r.value.name == name && r.value.keyEnd == q
      && r.value.valueStart == q + 3 && r.value.valueEnd == |s| - 1
  {
    var s := name + "(" + key + " : " + value + ")";
    var q := |name| + 1 + |key|;
    FunctionCanonicalLayout(name, key, value, names);
    FindFunctionWhole(s, name, q, q + 1, q + 2, q + 3, |s| - 1, names);
  }

  /** The key and value groups of a match of `name(key : value)` from the start, with
      the key and value boundaries of the whole text, are the key and the value. */
  lemma FunctionCanonicalGroups(name: string, key: string, value: string, m: FunctionMatch)
    requires
      var s := name + "(" + key + " : " + value + ")";
      var q := |name| + 1 + |key|;
      m.start == 0 && m.name == name && m.keyEnd == q && m.valueStart == q + 3 && m.valueEnd == |s| - 1
    ensures
      var s := name + "(" + key + " : " + value + ")";
      FunctionKey(s, m) == key && FunctionValue(s, m) == value
  {
    var s := name + "(" + key + " : " + value + ")";
    FunctionTextSlices(name, key, value);
    MatchGroups(s, m, |name| + 1, |name| + 1 + |key|, key, value);
  }

  /** The groups of a function match, read off from where its key and value lie. */
  lemma MatchGroups(s: string, m: FunctionMatch, a: nat, q: nat, key: string, value: string)
    requires Paren(m) + 1 == a && m.keyEnd == q && a <= q <= |s| && m.valueStart <= m.valueEnd <= |s|
    requires s[a..q] == key && s[m.valueStart..m.valueEnd] == value
    ensures FunctionKey(s, m) == key && FunctionValue(s, m) == value
  {
  }

  /** `name(key : value)` holds no infix match. */
  lemma FunctionTextNoInfix(name: string, key: string, value: string)
    requires IsNameText(name) && IsKeyText(key) && IsValueText(value)
    ensures forall m :: !IsInfixMatch(name + "(" + key + " : " + value + ")", InfixAlternatives(), m)
  {
    FunctionTextGroups(name, key, value);
    NoInfixWithoutOperatorChars(name + "(" + key + " : " + value + ")");
  }

  /** `name(key : value)` is read back as the function constant of that name with the key
      and the value. */
  lemma MapFunctionRoundTrip(key: string, o: Operator, value: string)
    requires IsKeyText(key) && IsFunction(o) && IsValueText(value)
    ensures Map(Some(Symbol(o) + "(" + key + " : " + value + ")"))
      == Ok(Filter(Some(key), Some(o), Some(value)))
  {
    var s := Symbol(o) + "(" + key + " : " + value + ")";
    SymbolIsAlternative(o);
    FunctionAlternativesShape();
    FindFunctionCanonical(Symbol(o), key, value, FunctionAlternatives());
    FunctionCanonicalGroups(Symbol(o), key, value, FindFunction(s, 0, FunctionAlternatives()).value);
    FunctionName(o);
    FunctionTextNoInfix(Symbol(o), key, value);
    MapFunctionGroups(s, o, key, value);
  }

  lemma FunctionName(o: Operator)
    requires IsFunction(o)
    ensures IsNameText(Symbol(o))
  {
    SymbolShape(o);
  }

  /** What the search needs to know about `name(key)`, for a function alternative
      `name`. */
  lemma OneArgumentLayout(name: string, key: string, names: seq<string>)
    requires name in names && (forall a :: a in names ==> IsNameText(a)) && IsKeyText(key)
    ensures
      var s := name + "(" + key + ")";
      var k := |s| - 1;
      FunctionLayout(s, name, k, k, k, k, k, names)
  {
    var s := name + "(" + key + ")";
    OneArgumentTextShape(name, key);
    OnlyNameAt(s, 0, name, names);
    ClosingRest(s, |s| - 1);
  }

  /** In `name(key)` the function expression matches from the start with the name, the
      key, and an empty value group. */
  lemma FindOneArgument(name: string, key: string, names: seq<string>)
    requires name in names && (forall a :: a in names ==> IsNameText(a)) && IsKeyText(key)
    ensures
      var s := name + "(" + key + ")";
      var r := FindFunction(s, 0, names);
      r.Some? && r.value.name == name
      && FunctionKey(s, r.value) == key && FunctionValue(s, r.value) == ""
  {
    var s := name + "(" + key + ")";
    FindOneArgumentMatch(name, key, names);
    OneArgumentSlice(name, key);
    MatchGroups(s, FindFunction(s, 0, names).value, |name| + 1, |s| - 1, key, "");
  }

  /** Where the match of `name(key)` starts and ends. */
  lemma FindOneArgumentMatch(name: string, key: string, names: seq<string>)
    requires name in names && (forall a :: a in names ==> IsNameText(a)) && IsKeyText(key)
    ensures
      var s := name + "(" + key + ")";
      var r := FindFunction(s, 0, names);
      r.Some? && r.value.start == 0 && r.value.name == name && r.value.keyEnd == |s| - 1
      && r.value.valueStart == |s| - 1 && r.value.valueEnd == |s| - 1
  {
    var s := name + "(" + key + ")";
    OneArgumentLayout(name, key, names);
    FindFunctionWhole(s, name, |s| - 1, |s| - 1, |s| - 1, |s| - 1, |s| - 1, names);
  }

  /** Where the key of `name(key)` is. */
  lemma OneArgumentSlice(name: string, key: string)
    ensures var s := name + "(" + key + ")"; s[|name| + 1..|s| - 1] == key
  {
    var s := name + "(" + key + ")";
    assert forall j :: |name| + 1 <= j < |s| - 1 ==> s[j] == key[j - |name| - 1];
  }

  /** `name(key)` is read back as the function constant of that name with the key and
      no value. */
  lemma MapOneArgumentRoundTrip(key: string, o: Operator)
    requires IsKeyText(key) && IsFunction(o)
    ensures Map(Some(Symbol(o) + "(" + key + ")")) == Ok(Filter(Some(key), Some(o), None))
  {
    var s := Symbol(o) + "(" + key + ")";
    SymbolIsAlternative(o);
    FunctionAlternativesShape();
    FindOneArgument(Symbol(o), key, FunctionAlternatives());
    FunctionName(o);
    OneArgumentTextShape(Symbol(o), key);
    NoInfixWithoutOperatorChars(s);
    MapFunctionGroups(s, o, key, "");
  }

  // ---------------------------------------------------------------------------------
  // `toString` and `map` together.

  /** What `toString` prints for a filter with a key of key characters, and a value of
      value characters where there is one (an infix filter always has one), maps back to
      that filter. */
  lemma MapReadsToString(f: Filter)
    requires f.key.Some? && IsKeyText(f.key.value) && f.operator.Some?
    requires f.value.Some? ==> IsValueText(f.value.value)
    requires !IsFunction(f.operator.value) ==> f.value.Some?
    ensures ToString(f).Ok? && Map(Some(ToString(f).value)) == Ok(f)
  {
    if !IsFunction(f.operator.value) {
      ReadsInfixText(f);
    } else if f.value.Some? {
      ReadsFunctionText(f);
    } else {
      ReadsOneArgumentText(f);
    }
  }

  /** The infix case of `MapReadsToString`. */
  lemma ReadsInfixText(f: Filter)
    requires f.key.Some? && IsKeyText(f.key.value) && f.operator.Some? && !IsFunction(f.operator.value)
    requires f.value.Some? && IsValueText(f.value.value)
    ensures ToString(f).Ok? && Map(Some(ToString(f).value)) == Ok(f)
  {
    MapInfixRoundTrip(f.key.value, f.operator.value, f.value.value);
  }

  /** The case of a function filter with a value. */
  lemma ReadsFunctionText(f: Filter)
    requires f.key.Some? && IsKeyText(f.key.value) && f.operator.Some? && IsFunction(f.operator.value)
    requires f.value.Some? && IsValueText(f.value.value)
    ensures ToString(f).Ok? && Map(Some(ToString(f).value)) == Ok(f)
  {
    MapFunctionRoundTrip(f.key.value, f.operator.value, f.value.value);
  }

  /** The case of a function filter without a value. */
  lemma ReadsOneArgumentText(f: Filter)
    requires f.key.Some? && IsKeyText(f.key.value) && f.operator.Some? && IsFunction(f.operator.value)
    requires f.value.None?
    ensures ToString(f).Ok? && Map(Some(ToString(f).value)) == Ok(f)
  {
    MapOneArgumentRoundTrip(f.key.value, f.operator.value);
  }

  /** A text of the mapper's test suite in infix form. */
  lemma MapInfixTestText()
    ensures Map(Some("test_key=test_value")) == Ok(Filter(Some("test_key"), Some(Equals), Some("test_value")))
  {
    TestTexts();
    MapInfixRoundTrip("test_key", Equals, "test_value");
  }

  /** The parts of the test suite's texts. */
  lemma TestTexts()
    ensures IsKeyText("test_key") && IsValueText("test_value")
    ensures "test_key" + Symbol(Equals) + "test_value" == "test_key=test_value"
    ensures Symbol(IsNullFunction) + "(" + "test_key" + ")" == "isNull(test_key)"
  {
  }

  /** A text of the mapper's test suite in function form. */
  lemma MapFunctionTestText()
    ensures Map(Some("isNull(test_key)")) == Ok(Filter(Some("test_key"), Some(IsNullFunction), None))
  {
    TestTexts();
    MapOneArgumentRoundTrip("test_key", IsNullFunction);
  }

  // ---------------------------------------------------------------------------------
  // Rejected texts.

  /** No text without `(` holds a function match. */
  lemma NoFunctionWithoutParen(s: string, names: seq<string>)
    requires forall i :: 0 <= i < |s| ==> s[i] != '('
    ensures forall m :: !IsFunctionMatch(s, names, m)
  {
  }

  /** A text in which neither expression occurs is rejected. */
  lemma MapRejectsNeither(s: string)
    requires forall m :: !IsInfixMatch(s, InfixAlternatives(), m)
    requires forall m :: !IsFunctionMatch(s, FunctionAlternatives(), m)
    ensures Map(Some(s)) == Err(WrongFormat(Some(s)))
  {
    MapRejectsExactly(Some(s));
  }

  /** Square brackets are not the function form. */
  lemma MapRejectsBrackets()
    ensures Map(Some("isNull[test_key]")) == Err(WrongFormat(Some("isNull[test_key]")))
  {
    BracketTextPlain();
    MapRejectsPlainText("isNull[test_key]");
  }

  lemma BracketTextPlain()
    ensures PlainText("isNull[test_key]")
  {
  }

  /** `??` is not an operator. */
  lemma MapRejectsUnknownOperator()
    ensures Map(Some("test_ke??test_value")) == Err(WrongFormat(Some("test_ke??test_value")))
  {
    UnknownOperatorTextPlain();
    MapRejectsPlainText("test_ke??test_value");
  }

  lemma UnknownOperatorTextPlain()
    ensures PlainText("test_ke??test_value")
  {
  }

  /** Neither an operator character nor a `(`. */
  predicate PlainText(s: string) {
    forall i :: 0 <= i < |s| ==> !IsOperatorChar(s[i]) && s[i] != '('
  }

  /** A text with neither operator characters nor `(` is rejected. */
  lemma MapRejectsPlainText(s: string)
    requires PlainText(s)
    ensures Map(Some(s)) == Err(WrongFormat(Some(s)))
  {
    NoInfixWithoutOperatorChars(s);
    NoFunctionWithoutParen(s, FunctionAlternatives());
    MapRejectsNeither(s);
  }

  /** In `equals(test_key ,_: test_value)` the `_` after the separator is neither a space
      nor part of the value run that reaches the `)`, so the function expression does not
      occur. */
  lemma MapRejectsStraySeparator()
    ensures Map(Some("equals(test_key ,_: test_value)"))
      == Err(WrongFormat(Some("equals(test_key ,_: test_value)")))
  {
    StrayTextNoOperatorChars();
    StraySeparatorNoFunction("equals(test_key ,_: test_value)");
    MapRejectsNoOperatorChars("equals(test_key ,_: test_value)");
  }

  lemma StrayTextNoOperatorChars()
    ensures var s := "equals(test_key ,_: test_value)"; forall i :: 0 <= i < |s| ==> !IsOperatorChar(s[i])
  {
  }

  /** A text without operator characters in which the function expression does not
      occur is rejected. */
  lemma MapRejectsNoOperatorChars(s: string)
    requires forall i :: 0 <= i < |s| ==> !IsOperatorChar(s[i])
    requires forall m :: !IsNamedMatch(s, m)
    ensures Map(Some(s)) == Err(WrongFormat(Some(s)))
  {
    NoInfixWithoutOperatorChars(s);
    MapRejectsNeither(s);
  }

  lemma StraySeparatorNoFunction(s: string)
    requires s == "equals(test_key ,_: test_value)"
    ensures forall m :: !IsNamedMatch(s, m)
  {
    forall m ensures !IsNamedMatch(s, m) {
      StraySeparatorNoMatch(s, m);
    }
  }

  lemma StraySeparatorNoMatch(s: string, m: FunctionMatch)
    requires s == "equals(test_key ,_: test_value)"
    ensures !IsNamedMatch(s, m)
  {
    StrayParens(s);
    assert NameAt(s, m.name, m.start) ==> Paren(m) == 6;
    StrayRuns(s);
  }

  /** Where the brackets of that text are. */
  lemma StrayParens(s: string)
    requires s == "equals(test_key ,_: test_value)"
    ensures forall i :: 0 <= i < |s| && s[i] == '(' ==> i == 6
    ensures forall i :: 0 <= i < |s| && s[i] == ')' ==> i == 30
  {
  }

  /** How far the key run, the spaces and separator, and the value run reach in it. */
  lemma StrayRuns(s: string)
    requires s == "equals(test_key ,_: test_value)"
    ensures forall k: nat :: 7 <= k <= |s| && AllIn(s, 7, k, KeyChars) ==> k <= 15
    ensures forall v: nat, e: nat :: IsTail(s, v, e) ==> v >= 20
    ensures forall k: nat, a: nat, b0: nat, v: nat :: k <= 15 && IsMiddle(s, k, a, b0, v) ==> v <= 17
  {
    forall k: nat | 7 <= k <= |s| && AllIn(s, 7, k, KeyChars) ensures k <= 15 {
      assert k > 15 ==> InClass(s[15], KeyChars);
    }
    forall v: nat, e: nat | IsTail(s, v, e) ensures v >= 20 {
      assert v <= 19 ==> InClass(s[19], ValueChars);
    }
    forall k: nat, a: nat, b0: nat, v: nat | k <= 15 && IsMiddle(s, k, a, b0, v) ensures v <= 17 {
      assert a > 16 ==> InClass(s[16], Spaces);
      assert v > 17 ==> InClass(s[17], Spaces);
    }
  }
}
