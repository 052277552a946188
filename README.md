# querydsl-filters in Dafny

A model of the core of the squdan querydsl-filters library. The library turns filter text
such as `price<=5.5` or `contains(username : test)` into QueryDSL predicates.

It has three connected parts:

- **Operator catalog and filter value.**
  - `QueryDslOperators` holds 23 operators, each a symbol and a function flag.
  - `QueryDslFilter` is a `(key, operator, value)` triple with `from` and `toString`.
- **Text mapper (`QueryDslFiltersMapper`).**
  - Two regular expressions are built from the catalog in a static block.
  - `map` reads a filter text with the infix expression first and the function expression second.
  - It uses `Matcher.find`, so it takes the leftmost match.
- **Predicate compilation.**
  - Dotted keys are resolved against the entity classes (the `getTypeFrom` walks).
  - A key that passes through a collection is cut at the first textual occurrence of the collection's name and a dot, and the part after it is compiled again, on the element class, below `any()`. The model also has the evidently intended cut at the collection field itself; see "## Findings".
  - Every other key goes through a fixed chain of type managers: custom, date, number, UUID, and string for the rest.
  - The builder and-s the predicates onto `TRUE`.

The older `es.squdan` builder dispatches on the value text, not on the declared type. It is modelled in its own module, `Legacy`, together with the value-based date and UUID managers.

## Modules

Every module sits in its own file.

| Module | What it holds |
|---|---|
| `Wrappers` | `Option` and the result type |
| `Errors` | the exceptions, as error values |
| `Text` | blank tests, `split`, `indexOf`, lower-casing |
| `Operators` | the catalog |
| `Types` | Java classes and the field table that stands in for reflection |
| `Filters` | the filter value |
| `Mapper` | the regular expressions as a backtracking scanner; `map`; the batch; the static block |
| `MapperProperties` | round trips and the test texts |
| `Platform` | library values and calls |
| `DateTimes` | `DateTimeUtils` |
| `Predicates` | QueryDSL expressions and their truth in a row |
| `Paths` | key resolution and the collection split |
| `Handlers` | the type managers |
| `Roles` | the test suite's custom manager |
| `Factory` | `QueryDslPredicateFactory` |
| `Builder` | `QueryDslPredicateBuilder` |
| `Legacy` | the `es` builder and managers |

**Java nulls.**
- Every nullable reference is an `Option`.
- A thrown exception is an `Err` value.
- A `null` result is `None`.

**State.** Objects whose fields the code updates are classes:
- the builders;
- the factory, with its lazily created collection manager and its custom manager slot;
- `DateTimeUtils`, with its formatter list.

**Loops.** Each loop of the source is a method with loop invariants, proved against the function that specifies it:
- the static block of the mapper;
- `map(List)`;
- `toLocalDateTime`;
- the two `build` streams and their fold.

Where the `io` sources for the filter value, the operator catalog, the type-manager base, the string manager and the collection manager are not part of this model, the `es` versions of those files stand in for them. The paths below say which file each row follows.

## Model

| member | source | states |
|---|---|---|
| Operators.From | src/main/java/es/squdan/querydsl/filters/QueryDslOperators.java:52-54 | A result has exactly the looked-up symbol. |
| Operators.FindFirst | src/main/java/es/squdan/querydsl/filters/QueryDslOperators.java:53 | The first match in `values()` order is a member of the list with that symbol. The result is none iff no listed symbol equals the text. |
| Operators.FromNoneIffUnknown | src/main/java/es/squdan/querydsl/filters/QueryDslOperators.java:52-54 | `from` is empty exactly when no constant has that symbol. |
| Operators.FromSymbol | src/main/java/es/squdan/querydsl/filters/QueryDslOperators.java:25-41 | Looking up the symbol of any constant gives back that constant. |
| Operators.SymbolsDistinct | src/main/java/es/squdan/querydsl/filters/QueryDslOperators.java:25-41 | Two constants with the same symbol are the same constant. |
| Operators.SymbolDetermines | src/main/java/es/squdan/querydsl/filters/QueryDslOperators.java:25-41 | Comparing a symbol with each of the 23 in turn recovers its constant. |
| Operators.Ordinal | src/main/java/es/squdan/querydsl/filters/QueryDslOperators.java:25-41 | `ordinal()` indexes the constant in declaration order. |
| Operators.AllOperatorsComplete | src/main/java/es/squdan/querydsl/filters/QueryDslOperators.java:25-41 | `values()` lists every constant. |
| Operators.FromRejectsUpperCaseStart | src/main/java/es/squdan/querydsl/filters/QueryDslOperators.java:53 | Lookup is exact and case-sensitive: a text starting with an upper-case letter names no operator. |
| Operators.NoSymbolStartsUpperCase | src/main/java/es/squdan/querydsl/filters/QueryDslOperators.java:25-41 | No symbol is empty or starts with an upper-case letter. |
| Operators.SymbolShape | src/main/java/es/squdan/querydsl/filters/QueryDslOperators.java:25-41 | An infix symbol is one or two of `= ! < >`. A function symbol is non-empty ASCII letters. |
| Operators.SymbolsOfFormStep | src/main/java/io/github/squdan/querydsl/filters/QueryDslFiltersMapper.java:49-76 | One more constant adds its symbol to the list of its own form, and to no other list. |
| Operators.SymbolsOfFormMembers | src/main/java/io/github/squdan/querydsl/filters/QueryDslFiltersMapper.java:49-76 | The list of a form holds exactly the non-empty symbols of the constants of that form. |
| Filters.OneArgumentFilter | src/main/java/es/squdan/querydsl/filters/QueryDslFilter.java:47-51 | The two-argument constructor keeps the key and the operator, and leaves the value null. |
| Filters.From | src/main/java/es/squdan/querydsl/filters/QueryDslFilter.java:77-93 | It fails with the invalid-filter error iff the key or the operator text is blank. It gives no filter iff the operator text is not in the catalog. Otherwise the filter has that key, that value and the operator of that symbol. |
| Filters.FromNoneIffUnknownSymbol | src/main/java/es/squdan/querydsl/filters/QueryDslFilter.java:81-85 | With a key and an operator text present, there is no filter exactly when no constant has that symbol. |
| Filters.FromWithoutValue | src/main/java/es/squdan/querydsl/filters/QueryDslFilter.java:63-65 | `from(key, op)` is `from(key, op, null)`, and its filter has no value. |
| Filters.FromAnyArity | src/main/java/es/squdan/querydsl/filters/QueryDslFilter.java:77-93 | There is no arity check: the symbol of any operator, with any value or none, gives the filter with exactly those parts. |
| Filters.ToString | src/main/java/es/squdan/querydsl/filters/QueryDslFilter.java:96-122 | A missing operator, and a function operator without a key, are the only errors. A function operator prints as `name(key : value)`, or as `name(key)` when the value is null. An infix filter prints key, symbol and value with no separator, a null part printing as `null`. |
| Mapper.RunEnd | src/main/java/io/github/squdan/querydsl/filters/QueryDslFiltersMapper.java:28-30 | A greedy repetition of a character class ends at a character outside the class, or at the end of the text. |
| Mapper.RunEndIsLongest | src/main/java/io/github/squdan/querydsl/filters/QueryDslFiltersMapper.java:35 | No run of the class is longer than the greedy one. |
| Mapper.SplitJoin | src/main/java/io/github/squdan/querydsl/filters/QueryDslFiltersMapper.java:54-58 | Bar-free parts appended with a bar between them read back as exactly those parts. |
| Mapper.AppendAlternative | src/main/java/io/github/squdan/querydsl/filters/QueryDslFiltersMapper.java:54-58 | Appending a bar only to a non-empty builder, and then the symbol, extends the alternation by one part. |
| Mapper.CollectOne | src/main/java/io/github/squdan/querydsl/filters/QueryDslFiltersMapper.java:50-75 | One constant updates only the builder of its form: one-character infix, two-character infix, or function. |
| Mapper.CollectAlternations | src/main/java/io/github/squdan/querydsl/filters/QueryDslFiltersMapper.java:49-76 | After the loop over a list of constants, each builder holds the bar-joined symbols of that form, in order. |
| Mapper.BuildAlternations | src/main/java/io/github/squdan/querydsl/filters/QueryDslFiltersMapper.java:44-80 | The static block builds the three alternations from `values()`. |
| Mapper.InfixAlternationText | src/main/java/io/github/squdan/querydsl/filters/QueryDslFiltersMapper.java:79 | The infix operator group reads as the two-character symbols first, then the one-character ones. |
| Mapper.FunctionAlternationText | src/main/java/io/github/squdan/querydsl/filters/QueryDslFiltersMapper.java:80 | The name group of the function expression reads as the function names in catalog order. |
| Mapper.SymbolIsAlternative | src/main/java/io/github/squdan/querydsl/filters/QueryDslFiltersMapper.java:49-80 | The symbol of every constant is an alternative of the expression of its form. |
| Mapper.InfixAlternativeKnown | src/main/java/io/github/squdan/querydsl/filters/QueryDslFiltersMapper.java:140 | Every infix alternative names an infix constant, so the operator group always makes a filter. |
| Mapper.FunctionAlternativeKnown | src/main/java/io/github/squdan/querydsl/filters/QueryDslFiltersMapper.java:155-157 | Every function alternative names a function constant. |
| Mapper.InfixOperatorAt | src/main/java/io/github/squdan/querydsl/filters/QueryDslFiltersMapper.java:35 | At a key end, the operator group takes the first alternative present that is followed by a value character. It finds none exactly when no alternative fits. |
| Mapper.InfixKeyEnds | src/main/java/io/github/squdan/querydsl/filters/QueryDslFiltersMapper.java:35 | As the key group gives back characters, the longest key with a match is found, and every match with a shorter key comes later. |
| Mapper.InfixAt | src/main/java/io/github/squdan/querydsl/filters/QueryDslFiltersMapper.java:35 | The infix expression at one start: a result is a match, and some result exists whenever any match starts there. |
| Mapper.FindInfix | src/main/java/io/github/squdan/querydsl/filters/QueryDslFiltersMapper.java:137-139 | `find` for the infix expression is sound and complete. It returns a match with the leftmost start and, there, the longest key. |
| Mapper.ValueEnds | src/main/java/io/github/squdan/querydsl/filters/QueryDslFiltersMapper.java:38 | `(V*)\)` as the value group gives back characters: a result is a closing bracket after value characters, found whenever one exists. |
| Mapper.TailAt | src/main/java/io/github/squdan/querydsl/filters/QueryDslFiltersMapper.java:38 | The value-then-`)` tail from a position is found exactly when one exists. |
| Mapper.SecondSpaces | src/main/java/io/github/squdan/querydsl/filters/QueryDslFiltersMapper.java:38 | The second ` *` gives back spaces until the tail fits, and finds a way whenever one exists. |
| Mapper.SeparatorThen | src/main/java/io/github/squdan/querydsl/filters/QueryDslFiltersMapper.java:38 | The optional separator is tried present first and then absent, and the rest is found whenever there is a way through. |
| Mapper.FirstSpaces | src/main/java/io/github/squdan/querydsl/filters/QueryDslFiltersMapper.java:38 | The first ` *` gives back spaces, and the middle and tail are found whenever they exist. |
| Mapper.AfterKey | src/main/java/io/github/squdan/querydsl/filters/QueryDslFiltersMapper.java:38 | Everything after the key is found whenever a way through exists. |
| Mapper.FunctionKeyEnds | src/main/java/io/github/squdan/querydsl/filters/QueryDslFiltersMapper.java:38 | The key group of a function gives back characters, and finds the longest key with a match. |
| Mapper.NamedAt | src/main/java/io/github/squdan/querydsl/filters/QueryDslFiltersMapper.java:38 | The function expression with one name at one start is found exactly when it matches there, with the longest key. |
| Mapper.FunctionAt | src/main/java/io/github/squdan/querydsl/filters/QueryDslFiltersMapper.java:38 | The names are tried in order at one start. The result is a match there, and one exists whenever any match starts there. |
| Mapper.FindFunction | src/main/java/io/github/squdan/querydsl/filters/QueryDslFiltersMapper.java:151-153 | `find` for the function expression is sound and complete, with the leftmost start. |
| Mapper.KeyRunNotBlank | src/main/java/io/github/squdan/querydsl/filters/QueryDslFiltersMapper.java:28 | A non-empty run of key characters is never blank. |
| Mapper.ValueRunNotBlank | src/main/java/io/github/squdan/querydsl/filters/QueryDslFiltersMapper.java:29 | A non-empty run of value characters is never blank. |
| Mapper.ProcessAsOperator | src/main/java/io/github/squdan/querydsl/filters/QueryDslFiltersMapper.java:133-145 | It never throws. It gives no filter iff the text is blank or has no infix match. Otherwise the filter holds the key, operator and value groups of the leftmost match. |
| Mapper.ProcessAsFunction | src/main/java/io/github/squdan/querydsl/filters/QueryDslFiltersMapper.java:147-163 | It never throws. It gives no filter iff the text is blank or has no function match. Otherwise the filter holds the leftmost match's key and name, and its value when the value group is not blank. |
| Mapper.OperatorReadingFound | src/main/java/io/github/squdan/querydsl/filters/QueryDslFiltersMapper.java:136-141 | A text whose leftmost infix match is `m` reads as the filter of the groups of `m`. |
| Mapper.OperatorReadingAbsent | src/main/java/io/github/squdan/querydsl/filters/QueryDslFiltersMapper.java:139 | Without an infix match, the infix reading gives nothing. |
| Mapper.FunctionReadingFound | src/main/java/io/github/squdan/querydsl/filters/QueryDslFiltersMapper.java:150-159 | A text whose leftmost function match is `m` reads as the filter of the groups of `m`. |
| Mapper.FunctionGroupsMakeFilter | src/main/java/io/github/squdan/querydsl/filters/QueryDslFiltersMapper.java:154-158 | The groups of a function match always make a filter. The value group is blank only when it is empty, which gives the one-argument `from`. |
| Mapper.Map | src/main/java/io/github/squdan/querydsl/filters/QueryDslFiltersMapper.java:95-109 | Its only error is the wrong-format error naming the input. |
| Mapper.MapRejectsExactly | src/main/java/io/github/squdan/querydsl/filters/QueryDslFiltersMapper.java:95-109 | A text is rejected iff it is blank or neither expression occurs in it. |
| Mapper.MapPrefersInfix | src/main/java/io/github/squdan/querydsl/filters/QueryDslFiltersMapper.java:96-101 | When the infix expression occurs, its reading is the result. When it does not, the function reading is. |
| Mapper.MapEachMeaning | src/main/java/io/github/squdan/querydsl/filters/QueryDslFiltersMapper.java:125-127 | A batch succeeds iff every element maps, and then it holds each element's filter in order. Otherwise it fails with the error of the first element that fails. |
| Mapper.MapEachAllMapped | src/main/java/io/github/squdan/querydsl/filters/QueryDslFiltersMapper.java:125-127 | When every element maps, the batch is exactly their filters in order. |
| Mapper.MapEachFirstError | src/main/java/io/github/squdan/querydsl/filters/QueryDslFiltersMapper.java:125-127 | When the elements before `i` map and element `i` does not, the batch fails with element `i`'s error. |
| Mapper.MapBatchError | src/main/java/io/github/squdan/querydsl/filters/QueryDslFiltersMapper.java:105 | A rejected batch names one of its own elements in its wrong-format error. |
| Mapper.MapInOrder | src/main/java/io/github/squdan/querydsl/filters/QueryDslFiltersMapper.java:123-128 | The loop maps the elements in order and stops at the first failure. |
| Mapper.MapAll | src/main/java/io/github/squdan/querydsl/filters/QueryDslFiltersMapper.java:119-131 | A null or empty batch gives null. Otherwise the result is the batch mapped element by element. |
| MapperProperties.FindInfixCanonical | src/main/java/io/github/squdan/querydsl/filters/QueryDslFiltersMapper.java:35 | In `key + op + value`, with a key of key characters and a value of value characters, the leftmost match is the whole text, with the key, `op` and the value as its groups. |
| MapperProperties.MapInfixReading | src/main/java/io/github/squdan/querydsl/filters/QueryDslFiltersMapper.java:95-101 | A text whose leftmost infix match is `m` maps to the filter of `m`'s groups. |
| MapperProperties.MapInfixRoundTrip | src/main/java/es/squdan/querydsl/filters/QueryDslFilter.java:113 | `key + symbol + value` maps back to exactly that key, infix operator and value. |
| MapperProperties.NoInfixWithoutOperatorChars | src/main/java/io/github/squdan/querydsl/filters/QueryDslFiltersMapper.java:35 | A text without `= ! < >` holds no infix match. |
| MapperProperties.FindFunctionCanonical | src/main/java/io/github/squdan/querydsl/filters/QueryDslFiltersMapper.java:38 | In `name(key : value)` the function expression matches from the start with that name, key and value. |
| MapperProperties.FunctionTextNoInfix | src/main/java/io/github/squdan/querydsl/filters/QueryDslFiltersMapper.java:96-101 | `name(key : value)` holds no infix match, so it reaches the function reading. |
| MapperProperties.MapFunctionReading | src/main/java/io/github/squdan/querydsl/filters/QueryDslFiltersMapper.java:95-101 | A text without an infix match whose leftmost function match is `m` maps to the filter of `m`'s groups. |
| MapperProperties.MapFunctionRoundTrip | src/main/java/es/squdan/querydsl/filters/QueryDslFilter.java:101-102 | `name(key : value)` maps back to that function constant, key and value. |
| MapperProperties.MapOneArgumentRoundTrip | src/main/java/es/squdan/querydsl/filters/QueryDslFilter.java:103-104 | `name(key)` maps back to that function constant and key, with no value. |
| MapperProperties.MapReadsToString | src/test/java/es/squdan/querydsl/filters/QueryDslFiltersMapperIT.java:53-60 | For every filter with a catalog operator, a key of key characters, and a value of value characters or none where the form allows it, `toString` succeeds and `map` reads its text back as the same filter. |
| MapperProperties.MapInfixTestText | src/test/java/es/squdan/querydsl/filters/QueryDslFiltersMapperIT.java:27 | `test_key=test_value` maps to the equals filter of the test suite. |
| MapperProperties.MapFunctionTestText | src/test/java/es/squdan/querydsl/filters/QueryDslFiltersMapperIT.java:25 | `isNull(test_key)` maps to the one-argument `isNull` filter. |
| MapperProperties.MapRejectsNeither | src/main/java/io/github/squdan/querydsl/filters/QueryDslFiltersMapper.java:103-106 | A text in which neither expression occurs is rejected with the wrong-format error. |
| MapperProperties.MapRejectsPlainText | src/main/java/io/github/squdan/querydsl/filters/QueryDslFiltersMapper.java:103-106 | A text with neither operator characters nor `(` is rejected. |
| MapperProperties.MapRejectsNoOperatorChars | src/main/java/io/github/squdan/querydsl/filters/QueryDslFiltersMapper.java:103-106 | A text without operator characters in which the function expression does not occur is rejected. |
| MapperProperties.MapRejectsBrackets | src/test/java/es/squdan/querydsl/filters/QueryDslFiltersMapperIT.java:96 | `isNull[test_key]` is rejected. |
| MapperProperties.MapRejectsUnknownOperator | src/test/java/es/squdan/querydsl/filters/QueryDslFiltersMapperIT.java:97 | `test_ke??test_value` is rejected. |
| MapperProperties.MapRejectsStraySeparator | src/test/java/es/squdan/querydsl/filters/QueryDslFiltersMapperIT.java:98 | `equals(test_key ,_: test_value)` is rejected. |
| Text.ValueOf | src/main/java/es/squdan/querydsl/filters/repository/type/QueryDslStringTypeManager.java:24 | `String.valueOf` prints null as `null` and a text as itself. |
| Text.IsBlank | src/main/java/es/squdan/querydsl/filters/QueryDslFilter.java:80 | `isNotBlank` holds exactly for a present text with a character that `Character.isWhitespace` refuses, Unicode separators included. |
| Text.SplitFirst | src/main/java/es/squdan/querydsl/filters/repository/type/QueryDslTypeManager.java:52 | The head holds no separator. A missing separator leaves the whole text. Otherwise head, separator and rest rebuild the text. |
| Text.IndexOfFrom | src/main/java/es/squdan/querydsl/filters/repository/type/QueryDslCollectionTypeManager.java:87 | The first occurrence at or after a position: it occurs there and nowhere before; none means no occurrence at all. |
| Text.LowerText | src/main/java/io/github/squdan/querydsl/filters/repository/QueryDslPredicateFactory.java:114-123 | Lower-casing keeps the length, turns each ASCII capital into its small letter and leaves every other character as it is. |
| Paths.TypeOf | src/main/java/es/squdan/querydsl/filters/repository/type/QueryDslTypeManager.java:48-67 | The declared class of the last field of the path. Every error is the type-search failure. |
| Paths.ElementTypeAlong | src/main/java/es/squdan/querydsl/filters/repository/type/QueryDslCollectionTypeManager.java:101-143 | The same walk with each collection field replaced by its element class. Every error is the type-search failure. |
| Paths.WalksAgreeWithoutCollections | src/main/java/es/squdan/querydsl/filters/repository/type/QueryDslCollectionTypeManager.java:101-121 | On a path with no collection field, both walks give the same result. |
| Paths.CollectionFieldName | src/main/java/es/squdan/querydsl/filters/repository/type/QueryDslCollectionTypeManager.java:59-81 | The first collection field along the path, a single segment. Every error is the collection-check failure. |
| Paths.PathHasCollection | src/main/java/es/squdan/querydsl/filters/repository/type/QueryDslCollectionTypeManager.java:55-57 | True iff the walk names a non-blank collection field. It fails exactly when the walk fails. |
| Paths.SplitAtNameAsWritten | src/main/java/es/squdan/querydsl/filters/repository/type/QueryDslCollectionTypeManager.java:83-99 | The split at the first `name.` of the key. It fails iff no `name.` occurs, and otherwise the two halves joined by a dot are the key. |
| Paths.TextualSplitAt | src/main/java/es/squdan/querydsl/filters/repository/type/QueryDslCollectionTypeManager.java:87-91 | With the first `name.` at `i`, the split gives the text up to and including the name, and the text after the dot. |
| Paths.SplitAtCollection | src/main/java/es/squdan/querydsl/filters/repository/type/QueryDslCollectionTypeManager.java:83-99 | The split at the collection segment itself: the two halves joined by a dot are the key. |
| Paths.SplitAtCollectionFindsTheField | src/main/java/es/squdan/querydsl/filters/repository/type/QueryDslCollectionTypeManager.java:83-99 | A successful split's collection path ends in the collection field's own segment, and it resolves along the walk. |
| Paths.SplitAtCollectionFailsAtTheEnd | src/main/java/es/squdan/querydsl/filters/repository/type/QueryDslCollectionTypeManager.java:92-96 | The split fails only when the collection field is the key's last segment, and then with the not-found error. |
| Paths.SplitAtCollectionNeedsTheText | src/main/java/es/squdan/querydsl/filters/repository/type/QueryDslCollectionTypeManager.java:86-96 | Where no `name.` occurs in the key, the segment split fails too. |
| Paths.PlainFieldStep | src/main/java/es/squdan/querydsl/filters/repository/type/QueryDslCollectionTypeManager.java:63-73 | A plain field with more path continues both the walk and the split in the field's class. |
| Paths.CollectionFieldStep | src/main/java/es/squdan/querydsl/filters/repository/type/QueryDslCollectionTypeManager.java:63-66 | A collection field with more path is found, and the split is at it. |
| Paths.NestedCollectionSplit | src/main/java/es/squdan/querydsl/filters/repository/type/QueryDslCollectionTypeManager.java:59-99 | In `myaccounts.accounts.amount`, with `myaccounts` a plain field, the collection is `accounts` and the split is `myaccounts.accounts` / `amount`. |
| Paths.TextualSplitMisplacesCollection | src/main/java/es/squdan/querydsl/filters/repository/type/QueryDslCollectionTypeManager.java:87 | The textual split of that key gives `myaccounts` / `accounts.amount`, naming a plain field as the collection. |
| Predicates.ConjunctionHolds | src/main/java/io/github/squdan/querydsl/filters/repository/QueryDslPredicateBuilder.java:116-120 | The fold onto `TRUE` holds exactly when every predicate in it holds. |
| Predicates.ConjunctionAppend | src/main/java/io/github/squdan/querydsl/filters/repository/QueryDslPredicateBuilder.java:117-119 | One more predicate adds one `and` on the right. |
| Handlers.PredicateFor | src/main/java/io/github/squdan/querydsl/filters/repository/type/QueryDslNumberTypeManager.java:42-74 | The comparison for an operator's meaning is a single-field comparison on the given path and key. |
| Handlers.PredicateForIsIntended | src/main/java/io/github/squdan/querydsl/filters/repository/type/QueryDslDateTypeManager.java:74-106 | Under a strict total order, every handler predicate holds in exactly the rows its operator's meaning selects, `<=` and `lte` included. |
| Handlers.TextFacts | src/main/java/es/squdan/querydsl/filters/repository/type/QueryDslStringTypeManager.java:44-56 | The ignore-case starts, ends and contains comparisons hold exactly when the lower-cased field has the lower-cased value as prefix, suffix or infix. |
| Handlers.Switch | src/main/java/io/github/squdan/querydsl/filters/repository/type/QueryDslNumberTypeManager.java:42-79 | A null operator is a null-pointer failure. Otherwise the handler succeeds iff the operator's meaning is one it supports, and fails with the not-supported error naming the operator and type. |
| Handlers.AliasesAgree | src/main/java/io/github/squdan/querydsl/filters/repository/type/QueryDslDateTypeManager.java:74-106 | Two operators of one meaning give the same predicate, or are rejected together. |
| Handlers.DateSupports | src/main/java/io/github/squdan/querydsl/filters/repository/type/QueryDslDateTypeManager.java:24-27 | True iff the key's declared class is a temporal or `java.util.Date` class. Resolution errors propagate. |
| Handlers.DateValue | src/main/java/io/github/squdan/querydsl/filters/repository/type/QueryDslDateTypeManager.java:33-55 | `Instant` and `LocalDateTime` fields read the value with `toInstantUtc`, and `LocalDate` fields with `toLocalDate`. |
| Handlers.DateManage | src/main/java/io/github/squdan/querydsl/filters/repository/type/QueryDslDateTypeManager.java:29-114 | The value is parsed before the operator is examined, so a null or unreadable value fails even for `isNull`. Other date classes fail. The eight order comparisons are built, `lte` as `loe`. |
| Handlers.NumberSupports | src/main/java/io/github/squdan/querydsl/filters/repository/type/QueryDslNumberTypeManager.java:16-18 | True iff the declared class is a `Number`. |
| Handlers.NumberManage | src/main/java/io/github/squdan/querydsl/filters/repository/type/QueryDslNumberTypeManager.java:20-82 | The value is read with `Double.parseDouble` first. A null value, or one that does not parse, fails. Then come the order comparisons. |
| Handlers.UuidSupports | src/main/java/io/github/squdan/querydsl/filters/repository/type/QueryDslUuidTypeManager.java:18-20 | True iff the declared class is `UUID`. |
| Handlers.UuidManage | src/main/java/io/github/squdan/querydsl/filters/repository/type/QueryDslUuidTypeManager.java:22-68 | The value is printed with `String.valueOf` and parsed as a UUID. A null value fails as the text `null`. Then come the null and equality checks. |
| Handlers.ParseBoolean | src/main/java/io/github/squdan/querydsl/filters/repository/type/QueryDslBooleanTypeManager.java:31 | `true` in any letter case, and nothing else, reads as true. |
| Handlers.BooleanSupports | src/main/java/io/github/squdan/querydsl/filters/repository/type/QueryDslBooleanTypeManager.java:16-19 | True iff the declared class is `Boolean` or `boolean`. |
| Handlers.BooleanManage | src/main/java/io/github/squdan/querydsl/filters/repository/type/QueryDslBooleanTypeManager.java:21-67 | A null value fails. Every other text is read by `parseBoolean`, so the switch gets a boolean constant. |
| Handlers.StringManage | src/main/java/es/squdan/querydsl/filters/repository/type/QueryDslStringTypeManager.java:17-63 | The value is `String.valueOf`. The null, equality and ignore-case text comparisons are built. An order operator gives no predicate and no error. |
| Roles.RoleOf | src/test/java/es/squdan/querydsl/filters/repository/QueryDslRolesTypeManager.java:39 | `Roles.valueOf` succeeds iff the text is `ADMIN` or `USER`, and otherwise fails unchecked. |
| Roles.RolesSupports | src/test/java/es/squdan/querydsl/filters/repository/QueryDslRolesTypeManager.java:15-17 | True iff the declared class is `Roles`. |
| Roles.RolesManage | src/test/java/es/squdan/querydsl/filters/repository/QueryDslRolesTypeManager.java:19-66 | A field of another class gives no predicate. A `Roles` field gets the null and equality checks against the named constant. |
| Roles.RolesManager | src/test/java/es/squdan/querydsl/filters/repository/QueryDslRolesTypeManager.java:15-30 | The manager as the factory sees it has exactly those two operations. |
| Roles.RolesFieldsGoToTheManager | src/main/java/io/github/squdan/querydsl/filters/repository/QueryDslPredicateFactory.java:81-83 | Registered as the custom manager, it compiles every collection-free `Roles` key. |
| Factory.Compile | src/main/java/io/github/squdan/querydsl/filters/repository/QueryDslPredicateFactory.java:69-106 | A null key fails. A failing collection check propagates its error. Collection keys descend after the context's split, and the rest go to the chain: custom, date, number, UUID, string. |
| Factory.SplitKey | src/main/java/es/squdan/querydsl/filters/repository/type/QueryDslCollectionTypeManager.java:83-99 | As written, the key is cut at the first `name.` of the collection name the walk finds, and a failing walk propagates its error. The segment split is the corrected alternative. Either way the two parts rebuild the key and the inner part is shorter. |
| Factory.CompileBuiltIn | src/main/java/io/github/squdan/querydsl/filters/repository/QueryDslPredicateFactory.java:86-103 | Any predicate the built-in chain builds is the comparison for the filter operator's meaning. |
| Factory.CollectionKeyDescends | src/main/java/es/squdan/querydsl/filters/repository/type/QueryDslCollectionTypeManager.java:28-50 | A collection key is compiled as the part after the split, on the element class of the part before it, below `any()` of that part. It uses the program's textual split under `AsWritten`. Only the key changes, and it gets shorter. |
| Factory.CollectionKeyWithoutSplit | src/main/java/es/squdan/querydsl/filters/repository/type/QueryDslCollectionTypeManager.java:92-97 | A collection key that the split cannot cut fails with the split's error. |
| Factory.CustomManagerComesFirst | src/main/java/io/github/squdan/querydsl/filters/repository/QueryDslPredicateFactory.java:76-83 | A custom manager that claims a collection-free key decides the result. |
| Factory.CompileWithoutCollection | src/main/java/io/github/squdan/querydsl/filters/repository/QueryDslPredicateFactory.java:76-103 | With no collection and no custom manager, the built-in chain decides. |
| Factory.BooleanFieldsGoToTheStringManager | src/main/java/io/github/squdan/querydsl/filters/repository/QueryDslPredicateFactory.java:86-103 | No boolean manager is registered, so a `Boolean` field is compiled by the string manager. |
| Factory.CompiledPredicateHasFilterMeaning | src/main/java/io/github/squdan/querydsl/filters/repository/QueryDslPredicateFactory.java:69-106 | Without a custom manager, every predicate built is the comparison for the filter operator's meaning, on some path. |
| Factory.AccountsAmountCompiles | src/main/java/es/squdan/querydsl/filters/repository/type/QueryDslCollectionTypeManager.java:43-50 | On a class with a `List<BankAccount> accounts`, `accounts.amount>100` compiles under either split to `amount > 100` on any element of `accounts`. |
| Factory.NestedKeyCompiledAsWritten | src/main/java/es/squdan/querydsl/filters/repository/type/QueryDslCollectionTypeManager.java:86-91 | As written, `myaccounts.accounts.amount>100` takes `any()` of the plain field `user.myaccounts`, which is no collection, and then of its `accounts`. |
| Factory.NestedKeyCompiledCorrected | src/main/java/es/squdan/querydsl/filters/repository/type/QueryDslCollectionTypeManager.java:86-91 | Split at the collection segment, the same filter takes `any()` of the collection `user.myaccounts.accounts`, whose elements are `BankAccount`s. |
| Factory.EntityName | src/main/java/io/github/squdan/querydsl/filters/repository/QueryDslPredicateFactory.java:114-123 | The simple class name with its first character lower-cased, for an ASCII capital. An empty name fails on that character. |
| Factory.PredicateFactory.constructor | src/main/java/io/github/squdan/querydsl/filters/repository/QueryDslPredicateFactory.java:27-34 | No collection manager yet, and no custom manager. |
| Factory.PredicateFactory.AddCustomTypeManager | src/main/java/io/github/squdan/querydsl/filters/repository/QueryDslPredicateFactory.java:43-45 | Replaces the single custom slot. |
| Factory.PredicateFactory.LazyInitializations | src/main/java/io/github/squdan/querydsl/filters/repository/QueryDslPredicateFactory.java:108-112 | Creates the collection manager, and leaves the custom slot alone. |
| Factory.PredicateFactory.GetPredicateAt | src/main/java/io/github/squdan/querydsl/filters/repository/QueryDslPredicateFactory.java:69-106 | Initialises lazily, then returns `Compile` with the current custom manager and the program's textual split. |
| Factory.PredicateFactory.GetPredicate | src/main/java/io/github/squdan/querydsl/filters/repository/QueryDslPredicateFactory.java:55-58 | Roots the path at the entity name and compiles with the textual split. A failing entity name fails before the collection manager is created. |
| Builder.FilterPredicate | src/main/java/io/github/squdan/querydsl/filters/repository/QueryDslPredicateBuilder.java:109-113 | The factory's predicate for one filter. An entity class with an empty name fails. |
| Builder.CompileAllFails | src/main/java/io/github/squdan/querydsl/filters/repository/QueryDslPredicateBuilder.java:109-113 | The stream fails iff some non-null filter fails, and then with the error of the first. |
| Builder.CompileAllKeeps | src/main/java/io/github/squdan/querydsl/filters/repository/QueryDslPredicateBuilder.java:110-112 | The predicate of every non-null filter that gives one is in the list. |
| Builder.CompileAllInvents | src/main/java/io/github/squdan/querydsl/filters/repository/QueryDslPredicateBuilder.java:110-112 | Every member of the list is the predicate of some non-null filter, and the list is no longer than the filters. |
| Builder.BuildIsConjunction | src/main/java/io/github/squdan/querydsl/filters/repository/QueryDslPredicateBuilder.java:104-129 | A built predicate holds exactly when every compiled predicate holds. |
| Builder.AndAll | src/main/java/io/github/squdan/querydsl/filters/repository/QueryDslPredicateBuilder.java:115-120 | The loop gives `((TRUE and p1) and p2) ...` in list order. |
| Builder.PredicateBuilder.constructor | src/main/java/io/github/squdan/querydsl/filters/repository/QueryDslPredicateBuilder.java:33-38 | No filters, and a fresh factory of its own. |
| Builder.PredicateBuilder.AddCustomTypeManager | src/main/java/io/github/squdan/querydsl/filters/repository/QueryDslPredicateBuilder.java:46-49 | Installs the manager in the builder's own factory. |
| Builder.PredicateBuilder.WithText | src/main/java/io/github/squdan/querydsl/filters/repository/QueryDslPredicateBuilder.java:59-62 | Appends the filter `from` builds, possibly null. A blank key or operator fails and adds nothing. |
| Builder.PredicateBuilder.WithOperator | src/main/java/io/github/squdan/querydsl/filters/repository/QueryDslPredicateBuilder.java:72-75 | Appends the filter of the three parts. |
| Builder.PredicateBuilder.With | src/main/java/io/github/squdan/querydsl/filters/repository/QueryDslPredicateBuilder.java:83-86 | Appends one filter. |
| Builder.PredicateBuilder.WithAll | src/main/java/io/github/squdan/querydsl/filters/repository/QueryDslPredicateBuilder.java:94-97 | Appends the list, in order. |
| Builder.PredicateBuilder.CollectPredicates | src/main/java/io/github/squdan/querydsl/filters/repository/QueryDslPredicateBuilder.java:109-113 | The loop gives exactly the stream of the factory as the program has it: null filters skipped, null predicates dropped, first error kept. |
| Builder.PredicateBuilder.Build | src/main/java/io/github/squdan/querydsl/filters/repository/QueryDslPredicateBuilder.java:104-129 | No filters give null, and filters that give no predicate at all fail. Otherwise the result is the conjunction of the predicates of the factory as the program has it. |
| DateTimes.InitialFormatters | src/main/java/io/github/squdan/querydsl/filters/util/DateTimeUtils.java:32-53 | ISO offset first, then the four patterns in declaration order. |
| DateTimes.FirstParseIsEarliest | src/main/java/io/github/squdan/querydsl/filters/util/DateTimeUtils.java:102-106 | The lookup returns `x` exactly when some formatter reads `x` and every earlier one rejects the text. |
| DateTimes.FirstParseNone | src/main/java/io/github/squdan/querydsl/filters/util/DateTimeUtils.java:102-122 | The lookup finds nothing exactly when every formatter rejects the text. |
| DateTimes.FirstParseAppend | src/main/java/io/github/squdan/querydsl/filters/util/DateTimeUtils.java:60-62 | A formatter tried after the list matters only when the list found nothing. |
| DateTimes.AddedFormatsComeLast | src/main/java/io/github/squdan/querydsl/filters/util/DateTimeUtils.java:60-62 | A later format never overrides a reading the list already gives, and is used only when the list fails. |
| DateTimes.InstantMatchesLocalDateTime | src/main/java/io/github/squdan/querydsl/filters/util/DateTimeUtils.java:74-86 | `toInstantUtc` succeeds iff `toLocalDateTime` does, and then denotes that reading at UTC. Blank text gives null. |
| DateTimes.DateTimeUtils.constructor | src/main/java/io/github/squdan/querydsl/filters/util/DateTimeUtils.java:45-53 | The list after the static initialiser. |
| DateTimes.DateTimeUtils.AddDateTimeFormat | src/main/java/io/github/squdan/querydsl/filters/util/DateTimeUtils.java:60-62 | Appends the formatter at the end. |
| DateTimes.DateTimeUtils.ToLocalDateTime | src/main/java/io/github/squdan/querydsl/filters/util/DateTimeUtils.java:98-110 | The loop visits every formatter and keeps the first reading. |
| DateTimes.DateTimeUtils.ToInstantUtc | src/main/java/io/github/squdan/querydsl/filters/util/DateTimeUtils.java:74-86 | That reading taken at UTC. |
| Platform.AtUtcKeepsTheReading | src/main/java/io/github/squdan/querydsl/filters/util/DateTimeUtils.java:81 | At offset UTC two date-times give the same instant only when they are equal, and instants are ordered as the UTC readings are. |
| Legacy.KindOf | src/main/java/es/squdan/querydsl/filters/repository/QueryDslPredicateBuilder.java:144-272 | The branch is chosen from the value text: date if it parses as a date, else number if `parseInt` or `parseDouble` accepts it, else UUID if it parses as one, else text. |
| Legacy.ConstantOf | src/main/java/es/squdan/querydsl/filters/repository/QueryDslPredicateBuilder.java:144-272 | The branch's constant. A text only `parseInt` accepts has no `parseDouble` reading. |
| Legacy.LegacySwitch | src/main/java/es/squdan/querydsl/filters/repository/QueryDslPredicateBuilder.java:147-189 | A null operator fails. An operator without an entry gives no predicate and no error. |
| Legacy.CustomClaims | src/main/java/es/squdan/querydsl/filters/repository/QueryDslPredicateBuilder.java:139-141 | With no custom manager, nothing is claimed. |
| Legacy.Dispatch | src/main/java/es/squdan/querydsl/filters/repository/QueryDslPredicateBuilder.java:144-317 | A null filter, value or key fails before any operator is looked at. A text only `parseInt` accepts escapes from `parseDouble`. |
| Legacy.Generate | src/main/java/es/squdan/querydsl/filters/repository/QueryDslPredicateBuilder.java:134-328 | The entity name first, then the custom manager, then the value tests. |
| Legacy.IsUuidText | src/main/java/es/squdan/querydsl/filters/repository/QueryDslPredicateBuilder.java:330-346 | True iff `UUID.fromString` accepts the text. The parser never returns null, so the null check is dead code. |
| Legacy.IsDateText | src/main/java/es/squdan/querydsl/filters/repository/QueryDslPredicateBuilder.java:348-360 | True iff the text is not blank and some formatter in the current list accepts it. |
| Legacy.IsIntegerText | src/main/java/es/squdan/querydsl/filters/repository/QueryDslPredicateBuilder.java:362-373 | True iff `Integer.parseInt` accepts the text. Its exception is caught, not thrown. |
| Legacy.IsDecimalText | src/main/java/es/squdan/querydsl/filters/repository/QueryDslPredicateBuilder.java:375-390 | Never true together with `isInteger`. The two together hold iff one of the two parsers accepts the text. |
| Legacy.PredicateAsWritten | src/main/java/es/squdan/querydsl/filters/repository/QueryDslPredicateBuilder.java:144-314 | As written, a convertible filter gives a predicate iff its branch supports the operator's meaning, except starts-with on a text value, which gives none. The predicate is the meaning's comparison, with `<=` built as `<`. |
| Legacy.GetPredicate | src/main/java/es/squdan/querydsl/filters/repository/QueryDslPredicateBuilder.java:144-314 | With the corrected tables, a convertible filter gives a predicate iff its branch supports the operator's meaning, and that predicate is the meaning's comparison. |
| Legacy.GetPredicateIsIntended | src/main/java/es/squdan/querydsl/filters/repository/QueryDslPredicateBuilder.java:144-314 | Under a strict total order, the corrected predicate holds in exactly the rows the operator's meaning selects. |
| Legacy.NullValueFails | src/main/java/es/squdan/querydsl/filters/repository/QueryDslPredicateBuilder.java:348-360 | A null value fails, even for `isNull`, unless the custom manager claims the filter. |
| Legacy.LowerOrEqualIsStrictAsWritten | src/main/java/es/squdan/querydsl/filters/repository/QueryDslPredicateBuilder.java:181-183 | As written, `<=` on a date or number builds `lt`, which fails in a row equal to the value; the corrected `loe` holds there. |
| Legacy.LowerOrEqualBuiltAsWritten | src/main/java/es/squdan/querydsl/filters/repository/QueryDslPredicateBuilder.java:181-183 | As written, `<=` builds `lt`. |
| Legacy.LowerOrEqualBuiltCorrected | src/main/java/es/squdan/querydsl/filters/repository/QueryDslPredicateBuilder.java:229-231 | Corrected, `<=` builds `loe`. |
| Legacy.StartsWithDroppedAsWritten | src/main/java/es/squdan/querydsl/filters/repository/QueryDslPredicateBuilder.java:297-300 | As written, starts-with on a text value gives no predicate; corrected, it gives the ignore-case prefix comparison. |
| Legacy.TablesDifferOnlyThere | src/main/java/es/squdan/querydsl/filters/repository/QueryDslPredicateBuilder.java:144-314 | The corrected tables agree with the as-written ones everywhere except `<=` and starts-with. |
| Legacy.StartsWithQueryMatchesEverything | src/main/java/es/squdan/querydsl/filters/repository/QueryDslPredicateBuilder.java:105-126 | As written, a query with only a starts-with filter on a text value builds no condition at all. |
| Legacy.CompileEachFails | src/main/java/es/squdan/querydsl/filters/repository/QueryDslPredicateBuilder.java:110-112 | The stream fails iff some filter fails, null filters included, and then with the first error. |
| Legacy.CompileEachMembers | src/main/java/es/squdan/querydsl/filters/repository/QueryDslPredicateBuilder.java:110-112 | The list holds exactly the non-null predicates of the filters. |
| Legacy.BuildFailsOnlyByException | src/main/java/es/squdan/querydsl/filters/repository/QueryDslPredicateBuilder.java:105-126 | `build` fails exactly when some filter's predicate throws. No predicates at all give null, with no error. |
| Legacy.BuildIsConjunction | src/main/java/es/squdan/querydsl/filters/repository/QueryDslPredicateBuilder.java:113-119 | The built predicate holds exactly when every compiled predicate holds. |
| Legacy.Compiler | src/main/java/es/squdan/querydsl/filters/repository/QueryDslPredicateBuilder.java:110-111 | Per filter, the corrected generator. |
| Legacy.CompilerAsWritten | src/main/java/es/squdan/querydsl/filters/repository/QueryDslPredicateBuilder.java:110-111 | Per filter, the generator as written. |
| Legacy.LegacyPredicateBuilder.constructor | src/main/java/es/squdan/querydsl/filters/repository/QueryDslPredicateBuilder.java:34-38 | No filters and no custom manager. |
| Legacy.LegacyPredicateBuilder.AddCustomTypesManager | src/main/java/es/squdan/querydsl/filters/repository/QueryDslPredicateBuilder.java:47-50 | Replaces the custom manager and keeps the filters. |
| Legacy.LegacyPredicateBuilder.WithText | src/main/java/es/squdan/querydsl/filters/repository/QueryDslPredicateBuilder.java:60-63 | Appends the filter `from` builds. A blank key or operator fails and adds nothing. |
| Legacy.LegacyPredicateBuilder.WithOperator | src/main/java/es/squdan/querydsl/filters/repository/QueryDslPredicateBuilder.java:73-76 | Appends the filter of the three parts. |
| Legacy.LegacyPredicateBuilder.With | src/main/java/es/squdan/querydsl/filters/repository/QueryDslPredicateBuilder.java:84-87 | Appends one filter, null included. |
| Legacy.LegacyPredicateBuilder.WithAll | src/main/java/es/squdan/querydsl/filters/repository/QueryDslPredicateBuilder.java:95-98 | Appends the list. |
| Legacy.LegacyPredicateBuilder.CollectPredicates | src/main/java/es/squdan/querydsl/filters/repository/QueryDslPredicateBuilder.java:110-112 | The loop gives exactly the stream of the generator as written. |
| Legacy.LegacyPredicateBuilder.Build | src/main/java/es/squdan/querydsl/filters/repository/QueryDslPredicateBuilder.java:105-126 | No filters, or no predicates, give null. Otherwise the result is the conjunction of the as-written generator's predicates. |
| Legacy.DateAssignable | src/main/java/es/squdan/querydsl/filters/repository/type/QueryDslDateTypeManager.java:17-29 | True iff the value is present and `toInstantUtc` reads it. |
| Legacy.InstantOrNull | src/main/java/es/squdan/querydsl/filters/repository/type/QueryDslDateTypeManager.java:38 | The value re-parsed without a check: the instant, or null. |
| Legacy.DateManagerManage | src/main/java/es/squdan/querydsl/filters/repository/type/QueryDslDateTypeManager.java:31-81 | It needs a key and a value. The eight order comparisons are built, and text operators are rejected for `Date`. |
| Legacy.AssignableDateIsCompared | src/main/java/es/squdan/querydsl/filters/repository/type/QueryDslDateTypeManager.java:41-78 | After `isAsignable`, `manage` succeeds iff the operator is an order comparison, `<=` as `loe`, against the parsed instant. |
| Legacy.UuidAssignable | src/main/java/es/squdan/querydsl/filters/repository/type/QueryDslUuidTypeManager.java:16-29 | True iff the value is present and `UUID.fromString` accepts it. |
| Legacy.UuidManagerManage | src/main/java/es/squdan/querydsl/filters/repository/type/QueryDslUuidTypeManager.java:31-65 | The value is re-parsed unguarded, so a bad value escapes as the parser's own exception. Then come the null and equality checks. |
| Legacy.UuidManagerOutcomes | src/main/java/es/squdan/querydsl/filters/repository/type/QueryDslUuidTypeManager.java:38 | On a value `isAsignable` refuses, `manage` fails with an exception that is not the library's own. On one it accepts, it fails only for operators outside the equality checks. |

## Left out

- **Logging.** Every `log` call is left out, including the all-null warning of the legacy `build` and the unsupported-operator warnings. They have no effect on results.
- **Regular expressions.** There is no general regex engine. The two expressions are a hand-written backtracking scanner with Java's priorities: greedy groups, alternatives in order, leftmost `find`.
- **Library calls.**
  - `LocalDateTime.parse`, `Double.parseDouble`, `Integer.parseInt` and `UUID.fromString` are unspecified total functions returning an option, supplied as parameters.
  - `DateTimeUtils.toLocalDate` is not part of this model and is such a parameter too.
  - Doubles and UUIDs are opaque values, and numeric order is not modelled.
- **Reflection.** `getDeclaredField` and generic type arguments are replaced by a field table from (class, field name) to the declared class and the element class.
- **QueryDSL, JPA and Spring Data.**
  - `BooleanExpression` is a datatype of comparisons and `and`.
  - Its truth in a row is given by a comparison relation passed in.
  - The repository interface, the entity classes and the code generators are left out.
- **Exceptions.** They are error values. Their messages are kept only as much as the error carries: type label, operator and input text.
- Text.LowerText, Factory.EntityName: only the ASCII capitals `A` to `Z` are lower-cased, where `Character.toLowerCase` maps every cased Unicode character (an entity `Ärger` would get the alias `ärger`), because the Unicode case tables are not modelled.
- Paths.SplitAtNameAsWritten, Factory.SplitKey: the collection name is cut at literally, where `split` reads it as a regular expression; the two differ only for a field name with `$`, which is left out because Java identifiers rarely hold one.
- **Date-time values.** A `LocalDateTime` is kept as its reading at offset UTC, so `toInstant(ZoneOffset.UTC)` (`Platform.AtUtc`) only renames it; calendar fields and other offsets are left out.
- Handlers.DateManage: the not-supported error carries the label `Date` where the source formats the value's class name into the message.
- **The static `FORMATTERS` list.** It is a field of a `DateTimeUtils` object. Sharing it between threads is not modelled.
- **The custom manager's own code** (`QueryDslCustomTypesManager`, `QueryDslCustomTypeManager`) is a pair of functions supplied by the caller. The test suite's `QueryDslRolesTypeManager` is the modelled instance.

## Findings

| source | as written | input that shows it | evidently intended | confidence | as-written member | corrected member |
|---|---|---|---|---|---|---|
| src/main/java/es/squdan/querydsl/filters/repository/type/QueryDslCollectionTypeManager.java:87 | The key is split at the first textual occurrence of `name.`, wherever it lies. | The key `myaccounts.accounts.amount`, where `myaccounts` is a plain field holding a `List` field `accounts`, splits as `myaccounts` / `accounts.amount`. | A split after the collection segment itself: `myaccounts.accounts` / `amount`. | not executed | Paths.SplitAtNameAsWritten, Factory.NestedKeyCompiledAsWritten | Paths.SplitAtCollection, Factory.NestedKeyCompiledCorrected |
| src/main/java/es/squdan/querydsl/filters/repository/QueryDslPredicateBuilder.java:181-183,229-231 | `<=` and `lte` on a date or number value build `lt`. | `amount<=100` on a row whose amount is 100 | `loe`, as the `io` managers and the legacy date manager build. | not executed | Legacy.PredicateAsWritten, Legacy.LowerOrEqualIsStrictAsWritten | Legacy.GetPredicate, Legacy.GetPredicateIsIntended |
| src/main/java/es/squdan/querydsl/filters/repository/QueryDslPredicateBuilder.java:297-300 | The starts-with comparison on a text value is built but never stored, so the filter gives no predicate. | `starts(name : abc)` alone, which builds no condition and selects every row | The ignore-case prefix comparison, like the ends-with and contains branches. | not executed | Legacy.PredicateAsWritten, Legacy.StartsWithDroppedAsWritten | Legacy.GetPredicate, Legacy.StartsWithQueryMatchesEverything |
