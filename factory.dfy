/** `QueryDslPredicateFactory`: chooses the type manager for one filter and lets it build
    the predicate. Collections come first and re-enter the factory for the path inside
    the collection's elements; then an application-supplied manager; then dates,
    numbers and UUIDs; and strings for everything else. */
module Factory {
  import opened Wrappers
  import opened Text
  import opened Operators
  import opened Types
  import opened Errors
  import opened Filters
  import opened Platform
  import opened Predicates
  import opened Paths
  import opened Handlers

  /** A `QueryDslTypeManager` an application supplies, as its two operations over the
      entity class, the entity path and the filter. */
  datatype TypeManager = TypeManager(
    supports: (JavaType, EntityPath, Filter) -> Res<bool>,
    manage: (JavaType, EntityPath, Filter) -> Res<Option<Pred>>)

  /** How the collection manager splits a key that passes through a collection:
      `AsWritten` cuts the text at the first occurrence of the collection's name and a
      dot, as `getQueryDslPathToProcess` does; `AtSegment` cuts at the collection field's
      own segment, the evidently intended split (see `Paths.SplitAtCollection`). */
  datatype KeySplit = AsWritten | AtSegment

  /** What one predicate construction reads: the entity classes, the library calls, the
      factory's custom manager and the collection split in use. */
  datatype Context = Context(schema: Schema, lib: Library, custom: Option<TypeManager>, split: KeySplit)

  /** The context of the factory as the program has it. */
  function ProgramContext(schema: Schema, lib: Library, custom: Option<TypeManager>): (ctx: Context)
    ensures ctx.schema == schema && ctx.lib == lib && ctx.custom == custom && ctx.split == AsWritten
  {
    Context(schema, lib, custom, AsWritten)
  }

  /** `getQueryDslPathToProcess` under the context's split. As written, the collection
      name is looked up again and the key is cut at its first textual occurrence followed
      by a dot (a null name would print as "null"). */
  function SplitKey(ctx: Context, t: JavaType, key: string): (r: Res<PathToProcess>)
    ensures r.Ok? ==> r.value.collectionPath + "." + r.value.fieldPath == key
    ensures r.Ok? ==> |r.value.fieldPath| < |key|
    ensures ctx.split == AtSegment ==> r == SplitAtCollection(ctx.schema, t, key)
    ensures ctx.split == AsWritten && CollectionFieldName(ctx.schema, t, key).Err? ==>
      r == Err(CollectionFieldName(ctx.schema, t, key).error)
    ensures ctx.split == AsWritten && CollectionFieldName(ctx.schema, t, key).Ok? ==>
      r == SplitAtNameAsWritten(key, ValueOf(CollectionFieldName(ctx.schema, t, key).value))
  {
    match ctx.split
    case AtSegment => SplitAtCollection(ctx.schema, t, key)
    case AsWritten =>
      var name :- CollectionFieldName(ctx.schema, t, key);
      SplitAtNameAsWritten(key, ValueOf(name))
  }

  function KeyLength(f: Filter): nat {
    if f.key.Some? then |f.key.value| else 0
  }

  /** `getPredicate(entityType, entityPath, filter)`. A null predicate (from the string
      manager or a custom manager) is `None`. A collection key is split as the context
      says and compiled again below the collection's `any()`. */
  function Compile(ctx: Context, t: JavaType, e: EntityPath, f: Filter): (r: Res<Option<Pred>>)
    decreases KeyLength(f)
    ensures f.key.None? ==> r == Err(NullPointer)
    ensures f.key.Some? && CollectionFieldName(ctx.schema, t, f.key.value).Err? ==>
      r == Err(CollectionFieldName(ctx.schema, t, f.key.value).error)
  {
    if f.key.None? then Err(NullPointer)
    else
      var key := f.key.value;
      var hasCollection :- PathHasCollection(ctx.schema, t, key);
      if hasCollection then
        var split :- SplitKey(ctx, t, key);
        var elementType :- ElementTypeAlong(ctx.schema, t, split.collectionPath);
        Compile(ctx, elementType, AnyElement(e, split.collectionPath), Filter(Some(split.fieldPath), f.operator, f.value))
      else
        var customSupports :- if ctx.custom.Some? then ctx.custom.value.supports(t, e, f) else Ok(false);
        if customSupports then ctx.custom.value.manage(t, e, f)
        else CompileBuiltIn(ctx.schema, ctx.lib, t, e, f)
  }

  /** The built-in managers, tried in their fixed order after collections and the custom
      manager. */
  function CompileBuiltIn(schema: Schema, lib: Library, t: JavaType, e: EntityPath, f: Filter): (r: Res<Option<Pred>>)
    ensures r.Ok? && r.value.Some? ==> f.key.Some? && f.operator.Some?
    ensures r.Ok? && r.value.Some? ==>
      exists c :: r.value.value == PredicateFor(MeaningOf(f.operator.value), e, f.key.value, c)
  {
    match DateSupports(schema, t, f)
    case Err(err) => Err(err)
    case Ok(true) => (match DateManage(schema, lib, t, e, f) case Err(err) => Err(err) case Ok(p) => Ok(Some(p)))
    case Ok(false) =>
      match NumberSupports(schema, t, f)
      case Err(err) => Err(err)
      case Ok(true) => (match NumberManage(lib, e, f) case Err(err) => Err(err) case Ok(p) => Ok(Some(p)))
      case Ok(false) =>
        match UuidSupports(schema, t, f)
        case Err(err) => Err(err)
        case Ok(true) => (match UuidManage(lib, e, f) case Err(err) => Err(err) case Ok(p) => Ok(Some(p)))
        case Ok(false) => StringManage(e, f)
  }

  /** Without a custom manager every predicate the factory builds is the handler
      predicate for the filter operator's meaning, on the last field of the key, reached
      through one `any()` step per collection on the way. */
  lemma {:induction false} CompiledPredicateHasFilterMeaning(ctx: Context, t: JavaType, e: EntityPath, f: Filter)
    requires ctx.custom.None?
    requires Compile(ctx, t, e, f).Ok? && Compile(ctx, t, e, f).value.Some?
    ensures f.operator.Some?
    ensures exists e', k, c :: Compile(ctx, t, e, f).value.value == PredicateFor(MeaningOf(f.operator.value), e', k, c)
    decreases KeyLength(f)
  {
    var key := f.key.value;
    var hasCollection := PathHasCollection(ctx.schema, t, key).value;
    if hasCollection {
      var split := SplitKey(ctx, t, key).value;
      var elementType := ElementTypeAlong(ctx.schema, t, split.collectionPath).value;
      var inner := Filter(Some(split.fieldPath), f.operator, f.value);
      CompiledPredicateHasFilterMeaning(ctx, elementType, AnyElement(e, split.collectionPath), inner);
    } else {
      var r := CompileBuiltIn(ctx.schema, ctx.lib, t, e, f);
      var c :| r.value.value == PredicateFor(MeaningOf(f.operator.value), e, key, c);
    }
  }

  /** A key that passes through a collection is compiled as the part of it after the
      split, on the element class of the path before the split and below that path's
      `any()`; the part after the split is strictly shorter than the key. */
  lemma CollectionKeyDescends(ctx: Context, t: JavaType, e: EntityPath, f: Filter)
    requires f.key.Some? && PathHasCollection(ctx.schema, t, f.key.value) == Ok(true)
    requires SplitKey(ctx, t, f.key.value).Ok?
    ensures
      var split := SplitKey(ctx, t, f.key.value).value;
      Compile(ctx, t, e, f) ==
        match ElementTypeAlong(ctx.schema, t, split.collectionPath)
        case Err(err) => Err(err)
        case Ok(elementType) =>
          Compile(ctx, elementType, AnyElement(e, split.collectionPath), Filter(Some(split.fieldPath), f.operator, f.value))
    ensures |SplitKey(ctx, t, f.key.value).value.fieldPath| < |f.key.value|
  {
  }

  /** A collection key whose split fails is the split's error. */
  lemma CollectionKeyWithoutSplit(ctx: Context, t: JavaType, e: EntityPath, f: Filter)
    requires f.key.Some? && PathHasCollection(ctx.schema, t, f.key.value) == Ok(true)
    requires SplitKey(ctx, t, f.key.value).Err?
    ensures Compile(ctx, t, e, f) == Err(SplitKey(ctx, t, f.key.value).error)
  {
  }

  /** The custom manager goes before every built-in manager: whenever it claims a
      collection-free filter, its result is the factory's. */
  lemma CustomManagerComesFirst(ctx: Context, t: JavaType, e: EntityPath, f: Filter)
    requires f.key.Some? && PathHasCollection(ctx.schema, t, f.key.value) == Ok(false)
    requires ctx.custom.Some? && ctx.custom.value.supports(t, e, f) == Ok(true)
    ensures Compile(ctx, t, e, f) == ctx.custom.value.manage(t, e, f)
  {
  }

  /** The class `owner` has a `List<BankAccount> accounts`, and each account a `Double
      amount`. */
  predicate HasAccounts(schema: Schema, owner: JavaType) {
    (owner, "accounts") in schema &&
    schema[(owner, "accounts")] == Field(CollectionType("List"), Some(ClassType("BankAccount"))) &&
    (ClassType("BankAccount"), "amount") in schema &&
    schema[(ClassType("BankAccount"), "amount")] == Field(BoxedNumber("Double"), None)
  }

  /** A `User` entity with a `List<BankAccount> accounts`. */
  function AccountsSchema(): (r: Schema)
    ensures HasAccounts(r, ClassType("User"))
    ensures IsCollection(r[(ClassType("User"), "accounts")].declaredType)
    ensures ElementTypeOf(r[(ClassType("User"), "accounts")]) == ClassType("BankAccount")
  {
    map[(ClassType("User"), "accounts") := Field(CollectionType("List"), Some(ClassType("BankAccount"))),
        (ClassType("BankAccount"), "amount") := Field(BoxedNumber("Double"), None)]
  }

  lemma AmountIsPlainNumber(schema: Schema, owner: JavaType)
    requires HasAccounts(schema, owner)
    ensures CollectionFieldName(schema, ClassType("BankAccount"), "amount") == Ok(None)
    ensures TypeOf(schema, ClassType("BankAccount"), "amount") == Ok(BoxedNumber("Double"))
    ensures ElementTypeAlong(schema, owner, "accounts") == Ok(ClassType("BankAccount"))
  {
    SplitFirstWhole("amount");
    SplitFirstWhole("accounts");
  }

  lemma AccountsAmountKey(key: string)
    requires key == "accounts.amount"
    ensures key == "accounts" + "." + "amount"
    ensures OccursAt(key, "accounts" + ".", 0)
    ensures key[..0] + "accounts" == "accounts" && key[|"accounts"| + 1..] == "amount"
  {
  }

  /** A key without collections, with no custom manager, goes to the built-in managers. */
  lemma CompileWithoutCollection(ctx: Context, t: JavaType, e: EntityPath, f: Filter)
    requires f.key.Some? && PathHasCollection(ctx.schema, t, f.key.value) == Ok(false) && ctx.custom.None?
    ensures Compile(ctx, t, e, f) == CompileBuiltIn(ctx.schema, ctx.lib, t, e, f)
  {
  }

  /** A numeric field that is not a date goes to the number manager. */
  lemma BuiltInNumber(schema: Schema, lib: Library, t: JavaType, e: EntityPath, f: Filter)
    requires DateSupports(schema, t, f) == Ok(false) && NumberSupports(schema, t, f) == Ok(true)
    ensures CompileBuiltIn(schema, lib, t, e, f) ==
      match NumberManage(lib, e, f) case Err(err) => Err(err) case Ok(p) => Ok(Some(p))
  {
  }

  /** No boolean manager is registered: a collection-free `Boolean` or `boolean` field,
      with no custom manager, is compiled by the string manager. */
  lemma BooleanFieldsGoToTheStringManager(ctx: Context, t: JavaType, e: EntityPath, f: Filter)
    requires f.key.Some? && PathHasCollection(ctx.schema, t, f.key.value) == Ok(false) && ctx.custom.None?
    requires TypeOf(ctx.schema, t, f.key.value) == Ok(BoxedBoolean) || TypeOf(ctx.schema, t, f.key.value) == Ok(PrimitiveBoolean)
    ensures Compile(ctx, t, e, f) == StringManage(e, f)
  {
    CompileWithoutCollection(ctx, t, e, f);
  }

  lemma NumberGreaterThan(lib: Library, e: EntityPath, key: string, text: string, d: Double)
    requires lib.parseDouble(text) == Some(d)
    ensures NumberManage(lib, e, Filter(Some(key), Some(GreaterThan), Some(text))) == Ok(Compare(e, key, Gt, DoubleConstant(d)))
  {
    assert MeaningOf(GreaterThan) == Greater;
  }

  /** Inside an account, `amount>100` is the number manager's comparison. */
  lemma AmountCompiles(ctx: Context, owner: JavaType, e: EntityPath, d: Double)
    requires HasAccounts(ctx.schema, owner) && ctx.custom.None? && ctx.lib.parseDouble("100") == Some(d)
    ensures Compile(ctx, ClassType("BankAccount"), e, Filter(Some("amount"), Some(GreaterThan), Some("100"))) ==
      Ok(Some(Compare(e, "amount", Gt, DoubleConstant(d))))
  {
    var t := ClassType("BankAccount");
    var f := Filter(Some("amount"), Some(GreaterThan), Some("100"));
    AmountIsPlainNumber(ctx.schema, owner);
    assert PathHasCollection(ctx.schema, t, "amount") == Ok(false);
    CompileWithoutCollection(ctx, t, e, f);
    assert DateSupports(ctx.schema, t, f) == Ok(false);
    assert NumberSupports(ctx.schema, t, f) == Ok(true);
    BuiltInNumber(ctx.schema, ctx.lib, t, e, f);
    NumberGreaterThan(ctx.lib, e, "amount", "100", d);
  }

  /** `accounts.amount>100` on a class with accounts is a comparison of `amount` on any
      element of its `accounts`, under either split: the key starts with the collection's
      name, so the textual split and the segment split agree. */
  lemma AccountsAmountCompiles(ctx: Context, owner: JavaType, e: EntityPath, d: Double)
    requires HasAccounts(ctx.schema, owner) && ctx.custom.None? && ctx.lib.parseDouble("100") == Some(d)
    ensures Compile(ctx, owner, e, Filter(Some("accounts.amount"), Some(GreaterThan), Some("100"))) ==
      Ok(Some(Compare(AnyElement(e, "accounts"), "amount", Gt, DoubleConstant(d))))
  {
    var f := Filter(Some("accounts.amount"), Some(GreaterThan), Some("100"));
    AccountsKeySplit(ctx, owner);
    AmountIsPlainNumber(ctx.schema, owner);
    CollectionKeyDescends(ctx, owner, e, f);
    AmountCompiles(ctx, owner, AnyElement(e, "accounts"), d);
  }

  /** Either split cuts `accounts.amount` into the collection and `amount`. */
  lemma AccountsKeySplit(ctx: Context, owner: JavaType)
    requires HasAccounts(ctx.schema, owner)
    ensures PathHasCollection(ctx.schema, owner, "accounts.amount") == Ok(true)
    ensures SplitKey(ctx, owner, "accounts.amount") == Ok(PathToProcess("accounts", "amount"))
  {
    var key := "accounts.amount";
    AccountsAmountKey(key);
    CollectionFieldStep(ctx.schema, owner, "accounts", "amount");
    AccountsNotBlank();
    if ctx.split == AsWritten {
      AccountsTextualSplit(key);
    }
  }

  lemma AccountsTextualSplit(key: string)
    requires key == "accounts.amount"
    ensures SplitAtNameAsWritten(key, "accounts") == Ok(PathToProcess("accounts", "amount"))
  {
    AccountsAmountKey(key);
    TextualSplitAt(key, "accounts", 0);
  }

  /** `myaccounts.accounts.amount>100` on a user whose plain field `myaccounts` holds the
      accounts. */
  function NestedAmountFilter(): (f: Filter)
    ensures f.key == Some("myaccounts.accounts.amount") && f.operator == Some(GreaterThan) && f.value == Some("100")
  {
    Filter(Some("myaccounts.accounts.amount"), Some(GreaterThan), Some("100"))
  }

  lemma NestedHasAccounts()
    ensures HasAccounts(NestedSchema(), ClassType("Holder"))
  {
  }

  /** As written, the factory cuts the nested key at `accounts.` inside `myaccounts.`: it
      takes `any()` of the plain field `user.myaccounts`, which is no collection, and
      compiles `accounts.amount` again on its `Holder`. */
  lemma NestedKeyCompiledAsWritten(lib: Library, d: Double)
    requires lib.parseDouble("100") == Some(d)
    ensures Compile(ProgramContext(NestedSchema(), lib, None), ClassType("User"), Root("user"), NestedAmountFilter()) ==
      Ok(Some(Compare(AnyElement(AnyElement(Root("user"), "myaccounts"), "accounts"), "amount", Gt, DoubleConstant(d))))
    ensures !IsCollection(NestedSchema()[(ClassType("User"), "myaccounts")].declaredType)
  {
    var ctx := ProgramContext(NestedSchema(), lib, None);
    var key := "myaccounts.accounts.amount";
    NestedCollectionSplit();
    AccountsNotBlank();
    TextualSplitOfNestedKey();
    assert SplitKey(ctx, ClassType("User"), key) == Ok(PathToProcess("myaccounts", "accounts.amount"));
    HolderField();
    CollectionKeyDescends(ctx, ClassType("User"), Root("user"), NestedAmountFilter());
    NestedHasAccounts();
    AccountsAmountCompiles(ctx, ClassType("Holder"), AnyElement(Root("user"), "myaccounts"), d);
  }

  /** Split at the collection's segment, the same filter takes `any()` of the collection
      `user.myaccounts.accounts` and compares each account's `amount`. */
  lemma NestedKeyCompiledCorrected(lib: Library, d: Double)
    requires lib.parseDouble("100") == Some(d)
    ensures Compile(Context(NestedSchema(), lib, None, AtSegment), ClassType("User"), Root("user"), NestedAmountFilter()) ==
      Ok(Some(Compare(AnyElement(Root("user"), "myaccounts.accounts"), "amount", Gt, DoubleConstant(d))))
    ensures ElementTypeAlong(NestedSchema(), ClassType("User"), "myaccounts.accounts") == Ok(ClassType("BankAccount"))
  {
    var ctx := Context(NestedSchema(), lib, None, AtSegment);
    NestedSegmentSplit(ctx);
    CollectionKeyDescends(ctx, ClassType("User"), Root("user"), NestedAmountFilter());
    NestedHasAccounts();
    AmountCompiles(ctx, ClassType("Holder"), AnyElement(Root("user"), "myaccounts.accounts"), d);
  }

  lemma NestedSegmentSplit(ctx: Context)
    requires ctx.schema == NestedSchema() && ctx.split == AtSegment
    ensures PathHasCollection(ctx.schema, ClassType("User"), "myaccounts.accounts.amount") == Ok(true)
    ensures SplitKey(ctx, ClassType("User"), "myaccounts.accounts.amount") == Ok(PathToProcess("myaccounts.accounts", "amount"))
    ensures ElementTypeAlong(ctx.schema, ClassType("User"), "myaccounts.accounts") == Ok(ClassType("BankAccount"))
  {
    NestedCollectionSplit();
    AccountsNotBlank();
    assert SplitKey(ctx, ClassType("User"), "myaccounts.accounts.amount") ==
      SplitAtCollection(ctx.schema, ClassType("User"), "myaccounts.accounts.amount");
    NestedElementType();
  }

  lemma AccountsNotBlank()
    ensures !IsBlank(Some("accounts"))
  {
    assert !IsWhitespace("accounts"[0]);
  }

  lemma HolderAccountsElement()
    ensures ElementTypeAlong(NestedSchema(), ClassType("Holder"), "accounts") == Ok(ClassType("BankAccount"))
  {
    SplitFirstWhole("accounts");
  }

  lemma NestedElementType()
    ensures ElementTypeAlong(NestedSchema(), ClassType("User"), "myaccounts.accounts") == Ok(ClassType("BankAccount"))
  {
    NestedKeyParts();
    ElementTypeStep(NestedSchema(), ClassType("User"), "myaccounts", "accounts");
    HolderAccountsElement();
  }

  /** Java's `getSimpleName()` of a class. */
  function SimpleName(t: JavaType): string {
    match t
    case StringType => "String"
    case BoxedNumber(n) => n
    case PrimitiveNumber(n) => n
    case BoxedBoolean => "Boolean"
    case PrimitiveBoolean => "boolean"
    case InstantType => "Instant"
    case LocalDateTimeType => "LocalDateTime"
    case LocalDateType => "LocalDate"
    case OtherTemporal(n) => n
    case LegacyDate(n) => n
    case UuidType => "UUID"
    case EnumType(n) => n
    case CollectionType(n) => n
    case ClassType(n) => n
  }

  /** `getEntityName`: the simple class name with its first letter lower-cased; an
      empty name fails on the first character. */
  function EntityName(t: JavaType): (r: Res<string>)
    ensures r.Err? <==> SimpleName(t) == ""
    ensures r.Err? ==> r.error == IndexOutOfBounds
    ensures r.Ok? ==> |r.value| == |SimpleName(t)| && r.value[0] == LowerCase(SimpleName(t)[0]) &&
                      r.value[1..] == SimpleName(t)[1..]
  {
    var name := SimpleName(t);
    if |name| == 0 then Err(IndexOutOfBounds)
    else Ok([LowerCase(name[0])] + name[1..])
  }

  /** The factory object: the collection manager it creates on first use, and the custom
      manager slot. */
  class PredicateFactory {
    /** Whether the collection manager exists yet. */
    var collectionManagerCreated: bool
    var custom: Option<TypeManager>

    constructor ()
      ensures !collectionManagerCreated && custom.None?
    {
      collectionManagerCreated := false;
      custom := None;
    }

    /** `addCustomTypeManager`: replaces any earlier custom manager. */
    method AddCustomTypeManager(m: TypeManager)
      modifies this
      ensures custom == Some(m) && collectionManagerCreated == old(collectionManagerCreated)
    {
      custom := Some(m);
    }

    /** `lazyInitializations`: creates the collection manager once. */
    method LazyInitializations()
      modifies this
      ensures collectionManagerCreated && custom == old(custom)
    {
      if !collectionManagerCreated {
        collectionManagerCreated := true;
      }
    }

    /** `getPredicate(entityType, entityPath, filter)`. */
    method GetPredicateAt(schema: Schema, lib: Library, t: JavaType, e: EntityPath, f: Filter)
      returns (r: Res<Option<Pred>>)
      modifies this
      ensures collectionManagerCreated && custom == old(custom)
      ensures r == Compile(ProgramContext(schema, lib, custom), t, e, f)
    {
      LazyInitializations();
      r := Compile(ProgramContext(schema, lib, custom), t, e, f);
    }

    /** `getPredicate(entityType, filter)`: the path is rooted at the entity's name. */
    method GetPredicate(schema: Schema, lib: Library, t: JavaType, f: Filter)
      returns (r: Res<Option<Pred>>)
      modifies this
      ensures custom == old(custom)
      ensures collectionManagerCreated == (old(collectionManagerCreated) || EntityName(t).Ok?)
      ensures r == match EntityName(t)
                   case Err(err) => Err(err)
                   case Ok(name) => Compile(ProgramContext(schema, lib, custom), t, Root(name), f)
    {
      var name := EntityName(t);
      if name.Err? {
        r := Err(name.error);
        return;
      }
      r := GetPredicateAt(schema, lib, t, Root(name.value), f);
    }
  }
}
