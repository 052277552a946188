/** The `Roles` manager the library's tests register as a custom type manager: it claims
    fields whose class is the `Roles` enum and compares them with a constant of it. */
module Roles {
  import opened Wrappers
  import opened Text
  import opened Operators
  import opened Types
  import opened Errors
  import opened Platform
  import opened Filters
  import opened Predicates
  import opened Paths
  import opened Handlers
  import opened Factory

  /** The enum class. */
  const RolesType: JavaType := EnumType("Roles")

  /** Its constants, in declaration order. */
  const RoleNames: seq<string> := ["ADMIN", "USER"]

  /** `Roles.valueOf`: the constant of exactly that name; any other text, "null"
      included, is an `IllegalArgumentException` the manager does not catch. */
  function RoleOf(text: string): (r: Res<Constant>)
    ensures r.Ok? <==> text in RoleNames
    ensures r.Ok? ==> r.value == EnumConstant(text)
    ensures r.Err? ==> r.error == UncheckedParseFailure("Roles.valueOf", text)
  {
    if text in RoleNames then Ok(EnumConstant(text)) else Err(UncheckedParseFailure("Roles.valueOf", text))
  }

  /** `isSupported`: the declared class at the end of the key is `Roles`. */
  function RolesSupports(schema: Schema, t: JavaType, f: Filter): (r: Res<bool>)
    ensures f.key.None? ==> r == Err(NullPointer)
    ensures f.key.Some? ==> r.Ok? == TypeOf(schema, t, f.key.value).Ok?
    ensures r.Ok? ==> (r.value <==> TypeOf(schema, t, f.key.value).value == RolesType)
  {
    if f.key.None? then Err(NullPointer)
    else
      var fieldType :- TypeOf(schema, t, f.key.value);
      Ok(fieldType == RolesType)
  }

  /** `manage`: a `Roles` field gets an equality predicate with the named constant; any
      other field gets no predicate. */
  function RolesManage(schema: Schema, t: JavaType, e: EntityPath, f: Filter): (r: Res<Option<Pred>>)
    ensures f.key.None? ==> r == Err(NullPointer)
    ensures f.key.Some? && TypeOf(schema, t, f.key.value).Ok? && TypeOf(schema, t, f.key.value).value != RolesType ==>
      r == Ok(None)
    ensures r.Ok? && r.value.Some? ==>
      f.key.Some? && f.operator.Some? && ValueOf(f.value) in RoleNames &&
      MeaningOf(f.operator.value) in EqualityMeanings &&
      r.value.value == PredicateFor(MeaningOf(f.operator.value), e, f.key.value, EnumConstant(ValueOf(f.value)))
  {
    if f.key.None? then Err(NullPointer)
    else
      var valueType :- TypeOf(schema, t, f.key.value);
      if valueType != RolesType then Ok(None)
      else
        var value :- RoleOf(ValueOf(f.value));
        var p :- Switch(EqualityMeanings, f.operator, e, f.key.value, value, "Roles");
        Ok(Some(p))
  }

  /** The manager as the factory sees it, over the given entity classes. */
  function RolesManager(schema: Schema): (m: TypeManager)
    ensures forall t, e, f :: m.supports(t, e, f) == RolesSupports(schema, t, f)
    ensures forall t, e, f :: m.manage(t, e, f) == RolesManage(schema, t, e, f)
  {
    TypeManager((t, e, f) => RolesSupports(schema, t, f), (t, e, f) => RolesManage(schema, t, e, f))
  }

  /** Registered with the factory, the manager takes every collection-free `Roles` key
      before the built-in managers, which would otherwise treat it as a string. */
  lemma RolesFieldsGoToTheManager(schema: Schema, lib: Library, split: KeySplit, t: JavaType, e: EntityPath, f: Filter)
    requires f.key.Some? && PathHasCollection(schema, t, f.key.value) == Ok(false)
    requires TypeOf(schema, t, f.key.value) == Ok(RolesType)
    ensures Compile(Context(schema, lib, Some(RolesManager(schema)), split), t, e, f) == RolesManage(schema, t, e, f)
  {
    CustomManagerComesFirst(Context(schema, lib, Some(RolesManager(schema)), split), t, e, f);
  }
}
