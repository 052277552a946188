/** The Java classes the handlers tell apart, and the reflective view of an entity that
    resolving a dotted key needs: which fields a class declares, of which type. */
module Types {
  import opened Wrappers

  /** A field's declared class. Only the distinctions some handler or path walk makes
      are kept; every other class is `ClassType(name)`. */
  datatype JavaType =
    | StringType
      /** A subclass of `java.lang.Number` (`Integer`, `Double`, `BigDecimal`, ...). */
    | BoxedNumber(name: string)
      /** A primitive numeric class (`int.class`, `double.class`): not a `Number`. */
    | PrimitiveNumber(name: string)
    | BoxedBoolean
    | PrimitiveBoolean
    | InstantType
    | LocalDateTimeType
    | LocalDateType
      /** Any other `java.time.temporal.Temporal` (`OffsetDateTime`, `ZonedDateTime`, ...). */
    | OtherTemporal(name: string)
      /** `java.util.Date` or one of its subclasses. */
    | LegacyDate(name: string)
    | UuidType
      /** An enum class, such as the `Roles` enum of the test entities. */
    | EnumType(name: string)
      /** A `java.util.Collection` implementation or interface (`List`, `Set`, ...). */
    | CollectionType(name: string)
      /** An entity or any other class. */
    | ClassType(name: string)

  /** `Collection.class.isAssignableFrom(t)`. */
  predicate IsCollection(t: JavaType) {
    t.CollectionType?
  }

  /** `Temporal.class.isAssignableFrom(t) || Date.class.isAssignableFrom(t)`. */
  predicate IsDateLike(t: JavaType) {
    t.InstantType? || t.LocalDateTimeType? || t.LocalDateType? || t.OtherTemporal? || t.LegacyDate?
  }

  /** `Number.class.isAssignableFrom(t)`. Primitive classes are not subclasses of `Number`. */
  predicate IsNumber(t: JavaType) {
    t.BoxedNumber?
  }

  /** A declared field: its class and, for a generic declaration, its first type argument
      when that argument is itself a class (`List<BankAccount>` gives `BankAccount`). */
  datatype Field = Field(declaredType: JavaType, typeArgument: Option<JavaType>)

  /** `Class.getDeclaredField`: the fields each class declares, by name. A missing key is
      a `NoSuchFieldException`. */
  type Schema = map<(JavaType, string), Field>

  /** `getCollectionType(field)`: the element class of a collection field whose first type
      argument is a class, and otherwise the field's declared class. */
  function ElementTypeOf(f: Field): JavaType {
    if IsCollection(f.declaredType) && f.typeArgument.Some? then f.typeArgument.value
    else f.declaredType
  }
}
