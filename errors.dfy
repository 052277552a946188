/** The exceptions the library throws, as values. `QueryDslFiltersException` carries a
    message; each message the library formats is one constructor here, holding the data
    the message is formatted from. The last constructors stand for Java runtime exceptions
    the library does not catch. */
module Errors {
  import opened Wrappers
  import opened Operators
  import opened Types

  datatype Error =
      /** `QueryDslFilter.from` with a blank key or a blank operator text. */
    | InvalidFilter(keyText: Option<string>, operatorText: Option<string>)
      /** `QueryDslFilter.toString` of a filter without an operator. */
    | MissingOperator
      /** `QueryDslFilter.toString` of a function filter without a key. */
    | FunctionWithoutArguments(operator: Operator)
      /** The text parser found neither form in its input. */
    | WrongFormat(filter: Option<string>)
      /** `getTypeFrom`: a segment of the path is not a declared field. */
    | TypeSearchFailed(path: string, sourceType: JavaType)
      /** The collection walk met a segment that is not a declared field. */
    | CollectionCheckFailed(path: string, sourceType: JavaType)
      /** The collection segment is not followed by a `.` in the key. */
    | CollectionFieldNotFound(path: string)
      /** A handler could not turn the filter value into its field's type. */
    | ValueNotParsable(filterOperator: Option<Operator>, value: Option<string>)
      /** A handler has no comparison for this operator. */
    | OperationNotSupported(operator: Operator, typeLabel: string)
      /** A date-like field whose class the date handler cannot compare. */
    | DateTypeNotSupported(fieldType: JavaType)
      /** The builder had filters but none of them gave a predicate. */
    | NoPredicates
      /** `NullPointerException`. */
    | NullPointer
      /** `ArrayIndexOutOfBoundsException`. */
    | IndexOutOfBounds
      /** An `IllegalArgumentException` or `NumberFormatException` from a library parser
          that reaches the caller unwrapped. */
    | UncheckedParseFailure(parser: string, text: string)

  /** The errors that are `QueryDslFiltersException`s, as opposed to runtime exceptions. */
  predicate IsFiltersException(e: Error) {
    !(e.NullPointer? || e.IndexOutOfBounds? || e.UncheckedParseFailure?)
  }

  /** What a call returns or throws. */
  type Res<T> = Result<T, Error>
}
