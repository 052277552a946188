/** The Java library calls the handlers depend on, left abstract: date-time formatters,
    `LocalDate` parsing, `Double.parseDouble`, `Integer.parseInt` and `UUID.fromString`.
    Each parser is a total function that gives no value where the Java call throws its
    parse exception. The values they produce are kept opaque: only their identity matters
    to the predicates built from them. */
module Platform {
  import opened Wrappers

  /** A `java.time.LocalDateTime`, identified by the instant it denotes at offset UTC. */
  datatype LocalDateTime = LocalDateTime(utcSeconds: int, nanos: int)

  /** A `java.time.Instant`. */
  datatype Instant = Instant(epochSeconds: int, nanos: int)

  /** A `java.time.LocalDate`, by its epoch day. */
  datatype LocalDate = LocalDate(epochDay: int)

  /** A `java.lang.Double`, by its IEEE 754 bit pattern. */
  datatype Double = Double(bits: int)

  /** A `java.util.UUID`, by its two 64-bit halves. */
  datatype Uuid = Uuid(mostSignificant: int, leastSignificant: int)

  /** `LocalDateTime.toInstant(ZoneOffset.UTC)`: the same wall-clock reading at UTC. */
  function AtUtc(t: LocalDateTime): (r: Instant)
    ensures r.epochSeconds == t.utcSeconds && r.nanos == t.nanos
  {
    Instant(t.utcSeconds, t.nanos)
  }

  /** At a fixed offset the conversion loses nothing: two date-times give the same
      instant only when they are the same date-time, and instants compare as the
      date-times' UTC readings do. */
  lemma AtUtcKeepsTheReading(a: LocalDateTime, b: LocalDateTime)
    ensures AtUtc(a) == AtUtc(b) <==> a == b
    ensures AtUtc(a).epochSeconds < AtUtc(b).epochSeconds <==> a.utcSeconds < b.utcSeconds
  {
  }

  /** A `DateTimeFormatter`: the ISO offset formatter, one built from a pattern, or one
      an application supplies. */
  datatype Formatter = IsoOffsetDateTime | OfPattern(pattern: string) | Supplied(id: nat)

  /** The library calls, and the formatter list `DateTimeUtils` holds when they run. */
  datatype Library = Library(
    /** `LocalDateTime.parse(text, formatter)`; `None` for `DateTimeParseException`. */
    parseDateTime: (Formatter, string) -> Option<LocalDateTime>,
    /** The contents of `DateTimeUtils.FORMATTERS`. */
    formatters: seq<Formatter>,
    /** `DateTimeUtils.toLocalDate`, which is not part of this model; `None` for null. */
    toLocalDate: string -> Option<LocalDate>,
    /** `Double.parseDouble`; `None` for `NumberFormatException`. */
    parseDouble: string -> Option<Double>,
    /** `Integer.parseInt`; `None` for `NumberFormatException`. */
    parseInt: string -> Option<int>,
    /** `UUID.fromString`; `None` for `IllegalArgumentException`. */
    uuidFromString: string -> Option<Uuid>)
}
