/** `DateTimeUtils`: turning filter text into a date-time by trying a growing list of
    formatters in order. The list is static mutable state in the source; here it is the
    field of a `DateTimeUtils` object, and the pure functions below say what a lookup with
    a given list returns. */
module DateTimes {
  import opened Wrappers
  import opened Text
  import opened Platform

  /** The patterns the library registers after the ISO offset formatter. */
  datatype SupportedFormat = DateTimeFormat1 | DateTimeFormat2 | DateTimeFormat3 | DateTimeFormat4

  function PatternOf(f: SupportedFormat): string {
    match f
    case DateTimeFormat1 => "yyyy-MM-dd'T'HH:mm:ss'Z'"
    case DateTimeFormat2 => "yyyy-MM-dd'T'HH:mm:ss.SSSXXX"
    case DateTimeFormat3 => "yyyy-MM-dd'T'HH:mm:ss"
    case DateTimeFormat4 => "yyyy-MM-dd'T'HH:mm:ss.SSS"
  }

  /** The formatter list before any `addDateTimeFormat`: ISO offset first, then the four
      patterns in declaration order. */
  function InitialFormatters(): (r: seq<Formatter>)
    ensures |r| == 5 && r[0] == IsoOffsetDateTime
    ensures forall i :: 1 <= i < 5 ==> r[i].OfPattern?
    ensures r[1].pattern == "yyyy-MM-dd'T'HH:mm:ss'Z'"
    ensures r[2].pattern == "yyyy-MM-dd'T'HH:mm:ss.SSSXXX"
    ensures r[3].pattern == "yyyy-MM-dd'T'HH:mm:ss"
    ensures r[4].pattern == "yyyy-MM-dd'T'HH:mm:ss.SSS"
  {
    [IsoOffsetDateTime,
     OfPattern(PatternOf(DateTimeFormat1)), OfPattern(PatternOf(DateTimeFormat2)),
     OfPattern(PatternOf(DateTimeFormat3)), OfPattern(PatternOf(DateTimeFormat4))]
  }

  /** The result of the first formatter in `fs` that accepts `date`. */
  function FirstParse(parse: (Formatter, string) -> Option<LocalDateTime>, fs: seq<Formatter>, date: string)
    : Option<LocalDateTime>
  {
    if |fs| == 0 then None
    else if parse(fs[0], date).Some? then parse(fs[0], date)
    else FirstParse(parse, fs[1..], date)
  }

  /** `toLocalDateTime(date)`: no value for blank text, otherwise the first formatter's
      reading. */
  function LocalDateTimeOf(parse: (Formatter, string) -> Option<LocalDateTime>, fs: seq<Formatter>, date: Option<string>)
    : Option<LocalDateTime>
  {
    if IsBlank(date) then None else FirstParse(parse, fs, date.value)
  }

  /** `toInstantUtc(date)`: that reading taken at offset UTC. */
  function InstantUtcOf(parse: (Formatter, string) -> Option<LocalDateTime>, fs: seq<Formatter>, date: Option<string>)
    : Option<Instant>
  {
    match LocalDateTimeOf(parse, fs, date)
    case None => None
    case Some(t) => Some(AtUtc(t))
  }

  /** Trying one more formatter after the list only matters when the list found nothing. */
  lemma {:induction false} FirstParseAppend(parse: (Formatter, string) -> Option<LocalDateTime>,
                                            fs: seq<Formatter>, f: Formatter, date: string)
    ensures FirstParse(parse, fs + [f], date) ==
      if FirstParse(parse, fs, date).Some? then FirstParse(parse, fs, date) else parse(f, date)
  {
    if |fs| > 0 {
      assert (fs + [f])[1..] == fs[1..] + [f];
      FirstParseAppend(parse, fs[1..], f, date);
    }
  }

  /** The lookup returns `x` exactly when some formatter reads `x` and every formatter
      before it rejects the text: the earliest formatter wins. */
  lemma {:induction false} FirstParseIsEarliest(parse: (Formatter, string) -> Option<LocalDateTime>,
                                                fs: seq<Formatter>, date: string, x: LocalDateTime)
    ensures FirstParse(parse, fs, date) == Some(x) <==>
      exists i :: 0 <= i < |fs| && parse(fs[i], date) == Some(x) &&
        forall j :: 0 <= j < i ==> parse(fs[j], date).None?
  {
    if |fs| > 0 {
      FirstParseIsEarliest(parse, fs[1..], date, x);
      if FirstParse(parse, fs, date) == Some(x) {
        if parse(fs[0], date).None? {
          var i :| 0 <= i < |fs| - 1 && parse(fs[1..][i], date) == Some(x) &&
            forall j :: 0 <= j < i ==> parse(fs[1..][j], date).None?;
          assert forall j :: 0 <= j < i + 1 ==> parse(fs[j], date).None? by {
            forall j | 0 <= j < i + 1 ensures parse(fs[j], date).None? {
              if j > 0 { assert fs[j] == fs[1..][j - 1]; }
            }
          }
          assert parse(fs[i + 1], date) == Some(x);
        }
      }
      if exists i :: 0 <= i < |fs| && parse(fs[i], date) == Some(x) &&
           forall j :: 0 <= j < i ==> parse(fs[j], date).None? {
        var i :| 0 <= i < |fs| && parse(fs[i], date) == Some(x) &&
          forall j :: 0 <= j < i ==> parse(fs[j], date).None?;
        if i > 0 {
          assert parse(fs[0], date).None?;
          assert parse(fs[1..][i - 1], date) == Some(x);
          assert forall j :: 0 <= j < i - 1 ==> parse(fs[1..][j], date).None? by {
            forall j | 0 <= j < i - 1 ensures parse(fs[1..][j], date).None? {
              assert fs[1..][j] == fs[j + 1];
            }
          }
        }
      }
    }
  }

  /** The lookup finds nothing exactly when every formatter rejects the text. */
  lemma {:induction false} FirstParseNone(parse: (Formatter, string) -> Option<LocalDateTime>,
                                          fs: seq<Formatter>, date: string)
    ensures FirstParse(parse, fs, date).None? <==> forall i :: 0 <= i < |fs| ==> parse(fs[i], date).None?
  {
    if |fs| > 0 {
      FirstParseNone(parse, fs[1..], date);
      assert forall i :: 1 <= i < |fs| ==> fs[i] == fs[1..][i - 1];
    }
  }

  /** A formatter registered later never overrides one already in the list: once the text
      parses, appending formats leaves the reading as it was. */
  lemma AddedFormatsComeLast(parse: (Formatter, string) -> Option<LocalDateTime>,
                             fs: seq<Formatter>, f: Formatter, date: Option<string>)
    ensures LocalDateTimeOf(parse, fs, date).Some? ==>
      LocalDateTimeOf(parse, fs + [f], date) == LocalDateTimeOf(parse, fs, date)
    ensures LocalDateTimeOf(parse, fs, date).None? && !IsBlank(date) ==>
      LocalDateTimeOf(parse, fs + [f], date) == parse(f, date.value)
  {
    if !IsBlank(date) {
      FirstParseAppend(parse, fs, f, date.value);
    }
  }

  /** `toInstantUtc` succeeds exactly when `toLocalDateTime` does, and then denotes the
      same wall-clock reading at UTC; blank text never converts. */
  lemma InstantMatchesLocalDateTime(parse: (Formatter, string) -> Option<LocalDateTime>,
                                    fs: seq<Formatter>, date: Option<string>)
    ensures InstantUtcOf(parse, fs, date).Some? <==> LocalDateTimeOf(parse, fs, date).Some?
    ensures InstantUtcOf(parse, fs, date).Some? ==>
      InstantUtcOf(parse, fs, date).value.epochSeconds == LocalDateTimeOf(parse, fs, date).value.utcSeconds &&
      InstantUtcOf(parse, fs, date).value.nanos == LocalDateTimeOf(parse, fs, date).value.nanos
    ensures IsBlank(date) ==> InstantUtcOf(parse, fs, date).None?
  {
  }

  /** The static formatter list and the operations that read or extend it. */
  class DateTimeUtils {
    var formatters: seq<Formatter>

    /** The state after the static initializer. */
    constructor ()
      ensures formatters == InitialFormatters()
    {
      formatters := InitialFormatters();
    }

    /** `addDateTimeFormat`: the new formatter is tried after all earlier ones. */
    method AddDateTimeFormat(f: Formatter)
      modifies this
      ensures formatters == old(formatters) + [f]
    {
      formatters := formatters + [f];
    }

    /** `toLocalDateTime(date)`: every formatter is visited, but only the first that
        accepts the text sets the result. */
    method ToLocalDateTime(parse: (Formatter, string) -> Option<LocalDateTime>, date: Option<string>)
      returns (result: Option<LocalDateTime>)
      ensures result == LocalDateTimeOf(parse, formatters, date)
    {
      result := None;
      if !IsBlank(date) {
        for i := 0 to |formatters|
          invariant result == FirstParse(parse, formatters[..i], date.value)
        {
          assert formatters[..i + 1] == formatters[..i] + [formatters[i]];
          FirstParseAppend(parse, formatters[..i], formatters[i], date.value);
          if result.None? {
            result := parse(formatters[i], date.value);
          }
        }
        assert formatters[..|formatters|] == formatters;
      }
    }

    /** `toInstantUtc(date)`. */
    method ToInstantUtc(parse: (Formatter, string) -> Option<LocalDateTime>, date: Option<string>)
      returns (result: Option<Instant>)
      ensures result == InstantUtcOf(parse, formatters, date)
    {
      result := None;
      if !IsBlank(date) {
        var localDateTime := ToLocalDateTime(parse, date);
        if localDateTime.Some? {
          result := Some(AtUtc(localDateTime.value));
        }
      }
    }
  }
}
