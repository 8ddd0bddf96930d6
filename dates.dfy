/** `parse_publish_date`: turning the `publish_date` value of a scraped page into a
    timezone-aware datetime, or into nothing. */
module Dates {
  import opened Values

  /** A datetime: its wall-clock reading (an abstract count, e.g. microseconds) and the
      UTC offset it carries, or `None` for a naive datetime. */
  datatype DateTime = DateTime(wallClock: int, offset: Option<int>)

  predicate IsAware(d: DateTime)
  {
    d.offset.Some?
  }

  /** What Django's `parse_datetime` does with a string: no match (it returns None),
      a match, or a well-formed string naming an impossible date (it raises ValueError). */
  datatype ParseAttempt = Matched(dt: DateTime) | NoMatch | Invalid

  /** The library code `parse_publish_date` relies on, whose internals are not modelled:
      Django's `parse_datetime`; `datetime.strptime` with one format, giving the naive wall
      clock or nothing when it raises ValueError; and the UTC offset the default time zone
      has at a given wall-clock reading, which `timezone.make_aware` attaches (it varies
      with daylight saving). */
  datatype DateLibrary = DateLibrary(
    parseDatetime: string -> ParseAttempt,
    strptime: (string, string) -> Option<int>,
    offsetAt: int -> int)

  /** The value handed over: decoded JSON from a scraped page, or a `datetime` object. */
  datatype DateInput = FromJson(json: Json) | FromDateTime(dt: DateTime)

  /** Either the function's return value, or the ValueError that escapes from it. */
  datatype DateOutcome = Returned(value: Option<DateTime>) | Raised

  /** The fallback formats, tried in this order. */
  const DateFormats: seq<string> := [
    "%Y-%m-%d %H:%M:%S",
    "%Y-%m-%d",
    "%Y-%m-%dT%H:%M:%S",
    "%Y-%m-%dT%H:%M:%SZ",
    "%Y-%m-%dT%H:%M:%S.%f",
    "%Y-%m-%dT%H:%M:%S.%fZ"
  ]

  /** `timezone.make_aware`: a naive reading gets the default zone's offset at that reading. */
  function MakeAware(wallClock: int, lib: DateLibrary): (d: DateTime)
    ensures IsAware(d) && d.wallClock == wallClock
  {
    DateTime(wallClock, Some(lib.offsetAt(wallClock)))
  }

  /** The `for fmt in date_formats` loop: the first format `strptime` accepts. */
  function TryFormats(s: string, formats: seq<string>, lib: DateLibrary): (r: Option<int>)
    ensures r.None? <==> forall i :: 0 <= i < |formats| ==> lib.strptime(s, formats[i]).None?
    ensures r.Some? ==> exists i :: 0 <= i < |formats| && lib.strptime(s, formats[i]) == r
  {
    if formats == [] then None
    else if lib.strptime(s, formats[0]).Some? then lib.strptime(s, formats[0])
    else
      var r := TryFormats(s, formats[1..], lib);
      assert forall i :: 1 <= i < |formats| ==> formats[i] == formats[1..][i - 1];
      r
  }

  function ParsePublishDate(input: DateInput, lib: DateLibrary): (r: DateOutcome)
    // A falsy value gives None.
    ensures input.FromJson? && !Truthy(input.json) ==> r == Returned(None)
    // Every datetime handed back is timezone-aware.
    ensures r.Returned? && r.value.Some? ==> IsAware(r.value.value)
    // An aware datetime is handed back unchanged; a naive one keeps its wall clock.
    ensures input.FromDateTime? && IsAware(input.dt) ==> r == Returned(Some(input.dt))
    ensures input.FromDateTime? ==> r.Returned? && r.value.Some? && r.value.value.wallClock == input.dt.wallClock
    ensures input.FromDateTime? && !IsAware(input.dt) ==> r == Returned(Some(MakeAware(input.dt.wallClock, lib)))
    // A string `parse_datetime` matches is handed back, made aware when it is naive.
    ensures input.FromJson? && input.json.JStr? && input.json.s != "" && lib.parseDatetime(input.json.s).Matched? ==>
              var dt := lib.parseDatetime(input.json.s).dt;
              r == Returned(Some(if IsAware(dt) then dt else MakeAware(dt.wallClock, lib)))
    // A string that neither `parse_datetime` nor any fallback format reads gives None.
    ensures input.FromJson? && input.json.JStr? && lib.parseDatetime(input.json.s).NoMatch?
              && TryFormats(input.json.s, DateFormats, lib).None?
            ==> r == Returned(None)
    // Only `parse_datetime` rejecting an impossible date raises; every other failure gives None.
    ensures r.Raised? <==>
              (input.FromJson? && input.json.JStr? && input.json.s != ""
               && lib.parseDatetime(input.json.s).Invalid?)
    // A truthy value that is neither a string nor a datetime gives None.
    ensures input.FromJson? && !input.json.JStr? ==> r == Returned(None)
  {
    match input
    case FromDateTime(dt) =>
      if dt.offset.None? then Returned(Some(MakeAware(dt.wallClock, lib))) else Returned(Some(dt))
    case FromJson(j) =>
      if !Truthy(j) || !j.JStr? then Returned(None)
      else
        match lib.parseDatetime(j.s)
        case Invalid => Raised
        case Matched(dt) =>
          if dt.offset.None? then Returned(Some(MakeAware(dt.wallClock, lib))) else Returned(Some(dt))
        case NoMatch =>
          match TryFormats(j.s, DateFormats, lib)
          case None => Returned(None)
          case Some(w) => Returned(Some(MakeAware(w, lib)))
  }

  /** The formats are tried in list order: when `parse_datetime` finds no match, the first
      format that `strptime` accepts decides the result. */
  lemma {:induction false} FirstFormatWins(s: string, formats: seq<string>, lib: DateLibrary, k: nat)
    requires k < |formats|
    requires forall i :: 0 <= i < k ==> lib.strptime(s, formats[i]).None?
    requires lib.strptime(s, formats[k]).Some?
    ensures TryFormats(s, formats, lib) == lib.strptime(s, formats[k])
    decreases k
  {
    if k > 0 {
      assert forall i :: 0 <= i < k - 1 ==> formats[1..][i] == formats[i + 1];
      FirstFormatWins(s, formats[1..], lib, k - 1);
    }
  }

  /** A non-empty string that `parse_datetime` does not match is read with the first
      accepting fallback format and made aware. */
  lemma FallbackFormats(s: string, lib: DateLibrary, k: nat)
    requires s != [] && lib.parseDatetime(s).NoMatch?
    requires k < |DateFormats|
    requires forall i :: 0 <= i < k ==> lib.strptime(s, DateFormats[i]).None?
    requires lib.strptime(s, DateFormats[k]).Some?
    ensures ParsePublishDate(FromJson(JStr(s)), lib)
            == Returned(Some(DateTime(lib.strptime(s, DateFormats[k]).value, Some(lib.offsetAt(lib.strptime(s, DateFormats[k]).value)))))
  {
    FirstFormatWins(s, DateFormats, lib, k);
  }
}
