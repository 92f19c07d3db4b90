/**
 * The catalog client of the onboarding probe: the URL it fetches an entry
 * from, the entry it keeps, the key-presence test on that entry and the age
 * in months of a date stored in it. The HTTP transport, the clock and the
 * date parser are parameters.
 */
module Catalog {
  import opened Json
  import opened Dates

  datatype Option<T> = None | Some(value: T)

  datatype Result<T, E> = Ok(value: T) | Err(error: E)

  /** A catalog entry: the JSON object decoded from the response body. */
  type Entry = map<string, JsonValue>

  /** The client after construction; no field changes afterwards. */
  datatype CatalogApi = CatalogApi(url: string, catalogId: string, timeout: int, data: Entry)

  /**
   * What one GET returns: a transport failure (connection, timeout, redirects,
   * or a body that does not decode after a success status) or a response with
   * its status and decoded body. An error status is always a `Response`,
   * whatever its body, since the body is decoded only after the status passed.
   */
  datatype HttpOutcome =
    | TransportFailure(reason: string)
    | Response(status: int, body: Entry)

  /** The cause carried by a `CriticalException`. */
  datatype CriticalError =
    | TransportError(reason: string)
    | HttpStatusError(status: int)

  /** Why `check_date_age` fails: `KeyError`, `TypeError` or `ValueError` out of the lookup and the parse. */
  datatype DateError =
    | MissingKey(key: string)
    | NotAString(value: JsonValue)
    | Unparsable(text: string, format: string)

  /** `str.endswith("/")`. */
  predicate EndsWithSlash(s: string) {
    |s| > 0 && s[|s| - 1] == '/'
  }

  /** The URL of one entry: the base endpoint and the id, with a `/` between them only if the base lacks one. */
  function RequestUrl(base: string, catalogId: string): (url: string)
    ensures |url| == |base| + |catalogId| + (if EndsWithSlash(base) then 0 else 1)
    ensures url[..|base|] == base
    ensures url[|url| - |catalogId|..] == catalogId
    ensures url[|url| - |catalogId| - 1] == '/'
  {
    if EndsWithSlash(base) then base + catalogId else base + "/" + catalogId
  }

  /** The four properties of `RequestUrl` leave no other URL possible. */
  lemma RequestUrlUnique(base: string, catalogId: string, url: string)
    requires |url| == |base| + |catalogId| + (if EndsWithSlash(base) then 0 else 1)
    requires url[..|base|] == base
    requires url[|url| - |catalogId|..] == catalogId
    requires url[|url| - |catalogId| - 1] == '/'
    ensures url == RequestUrl(base, catalogId)
  {
  }

  /** A base with a trailing slash and the same base without it address the same entry. */
  lemma RequestUrlTrailingSlash(base: string, catalogId: string)
    requires !EndsWithSlash(base)
    ensures RequestUrl(base + "/", catalogId) == RequestUrl(base, catalogId)
  {
  }

  /** Different ids under one base give different URLs. */
  lemma RequestUrlInjective(base: string, id1: string, id2: string)
    requires RequestUrl(base, id1) == RequestUrl(base, id2)
    ensures id1 == id2
  {
  }

  /** `raise_for_status`: a 4xx or 5xx status is an error. */
  predicate IsHttpError(status: int) {
    400 <= status < 600
  }

  /**
   * Construction of the client: one GET of the entry URL with the timeout.
   * A transport failure or an error status raises `CriticalException`;
   * otherwise the decoded body becomes `data`.
   */
  function Fetch(url: string, catalogId: string, timeout: int, get: (string, int) -> HttpOutcome)
    : (r: Result<CatalogApi, CriticalError>)
    ensures r.Ok? <==> get(RequestUrl(url, catalogId), timeout).Response?
                       && !IsHttpError(get(RequestUrl(url, catalogId), timeout).status)
    ensures r.Ok? ==> r.value.url == url && r.value.catalogId == catalogId && r.value.timeout == timeout
                      && r.value.data == get(RequestUrl(url, catalogId), timeout).body
    ensures get(RequestUrl(url, catalogId), timeout).TransportFailure? ==>
              r == Err(TransportError(get(RequestUrl(url, catalogId), timeout).reason))
    ensures get(RequestUrl(url, catalogId), timeout).Response? && IsHttpError(get(RequestUrl(url, catalogId), timeout).status) ==>
              r == Err(HttpStatusError(get(RequestUrl(url, catalogId), timeout).status))
  {
    match get(RequestUrl(url, catalogId), timeout)
    case TransportFailure(reason) => Err(TransportError(reason))
    case Response(status, body) =>
      if IsHttpError(status) then Err(HttpStatusError(status))
      else Ok(CatalogApi(url, catalogId, timeout, body))
  }

  /**
   * `key in self.data and self.data[key]`: Python's `and` yields `False` when
   * the key is absent, and the stored value itself otherwise.
   */
  function CheckKeyExists(c: CatalogApi, key: string): (r: JsonValue)
    ensures Truthy(r) <==> key in c.data && Truthy(c.data[key])
    ensures key !in c.data ==> r == Bool(false)
    ensures key in c.data ==> r == c.data[key]
  {
    if key in c.data then c.data[key] else Bool(false)
  }

  /** A present key "does not exist" exactly when its value is one of the six empty values. */
  lemma CheckKeyExistsEmptyValues(c: CatalogApi, key: string)
    requires key in c.data
    ensures !Truthy(CheckKeyExists(c, key)) <==> IsEmptyValue(c.data[key])
  {
  }

  /** `age_month`: the signed number of calendar months from `d` to `today`. */
  function AgeMonth(today: DateTime, d: DateTime): (age: int)
    ensures age == MonthIndex(CalendarMonth(today)) - MonthIndex(CalendarMonth(d))
  {
    (today.year - d.year) * 12 + today.month - d.month
  }

  /** The age reads only the year and month of both dates. */
  lemma AgeMonthIgnoresDayAndTime(today1: DateTime, today2: DateTime, d1: DateTime, d2: DateTime)
    requires CalendarMonth(today1) == CalendarMonth(today2)
    requires CalendarMonth(d1) == CalendarMonth(d2)
    ensures AgeMonth(today1, d1) == AgeMonth(today2, d2)
  {
  }

  /** The age is zero exactly when `d` falls in today's calendar month. */
  lemma AgeMonthZeroIffSameMonth(today: DateTime, d: DateTime)
    requires ValidMonth(CalendarMonth(today)) && ValidMonth(CalendarMonth(d))
    ensures AgeMonth(today, d) == 0 <==> CalendarMonth(d) == CalendarMonth(today)
  {
  }

  /** The age is negative exactly when `d`'s calendar month comes after today's. */
  lemma AgeMonthNegativeIffLater(today: DateTime, d: DateTime)
    requires ValidMonth(CalendarMonth(today)) && ValidMonth(CalendarMonth(d))
    ensures AgeMonth(today, d) < 0 <==> Before(CalendarMonth(today), CalendarMonth(d))
  {
  }

  /** Moving `d` one calendar month forward, December into January included, lowers the age by one. */
  lemma AgeMonthNextMonth(today: DateTime, d: DateTime, d': DateTime)
    requires ValidMonth(CalendarMonth(d))
    requires CalendarMonth(d') == NextMonth(CalendarMonth(d))
    ensures AgeMonth(today, d') == AgeMonth(today, d) - 1
  {
  }

  /** A non-negative age is the number of single-month steps from `d`'s month to today's. */
  lemma AgeMonthCountsSteps(today: DateTime, d: DateTime)
    requires ValidMonth(CalendarMonth(today)) && ValidMonth(CalendarMonth(d))
    requires AgeMonth(today, d) >= 0
    ensures Advance(CalendarMonth(d), AgeMonth(today, d)) == CalendarMonth(today)
  {
  }

  /**
   * `check_date_age`: look the key up, parse its string with the format and
   * return the age of the parsed date relative to `today`.
   */
  function CheckDateAge(c: CatalogApi, key: string, format: string,
                        parse: (string, string) -> Option<DateTime>, today: DateTime)
    : (r: Result<int, DateError>)
    ensures key !in c.data ==> r == Err(MissingKey(key))
    ensures key in c.data && !c.data[key].Str? ==> r == Err(NotAString(c.data[key]))
    ensures key in c.data && c.data[key].Str? && parse(c.data[key].s, format).None? ==>
              r == Err(Unparsable(c.data[key].s, format))
    ensures r.Ok? <==> key in c.data && c.data[key].Str? && parse(c.data[key].s, format).Some?
    ensures r.Ok? ==> r.value == MonthIndex(CalendarMonth(today))
                                 - MonthIndex(CalendarMonth(parse(c.data[key].s, format).value))
  {
    if key !in c.data then Err(MissingKey(key))
    else match c.data[key]
      case Str(text) =>
        (match parse(text, format)
         case None => Err(Unparsable(text, format))
         case Some(d) => Ok(AgeMonth(today, d)))
      case other => Err(NotAString(other))
  }
}
