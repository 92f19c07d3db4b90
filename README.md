# Catalog client of the onboarding probe, in Dafny

The onboarding probe checks one entry of a service catalog. Its catalog client
(`modules/catalog.py`) builds the entry's URL from the base endpoint and the
entry id, fetches the entry once as a JSON object, and then answers two
questions about it:
- does a key "exist", meaning it is present and its value is truthy in Python's sense?
- how many calendar months old is a date stored under a key?

This project models that client as pure functions over an immutable
`CatalogApi` record. The record holds `url`, `catalogId`, `timeout` and
`data`, and no field changes after construction. The HTTP transport, the
clock (`today`) and the date parser are function parameters.

- `json.dfy` (module `Json`): decoded JSON values and Python's truth test on them.
- `dates.dfy` (module `Dates`): the year and month fields of a `datetime`.
  It places calendar months on one line (`MonthIndex`, with the inverse
  `FromIndex`). It steps one month at a time with `NextMonth` and `Advance`.
- `catalog.dfy` (module `Catalog`): the client itself. It covers the URL join,
  the fetch, `check_key_exists`, `check_date_age` and its nested `age_month`.

Two behaviours of the code are kept as written:
- `check_key_exists` returns Python's `and` value. That is `False` for an
  absent key and the stored value itself otherwise, not a boolean.
  `CheckKeyExists` returns that `JsonValue`, and its truth is what callers test.
- `check_date_age` does not raise `CriticalException` for a missing key or an
  unparsable date. The lookup raises `KeyError`. A non-string value makes
  `strptime` raise `TypeError`, and a mismatch with the format raises
  `ValueError`. `CheckDateAge` keeps these as three separate `DateError` cases.

## Model

| member | source | states |
|---|---|---|
| Catalog.RequestUrl | modules/catalog.py:19-23 | the URL starts with the base and ends with the id. The character just before the id is `/`. The length adds one character only when the base does not end with `/`, so the join adds no slash of its own when the base already ends with one |
| Catalog.RequestUrlUnique | modules/catalog.py:19-23 | any string with those four properties is the request URL, so they pin it down completely: base ++ id when the base ends with `/`, else base ++ "/" ++ id |
| Catalog.RequestUrlTrailingSlash | modules/catalog.py:19-23 | a base with a trailing slash and the same base without one give the same request URL |
| Catalog.RequestUrlInjective | modules/catalog.py:19-23 | two different ids under one base never give the same URL |
| Catalog.Fetch | modules/catalog.py:12-40 | construction succeeds exactly when the GET of the joined URL returns a response whose status is not 4xx/5xx. The client then holds the decoded body as `data`, with url, id and timeout unchanged. A transport failure becomes a critical error carrying its reason, and a 4xx/5xx status a critical error carrying that status |
| Catalog.CheckKeyExists | modules/catalog.py:42-43 | the result is truthy exactly when the key is present and its value is truthy. An absent key yields `False` without a lookup, and a present key yields the stored value itself |
| Catalog.CheckKeyExistsEmptyValues | modules/catalog.py:43 | a present key counts as missing exactly when its value is null, false, 0, "", [] or {} |
| Json.TruthyIffNotEmptyValue | modules/catalog.py:43 | Python truthiness of a JSON value is the same as not being one of the six empty values |
| Catalog.AgeMonth | modules/catalog.py:63-65 | the age is the difference of the linear month indices `year*12 + month` of today and of the date |
| Catalog.AgeMonthIgnoresDayAndTime | modules/catalog.py:63-65 | the age depends only on the year and month of both dates, never on day or time |
| Catalog.AgeMonthZeroIffSameMonth | modules/catalog.py:63-65 | the age is zero exactly when the date falls in today's calendar month |
| Catalog.AgeMonthNegativeIffLater | modules/catalog.py:63-65 | the age is negative exactly when the date's (year, month) comes after today's |
| Catalog.AgeMonthNextMonth | modules/catalog.py:65 | moving the date forward one calendar month lowers the age by exactly 1, December into January of the next year included |
| Catalog.AgeMonthCountsSteps | modules/catalog.py:65 | a non-negative age is the number of one-month steps from the date's month to today's month |
| Catalog.CheckDateAge | modules/catalog.py:62-71 | the result is an age exactly when the key is present, its value is a string and the parser accepts it with the format. The age is then the month-index difference between today and the parsed date. An absent key, a non-string value and a string the parser rejects each give their own error |
| Dates.FromIndex | modules/catalog.py:65 | every integer is the month index `year*12 + month` of a calendar month with its month in 1..12 |
| Dates.MonthIndexInjective | modules/catalog.py:65 | two calendar months with months in 1..12 and the same month index are the same month, so an age of zero means the same month |
| Dates.IndexRoundTrip | modules/catalog.py:65 | the month index and `FromIndex` are inverse, so the month index numbers calendar months one to one |
| Dates.AdvanceAdds | modules/catalog.py:65 | stepping m months and then n more is stepping m + n months, so ages add up along a chain of dates |
| Dates.BeforeIffSmallerIndex | modules/catalog.py:63-65 | calendar order (year first, then month) is the order of month indices, which is the sign test on the age |

## Left out

- `check_url_valid` (modules/catalog.py:45-60) is left out. It is one HTTP GET of the value under a key plus the library's exception handling. Apart from the transport it has no logic of its own.
- `get_today` (modules/catalog.py:7-8) reads the wall clock. It is left out, and `today` is a parameter of `AgeMonth` and `CheckDateAge`.
- `datetime.datetime.strptime` (modules/catalog.py:67-69) is not modelled. `CheckDateAge` takes the parser as a parameter that returns the parsed date or nothing.
- `requests.get`, `raise_for_status`, `response.ok` and `response.json()` (modules/catalog.py:25-40) are modelled only by their outcome. The `get` parameter returns a transport failure or a status with a decoded body. `response.ok` is always true once `raise_for_status` has not raised, so the implicit `None` return of `_get_data` cannot occur and is not modelled.
- Fetch: a body that does not decode is folded into a transport failure. That is how newer `requests` versions report it. Older versions raise `ValueError`, which escapes as a non-critical error, and that is not distinguished. A body that decodes to something other than a JSON object is not modelled either.
- Floating-point JSON numbers and `datetime` microseconds are not modelled. Neither changes the truth test on integers or the month arithmetic.
- Python `datetime` restricts years to 1..9999. The model only requires months to lie in 1..12. The age formula does not depend on the year range.
- The timeout is carried as an integer and passed to the transport unchanged.
- The status aggregator and the command-line driver are not part of this model. These are the age-threshold classification, argument validation and exit codes.
