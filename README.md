# TransLink API client: decoding and error layer

This project is a Dafny model of the part of the `tilapya` TransLink client
(and of its older copy, `tilapia`) that turns raw API responses into values.
It covers five pieces:

* **Relative time parsing.** `parse_leave_time` and `parse_last_update` read a
  12-hour clock string ("9:59pm 2018-02-13", "12:09am", "08:53:10 pm"). They
  splice its hour, minute and second onto a reference date-time, then shift
  the result by exactly one day where the function calls for it. The two
  packages differ in one respect: `tilapya` zeroes the microsecond and
  `tilapia` keeps the reference's.
* **Schema decoding.** Each `*Schema` class is a table of fields: key,
  coercion kind, required flag and nullable flag. Loading a JSON object with
  a table goes in three steps:
  1. look up every field;
  2. coerce it;
  3. build the record in `post_load`.
  Nested objects and lists load recursively and in order.
* **Error normalization.** `TransLinkAPIError(response)` computes the error's
  `code`, `message` and blurb, and `description` looks the code up in the
  `ErrorCodes` table.
* **Request shaping** in `TransLinkAPIBase`:
  * base-URL normalization;
  * the User-Agent string;
  * the query parameters and headers of a request;
  * the streamed-download loop;
  * the ok-or-raise routing of `_get_deserialized`.
* **The GTFS-realtime headers.** Response headers map onto a `Headers`
  record, and error responses are routed to an exception.

## How the model is organised

Module by module:

* **`Civil`.** Proleptic-Gregorian dates and times, with:
  * one-day steps that stop at years 1 and 9999, as Python's
    `OverflowError` does;
  * the naive comparison Python applies to two datetimes that share a
    tzinfo.
* **`Strptime`.** The three `strptime` formats the parsers use, with their
  maximal digit runs, case-blind `%p` and blank handling. Each is paired
  with a renderer, and round trips connect the two.
* **`RelativeTime`.** The two shifts: "tomorrow" and "most recent".
* **`TilapyaRtti` and `TilapiaRtti`.** The parsers of each package.
* **`Schemas`.** A generic field-table decoder. A `Ctx` carries the
  reference time, the abstract scalar coercions and the record-construction
  policy.
* **`RttiSchemas` and `TilapiaRtds`.** The tables.
* **`TilapyaErrors`.** `Normalize`, the `TransLinkAPIError` class, and the
  `ErrorCodes` table with its lookup.
* **`Ascii`.** ASCII case folding, shared by header names and strptime's `%p`.
* **`Http`.** The response value and its case-insensitive headers. `HeaderMap`, the type of a response's and a session's headers, holds only lower-cased names, as a `CaseInsensitiveDict` looks them up.
* **`TilapyaUtil`.** The class `TransLinkAPIBase`, whose methods change the
  caller's dicts and a byte sink in place.
* **`TilapyaGtfsrt` and `TilapiaGtfsrt`.** The header schema and the
  routing of each package.

## Model

| member | source | states |
|---|---|---|
| Civil.NextDateOrdinal | tilapya/rtti.py:221 | the day after a valid date is one day ordinal later and strictly after it, and is a valid date while the year stays at most 9999 |
| Civil.PrevDateOrdinal | tilapya/rtti.py:233 | the day before a valid date is one day ordinal earlier and strictly before it, and is a valid date while the year stays at least 1 |
| Civil.NextPrevInverse | tilapya/rtti.py:221-233 | one day forward then back, or back then forward, returns the same date |
| Civil.NothingBetweenPrevAndDate | tilapya/rtti.py:232-233 | no valid date lies strictly between the day before a date and the date itself |
| Civil.DateBeforeIsOrdinalOrder | tilapya/rtti.py:232 | the field-by-field order on valid dates is the order of their day ordinals, in both directions |
| Civil.DaysBeforeMonthMonotone | tilapya/rtti.py:221 | a month's first ordinal plus its length is at most the first ordinal of any later month in the same year |
| Civil.DaysBeforeYearMonotone | tilapya/rtti.py:221 | a year's first ordinal plus its length (366 in a Gregorian leap year, else 365) is at most the first ordinal of any later year |
| Civil.MonthDominates | tilapya/rtti.py:232 | in one year, an earlier month gives a smaller ordinal whatever the days |
| Civil.YearDominates | tilapya/rtti.py:232 | an earlier year gives a smaller ordinal whatever the month and day |
| Civil.BeforeIsStrictTotalOrder | tilapya/rtti.py:232 | the `>` the parser uses on datetimes is irreflexive and transitive, and any two datetimes are ordered unless their date and time are equal |
| Strptime.Number | tilapya/rtti.py:213 | a numeric directive's value lies in its range, it consumes between the minimum and maximum number of characters, and what it leaves is a suffix of the input |
| Strptime.To24 | tilapya/rtti.py:213 | a 12-hour reading from 1 to 12 gives an hour below 24 |
| Strptime.To24IsBijective | tilapya/rtti.py:213 | turning a 24-hour hour back into its 12-hour reading and meridiem gives the original reading and pm flag, and every hour below 24 comes from its own reading (12am is 0, 12pm is 12) |
| Strptime.ParseDateForm | tilapya/rtti.py:213 | "%I:%M%p %Y-%m-%d" yields a valid date and a valid clock with seconds 0, or nothing |
| Strptime.ParseTimeForm | tilapya/rtti.py:217 | "%I:%M%p" yields a valid clock with seconds 0, or nothing |
| Strptime.ParseSecondsForm | tilapya/rtti.py:229 | "%I:%M:%S %p" yields a valid clock, or nothing |
| Strptime.ParseTimeFormRoundTrip | tilapya/rtti.py:217 | parsing the rendering of a clock gives back that clock |
| Strptime.ParseDateFormRoundTrip | tilapya/rtti.py:213 | parsing the rendering of a date and clock gives back both |
| Strptime.ParseSecondsFormRoundTrip | tilapya/rtti.py:229 | parsing the rendering of a clock with seconds gives it back |
| Strptime.TimeFormIsNotDateForm | tilapya/rtti.py:212-217 | no string strptime accepts in the short form also matches the full form, so every short-form string reaches the `except` branch |
| Strptime.RenderedDateTime | tests/test_rtti.py:24 | "9:59pm 2018-02-13" is the rendering of 2018-02-13 21:59 |
| Strptime.RenderedTimes | tests/test_rtti.py:25-26 | "12:09am" and "10:00pm" are the renderings of 00:09 and 22:00 |
| Strptime.RenderedSeconds | tests/test_rtti.py:35-37 | "08:53:10 pm" and "01:00:00 am" are the renderings of 20:53:10 and 01:00:00 |
| Strptime.SecondsFormFixtures | tests/test_rtti.py:35-37 | those two strings parse to those clocks |
| RelativeTime.LocalizeFailsOnlyAtTheEnds | tilapya/rtti.py:213 | `TRANSLINK_TZ.localize` keeps the wall time and tags it with Vancouver; because pytz looks one day either side, it raises OverflowError exactly on 0001-01-01 and 9999-12-31 |
| RelativeTime.TomorrowIsNextDay | tilapya/rtti.py:218-222 | the shifted leave time is on the calendar day after the reference, has the spliced clock and the reference's zone, and is strictly after the reference; it overflows only on 9999-12-31 |
| RelativeTime.MostRecentInWindow | tilapya/rtti.py:230-234 | a last-update value has the spliced clock and the reference's zone, and lies in (reference - 1 day, reference]; it overflows only on 0001-01-01 when the splice is ahead |
| RelativeTime.MostRecentIsUnique | tilapya/rtti.py:230-234 | any valid date-time with that clock and zone in the window is the result |
| TilapyaRtti.FullFormIgnoresReference | tilapya/rtti.py:212-214 | any string strptime accepts in the full form gives its own date, hour and minute, with second and microsecond 0, in Vancouver, whatever the reference; it raises OverflowError exactly when the date is 0001-01-01 or 9999-12-31, which the `except ValueError` does not catch |
| TilapyaRtti.ShortFormIsTomorrow | tilapya/rtti.py:217-222 | any string strptime accepts in the short form gives the day after the reference, with its hour and minute and second and microsecond 0, even when that time is still ahead today; it fails exactly on 9999-12-31, with OverflowError |
| TilapyaRtti.LeaveTimeValueError | tilapya/rtti.py:212-217 | ValueError is raised exactly when the string is in neither leave-time form |
| TilapyaRtti.LastUpdateWindow | tilapya/rtti.py:225-234 | a non-matching string raises ValueError; otherwise the result has the string's clock, microsecond 0 and the reference's zone, lies in the window, and is the only such value |
| TilapyaRtti.FullFormFixture | tests/test_rtti.py:24 | "9:59pm 2018-02-13" measured from 2018-02-13 21:30 is 2018-02-13 21:59 |
| TilapyaRtti.ShortFormFixtures | tests/test_rtti.py:25-26 | "12:09am" and "10:00pm" measured from 2018-02-13 23:00 are 2018-02-14 00:09 and 2018-02-14 22:00 |
| TilapyaRtti.LastUpdateEveningFixture | tests/test_rtti.py:35 | "08:53:10 pm" measured from 2018-01-01 21:00 is 2018-01-01 20:53:10 |
| TilapyaRtti.LastUpdateAfterMidnightFixture | tests/test_rtti.py:36 | "08:53:10 pm" measured from 2018-01-02 00:30 is 2018-01-01 20:53:10 |
| TilapyaRtti.LastUpdateMorningFixture | tests/test_rtti.py:37 | "01:00:00 am" measured from 2018-01-02 00:30 is 2018-01-01 01:00:00 |
| TilapiaRtti.FullFormIgnoresReference | tilapia/rtti.py:55-57 | any full-form string strptime accepts comes straight from the string with seconds and microsecond 0, whatever the reference; it raises OverflowError exactly when the date is 0001-01-01 or 9999-12-31 |
| TilapiaRtti.ShortFormKeepsMicrosecond | tilapia/rtti.py:60-65 | any string strptime accepts in the short form gives the day after the reference with its hour and minute, second 0 and the reference's microsecond; it fails exactly on 9999-12-31, with OverflowError |
| TilapiaRtti.LastUpdateWindow | tilapia/rtti.py:68-77 | the last update keeps the reference's microsecond, lies in (reference - 1 day, reference] and is the only such value; a non-matching string raises ValueError |
| TilapiaRtti.LeaveTimeValueError | tilapia/rtti.py:55-60 | ValueError is raised exactly when the string is in neither leave-time form |
| TilapiaRtti.LeaveTimeAgreesUpToMicrosecond | tilapia/rtti.py:53-65 | zeroing the microsecond of this package's leave time gives `tilapya`'s result, including its errors |
| TilapiaRtti.LastUpdateAgreesUpToMicrosecond | tilapia/rtti.py:68-77 | the same holds for the last update: both packages pick the same day |
| TilapiaRtti.MostRecentUpToMicrosecond | tilapia/rtti.py:73-76 | splicing with the reference's microsecond leads to the same "today or yesterday" decision as splicing with 0 |
| Schemas.Loads | tilapya/_util.py:61 | text that is not JSON raises ValueError; a list where one object is expected, or the reverse, is a validation error; for parsed JSON the result succeeds exactly when the load does, with its value, a refused load is a ValidationError, and an exception raised inside the load (a Function field's ValueError, TypeError or OverflowError) escapes as itself |
| Schemas.DecodeFieldsOkIff | tilapya/rtti.py:192-203 | an object's fields decode exactly when every field is loaded or skipped |
| Schemas.DecodeFieldsContents | tilapya/rtti.py:192-203 | the decoded attributes are exactly the loaded fields, each with its decoded value |
| Schemas.FailingFieldFailsObject | tilapya/rtti.py:192-207 | one refused field fails the whole object, so no partial record is returned |
| Schemas.MissingOrNullFails | tilapya/rtti.py:193 | a missing required key, or a null in a field without `allow_none`, fails the object |
| Schemas.AllRequiredLoad | tilapya/rtti.py:192-207 | for an all-required table, a loaded object saw every key, and its record has exactly the table's attributes |
| Schemas.AllRequiredOkIff | tilapya/rtti.py:192-207 | for an all-required table, an object loads exactly when every field is accepted |
| Schemas.LoadedAttribute | tilapya/rtti.py:192-207 | a loaded attribute is None for a null in a nullable field, and the coerced value otherwise |
| Schemas.AbsentOptionalSkipped | tilapia/rtds.py:123-124 | an absent optional key leaves its attribute out |
| Schemas.PlainFieldNeverRaises | tilapya/rtti.py:192-203 | a field with a plain coercion can only refuse, never raise |
| Schemas.FirstEscapeWins | tilapya/rtti.py:240-248 | the first field, in declaration order, that raises decides the outcome, whatever refusals surround it |
| Schemas.DecodeItemsOkIff | tilapya/rtti.py:268 | a list's items decode exactly when each is an object whose fields decode; they give one attribute map per item, in order |
| Schemas.ConstructAllOkIff | tilapya/rtti.py:270-272 | records are built item by item in order, and the list builds exactly when each item does |
| Schemas.LoadListElementwise | tilapya/rtti.py:268 | a nested list loads exactly when every item loads on its own, giving the same records in the same order |
| Schemas.NestedAttribute | tilapya/rtti.py:267 | a nested-object attribute is the record its own schema loads |
| Schemas.NestedListAttribute | tilapya/rtti.py:268 | a nested-list attribute is the list of records its schema loads, item by item |
| Schemas.NestedFailureFails | tilapya/rtti.py:267 | a nested object that fails to load fails its container |
| Schemas.NestedItemFailureFails | tilapya/rtti.py:268 | one failing item of a nested list fails its container |
| Schemas.AgreeValue | tilapya/rtti.py:205-207 | the construction policy changes a value's decoding only where the written one escaped |
| Schemas.AgreeField | tilapya/rtti.py:205-207 | the same for one field |
| Schemas.AgreeFields | tilapya/rtti.py:205-207 | the same for a field table |
| Schemas.AgreeObject | tilapya/rtti.py:205-207 | the same for an object |
| Schemas.AgreeConstruct | tilapya/rtti.py:205-207 | filling absent attributes with None changes the built record only where `Record(**js)` raised |
| Schemas.AgreeItems | tilapya/rtti.py:268 | the same for a list's items |
| Schemas.AgreeConstructAll | tilapya/rtti.py:268-272 | the same for building a list of records |
| Schemas.AgreeList | tilapya/rtti.py:268 | the same for a nested list |
| Schemas.FillAbsentIsConservative | tilapia/rtds.py:126-128 | the corrected construction keeps every success and every validation error of the written one |
| Schemas.FilledLoad | tilapia/rtds.py:122-128 | corrected: an object loads exactly when every field is accepted, with one attribute per field, None where absent |
| Schemas.CompleteLoad | tilapia/rtds.py:122-128 | as written: an object whose fields are all accepted loads exactly when each was present, and otherwise raises TypeError |
| RttiSchemas.TablesWellFormed | tilapya/rtti.py:192-320 | every transit table has distinct names and only required fields |
| RttiSchemas.StopWellFormed | tilapya/rtti.py:192-203 | the stop table has distinct names and only required fields |
| RttiSchemas.ScheduleWellFormed | tilapya/rtti.py:237-248 | the same for the schedule table |
| RttiSchemas.BusWellFormed | tilapya/rtti.py:275-285 | the same for the bus table |
| RttiSchemas.EveryTableLoadsExactly | tilapya/rtti.py:192-320 | a successful load of any transit table saw every key and carries exactly the table's attributes |
| RttiSchemas.RouteMapNeedsAbsoluteUrl | tilapya/rtti.py:256 | a route map loads exactly when `Href` is a string the absolute-URL check accepts, and it keeps the string |
| RttiSchemas.StopEstimateNesting | tilapya/rtti.py:263-268 | a stop estimate carries its route map and schedules as their schemas load them, in order; a failing one fails it |
| RttiSchemas.RouteNesting | tilapya/rtti.py:303-307 | a route carries its patterns as the pattern schema loads them, in order; a failing one fails it |
| RttiSchemas.RouteMapNesting | tilapya/rtti.py:285-295 | a bus and a pattern carry the route map their nested schema loads; a failing one fails them |
| RttiSchemas.ScheduleLeaveTime | tilapya/rtti.py:240-241 | a loaded leave time is the parse function's result for its string, measured from now |
| RttiSchemas.ScheduleLastUpdate | tilapya/rtti.py:248 | a loaded last update is the last-update parse of its string |
| RttiSchemas.BusLoadedTime | tilapya/rtti.py:284 | a bus's recorded time is the last-update parse of its string |
| RttiSchemas.ScheduleLeaveTimeEscapes | tilapya/rtti.py:240-241 | a leave-time string the parser rejects raises out of the whole load, whatever the other fields hold |
| RttiSchemas.BusRecordedTimeEscapes | tilapya/rtti.py:284 | a rejected recorded-time string raises out of the bus load |
| TilapiaRtds.ResultTablesWellFormed | tilapia/rtds.py:80-119 | the live-data tables have distinct names and only required fields |
| TilapiaRtds.ReqAccepted | tilapia/rtds.py:89-92 | a required, non-nullable field is accepted exactly when its key is present, not null, and coercible |
| TilapiaRtds.ReqNullableAccepted | tilapia/rtds.py:93-95 | a required, nullable field is accepted exactly when its key is present and is null or coercible |
| TilapiaRtds.LinkInfoLoadsIff | tilapia/rtds.py:88-99 | a link loads exactly when its four plain fields are present, non-null and coercible, and its three nullable fields are present; a null loads as None |
| TilapiaRtds.TimestampRequiredNullable | tilapia/rtds.py:80-119 | in all three results `timestampUtc` must be present, a null loads as None, and a missing key fails the load |
| TilapiaRtds.NullTimestampLoads | tilapia/rtds.py:80-85 | a null timestamp loads as a record holding None |
| TilapiaRtds.LiveDataLinks | tilapia/rtds.py:102-119 | both live-data results carry `data` as the link schema loads its items, in order; one failing link fails the result |
| TilapiaRtds.PointNeedsCoordinates | tilapia/rtds.py:112-113 | the point result needs `x` and `y` present and non-null, and carries their coerced values |
| TilapiaRtds.LegendFields | tilapia/rtds.py:122-124 | a legend item's decoded attributes are its present string keys |
| TilapiaRtds.ColourLegendAsWritten | tilapia/rtds.py:122-128 | as written, an item loads exactly when both keys hold strings; an item missing a key raises TypeError |
| TilapiaRtds.ColourLegendMissingName | tilapia/rtds.py:122-128 | an item with only a colour raises TypeError |
| TilapiaRtds.ColourLegendOptional | tilapia/rtds.py:122-128 | corrected: an item loads exactly when its present keys hold strings, and an absent key gives None |
| PyJson.DigitString | tilapya/errors.py:20 | `str(n)` of a natural is a non-empty digit string whose decimal value is `n` and which has no leading zero, so it is the canonical numeral of `n` |
| TilapyaErrors.Normalize | tilapya/errors.py:19-37 | only a JSON body that is not an object fails, with AttributeError; every blurb starts "HTTP {status} Error" |
| TilapyaErrors.TransLinkAPIError.constructor | tilapya/errors.py:19-37 | the fields the constructor sets are the code, message and blurb `Normalize` gives |
| TilapyaErrors.NotJsonIsBare | tilapya/errors.py:20-35 | a body that is not JSON gives an empty code and message and the bare blurb |
| TilapyaErrors.CodeAndMessage | tilapya/errors.py:26-31 | with a Message, code and message are copied verbatim, and the blurb names the code only when it is truthy |
| TilapyaErrors.MessageWithoutCode | tilapya/errors.py:27-31 | with a Message and no Code, the code is '' and the blurb quotes the message alone |
| TilapyaErrors.CodeWithoutMessage | tilapya/errors.py:26-32 | without a Message, the code survives the KeyError, the message stays '' and the blurb ends in ": " |
| TilapyaErrors.BadKeyFixture | tilapya/errors.py:20-35 | a 403 whose body is not JSON gives empty code and message and the blurb "HTTP 403 Error" |
| TilapyaErrors.RttiErrorFixture | tests/test_rtti.py:237-244 | a 500 carrying code 10001 gives that code, the message and the blurb "HTTP 500 Error: code 10001 'Invalid API key'" |
| TilapyaErrors.DeclaredAscending | tilapya/errors.py:55-101 | the codes rise in declaration order |
| TilapyaErrors.ErrorCodesDistinct | tilapya/errors.py:55-101 | the declared codes are pairwise distinct |
| TilapyaErrors.NoInfoNoEntries | tilapya/errors.py:104 | a comprehension over objects that are not `ErrorCodeInfo` is empty |
| TilapyaErrors.CodeToDescAsWrittenIsEmpty | tilapya/errors.py:104 | as written, iterating the class `__dict__` yields names only, so the table is empty |
| TilapyaErrors.InvalidApiKeyUndescribed | tilapya/errors.py:104 | as written, the invalid-API-key code has description '' |
| TilapyaErrors.ComprehendLookup | tilapya/errors.py:104 | with distinct codes, the comprehension maps each info's code to its text, and holds nothing else |
| TilapyaErrors.ValuesOfClassDict | tilapya/errors.py:104 | the values of the class `__dict__` hold the declared infos in declaration order, and none of its other values is an info |
| TilapyaErrors.CodeToDescListsEveryCode | tilapya/errors.py:47-104 | corrected: the table describes every declared code, and only those |
| TilapyaErrors.DescriptionLooksUp | tilapya/errors.py:39-44 | corrected: with the table `_code_to_desc` evidently meant to build (see Findings), `description` gives a declared code's text, and '' for any other string |
| Ascii.LowerChar | tilapya/gtfsrt.py:72 | a lower-cased character is the same character up to ASCII case and is never an upper-case letter |
| Ascii.LowerCharIdempotent | tilapya/gtfsrt.py:72 | lower-casing a lower-cased character changes nothing |
| Ascii.LowerCharAgrees | tilapya/gtfsrt.py:72 | two characters lower-case alike exactly when they are one character or one letter in its two cases |
| Ascii.Lower | tilapya/gtfsrt.py:72 | a lower-cased name is a case variant of the name with no upper-case letter left |
| Ascii.LowerIsUnique | tilapya/gtfsrt.py:72 | `Lower`'s contract determines its result: it is the only case variant without upper-case letters |
| Ascii.LowerIdempotent | tilapya/gtfsrt.py:72 | lower-casing a lower-cased name changes nothing |
| Ascii.LowerAgrees | tilapya/gtfsrt.py:72 | two names lower-case alike exactly when they differ only in ASCII case |
| Http.HeaderIgnoresCase | tilapya/gtfsrt.py:72 | two spellings that differ only in ASCII case (`CaseVariant`, defined without lower-casing) find the same header |
| Http.HeaderFindsAnySpelling | tilapya/gtfsrt.py:72 | `headers.get(name)` returns a stored header under any spelling of its name, and returns nothing only when no stored name is a spelling of it |
| TilapyaUtil.UserAgent | tilapya/_util.py:10 | the product token is "tilapya/" followed by the version |
| TilapyaUtil.NormalizeBaseUrl | tilapya/_util.py:15-17 | the stored base URL ends with '/' |
| TilapyaUtil.NormalizeBaseUrlIdempotent | tilapya/_util.py:15-17 | normalizing twice changes nothing |
| TilapyaUtil.NormalizeBaseUrlAddsOneSlash | tilapya/_util.py:15-17 | a URL ending in '/' is kept, and any other gains exactly one '/' |
| TilapyaUtil.ParamDict.constructor | tilapya/_util.py:23 | a caller's params dict holds the given entries |
| TilapyaUtil.HeaderDict.constructor | tilapya/_util.py:23 | a caller's headers dict holds the given entries |
| TilapyaUtil.Session.constructor | tilapya/_util.py:20 | a session holds its default headers |
| TilapyaUtil.Sink.constructor | tilapya/_util.py:43 | the destination holds the given bytes |
| TilapyaUtil.TransLinkAPIBase.constructor | tilapya/_util.py:14-21 | the client keeps the normalized base URL and the key; it uses the given session or a fresh default one; its User-Agent is the session's (or '') plus ' ' plus the product token |
| TilapyaUtil.TransLinkAPIBase.Request | tilapya/_util.py:23-35 | the verb, base URL plus endpoint, and stream flag are passed on. The params are the caller's with `apikey` set and None values dropped. The headers are the caller's with User-Agent set. A non-empty caller dict is written to in place, and an empty or missing one is left alone |
| TilapyaUtil.OutgoingParamsContents | tilapya/_util.py:24-28 | `apikey` is the client's key, overriding the caller's, and is sent exactly when the key is not None; every other non-None entry is sent unchanged; nothing else is sent; no value is None |
| TilapyaUtil.TransLinkAPIBase.StreamedDownload | tilapya/_util.py:37-49 | an error response raises the normalized error before the destination is touched. Otherwise the destination holds the chunks' bytes in order, and the returned size is the sum of the non-empty chunks' lengths |
| TilapyaUtil.FlattenConcat | tilapya/_util.py:44-46 | the written bytes split over a split of the chunk sequence |
| TilapyaUtil.SizeIsWrittenLength | tilapya/_util.py:44-49 | the returned size is the number of bytes written |
| TilapyaUtil.ChunkPlacement | tilapya/_util.py:44-46 | each chunk lands in the file right after the chunks before it |
| TilapyaUtil.TransLinkAPIBase.GetJson | tilapya/_util.py:51-54 | a GET without streaming that asks for JSON, with the client's User-Agent and the shaped params |
| TilapyaUtil.RaiseFor | tilapya/_util.py:58-59 | the exception built for an error response is the one `Normalize` describes, or AttributeError for a JSON body that is not an object |
| TilapyaUtil.TransLinkAPIBase.GetDeserialized | tilapya/_util.py:56-61 | an error response raises before decoding, and an ok one gives `schema.loads` of its text |
| TilapyaUtil.ErrorResponseNotDecoded | tilapya/_util.py:58-59 | for an error response, the schema and `many` play no part in the outcome |
| TilapyaUtil.ErrorResponseRaises | tilapya/_util.py:58-59 | an error response raises the normalized `TransLinkAPIError` carrying its status, unless the body is JSON but not an object |
| TilapyaUtil.OkResponseDecoded | tilapya/_util.py:60-61 | an ok response gives exactly what the schema loads, errors included |
| TilapyaGtfsrt.HeaderView | tilapya/gtfsrt.py:72 | the schema sees exactly the headers it asks for that the response has, each under its header name, as a string |
| TilapyaGtfsrt.HeaderFields | tilapya/gtfsrt.py:43-47 | the five fields have distinct names, and each reads one of the five headers, is optional, and coerces to a string, an integer or a date |
| TilapyaGtfsrt.HeaderAttributeNames | tilapya/gtfsrt.py:43-47 | Content-Disposition, Content-Length, Content-Type, Date and Server map to the five attributes |
| TilapyaGtfsrt.HeaderFieldOutcome | tilapya/gtfsrt.py:43-47 | an absent header is skipped; a present one loads when it coerces and is refused otherwise; nothing raises |
| TilapyaGtfsrt.CoercesByField | tilapya/gtfsrt.py:43-47 | every field's header coerces exactly when Content-Length is an integer and Date an RFC 822 date, where present |
| TilapyaGtfsrt.PresentByField | tilapya/gtfsrt.py:43-47 | every field's header is present exactly when all five headers are |
| TilapyaGtfsrt.ExpectedValues | tilapya/gtfsrt.py:43-47 | attributes filled per field are the string, integer and date values of the five headers |
| TilapyaGtfsrt.HeadersOptional | tilapya/gtfsrt.py:42-51 | corrected: the headers load exactly when the present ones coerce, giving the `Headers` record with None for each absent one |
| TilapyaGtfsrt.HeadersAsWritten | tilapya/gtfsrt.py:42-51 | as written: headers that coerce load exactly when all five are present, and raise TypeError when one is absent |
| TilapyaGtfsrt.NoHeadersRaises | tilapya/gtfsrt.py:49-51 | as written, an ok response without any of the headers raises TypeError |
| TilapyaGtfsrt.HeadersLoad | tilapya/gtfsrt.py:68-72 | corrected: an ok response gives the `Headers` record exactly when its headers coerce, and a validation error otherwise |
| TilapyaGtfsrt.NoRaiseNoEscape | tilapya/gtfsrt.py:43-47 | when no field of a table raises, decoding the table never lets an exception escape |
| TilapyaGtfsrt.ErrorResponseSkipsHeaders | tilapya/gtfsrt.py:70-71 | an error response raises the normalized error, and its headers and chunks play no part |
| TilapyaGtfsrt.BadKeyRaises | tilapya/gtfsrt.py:68-72 | a 403 with a non-JSON body raises with status 403 and a falsy code and message |
| TilapiaGtfsrt.RaiseForStatus | tilapia/gtfsrt.py:33-34 | `raise_for_status` raises `HTTPError` with the status exactly for responses that are not ok |
| TilapiaGtfsrt.ErrorResponseRaisesHTTPError | tilapia/gtfsrt.py:33-34 | an error response raises `HTTPError` with its 4xx or 5xx status, before any header is looked at |
| TilapiaGtfsrt.OkResponseAgreesWithTilapya | tilapia/gtfsrt.py:31-35 | on an ok response both packages give the same record or the same schema error: the mapping is the same |
| TilapiaGtfsrt.HeadersLoad | tilapia/gtfsrt.py:9-18 | corrected: headers that coerce give the `Headers` record, with None for absent ones; otherwise a validation error |
| TilapiaGtfsrt.MissingHeaderRaises | tilapia/gtfsrt.py:16-18 | as written, coercible headers with one missing raise TypeError |

## Left out

- Transport: `Session.request`, `response.json()` and `iter_content` are not modelled. A response is a value holding a status, a body (not JSON, or a JSON value), lower-cased headers and a chunk sequence. `TransLinkAPIBase.Request` returns the request it would send.
- File I/O: the destination file of `_streamed_download` is a byte sink that the method truncates and appends to.
- Current time: `datetime.now(TRANSLINK_TZ)` is not modelled, so the reference time is always a parameter. The marshmallow `Function` fields behave the same way, because they call the parser with the empty context, which is falsy.
- Time zones: pytz zone rules, `localize` offsets and DST are out. A zone is an opaque tag. What `localize` does model is its OverflowError: pytz probes one day either side of the wall time, so the first and last representable days cannot be localized (`RelativeTime.Localize`). This is faithful because `replace` and `timedelta` on an aware datetime are naive civil arithmetic that keeps the tzinfo.
- Floating point: float fields keep the text of their JSON value; their arithmetic is not modelled.
- Scalar coercions: marshmallow's Boolean truth sets, its URL pattern, its ISO 8601 parser and its RFC 822 date parser are abstract functions in the context. Each either accepts a value or refuses it.
- Unknown keys: the model ignores them. marshmallow's policy for them depends on its version.
- Library versions: `load_from` versus `data_key`, and the `post_load` signature (whether `make_obj` takes `**kwargs`), are version-dependent. The model follows the documented key mapping and calls `post_load` with the attributes only.
- Façade methods (`RTTI.stop`, `RTDS.tile`, `GTFSRT.headers_realtime`, ...) are not modelled. They only format a path and delegate to a modelled operation.
- Missing files: `tilapia/errors.py` and `tilapia/_util.py` are not part of this model. The older package's error routing is modelled only where its own file shows it (`raise_for_status`).
- Package version and session headers: `tilapya.__version__` and the default headers of `requests.Session()` are constructor parameters.
- Header merging: how `Session.request` merges the session's headers with the request's is transport behaviour.
- Server behaviour: which error code the API returns, `content_length > 0` in the feed tests, and the five-digit bus rejection are properties of the server.
- Character folding: only ASCII digits and ASCII case folding are modelled. Python's `str.lower` and `strptime` accept more of Unicode.
- String conversion: `Str` prints strings, integers, booleans and None as Python does. For a list or dict code or message it gives a fixed placeholder rather than Python's `repr`.
- TilapyaUtil.OutgoingParams: a Dafny `map` has no order, so the model does not state the order of the query string. `requests` encodes the params in the dict's insertion order, and an `apikey` the caller did not supply comes after the caller's own keys.
- TilapyaErrors.TransLinkAPIError.Description: looks the code up in the corrected table of the first finding below, not in the empty table the source builds. The as-written result, '' for every code, is stated by `TilapyaErrors.CodeToDescAsWrittenIsEmpty` and `TilapyaErrors.InvalidApiKeyUndescribed`.
- Older package's invalid-key test: tests/test_gtfsrt.py:44-49 expects `tilapia.errors.TransLinkAPIError` from the older package's `GTFSRT`, but tilapia/gtfsrt.py:33-34 calls `raise_for_status`, which raises `HTTPError`. The exception type must then come from `tilapia/_util.py`, which is not part of this model, so that test is not stated. The newer package's counterpart is `TilapyaGtfsrt.BadKeyRaises`.
- TilapyaErrors.TransLinkAPIError.constructor: requires a body that is not a non-object JSON value. The AttributeError such a body raises is stated by `Normalize` instead.

## Findings

| source | as written | input that shows it | evidently intended | confidence | as-written member | corrected member |
|---|---|---|---|---|---|---|
| tilapya/errors.py:104 | `_code_to_desc` iterates `ErrorCodes.__dict__`, which yields attribute names, so the `isinstance` test never holds and the table is empty | `description` of an error with code '10001' is '' | iterate `__dict__.values()`, giving every declared code its text | high (proved; not executed) | TilapyaErrors.CodeToDescAsWrittenIsEmpty | TilapyaErrors.CodeToDescListsEveryCode |
| tilapia/rtds.py:122-128 | both legend fields are optional, but `ColourLegendItem(**js)` needs both attributes, so an item missing a key raises TypeError | the legend item `{"colour": "#FF0000"}` | absent fields become None | medium (proved against marshmallow 3's skipping of absent fields; not executed) | TilapiaRtds.ColourLegendMissingName | TilapiaRtds.ColourLegendOptional |
| tilapya/gtfsrt.py:42-51 | all five header fields are optional, but `Headers(**js)` needs all five attributes, so a response lacking one header raises TypeError | an ok response with no headers at all | absent headers become None | medium (proved against marshmallow 3's skipping of absent fields; not executed) | TilapyaGtfsrt.NoHeadersRaises | TilapyaGtfsrt.HeadersOptional |
