/**
  `tilapya.errors`: how an error response of the TransLink API becomes a
  `TransLinkAPIError` (its code, message and blurb), and the table of
  documented RTTI error codes behind `description`.
*/
module TilapyaErrors {
  import opened Wrappers
  import opened Exceptions
  import opened PyJson

  /** What the constructor leaves in `code`, `message` and the exception text. */
  datatype Normalized = Normalized(code: Json, message: Json, blurb: string)

  /** `'HTTP {} Error'.format(response.status_code)`. */
  function StatusBlurb(status: int): string {
    "HTTP " + IntString(status) + " Error"
  }

  /** `js.get(key, default)` on a JSON object. */
  function Get(o: map<string, Json>, key: string, default: Json): Json {
    if key in o then o[key] else default
  }

  /** A JSON body that is not an object has no `get`: AttributeError, which the `except` does not catch. */
  predicate RaisesAttributeError(body: Body) {
    body.Parsed? && !body.json.JObject?
  }

  /**
    The specification of the constructor.  A body that is not JSON stops at
    `response.json()` (ValueError, swallowed); an object without `Message`
    stops at `js['Message']` (KeyError, swallowed) after `Code` is already
    stored and `': '` already appended.
  */
  function Normalize(status: int, body: Body): (r: Result<Normalized, PyException>)
    ensures r.Failure? <==> RaisesAttributeError(body)
    ensures r.Failure? ==> r.error == AttributeError
    ensures r.Success? ==> StatusBlurb(status) <= r.value.blurb
  {
    match body
    case NotJson => Success(Normalized(JString(""), JString(""), StatusBlurb(status)))
    case Parsed(js) =>
      if !js.JObject? then Failure(AttributeError)
      else
        var code := Get(js.fields, "Code", JString(""));
        if "Message" !in js.fields then Success(Normalized(code, JString(""), StatusBlurb(status) + ": "))
        else
          var message := js.fields["Message"];
          var withCode := if Truthy(code) then StatusBlurb(status) + ": " + "code " + Str(code) + " " else StatusBlurb(status) + ": ";
          Success(Normalized(code, message, withCode + "'" + Str(message) + "'"))
  }

  /** The exception raised for an error response. */
  class TransLinkAPIError {
    var status: int
    var body: Body
    var code: Json
    var message: Json
    var blurb: string

    /** `TransLinkAPIError(response)`: the response is its status and body. */
    constructor (status: int, body: Body)
      requires !RaisesAttributeError(body)
      ensures this.status == status && this.body == body
      ensures Normalize(status, body) == Success(Normalized(code, message, blurb))
    {
      this.status := status;
      this.body := body;
      code := JString("");
      message := JString("");
      blurb := StatusBlurb(status);
      new;
      if body.Parsed? {
        var js := body.json.fields;
        blurb := blurb + ": ";
        code := Get(js, "Code", JString(""));
        if "Message" in js {
          message := js["Message"];
          if Truthy(code) {
            blurb := blurb + "code " + Str(code) + " ";
          }
          blurb := blurb + "'" + Str(message) + "'";
        }
      }
    }

    /** The `description` property: the corrected table's entry for the code. */
    function Description(): Result<string, PyException>
      reads this
    {
      Describe(code, CodeToDesc)
    }
  }

  /** A body that is not JSON leaves code and message empty and the blurb bare. */
  lemma NotJsonIsBare(status: int)
    ensures Normalize(status, NotJson) == Success(Normalized(JString(""), JString(""), StatusBlurb(status)))
  {
  }

  /**
    An object with both keys: code and message are copied verbatim, and the
    blurb names the code only when it is truthy.
  */
  lemma CodeAndMessage(status: int, o: map<string, Json>)
    requires "Message" in o
    ensures var r := Normalize(status, Parsed(JObject(o)));
      && r.Success?
      && r.value.code == Get(o, "Code", JString(""))
      && r.value.message == o["Message"]
      && (Truthy(r.value.code) ==>
            r.value.blurb == StatusBlurb(status) + ": " + "code " + Str(r.value.code) + " " + "'" + Str(o["Message"]) + "'")
      && (!Truthy(r.value.code) ==>
            r.value.blurb == StatusBlurb(status) + ": " + "'" + Str(o["Message"]) + "'")
  {
  }

  /** An object with a message but no code: the code is '' and the blurb quotes the message alone. */
  lemma MessageWithoutCode(status: int, o: map<string, Json>)
    requires "Message" in o && "Code" !in o
    ensures Normalize(status, Parsed(JObject(o))) ==
      Success(Normalized(JString(""), o["Message"], StatusBlurb(status) + ": " + "'" + Str(o["Message"]) + "'"))
  {
    CodeAndMessage(status, o);
  }

  /**
    An object with a code but no message: the code survives the KeyError, the
    message stays '' and the blurb ends in ": ".
  */
  lemma CodeWithoutMessage(status: int, o: map<string, Json>)
    requires "Message" !in o
    ensures Normalize(status, Parsed(JObject(o))) ==
      Success(Normalized(Get(o, "Code", JString("")), JString(""), StatusBlurb(status) + ": "))
  {
  }

  /** Fixture: a GTFS-realtime request with a bad key is a 403 whose body is not JSON. */
  lemma BadKeyFixture()
    ensures Normalize(403, NotJson) == Success(Normalized(JString(""), JString(""), "HTTP 403 Error"))
  {
    assert IntString(403) == "403" by {
      assert DigitString(4) == "4" && DigitString(40) == "40";
    }
    assert "HTTP " + "403" == "HTTP 403";
    assert "HTTP 403" + " Error" == "HTTP 403 Error";
  }

  /** Fixture: an RTTI error body with code 10001 gives the code and the quoted message. */
  lemma RttiErrorFixture()
    ensures Normalize(500, Parsed(JObject(map["Code" := JString("10001"), "Message" := JString("Invalid API key")]))) ==
      Success(Normalized(JString("10001"), JString("Invalid API key"), "HTTP 500 Error: code 10001 'Invalid API key'"))
  {
    var o := map["Code" := JString("10001"), "Message" := JString("Invalid API key")];
    assert Get(o, "Code", JString("")) == JString("10001") && o["Message"] == JString("Invalid API key");
    CodeAndMessage(500, o);
    RttiErrorBlurb();
  }

  /** Helper of `RttiErrorFixture`: the blurb pieces join into the expected text. */
  lemma RttiErrorBlurb()
    ensures StatusBlurb(500) + ": " + "code " + "10001" + " " + "'" + "Invalid API key" + "'" ==
      "HTTP 500 Error: code 10001 'Invalid API key'"
  {
    assert IntString(500) == "500" by {
      assert DigitString(5) == "5" && DigitString(50) == "50";
    }
    assert StatusBlurb(500) == "HTTP 500 Error" by {
      assert "HTTP " + "500" == "HTTP 500";
      assert "HTTP 500" + " Error" == "HTTP 500 Error";
    }
    assert "HTTP 500 Error" + ": " == "HTTP 500 Error: ";
    assert "HTTP 500 Error: " + "code " == "HTTP 500 Error: code ";
    assert "HTTP 500 Error: code " + "10001" == "HTTP 500 Error: code 10001";
    assert "HTTP 500 Error: code 10001" + " " == "HTTP 500 Error: code 10001 ";
    assert "HTTP 500 Error: code 10001 " + "'" == "HTTP 500 Error: code 10001 '";
    assert "HTTP 500 Error: code 10001 '" + "Invalid API key" == "HTTP 500 Error: code 10001 'Invalid API key";
    assert "HTTP 500 Error: code 10001 'Invalid API key" + "'" == "HTTP 500 Error: code 10001 'Invalid API key'";
  }

  // ---------------------------------------------------------------------
  // Error codes

  datatype ErrorCodeInfo = ErrorCodeInfo(code: string, desc: string)

  // The attributes `ErrorCodes` declares, in order, with their values, in the groups of its comments.

  const General: seq<(string, ErrorCodeInfo)> := [
    ("invalid_api_key", ErrorCodeInfo("10001", "Invalid API key")),
    ("db_error", ErrorCodeInfo("10002", "Database connection error"))
  ]

  const StopLookups: seq<(string, ErrorCodeInfo)> := [
    ("stop_invalid_stop", ErrorCodeInfo("1001", "Invalid stop number")),
    ("stop_stop_not_found", ErrorCodeInfo("1002", "Stop number not found")),
    ("stop_unknown_stop_check", ErrorCodeInfo("1003", "Unknown stop check error")),
    ("stop_unknown_get_stop", ErrorCodeInfo("1004", "Unknown get stop error"))
  ]

  const StopSearches: seq<(string, ErrorCodeInfo)> := [
    ("stop_invalid_coord", ErrorCodeInfo("1011", "Invalid latitude/longitude")),
    ("stop_no_stops_found", ErrorCodeInfo("1012", "No stops found")),
    ("stop_unknown_get", ErrorCodeInfo("1013", "Unknown get stops error")),
    ("stop_radius_too_large", ErrorCodeInfo("1014", "Radius too large")),
    ("stop_invalid_route", ErrorCodeInfo("1015", "Invalid route number"))
  ]

  const Stops := StopLookups + StopSearches

  const BusLookups: seq<(string, ErrorCodeInfo)> := [
    ("bus_invalid_bus", ErrorCodeInfo("2001", "Invalid bus number")),
    ("bus_bus_not_found", ErrorCodeInfo("2002", "Bus number not found")),
    ("bus_unknown_get_bus", ErrorCodeInfo("2003", "Unknown get bus error"))
  ]

  const BusSearches: seq<(string, ErrorCodeInfo)> := [
    ("bus_no_buses_found", ErrorCodeInfo("2011", "No buses found")),
    ("bus_unknown_get_bus_by_stop", ErrorCodeInfo("2012", "Unknown get buses by stop error")),
    ("bus_unknown_get_bus_by_route", ErrorCodeInfo("2013", "Unknown get buses by route error")),
    ("bus_invalid_stop", ErrorCodeInfo("2014", "Invalid stop number")),
    ("bus_invalid_route", ErrorCodeInfo("2015", "Invalid route number")),
    ("bus_stop_not_found", ErrorCodeInfo("2016", "Stop number not found")),
    ("bus_route_not_found", ErrorCodeInfo("2017", "Route number not found")),
    ("bus_unknown_get_bus_by_stop_and_route", ErrorCodeInfo("2018", "Unknown get buses by stop and route error"))
  ]

  const Buses := BusLookups + BusSearches

  const Estimates: seq<(string, ErrorCodeInfo)> := [
    ("est_invalid_stop", ErrorCodeInfo("3001", "Invalid stop number")),
    ("est_stop_not_found", ErrorCodeInfo("3002", "Stop number not found")),
    ("est_unknown", ErrorCodeInfo("3003", "Unknown get estimates error")),
    ("est_invalid_route", ErrorCodeInfo("3004", "Invalid route")),
    ("est_no_estimates", ErrorCodeInfo("3005", "No stop estimates found")),
    ("est_invalid_time", ErrorCodeInfo("3006", "Invalid time frame")),
    ("est_invalid_count", ErrorCodeInfo("3007", "Invalid count"))
  ]

  const RouteLookups: seq<(string, ErrorCodeInfo)> := [
    ("route_route_not_found", ErrorCodeInfo("4002", "Route number not found")),
    ("route_unknown_get", ErrorCodeInfo("4003", "Unknown get route error")),
    ("route_invalid_route", ErrorCodeInfo("4004", "Invalid route number"))
  ]

  const RouteSearches: seq<(string, ErrorCodeInfo)> := [
    ("route_invalid_stop", ErrorCodeInfo("4011", "Invalid stop number")),
    ("route_stop_not_found", ErrorCodeInfo("4012", "Stop number not found")),
    ("route_unknown", ErrorCodeInfo("4013", "Unknown error")),
    ("route_no_routes_found", ErrorCodeInfo("4014", "No routes found"))
  ]

  const Routes := RouteLookups + RouteSearches

  const Status: seq<(string, ErrorCodeInfo)> := [
    ("status_invalid_service", ErrorCodeInfo("5001", "Invalid service name"))
  ]

  const Declared := General + Stops + Buses + Estimates + Routes + Status

  const ErrorCodes: seq<ErrorCodeInfo> := seq(|Declared|, i requires 0 <= i < |Declared| => Declared[i].1)

  /** The Python objects a class dictionary holds, as far as `isinstance(v, ErrorCodeInfo)` can tell them apart. */
  datatype PyObj = PStr(s: string) | PInfo(info: ErrorCodeInfo) | POther

  /** `ErrorCodes.__dict__`: the class's own bookkeeping entries around the declared attributes. */
  const ClassDict: seq<(string, PyObj)> :=
    [("__module__", PStr("tilapya.errors")), ("__doc__", POther)]
    + seq(|Declared|, i requires 0 <= i < |Declared| => (Declared[i].0, PInfo(Declared[i].1)))
    + [("__dict__", POther), ("__weakref__", POther)]

  /** Iterating a dict yields its keys. */
  function Keys(d: seq<(string, PyObj)>): seq<PyObj> {
    seq(|d|, i requires 0 <= i < |d| => PStr(d[i].0))
  }

  /** `.values()`. */
  function Values(d: seq<(string, PyObj)>): seq<PyObj> {
    seq(|d|, i requires 0 <= i < |d| => d[i].1)
  }

  /** `{v.code: v.desc for v in vs if isinstance(v, ErrorCodeInfo)}`; a later entry overrides an earlier one. */
  function Comprehend(vs: seq<PyObj>): map<string, string>
    decreases |vs|
  {
    if vs == [] then map[]
    else
      var rest := Comprehend(vs[..|vs| - 1]);
      var v := vs[|vs| - 1];
      if v.PInfo? then rest[v.info.code := v.info.desc] else rest
  }

  /** `_code_to_desc` as written: the comprehension runs over the keys of `__dict__`. */
  const CodeToDescAsWritten: map<string, string> := Comprehend(Keys(ClassDict))

  /** `_code_to_desc` as intended: over the values. */
  const CodeToDesc: map<string, string> := Comprehend(Values(ClassDict))

  /** `table.get(code, '')`: a list or dict code is unhashable (TypeError); a non-string never matches a key. */
  function Describe(code: Json, table: map<string, string>): Result<string, PyException> {
    match code
    case JArray(_) => Failure(TypeError)
    case JObject(_) => Failure(TypeError)
    case JString(s) => Success(if s in table then table[s] else "")
    case _ => Success("")
  }

  /** Strict lexicographic order on strings. */
  predicate LexLess(a: string, b: string) {
    if a == [] then b != []
    else b != [] && (a[0] < b[0] || (a[0] == b[0] && LexLess(a[1..], b[1..])))
  }

  lemma {:induction false} LexLessIrreflexive(a: string)
    ensures !LexLess(a, a)
  {
    if a != [] {
      LexLessIrreflexive(a[1..]);
    }
  }

  lemma {:induction false} LexLessTransitive(a: string, b: string, c: string)
    requires LexLess(a, b) && LexLess(b, c)
    ensures LexLess(a, c)
  {
    if a != [] && a[0] == b[0] && b[0] == c[0] {
      LexLessTransitive(a[1..], b[1..], c[1..]);
    }
  }

  /** Each declared code is lexicographically below the next. */
  predicate Ascending(s: seq<(string, ErrorCodeInfo)>) {
    forall i | 0 < i < |s| :: LexLess(s[i - 1].1.code, s[i].1.code)
  }

  lemma AscendingConcat(a: seq<(string, ErrorCodeInfo)>, b: seq<(string, ErrorCodeInfo)>)
    requires Ascending(a) && Ascending(b) && a != [] && b != []
    requires LexLess(a[|a| - 1].1.code, b[0].1.code)
    ensures Ascending(a + b)
  {
    forall i | 0 < i < |a + b| ensures LexLess((a + b)[i - 1].1.code, (a + b)[i].1.code) {
      if i < |a| {
        assert (a + b)[i - 1] == a[i - 1] && (a + b)[i] == a[i];
      } else if i == |a| {
        assert (a + b)[i - 1] == a[|a| - 1] && (a + b)[i] == b[0];
      } else {
        assert (a + b)[i - 1] == b[i - 1 - |a|] && (a + b)[i] == b[i - |a|];
      }
    }
  }

  lemma {:induction false} AscendingIsStrict(s: seq<(string, ErrorCodeInfo)>, i: int, j: int)
    requires Ascending(s) && 0 <= i < j < |s|
    ensures LexLess(s[i].1.code, s[j].1.code)
    decreases j - i
  {
    if i + 1 < j {
      AscendingIsStrict(s, i, j - 1);
      LexLessTransitive(s[i].1.code, s[j - 1].1.code, s[j].1.code);
    }
  }

  lemma GroupsAscending()
    ensures Ascending(General) && Ascending(Stops) && Ascending(Buses)
    ensures Ascending(Estimates) && Ascending(Routes) && Ascending(Status)
  {
    StopsAscending();
    BusesAscending();
    EstimatesAscending();
    RoutesAscending();
  }

  lemma StopsAscending() ensures Ascending(Stops) {
    StopLookupsChain();
    ChainAscending(StopLookups);
    StopSearchesChain();
    ChainAscending(StopSearches);
    AscendingConcat(StopLookups, StopSearches);
  }

  lemma BusesAscending() ensures Ascending(Buses) {
    BusLookupsChain();
    ChainAscending(BusLookups);
    BusSearchesChain();
    ChainAscending(BusSearches);
    AscendingConcat(BusLookups, BusSearches);
  }

  lemma EstimatesAscending() ensures Ascending(Estimates) {
    EstimatesChain();
    ChainAscending(Estimates);
  }

  lemma RoutesAscending() ensures Ascending(Routes) {
    RouteLookupsChain();
    ChainAscending(RouteLookups);
    RouteSearchesChain();
    ChainAscending(RouteSearches);
    AscendingConcat(RouteLookups, RouteSearches);
  }

  /** The same order, checked one neighbour at a time (cheaper on a literal table). */
  predicate Chain(s: seq<(string, ErrorCodeInfo)>) {
    |s| < 2 || (LexLess(s[0].1.code, s[1].1.code) && Chain(s[1..]))
  }

  lemma StopLookupsChain() ensures Chain(StopLookups) {
    assert Chain(StopLookups[3..]);
    assert Chain(StopLookups[2..]);
    assert Chain(StopLookups[1..]);
  }

  lemma StopSearchesChain() ensures Chain(StopSearches) {
    assert Chain(StopSearches[4..]);
    assert Chain(StopSearches[3..]);
    assert Chain(StopSearches[2..]);
    assert Chain(StopSearches[1..]);
  }

  lemma BusLookupsChain() ensures Chain(BusLookups) {
    assert Chain(BusLookups[2..]);
    assert Chain(BusLookups[1..]);
  }

  lemma BusSearchesChain() ensures Chain(BusSearches) {
    assert Chain(BusSearches[7..]);
    assert Chain(BusSearches[6..]);
    assert Chain(BusSearches[5..]);
    assert Chain(BusSearches[4..]);
    assert Chain(BusSearches[3..]);
    assert Chain(BusSearches[2..]);
    assert Chain(BusSearches[1..]);
  }

  lemma EstimatesChain() ensures Chain(Estimates) {
    assert Chain(Estimates[6..]);
    assert Chain(Estimates[5..]);
    assert Chain(Estimates[4..]);
    assert Chain(Estimates[3..]);
    assert Chain(Estimates[2..]);
    assert Chain(Estimates[1..]);
  }

  lemma RouteLookupsChain() ensures Chain(RouteLookups) {
    assert Chain(RouteLookups[2..]);
    assert Chain(RouteLookups[1..]);
  }

  lemma RouteSearchesChain() ensures Chain(RouteSearches) {
    assert Chain(RouteSearches[3..]);
    assert Chain(RouteSearches[2..]);
    assert Chain(RouteSearches[1..]);
  }

  lemma {:induction false} ChainAscending(s: seq<(string, ErrorCodeInfo)>)
    requires Chain(s)
    ensures Ascending(s)
  {
    if |s| >= 2 {
      ChainAscending(s[1..]);
      forall i | 0 < i < |s| ensures LexLess(s[i - 1].1.code, s[i].1.code) {
        if i > 1 {
          assert s[i - 1] == s[1..][i - 2] && s[i] == s[1..][i - 1];
        }
      }
    }
  }

  lemma DeclaredAscending()
    ensures Ascending(Declared)
  {
    GroupsAscending();
    AscendingConcat(General, Stops);
    AscendingConcat(General + Stops, Buses);
    AscendingConcat(General + Stops + Buses, Estimates);
    AscendingConcat(General + Stops + Buses + Estimates, Routes);
    AscendingConcat(General + Stops + Buses + Estimates + Routes, Status);
  }

  /** The declared codes are pairwise distinct. */
  lemma ErrorCodesDistinct()
    ensures forall i, j | 0 <= i < j < |ErrorCodes| :: ErrorCodes[i].code != ErrorCodes[j].code
  {
    DeclaredAscending();
    forall i, j | 0 <= i < j < |ErrorCodes| ensures ErrorCodes[i].code != ErrorCodes[j].code {
      AscendingIsStrict(Declared, i, j);
      LexLessIrreflexive(ErrorCodes[i].code);
    }
  }

  // ---------------------------------------------------------------------
  // `_code_to_desc` and `description`

  lemma {:induction false} NoInfoNoEntries(vs: seq<PyObj>)
    requires forall i | 0 <= i < |vs| :: !vs[i].PInfo?
    ensures Comprehend(vs) == map[]
    decreases |vs|
  {
    if vs != [] {
      NoInfoNoEntries(vs[..|vs| - 1]);
    }
  }

  /** Iterating `__dict__` yields attribute names, none of them an ErrorCodeInfo: the table is empty. */
  lemma CodeToDescAsWrittenIsEmpty()
    ensures CodeToDescAsWritten == map[]
    ensures forall code: Json | !code.JArray? && !code.JObject? :: Describe(code, CodeToDescAsWritten) == Success("")
  {
    NoInfoNoEntries(Keys(ClassDict));
  }

  /** The invalid-API-key code, which the API does return, has no description as written. */
  lemma InvalidApiKeyUndescribed()
    ensures Describe(JString("10001"), CodeToDescAsWritten) == Success("")
    ensures Describe(JString("10001"), CodeToDesc) == Success("Invalid API key")
  {
    CodeToDescAsWrittenIsEmpty();
    CodeToDescListsEveryCode();
    assert ErrorCodes[0] == ErrorCodeInfo("10001", "Invalid API key");
  }

  /** The codes of the ErrorCodeInfo entries among `vs` are pairwise distinct. */
  predicate DistinctInfos(vs: seq<PyObj>) {
    forall i, j | 0 <= i < j < |vs| && vs[i].PInfo? && vs[j].PInfo? :: vs[i].info.code != vs[j].info.code
  }

  lemma {:induction false} ComprehendLookup(vs: seq<PyObj>)
    requires DistinctInfos(vs)
    ensures forall k | 0 <= k < |vs| && vs[k].PInfo? ::
      vs[k].info.code in Comprehend(vs) && Comprehend(vs)[vs[k].info.code] == vs[k].info.desc
    ensures forall c | c in Comprehend(vs) :: exists k | 0 <= k < |vs| :: vs[k].PInfo? && vs[k].info.code == c
    decreases |vs|
  {
    if vs != [] {
      var init := vs[..|vs| - 1];
      assert DistinctInfos(init) by {
        forall i, j | 0 <= i < j < |init| && init[i].PInfo? && init[j].PInfo? ensures init[i].info.code != init[j].info.code {
          assert init[i] == vs[i] && init[j] == vs[j];
        }
      }
      ComprehendLookup(init);
      forall c | c in Comprehend(vs) ensures exists k | 0 <= k < |vs| :: vs[k].PInfo? && vs[k].info.code == c {
        if c in Comprehend(init) {
          var k :| 0 <= k < |init| && init[k].PInfo? && init[k].info.code == c;
          assert vs[k] == init[k];
        } else {
          assert vs[|vs| - 1].PInfo? && vs[|vs| - 1].info.code == c;
        }
      }
      forall k | 0 <= k < |vs| - 1 && vs[k].PInfo? ensures vs[k] == init[k] {
      }
    }
  }

  lemma ValuesOfClassDict(k: int)
    requires 0 <= k < |Values(ClassDict)|
    ensures 2 <= k < 2 + |ErrorCodes| ==> Values(ClassDict)[k] == PInfo(ErrorCodes[k - 2])
    ensures !(2 <= k < 2 + |ErrorCodes|) ==> !Values(ClassDict)[k].PInfo?
  {
    var infos := seq(|Declared|, i requires 0 <= i < |Declared| => (Declared[i].0, PInfo(Declared[i].1)));
    assert ClassDict == [("__module__", PStr("tilapya.errors")), ("__doc__", POther)] + infos + [("__dict__", POther), ("__weakref__", POther)];
    if 2 <= k < 2 + |ErrorCodes| {
      assert ClassDict[k] == infos[k - 2];
    }
  }

  /** The corrected table describes every declared code, and only those. */
  lemma CodeToDescListsEveryCode()
    ensures forall i | 0 <= i < |ErrorCodes| :: ErrorCodes[i].code in CodeToDesc && CodeToDesc[ErrorCodes[i].code] == ErrorCodes[i].desc
    ensures forall c | c in CodeToDesc :: exists i | 0 <= i < |ErrorCodes| :: ErrorCodes[i].code == c
  {
    var vs := Values(ClassDict);
    forall k | 0 <= k < |vs| ensures (2 <= k < 2 + |ErrorCodes| ==> vs[k] == PInfo(ErrorCodes[k - 2])) && (!(2 <= k < 2 + |ErrorCodes|) ==> !vs[k].PInfo?) {
      ValuesOfClassDict(k);
    }
    ErrorCodesDistinct();
    assert DistinctInfos(vs) by {
      forall i, j | 0 <= i < j < |vs| && vs[i].PInfo? && vs[j].PInfo? ensures vs[i].info.code != vs[j].info.code {
        assert ErrorCodes[i - 2].code != ErrorCodes[j - 2].code;
      }
    }
    ComprehendLookup(vs);
    forall i | 0 <= i < |ErrorCodes| ensures ErrorCodes[i].code in CodeToDesc && CodeToDesc[ErrorCodes[i].code] == ErrorCodes[i].desc {
      assert vs[i + 2] == PInfo(ErrorCodes[i]);
    }
    forall c | c in CodeToDesc ensures exists i | 0 <= i < |ErrorCodes| :: ErrorCodes[i].code == c {
      var k :| 0 <= k < |vs| && vs[k].PInfo? && vs[k].info.code == c;
      assert ErrorCodes[k - 2].code == c;
    }
  }

  /** `description` of an error whose code is a declared code is that code's text; any other string gives ''. */
  lemma DescriptionLooksUp(e: TransLinkAPIError)
    ensures forall i | 0 <= i < |ErrorCodes| :: e.code == JString(ErrorCodes[i].code) ==> e.Description() == Success(ErrorCodes[i].desc)
    ensures e.code.JString? && (forall i | 0 <= i < |ErrorCodes| :: ErrorCodes[i].code != e.code.s) ==> e.Description() == Success("")
    ensures e.code.JArray? || e.code.JObject? ==> e.Description() == Failure(TypeError)
  {
    CodeToDescListsEveryCode();
  }
}
