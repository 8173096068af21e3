/**
  `tilapya._util`: the base class every API wrapper extends.  It fixes the
  base URL and the User-Agent at construction, shapes the query parameters
  and headers of every request, streams a download into a file, and routes
  a response either to `TransLinkAPIError` or to a schema.

  The HTTP exchange itself is outside the model: a request method returns
  the request it hands to the session (`Outgoing`), and the session's reply
  is a parameter (`Http.Response`).
*/
module TilapyaUtil {
  import opened Wrappers
  import opened Exceptions
  import opened PyJson
  import opened Schemas
  import opened Http
  import opened TilapyaErrors

  /** `USER_AGENT`: "tilapya/" and the package's `__version__`. */
  function UserAgent(version: string): (r: string)
    ensures |r| == |version| + 8 && r[..8] == "tilapya/" && r[8..] == version
  {
    "tilapya/" + version
  }

  /** A query-parameter value: Python's None, or any other value (kept as its text). */
  datatype Param = PyNone | PyValue(text: string)

  /** A caller's `params` dict. */
  class ParamDict {
    var items: map<string, Param>

    constructor (items: map<string, Param>)
      ensures this.items == items
    {
      this.items := items;
    }
  }

  /** A caller's `headers` dict (a plain, case-sensitive dict). */
  class HeaderDict {
    var items: map<string, string>

    constructor (items: map<string, string>)
      ensures this.items == items
    {
      this.items := items;
    }
  }

  /** A `requests.Session`; its headers are case-insensitive, kept under lower-cased names. */
  class Session {
    var headers: HeaderMap

    constructor (headers: HeaderMap)
      ensures this.headers == headers
    {
      this.headers := headers;
    }
  }

  /** The destination file of a download. */
  class Sink {
    var data: seq<Byte>

    constructor (data: seq<Byte>)
      ensures this.data == data
    {
      this.data := data;
    }
  }

  /** The request handed to `session.request`. */
  datatype Outgoing = Outgoing(verb: string, url: string, params: map<string, Param>, headers: map<string, string>, stream: bool)

  /** What a failed call raises: the normalized `TransLinkAPIError`, an exception from its constructor, or a schema error. */
  datatype Raise =
    | TransLinkError(status: int, info: Normalized)
    | ConstructorError(e: PyException)
    | LoadFailure(failure: LoadError)

  // ---------------------------------------------------------------------
  // Specification functions

  predicate EndsWithSlash(u: string) {
    |u| > 0 && u[|u| - 1] == '/'
  }

  /** The base URL as `__init__` stores it. */
  function NormalizeBaseUrl(u: string): (r: string)
    ensures EndsWithSlash(r)
  {
    if EndsWithSlash(u) then u else u + "/"
  }

  /** `session.headers.get('User-Agent', '')`. */
  function SessionUserAgent(headers: HeaderMap): string {
    if "user-agent" in headers then headers["user-agent"] else ""
  }

  /** `params or {}`: the caller's entries, or none. */
  function Supplied(p: ParamDict?): map<string, Param>
    reads p
  {
    if p == null then map[] else p.items
  }

  function SuppliedHeaders(h: HeaderDict?): map<string, string>
    reads h
  {
    if h == null then map[] else h.items
  }

  /**
    What a caller's dict holds after `d = d or {}; d[key] = v`: a non-empty
    dict is the one written to; an empty one was replaced and stays empty.
  */
  function Stamped<V>(d: map<string, V>, key: string, v: V): map<string, V> {
    if d != map[] then d[key := v] else d
  }

  /** The params `_request` sends: the caller's with `apikey` set, and without None values. */
  function OutgoingParams(supplied: map<string, Param>, apiKey: Param): map<string, Param> {
    var p := supplied["apikey" := apiKey];
    map k | k in p && p[k] != PyNone :: p[k]
  }

  /** All the bytes of the chunks, in order. */
  function Flatten(chunks: seq<seq<Byte>>): seq<Byte> {
    if chunks == [] then [] else Flatten(chunks[..|chunks| - 1]) + chunks[|chunks| - 1]
  }

  /** The sum of the lengths of the non-empty chunks. */
  function Size(chunks: seq<seq<Byte>>): nat {
    if chunks == [] then 0
    else
      var last := chunks[|chunks| - 1];
      Size(chunks[..|chunks| - 1]) + (if last != [] then |last| else 0)
  }

  /** `raise TransLinkAPIError(resp)`, as a value. */
  function ErrorFor(resp: Response): Raise {
    match Normalize(resp.status, resp.body)
    case Success(n) => TransLinkError(resp.status, n)
    case Failure(e) => ConstructorError(e)
  }

  /** `_get_deserialized`'s outcome for the response it got. */
  function Deserialized(ctx: Ctx, sc: Schema, many: bool, resp: Response): Result<Value, Raise> {
    if !IsOk(resp) then Failure(ErrorFor(resp))
    else
      match Loads(ctx, sc, many, resp.body)
      case Success(v) => Success(v)
      case Failure(e) => Failure(LoadFailure(e))
  }

  /** Constructs the exception for an error response (the class's own constructor, where it does not raise). */
  method RaiseFor(resp: Response) returns (r: Raise)
    ensures r == ErrorFor(resp)
  {
    if RaisesAttributeError(resp.body) {
      return ConstructorError(AttributeError);
    }
    var e := new TransLinkAPIError(resp.status, resp.body);
    r := TransLinkError(e.status, Normalized(e.code, e.message, e.blurb));
  }

  // ---------------------------------------------------------------------
  // The base class

  class TransLinkAPIBase {
    var baseUrl: string
    var apiKey: Param
    var session: Session
    var ua: string

    /**
      `TransLinkAPIBase(base_url, api_key, session)`; `defaultHeaders` are the
      headers of the `Session()` made when none is given, and `version` is the
      package's `__version__`.
    */
    constructor (baseUrl: string, apiKey: Param, session: Session?, defaultHeaders: HeaderMap, version: string)
      ensures this.baseUrl == NormalizeBaseUrl(baseUrl)
      ensures this.apiKey == apiKey
      ensures session != null ==> this.session == session
      ensures session == null ==> fresh(this.session) && this.session.headers == defaultHeaders
      ensures ua == SessionUserAgent(this.session.headers) + " " + UserAgent(version)
    {
      var u := baseUrl;
      if !EndsWithSlash(u) {
        u := u + "/";
      }
      this.baseUrl := u;
      this.apiKey := apiKey;
      var s: Session;
      if session != null {
        s := session;
      } else {
        s := new Session(defaultHeaders);
      }
      this.session := s;
      ua := SessionUserAgent(s.headers) + " " + UserAgent(version);
    }

    /**
      `_request`: writes `apikey` into the params and `User-Agent` into the
      headers, in place when the caller's dict is non-empty, then drops the
      None-valued params.
    */
    method Request(endpoint: string, verb: string, params: ParamDict?, headers: HeaderDict?, stream: bool) returns (sent: Outgoing)
      modifies params, headers
      ensures sent == Outgoing(verb, baseUrl + endpoint, OutgoingParams(old(Supplied(params)), apiKey),
                               old(SuppliedHeaders(headers))["User-Agent" := ua], stream)
      ensures params != null ==> params.items == Stamped(old(params.items), "apikey", apiKey)
      ensures headers != null ==> headers.items == Stamped(old(headers.items), "User-Agent", ua)
    {
      var p: ParamDict;
      if params != null && params.items != map[] {
        p := params;
      } else {
        p := new ParamDict(map[]);
      }
      p.items := p.items["apikey" := apiKey];
      var kept := map k | k in p.items && p.items[k] != PyNone :: p.items[k];

      var h: HeaderDict;
      if headers != null && headers.items != map[] {
        h := headers;
      } else {
        h := new HeaderDict(map[]);
      }
      h.items := h.items["User-Agent" := ua];

      sent := Outgoing(verb, baseUrl + endpoint, kept, h.items, stream);
    }

    /**
      `_streamed_download`: a GET with `stream=True`.  An error response raises
      before the destination is opened; otherwise the file is truncated and
      every non-empty chunk is appended, and the count of bytes written returned.
    */
    method StreamedDownload(endpoint: string, sink: Sink, params: ParamDict?, resp: Response)
      returns (sent: Outgoing, r: Result<nat, Raise>)
      modifies sink, params
      ensures sent == Outgoing("GET", baseUrl + endpoint, OutgoingParams(old(Supplied(params)), apiKey), map["User-Agent" := ua], true)
      ensures params != null ==> params.items == Stamped(old(params.items), "apikey", apiKey)
      ensures !IsOk(resp) ==> r == Failure(ErrorFor(resp)) && sink.data == old(sink.data)
      ensures IsOk(resp) ==> sink.data == Flatten(resp.chunks) && r == Success(Size(resp.chunks))
    {
      sent := Request(endpoint, "GET", params, null, true);
      if !IsOk(resp) {
        var e := RaiseFor(resp);
        return sent, Failure(e);
      }
      sink.data := [];
      var size: nat := 0;
      var i := 0;
      while i < |resp.chunks|
        modifies sink
        invariant 0 <= i <= |resp.chunks|
        invariant sink.data == Flatten(resp.chunks[..i])
        invariant size == Size(resp.chunks[..i])
      {
        var chunk := resp.chunks[i];
        assert resp.chunks[..i + 1][..i] == resp.chunks[..i];
        if chunk != [] {
          sink.data := sink.data + chunk;
          size := size + |chunk|;
        }
        i := i + 1;
      }
      assert resp.chunks[..i] == resp.chunks;
      r := Success(size);
    }

    /** `_get_json`: a GET that asks for JSON. */
    method GetJson(endpoint: string, params: ParamDict?) returns (sent: Outgoing)
      modifies params
      ensures sent == Outgoing("GET", baseUrl + endpoint, OutgoingParams(old(Supplied(params)), apiKey),
                               map["Accept" := "application/json", "User-Agent" := ua], false)
      ensures params != null ==> params.items == Stamped(old(params.items), "apikey", apiKey)
    {
      var accept := new HeaderDict(map["Accept" := "application/json"]);
      sent := Request(endpoint, "GET", params, accept, false);
    }

    /** `_get_deserialized`: an error response raises before anything is decoded; otherwise `schema.loads(resp.text)`. */
    method GetDeserialized(endpoint: string, ctx: Ctx, sc: Schema, many: bool, params: ParamDict?, resp: Response)
      returns (sent: Outgoing, r: Result<Value, Raise>)
      modifies params
      ensures sent == Outgoing("GET", baseUrl + endpoint, OutgoingParams(old(Supplied(params)), apiKey),
                               map["Accept" := "application/json", "User-Agent" := ua], false)
      ensures params != null ==> params.items == Stamped(old(params.items), "apikey", apiKey)
      ensures r == Deserialized(ctx, sc, many, resp)
    {
      sent := GetJson(endpoint, params);
      if !IsOk(resp) {
        var e := RaiseFor(resp);
        return sent, Failure(e);
      }
      var loaded := Loads(ctx, sc, many, resp.body);
      if loaded.Failure? {
        return sent, Failure(LoadFailure(loaded.error));
      }
      r := Success(loaded.value);
    }
  }

  // ---------------------------------------------------------------------
  // Lemmas

  /** Normalizing the base URL twice changes nothing. */
  lemma NormalizeBaseUrlIdempotent(u: string)
    ensures NormalizeBaseUrl(NormalizeBaseUrl(u)) == NormalizeBaseUrl(u)
  {
  }

  /** A URL that ends with '/' is kept; any other gains exactly one '/'. */
  lemma NormalizeBaseUrlAddsOneSlash(u: string)
    ensures EndsWithSlash(u) ==> NormalizeBaseUrl(u) == u
    ensures !EndsWithSlash(u) ==> |NormalizeBaseUrl(u)| == |u| + 1 && NormalizeBaseUrl(u)[..|u|] == u
  {
  }

  /**
    The outgoing params: `apikey` is the client's key, overriding the caller's,
    and is sent exactly when the key is not None; every other non-None caller
    entry is sent unchanged; nothing else is sent, and no value is None.
  */
  lemma OutgoingParamsContents(supplied: map<string, Param>, apiKey: Param)
    ensures var r := OutgoingParams(supplied, apiKey);
      && (forall k | k in r :: r[k] != PyNone)
      && ("apikey" in r <==> apiKey != PyNone)
      && (apiKey != PyNone ==> r["apikey"] == apiKey)
      && (forall k | k != "apikey" :: k in r <==> k in supplied && supplied[k] != PyNone)
      && (forall k | k != "apikey" && k in r :: r[k] == supplied[k])
  {
  }

  /** Flattening splits over concatenation: the bytes keep the order of the chunks. */
  lemma {:induction false} FlattenConcat(a: seq<seq<Byte>>, b: seq<seq<Byte>>)
    ensures Flatten(a + b) == Flatten(a) + Flatten(b)
    decreases |b|
  {
    if b != [] {
      var b' := b[..|b| - 1];
      assert (a + b)[..|a + b| - 1] == a + b';
      assert (a + b)[|a + b| - 1] == b[|b| - 1];
      FlattenConcat(a, b');
      calc {
        Flatten(a + b);
        Flatten(a + b') + b[|b| - 1];
        (Flatten(a) + Flatten(b')) + b[|b| - 1];
        Flatten(a) + (Flatten(b') + b[|b| - 1]);
        Flatten(a) + Flatten(b);
      }
    } else {
      assert a + b == a;
    }
  }

  /** The returned size is the number of bytes written. */
  lemma {:induction false} SizeIsWrittenLength(chunks: seq<seq<Byte>>)
    ensures Size(chunks) == |Flatten(chunks)|
  {
    if chunks != [] {
      SizeIsWrittenLength(chunks[..|chunks| - 1]);
    }
  }

  /** Each chunk lands in the file right after the ones before it. */
  lemma ChunkPlacement(chunks: seq<seq<Byte>>, i: int)
    requires 0 <= i < |chunks|
    ensures var start := |Flatten(chunks[..i])|;
      && start + |chunks[i]| <= |Flatten(chunks)|
      && Flatten(chunks)[start..start + |chunks[i]|] == chunks[i]
  {
    assert chunks == chunks[..i] + [chunks[i]] + chunks[i + 1..];
    FlattenConcat(chunks[..i] + [chunks[i]], chunks[i + 1..]);
    FlattenConcat(chunks[..i], [chunks[i]]);
    var one: seq<seq<Byte>> := [chunks[i]];
    assert one[..0] == [];
  }

  /** An error response is never decoded: the schema and `many` play no part in the outcome. */
  lemma ErrorResponseNotDecoded(ctx: Ctx, sc1: Schema, many1: bool, sc2: Schema, many2: bool, resp: Response)
    requires !IsOk(resp)
    ensures Deserialized(ctx, sc1, many1, resp) == Deserialized(ctx, sc2, many2, resp) == Failure(ErrorFor(resp))
  {
  }

  /**
    An error response raises the normalized `TransLinkAPIError` carrying the
    response's status, unless the body is JSON but not an object.
  */
  lemma ErrorResponseRaises(resp: Response)
    ensures RaisesAttributeError(resp.body) ==> ErrorFor(resp) == ConstructorError(AttributeError)
    ensures !RaisesAttributeError(resp.body) ==>
      ErrorFor(resp).TransLinkError? && ErrorFor(resp).status == resp.status &&
      Normalize(resp.status, resp.body) == Success(ErrorFor(resp).info) &&
      StatusBlurb(resp.status) <= ErrorFor(resp).info.blurb
  {
  }

  /** An ok response gives exactly what the schema loads, and its errors as they are. */
  lemma OkResponseDecoded(ctx: Ctx, sc: Schema, many: bool, resp: Response)
    requires IsOk(resp)
    ensures var r := Deserialized(ctx, sc, many, resp);
      && (r.Success? <==> Loads(ctx, sc, many, resp.body).Success?)
      && (r.Success? ==> r.value == Loads(ctx, sc, many, resp.body).value)
      && (r.Failure? ==> r.error == LoadFailure(Loads(ctx, sc, many, resp.body).error))
  {
  }
}
