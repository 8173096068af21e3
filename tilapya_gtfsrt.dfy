/**
  `tilapya.gtfsrt`: the GTFS-realtime wrapper's header decoding.  The feed
  endpoints are fetched with a GET, and the response headers, not the body,
  are loaded into a `Headers` record.
*/
module TilapyaGtfsrt {
  import opened Wrappers
  import opened Exceptions
  import opened PyJson
  import opened Schemas
  import opened Http
  import opened TilapyaErrors
  import opened TilapyaUtil

  /** `HeadersSchema`: each attribute is read from the header named beside it; none is required. */
  const HeadersSchema := Schema([
    Field("content_disposition", "Content-Disposition", KString, false, false),
    Field("content_length", "Content-Length", KInteger, false, false),
    Field("content_type", "Content-Type", KString, false, false),
    Field("date", "Date", KRfcDateTime, false, false),
    Field("server", "Server", KString, false, false)])

  const HeaderNames := {"Content-Disposition", "Content-Length", "Content-Type", "Date", "Server"}

  /**
    What `HeadersSchema().load(resp.headers)` finds: under each header name the
    schema asks for, the value the case-insensitive lookup gives, as a string.
  */
  function HeaderView(resp: Response): (o: map<string, Json>)
    ensures forall k | k in o :: k in HeaderNames && Header(resp, k).Some? && o[k] == JString(Header(resp, k).value)
    ensures forall k | k in HeaderNames :: k in o <==> Header(resp, k).Some?
  {
    map k | k in HeaderNames && Header(resp, k).Some? :: JString(Header(resp, k).value)
  }

  /** `_get_headers_and_deserialize`: an error response raises `TransLinkAPIError`; otherwise the headers are loaded. */
  function HeadersAndDeserialize(ctx: Ctx, resp: Response): Result<Value, Raise> {
    if !IsOk(resp) then Failure(ErrorFor(resp))
    else
      match Report(LoadObject(ctx, HeadersSchema, HeaderView(resp)))
      case Success(v) => Success(v)
      case Failure(e) => Failure(LoadFailure(e))
  }

  // ---------------------------------------------------------------------
  // The expected record, header by header

  function StringHeader(resp: Response, name: string): Value {
    if Header(resp, name).Some? then VStr(Header(resp, name).value) else VNone
  }

  function IntegerHeader(ctx: Ctx, resp: Response, name: string): Value {
    if Header(resp, name).Some? && ctx.env.integer(JString(Header(resp, name).value)).Some?
    then VInt(ctx.env.integer(JString(Header(resp, name).value)).value)
    else VNone
  }

  function DateHeader(ctx: Ctx, resp: Response, name: string): Value {
    if Header(resp, name).Some? && ctx.env.rfcDateTime(Header(resp, name).value).Some?
    then VTime(ctx.env.rfcDateTime(Header(resp, name).value).value)
    else VNone
  }

  /** Every header present coerces: Content-Length is an integer and Date an RFC 822 date. */
  predicate HeadersCoerce(ctx: Ctx, resp: Response) {
    && (Header(resp, "Content-Length").Some? ==> ctx.env.integer(JString(Header(resp, "Content-Length").value)).Some?)
    && (Header(resp, "Date").Some? ==> ctx.env.rfcDateTime(Header(resp, "Date").value).Some?)
  }

  predicate AllHeadersPresent(resp: Response) {
    forall k | k in HeaderNames :: Header(resp, k).Some?
  }

  /** `v` is the `Headers` record for the response, with None for every absent header. */
  predicate IsHeadersRecord(ctx: Ctx, resp: Response, v: Value) {
    && v.VRecord?
    && v.attrs.Keys == {"content_disposition", "content_length", "content_type", "date", "server"}
    && v.attrs["content_disposition"] == StringHeader(resp, "Content-Disposition")
    && v.attrs["content_length"] == IntegerHeader(ctx, resp, "Content-Length")
    && v.attrs["content_type"] == StringHeader(resp, "Content-Type")
    && v.attrs["date"] == DateHeader(ctx, resp, "Date")
    && v.attrs["server"] == StringHeader(resp, "Server")
  }

  /** The attribute one header field gives once absent attributes are None. */
  function HeaderAttr(ctx: Ctx, resp: Response, f: Field): Value {
    match f.kind
    case KInteger => IntegerHeader(ctx, resp, f.key)
    case KRfcDateTime => DateHeader(ctx, resp, f.key)
    case _ => StringHeader(resp, f.key)
  }

  /** The header behind one field, if present, coerces to the field's kind. */
  predicate HeaderCoerces(ctx: Ctx, resp: Response, f: Field) {
    Header(resp, f.key).Some? ==>
      && (f.kind.KInteger? ==> ctx.env.integer(JString(Header(resp, f.key).value)).Some?)
      && (f.kind.KRfcDateTime? ==> ctx.env.rfcDateTime(Header(resp, f.key).value).Some?)
  }

  predicate HeaderField(f: Field) {
    f.key in HeaderNames && !f.required && (f.kind.KString? || f.kind.KInteger? || f.kind.KRfcDateTime?)
  }

  // ---------------------------------------------------------------------
  // Lemmas

  lemma HeaderFields()
    ensures DistinctNames(HeadersSchema.fields)
    ensures forall i | 0 <= i < |HeadersSchema.fields| :: HeaderField(HeadersSchema.fields[i])
  {
  }

  lemma HeaderAttributeNames()
    ensures NamesOf(HeadersSchema.fields) == {"content_disposition", "content_length", "content_type", "date", "server"}
  {
    var fs := HeadersSchema.fields;
    assert NamesOf(fs) == {fs[0].name, fs[1].name, fs[2].name, fs[3].name, fs[4].name};
  }

  /**
    One header field: an absent header is skipped, a present one is loaded
    when it coerces and refused otherwise; nothing raises.
  */
  lemma HeaderFieldOutcome(ctx: Ctx, resp: Response, f: Field)
    requires HeaderField(f)
    ensures var d := DecodeField(ctx, f, HeaderView(resp));
      && !d.Raised?
      && (d.Skipped? <==> Header(resp, f.key).None?)
      && (Accepted(d) <==> HeaderCoerces(ctx, resp, f))
      && FilledAttr(ctx, f, HeaderView(resp)) == HeaderAttr(ctx, resp, f)
  {
  }

  /** The field-by-field coercion condition is the header-by-header one. */
  lemma CoercesByField(ctx: Ctx, resp: Response)
    ensures (forall i | 0 <= i < |HeadersSchema.fields| :: HeaderCoerces(ctx, resp, HeadersSchema.fields[i])) <==>
      HeadersCoerce(ctx, resp)
  {
    var fs := HeadersSchema.fields;
    assert HeaderCoerces(ctx, resp, fs[1]) && HeaderCoerces(ctx, resp, fs[3]) <==> HeadersCoerce(ctx, resp);
  }

  lemma PresentByField(resp: Response)
    ensures (forall i | 0 <= i < |HeadersSchema.fields| :: Header(resp, HeadersSchema.fields[i].key).Some?) <==>
      AllHeadersPresent(resp)
  {
    var fs := HeadersSchema.fields;
    assert HeaderNames == {fs[0].key, fs[1].key, fs[2].key, fs[3].key, fs[4].key};
  }

  lemma ExpectedValues(ctx: Ctx, resp: Response, m: map<string, Value>)
    requires NamesOf(HeadersSchema.fields) <= m.Keys
    requires forall i | 0 <= i < |HeadersSchema.fields| :: m[HeadersSchema.fields[i].name] == HeaderAttr(ctx, resp, HeadersSchema.fields[i])
    ensures "content_disposition" in m && m["content_disposition"] == StringHeader(resp, "Content-Disposition")
    ensures "content_length" in m && m["content_length"] == IntegerHeader(ctx, resp, "Content-Length")
    ensures "content_type" in m && m["content_type"] == StringHeader(resp, "Content-Type")
    ensures "date" in m && m["date"] == DateHeader(ctx, resp, "Date")
    ensures "server" in m && m["server"] == StringHeader(resp, "Server")
  {
    var fs := HeadersSchema.fields;
    assert fs[0].name in NamesOf(fs) && fs[1].name in NamesOf(fs) && fs[2].name in NamesOf(fs);
    assert fs[3].name in NamesOf(fs) && fs[4].name in NamesOf(fs);
  }

  /**
    With absent attributes filled with None, the headers load exactly when the
    present ones coerce, and give one attribute per header: its decoded value,
    or None where the response lacks it.
  */
  lemma HeadersOptional(ctx: Ctx, resp: Response)
    requires ctx.construction == FillAbsent
    ensures LoadObject(ctx, HeadersSchema, HeaderView(resp)).Ok? <==> HeadersCoerce(ctx, resp)
    ensures HeadersCoerce(ctx, resp) ==> IsHeadersRecord(ctx, resp, LoadObject(ctx, HeadersSchema, HeaderView(resp)).value)
  {
    var fs := HeadersSchema.fields;
    var o := HeaderView(resp);
    HeaderFields();
    forall i | 0 <= i < |fs|
      ensures Accepted(DecodeField(ctx, fs[i], o)) <==> HeaderCoerces(ctx, resp, fs[i])
      ensures FilledAttr(ctx, fs[i], o) == HeaderAttr(ctx, resp, fs[i])
    {
      HeaderFieldOutcome(ctx, resp, fs[i]);
    }
    FilledLoad(ctx, HeadersSchema, o);
    CoercesByField(ctx, resp);
    if HeadersCoerce(ctx, resp) {
      HeaderAttributeNames();
      ExpectedValues(ctx, resp, LoadObject(ctx, HeadersSchema, o).value.attrs);
    }
  }

  /**
    As written, `Headers(**js)` needs all five attributes: headers that coerce
    load exactly when all five are present, and raise TypeError when one is absent.
  */
  lemma HeadersAsWritten(ctx: Ctx, resp: Response)
    requires ctx.construction == AsWritten
    ensures LoadObject(ctx, HeadersSchema, HeaderView(resp)).Ok? <==> HeadersCoerce(ctx, resp) && AllHeadersPresent(resp)
    ensures HeadersCoerce(ctx, resp) && !AllHeadersPresent(resp) ==> LoadObject(ctx, HeadersSchema, HeaderView(resp)) == Escaped(TypeError)
  {
    var fs := HeadersSchema.fields;
    var o := HeaderView(resp);
    HeaderFields();
    forall i | 0 <= i < |fs|
      ensures Accepted(DecodeField(ctx, fs[i], o)) <==> HeaderCoerces(ctx, resp, fs[i])
      ensures DecodeField(ctx, fs[i], o).Skipped? <==> Header(resp, fs[i].key).None?
    {
      HeaderFieldOutcome(ctx, resp, fs[i]);
    }
    CoercesByField(ctx, resp);
    PresentByField(resp);
    if HeadersCoerce(ctx, resp) {
      CompleteLoad(ctx, HeadersSchema, o);
    } else {
      DecodeFieldsOkIff(ctx, fs, o);
    }
  }

  /** A feed response without any of the five headers: as written, loading it raises TypeError. */
  lemma NoHeadersRaises(ctx: Ctx)
    requires ctx.construction == AsWritten
    ensures HeadersAndDeserialize(ctx, Response(200, NotJson, map[], [])) == Failure(LoadFailure(Uncaught(TypeError)))
  {
    var resp := Response(200, NotJson, map[], []);
    assert Header(resp, "Server").None?;
    HeadersAsWritten(ctx, resp);
  }

  /** The corrected load: a response with headers that coerce gives the `Headers` record, absent ones None. */
  lemma HeadersLoad(ctx: Ctx, resp: Response)
    requires ctx.construction == FillAbsent && IsOk(resp)
    ensures HeadersAndDeserialize(ctx, resp).Success? <==> HeadersCoerce(ctx, resp)
    ensures HeadersCoerce(ctx, resp) ==> HeadersAndDeserialize(ctx, resp).Success? && IsHeadersRecord(ctx, resp, HeadersAndDeserialize(ctx, resp).value)
    ensures !HeadersCoerce(ctx, resp) ==> HeadersAndDeserialize(ctx, resp) == Failure(LoadFailure(ValidationError))
  {
    HeadersOptional(ctx, resp);
    if !HeadersCoerce(ctx, resp) {
      var fs := HeadersSchema.fields;
      var o := HeaderView(resp);
      HeaderFields();
      forall i | 0 <= i < |fs| ensures !DecodeField(ctx, fs[i], o).Raised? {
        HeaderFieldOutcome(ctx, resp, fs[i]);
      }
      NoRaiseNoEscape(ctx, fs, o);
    }
  }

  lemma {:induction false} NoRaiseNoEscape(ctx: Ctx, fs: seq<Field>, o: map<string, Json>)
    requires forall i | 0 <= i < |fs| :: !DecodeField(ctx, fs[i], o).Raised?
    ensures !DecodeFields(ctx, fs, o).Escaped?
  {
    if fs != [] {
      assert forall i | 0 <= i < |fs| - 1 :: fs[1..][i] == fs[i + 1];
      NoRaiseNoEscape(ctx, fs[1..], o);
    }
  }

  /**
    An error response raises the normalized `TransLinkAPIError` before any
    header is looked at: the outcome depends on the status and body alone.
  */
  lemma ErrorResponseSkipsHeaders(ctx: Ctx, resp: Response, headers: HeaderMap, chunks: seq<seq<Byte>>)
    requires !IsOk(resp)
    ensures HeadersAndDeserialize(ctx, resp) == Failure(ErrorFor(resp))
    ensures HeadersAndDeserialize(ctx, resp) == HeadersAndDeserialize(ctx, Response(resp.status, resp.body, headers, chunks))
  {
  }

  /** A bad key: 403 with a body that is not JSON gives empty, falsy code and message. */
  lemma BadKeyRaises(ctx: Ctx, headers: HeaderMap)
    ensures var r := HeadersAndDeserialize(ctx, Response(403, NotJson, headers, []));
      && r == Failure(TransLinkError(403, Normalized(JString(""), JString(""), "HTTP 403 Error")))
      && !Truthy(r.error.info.code) && !Truthy(r.error.info.message)
  {
    BadKeyFixture();
  }
}
