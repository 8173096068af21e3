/**
  `tilapia.gtfsrt`, the older package: the same header table and mapping,
  but an error response goes to `raise_for_status()` (an `HTTPError`)
  instead of `TransLinkAPIError`.
*/
module TilapiaGtfsrt {
  import opened Wrappers
  import opened Exceptions
  import opened PyJson
  import opened Schemas
  import opened Http
  import Tilapya = TilapyaGtfsrt
  import TilapyaUtil

  const HeadersSchema := Schema([
    Field("content_disposition", "Content-Disposition", KString, false, false),
    Field("content_length", "Content-Length", KInteger, false, false),
    Field("content_type", "Content-Type", KString, false, false),
    Field("date", "Date", KRfcDateTime, false, false),
    Field("server", "Server", KString, false, false)])

  /** What this function raises: `HTTPError` from `raise_for_status`, or a schema error. */
  datatype Raise = HTTPError(status: int) | LoadFailure(failure: LoadError)

  /** `raise_for_status()` on a response that is not ok always raises. */
  function RaiseForStatus(resp: Response): (r: Option<Raise>)
    ensures r.Some? <==> !IsOk(resp)
    ensures r.Some? ==> r.value == HTTPError(resp.status)
  {
    if 400 <= resp.status < 600 then Some(HTTPError(resp.status)) else None
  }

  /**
    `_get_headers_and_deserialize`: a response that is not ok goes to
    `raise_for_status()`; had it not raised, the headers would be loaded.
  */
  function HeadersAndDeserialize(ctx: Ctx, resp: Response): Result<Value, Raise> {
    if !IsOk(resp) && RaiseForStatus(resp).Some? then Failure(RaiseForStatus(resp).value)
    else
      match Report(LoadObject(ctx, HeadersSchema, Tilapya.HeaderView(resp)))
      case Success(v) => Success(v)
      case Failure(e) => Failure(LoadFailure(e))
  }

  /** An error response raises `HTTPError` with its status, a 4xx or 5xx one, before any header is looked at. */
  lemma ErrorResponseRaisesHTTPError(ctx: Ctx, resp: Response)
    requires !IsOk(resp)
    ensures HeadersAndDeserialize(ctx, resp) == Failure(HTTPError(resp.status))
    ensures 400 <= resp.status < 600
  {
  }

  /**
    On an ok response the two packages give the same headers record, and the
    same schema error where loading fails.
  */
  lemma OkResponseAgreesWithTilapya(ctx: Ctx, resp: Response)
    requires IsOk(resp)
    ensures HeadersAndDeserialize(ctx, resp).Success? <==> Tilapya.HeadersAndDeserialize(ctx, resp).Success?
    ensures HeadersAndDeserialize(ctx, resp).Success? ==>
      HeadersAndDeserialize(ctx, resp).value == Tilapya.HeadersAndDeserialize(ctx, resp).value
    ensures HeadersAndDeserialize(ctx, resp).Failure? ==>
      Tilapya.HeadersAndDeserialize(ctx, resp) == Failure(TilapyaUtil.LoadFailure(HeadersAndDeserialize(ctx, resp).error.failure))
  {
  }

  /** The corrected load: headers that coerce give the `Headers` record, absent ones None. */
  lemma HeadersLoad(ctx: Ctx, resp: Response)
    requires ctx.construction == FillAbsent && IsOk(resp)
    ensures HeadersAndDeserialize(ctx, resp).Success? <==> Tilapya.HeadersCoerce(ctx, resp)
    ensures HeadersAndDeserialize(ctx, resp).Success? ==> Tilapya.IsHeadersRecord(ctx, resp, HeadersAndDeserialize(ctx, resp).value)
    ensures HeadersAndDeserialize(ctx, resp).Failure? ==> HeadersAndDeserialize(ctx, resp) == Failure(LoadFailure(ValidationError))
  {
    OkResponseAgreesWithTilapya(ctx, resp);
    Tilapya.HeadersLoad(ctx, resp);
  }

  /** As written, a feed response without one of the five headers raises TypeError instead of loading. */
  lemma MissingHeaderRaises(ctx: Ctx, resp: Response)
    requires ctx.construction == AsWritten && IsOk(resp)
    requires Tilapya.HeadersCoerce(ctx, resp) && !Tilapya.AllHeadersPresent(resp)
    ensures HeadersAndDeserialize(ctx, resp) == Failure(LoadFailure(Uncaught(TypeError)))
  {
    Tilapya.HeadersAsWritten(ctx, resp);
  }
}
