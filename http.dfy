/**
  The parts of a `requests` response the client looks at: the status, the
  body (as `response.json()` / `json.loads(response.text)` sees it), the
  case-insensitive headers and the streamed body chunks.
*/
module Http {
  import opened Wrappers
  import opened PyJson
  import opened Ascii

  type Byte = b: int | 0 <= b < 256

  /** A `CaseInsensitiveDict` of headers, kept under ASCII-lower-cased names. */
  type HeaderMap = m: map<string, string> | forall k | k in m :: Lower(k) == k witness map[]

  /** `chunks` is what `iter_content` yields, in order. */
  datatype Response = Response(status: int, body: Body, headers: HeaderMap, chunks: seq<seq<Byte>>)

  /** `response.ok`: `raise_for_status` raises exactly for 4xx and 5xx statuses. */
  predicate IsOk(r: Response) {
    !(400 <= r.status < 600)
  }

  /** `response.headers.get(name)`. */
  function Header(r: Response, name: string): Option<string> {
    if Lower(name) in r.headers then Some(r.headers[Lower(name)]) else None
  }

  /** Two spellings of a name that differ only in ASCII case find the same header. */
  lemma HeaderIgnoresCase(r: Response, a: string, b: string)
    requires CaseVariant(a, b)
    ensures Header(r, a) == Header(r, b)
  {
    LowerAgrees(a, b);
  }

  /**
    `headers.get(name)` finds a stored header under any spelling of its name,
    and finds nothing when no stored name is a spelling of it.
  */
  lemma HeaderFindsAnySpelling(r: Response, name: string)
    ensures forall k | k in r.headers && CaseVariant(k, name) :: Header(r, name) == Some(r.headers[k])
    ensures Header(r, name).None? ==> forall k | k in r.headers :: !CaseVariant(k, name)
  {
    forall k | k in r.headers && CaseVariant(k, name)
      ensures Header(r, name) == Some(r.headers[k])
    {
      LowerAgrees(k, name);
    }
  }
}
