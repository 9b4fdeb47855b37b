/** What the Workers KV API answers, as far as the adaptor and the SwitchKit
    client read it, and the failures they raise. Each request's answer is an
    `Outcome`: the fetch was rejected, or it resolved to a response whose body
    may or may not parse as JSON. A parsed body is typed by the shape the code
    casts it to (`R` is the type of its `result`). */
module Backend {
  import opened Wrappers
  import opened StorageInterface

  datatype ApiError = ApiError(code: int, message: string)

  /** An entry of the error list `get` builds: an error the server reported,
      or the reason a request was rejected. */
  datatype ErrorItem = Api(error: ApiError) | Rejection(reason: string)

  datatype Namespace = Namespace(id: string, title: string, supportsUrlEncoding: bool)

  datatype ResultInfo = ResultInfo(page: int, perPage: int, count: int, totalCount: int, totalPages: int)

  /** The parsed JSON envelope; an absent or null field is `None`. */
  datatype Envelope<R> = Envelope(errors: Option<seq<ApiError>>, result: Option<R>, resultInfo: Option<ResultInfo>)

  /** `json` is `None` when `response.json()` rejects. */
  datatype Response<R> = Response(ok: bool, statusText: string, text: string, json: Option<Envelope<R>>)

  datatype Outcome<R> = Rejected(reason: string) | Fulfilled(response: Response<R>)

  predicate Succeeded<R>(o: Outcome<R>)
  {
    o.Fulfilled? && o.response.ok
  }

  /** The error payload attached to a failed create, list or write: the
      parsed body when it parses, otherwise `{errors: [{code: 0, message: "unknown"}]}`. */
  datatype Payload = Payload(errors: Option<seq<ApiError>>)

  const UnknownPayload := Payload(Some([ApiError(0, "unknown")]))

  function PayloadOf<R>(r: Response<R>): Payload
  {
    match r.json
    case None => UnknownPayload
    case Some(e) => Payload(e.errors)
  }

  /** The errors thrown by the adaptor (and, for `NotInitialized`, by SwitchKit). */
  datatype Failure =
    | NotInitialized                                   // "SwitchKit is not initialized. Call `init` method first!"
    | CreateFailed(statusText: string, payload: Payload) // "Unable to create namespace: ..."
    | ListFailed(statusText: string, payload: Payload)   // "Unable to list namespaces: ..."
    | NoNamespacesInResponse                           // "Unable to find namespaces in the response"
    | NamespaceNotFound(title: string)                 // "Unable to find namespace: ..."
    | LoadFailed(errors: seq<ErrorItem>)               // "Failed to load switch value and/or metadata"
    | WriteFailed(payload: Payload)                    // "Failed to write key with metadata"
    | TransportFailed(reason: string)                  // a fetch that rejected, passed on as it is
    | MalformedBody                                    // the runtime's error on reading a body of the wrong shape

  /** The reply types of the two reads of `get`: the value read's body is
      text, the metadata read's `result` is the metadata record. */
  type ValueReply = Outcome<()>
  type MetadataReply = Outcome<SwitchMetadata>

  function RejectionErrors<R>(o: Outcome<R>): seq<ErrorItem>
  {
    if o.Rejected? then [Rejection(o.reason)] else []
  }

  function AsErrorItems(es: seq<ApiError>): (items: seq<ErrorItem>)
    ensures |items| == |es| && forall i :: 0 <= i < |es| ==> items[i] == Api(es[i])
  {
    if es == [] then [] else [Api(es[0])] + AsErrorItems(es[1..])
  }

  /** The `errors` of a failed response's body; nothing when the body does
      not parse or has no `errors`. */
  function BodyErrors<R>(o: Outcome<R>): seq<ErrorItem>
  {
    if o.Fulfilled? && !o.response.ok && o.response.json.Some? && o.response.json.value.errors.Some?
    then AsErrorItems(o.response.json.value.errors.value)
    else []
  }

  /** The errors a failed `get` reports, in this order: the value read's
      rejection, the metadata read's rejection, the value body's errors, the
      metadata body's errors. */
  function LoadErrors(v: ValueReply, m: MetadataReply): seq<ErrorItem>
  {
    RejectionErrors(v) + RejectionErrors(m) + BodyErrors(v) + BodyErrors(m)
  }

  /** The `payload.errors.push(...)` sequence of both `get` implementations. */
  method CollectLoadErrors(v: ValueReply, m: MetadataReply) returns (errors: seq<ErrorItem>)
    ensures errors == LoadErrors(v, m)
  {
    errors := [];
    if v.Rejected? {
      errors := errors + [Rejection(v.reason)];
    }
    if m.Rejected? {
      errors := errors + [Rejection(m.reason)];
    }
    if v.Fulfilled? && !v.response.ok {
      match v.response.json {
        case Some(Envelope(Some(es), _, _)) => errors := errors + AsErrorItems(es);
        case _ =>
      }
    }
    if m.Fulfilled? && !m.response.ok {
      match m.response.json {
        case Some(Envelope(Some(es), _, _)) => errors := errors + AsErrorItems(es);
        case _ =>
      }
    }
  }

  /** The outcome of the two reads of `get`: the switch when both reads
      succeeded, the aggregated errors when either failed, and the runtime's
      error when the metadata body of a successful read does not parse. */
  function ReadSwitch(v: ValueReply, m: MetadataReply): Result<Switch, Failure>
  {
    if !Succeeded(v) || !Succeeded(m) then Err(LoadFailed(LoadErrors(v, m)))
    else match m.response.json
      case None => Err(MalformedBody)
      case Some(env) => Ok(Switch(v.response.text, env.result))
  }

  /** `get` yields a switch only when both reads were fulfilled with a
      success status, and then its value is the value body's text and its
      metadata the metadata body's `result`. */
  lemma ReadSwitchNeedsBoth(v: ValueReply, m: MetadataReply)
    ensures ReadSwitch(v, m).Ok? <==> Succeeded(v) && Succeeded(m) && m.response.json.Some?
    ensures ReadSwitch(v, m).Ok? ==>
      ReadSwitch(v, m).value == Switch(v.response.text, m.response.json.value.result)
    ensures !Succeeded(v) || !Succeeded(m) ==> ReadSwitch(v, m) == Err(LoadFailed(LoadErrors(v, m)))
  {
  }

  /** A read whose body does not parse adds nothing to the error list,
      whichever of the two reads it is. */
  lemma UnparsableBodyAddsNothing(v: ValueReply, m: MetadataReply)
    ensures v.Fulfilled? && v.response.json.None? ==>
              LoadErrors(v, m) == RejectionErrors(m) + BodyErrors(m)
    ensures m.Fulfilled? && m.response.json.None? ==>
              LoadErrors(v, m) == RejectionErrors(v) + BodyErrors(v)
  {
  }

  /** When both reads are rejected, the errors are exactly the two reasons,
      the value read's first. */
  lemma BothRejected(v: ValueReply, m: MetadataReply)
    requires v.Rejected? && m.Rejected?
    ensures LoadErrors(v, m) == [Rejection(v.reason), Rejection(m.reason)]
  {
  }
}
