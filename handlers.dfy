/** The three key-management endpoints: each turns what the back-end call did
    into a response, and each runs behind the admin gate. The back-end calls
    themselves (key generation, listing, revocation) are opaque: only their
    outcome enters the model. */
module Handlers {
  import opened AdminGate

  /** What an awaited back-end call did: it returned a value, it raised an
      `HTTPException` (with status code and detail), or it raised any other
      `Exception` (what `except Exception` catches). `text` is `str(e)`, kept
      as an opaque string. */
  datatype Outcome<T> =
    | Returned(value: T)
    | RaisedHttp(code: int, detail: string, text: string)
    | Raised(text: string)

  /** What the endpoint answers: a body with its status code, or an HTTP
      error with its status code and detail. */
  datatype Response<B> =
    | Success(status: int, body: B)
    | Failure(status: int, detail: string)

  /** Body of the list response: `{"keys": keys, "count": len(keys)}`. */
  datatype KeyListing<K> = KeyListing(keys: seq<K>, count: int)

  /** Body of the revoke response: `{"message": ...}`. */
  datatype Message = Message(message: string)

  const StatusOk: int := 200
  const StatusCreated: int := 201
  const StatusForbidden: int := 403
  const StatusNotFound: int := 404
  const StatusServerError: int := 500

  const NotFoundDetail: string := "API Key não encontrada"
  const RevokedMessage: string := "API Key revogada com sucesso"

  // ---------------------------------------------------------------------------
  // The handlers, after the gate has let the request through
  // ---------------------------------------------------------------------------

  /** `create_key`: the generated key is answered with 201; every `Exception`,
      an `HTTPException` included, becomes 500 with `str(e)` as detail. */
  function CreateKey<R>(generated: Outcome<R>): (r: Response<R>)
    ensures r.Success? <==> generated.Returned?
    ensures r.Success? ==> r.status == StatusCreated && r.body == generated.value
    ensures r.Failure? ==> r.status == StatusServerError && r.detail == generated.text
  {
    match generated
    case Returned(result) => Success(StatusCreated, result)
    case RaisedHttp(_, _, text) => Failure(StatusServerError, text)
    case Raised(text) => Failure(StatusServerError, text)
  }

  /** `list_keys`: the keys are answered with their count; every `Exception`
      becomes 500. */
  function ListKeys<K>(listed: Outcome<seq<K>>): (r: Response<KeyListing<K>>)
    ensures r.Success? <==> listed.Returned?
    ensures r.Success? ==> r.status == StatusOk && r.body.keys == listed.value
                           && r.body.count == |r.body.keys|
    ensures r.Failure? ==> r.status == StatusServerError && r.detail == listed.text
  {
    match listed
    case Returned(keys) => Success(StatusOk, KeyListing(keys, |keys|))
    case RaisedHttp(_, _, text) => Failure(StatusServerError, text)
    case Raised(text) => Failure(StatusServerError, text)
  }

  /** `revoke_key`: a revocation that found nothing raises 404, which, like
      any `HTTPException`, leaves the handler unchanged; any other `Exception`
      becomes 500. */
  function RevokeKey(revoked: Outcome<bool>): (r: Response<Message>)
    ensures r.Success? <==> revoked == Returned(true)
    ensures r.Success? ==> r == Success(StatusOk, Message(RevokedMessage))
    ensures revoked == Returned(false) ==> r == Failure(StatusNotFound, NotFoundDetail)
    ensures revoked.RaisedHttp? ==> r == Failure(revoked.code, revoked.detail)
    ensures revoked.Raised? ==> r == Failure(StatusServerError, revoked.text)
  {
    match revoked
    case Returned(success) =>
      if !success then Failure(StatusNotFound, NotFoundDetail)
      else Success(StatusOk, Message(RevokedMessage))
    case RaisedHttp(code, detail, _) => Failure(code, detail)
    case Raised(text) => Failure(StatusServerError, text)
  }

  // ---------------------------------------------------------------------------
  // The endpoints: the gate runs first (it is a dependency of each handler)
  // ---------------------------------------------------------------------------

  /** A denied caller gets 403 and the handler's answer is never produced. */
  function Guarded<B>(setting: string, clientIp: string, handled: Response<B>): (r: Response<B>)
    ensures Gate(setting, clientIp) == Deny403 ==> r == Failure(StatusForbidden, DeniedDetail)
    ensures Gate(setting, clientIp) == Allow ==> r == handled
  {
    if Gate(setting, clientIp) == Deny403 then Failure(StatusForbidden, DeniedDetail) else handled
  }

  /** `POST /api-keys`: the new key with 201 only for an admitted caller whose
      key was generated; otherwise 403 from the gate or 500 from the handler. */
  function CreateEndpoint<R>(setting: string, clientIp: string, generated: Outcome<R>): (r: Response<R>)
    ensures r.Success? <==> Gate(setting, clientIp) == Allow && generated.Returned?
    ensures r.Success? ==> r == Success(StatusCreated, generated.value)
    ensures r.Failure? ==>
      (Gate(setting, clientIp) == Deny403 && r == Failure(StatusForbidden, DeniedDetail)) ||
      (Gate(setting, clientIp) == Allow && r == Failure(StatusServerError, generated.text))
  {
    Guarded(setting, clientIp, CreateKey(generated))
  }

  /** `GET /api-keys`: the keys with their count and 200 only for an admitted
      caller whose listing returned; otherwise 403 from the gate or 500 from
      the handler. */
  function ListEndpoint<K>(setting: string, clientIp: string, listed: Outcome<seq<K>>): (r: Response<KeyListing<K>>)
    ensures r.Success? <==> Gate(setting, clientIp) == Allow && listed.Returned?
    ensures r.Success? ==> r == Success(StatusOk, KeyListing(listed.value, |listed.value|))
    ensures r.Failure? ==>
      (Gate(setting, clientIp) == Deny403 && r == Failure(StatusForbidden, DeniedDetail)) ||
      (Gate(setting, clientIp) == Allow && r == Failure(StatusServerError, listed.text))
  {
    Guarded(setting, clientIp, ListKeys(listed))
  }

  /** `POST /api-keys/revoke`: the confirmation with 200 only for an admitted
      caller whose key was revoked; a denied caller gets 403 whatever the
      back-end did; an admitted caller gets 404, the back-end's own
      `HTTPException`, or 500 exactly as `RevokeKey` says. */
  function RevokeEndpoint(setting: string, clientIp: string, revoked: Outcome<bool>): (r: Response<Message>)
    ensures r.Success? <==> Gate(setting, clientIp) == Allow && revoked == Returned(true)
    ensures r.Success? ==> r == Success(StatusOk, Message(RevokedMessage))
    ensures Gate(setting, clientIp) == Deny403 ==> r == Failure(StatusForbidden, DeniedDetail)
    ensures Gate(setting, clientIp) == Allow && revoked == Returned(false) ==>
      r == Failure(StatusNotFound, NotFoundDetail)
    ensures Gate(setting, clientIp) == Allow && revoked.RaisedHttp? ==>
      r == Failure(revoked.code, revoked.detail)
    ensures Gate(setting, clientIp) == Allow && revoked.Raised? ==>
      r == Failure(StatusServerError, revoked.text)
  {
    Guarded(setting, clientIp, RevokeKey(revoked))
  }

  // ---------------------------------------------------------------------------
  // What the endpoints promise
  // ---------------------------------------------------------------------------

  /** An `HTTPException` from the back-end is passed through by revoke but
      turned into 500 by create and list. */
  lemma HttpExceptionPassesOnlyThroughRevoke<R, K>(code: int, detail: string, text: string)
    ensures RevokeKey(RaisedHttp(code, detail, text)).status == code
    ensures CreateKey(Outcome<R>.RaisedHttp(code, detail, text)).status == StatusServerError
    ensures ListKeys(Outcome<seq<K>>.RaisedHttp(code, detail, text)).status == StatusServerError
  {
  }

  /** Revoke answers 404 exactly when nothing was revoked or the back-end
      itself raised a 404. */
  lemma RevokeNotFoundIff(revoked: Outcome<bool>)
    ensures RevokeKey(revoked).status == StatusNotFound <==>
      revoked == Returned(false) || (revoked.RaisedHttp? && revoked.code == StatusNotFound)
  {
  }

  /** Each endpoint answers from a small closed set of status codes; the only
      other code is one the revoke back-end raised itself. */
  lemma ClosedStatusSet<R, K>(setting: string, clientIp: string,
                              generated: Outcome<R>, listed: Outcome<seq<K>>, revoked: Outcome<bool>)
    ensures CreateEndpoint(setting, clientIp, generated).status in {StatusCreated, StatusForbidden, StatusServerError}
    ensures ListEndpoint(setting, clientIp, listed).status in {StatusOk, StatusForbidden, StatusServerError}
    ensures RevokeEndpoint(setting, clientIp, revoked).status in {StatusOk, StatusForbidden, StatusNotFound, StatusServerError}
            || (revoked.RaisedHttp? && RevokeEndpoint(setting, clientIp, revoked).status == revoked.code)
  {
  }

  /** A denied caller gets the same 403 whatever the back-end would have
      done. */
  lemma DeniedIgnoresBackEnd<R, K>(setting: string, clientIp: string,
                                   g1: Outcome<R>, g2: Outcome<R>,
                                   l1: Outcome<seq<K>>, l2: Outcome<seq<K>>,
                                   v1: Outcome<bool>, v2: Outcome<bool>)
    requires Gate(setting, clientIp) == Deny403
    ensures CreateEndpoint(setting, clientIp, g1) == CreateEndpoint(setting, clientIp, g2)
    ensures ListEndpoint(setting, clientIp, l1) == ListEndpoint(setting, clientIp, l2)
    ensures RevokeEndpoint(setting, clientIp, v1) == RevokeEndpoint(setting, clientIp, v2)
    ensures CreateEndpoint(setting, clientIp, g1) == Failure(StatusForbidden, DeniedDetail)
  {
  }

  /** No management endpoint succeeds for a caller the admin policy does not
      admit. */
  lemma SuccessNeedsAdmission<R, K>(setting: string, clientIp: string,
                                    generated: Outcome<R>, listed: Outcome<seq<K>>, revoked: Outcome<bool>)
    requires CreateEndpoint(setting, clientIp, generated).Success?
             || ListEndpoint(setting, clientIp, listed).Success?
             || RevokeEndpoint(setting, clientIp, revoked).Success?
    ensures AdminPolicy(setting, clientIp)
  {
    GateMatchesPolicy(setting, clientIp);
  }

  /** A successful listing reports as many keys as it returns. */
  lemma ListingCountIsLength<K>(setting: string, clientIp: string, listed: Outcome<seq<K>>)
    requires ListEndpoint(setting, clientIp, listed).Success?
    ensures var body := ListEndpoint(setting, clientIp, listed).body;
            listed == Returned(body.keys) && body.count == |body.keys|
  {
  }
}
