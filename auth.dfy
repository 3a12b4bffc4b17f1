/**
 * The bearer-header decisions of backend/internal/middleware/auth.go. Token
 * verification (signature and expiry) is the oracle `verify`, which gives
 * the `sub` claim of a valid token; `parseUuid` is `uuid.Parse`.
 */
module Auth {
  import opened Common
  import opened Text

  const BearerPrefix := "Bearer "

  /** A middleware's decision: reply 401, or run the next handler with the stored user id. */
  datatype Decision = Reject(error: string) | Next(userId: Option<Uuid>)

  /** `AuthRequired`. */
  function AuthRequired(header: string, verify: string -> Option<string>, parseUuid: string -> Option<Uuid>): (r: Decision)
    ensures header == "" ==> r == Reject("Missing authorization header")
    ensures header != "" && !HasPrefix(header, BearerPrefix) ==> r == Reject("Invalid authorization header format")
    ensures HasPrefix(header, BearerPrefix) && verify(header[|BearerPrefix|..]).None? ==>
      r == Reject("Invalid or expired token")
    ensures (HasPrefix(header, BearerPrefix) && verify(header[|BearerPrefix|..]).Some?
             && parseUuid(verify(header[|BearerPrefix|..]).value).None?) ==>
      r == Reject("Invalid user ID in token")
    ensures r.Next? <==>
      && HasPrefix(header, BearerPrefix) && verify(header[|BearerPrefix|..]).Some?
      && parseUuid(verify(header[|BearerPrefix|..]).value).Some?
    ensures r.Next? ==> r.userId == parseUuid(verify(header[|BearerPrefix|..]).value)
  {
    if header == "" then Reject("Missing authorization header")
    else
      var token := TrimPrefix(header, BearerPrefix);
      if token == header then Reject("Invalid authorization header format")
      else match verify(token)
        case None => Reject("Invalid or expired token")
        case Some(sub) =>
          match parseUuid(sub)
          case None => Reject("Invalid user ID in token")
          case Some(id) => Next(Some(id))
  }

  /** The header "Bearer " alone passes the format check and submits the empty token. */
  lemma BareBearerVerifiesEmptyToken(verify: string -> Option<string>, parseUuid: string -> Option<Uuid>)
    ensures verify("").None? ==> AuthRequired(BearerPrefix, verify, parseUuid) == Reject("Invalid or expired token")
    ensures verify("").Some? && parseUuid(verify("").value).Some? ==>
      AuthRequired(BearerPrefix, verify, parseUuid) == Next(parseUuid(verify("").value))
  {
    assert BearerPrefix[|BearerPrefix|..] == "";
  }

  /** `OptionalAuth`: never rejects; stores a user id only for a valid bearer token whose `sub` parses. */
  function OptionalAuth(header: string, verify: string -> Option<string>, parseUuid: string -> Option<Uuid>): (r: Decision)
    ensures r.Next?
    ensures r.userId.Some? <==>
      && HasPrefix(header, BearerPrefix) && verify(header[|BearerPrefix|..]).Some?
      && parseUuid(verify(header[|BearerPrefix|..]).value).Some?
  {
    if header == "" then Next(None)
    else
      var token := TrimPrefix(header, BearerPrefix);
      if token == header then Next(None)
      else match verify(token)
        case None => Next(None)
        case Some(sub) => Next(parseUuid(sub))
  }

  /**
   * The two middlewares agree: where `AuthRequired` lets a request through,
   * `OptionalAuth` stores the same user id, and where it rejects,
   * `OptionalAuth` lets the request through anonymously.
   */
  lemma OptionalAgreesWithRequired(header: string, verify: string -> Option<string>, parseUuid: string -> Option<Uuid>)
    ensures AuthRequired(header, verify, parseUuid).Next? ==>
      OptionalAuth(header, verify, parseUuid) == AuthRequired(header, verify, parseUuid)
    ensures AuthRequired(header, verify, parseUuid).Reject? ==>
      OptionalAuth(header, verify, parseUuid) == Next(None)
  {
  }

  /** `GetUserID`: the stored id and true, or `uuid.Nil` and false. */
  function GetUserID(stored: Option<Uuid>): (r: (Uuid, bool))
    ensures r.1 <==> stored.Some?
    ensures r.1 ==> r.0 == stored.value
    ensures !r.1 ==> r.0 == NilUuid
  {
    match stored
    case Some(id) => (id, true)
    case None => (NilUuid, false)
  }
}
