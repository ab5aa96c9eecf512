/** The `authenticate` middleware: it reads the `Authorization` header, insists on the `Bearer `
    scheme, hands the rest of the header to token verification, and on success records the
    token's claims on the request and passes control to the next handler. */
module AuthMiddleware {
  import opened Wrappers
  import opened JsString

  /** The claims a verified token carries. */
  datatype TokenPayload = TokenPayload(userId: string, email: string)

  /** What the middleware records on the request as `req.user`. */
  datatype RequestUser = RequestUser(userId: string, email: string)

  /** The middleware's decision: call `next()` once with `req.user` set, or answer with this
      status and message and call nothing further. */
  datatype Outcome = Next(user: RequestUser) | Reject(status: nat, message: string)

  const BearerPrefix: string := "Bearer "
  const AuthRequiredMessage: string := "Authentication required"
  const InvalidTokenMessage: string := "Invalid or expired token"

  /** The token in the header: absent when there is no header or it does not start with the
      exact, case-sensitive `Bearer ` prefix; otherwise the header after its seventh character. */
  function BearerToken(header: Option<string>): (token: Option<string>)
    ensures token.None? <==> header.None? || !StartsWith(header.value, BearerPrefix)
    ensures token.Some? ==> header.value == BearerPrefix + token.value
  {
    if header.None? || !StartsWith(header.value, BearerPrefix) then None
    else
      assert header.value == header.value[..7] + header.value[7..];
      Some(header.value[7..])
  }

  /** Prefixing any token with the scheme gives a header from which exactly that token is read back. */
  lemma BearerTokenOfPrefixed(token: string)
    ensures BearerToken(Some(BearerPrefix + token)) == Some(token)
  {
    var h := BearerPrefix + token;
    assert h[..|BearerPrefix|] == BearerPrefix;
    assert h[7..] == token;
  }

  /** The decision `authenticate` makes, given the header and token verification (absent when
      `jwt.verify` throws: a bad signature, a malformed or an expired token). */
  function Decide(header: Option<string>, verify: string -> Option<TokenPayload>): (o: Outcome)
    ensures o.Reject? ==> o.status == 401
    ensures o == Reject(401, AuthRequiredMessage) <==> BearerToken(header).None?
    ensures o == Reject(401, InvalidTokenMessage) <==>
      BearerToken(header).Some? && verify(BearerToken(header).value).None?
    ensures o.Next? <==> BearerToken(header).Some? && verify(BearerToken(header).value).Some?
    ensures o.Next? ==> o.user == RequestUser(verify(BearerToken(header).value).value.userId,
                                              verify(BearerToken(header).value).value.email)
  {
    match BearerToken(header)
    case None => Reject(401, AuthRequiredMessage)
    case Some(token) =>
      match verify(token)
      case None => Reject(401, InvalidTokenMessage)
      case Some(decoded) => Next(RequestUser(decoded.userId, decoded.email))
  }

  /** A header carrying a token that verification accepts lets the request through with that
      token's claims. */
  lemma AcceptedTokenPasses(token: string, verify: string -> Option<TokenPayload>, p: TokenPayload)
    requires verify(token) == Some(p)
    ensures Decide(Some(BearerPrefix + token), verify) == Next(RequestUser(p.userId, p.email))
  {
    BearerTokenOfPrefixed(token);
  }

  /** The part of an incoming request the middleware reads and writes. */
  class Request {
    var authorization: Option<string>
    var user: Option<RequestUser>
    /** How many times the next handler has been invoked for this request. */
    var nextCalls: nat

    constructor (authorization: Option<string>)
      ensures this.authorization == authorization && user == None && nextCalls == 0
    {
      this.authorization := authorization;
      user := None;
      nextCalls := 0;
    }
  }

  /** `authenticate(req, res, next)`: the response it writes on rejection is returned; on success
      `req.user` is assigned and `next` is called exactly once. */
  method Authenticate(req: Request, verify: string -> Option<TokenPayload>) returns (response: Option<(nat, string)>)
    modifies req`user, req`nextCalls
    ensures var o := Decide(old(req.authorization), verify);
      && (o.Next? ==> req.user == Some(o.user) && req.nextCalls == old(req.nextCalls) + 1 && response == None)
      && (o.Reject? ==> req.user == old(req.user) && req.nextCalls == old(req.nextCalls)
                        && response == Some((o.status, o.message)))
  {
    var authHeader := req.authorization;
    if authHeader.None? || !StartsWith(authHeader.value, BearerPrefix) {
      return Some((401, AuthRequiredMessage));
    }
    var token := authHeader.value[7..];
    assert BearerToken(authHeader) == Some(token);
    var decoded := verify(token);
    if decoded.None? {
      return Some((401, InvalidTokenMessage));
    }
    req.user := Some(RequestUser(decoded.value.userId, decoded.value.email));
    req.nextCalls := req.nextCalls + 1;
    response := None;
  }
}
