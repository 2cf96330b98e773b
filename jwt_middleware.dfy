/** The request gate of users/middleware/jwt_authorization_middleware.py. Public paths and
    media and websocket prefixes pass straight through; every other request needs an
    `Authorization` header of the form `<scheme> <token>` whose scheme is "bearer" in any
    case and whose token decodes. Decoding is an oracle: signature checking and expiry are
    not modelled. */
module JwtMiddleware {
  import opened Common

  const PublicUrls: seq<string> := [
    "/api/token/refresh/", "/login", "/signup", "/otp_verification", "/api/token/",
    "/favicon.ico", "/api/token/refresh", "/logout", "/resend_otp", "/forget_pass", "/google"
  ]

  predicate StartsWith(s: string, prefix: string)
  {
    |prefix| <= |s| && s[..|prefix|] == prefix
  }

  /** Paths the middleware forwards without looking at any header. */
  predicate Exempt(path: string)
  {
    path in PublicUrls || StartsWith(path, "/xsports/media/") || StartsWith(path, "/ws/")
  }

  /** What `jwt.decode` does with a token. */
  datatype TokenCheck = Decodes | Expired | Invalid | OtherFailure

  datatype Denial =
    | HeaderMissing
    | Unpack(parts: nat)      // `token_type, token = header.split()` found `parts` words
    | InvalidTokenType
    | TokenExpired
    | InvalidToken
    | DecodeFailure           // any other exception raised while decoding

  datatype Outcome = Forward | Deny(status: nat, reason: Denial)

  /** The JSON message of a denial whose text the middleware fixes. */
  function Message(d: Denial): (m: Option<string>)
    ensures m.None? <==> d.Unpack? || d.DecodeFailure?
  {
    match d
    case HeaderMissing => Some("Authorization header missing")
    case InvalidTokenType => Some("Invalid token type")
    case TokenExpired => Some("Token has expired")
    case InvalidToken => Some("Invalid token")
    case _ => None
  }

  /** `JWTAuthenticationMiddleware.__call__` for one request. */
  function Gate(path: string, header: Option<string>, decode: string -> TokenCheck): (o: Outcome)
    ensures o.Deny? ==> (o.status == 400 <==> o.reason.HeaderMissing?)
    ensures o.Deny? ==> o.status == 400 || o.status == 401
  {
    if Exempt(path) then Forward
    else if !Filled(header) then Deny(400, HeaderMissing)
    else
      var parts := Words(header.value);
      if |parts| != 2 then Deny(401, Unpack(|parts|))
      else if Lower(parts[0]) != "bearer" then Deny(401, InvalidTokenType)
      else
        match decode(parts[1])
        case Decodes => Forward
        case Expired => Deny(401, TokenExpired)
        case Invalid => Deny(401, InvalidToken)
        case OtherFailure => Deny(401, DecodeFailure)
  }

  /** A header that carries exactly a bearer scheme and a token that decodes. */
  predicate BearerHeader(header: Option<string>, decode: string -> TokenCheck)
  {
    Filled(header) && |Words(header.value)| == 2 && Lower(Words(header.value)[0]) == "bearer"
    && decode(Words(header.value)[1]) == Decodes
  }

  /** A request goes through exactly when its path is exempt or it carries a good bearer
      header. */
  lemma GateForwardIff(path: string, header: Option<string>, decode: string -> TokenCheck)
    ensures Gate(path, header, decode) == Forward <==> Exempt(path) || BearerHeader(header, decode)
  {
  }

  /** An exempt path is forwarded whatever the header says, even with none. */
  lemma ExemptIgnoresHeader(path: string, h1: Option<string>, h2: Option<string>,
                            decode: string -> TokenCheck)
    requires Exempt(path)
    ensures Gate(path, h1, decode) == Gate(path, h2, decode) == Forward
  {
  }

  /** Any other path without a header, or with an empty one, gets the 400 answer. */
  lemma MissingHeaderRejected(path: string, header: Option<string>, decode: string -> TokenCheck)
    requires !Exempt(path) && (header.None? || header.value == "")
    ensures Gate(path, header, decode) == Deny(400, HeaderMissing)
    ensures Message(Gate(path, header, decode).reason) == Some("Authorization header missing")
  {
  }

  /** For `scheme + spaces + token`, with a scheme and a token free of whitespace, the gate's
      decision depends only on the scheme's lower-case form and on how the token decodes. */
  lemma BearerTokenDecision(path: string, scheme: string, sp: string, token: string,
                            decode: string -> TokenCheck)
    requires !Exempt(path)
    requires scheme != [] && token != [] && NoSpace(scheme) && NoSpace(token)
    requires sp != [] && AllSpace(sp)
    ensures var o := Gate(path, Some(scheme + sp + token), decode);
            (Lower(scheme) != "bearer" ==> o == Deny(401, InvalidTokenType))
            && (Lower(scheme) == "bearer" ==>
                  (o == Forward <==> decode(token) == Decodes)
                  && (decode(token) == Expired ==> o == Deny(401, TokenExpired))
                  && (decode(token) == Invalid ==> o == Deny(401, InvalidToken)))
  {
    TwoWords(scheme, sp, token);
  }

  /** A header without a space-separated token is rejected before any decoding. */
  lemma SchemeOnlyRejected(path: string, scheme: string, decode: string -> TokenCheck)
    requires !Exempt(path)
    requires scheme != [] && NoSpace(scheme)
    ensures Gate(path, Some(scheme), decode) == Deny(401, Unpack(1))
  {
    assert Words(scheme) == [scheme] by {
      WordLengthOfWord(scheme, []);
      assert scheme + [] == scheme;
      assert scheme[..|scheme|] == scheme && scheme[|scheme|..] == [];
    }
  }
}
