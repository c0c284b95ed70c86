/** The server's `authenticateToken` middleware: the bearer token is the
    second space-separated field of the `Authorization` header, and the JWT
    library's verification is a parameter `verify` (a token maps to the
    claims it carries, or to `None` when its signature or expiry is bad). */
module ServerAuth {
  import opened Js
  import opened Strings

  /** The payload the server signs into every token: `{ id, username }`. */
  datatype Claims = Claims(id: int, username: string)

  /** The middleware either answers the request itself (401 or 403) or sets
      `req.user` to the verified claims and calls `next` once. */
  datatype AuthResult =
    | Rejected(status: int, error: string)
    | Authenticated(user: Claims)

  /** `authHeader && authHeader.split(' ')[1]`: no token when the header is
      missing or empty, when it has no space, or when the second field is
      empty. The scheme word before the first space is never looked at. */
  function BearerToken(authorization: Option<string>): (token: Option<string>)
    ensures !Present(authorization) ==> token.None?
    ensures token.Some? ==> token.value != "" && ' ' !in token.value
  {
    if !Present(authorization) then None
    else
      var fields := Split(authorization.value, ' ');
      if |fields| >= 2 && fields[1] != "" then Some(fields[1]) else None
  }

  /** Whatever the first word is, a non-empty space-free token after the
      first space, ending at the end of the header or at the next space, is
      the token extracted. */
  lemma BearerTokenOf(scheme: string, token: string, rest: string)
    requires ' ' !in scheme && ' ' !in token && token != ""
    requires rest == "" || rest[0] == ' '
    ensures BearerToken(Some(scheme + " " + token + rest)) == Some(token)
  {
    var header := scheme + " " + token + rest;
    assert header == scheme + [' '] + (token + rest);
    SplitFirstField(scheme, token + rest, ' ');
    if rest == "" {
      assert token + rest == token;
      SplitNoSeparator(token, ' ');
    } else {
      assert token + rest == token + [' '] + rest[1..];
      SplitFirstField(token, rest[1..], ' ');
    }
  }

  /** Conversely, an extracted token always sits in that position: the
      header is a space-free first word, one space, the token, and then
      nothing or a space followed by the remaining fields. */
  lemma BearerTokenPosition(header: string)
    requires BearerToken(Some(header)).Some?
    ensures var fields := Split(header, ' ');
            var rest := if |fields| > 2 then " " + Join(fields[2..], " ") else "";
            && ' ' !in fields[0]
            && header == fields[0] + " " + BearerToken(Some(header)).value + rest
  {
    var fields := Split(header, ' ');
    JoinSplit(header, ' ');
    assert fields[1..][1..] == fields[2..];
  }

  /** `authenticateToken`: 401 "Access token required" without a token, 403
      "Invalid or expired token" when verification fails, and otherwise the
      verified claims become `req.user`. */
  function Authenticate(authorization: Option<string>, verify: string -> Option<Claims>): (r: AuthResult)
    ensures r.Rejected? ==> r.status == 401 || r.status == 403
    ensures r.Rejected? ==> r.error == if r.status == 401 then "Access token required" else "Invalid or expired token"
    ensures (r.Rejected? && r.status == 401) <==> BearerToken(authorization).None?
    ensures r.Authenticated? <==>
              BearerToken(authorization).Some? && verify(BearerToken(authorization).value).Some?
    ensures r.Authenticated? ==> Some(r.user) == verify(BearerToken(authorization).value)
  {
    match BearerToken(authorization)
    case None => Rejected(401, "Access token required")
    case Some(token) =>
      match verify(token)
      case None => Rejected(403, "Invalid or expired token")
      case Some(user) => Authenticated(user)
  }

  /** A request without an `Authorization` header, or with an empty one,
      is answered 401 whatever the verifier would say. */
  lemma MissingHeaderRejected(verify: string -> Option<Claims>)
    ensures Authenticate(None, verify) == Rejected(401, "Access token required")
    ensures Authenticate(Some(""), verify) == Rejected(401, "Access token required")
  {
  }

  /** A token the server issued (`sign`), presented after any scheme word,
      authenticates as the claims it was issued for, provided the JWT
      library verifies its own tokens and they contain no space (JWTs are
      dot-separated base64url). */
  lemma IssuedTokenAuthenticates(scheme: string, claims: Claims,
                                 sign: Claims -> string, verify: string -> Option<Claims>)
    requires ' ' !in scheme
    requires sign(claims) != "" && ' ' !in sign(claims)
    requires verify(sign(claims)) == Some(claims)
    ensures Authenticate(Some(scheme + " " + sign(claims)), verify) == Authenticated(claims)
  {
    BearerTokenOf(scheme, sign(claims), "");
    assert scheme + " " + sign(claims) + "" == scheme + " " + sign(claims);
  }
}
