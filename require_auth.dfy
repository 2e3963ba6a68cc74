/**
 * The server's guard on protected routes: it reads a bearer token from the
 * Authorization header, verifies it with the signing secret and either
 * admits the request with the token's user or answers 401.
 */
module RequireAuth {
  import opened Wrappers
  import opened Text
  import opened Json

  /** What the guard hands to the next handler: the payload's `userId` and `role`, as found. */
  datatype AuthUser = AuthUser(userId: Option<Json>, role: Option<Json>)

  /** The guard's decision: a 401 with its message, or the request passed on once with its user. */
  datatype Decision = Denied(status: nat, message: string) | Admitted(user: AuthUser)

  const MissingToken: Decision := Denied(401, "Missing token")

  const InvalidToken: Decision := Denied(401, "Invalid token")

  const BearerPrefix: string := "Bearer "

  /** A header value as JavaScript tests it: absent or the empty text is falsy. */
  function HeaderValue(headers: map<string, string>, key: string): Option<string>
  {
    if key in headers && headers[key] != "" then Some(headers[key]) else None
  }

  /** `headers['authorization'] || headers['Authorization']`. */
  function AuthorizationHeader(headers: map<string, string>): (r: Option<string>)
    ensures r.Some? ==> r.value != ""
    ensures r.None? <==> HeaderValue(headers, "authorization").None? && HeaderValue(headers, "Authorization").None?
  {
    if HeaderValue(headers, "authorization").Some? then HeaderValue(headers, "authorization")
    else HeaderValue(headers, "Authorization")
  }

  /** `header.split(' ')[1]`; a header that starts with the prefix always has a second field. */
  function BearerToken(header: string): string
    requires StartsWith(header, BearerPrefix)
  {
    assert header == "Bearer" + [' '] + header[|BearerPrefix|..];
    SplitAtFirstSeparator("Bearer", ' ', header[|BearerPrefix|..]);
    Split(header, ' ')[1]
  }

  /**
   * `requireAuth`: no header or no "Bearer " prefix is a missing token; a
   * missing or empty secret, or a token `verify` refuses, is an invalid
   * token; otherwise the payload's user is passed on.
   */
  function Guard(headers: map<string, string>, secret: Option<string>,
                 verify: (string, string) -> Option<Json>): Decision
  {
    var header := AuthorizationHeader(headers);
    if header.None? || !StartsWith(header.value, BearerPrefix) then MissingToken
    else
      var token := BearerToken(header.value);
      if secret.None? || secret.value == "" then InvalidToken
      else match verify(token, secret.value)
        case None => InvalidToken
        case Some(payload) => Admitted(AuthUser(Get(Some(payload), "userId"), Get(Some(payload), "role")))
  }

  /** Without an Authorization header (under either spelling) the request is refused as a missing token. */
  lemma MissingHeaderRefused(headers: map<string, string>, secret: Option<string>, verify: (string, string) -> Option<Json>)
    requires "authorization" !in headers || headers["authorization"] == ""
    requires "Authorization" !in headers || headers["Authorization"] == ""
    ensures Guard(headers, secret, verify) == MissingToken
  {
  }

  /**
   * The prefix is checked case-sensitively and with its space: a header
   * refused as a missing token is exactly one that does not start with
   * "Bearer ".
   */
  lemma PrefixDecides(header: string, secret: Option<string>, verify: (string, string) -> Option<Json>)
    requires header != ""
    ensures var d := Guard(map["authorization" := header], secret, verify);
            d == MissingToken <==> !StartsWith(header, BearerPrefix)
    ensures Guard(map["authorization" := "bearer " + header], secret, verify) == MissingToken
    ensures Guard(map["authorization" := "Bearer"], secret, verify) == MissingToken
  {
    var lower := "bearer " + header;
    assert lower[0] != BearerPrefix[0];
  }

  /**
   * The token is the second space-separated field: the text after the
   * prefix up to the next space, and empty when another space follows the
   * prefix at once.
   */
  lemma TokenIsSecondField(token: string, rest: string)
    requires ' ' !in token
    ensures BearerToken(BearerPrefix + token) == token
    ensures BearerToken(BearerPrefix + token + " " + rest) == token
  {
    assert BearerPrefix + token == "Bearer" + [' '] + token;
    SplitPair("Bearer", ' ', token);
    assert BearerPrefix + token + " " + rest == "Bearer" + [' '] + (token + [' '] + rest);
    SplitAtFirstSeparator("Bearer", ' ', token + [' '] + rest);
    SplitAtFirstSeparator(token, ' ', rest);
  }

  /**
   * The request is admitted exactly when the header has the prefix, the
   * secret is set and the token verifies; the user is then exactly the
   * payload's `userId` and `role`. Every refusal is a 401.
   */
  lemma AdmittedExactlyWhenVerified(headers: map<string, string>, secret: Option<string>,
                                    verify: (string, string) -> Option<Json>)
    ensures var d := Guard(headers, secret, verify);
            var header := AuthorizationHeader(headers);
            && (d.Admitted? <==>
                  header.Some? && StartsWith(header.value, BearerPrefix)
                  && secret.Some? && secret.value != ""
                  && verify(BearerToken(header.value), secret.value).Some?)
            && (d.Admitted? ==>
                  var p := verify(BearerToken(header.value), secret.value).value;
                  d.user == AuthUser(Get(Some(p), "userId"), Get(Some(p), "role")))
            && (d.Denied? ==> d.status == 401)
  {
  }

  /** "Bearer <token>" with a token free of spaces is admitted exactly as `verify` decides about that token. */
  lemma BearerHeaderAdmitted(token: string, secret: string, verify: (string, string) -> Option<Json>)
    requires ' ' !in token && secret != "" && verify(token, secret).Some?
    ensures Guard(map["authorization" := BearerPrefix + token], Some(secret), verify)
              == Admitted(AuthUser(Get(verify(token, secret), "userId"), Get(verify(token, secret), "role")))
  {
    TokenIsSecondField(token, "");
    assert StartsWith(BearerPrefix + token, BearerPrefix);
  }

  /** A missing or empty secret refuses every token, whatever `verify` would say. */
  lemma NoSecretRefusesAll(headers: map<string, string>, verify: (string, string) -> Option<Json>)
    ensures Guard(headers, None, verify).Denied?
    ensures Guard(headers, Some(""), verify).Denied?
    ensures Guard(headers, None, verify) != MissingToken ==> Guard(headers, None, verify) == InvalidToken
  {
  }

  /** The lower-case header name is consulted first; the other spelling only when it is absent or empty. */
  lemma LowerCaseHeaderFirst(a: string, b: string)
    requires a != ""
    ensures AuthorizationHeader(map["authorization" := a, "Authorization" := b]) == Some(a)
    ensures AuthorizationHeader(map["authorization" := "", "Authorization" := b]) == if b == "" then None else Some(b)
  {
  }
}
