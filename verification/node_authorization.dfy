/** The Node.js version of the request-authorization helpers, which the
    Node status function uses. Responses are plain objects; a `null` result
    of `getResultIfUnauthorized` lets the request through. */
module NodeAuthorization {
  import opened Wrappers
  import opened RoleAuthorization
  import opened NodeBuffer

  const ClientPrincipalHeaderKey: string := "X-MS-CLIENT-PRINCIPAL"

  /** A response object: status code, body and Content-Type header. */
  datatype Response = Response(status: int, body: string, contentType: string)

  const UnauthorizedResponse: Response := Response(401, "Unauthorized", "text/plain")

  /** The JavaScript value found under the token's 'claims' key. */
  datatype ClaimsValue =
    | Undefined
      /** an array of {typ, val} objects */
    | ClaimArray(claims: seq<Claim>)
      /** any other value: a string, a number, an object that is not an array, null */
    | NotAnArray

  /** How decoding the header value ends. `Throws` covers JSON that does not
      parse and a token that parses to null. */
  datatype Decoding = Throws | Decoded(claims: ClaimsValue)

  /** The decoding `getResultIfUnauthorized` applies to the header: base64 to
      bytes (`unbase64`, which never throws), bytes to text (`text`: the code
      uses `toString('ascii')`, that is `AsciiText`), then `JSON.parse` and
      the 'claims' key (`parse`). */
  function HeaderDecoding(unbase64: string -> seq<Byte>, text: seq<Byte> -> string,
                          parse: string -> Decoding): string -> Decoding
  {
    (header: string) => parse(text(unbase64(header)))
  }

  function LowerChar(c: char): (l: char)
    ensures 'A' <= c <= 'Z' ==> l as int == c as int + 32
    ensures !('A' <= c <= 'Z') ==> l == c
  {
    if 'A' <= c <= 'Z' then (c as int + 32) as char else c
  }

  /** Lower-casing of ASCII letters. The key lowered with `toLocaleLowerCase`
      is a constant of ASCII letters and dashes, on which every locale agrees
      with this. */
  function LowerAscii(s: string): (t: string)
    ensures |t| == |s|
    ensures forall i :: 0 <= i < |s| ==> t[i] == LowerChar(s[i])
  {
    seq(|s|, i requires 0 <= i < |s| => LowerChar(s[i]))
  }

  /** The key the header is looked up under: Node.js stores header names in lower case. */
  lemma HeaderKeyIsLowerCase()
    ensures LowerAscii(ClientPrincipalHeaderKey) == "x-ms-client-principal"
  {
    var lowered := LowerAscii(ClientPrincipalHeaderKey);
    assert forall i :: 0 <= i < |lowered| ==> lowered[i] == "x-ms-client-principal"[i];
  }

  /** The header value, when present and non-empty (an empty string is falsy). */
  predicate HasPrincipal(headers: map<string, string>)
  {
    LowerAscii(ClientPrincipalHeaderKey) in headers && headers[LowerAscii(ClientPrincipalHeaderKey)] != ""
  }

  function Principal(headers: map<string, string>): string
    requires HasPrincipal(headers)
  {
    headers[LowerAscii(ClientPrincipalHeaderKey)]
  }

  /** `getResultIfUnauthorized`: `Ok(None)` is the null result, `Err` an
      exception thrown by the predicate, which is called outside the
      try/catch. */
  function GetResultIfUnauthorized(
    headers: map<string, string>,
    decode: string -> Decoding,
    authorizeClaims: ClaimsValue -> Result<bool, string>): (r: Result<Option<Response>, string>)
    ensures r.Ok? && r.value.Some? ==> r.value.value == UnauthorizedResponse
    ensures "x-ms-client-principal" !in headers || headers["x-ms-client-principal"] == "" ==>
      r == Ok(Some(UnauthorizedResponse))
    ensures HasPrincipal(headers) && decode(Principal(headers)).Throws? ==> r == Ok(Some(UnauthorizedResponse))
    ensures HasPrincipal(headers) && decode(Principal(headers)).Decoded? ==>
      var verdict := authorizeClaims(decode(Principal(headers)).claims);
      r == match verdict
           case Err(e) => Err(e)
           case Ok(accepted) => if accepted then Ok(None) else Ok(Some(UnauthorizedResponse))
  {
    HeaderKeyIsLowerCase();
    if !HasPrincipal(headers) then Ok(Some(UnauthorizedResponse))
    else
      match decode(Principal(headers))
      case Throws => Ok(Some(UnauthorizedResponse))
      case Decoded(claims) =>
        match authorizeClaims(claims)
        case Err(e) => Err(e)
        case Ok(accepted) => if accepted then Ok(None) else Ok(Some(UnauthorizedResponse))
  }

  /** `handleIfAuthorizedByClaims`: the handler's outcome is returned exactly
      when the result above is null; a refusal is returned as it is. */
  function HandleIfAuthorizedByClaims(
    headers: map<string, string>,
    decode: string -> Decoding,
    authorizeClaims: ClaimsValue -> Result<bool, string>,
    handler: Result<Response, string>): (r: Result<Response, string>)
    ensures var refusal := GetResultIfUnauthorized(headers, decode, authorizeClaims);
      && (refusal == Ok(None) ==> r == handler)
      && (refusal.Ok? && refusal.value.Some? ==> r == Ok(UnauthorizedResponse))
      && (refusal.Err? ==> r == Err(refusal.error))
  {
    match GetResultIfUnauthorized(headers, decode, authorizeClaims)
    case Err(e) => Err(e)
    case Ok(Some(refusal)) => Ok(refusal)
    case Ok(None) => handler
  }

  /** The exception `claims.filter(...)` throws when `claims` is not an
      array: a TypeError in every case (undefined and null have no properties,
      and no other parsed JSON value has a `filter` method). Its message text
      depends on the value and on the JavaScript engine, so only its class is
      modelled. */
  const TypeError: string := "TypeError"

  /** The predicate `handleIfAuthorizedForRoles` passes, as written: it calls
      `filter` on the claims value, which throws unless that value is an array. */
  function RolesPredicate(roles: seq<string>): (p: ClaimsValue -> Result<bool, string>)
    ensures forall claims :: p(ClaimArray(claims)) == Ok(IsAuthorizedByRoles(claims, roles))
    ensures p(Undefined) == Err(TypeError) && p(NotAnArray) == Err(TypeError)
  {
    (v: ClaimsValue) => if v.ClaimArray? then Ok(IsAuthorizedByRoles(v.claims, roles)) else Err(TypeError)
  }

  /** `handleIfAuthorizedForRoles` as written. */
  function HandleIfAuthorizedForRoles(
    headers: map<string, string>,
    decode: string -> Decoding,
    roles: seq<string>,
    handler: Result<Response, string>): (r: Result<Response, string>)
    ensures !HasPrincipal(headers) ==> r == Ok(UnauthorizedResponse)
    ensures HasPrincipal(headers) && decode(Principal(headers)) == Throws ==> r == Ok(UnauthorizedResponse)
    ensures HasPrincipal(headers) && decode(Principal(headers)).Decoded? && decode(Principal(headers)).claims.ClaimArray? ==>
      r == if IsAuthorizedByRoles(decode(Principal(headers)).claims.claims, roles) then handler else Ok(UnauthorizedResponse)
  {
    HandleIfAuthorizedByClaims(headers, decode, RolesPredicate(roles), handler)
  }

  /** A token whose JSON has no 'claims' key is not refused: the predicate
      throws, and the exception escapes instead of a 401 response. */
  lemma MissingClaimsEscapes(headers: map<string, string>, decode: string -> Decoding,
                             roles: seq<string>, handler: Result<Response, string>)
    requires HasPrincipal(headers) && decode(Principal(headers)) == Decoded(Undefined)
    ensures HandleIfAuthorizedForRoles(headers, decode, roles, handler) == Err(TypeError)
  {
    assert RolesPredicate(roles)(Undefined) == Err(TypeError);
  }

  /** The predicate with the evident intent: a claims value that is not an
      array holds no role, so it is refused like a token that does not parse. */
  function CheckedRolesPredicate(roles: seq<string>): (p: ClaimsValue -> Result<bool, string>)
    ensures forall claims :: p(ClaimArray(claims)) == Ok(IsAuthorizedByRoles(claims, roles))
    ensures p(Undefined) == Ok(false) && p(NotAnArray) == Ok(false)
  {
    (v: ClaimsValue) => if v.ClaimArray? then Ok(IsAuthorizedByRoles(v.claims, roles)) else Ok(false)
  }

  /** The header decodes to an array of claims that holds every required role. */
  predicate HoldsRoles(headers: map<string, string>, decode: string -> Decoding, roles: seq<string>)
  {
    && HasPrincipal(headers)
    && decode(Principal(headers)).Decoded?
    && decode(Principal(headers)).claims.ClaimArray?
    && IsAuthorizedByRoles(decode(Principal(headers)).claims.claims, roles)
  }

  /** `handleIfAuthorizedForRoles` with the checked predicate: nothing
      escapes, and the handler is reached exactly when the header holds an
      array of claims with every required role. */
  function CheckedHandleIfAuthorizedForRoles(
    headers: map<string, string>,
    decode: string -> Decoding,
    roles: seq<string>,
    handler: Result<Response, string>): (r: Result<Response, string>)
    ensures r == handler || r == Ok(UnauthorizedResponse)
    ensures HoldsRoles(headers, decode, roles) ==> r == handler
    ensures !HoldsRoles(headers, decode, roles) ==> r == Ok(UnauthorizedResponse)
  {
    HandleIfAuthorizedByClaims(headers, decode, CheckedRolesPredicate(roles), handler)
  }

  /** The claims of the token `createPrincipalWithRoles` builds: one "roles"
      claim per role, in order. */
  function PrincipalClaims(roles: seq<string>): (claims: seq<Claim>)
    ensures |claims| == |roles|
    ensures forall i :: 0 <= i < |roles| ==> claims[i] == Claim(RoleClaimType, roles[i])
  {
    seq(|roles|, i requires 0 <= i < |roles| => Claim(RoleClaimType, roles[i]))
  }

  /** `createPrincipalWithRoles`: the token `{claims: [...]}` serialized by
      `stringify` (`JSON.stringify`), written as UTF-8 by `Buffer.from` and
      encoded by `base64`. */
  function CreatePrincipalWithRoles(roles: seq<string>, stringify: seq<Claim> -> string,
                                    base64: seq<Byte> -> string): string
  {
    base64(Utf8Encode(stringify(PrincipalClaims(roles))))
  }

  /** A principal built from roles R passes the roles check for any required
      list drawn from R. */
  lemma {:induction false} PrincipalWithRolesAuthorizes(roles: seq<string>, required: seq<string>)
    requires forall r :: r in required ==> r in roles
    ensures IsAuthorizedByRoles(PrincipalClaims(roles), required)
  {
    var claims := PrincipalClaims(roles);
    forall r | r in required
      ensures exists c :: c in claims && c.typ == RoleClaimType && c.val == r
    {
      var i :| 0 <= i < |roles| && roles[i] == r;
      assert claims[i] in claims;
    }
  }

  /** What the header decoding makes of a built token, given that base64
      decoding undoes base64 encoding and parsing undoes serializing: the
      text handed to `JSON.parse` is the serialized token exactly when that
      is ASCII, and then the claims come back; a UTF-8 reading of the bytes
      gives them back for every token. */
  lemma CreatedPrincipalDecoding(roles: seq<string>, stringify: seq<Claim> -> string,
                                 base64: seq<Byte> -> string, unbase64: string -> seq<Byte>,
                                 parse: string -> Decoding)
    requires forall b :: unbase64(base64(b)) == b
    requires parse(stringify(PrincipalClaims(roles))) == Decoded(ClaimArray(PrincipalClaims(roles)))
    ensures var token := CreatePrincipalWithRoles(roles, stringify, base64);
      var json := stringify(PrincipalClaims(roles));
      && (AsciiText(unbase64(token)) == json <==> IsAscii(json))
      && (IsAscii(json) ==>
            HeaderDecoding(unbase64, AsciiText, parse)(token) == Decoded(ClaimArray(PrincipalClaims(roles))))
      && HeaderDecoding(unbase64, Utf8Text, parse)(token) == Decoded(ClaimArray(PrincipalClaims(roles)))
  {
    var json := stringify(PrincipalClaims(roles));
    assert unbase64(CreatePrincipalWithRoles(roles, stringify, base64)) == Utf8Encode(json);
    AsciiReadsBackUtf8(json);
    Utf8RoundTrip(json);
  }

  /** Sending the token `createPrincipalWithRoles` built reaches the handler
      for any required list drawn from its roles, provided its serialized
      form is ASCII (JSON.stringify keeps non-ASCII characters of the roles
      as they are, so: provided the roles are ASCII). */
  lemma CreatedPrincipalReachesHandler(headers: map<string, string>, roles: seq<string>,
                                       stringify: seq<Claim> -> string, base64: seq<Byte> -> string,
                                       unbase64: string -> seq<Byte>, parse: string -> Decoding,
                                       required: seq<string>, handler: Result<Response, string>)
    requires forall b :: unbase64(base64(b)) == b
    requires parse(stringify(PrincipalClaims(roles))) == Decoded(ClaimArray(PrincipalClaims(roles)))
    requires IsAscii(stringify(PrincipalClaims(roles)))
    requires CreatePrincipalWithRoles(roles, stringify, base64) != ""
    requires forall r :: r in required ==> r in roles
    ensures HandleIfAuthorizedForRoles(
              headers["x-ms-client-principal" := CreatePrincipalWithRoles(roles, stringify, base64)],
              HeaderDecoding(unbase64, AsciiText, parse), required, handler) == handler
  {
    HeaderKeyIsLowerCase();
    CreatedPrincipalDecoding(roles, stringify, base64, unbase64, parse);
    PrincipalWithRolesAuthorizes(roles, required);
  }

  /** With the header read as UTF-8, a built token reaches the handler for
      any required list drawn from its roles, whatever characters they use. */
  lemma Utf8PrincipalReachesHandler(headers: map<string, string>, roles: seq<string>,
                                    stringify: seq<Claim> -> string, base64: seq<Byte> -> string,
                                    unbase64: string -> seq<Byte>, parse: string -> Decoding,
                                    required: seq<string>, handler: Result<Response, string>)
    requires forall b :: unbase64(base64(b)) == b
    requires parse(stringify(PrincipalClaims(roles))) == Decoded(ClaimArray(PrincipalClaims(roles)))
    requires CreatePrincipalWithRoles(roles, stringify, base64) != ""
    requires forall r :: r in required ==> r in roles
    ensures HandleIfAuthorizedForRoles(
              headers["x-ms-client-principal" := CreatePrincipalWithRoles(roles, stringify, base64)],
              HeaderDecoding(unbase64, Utf8Text, parse), required, handler) == handler
  {
    HeaderKeyIsLowerCase();
    CreatedPrincipalDecoding(roles, stringify, base64, unbase64, parse);
    PrincipalWithRolesAuthorizes(roles, required);
  }
}
