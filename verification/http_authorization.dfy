/** The C# request-authorization helpers: the client-principal header is
    read, decoded into claims, and the claims are judged by a predicate; a
    request that fails any step gets an Unauthorized result instead of
    reaching the handler. */
module HttpAuthorization {
  import opened Wrappers
  import opened RoleAuthorization

  const ClientPrincipalHeaderKey: string := "X-MS-CLIENT-PRINCIPAL"

  /** The action results the functions return; the payload of the Ok result is generic. */
  datatype ActionResult<+T> =
    | UnauthorizedResult
    | BadRequestObjectResult(message: string)
    | NotFoundResult
    | OkObjectResult(value: T)

  /** What decoding the single header value yields. The decoding itself
      (base64, UTF-8 and the JSON object parser) is a parameter of the model;
      only the four ways it can end are distinguished. */
  datatype PrincipalToken =
      /** the base64 decoder throws a format exception */
    | NotBase64
      /** the JSON parser throws; its exception is not a format exception */
    | NotJsonObject(exception: string)
      /** the object has no "claims" member, or that member is not an array */
    | NoClaimsArray
      /** the (typ, val) pairs of the "claims" array */
    | ClaimsArray(claims: seq<Claim>)

  /** The header carries exactly one value, which decodes to a claims array. */
  predicate WellFormedHeader(headerValues: Option<seq<string>>, decode: string -> PrincipalToken)
  {
    headerValues.Some? && |headerValues.value| == 1 && decode(headerValues.value[0]).ClaimsArray?
  }

  /** The claims of a well-formed header. */
  function HeaderClaims(headerValues: Option<seq<string>>, decode: string -> PrincipalToken): seq<Claim>
    requires WellFormedHeader(headerValues, decode)
  {
    decode(headerValues.value[0]).claims
  }

  /** `GetResultIfUnauthorized`: `Ok(None)` stands for the null result that
      lets the request through, `Ok(Some(UnauthorizedResult))` for a refusal,
      and `Err` for an exception that escapes. `headerValues` is `None` when
      the request has no client-principal header. */
  function GetResultIfUnauthorized<T>(
    headerValues: Option<seq<string>>,
    decode: string -> PrincipalToken,
    authorizeClaims: seq<Claim> -> bool): (r: Result<Option<ActionResult<T>>, string>)
    // the only non-null result is Unauthorized
    ensures r.Ok? && r.value.Some? ==> r.value.value == UnauthorizedResult
    // the request passes exactly when the header is well formed and the predicate accepts its claims
    ensures r == Ok(None) <==>
      WellFormedHeader(headerValues, decode) && authorizeClaims(HeaderClaims(headerValues, decode))
    // no header, or a number of values other than one, is refused before anything is decoded
    ensures headerValues.None? || |headerValues.value| != 1 ==> r == Ok(Some(UnauthorizedResult))
    // only the JSON parser's exception escapes; a base64 format error is refused instead
    ensures r.Err? <==>
      headerValues.Some? && |headerValues.value| == 1 && decode(headerValues.value[0]).NotJsonObject?
    ensures r.Err? ==> r.error == decode(headerValues.value[0]).exception
  {
    if headerValues.None? then Ok(Some(UnauthorizedResult))
    else if |headerValues.value| != 1 then Ok(Some(UnauthorizedResult))
    else
      match decode(headerValues.value[0])
      case NotBase64 => Ok(Some(UnauthorizedResult))
      case NotJsonObject(e) => Err(e)
      case NoClaimsArray => Ok(Some(UnauthorizedResult))
      case ClaimsArray(claims) =>
        if authorizeClaims(claims) then Ok(None) else Ok(Some(UnauthorizedResult))
  }

  /** `HandleIfAuthorizedByClaims`: the outcome of the handler (its result or
      its exception) is returned unchanged when the request passes, and is
      never consulted otherwise. */
  function HandleIfAuthorizedByClaims<T>(
    headerValues: Option<seq<string>>,
    decode: string -> PrincipalToken,
    authorizeClaims: seq<Claim> -> bool,
    handler: Result<ActionResult<T>, string>): (r: Result<ActionResult<T>, string>)
    ensures WellFormedHeader(headerValues, decode) && authorizeClaims(HeaderClaims(headerValues, decode)) ==>
      r == handler
    ensures !(WellFormedHeader(headerValues, decode) && authorizeClaims(HeaderClaims(headerValues, decode))) ==>
      (r.Ok? ==> r.value == UnauthorizedResult) &&
      (r.Err? ==> headerValues.Some? && |headerValues.value| == 1 && decode(headerValues.value[0]).NotJsonObject?)
    // the JSON parser's exception leaves the call before the handler is considered
    ensures headerValues.Some? && |headerValues.value| == 1 && decode(headerValues.value[0]).NotJsonObject? ==>
      r == Err(decode(headerValues.value[0]).exception)
  {
    match GetResultIfUnauthorized(headerValues, decode, authorizeClaims)
    case Err(e) => Err(e)
    case Ok(Some(refusal)) => Ok(refusal)
    case Ok(None) => handler
  }

  /** A refused request does not depend on the handler: two handlers with
      different outcomes give the same result. */
  lemma RefusalIgnoresHandler<T>(
    headerValues: Option<seq<string>>,
    decode: string -> PrincipalToken,
    authorizeClaims: seq<Claim> -> bool,
    handler: Result<ActionResult<T>, string>,
    handler': Result<ActionResult<T>, string>)
    requires !(WellFormedHeader(headerValues, decode) && authorizeClaims(HeaderClaims(headerValues, decode)))
    ensures HandleIfAuthorizedByClaims(headerValues, decode, authorizeClaims, handler)
         == HandleIfAuthorizedByClaims(headerValues, decode, authorizeClaims, handler')
  {
  }

  /** The predicate `HandleIfAuthorizedForRoles` hands to `HandleIfAuthorizedByClaims`. */
  function RolesPredicate(roles: seq<string>): (p: seq<Claim> -> bool)
    ensures forall claims :: p(claims) == IsAuthorizedByRoles(claims, roles)
  {
    claims => IsAuthorizedByRoles(claims, roles)
  }

  /** `HandleIfAuthorizedForRoles`: the handler is reached exactly when the
      header is well formed and its claims hold every required role. */
  function HandleIfAuthorizedForRoles<T>(
    headerValues: Option<seq<string>>,
    decode: string -> PrincipalToken,
    roles: seq<string>,
    handler: Result<ActionResult<T>, string>): (r: Result<ActionResult<T>, string>)
    ensures WellFormedHeader(headerValues, decode) ==>
      r == if forall role :: role in roles ==> role in PrincipalRoles(HeaderClaims(headerValues, decode))
           then handler else Ok(UnauthorizedResult)
    ensures headerValues.None? || |headerValues.value| != 1 ==> r == Ok(UnauthorizedResult)
    ensures headerValues.Some? && |headerValues.value| == 1 && decode(headerValues.value[0]) in {NotBase64, NoClaimsArray} ==>
      r == Ok(UnauthorizedResult)
    ensures headerValues.Some? && |headerValues.value| == 1 && decode(headerValues.value[0]).NotJsonObject? ==>
      r == Err(decode(headerValues.value[0]).exception)
  {
    HandleIfAuthorizedByClaims(headerValues, decode, RolesPredicate(roles), handler)
  }

  /** Whatever the handler would answer, a request whose result differs from
      Unauthorized and is not an exception carries a well-formed header that
      holds every required role. */
  lemma OnlyAuthorizedReachHandler<T>(
    headerValues: Option<seq<string>>,
    decode: string -> PrincipalToken,
    roles: seq<string>,
    handler: Result<ActionResult<T>, string>)
    requires HandleIfAuthorizedForRoles(headerValues, decode, roles, handler).Ok?
    requires HandleIfAuthorizedForRoles(headerValues, decode, roles, handler).value != UnauthorizedResult
    ensures WellFormedHeader(headerValues, decode)
    ensures forall role :: role in roles ==>
      exists c :: c in HeaderClaims(headerValues, decode) && c.typ == RoleClaimType && c.val == role
    ensures HandleIfAuthorizedForRoles(headerValues, decode, roles, handler) == handler
  {
    assert IsAuthorizedByRoles(HeaderClaims(headerValues, decode), roles);
  }
}
