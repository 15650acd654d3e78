/** The C# status query: an authorized caller asks for the stored state of
    one drone. */
module GetStatus {
  import opened Wrappers
  import opened RoleAuthorization
  import opened HttpAuthorization

  const GetDeviceStatusRoleName: string := "GetStatus"

  /** The principal holds the status-reading role. */
  predicate MayReadStatus(claims: seq<Claim>)
  {
    IsAuthorizedByRoles(claims, [GetDeviceStatusRoleName])
  }

  /** `GetStatusFunction.Run`. `principal` is what the principal parser made
      of the request (`None` when the request carries no principal),
      `deviceId` the `deviceId` query value and `deviceStatus` the document
      the database binding found under that id. */
  function Run<S>(principal: Option<seq<Claim>>, deviceId: Option<string>, deviceStatus: Option<S>): (r: ActionResult<S>)
    ensures r == UnauthorizedResult <==>
      principal.None? || !(exists c :: c in principal.value && c.typ == RoleClaimType && c.val == GetDeviceStatusRoleName)
    ensures r.BadRequestObjectResult? <==> principal.Some? && MayReadStatus(principal.value) && deviceId.None?
    ensures r.BadRequestObjectResult? ==> r.message == "Missing DeviceId"
    ensures r == NotFoundResult <==>
      principal.Some? && MayReadStatus(principal.value) && deviceId.Some? && deviceStatus.None?
    ensures r.OkObjectResult? <==>
      principal.Some? && MayReadStatus(principal.value) && deviceId.Some? && deviceStatus.Some?
    ensures r.OkObjectResult? ==> r.value == deviceStatus.value
  {
    if principal.None? || !MayReadStatus(principal.value) then UnauthorizedResult
    else if deviceId.None? then BadRequestObjectResult("Missing DeviceId")
    else if deviceStatus.None? then NotFoundResult
    else OkObjectResult(deviceStatus.value)
  }

  /** Authorization is decided first: a refused principal gets Unauthorized
      whatever the query and the stored status are. */
  lemma AuthorizationDecidedFirst<S>(principal: Option<seq<Claim>>,
                                     deviceId: Option<string>, deviceStatus: Option<S>,
                                     deviceId': Option<string>, deviceStatus': Option<S>)
    requires Run(principal, deviceId, deviceStatus) == UnauthorizedResult
    ensures Run(principal, deviceId', deviceStatus') == UnauthorizedResult
  {
  }

  /** A principal holding the role, with no deviceId in the query, gets BadRequest. */
  lemma BadRequestForMissingDeviceId()
    ensures Run<int>(Some([Claim("roles", GetDeviceStatusRoleName)]), None, None).BadRequestObjectResult?
  {
  }

  /** A principal with no claims at all gets Unauthorized. */
  lemma UnauthorizedForPrincipalWithoutRoles()
    ensures Run<int>(Some([]), None, None) == UnauthorizedResult
  {
  }

  /** A claim of another type is no role, even when its value names one. */
  lemma UnauthorizedForNonRequiredRoles()
    ensures Run<int>(Some([Claim("SomeRole", "SomeOtherRole")]), None, None) == UnauthorizedResult
    ensures Run<int>(Some([Claim("SomeRole", GetDeviceStatusRoleName)]), Some("device1"), Some(1)) == UnauthorizedResult
  {
  }

  /** An authorized request for a drone with no stored status gets NotFound. */
  lemma NotFoundForMissingDocument()
    ensures Run<int>(Some([Claim("roles", GetDeviceStatusRoleName)]), Some("device1"), None) == NotFoundResult
  {
  }
}
