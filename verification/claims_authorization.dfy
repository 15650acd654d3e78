/** The role check shared by the status function's C# and Node versions:
    a principal is authorized when each required role is the value of one of
    its claims of type "roles". */
module RoleAuthorization {

  /** A claim of the principal: its type (`typ`) and value (`val`). */
  datatype Claim = Claim(typ: string, val: string)

  const RoleClaimType: string := "roles"

  /** The values of the principal's "roles" claims; claims of other types are ignored. */
  function PrincipalRoles(claims: seq<Claim>): (s: set<string>)
    ensures forall r :: r in s <==> exists c :: c in claims && c.typ == RoleClaimType && c.val == r
  {
    set c | c in claims && c.typ == RoleClaimType :: c.val
  }

  /** The required roles the principal lacks, in the order they were required. */
  function MissingRoles(claims: seq<Claim>, roles: seq<string>): (m: seq<string>)
    ensures forall r :: r in m <==> r in roles && r !in PrincipalRoles(claims)
    ensures |m| <= |roles|
  {
    if roles == [] then []
    else
      var rest := MissingRoles(claims, roles[1..]);
      if roles[0] in PrincipalRoles(claims) then rest else [roles[0]] + rest
  }

  /** `IsAuthorizedByRoles`: false exactly when some required role is missing. */
  function IsAuthorizedByRoles(claims: seq<Claim>, roles: seq<string>): (b: bool)
    ensures b <==> forall r :: r in roles ==> exists c :: c in claims && c.typ == RoleClaimType && c.val == r
    ensures roles == [] ==> b
  {
    var missing := MissingRoles(claims, roles);
    assert missing != [] ==> missing[0] in missing;
    |missing| == 0
  }

  /** The decision depends only on which claims are present: reordering or
      duplicating claims does not change it. */
  lemma AuthorizationIgnoresOrder(claims: seq<Claim>, claims': seq<Claim>, roles: seq<string>)
    requires forall c :: c in claims <==> c in claims'
    ensures IsAuthorizedByRoles(claims, roles) == IsAuthorizedByRoles(claims', roles)
  {
    assert PrincipalRoles(claims) == PrincipalRoles(claims');
  }

  /** More claims never revoke an authorization; more required roles never grant one. */
  lemma AuthorizationMonotonic(claims: seq<Claim>, claims': seq<Claim>, roles: seq<string>, roles': seq<string>)
    requires forall c :: c in claims ==> c in claims'
    requires forall r :: r in roles ==> r in roles'
    ensures IsAuthorizedByRoles(claims, roles') ==> IsAuthorizedByRoles(claims', roles)
  {
    if IsAuthorizedByRoles(claims, roles') {
      forall r | r in roles
        ensures r in PrincipalRoles(claims')
      {
        assert r in PrincipalRoles(claims);
      }
    }
  }

  /** A claim whose type is not "roles" grants nothing, even when its value
      is a required role. */
  lemma OtherClaimTypesIgnored(claims: seq<Claim>, other: Claim, roles: seq<string>)
    requires other.typ != RoleClaimType
    ensures IsAuthorizedByRoles(claims + [other], roles) == IsAuthorizedByRoles(claims, roles)
  {
    assert PrincipalRoles(claims + [other]) == PrincipalRoles(claims);
  }
}
