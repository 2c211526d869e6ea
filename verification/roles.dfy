/** The default role names (Infrastructure/Constants/RoleConstants.cs). */
module Roles {

  const Admin: string := "Admin"
  const Basic: string := "Basic"

  /** RoleConstants.DefaultRoles, in declaration order. */
  const DefaultRoles: seq<string> := [Admin, Basic]

  /** RoleConstants.IsDefaultRole: membership in DefaultRoles. */
  function IsDefaultRole(roleName: string): (r: bool)
    ensures r <==> roleName == "Admin" || roleName == "Basic"
  {
    roleName in DefaultRoles
  }

  /** DefaultRoles holds the two distinct names Admin then Basic. */
  lemma DefaultRolesShape()
    ensures |DefaultRoles| == 2
    ensures DefaultRoles[0] == "Admin" && DefaultRoles[1] == "Basic"
    ensures DefaultRoles[0] != DefaultRoles[1]
  {
  }
}
