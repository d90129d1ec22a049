/** The role parser of the user routes: `toUserRole`, which turns a request value into a
    role only when it is exactly one of the role names. */
module UserController {
  import opened Wrappers
  import opened Entities
  import opened Json

  function ToUserRole(role: Js): (r: Option<UserRole>)
    ensures r.Some? <==> role.JsString? && role.s in {"OWNER", "OPERATOR", "VIEWER"}
    ensures r.Some? ==> RoleName(r.value) == role.s
  {
    if role.JsString? && (role.s == "OWNER" || role.s == "OPERATOR" || role.s == "VIEWER") then
      match role.s
      case "OWNER" => Some(OWNER)
      case "OPERATOR" => Some(OPERATOR)
      case _ => Some(VIEWER)
    else
      None
  }

  /** Each role's name parses back to that role. */
  lemma ToUserRoleRoundTrip(r: UserRole)
    ensures ToUserRole(JsString(RoleName(r))) == Some(r)
  {
  }

  /** A parsed role names itself: parsing is the inverse of naming on the role names. */
  lemma ToUserRoleInverse(v: Js)
    ensures ToUserRole(v).Some? ==> v == JsString(RoleName(ToUserRole(v).value))
    ensures ToUserRole(v) == (if v.JsString? then RoleFromName(v.s) else None)
  {
  }

  /** The match is exact: a lower-case or padded name is not a role, nor is a non-string. */
  lemma ToUserRoleRejects(v: Js)
    ensures ToUserRole(JsString("owner")).None? && ToUserRole(JsString("Viewer")).None? && ToUserRole(JsString(" OWNER")).None?
    ensures !v.JsString? ==> ToUserRole(v).None?
  {
  }
}
