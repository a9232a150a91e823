/** The role gate `authorize(...allowedRoles)` (server/middlewares/authorize.js).
    Roles are compared as the strings the route passes and the user record holds. */
module Authorize {
  import opened Common

  /** What the gate does with a request: hand it on, or answer it. */
  datatype Gate = Next | Deny(code: nat, message: string)

  /** The decision reads nothing but the caller's role and the allowed list. */
  function Authorize(allowed: seq<string>, role: Option<string>): (g: Gate)
    ensures g.Next? <==> Truthy(role) && role.value in allowed
    ensures !Truthy(role) ==> g == Deny(403, "User role not found")
    ensures Truthy(role) && role.value !in allowed
            ==> g == Deny(403, "Forbidden: User role '" + role.value + "' is not authorized for this action")
  {
    if !Truthy(role) then Deny(403, "User role not found")
    else if role.value !in allowed then
      Deny(403, "Forbidden: User role '" + role.value + "' is not authorized for this action")
    else Next
  }

  /** Allowing more roles never refuses a request that was let through. */
  lemma AuthorizeMonotone(allowed: seq<string>, more: seq<string>, role: Option<string>)
    requires forall x :: x in allowed ==> x in more
    requires Authorize(allowed, role).Next?
    ensures Authorize(more, role).Next?
  {
  }

  /** The gate in front of project create, update and delete
      (server/routes/projectRoutes.js). */
  const ProjectMutationRoles: seq<string> := ["admin", "architect"]

  /** Behind that gate a client never reaches the project handlers, while
      admins and architects do. */
  lemma ProjectMutationGate()
    ensures Authorize(ProjectMutationRoles, Some("client")).Deny?
    ensures Authorize(ProjectMutationRoles, Some("admin")) == Next
    ensures Authorize(ProjectMutationRoles, Some("architect")) == Next
  {
    assert "client" != "admin" && "client" != "architect";
  }
}
