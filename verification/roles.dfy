/**
 * Roles and what they may do: the capability table of the two roles and
 * the auth context's role check.
 */
module Roles {
  import opened Wrappers

  datatype UserRole = Admin | Reader

  datatype Capability =
    | ManageUsers
    | ManageSettings
    | Publish
    | EditAllContent
    | AccessMedia
    | AccessAnalytics
    | AccessSecurity
    | AccessAdmin

  /** `RoleCapabilities`: one row of flags per role. */
  type CapabilityTable = map<UserRole, map<Capability, bool>>

  const AllCapabilities: set<Capability> :=
    {ManageUsers, ManageSettings, Publish, EditAllContent, AccessMedia, AccessAnalytics, AccessSecurity, AccessAdmin}

  const RoleCapabilities: CapabilityTable := map[
    Admin := map[
      ManageUsers := true, ManageSettings := true, Publish := true, EditAllContent := true,
      AccessMedia := true, AccessAnalytics := true, AccessSecurity := true, AccessAdmin := true],
    Reader := map[
      ManageUsers := false, ManageSettings := false, Publish := false, EditAllContent := false,
      AccessMedia := false, AccessAnalytics := false, AccessSecurity := false, AccessAdmin := false]
  ]

  /** Every role has a flag for every capability. */
  predicate Complete(table: CapabilityTable) {
    table.Keys == {Admin, Reader} && forall role <- table.Keys :: table[role].Keys == AllCapabilities
  }

  lemma EveryCapability(c: Capability)
    ensures c in AllCapabilities
  {
    match c
    case ManageUsers =>
    case ManageSettings =>
    case Publish =>
    case EditAllContent =>
    case AccessMedia =>
    case AccessAnalytics =>
    case AccessSecurity =>
    case AccessAdmin =>
  }

  lemma TableComplete()
    ensures Complete(RoleCapabilities)
  {
    assert RoleCapabilities.Keys == {Admin, Reader};
  }

  /** `hasCapability`: a lookup in the table, nothing else. */
  function HasCapability(table: CapabilityTable, role: UserRole, capability: Capability): bool
    requires Complete(table)
  {
    EveryCapability(capability);
    assert role == Admin || role == Reader;
    table[role][capability]
  }

  /** An admin may do everything, a reader nothing. */
  lemma AdminAllReaderNone(capability: Capability)
    ensures Complete(RoleCapabilities) && HasCapability(RoleCapabilities, Admin, capability)
    ensures Complete(RoleCapabilities) && !HasCapability(RoleCapabilities, Reader, capability)
  {
    TableComplete();
  }

  /** A capability tells the two roles apart exactly. */
  lemma CapabilityDecidesRole(role: UserRole, capability: Capability)
    ensures Complete(RoleCapabilities) && (HasCapability(RoleCapabilities, role, capability) <==> role == Admin)
  {
    TableComplete();
  }

  /** The argument of `hasRole`: one role or a list of them. */
  datatype RoleArg = One(role: UserRole) | Many(roles: seq<UserRole>)

  /** `Array.isArray(roles) ? roles : [roles]` */
  function RoleList(arg: RoleArg): (r: seq<UserRole>)
    ensures arg.One? ==> r == [arg.role]
  {
    match arg
    case One(role) => [role]
    case Many(roles) => roles
  }

  /** `hasRole`: no signed-in user has no role; otherwise the user's role must be listed. */
  function HasRole(user: Option<UserRole>, arg: RoleArg): (r: bool)
    ensures r <==> user.Some? && user.value in RoleList(arg)
  {
    if user.None? then false
    else user.value in RoleList(arg)
  }

  /** Asking for a single role is asking whether the user has exactly that role. */
  lemma HasSingleRole(user: Option<UserRole>, role: UserRole)
    ensures HasRole(user, One(role)) <==> user == Some(role)
  {
  }

  /** Listing more roles never takes access away. */
  lemma HasRoleMonotone(user: Option<UserRole>, roles: seq<UserRole>, more: seq<UserRole>)
    ensures HasRole(user, Many(roles)) ==> HasRole(user, Many(roles + more))
  {
  }
}
