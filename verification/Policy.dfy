/** The configurable permission matrix: which roles may perform which action in a group. */
module Policy {
  import opened Wrappers

  const ROLE_SERVER_ADMIN := "server_admin"
  const ROLE_GROUP_ADMIN := "group_admin"
  const ROLE_WRITER := "writer"
  const ROLE_READER := "reader"
  const ROLE_MEMBER := "member"

  const ACTION_SEND_MESSAGES := "send_messages"
  const ACTION_READ_MESSAGES := "read_messages"
  const ACTION_SEND_ATTACHMENTS := "send_attachments"
  const ACTION_SHARE_DRAWINGS := "share_drawings"
  const ACTION_SHARE_LOCATION := "share_location"
  const ACTION_VIEW_LOCATIONS := "view_locations"

  const ACTION_ADD_MEMBERS := "add_members"
  const ACTION_REMOVE_MEMBERS := "remove_members"
  const ACTION_UPDATE_MEMBERS := "update_members"
  const ACTION_UPDATE_MARKER := "update_marker"
  const ACTION_VIEW_AUDIT_LOGS := "view_audit_logs"

  const COMMUNICATION_ROLES: set<string> :=
    {ROLE_SERVER_ADMIN, ROLE_GROUP_ADMIN, ROLE_WRITER, ROLE_READER}

  const MANAGEMENT_ROLES: set<string> := {ROLE_GROUP_ADMIN, ROLE_MEMBER}

  const COMMUNICATION_ACTIONS: set<string> :=
    {ACTION_SEND_MESSAGES, ACTION_READ_MESSAGES, ACTION_SEND_ATTACHMENTS,
     ACTION_SHARE_DRAWINGS, ACTION_SHARE_LOCATION, ACTION_VIEW_LOCATIONS}

  const MANAGEMENT_ACTIONS: set<string> :=
    {ACTION_ADD_MEMBERS, ACTION_REMOVE_MEMBERS, ACTION_UPDATE_MEMBERS,
     ACTION_UPDATE_MARKER, ACTION_VIEW_AUDIT_LOGS}

  /** The permission columns of a row of group_members. */
  datatype GroupMember = GroupMember(canRead: bool, canWrite: bool, isGroupAdmin: bool)

  datatype PermissionPolicy = PermissionPolicy(
    communication: map<string, seq<string>>,
    management: map<string, seq<string>>)

  /** Whether one role name is held; unknown names are held by nobody. */
  predicate Holds(role: string, member: GroupMember, isServerAdmin: bool) {
    || (role == ROLE_SERVER_ADMIN && isServerAdmin)
    || (role == ROLE_GROUP_ADMIN && member.isGroupAdmin)
    || (role == ROLE_WRITER && member.canWrite)
    || (role == ROLE_READER && member.canRead)
    || role == ROLE_MEMBER
  }

  predicate MatchesAny(roles: seq<string>, member: GroupMember, isServerAdmin: bool) {
    roles != [] && (Holds(roles[0], member, isServerAdmin) || MatchesAny(roles[1..], member, isServerAdmin))
  }

  /** The scan answers whether some listed role is held; order and repetition do not matter. */
  lemma {:induction false} MatchesAnyIff(roles: seq<string>, member: GroupMember, isServerAdmin: bool)
    ensures MatchesAny(roles, member, isServerAdmin) <==> exists r | r in roles :: Holds(r, member, isServerAdmin)
  {
    if roles != [] {
      MatchesAnyIff(roles[1..], member, isServerAdmin);
      assert roles == [roles[0]] + roles[1..];
    }
  }

  predicate CheckCommunication(p: PermissionPolicy, action: string, member: Option<GroupMember>, isServerAdmin: bool) {
    match member
    case None => false
    case Some(m) => action in p.communication && MatchesAny(p.communication[action], m, isServerAdmin)
  }

  /** The management loop knows two roles only; server admins get nothing from it. */
  predicate MatchesManagement(roles: seq<string>, member: GroupMember)
    ensures MatchesManagement(roles, member) <==>
            ROLE_MEMBER in roles || (ROLE_GROUP_ADMIN in roles && member.isGroupAdmin)
  {
    if roles == [] then false
    else
      assert roles == [roles[0]] + roles[1..];
      if roles[0] == ROLE_GROUP_ADMIN && member.isGroupAdmin then true
      else if roles[0] == ROLE_MEMBER then true
      else MatchesManagement(roles[1..], member)
  }

  predicate CheckManagement(p: PermissionPolicy, action: string, member: Option<GroupMember>) {
    match member
    case None => false
    case Some(m) => action in p.management && MatchesManagement(p.management[action], m)
  }

  predicate RowsKnown(rows: map<string, seq<string>>, actions: set<string>, roles: set<string>) {
    forall a | a in rows :: a in actions && forall r | r in rows[a] :: r in roles
  }

  /** Exactly the known actions, and only the roles allowed in each matrix. */
  predicate WellFormed(p: PermissionPolicy) {
    && RowsKnown(p.communication, COMMUNICATION_ACTIONS, COMMUNICATION_ROLES)
    && RowsKnown(p.management, MANAGEMENT_ACTIONS, MANAGEMENT_ROLES)
    && COMMUNICATION_ACTIONS <= p.communication.Keys
    && MANAGEMENT_ACTIONS <= p.management.Keys
  }

  datatype PolicyError =
    | UnknownAction(action: string)
    | InvalidRole(role: string, action: string)
    | MissingAction(action: string)

  /** One of the two loops over a matrix; the map is visited in no particular order. */
  method ValidateRows(rows: map<string, seq<string>>, actions: set<string>, roles: set<string>)
    returns (err: Option<PolicyError>)
    ensures err.None? <==> RowsKnown(rows, actions, roles)
    ensures err.Some? ==> match err.value
                          case UnknownAction(a) => a in rows && a !in actions
                          case InvalidRole(r, a) => a in rows && r in rows[a] && r !in roles
                          case MissingAction(_) => false
  {
    var rest := rows.Keys;
    while rest != {}
      invariant rest <= rows.Keys
      invariant forall a | a in rows && a !in rest :: a in actions && forall r | r in rows[a] :: r in roles
    {
      var a :| a in rest;
      if a !in actions {
        return Some(UnknownAction(a));
      }
      for i := 0 to |rows[a]|
        invariant forall j | 0 <= j < i :: rows[a][j] in roles
      {
        if rows[a][i] !in roles {
          return Some(InvalidRole(rows[a][i], a));
        }
      }
      rest := rest - {a};
    }
    err := None;
  }

  method FindMissing(actions: set<string>, present: set<string>) returns (missing: Option<string>)
    ensures missing.None? <==> actions <= present
    ensures missing.Some? ==> missing.value in actions && missing.value !in present
  {
    var rest := actions;
    while rest != {}
      invariant rest <= actions
      invariant actions - rest <= present
    {
      var a :| a in rest;
      if a !in present {
        return Some(a);
      }
      rest := rest - {a};
    }
    missing := None;
  }

  /** Accepts exactly the well-formed policies. */
  method Validate(p: PermissionPolicy) returns (err: Option<PolicyError>)
    ensures err.None? <==> WellFormed(p)
  {
    err := ValidateRows(p.communication, COMMUNICATION_ACTIONS, COMMUNICATION_ROLES);
    if err.Some? { return; }
    err := ValidateRows(p.management, MANAGEMENT_ACTIONS, MANAGEMENT_ROLES);
    if err.Some? { return; }
    var missing := FindMissing(COMMUNICATION_ACTIONS, p.communication.Keys);
    if missing.Some? { return Some(MissingAction(missing.value)); }
    missing := FindMissing(MANAGEMENT_ACTIONS, p.management.Keys);
    if missing.Some? { return Some(MissingAction(missing.value)); }
    err := None;
  }

  /** m holds every flag that l holds. */
  predicate AtLeast(m: GroupMember, l: GroupMember) {
    (l.canRead ==> m.canRead) && (l.canWrite ==> m.canWrite) && (l.isGroupAdmin ==> m.isGroupAdmin)
  }

  /** Under every policy, well-formed or not, gaining flags never loses a permission. */
  lemma MoreFlagsMorePermissions(p: PermissionPolicy, action: string, l: GroupMember, m: GroupMember,
                                 adminL: bool, adminM: bool)
    requires AtLeast(m, l) && (adminL ==> adminM)
    requires CheckCommunication(p, action, Some(l), adminL)
    ensures CheckCommunication(p, action, Some(m), adminM)
  {
    MatchesAnyIff(p.communication[action], l, adminL);
    MatchesAnyIff(p.communication[action], m, adminM);
    var r :| r in p.communication[action] && Holds(r, l, adminL);
    assert Holds(r, m, adminM);
  }

  /**
   * A policy that passed validation denies every communication action to a member without
   * flags, answers every known action from an existing row, and grants management actions
   * by group-level roles alone.
   */
  lemma ValidatedPolicyDenies(p: PermissionPolicy, action: string, member: GroupMember)
    requires WellFormed(p)
    requires !member.canRead && !member.canWrite && !member.isGroupAdmin
    ensures !CheckCommunication(p, action, Some(member), false)
    ensures CheckManagement(p, action, Some(member)) ==> action in MANAGEMENT_ACTIONS && ROLE_MEMBER in p.management[action]
  {
    if action in p.communication {
      forall r | r in p.communication[action]
        ensures !Holds(r, member, false)
      {
        assert r in COMMUNICATION_ROLES;
      }
      MatchesAnyIff(p.communication[action], member, false);
    }
  }

  // ------------------------------------------------------------ in the names' own spelling

  /** What a row of the communication matrix grants: to server admins, group admins, writers, readers, or any member. */
  lemma CommunicationMeans(p: PermissionPolicy, action: string, member: Option<GroupMember>, isServerAdmin: bool)
    ensures CheckCommunication(p, action, member, isServerAdmin) <==>
            && member.Some? && action in p.communication
            && var roles := p.communication[action];
               || ("server_admin" in roles && isServerAdmin)
               || ("group_admin" in roles && member.value.isGroupAdmin)
               || ("writer" in roles && member.value.canWrite)
               || ("reader" in roles && member.value.canRead)
               || "member" in roles
  {
    if member.Some? && action in p.communication {
      var roles := p.communication[action];
      MatchesAnyIff(roles, member.value, isServerAdmin);
      assert "server_admin" in roles && isServerAdmin ==> Holds("server_admin", member.value, isServerAdmin);
      assert "group_admin" in roles && member.value.isGroupAdmin ==> Holds("group_admin", member.value, isServerAdmin);
      assert "writer" in roles && member.value.canWrite ==> Holds("writer", member.value, isServerAdmin);
      assert "reader" in roles && member.value.canRead ==> Holds("reader", member.value, isServerAdmin);
      assert "member" in roles ==> Holds("member", member.value, isServerAdmin);
    }
  }

  /** And one of the management matrix: to group admins, or any member. */
  lemma ManagementMeans(p: PermissionPolicy, action: string, member: Option<GroupMember>)
    ensures CheckManagement(p, action, member) <==>
            && member.Some? && action in p.management
            && ("member" in p.management[action] || ("group_admin" in p.management[action] && member.value.isGroupAdmin))
  {
  }

  /** Validation lets through exactly the matrices with these rows and these roles. */
  lemma WellFormedMeans(p: PermissionPolicy)
    ensures WellFormed(p) <==>
            && p.communication.Keys == {"send_messages", "read_messages", "send_attachments",
                                        "share_drawings", "share_location", "view_locations"}
            && p.management.Keys == {"add_members", "remove_members", "update_members",
                                     "update_marker", "view_audit_logs"}
            && (forall a, r | a in p.communication && r in p.communication[a] ::
                  r in {"server_admin", "group_admin", "writer", "reader"})
            && (forall a, r | a in p.management && r in p.management[a] :: r in {"group_admin", "member"})
  {
    if WellFormed(p) {
      assert p.communication.Keys == COMMUNICATION_ACTIONS && p.management.Keys == MANAGEMENT_ACTIONS;
    }
  }

  const WRITING_ROLES := [ROLE_SERVER_ADMIN, ROLE_GROUP_ADMIN, ROLE_WRITER]
  const READING_ROLES := [ROLE_SERVER_ADMIN, ROLE_GROUP_ADMIN, ROLE_WRITER, ROLE_READER]

  const DEFAULT_POLICY := PermissionPolicy(
    map[ACTION_SEND_MESSAGES := WRITING_ROLES, ACTION_READ_MESSAGES := READING_ROLES,
        ACTION_SEND_ATTACHMENTS := WRITING_ROLES, ACTION_SHARE_DRAWINGS := WRITING_ROLES,
        ACTION_SHARE_LOCATION := READING_ROLES, ACTION_VIEW_LOCATIONS := READING_ROLES],
    map[ACTION_ADD_MEMBERS := [ROLE_GROUP_ADMIN], ACTION_REMOVE_MEMBERS := [ROLE_GROUP_ADMIN],
        ACTION_UPDATE_MEMBERS := [ROLE_GROUP_ADMIN], ACTION_UPDATE_MARKER := [ROLE_GROUP_ADMIN],
        ACTION_VIEW_AUDIT_LOGS := [ROLE_GROUP_ADMIN]])

  lemma DefaultWriting(action: string, m: GroupMember, isServerAdmin: bool)
    requires action in {"send_messages", "send_attachments", "share_drawings"}
    ensures CheckCommunication(DEFAULT_POLICY, action, Some(m), isServerAdmin) <==>
            isServerAdmin || m.isGroupAdmin || m.canWrite
  {
    CommunicationMeans(DEFAULT_POLICY, action, Some(m), isServerAdmin);
    assert DEFAULT_POLICY.communication[action] == WRITING_ROLES;
    assert WRITING_ROLES[0] == "server_admin" && WRITING_ROLES[1] == "group_admin" && WRITING_ROLES[2] == "writer";
  }

  lemma DefaultReading(action: string, m: GroupMember, isServerAdmin: bool)
    requires action in {"read_messages", "share_location", "view_locations"}
    ensures CheckCommunication(DEFAULT_POLICY, action, Some(m), isServerAdmin) <==>
            isServerAdmin || m.isGroupAdmin || m.canWrite || m.canRead
  {
    CommunicationMeans(DEFAULT_POLICY, action, Some(m), isServerAdmin);
    assert DEFAULT_POLICY.communication[action] == READING_ROLES;
    assert READING_ROLES[0] == "server_admin" && READING_ROLES[1] == "group_admin";
    assert READING_ROLES[2] == "writer" && READING_ROLES[3] == "reader";
  }

  /**
   * The default matrix passes validation. Under it whoever may write may send and share drawings,
   * whoever may read may also read and share and see positions, and group admins alone manage.
   */
  lemma DefaultPolicyMeans(m: GroupMember, isServerAdmin: bool)
    ensures WellFormed(DEFAULT_POLICY)
    ensures forall a | a in {"send_messages", "send_attachments", "share_drawings"} ::
              CheckCommunication(DEFAULT_POLICY, a, Some(m), isServerAdmin) <==>
              isServerAdmin || m.isGroupAdmin || m.canWrite
    ensures forall a | a in {"read_messages", "share_location", "view_locations"} ::
              CheckCommunication(DEFAULT_POLICY, a, Some(m), isServerAdmin) <==>
              isServerAdmin || m.isGroupAdmin || m.canWrite || m.canRead
    ensures forall a | a in {"add_members", "remove_members", "update_members", "update_marker", "view_audit_logs"} ::
              CheckManagement(DEFAULT_POLICY, a, Some(m)) <==> m.isGroupAdmin
  {
    DefaultIsWellFormed();
    forall a | a in {"send_messages", "send_attachments", "share_drawings"}
      ensures CheckCommunication(DEFAULT_POLICY, a, Some(m), isServerAdmin) <==>
              isServerAdmin || m.isGroupAdmin || m.canWrite
    {
      DefaultWriting(a, m, isServerAdmin);
    }
    forall a | a in {"read_messages", "share_location", "view_locations"}
      ensures CheckCommunication(DEFAULT_POLICY, a, Some(m), isServerAdmin) <==>
              isServerAdmin || m.isGroupAdmin || m.canWrite || m.canRead
    {
      DefaultReading(a, m, isServerAdmin);
    }
    forall a | a in {"add_members", "remove_members", "update_members", "update_marker", "view_audit_logs"}
      ensures CheckManagement(DEFAULT_POLICY, a, Some(m)) <==> m.isGroupAdmin
    {
      assert DEFAULT_POLICY.management[a] == [ROLE_GROUP_ADMIN];
      ManagementMeans(DEFAULT_POLICY, a, Some(m));
    }
  }

  lemma DefaultIsWellFormed()
    ensures WellFormed(DEFAULT_POLICY)
  {
    forall a | a in DEFAULT_POLICY.communication
      ensures a in COMMUNICATION_ACTIONS && forall r | r in DEFAULT_POLICY.communication[a] :: r in COMMUNICATION_ROLES
    {
      assert DEFAULT_POLICY.communication[a] in [WRITING_ROLES, READING_ROLES];
    }
    forall a | a in DEFAULT_POLICY.management
      ensures a in MANAGEMENT_ACTIONS && forall r | r in DEFAULT_POLICY.management[a] :: r in MANAGEMENT_ROLES
    {
      assert DEFAULT_POLICY.management[a] == [ROLE_GROUP_ADMIN];
    }
  }
}
