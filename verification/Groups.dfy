/**
 * Group membership management: permission checks, the group_members table, and the notice
 * that every change of a user's rows sends to the hub.
 */
module Groups {
  import opened Channels
  import opened Delivery
  import opened Policy
  import opened Uuids
  import opened Wrappers

  datatype Error = NotFound | Forbidden | Conflict

  datatype AddRequest = AddRequest(
    user: Id, canRead: Option<bool>, canWrite: Option<bool>, isGroupAdmin: Option<bool>)

  datatype UpdateRequest = UpdateRequest(
    canRead: Option<bool>, canWrite: Option<bool>, isGroupAdmin: Option<bool>)

  datatype Caller = Caller(user: Id, isAdmin: bool)

  /** The tables a call reads and the one it writes, with everything published so far. */
  datatype State = State(
    groups: set<Id>, users: set<Id>, policy: PermissionPolicy,
    members: map<(Id, Id), GroupMember>, published: seq<PubMessage>)

  function Notice(user: Id): PubMessage {
    PubMessage(Name(UserMembership, user), MembershipPayload(user))
  }

  function Member(s: State, group: Id, user: Id): Option<GroupMember> {
    if (group, user) in s.members then Some(s.members[(group, user)]) else None
  }

  /** Server admins bypass the matrix; everybody else needs a row and the action. */
  predicate Manages(s: State, caller: Caller, group: Id, action: string) {
    caller.isAdmin || CheckManagement(s.policy, action, Member(s, group, caller.user))
  }

  datatype Call =
    | Add(group: Id, add: AddRequest)
    | Update(group: Id, user: Id, update: UpdateRequest)
    | Remove(group: Id, user: Id)

  function Target(call: Call): Id {
    if call.Add? then call.add.user else call.user
  }

  /** Why a call is refused, if it is. */
  function Refusal(s: State, caller: Caller, call: Call): Option<Error> {
    match call
    case Add(g, r) =>
      if g !in s.groups then Some(NotFound)
      else if !Manages(s, caller, g, ACTION_ADD_MEMBERS) then Some(Forbidden)
      else if r.user !in s.users then Some(NotFound)
      else if r.isGroupAdmin == Some(true) && !caller.isAdmin then Some(Forbidden)
      else if Member(s, g, r.user).Some? then Some(Conflict)
      else None
    case Update(g, u, r) =>
      if Member(s, g, u).None? then Some(NotFound)
      else if !Manages(s, caller, g, ACTION_UPDATE_MEMBERS) then Some(Forbidden)
      else if !caller.isAdmin && s.members[(g, u)].isGroupAdmin && u != caller.user then Some(Forbidden)
      else if r.isGroupAdmin.Some? && !caller.isAdmin then Some(Forbidden)
      else None
    case Remove(g, u) =>
      if g !in s.groups then Some(NotFound)
      else if !Manages(s, caller, g, ACTION_REMOVE_MEMBERS) then Some(Forbidden)
      else if Member(s, g, u).None? then Some(NotFound)
      else if !caller.isAdmin && s.members[(g, u)].isGroupAdmin then Some(Forbidden)
      else None
  }

  /** The row a successful call leaves behind; None means no row. */
  function NewRow(s: State, call: Call): Option<GroupMember> {
    match call
    case Add(_, r) =>
      Some(GroupMember(r.canRead.GetOr(true), r.canWrite.GetOr(false), r.isGroupAdmin.GetOr(false)))
    case Update(g, u, r) =>
      if (g, u) !in s.members then None
      else
        var m := s.members[(g, u)];
        Some(GroupMember(r.canRead.GetOr(m.canRead), r.canWrite.GetOr(m.canWrite), r.isGroupAdmin.GetOr(m.isGroupAdmin)))
    case Remove(_, _) => None
  }

  function WithRow(members: map<(Id, Id), GroupMember>, key: (Id, Id), row: Option<GroupMember>)
    : map<(Id, Id), GroupMember>
  {
    match row
    case Some(m) => members[key := m]
    case None => members - {key}
  }

  function Do(s: State, caller: Caller, call: Call): State {
    if Refusal(s, caller, call).Some? then s
    else s.(members := WithRow(s.members, (call.group, Target(call)), NewRow(s, call)),
            published := s.published + [Notice(Target(call))])
  }

  class GroupService {
    var groups: set<Id>
    var users: set<Id>
    var policy: PermissionPolicy
    var members: map<(Id, Id), GroupMember>
    var published: seq<PubMessage>

    constructor (groups: set<Id>, users: set<Id>, policy: PermissionPolicy)
      ensures View() == State(groups, users, policy, map[], [])
    {
      this.groups, this.users, this.policy := groups, users, policy;
      members, published := map[], [];
    }

    function View(): State
      reads this
    {
      State(groups, users, policy, members, published)
    }

    method PublishMembershipChanged(user: Id)
      modifies this`published
      ensures published == old(published) + [Notice(user)]
    {
      published := published + [PubMessage(Name(UserMembership, user), MembershipPayload(user))];
    }

    /** The permission check shared by the three operations. */
    method RequireManagement(caller: Caller, group: Id, action: string) returns (refused: bool)
      ensures refused == !Manages(View(), caller, group, action)
    {
      refused := false;
      if !caller.isAdmin {
        if (group, caller.user) !in members {
          return true;
        }
        refused := !CheckManagement(policy, action, Some(members[(group, caller.user)]));
      }
    }

    method AddMember(caller: Caller, group: Id, req: AddRequest) returns (r: Result<GroupMember, Error>)
      modifies this`members, this`published
      ensures View() == Do(old(View()), caller, Add(group, req))
      ensures r == match Refusal(old(View()), caller, Add(group, req))
                   case Some(e) => Failure(e)
                   case None => Success(NewRow(old(View()), Add(group, req)).value)
    {
      if group !in groups {
        return Failure(NotFound);
      }
      var refused := RequireManagement(caller, group, ACTION_ADD_MEMBERS);
      if refused {
        return Failure(Forbidden);
      }
      if req.user !in users {
        return Failure(NotFound);
      }
      var canRead := true;
      if req.canRead.Some? {
        canRead := req.canRead.value;
      }
      var canWrite := false;
      if req.canWrite.Some? {
        canWrite := req.canWrite.value;
      }
      var isGroupAdmin := false;
      if req.isGroupAdmin.Some? {
        if req.isGroupAdmin.value && !caller.isAdmin {
          return Failure(Forbidden);
        }
        isGroupAdmin := req.isGroupAdmin.value;
      }
      var member := GroupMember(canRead, canWrite, isGroupAdmin);
      if (group, req.user) in members {
        return Failure(Conflict);
      }
      members := members[(group, req.user) := member];
      PublishMembershipChanged(req.user);
      r := Success(member);
    }

    method UpdateMember(caller: Caller, group: Id, user: Id, req: UpdateRequest) returns (r: Result<GroupMember, Error>)
      modifies this`members, this`published
      ensures View() == Do(old(View()), caller, Update(group, user, req))
      ensures r == match Refusal(old(View()), caller, Update(group, user, req))
                   case Some(e) => Failure(e)
                   case None => Success(NewRow(old(View()), Update(group, user, req)).value)
    {
      if (group, user) !in members {
        return Failure(NotFound);
      }
      var member := members[(group, user)];
      var refused := RequireManagement(caller, group, ACTION_UPDATE_MEMBERS);
      if refused {
        return Failure(Forbidden);
      }
      if !caller.isAdmin && member.isGroupAdmin && user != caller.user {
        return Failure(Forbidden);
      }
      member := member.(canRead := req.canRead.GetOr(member.canRead));
      member := member.(canWrite := req.canWrite.GetOr(member.canWrite));
      if req.isGroupAdmin.Some? {
        if !caller.isAdmin {
          return Failure(Forbidden);
        }
        member := member.(isGroupAdmin := req.isGroupAdmin.value);
      }
      members := members[(group, user) := member];
      PublishMembershipChanged(user);
      r := Success(member);
    }

    method RemoveMember(caller: Caller, group: Id, user: Id) returns (r: Option<Error>)
      modifies this`members, this`published
      ensures View() == Do(old(View()), caller, Remove(group, user))
      ensures r == Refusal(old(View()), caller, Remove(group, user))
    {
      if group !in groups {
        return Some(NotFound);
      }
      var refused := RequireManagement(caller, group, ACTION_REMOVE_MEMBERS);
      if refused {
        return Some(Forbidden);
      }
      if !caller.isAdmin {
        if (group, user) !in members {
          return Some(NotFound);
        }
        if members[(group, user)].isGroupAdmin {
          return Some(Forbidden);
        }
      }
      if (group, user) !in members {
        return Some(NotFound);
      }
      members := members - {(group, user)};
      PublishMembershipChanged(user);
      r := None;
    }
  }

  // ------------------------------------------------------------ results

  function ActionOf(call: Call): string {
    match call
    case Add(_, _) => "add_members"
    case Update(_, _, _) => "update_members"
    case Remove(_, _) => "remove_members"
  }

  /** A server admin, or a member of the group to whom the matrix gives the call's action. */
  predicate InCharge(s: State, caller: Caller, call: Call) {
    || caller.isAdmin
    || (&& (call.group, caller.user) in s.members && ActionOf(call) in s.policy.management
        && ("member" in s.policy.management[ActionOf(call)]
            || ("group_admin" in s.policy.management[ActionOf(call)] && s.members[(call.group, caller.user)].isGroupAdmin)))
  }

  /**
   * Which calls are accepted. Below a server admin nobody hands out or takes away the group
   * administrator's role, or touches another group administrator's row.
   */
  lemma AcceptedExactly(s: State, caller: Caller, call: Call)
    ensures Refusal(s, caller, call).None? <==>
            && InCharge(s, caller, call)
            && match call
               case Add(g, r) =>
                 g in s.groups && r.user in s.users && (g, r.user) !in s.members
                 && (r.isGroupAdmin == Some(true) ==> caller.isAdmin)
               case Update(g, u, r) =>
                 (g, u) in s.members
                 && (caller.isAdmin
                     || (r.isGroupAdmin.None? && (s.members[(g, u)].isGroupAdmin ==> u == caller.user)))
               case Remove(g, u) =>
                 g in s.groups && (g, u) in s.members && (s.members[(g, u)].isGroupAdmin ==> caller.isAdmin)
  {
    ManagementMeans(s.policy, ActionOf(call), Member(s, call.group, caller.user));
  }

  /** And why the others are not; whatever is neither missing nor there already is forbidden. */
  lemma RefusedExactly(s: State, caller: Caller, call: Call)
    ensures Refusal(s, caller, call) == Some(NotFound) <==>
            match call
            case Add(g, r) => g !in s.groups || (InCharge(s, caller, call) && r.user !in s.users)
            case Update(g, u, _) => (g, u) !in s.members
            case Remove(g, u) => g !in s.groups || (InCharge(s, caller, call) && (g, u) !in s.members)
    ensures Refusal(s, caller, call) == Some(Conflict) <==>
            && call.Add? && call.group in s.groups && InCharge(s, caller, call) && call.add.user in s.users
            && (call.add.isGroupAdmin == Some(true) ==> caller.isAdmin) && (call.group, call.add.user) in s.members
  {
    ManagementMeans(s.policy, ActionOf(call), Member(s, call.group, caller.user));
  }

  /** What an accepted call does to the table: one row, and of it only what was asked for. */
  lemma RowsAfter(s: State, caller: Caller, call: Call)
    requires Refusal(s, caller, call).None?
    ensures var t := Do(s, caller, call).members;
            var key := (call.group, if call.Add? then call.add.user else call.user);
            && t - {key} == s.members - {key}
            && (key !in t <==> call.Remove?)
            && (call.Add? ==>
                  && (t[key].canRead <==> call.add.canRead != Some(false))
                  && (t[key].canWrite <==> call.add.canWrite == Some(true))
                  && (t[key].isGroupAdmin <==> call.add.isGroupAdmin == Some(true)))
            && (call.Update? ==>
                  && key in s.members
                  && (t[key].canRead <==> call.update.canRead.GetOr(s.members[key].canRead))
                  && (t[key].canWrite <==> call.update.canWrite.GetOr(s.members[key].canWrite))
                  && (t[key].isGroupAdmin <==> call.update.isGroupAdmin.GetOr(s.members[key].isGroupAdmin)))
  {
  }

  /** A user's membership rows, as ListMembershipsByUserID returns them. */
  function RowsOf(s: State, user: Id): map<Id, GroupMember> {
    map k | k in s.members && k.1 == user :: k.0 := s.members[k]
  }

  lemma RowsOfAre(s: State, user: Id)
    ensures forall g :: g in RowsOf(s, user) <==> (g, user) in s.members
    ensures forall g | g in RowsOf(s, user) :: RowsOf(s, user)[g] == s.members[(g, user)]
  {
    forall g
      ensures g in RowsOf(s, user) <==> (g, user) in s.members
      ensures g in RowsOf(s, user) ==> RowsOf(s, user)[g] == s.members[(g, user)]
    {
      if (g, user) in s.members {
        assert (g, user).0 in RowsOf(s, user);
      }
    }
  }

  /**
   * A call that changes anything is one commit of one user's rows followed by one notice that
   * the hub understands as a refresh of that user; a refused call changes nothing.
   */
  lemma ChangeMeansOneNotice(s: State, caller: Caller, call: Call)
    requires Target(call) != NIL
    ensures var t := Do(s, caller, call);
            && (Refusal(s, caller, call).Some? ==> t == s)
            && (forall v | v != Target(call) :: RowsOf(t, v) == RowsOf(s, v))
            && (RowsOf(t, Target(call)) != RowsOf(s, Target(call)) ==>
                  && |t.published| == |s.published| + 1 && s.published < t.published
                  && PlanOf(t.published[|s.published|]) == RefreshUser(Target(call)))
  {
    var t := Do(s, caller, call);
    NoticePlan(Target(call));
    forall v | v != Target(call)
      ensures RowsOf(t, v) == RowsOf(s, v)
    {
      OtherRowsStay(s, caller, call, v);
    }
  }

  lemma OtherRowsStay(s: State, caller: Caller, call: Call, user: Id)
    requires user != Target(call)
    ensures RowsOf(Do(s, caller, call), user) == RowsOf(s, user)
  {
    RowsOfAre(s, user);
    RowsOfAre(Do(s, caller, call), user);
  }

  /** Who is an administrator of which group. */
  function Admins(s: State): set<(Id, Id)> {
    set k | k in s.members && s.members[k].isGroupAdmin
  }

  datatype Act = Act(caller: Caller, call: Call)

  function DoAll(s: State, acts: seq<Act>): State {
    if acts == [] then s
    else
      var before := DoAll(s, acts[..|acts| - 1]);
      Do(before, acts[|acts| - 1].caller, acts[|acts| - 1].call)
  }

  lemma OrdinaryCallKeepsAdmins(s: State, caller: Caller, call: Call)
    requires !caller.isAdmin
    ensures Admins(Do(s, caller, call)) == Admins(s)
  {
    var t := Do(s, caller, call);
    var key := (call.group, Target(call));
    assert forall k | k != key :: (k in t.members <==> k in s.members)
                               && (k in s.members ==> t.members[k] == s.members[k]);
    if Refusal(s, caller, call).None? {
      assert key in t.members && t.members[key].isGroupAdmin <==> key in s.members && s.members[key].isGroupAdmin;
    }
  }

  /**
   * Over any run of calls by callers who are not server admins, whatever the policy allows
   * them, nobody becomes and nobody stops being a group administrator.
   */
  lemma {:induction false} OrdinaryRunKeepsAdmins(s: State, acts: seq<Act>)
    requires forall a | a in acts :: !a.caller.isAdmin
    ensures Admins(DoAll(s, acts)) == Admins(s)
    decreases |acts|
  {
    if acts != [] {
      OrdinaryRunKeepsAdmins(s, acts[..|acts| - 1]);
      OrdinaryCallKeepsAdmins(DoAll(s, acts[..|acts| - 1]), acts[|acts| - 1].caller, acts[|acts| - 1].call);
    }
  }

  /** Adding a newcomer and removing them again, both accepted, restores the table. */
  lemma RemoveUndoesAdd(s: State, caller: Caller, remover: Caller, group: Id, req: AddRequest)
    requires Refusal(s, caller, Add(group, req)).None?
    ensures var t := Do(s, caller, Add(group, req));
            Refusal(t, remover, Remove(group, req.user)).None? ==>
              Do(t, remover, Remove(group, req.user)).members == s.members
  {
  }
}
