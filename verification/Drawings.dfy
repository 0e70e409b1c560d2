/**
 * Shared drawings. A share is a message of type "drawing" whose metadata names the drawing, and
 * access is computed in two independent ways: by the list query and by the check before reading.
 */
module Drawings {
  import opened Policy
  import opened Wrappers

  type DrawingId = nat
  type MessageId = nat
  type UserId = nat
  type GroupId = nat

  datatype Error = NotFound | Forbidden | Validation

  /** The two metadata fields that matter; `revoked` is the field's text if there is one. */
  datatype Metadata = Metadata(drawing: Option<DrawingId>, revoked: Option<string>)

  datatype Kind = DrawingMessage | TextMessage | OtherMessage

  datatype Message = Message(
    sender: UserId, group: Option<GroupId>, recipient: Option<UserId>, kind: Kind, metadata: Option<Metadata>)

  datatype Target = ToGroup(group: GroupId) | ToUser(user: UserId)

  datatype State = State(
    owners: map<DrawingId, UserId>, messages: map<MessageId, Message>,
    members: map<(GroupId, UserId), GroupMember>, policy: PermissionPolicy,
    published: seq<(Target, MessageId)>)

  // ------------------------------------------------------------ queries

  /** The condition on a message that both queries share. */
  predicate Shares(m: Message, d: DrawingId) {
    && m.kind.DrawingMessage?
    && m.metadata.Some? && m.metadata.value.drawing == Some(d)
    && m.metadata.value.revoked != Some("true")
  }

  /** ListSharedWithUser. */
  function ListShared(s: State, user: UserId): set<DrawingId> {
    set d, m | d in s.owners && m in s.messages && Shares(s.messages[m], d) && s.owners[d] != user
               && (s.messages[m].recipient == Some(user)
                   || (s.messages[m].group.Some? && (s.messages[m].group.value, user) in s.members)) :: d
  }

  function ShareRows(s: State, d: DrawingId): set<MessageId> {
    set m | m in s.messages && Shares(s.messages[m], d)
  }

  function GroupsIn(messages: map<MessageId, Message>, rows: set<MessageId>): set<GroupId> {
    set m | m in rows && m in messages && messages[m].group.Some? :: messages[m].group.value
  }

  function UsersIn(messages: map<MessageId, Message>, rows: set<MessageId>): set<UserId> {
    set m | m in rows && m in messages && messages[m].recipient.Some? :: messages[m].recipient.value
  }

  predicate IsTarget(s: State, d: DrawingId, t: Target) {
    match t
    case ToGroup(g) => g in GroupsIn(s.messages, ShareRows(s, d))
    case ToUser(u) => u in UsersIn(s.messages, ShareRows(s, d))
  }

  predicate Reaches(s: State, t: Target, user: UserId) {
    match t
    case ToGroup(g) => (g, user) in s.members
    case ToUser(u) => u == user
  }

  /** The access relation: some active share of an existing drawing reaches the user. */
  ghost predicate HasAccess(s: State, d: DrawingId, user: UserId) {
    d in s.owners && exists t :: IsTarget(s, d, t) && Reaches(s, t, user)
  }

  // ------------------------------------------------------------ changes

  datatype ShareRequest = ShareRequest(group: Option<GroupId>, recipient: Option<UserId>)

  function ShareRefusal(s: State, d: DrawingId, caller: UserId, isAdmin: bool, req: ShareRequest): Option<Error> {
    if req.group.None? == req.recipient.None? then Some(Validation)
    else if d !in s.owners then Some(NotFound)
    else if s.owners[d] != caller then Some(Forbidden)
    else if req.group.Some?
            && ((req.group.value, caller) !in s.members
                || !CheckCommunication(s.policy, ACTION_SHARE_DRAWINGS, Some(s.members[(req.group.value, caller)]), isAdmin))
    then Some(Forbidden)
    else None
  }

  /** Where a share goes: a group's message channel or a user's direct channel. */
  function TargetOf(req: ShareRequest): Target
    requires req.group.Some? || req.recipient.Some?
  {
    if req.group.Some? then ToGroup(req.group.value) else ToUser(req.recipient.value)
  }

  function DoShare(s: State, d: DrawingId, caller: UserId, req: ShareRequest, id: MessageId): State
    requires req.group.Some? || req.recipient.Some?
  {
    s.(published := s.published + [(TargetOf(req), id)], messages := s.messages[id :=
      Message(caller, req.group, req.recipient, DrawingMessage, Some(Metadata(Some(d), None)))])
  }

  /** metadata || '{"revoked": true}', which leaves NULL alone. */
  function Revoked(m: Message): Message {
    if m.metadata.None? then m else m.(metadata := Some(m.metadata.value.(revoked := Some("true"))))
  }

  function UnshareRefusal(s: State, d: DrawingId, caller: UserId, m: MessageId): Option<Error> {
    if d !in s.owners then Some(NotFound)
    else if s.owners[d] != caller then Some(Forbidden)
    else if m !in s.messages then Some(NotFound)
    else None
  }

  function Notification(caller: UserId, original: Message): Message {
    Message(caller, original.group, original.recipient, TextMessage, None)
  }

  /** The notice is best effort: without it the revocation stands all the same. */
  function DoUnshare(s: State, caller: UserId, m: MessageId, notice: Option<MessageId>): State
    requires m in s.messages
  {
    var revoked := s.messages[m := Revoked(s.messages[m])];
    s.(messages := if notice.Some? then revoked[notice.value := Notification(caller, s.messages[m])] else revoked)
  }

  // ------------------------------------------------------------ the service

  class DrawingService {
    var owners: map<DrawingId, UserId>
    var messages: map<MessageId, Message>
    var members: map<(GroupId, UserId), GroupMember>
    var policy: PermissionPolicy
    var published: seq<(Target, MessageId)>

    constructor (policy: PermissionPolicy)
      ensures View() == State(map[], map[], map[], policy, [])
    {
      owners, messages, members, published := map[], map[], map[], [];
      this.policy := policy;
    }

    function View(): State
      reads this
    {
      State(owners, messages, members, policy, published)
    }

    /** Groups and users the drawing is actively shared with, each once, in no particular order. */
    method GetShareTargets(d: DrawingId) returns (groups: seq<GroupId>, users: seq<UserId>)
      ensures forall g :: g in groups <==> IsTarget(View(), d, ToGroup(g))
      ensures forall u :: u in users <==> IsTarget(View(), d, ToUser(u))
      ensures forall i, j | 0 <= i < j < |groups| :: groups[i] != groups[j]
      ensures forall i, j | 0 <= i < j < |users| :: users[i] != users[j]
    {
      var rows := set m | m in messages && Shares(messages[m], d);
      assert rows == ShareRows(View(), d);
      var groupSet: set<GroupId>, userSet: set<UserId> := {}, {};
      var left := rows;
      while left != {}
        invariant left <= rows
        invariant groupSet == GroupsIn(messages, rows - left)
        invariant userSet == UsersIn(messages, rows - left)
        decreases |left|
      {
        var m :| m in left;
        OneMoreRow(messages, rows - left, m);
        assert rows - left + {m} == rows - (left - {m});
        left := left - {m};
        if messages[m].group.Some? {
          groupSet := groupSet + {messages[m].group.value};
        }
        if messages[m].recipient.Some? {
          userSet := userSet + {messages[m].recipient.value};
        }
      }
      assert rows - left == rows;
      groups := Listed(groupSet);
      users := Listed(userSet);
    }

    method CheckDrawingAccess(d: DrawingId, user: UserId) returns (ok: bool)
      requires d in owners
      ensures ok <==> HasAccess(View(), d, user)
      ensures ok <==>
                exists m :: && m in messages && messages[m].kind == DrawingMessage
                            && messages[m].metadata.Some? && messages[m].metadata.value.drawing == Some(d)
                            && messages[m].metadata.value.revoked != Some("true")
                            && (messages[m].recipient == Some(user)
                                || (messages[m].group.Some? && (messages[m].group.value, user) in members))
    {
      AccessSpelledOut(View(), d, user);
      var groups, users := GetShareTargets(d);
      for i := 0 to |users|
        invariant forall k | 0 <= k < i :: users[k] != user
      {
        if users[i] == user {
          assert IsTarget(View(), d, ToUser(user));
          return true;
        }
      }
      for i := 0 to |groups|
        invariant forall k | 0 <= k < i :: (groups[k], user) !in members
      {
        if (groups[i], user) in members {
          assert IsTarget(View(), d, ToGroup(groups[i])) && Reaches(View(), ToGroup(groups[i]), user);
          return true;
        }
      }
      ok := false;
    }

    /** Success carries the owner. */
    method Get(d: DrawingId, caller: UserId, isAdmin: bool) returns (r: Result<UserId, Error>)
      ensures r.Success? <==> d in owners && (isAdmin || owners[d] == caller || HasAccess(View(), d, caller))
      ensures r.Success? ==> r.value == owners[d]
      ensures r == Failure(NotFound) <==> d !in owners
    {
      if d !in owners {
        return Failure(NotFound);
      }
      if !isAdmin && owners[d] != caller {
        var ok := CheckDrawingAccess(d, caller);
        if !ok {
          return Failure(Forbidden);
        }
      }
      r := Success(owners[d]);
    }

    method Share(d: DrawingId, caller: UserId, isAdmin: bool, req: ShareRequest, id: MessageId)
      returns (r: Result<MessageId, Error>)
      modifies this`messages, this`published
      ensures r == match ShareRefusal(old(View()), d, caller, isAdmin, req)
                   case Some(e) => Failure(e)
                   case None => Success(id)
      ensures View() == if r.Success? then DoShare(old(View()), d, caller, req, id) else old(View())
      ensures r.Success? <==>
                && req.group.Some? != req.recipient.Some? && d in owners && owners[d] == caller
                && (req.group.Some? ==>
                      && (req.group.value, caller) in members
                      && CheckCommunication(policy, ACTION_SHARE_DRAWINGS, Some(members[(req.group.value, caller)]), isAdmin))
      ensures r == Failure(Validation) <==> req.group.Some? == req.recipient.Some?
      ensures r == Failure(NotFound) <==> req.group.Some? != req.recipient.Some? && d !in owners
      ensures r.Success? ==>
                && messages == old(messages)[id :=
                     Message(caller, req.group, req.recipient, DrawingMessage, Some(Metadata(Some(d), None)))]
                && published == old(published)
                     + [(if req.group.Some? then ToGroup(req.group.value) else ToUser(req.recipient.value), id)]
    {
      if req.group.None? && req.recipient.None? {
        return Failure(Validation);
      }
      if req.group.Some? && req.recipient.Some? {
        return Failure(Validation);
      }
      if d !in owners {
        return Failure(NotFound);
      }
      if owners[d] != caller {
        return Failure(Forbidden);
      }
      if req.group.Some? {
        if (req.group.value, caller) !in members {
          return Failure(Forbidden);
        }
        if !CheckCommunication(policy, ACTION_SHARE_DRAWINGS, Some(members[(req.group.value, caller)]), isAdmin) {
          return Failure(Forbidden);
        }
      }
      var metadata := Metadata(Some(d), None);
      messages := messages[id := Message(caller, req.group, req.recipient, DrawingMessage, Some(metadata))];
      if req.group.Some? {
        published := published + [(ToGroup(req.group.value), id)];
      } else {
        published := published + [(ToUser(req.recipient.value), id)];
      }
      r := Success(id);
    }

    /** `notice` is the id of the notification if the database takes it. */
    method Unshare(d: DrawingId, caller: UserId, m: MessageId, notice: Option<MessageId>) returns (error: Option<Error>)
      requires notice.Some? ==> notice.value !in messages
      modifies this`messages
      ensures error == UnshareRefusal(old(View()), d, caller, m)
      ensures View() == if error.None? then DoUnshare(old(View()), caller, m, notice) else old(View())
      ensures error == Some(Forbidden) <==> d in owners && owners[d] != caller
      ensures error == Some(NotFound) <==> d !in owners || (owners[d] == caller && m !in old(messages))
      ensures error == None || error == Some(Forbidden) || error == Some(NotFound)
      ensures error.None? ==>
                && messages.Keys == old(messages).Keys + (if notice.Some? then {notice.value} else {})
                && (forall x | x in old(messages) && x != m :: messages[x] == old(messages)[x])
                && messages[m] == old(messages)[m].(metadata := messages[m].metadata)
                && (messages[m].metadata.Some? <==> old(messages)[m].metadata.Some?)
                && (messages[m].metadata.Some? ==>
                      messages[m].metadata.value == old(messages)[m].metadata.value.(revoked := Some("true")))
                && (notice.Some? ==>
                      messages[notice.value] ==
                      Message(caller, old(messages)[m].group, old(messages)[m].recipient, TextMessage, None))
    {
      if d !in owners {
        return Some(NotFound);
      }
      if owners[d] != caller {
        return Some(Forbidden);
      }
      if m !in messages {
        return Some(NotFound);
      }
      var original := messages[m];
      messages := messages[m := Revoked(original)];
      if notice.Some? {
        messages := messages[notice.value := Message(caller, original.group, original.recipient, TextMessage, None)];
      }
      error := None;
    }

    /** Where an update of the drawing is announced: each active target exactly once. */
    method BroadcastDrawingUpdate(d: DrawingId) returns (published: seq<Target>)
      ensures forall t :: t in published <==> IsTarget(View(), d, t)
      ensures forall i, j | 0 <= i < j < |published| :: published[i] != published[j]
    {
      var groups, users := GetShareTargets(d);
      published := [];
      for i := 0 to |groups|
        invariant |published| == i && forall k | 0 <= k < i :: published[k] == ToGroup(groups[k])
      {
        published := published + [ToGroup(groups[i])];
      }
      for i := 0 to |users|
        invariant |published| == |groups| + i
        invariant forall k | 0 <= k < |groups| :: published[k] == ToGroup(groups[k])
        invariant forall k | 0 <= k < i :: published[|groups| + k] == ToUser(users[k])
      {
        published := published + [ToUser(users[i])];
      }
      PublishedIsTargets(published, groups, users);
    }
  }

  lemma OneMoreRow(messages: map<MessageId, Message>, rows: set<MessageId>, m: MessageId)
    requires m in messages
    ensures GroupsIn(messages, rows + {m}) ==
            GroupsIn(messages, rows) + (if messages[m].group.Some? then {messages[m].group.value} else {})
    ensures UsersIn(messages, rows + {m}) ==
            UsersIn(messages, rows) + (if messages[m].recipient.Some? then {messages[m].recipient.value} else {})
  {
  }

  method Listed(s: set<nat>) returns (list: seq<nat>)
    ensures forall x :: x in list <==> x in s
    ensures forall i, j | 0 <= i < j < |list| :: list[i] != list[j]
  {
    list := [];
    var left := s;
    while left != {}
      invariant left <= s
      invariant forall x :: x in list <==> x in s - left
      invariant forall i, j | 0 <= i < j < |list| :: list[i] != list[j]
      decreases |left|
    {
      var x :| x in left;
      list := list + [x];
      left := left - {x};
    }
  }

  lemma PublishedIsTargets(published: seq<Target>, groups: seq<GroupId>, users: seq<UserId>)
    requires |published| == |groups| + |users|
    requires forall k | 0 <= k < |groups| :: published[k] == ToGroup(groups[k])
    requires forall k | 0 <= k < |users| :: published[|groups| + k] == ToUser(users[k])
    requires forall i, j | 0 <= i < j < |groups| :: groups[i] != groups[j]
    requires forall i, j | 0 <= i < j < |users| :: users[i] != users[j]
    ensures forall t :: t in published <==> (t.ToGroup? && t.group in groups) || (t.ToUser? && t.user in users)
    ensures forall i, j | 0 <= i < j < |published| :: published[i] != published[j]
  {
    forall i | |groups| <= i < |published|
      ensures published[i] == ToUser(users[i - |groups|])
    {
      assert published[|groups| + (i - |groups|)] == ToUser(users[i - |groups|]);
    }
    forall t
      ensures t in published <==> (t.ToGroup? && t.group in groups) || (t.ToUser? && t.user in users)
    {
      if t.ToGroup? && t.group in groups {
        var k :| 0 <= k < |groups| && groups[k] == t.group;
        assert published[k] == t;
      }
      if t.ToUser? && t.user in users {
        var k :| 0 <= k < |users| && users[k] == t.user;
        assert published[|groups| + k] == t;
      }
      if t in published {
        var i :| 0 <= i < |published| && published[i] == t;
        assert i < |groups| ==> t == ToGroup(groups[i]);
      }
    }
  }

  // ------------------------------------------------------------ results

  predicate RowReaches(s: State, m: MessageId, user: UserId) {
    && m in s.messages
    && (s.messages[m].recipient == Some(user)
        || (s.messages[m].group.Some? && (s.messages[m].group.value, user) in s.members))
  }

  /** Access through the targets is access through some single share row. */
  lemma AccessByRow(s: State, d: DrawingId, user: UserId)
    ensures HasAccess(s, d, user) <==>
            d in s.owners && exists m :: m in ShareRows(s, d) && RowReaches(s, m, user)
  {
    if HasAccess(s, d, user) {
      var t :| IsTarget(s, d, t) && Reaches(s, t, user);
      var m :| m in ShareRows(s, d)
               && if t.ToGroup? then s.messages[m].group == Some(t.group) else s.messages[m].recipient == Some(t.user);
      assert RowReaches(s, m, user);
    }
    forall m | d in s.owners && m in ShareRows(s, d) && RowReaches(s, m, user)
      ensures HasAccess(s, d, user)
    {
      if s.messages[m].recipient == Some(user) {
        assert IsTarget(s, d, ToUser(user)) && Reaches(s, ToUser(user), user);
      } else {
        var t := ToGroup(s.messages[m].group.value);
        assert IsTarget(s, d, t) && Reaches(s, t, user);
      }
    }
  }

  /** Access in the messages' own terms: some drawing message for it, not revoked, to the user or a group of the user's. */
  lemma AccessSpelledOut(s: State, d: DrawingId, user: UserId)
    ensures HasAccess(s, d, user) <==>
            d in s.owners &&
            exists m :: && m in s.messages && s.messages[m].kind == DrawingMessage
                        && s.messages[m].metadata.Some? && s.messages[m].metadata.value.drawing == Some(d)
                        && s.messages[m].metadata.value.revoked != Some("true")
                        && (s.messages[m].recipient == Some(user)
                            || (s.messages[m].group.Some? && (s.messages[m].group.value, user) in s.members))
  {
    AccessByRow(s, d, user);
    assert forall m | m in s.messages && Shares(s.messages[m], d) :: m in ShareRows(s, d);
    if HasAccess(s, d, user) {
      var m :| m in ShareRows(s, d) && RowReaches(s, m, user);
      assert Shares(s.messages[m], d);
    }
    forall m | && d in s.owners && m in s.messages && s.messages[m].kind == DrawingMessage
               && s.messages[m].metadata.Some? && s.messages[m].metadata.value.drawing == Some(d)
               && s.messages[m].metadata.value.revoked != Some("true")
               && (s.messages[m].recipient == Some(user)
                   || (s.messages[m].group.Some? && (s.messages[m].group.value, user) in s.members))
      ensures HasAccess(s, d, user)
    {
      assert m in ShareRows(s, d) && RowReaches(s, m, user);
    }
  }

  /**
   * The two computations agree: for a caller who is neither the owner nor an admin, the check
   * that guards reading a drawing passes exactly for the drawings the list query returns.
   */
  lemma GetAgreesWithListShared(s: State, d: DrawingId, user: UserId)
    requires d in s.owners ==> s.owners[d] != user
    ensures d in ListShared(s, user) <==> HasAccess(s, d, user)
  {
    AccessByRow(s, d, user);
    if d in ListShared(s, user) {
      var m :| m in s.messages && Shares(s.messages[m], d) && RowReaches(s, m, user);
      assert m in ShareRows(s, d);
    }
    if HasAccess(s, d, user) {
      var m :| m in ShareRows(s, d) && RowReaches(s, m, user);
      assert Shares(s.messages[m], d);
    }
  }

  /** Only the active share rows of a drawing matter for its access. */
  lemma SameRowsSameAccess(s: State, t: State, d: DrawingId)
    requires s.owners == t.owners && s.members == t.members
    requires ShareRows(s, d) == ShareRows(t, d)
    requires forall m | m in ShareRows(s, d) ::
               s.messages[m].group == t.messages[m].group && s.messages[m].recipient == t.messages[m].recipient
    ensures forall x :: IsTarget(s, d, x) <==> IsTarget(t, d, x)
    ensures forall u :: HasAccess(s, d, u) <==> HasAccess(t, d, u)
  {
    assert GroupsIn(s.messages, ShareRows(s, d)) == GroupsIn(t.messages, ShareRows(s, d));
    assert UsersIn(s.messages, ShareRows(s, d)) == UsersIn(t.messages, ShareRows(s, d));
    forall u
      ensures HasAccess(s, d, u) <==> HasAccess(t, d, u)
    {
      assert forall x :: Reaches(s, x, u) <==> Reaches(t, x, u);
    }
  }

  /** Sharing gives access to the target's users and to nobody else, and to no other drawing. */
  lemma ShareGrantsExactly(s: State, d: DrawingId, caller: UserId, isAdmin: bool, req: ShareRequest, id: MessageId)
    requires ShareRefusal(s, d, caller, isAdmin, req).None? && id !in s.messages
    ensures var t := DoShare(s, d, caller, req, id);
            var target := TargetOf(req);
            forall e, u :: HasAccess(t, e, u) <==> HasAccess(s, e, u) || (e == d && Reaches(s, target, u))
  {
    var t := DoShare(s, d, caller, req, id);
    var target := TargetOf(req);
    forall e, u | e != d
      ensures HasAccess(t, e, u) <==> HasAccess(s, e, u)
    {
      assert ShareRows(t, e) == ShareRows(s, e);
      SameRowsSameAccess(s, t, e);
    }
    assert ShareRows(t, d) == ShareRows(s, d) + {id};
    TargetsGrow(s, t, d, id, target);
    forall u
      ensures HasAccess(t, d, u) <==> HasAccess(s, d, u) || Reaches(s, target, u)
    {
      if HasAccess(s, d, u) {
        var x :| IsTarget(s, d, x) && Reaches(s, x, u);
        assert IsTarget(t, d, x) && Reaches(t, x, u);
      }
      assert IsTarget(t, d, target) && (Reaches(t, target, u) <==> Reaches(s, target, u));
    }
  }

  lemma TargetsGrow(s: State, t: State, d: DrawingId, id: MessageId, target: Target)
    requires id !in s.messages && id in t.messages
    requires ShareRows(t, d) == ShareRows(s, d) + {id}
    requires forall m | m in s.messages :: m in t.messages && t.messages[m] == s.messages[m]
    requires t.messages[id].group == (if target.ToGroup? then Some(target.group) else None)
    requires t.messages[id].recipient == (if target.ToUser? then Some(target.user) else None)
    ensures forall x :: IsTarget(t, d, x) <==> IsTarget(s, d, x) || x == target
  {
    OneMoreRow(t.messages, ShareRows(s, d), id);
    assert GroupsIn(s.messages, ShareRows(s, d)) == GroupsIn(t.messages, ShareRows(s, d));
    assert UsersIn(s.messages, ShareRows(s, d)) == UsersIn(t.messages, ShareRows(s, d));
  }

  /** Sharing a drawing and then taking back that very share restores the whole access relation. */
  lemma UnshareUndoesShare(s: State, d: DrawingId, caller: UserId, isAdmin: bool, req: ShareRequest,
                          id: MessageId, notice: Option<MessageId>)
    requires ShareRefusal(s, d, caller, isAdmin, req).None?
    requires id !in s.messages && (notice.Some? ==> notice.value !in s.messages && notice.value != id)
    ensures var shared := DoShare(s, d, caller, req, id);
            && UnshareRefusal(shared, d, caller, id).None?
            && forall e, u :: HasAccess(DoUnshare(shared, caller, id, notice), e, u) <==> HasAccess(s, e, u)
  {
    var shared := DoShare(s, d, caller, req, id);
    var t := DoUnshare(shared, caller, id, notice);
    forall e, u
      ensures HasAccess(t, e, u) <==> HasAccess(s, e, u)
    {
      assert ShareRows(t, e) == ShareRows(s, e);
      SameRowsSameAccess(s, t, e);
    }
  }

  /**
   * What revoking by message id does in general: access to every drawing is then what the other
   * active shares give, so it goes exactly where that message was the only way, and a message
   * that is not an active share changes nothing.
   */
  lemma UnshareRemovesExactly(s: State, caller: UserId, m: MessageId, notice: Option<MessageId>, e: DrawingId)
    requires m in s.messages && (notice.Some? ==> notice.value !in s.messages)
    ensures var t := DoUnshare(s, caller, m, notice);
            && ShareRows(t, e) == ShareRows(s, e) - {m}
            && (m !in ShareRows(s, e) ==> forall u :: HasAccess(t, e, u) <==> HasAccess(s, e, u))
            && (forall u :: HasAccess(t, e, u) <==>
                  e in s.owners && exists x :: x in ShareRows(s, e) - {m} && RowReaches(s, x, u))
  {
    var t := DoUnshare(s, caller, m, notice);
    assert ShareRows(t, e) == ShareRows(s, e) - {m};
    if m !in ShareRows(s, e) {
      SameRowsSameAccess(s, t, e);
    }
    forall u
      ensures HasAccess(t, e, u) <==> e in s.owners && exists x :: x in ShareRows(s, e) - {m} && RowReaches(s, x, u)
    {
      AccessByRow(t, e, u);
      assert forall x | x in ShareRows(t, e) :: RowReaches(t, x, u) <==> RowReaches(s, x, u);
    }
  }
}
