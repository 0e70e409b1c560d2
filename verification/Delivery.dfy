/**
 * What one pub/sub message means for one connection: the decision routeMessage takes from the
 * channel name and payload, who receives it, and the bounded outbound buffer it lands in.
 * The hub's loops (Hub.dfy) and its interleaving model (HubProtocol.dfy) both use these.
 */
module Delivery {
  import opened Channels
  import opened Policy
  import opened Uuids
  import opened Wrappers

  type Id = Uuid

  /** Capacity of a connection's outbound channel. */
  const SEND_BUFFER_SIZE := 256

  datatype Fix = Fix(lat: real, lng: real, timestamp: int)

  datatype Payload =
    | LocationPayload(user: Id, device: Id, group: Id, fix: Fix)
    | MembershipPayload(user: Id)
    | MessagePayload(sender: Id, body: string)
    | DrawingPayload(owner: Id, body: string)
    | Malformed

  datatype PubMessage = PubMessage(channel: string, payload: Payload)

  /** A row of a location snapshot: whose device, and where. */
  datatype LocationRecord = LocationRecord(user: Id, device: Id, fix: Fix)

  /** A server-to-client envelope. */
  datatype Frame =
    | LocationFrame(user: Id, device: Id, group: Id, fix: Fix)
    | MessageFrame(payload: Payload)
    | DrawingFrame(payload: Payload)
    | SnapshotFrame(group: Id, locations: seq<LocationRecord>)
    | ConnectedFrame(user: Id, groups: set<Id>)
    | ErrorFrame(text: string)

  /** The part of a connection that routing reads and writes. */
  datatype Conn = Conn(
    user: Id, device: Id, isAdmin: bool,
    groups: map<Id, GroupMember>, buf: seq<Frame>)

  /** What routeMessage makes of a message. */
  datatype Plan =
    | Nobody
    | ToGroupExceptUser(group: Id, excludedUser: Id, action: string, frame: Frame)
    | ToGroupExceptDevice(group: Id, excludedDevice: Id, action: string, frame: Frame)
    | ToUser(user: Id, frame: Frame)
    | ToUserExceptDevice(user: Id, excludedDevice: Id, frame: Frame)
    | RefreshUser(user: Id)

  /** A non-blocking channel send: kept while there is room, dropped otherwise. */
  function Offer(buf: seq<Frame>, frame: Frame): seq<Frame> {
    if |buf| < SEND_BUFFER_SIZE then buf + [frame] else buf
  }

  function OfferAll(buf: seq<Frame>, frames: seq<Frame>): seq<Frame>
    decreases frames
  {
    if frames == [] then buf else OfferAll(Offer(buf, frames[0]), frames[1..])
  }

  /** The switch cases of routeMessage, once branch and identifier are known. */
  function PlanFor(kind: Kind, id: Id, payload: Payload): Plan {
    if id == NIL then Nobody
    else
      match kind
      case GroupLocation =>
        if !payload.LocationPayload? then Nobody
        else ToGroupExceptDevice(id, payload.device, ACTION_VIEW_LOCATIONS, FrameOf(payload))
      case UserLocation =>
        if !payload.LocationPayload? then Nobody
        else ToUserExceptDevice(id, payload.device, FrameOf(payload))
      case UserMembership => RefreshUser(id)
      case GroupMessages =>
        if !payload.MessagePayload? then Nobody
        else ToGroupExceptUser(id, payload.sender, ACTION_READ_MESSAGES, MessageFrame(payload))
      case UserDirect =>
        if payload.Malformed? then Nobody else ToUser(id, MessageFrame(payload))
      case GroupDrawings =>
        if !payload.DrawingPayload? then Nobody
        else ToGroupExceptUser(id, payload.owner, ACTION_READ_MESSAGES, DrawingFrame(payload))
      case UserDrawings =>
        if !payload.DrawingPayload? then Nobody else ToUser(id, DrawingFrame(payload))
  }

  function PlanOf(msg: PubMessage): Plan {
    match BranchOf(msg.channel)
    case None => Nobody
    case Some(kind) => PlanFor(kind, ExtractID(msg.channel), msg.payload)
  }

  function FrameOf(p: Payload): Frame
    requires p.LocationPayload?
  {
    LocationFrame(p.user, p.device, p.group, p.fix)
  }

  /** A member of the group whom the policy allows; a missing policy allows every member. */
  predicate MayReceive(c: Conn, group: Id, action: string, policy: Option<PermissionPolicy>) {
    && group in c.groups
    && (policy.Some? ==> CheckCommunication(policy.value, action, Some(c.groups[group]), c.isAdmin))
  }

  predicate Receives(c: Conn, plan: Plan, policy: Option<PermissionPolicy>) {
    match plan
    case Nobody => false
    case RefreshUser(_) => false
    case ToGroupExceptUser(g, u, action, _) => c.user != u && MayReceive(c, g, action, policy)
    case ToGroupExceptDevice(g, d, action, _) => c.device != d && MayReceive(c, g, action, policy)
    case ToUser(u, _) => c.user == u
    case ToUserExceptDevice(u, d, _) => c.user == u && c.device != d
  }

  function Deliver(c: Conn, plan: Plan, policy: Option<PermissionPolicy>): Conn {
    if Receives(c, plan, policy) then c.(buf := Offer(c.buf, plan.frame)) else c
  }

  /** The buffer after one step of a fan-out, with the eligibility test as a value. */
  function Pushed(c: Conn, wants: Conn -> bool, frame: Frame): seq<Frame> {
    if wants(c) then Offer(c.buf, frame) else c.buf
  }

  function DeliverAll(c: Conn, msgs: seq<PubMessage>, policy: Option<PermissionPolicy>): Conn
    decreases msgs
  {
    if msgs == [] then c
    else DeliverAll(Deliver(c, PlanOf(msgs[0]), policy), msgs[1..], policy)
  }

  // ------------------------------------------------------------ location updates

  /** May this connection share its position with a group? Without a policy it may not. */
  predicate MayShare(s: Conn, group: Id, policy: Option<PermissionPolicy>) {
    && policy.Some?
    && group in s.groups
    && CheckCommunication(policy.value, ACTION_SHARE_LOCATION, Some(s.groups[group]), s.isAdmin)
  }

  function SharedGroups(s: Conn, policy: Option<PermissionPolicy>): set<Id> {
    set g | g in s.groups && MayShare(s, g, policy)
  }

  /** The publications of one accepted update: one per group in the given order, then self. */
  function LocationMessages(groups: seq<Id>, user: Id, device: Id, fix: Fix): seq<PubMessage> {
    if groups == [] then
      [PubMessage(Name(UserLocation, user), LocationPayload(user, device, NIL, fix))]
    else
      [PubMessage(Name(GroupLocation, groups[0]), LocationPayload(user, device, groups[0], fix))]
      + LocationMessages(groups[1..], user, device, fix)
  }

  /** A sequence that lists each element of a set once. */
  ghost predicate Enumerates<T(!new)>(order: seq<T>, s: set<T>) {
    && (forall x :: x in order <==> x in s)
    && (forall i, j | 0 <= i < j < |order| :: order[i] != order[j])
  }

  /** The frames a connection is entitled to from one update, independent of any buffer. */
  function Entitled(r: Conn, groups: seq<Id>, user: Id, device: Id, fix: Fix, policy: Option<PermissionPolicy>): seq<Frame> {
    if r.device == device then []
    else if groups == [] then
      if r.user == user && user != NIL then [LocationFrame(user, device, NIL, fix)] else []
    else
      var rest := Entitled(r, groups[1..], user, device, fix, policy);
      if groups[0] != NIL && MayReceive(r, groups[0], ACTION_VIEW_LOCATIONS, policy)
      then [LocationFrame(user, device, groups[0], fix)] + rest
      else rest
  }

  /** The groups through which one connection sees another: the one may share there and the other may look. */
  function CommonGroups(s: Conn, r: Conn, policy: Option<PermissionPolicy>): set<Id> {
    set g | g in s.groups && g in r.groups && g != NIL && policy.Some?
            && CheckCommunication(policy.value, ACTION_SHARE_LOCATION, Some(s.groups[g]), s.isAdmin)
            && CheckCommunication(policy.value, ACTION_VIEW_LOCATIONS, Some(r.groups[g]), r.isAdmin)
  }

  /** How many frames of one update a connection is due. */
  function FanOutCount(s: Conn, r: Conn, policy: Option<PermissionPolicy>): nat {
    if r.device == s.device then 0
    else |CommonGroups(s, r, policy)| + (if r.user == s.user && s.user != NIL then 1 else 0)
  }

  lemma {:induction false} OfferAllAppend(buf: seq<Frame>, a: seq<Frame>, b: seq<Frame>)
    ensures OfferAll(buf, a + b) == OfferAll(OfferAll(buf, a), b)
    decreases a
  {
    if a == [] {
      assert a + b == b;
    } else {
      assert (a + b)[1..] == a[1..] + b;
      OfferAllAppend(Offer(buf, a[0]), a[1..], b);
    }
  }

  lemma {:induction false} OfferAllWithRoom(buf: seq<Frame>, frames: seq<Frame>)
    requires |buf| + |frames| <= SEND_BUFFER_SIZE
    ensures OfferAll(buf, frames) == buf + frames
    decreases frames
  {
    if frames != [] {
      OfferAllWithRoom(buf + [frames[0]], frames[1..]);
      assert buf + [frames[0]] + frames[1..] == buf + frames;
    } else {
      assert buf + frames == buf;
    }
  }

  lemma {:induction false} OfferAllBounded(buf: seq<Frame>, frames: seq<Frame>)
    requires |buf| <= 256
    ensures |OfferAll(buf, frames)| <= 256
    decreases frames
  {
    if frames != [] {
      OfferAllBounded(Offer(buf, frames[0]), frames[1..]);
    }
  }

  /** A message published under a printed name takes the plan of its kind and identifier. */
  lemma NamePlan(kind: Kind, id: Id, payload: Payload)
    ensures PlanOf(PubMessage(Name(kind, id), payload)) == PlanFor(kind, id, payload)
  {
    RouteName(kind, id);
  }

  /** A membership notice is understood by the hub as a request to refresh that user. */
  lemma NoticePlan(user: Id)
    ensures PlanOf(PubMessage(Name(UserMembership, user), MembershipPayload(user)))
            == if user == NIL then Nobody else RefreshUser(user)
  {
    NamePlan(UserMembership, user, MembershipPayload(user));
  }

  /**
   * A message or drawing published to a group: offered once to every connection of a member who
   * may read, whatever the device, except the author's own. Without a policy every member may.
   */
  lemma GroupPostDelivery(r: Conn, group: Id, post: Payload, policy: Option<PermissionPolicy>)
    requires post.MessagePayload? || post.DrawingPayload?
    ensures var kind := if post.MessagePayload? then GroupMessages else GroupDrawings;
            var author := if post.MessagePayload? then post.sender else post.owner;
            Deliver(r, PlanOf(PubMessage(Name(kind, group), post)), policy) ==
            if && group != NIL && r.user != author && group in r.groups
               && (policy.None? || CheckCommunication(policy.value, ACTION_READ_MESSAGES, Some(r.groups[group]), r.isAdmin))
            then r.(buf := Offer(r.buf, if post.MessagePayload? then MessageFrame(post) else DrawingFrame(post)))
            else r
  {
    NamePlan(if post.MessagePayload? then GroupMessages else GroupDrawings, group, post);
  }

  /** One published to a user: offered once to each of the user's connections and to nobody else. */
  lemma UserPostDelivery(r: Conn, user: Id, post: Payload, policy: Option<PermissionPolicy>)
    requires post.MessagePayload? || post.DrawingPayload?
    ensures var kind := if post.MessagePayload? then UserDirect else UserDrawings;
            Deliver(r, PlanOf(PubMessage(Name(kind, user), post)), policy) ==
            if user != NIL && r.user == user
            then r.(buf := Offer(r.buf, if post.MessagePayload? then MessageFrame(post) else DrawingFrame(post)))
            else r
  {
    NamePlan(if post.MessagePayload? then UserDirect else UserDrawings, user, post);
  }

  /** One group publication at one connection. */
  lemma DeliverToGroup(r: Conn, group: Id, user: Id, device: Id, fix: Fix, policy: Option<PermissionPolicy>)
    ensures var msg := PubMessage(Name(GroupLocation, group), LocationPayload(user, device, group, fix));
            Deliver(r, PlanOf(msg), policy) ==
            if && r.device != device && group != NIL && group in r.groups
               && (policy.None? || CheckCommunication(policy.value, ACTION_VIEW_LOCATIONS, Some(r.groups[group]), r.isAdmin))
            then r.(buf := Offer(r.buf, LocationFrame(user, device, group, fix)))
            else r
  {
    GroupPublication(r, group, user, device, fix, policy);
  }

  lemma GroupPublication(r: Conn, group: Id, user: Id, device: Id, fix: Fix, policy: Option<PermissionPolicy>)
    ensures var msg := PubMessage(Name(GroupLocation, group), LocationPayload(user, device, group, fix));
            Deliver(r, PlanOf(msg), policy) ==
            if r.device != device && group != NIL && MayReceive(r, group, ACTION_VIEW_LOCATIONS, policy)
            then r.(buf := Offer(r.buf, LocationFrame(user, device, group, fix)))
            else r
  {
    NamePlan(GroupLocation, group, LocationPayload(user, device, group, fix));
  }

  /** Through names, parsing, policy and buffer, an update offers exactly the entitled frames. */
  lemma {:induction false} DeliverEntitled(
      r: Conn, groups: seq<Id>, user: Id, device: Id, fix: Fix, policy: Option<PermissionPolicy>)
    ensures DeliverAll(r, LocationMessages(groups, user, device, fix), policy)
            == r.(buf := OfferAll(r.buf, Entitled(r, groups, user, device, fix, policy)))
    decreases groups
  {
    var msgs := LocationMessages(groups, user, device, fix);
    var mid := Deliver(r, PlanOf(msgs[0]), policy);
    if groups == [] {
      NamePlan(UserLocation, user, LocationPayload(user, device, NIL, fix));
      assert DeliverAll(mid, msgs[1..], policy) == mid;
    } else {
      GroupPublication(r, groups[0], user, device, fix, policy);
      assert mid == r.(buf := mid.buf);
      DeliverEntitled(mid, groups[1..], user, device, fix, policy);
      EntitledIgnoresBuffer(r, mid, groups[1..], user, device, fix, policy);
      assert msgs[1..] == LocationMessages(groups[1..], user, device, fix);
      var all := Entitled(r, groups, user, device, fix, policy);
      if mid != r {
        assert all[1..] == Entitled(r, groups[1..], user, device, fix, policy);
      }
    }
  }

  lemma {:induction false} EntitledIgnoresBuffer(
      a: Conn, b: Conn, groups: seq<Id>, user: Id, device: Id, fix: Fix, policy: Option<PermissionPolicy>)
    requires b == a.(buf := b.buf)
    ensures Entitled(a, groups, user, device, fix, policy) == Entitled(b, groups, user, device, fix, policy)
    decreases groups
  {
    if groups != [] {
      EntitledIgnoresBuffer(a, b, groups[1..], user, device, fix, policy);
    }
  }

  function Visible(r: Conn, groups: seq<Id>, policy: Option<PermissionPolicy>): set<Id> {
    set g | g in groups && g != NIL && MayReceive(r, g, ACTION_VIEW_LOCATIONS, policy)
  }

  lemma {:induction false} EntitledCount(
      r: Conn, groups: seq<Id>, user: Id, device: Id, fix: Fix, policy: Option<PermissionPolicy>)
    requires forall i, j | 0 <= i < j < |groups| :: groups[i] != groups[j]
    requires r.device != device
    ensures |Entitled(r, groups, user, device, fix, policy)|
            == |Visible(r, groups, policy)| + (if r.user == user && user != NIL then 1 else 0)
    decreases groups
  {
    if groups == [] {
      assert Visible(r, groups, policy) == {};
    } else {
      EntitledCount(r, groups[1..], user, device, fix, policy);
      assert groups[0] !in groups[1..];
      if groups[0] != NIL && MayReceive(r, groups[0], ACTION_VIEW_LOCATIONS, policy) {
        assert Visible(r, groups, policy) == {groups[0]} + Visible(r, groups[1..], policy);
      } else {
        assert Visible(r, groups, policy) == Visible(r, groups[1..], policy);
      }
    }
  }

  /** The groups with which a connection shares its position, spelled out: without a policy none. */
  lemma SharedGroupsAre(s: Conn, policy: Option<PermissionPolicy>)
    ensures SharedGroups(s, policy) ==
            set g | g in s.groups && policy.Some?
                    && CheckCommunication(policy.value, ACTION_SHARE_LOCATION, Some(s.groups[g]), s.isAdmin)
  {
  }

  /** Under the default matrix everybody with any flag shares, a plain reader too, and nobody else does. */
  lemma ReadersShareByDefault(s: Conn, g: Id)
    requires g in s.groups
    ensures g in SharedGroups(s, Some(DEFAULT_POLICY)) <==>
            s.isAdmin || s.groups[g].isGroupAdmin || s.groups[g].canWrite || s.groups[g].canRead
  {
    DefaultReading("share_location", s.groups[g], s.isAdmin);
  }

  /** A payload that is not of its channel's kind reaches nobody; only direct messages are passed on as they are. */
  lemma WrongPayloadReachesNobody(r: Conn, kind: Kind, id: Id, payload: Payload, policy: Option<PermissionPolicy>)
    requires match kind
             case GroupLocation => !payload.LocationPayload?
             case UserLocation => !payload.LocationPayload?
             case GroupMessages => !payload.MessagePayload?
             case UserDirect => payload.Malformed?
             case GroupDrawings => !payload.DrawingPayload?
             case UserDrawings => !payload.DrawingPayload?
             case UserMembership => true
    ensures Deliver(r, PlanOf(PubMessage(Name(kind, id), payload)), policy) == r
  {
    NamePlan(kind, id, payload);
  }

  /**
   * One accepted update on a fixed hub state. The publications, in whatever order the sender's
   * groups are visited, add to a connection with room exactly one frame per group in which the
   * sender may share and the receiver may look, plus one if it belongs to the same user; a
   * connection of the sending device gets nothing.
   */
  lemma LocationFanOut(s: Conn, r: Conn, order: seq<Id>, fix: Fix, policy: Option<PermissionPolicy>)
    requires Enumerates(order, set g | g in s.groups && policy.Some?
                               && CheckCommunication(policy.value, ACTION_SHARE_LOCATION, Some(s.groups[g]), s.isAdmin))
    requires |r.buf| + FanOutCount(s, r, policy) <= SEND_BUFFER_SIZE
    ensures var after := DeliverAll(r, LocationMessages(order, s.user, s.device, fix), policy);
            && after == r.(buf := r.buf + Entitled(r, order, s.user, s.device, fix, policy))
            && |after.buf| == |r.buf| + FanOutCount(s, r, policy)
  {
    var frames := Entitled(r, order, s.user, s.device, fix, policy);
    DeliverEntitled(r, order, s.user, s.device, fix, policy);
    if r.device == s.device {
      assert frames == [];
    } else {
      EntitledCount(r, order, s.user, s.device, fix, policy);
      assert Visible(r, order, policy) == CommonGroups(s, r, policy);
    }
    OfferAllWithRoom(r.buf, frames);
  }
}
