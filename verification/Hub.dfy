/**
 * The hub, its connections and the location service as objects: the registry and the outbound
 * channels are updated in place by the source's own loops. Go visits maps and sets in no
 * particular order, so every loop here picks an arbitrary next element.
 */
module Hub {
  import opened Channels
  import opened Delivery
  import opened Policy
  import opened Sets
  import opened Throttle
  import opened Uuids
  import opened Wrappers
  import R = Registry

  datatype MembershipRow = MembershipRow(group: Id, member: GroupMember)

  /** The answer of each group's snapshot query; None is a database error. */
  type Snapshots = Id -> Option<seq<LocationRecord>>

  function Found(snapshots: Snapshots, group: Id): seq<LocationRecord> {
    snapshots(group).GetOr([])
  }

  function ToMap(rows: seq<MembershipRow>): map<Id, GroupMember> {
    if rows == [] then map[]
    else ToMap(rows[..|rows| - 1])[rows[|rows| - 1].group := rows[|rows| - 1].member]
  }

  predicate GroupsDiffer(rows: seq<MembershipRow>) {
    forall i, j | 0 <= i < j < |rows| :: rows[i].group != rows[j].group
  }

  /** Of several rows of one group the last one stays. */
  lemma {:induction false} MapHoldsLastRows(rows: seq<MembershipRow>, g: Id, m: GroupMember)
    ensures g in ToMap(rows) && ToMap(rows)[g] == m <==>
            exists i :: 0 <= i < |rows| && rows[i] == MembershipRow(g, m) && forall j | i < j < |rows| :: rows[j].group != g
    decreases |rows|
  {
    if rows != [] {
      var before, last := rows[..|rows| - 1], rows[|rows| - 1];
      MapHoldsLastRows(before, g, m);
      if last.group == g {
        assert last == MembershipRow(g, m) ==> rows[|rows| - 1] == MembershipRow(g, m);
      } else {
        forall i | 0 <= i < |before|
          ensures before[i] == rows[i]
        {
        }
      }
    }
  }

  /** With one row per group, as the query returns them, the map holds exactly the rows. */
  lemma MapHoldsRows(rows: seq<MembershipRow>)
    requires GroupsDiffer(rows)
    ensures forall g, m :: g in ToMap(rows) && ToMap(rows)[g] == m <==> MembershipRow(g, m) in rows
  {
    forall g, m
      ensures g in ToMap(rows) && ToMap(rows)[g] == m <==> MembershipRow(g, m) in rows
    {
      MapHoldsLastRows(rows, g, m);
    }
  }

  /** The records of other devices. */
  function Others(records: seq<LocationRecord>, device: Id): seq<LocationRecord> {
    if records == [] then []
    else
      var last := records[|records| - 1];
      Others(records[..|records| - 1], device) + (if last.device == device then [] else [last])
  }

  /** The positions of the records of other devices. */
  function Positions(records: seq<LocationRecord>, device: Id): (at: seq<nat>)
    ensures forall k | 0 <= k < |at| :: at[k] < |records|
  {
    if records == [] then []
    else
      var n := |records| - 1;
      if records[n].device == device then Positions(records[..n], device) else Positions(records[..n], device) + [n]
  }

  lemma {:induction false} PositionsListed(records: seq<LocationRecord>, device: Id, i: nat)
    ensures i in Positions(records, device) <==> i < |records| && records[i].device != device
    decreases |records|
  {
    if records != [] {
      PositionsListed(records[..|records| - 1], device, i);
    }
  }

  /** Which records those are: all but the device's, each once and in their order. */
  lemma {:induction false} OthersPicked(records: seq<LocationRecord>, device: Id)
    ensures var at := Positions(records, device);
            && |Others(records, device)| == |at|
            && (forall k | 0 <= k < |at| :: Others(records, device)[k] == records[at[k]])
            && (forall i, j | 0 <= i < j < |at| :: at[i] < at[j])
    decreases |records|
  {
    if records != [] {
      OthersPicked(records[..|records| - 1], device);
    }
  }

  lemma OthersAre(records: seq<LocationRecord>, device: Id)
    ensures forall r :: r in Others(records, device) <==> r in records && r.device != device
  {
    var at := Positions(records, device);
    OthersPicked(records, device);
    forall r | r in records && r.device != device
      ensures r in Others(records, device)
    {
      var i :| 0 <= i < |records| && records[i] == r;
      PositionsListed(records, device, i);
      var k :| 0 <= k < |at| && at[k] == i;
      assert Others(records, device)[k] == r;
    }
    forall r | r in Others(records, device)
      ensures r in records && r.device != device
    {
      var k :| 0 <= k < |at| && Others(records, device)[k] == r;
      PositionsListed(records, device, at[k]);
    }
  }

  /** Groups a refresh newly shows to a connection and for which there is something to show. */
  function Joined(before: Conn, now: map<Id, GroupMember>, policy: Option<PermissionPolicy>, snapshots: Snapshots): set<Id> {
    set g | g in now && g !in before.groups
            && MayReceive(before.(groups := now), g, ACTION_VIEW_LOCATIONS, policy)
            && Others(Found(snapshots, g), before.device) != []
  }

  function SnapshotFrames(order: seq<Id>, device: Id, snapshots: Snapshots): seq<Frame> {
    if order == [] then []
    else
      var g := order[|order| - 1];
      SnapshotFrames(order[..|order| - 1], device, snapshots) + [SnapshotFrame(g, Others(Found(snapshots, g), device))]
  }

  lemma OneMoreShown(before: Conn, order: seq<Id>, g: Id, shown: set<Id>, snapshots: Snapshots)
    requires Enumerates(order, shown) && g !in shown
    ensures Enumerates(order + [g], shown + {g})
    ensures OfferAll(before.buf, SnapshotFrames(order + [g], before.device, snapshots)) ==
            Offer(OfferAll(before.buf, SnapshotFrames(order, before.device, snapshots)),
                  SnapshotFrame(g, Others(Found(snapshots, g), before.device)))
  {
    assert (order + [g])[..|order|] == order;
    OfferAllAppend(before.buf, SnapshotFrames(order, before.device, snapshots),
                   [SnapshotFrame(g, Others(Found(snapshots, g), before.device))]);
  }

  /** What a membership refresh does to one connection, for some order of the new groups. */
  ghost predicate Refreshed(
    before: Conn, after: Conn, now: map<Id, GroupMember>, policy: Option<PermissionPolicy>,
    snapshots: Snapshots, known: set<Id>)
  {
    exists order: seq<Id> {:trigger Enumerates(order, Joined(before, now, policy, snapshots))} ::
      && Enumerates(order, Joined(before, now, policy, snapshots))
      && after == before.(
           groups := now,
           buf := OfferAll(before.buf, SnapshotFrames(order, before.device, snapshots)
                                       + [ConnectedFrame(before.user, now.Keys * known)]))
  }

  lemma {:induction false} SnapshotFramesAre(order: seq<Id>, device: Id, snapshots: Snapshots)
    ensures |SnapshotFrames(order, device, snapshots)| == |order|
    ensures forall i | 0 <= i < |order| ::
              SnapshotFrames(order, device, snapshots)[i] ==
              SnapshotFrame(order[i], Others(Found(snapshots, order[i]), device))
    decreases |order|
  {
    if order != [] {
      SnapshotFramesAre(order[..|order| - 1], device, snapshots);
    }
  }

  /** May the connection see a group it is newly in? Without a policy every member may. */
  predicate NewlyShown(before: Conn, now: map<Id, GroupMember>, policy: Option<PermissionPolicy>, g: Id) {
    && g in now && g !in before.groups
    && (policy.None? || CheckCommunication(policy.value, ACTION_VIEW_LOCATIONS, Some(now[g]), before.isAdmin))
  }

  /**
   * What a refresh makes visible, the buffer having room: the new memberships; one snapshot for
   * exactly the groups newly joined that may be seen, could be read and hold another device's
   * position; and last the acknowledgement.
   */
  lemma RefreshedShows(before: Conn, after: Conn, now: map<Id, GroupMember>, policy: Option<PermissionPolicy>,
                       snapshots: Snapshots, known: set<Id>)
    requires Refreshed(before, after, now, policy, snapshots, known)
    requires |before.buf| + |now| < SEND_BUFFER_SIZE
    ensures after == before.(groups := now, buf := after.buf)
    ensures before.buf < after.buf
    ensures after.buf[|after.buf| - 1] == ConnectedFrame(before.user, now.Keys * known)
    ensures forall g, locations ::
              SnapshotFrame(g, locations) in after.buf[|before.buf|..] <==>
              NewlyShown(before, now, policy, g) && snapshots(g).Some? && locations != []
              && locations == Others(snapshots(g).value, before.device)
    ensures forall i, j | |before.buf| <= i < j < |after.buf| :: after.buf[i] != after.buf[j]
  {
    var joined := Joined(before, now, policy, snapshots);
    var order: seq<Id> :| Enumerates(order, joined)
      && after == before.(
           groups := now,
           buf := OfferAll(before.buf, SnapshotFrames(order, before.device, snapshots)
                                       + [ConnectedFrame(before.user, now.Keys * known)]));
    var frames := SnapshotFrames(order, before.device, snapshots) + [ConnectedFrame(before.user, now.Keys * known)];
    FramesShown(before, now, policy, snapshots, order, ConnectedFrame(before.user, now.Keys * known));
    OfferAllWithRoom(before.buf, frames);
    assert after.buf[|before.buf|..] == frames;
    forall i, j | |before.buf| <= i < j < |after.buf|
      ensures after.buf[i] != after.buf[j]
    {
      assert after.buf[i] == frames[i - |before.buf|] && after.buf[j] == frames[j - |before.buf|];
    }
  }

  lemma FramesShown(before: Conn, now: map<Id, GroupMember>, policy: Option<PermissionPolicy>, snapshots: Snapshots,
                    order: seq<Id>, last: Frame)
    requires Enumerates(order, Joined(before, now, policy, snapshots)) && !last.SnapshotFrame?
    ensures var frames := SnapshotFrames(order, before.device, snapshots) + [last];
            && |frames| <= |now| + 1
            && (forall i, j | 0 <= i < j < |frames| :: frames[i] != frames[j])
            && forall g, locations ::
                 SnapshotFrame(g, locations) in frames <==>
                 NewlyShown(before, now, policy, g) && snapshots(g).Some? && locations != []
                 && locations == Others(snapshots(g).value, before.device)
  {
    OncePerGroup(order, before.device, snapshots, last);
    DistinctSize(order);
    assert Elements(order) == Joined(before, now, policy, snapshots);
    SubsetSize(Elements(order), now.Keys);
    SnapshotsShown(before, now, policy, snapshots, order);
  }

  lemma OncePerGroup(order: seq<Id>, device: Id, snapshots: Snapshots, last: Frame)
    requires forall i, j | 0 <= i < j < |order| :: order[i] != order[j]
    requires !last.SnapshotFrame?
    ensures var frames := SnapshotFrames(order, device, snapshots) + [last];
            |frames| == |order| + 1 && forall i, j | 0 <= i < j < |frames| :: frames[i] != frames[j]
  {
    SnapshotFramesAre(order, device, snapshots);
  }

  lemma SnapshotsShown(before: Conn, now: map<Id, GroupMember>, policy: Option<PermissionPolicy>, snapshots: Snapshots,
                       order: seq<Id>)
    requires Enumerates(order, Joined(before, now, policy, snapshots))
    ensures forall g, locations ::
              SnapshotFrame(g, locations) in SnapshotFrames(order, before.device, snapshots) <==>
              NewlyShown(before, now, policy, g) && snapshots(g).Some? && locations != []
              && locations == Others(snapshots(g).value, before.device)
  {
    var shown := SnapshotFrames(order, before.device, snapshots);
    SnapshotFramesAre(order, before.device, snapshots);
    forall g, locations
      ensures SnapshotFrame(g, locations) in shown <==>
              NewlyShown(before, now, policy, g) && snapshots(g).Some? && locations != []
              && locations == Others(snapshots(g).value, before.device)
    {
      if g in order && locations == Others(Found(snapshots, g), before.device) {
        var i :| 0 <= i < |order| && order[i] == g;
        assert shown[i] == SnapshotFrame(g, locations);
      }
      assert g in order <==> g in Joined(before, now, policy, snapshots);
    }
  }

  /** The same from the rows as the database answered; an error leaves everything as it is. */
  ghost predicate RefreshedFrom(
    before: Conn, after: Conn, rows: Option<seq<MembershipRow>>, policy: Option<PermissionPolicy>,
    snapshots: Snapshots, known: set<Id>)
  {
    if rows.None? then after == before
    else Refreshed(before, after, ToMap(rows.value), policy, snapshots, known)
  }

  /** The eligibility test of a plan as a value. */
  function Wanting(plan: Plan, policy: Option<PermissionPolicy>): Conn -> bool {
    (c: Conn) => Receives(c, plan, policy)
  }

  /** Wanted, and with room in the buffer. */
  predicate Takes(c: Conn, wants: Conn -> bool) {
    wants(c) && |c.buf| < SEND_BUFFER_SIZE
  }

  lemma Shift<T>(a: seq<T>, x: T, b: seq<T>)
    ensures a + ([x] + b) == a + [x] + b
  {
  }

  class Client {
    const userID: Id
    const deviceID: Id
    const isAdmin: bool
    var groupMemberships: map<Id, GroupMember>
    var send: seq<Frame>
    var closed: bool

    constructor (userID: Id, deviceID: Id, isAdmin: bool, memberships: map<Id, GroupMember>)
      ensures View() == Conn(userID, deviceID, isAdmin, memberships, []) && !closed
    {
      this.userID, this.deviceID, this.isAdmin := userID, deviceID, isAdmin;
      groupMemberships := memberships;
      send := [];
      closed := false;
    }

    function View(): Conn
      reads this
    {
      Conn(userID, deviceID, isAdmin, groupMemberships, send)
    }

    /** `select { case c.send <- frame: default: }`. Sending on a closed channel panics. */
    method TrySend(frame: Frame) returns (ok: bool)
      requires !closed
      modifies this`send
      ensures send == Offer(old(send), frame)
      ensures ok == (|old(send)| < 256) && send == if ok then old(send) + [frame] else old(send)
    {
      ok := |send| < SEND_BUFFER_SIZE;
      if ok {
        send := send + [frame];
      }
    }

    method SetGroupMemberships(m: map<Id, GroupMember>) returns (previous: map<Id, GroupMember>)
      modifies this`groupMemberships
      ensures groupMemberships == m && previous == old(groupMemberships)
    {
      previous := groupMemberships;
      groupMemberships := m;
    }

    method SendError(text: string)
      requires !closed
      modifies this`send
      ensures send == Offer(old(send), ErrorFrame(text))
    {
      var _ := TrySend(ErrorFrame(text));
    }
  }

  /** Throttles, stores and publishes position updates. */
  class LocationService {
    const throttle: int
    var lastUpdate: map<Id, int>
    var history: seq<(Id, Id, Fix)>
    var lastLocation: map<Id, Fix>
    var published: seq<PubMessage>

    constructor (throttle: int)
      ensures this.throttle == throttle && lastUpdate == map[] && history == []
      ensures lastLocation == map[] && published == []
    {
      this.throttle := throttle;
      lastUpdate, history, lastLocation, published := map[], [], map[], [];
    }

    predicate Throttled(device: Id, now: int)
      reads this
    {
      Blocks(lastUpdate, throttle, device, now)
    }

    /** One publication per group, then one on the user's own channel. */
    method PublishUpdate(user: Id, device: Id, fix: Fix, groups: seq<Id>)
      modifies this`published
      ensures published == old(published) + LocationMessages(groups, user, device, fix)
    {
      ghost var goal := published + LocationMessages(groups, user, device, fix);
      var rest := groups;
      while rest != []
        invariant published + LocationMessages(rest, user, device, fix) == goal
        decreases |rest|
      {
        ghost var before, tail := published, LocationMessages(rest[1..], user, device, fix);
        var next := PubMessage(Name(GroupLocation, rest[0]), LocationPayload(user, device, rest[0], fix));
        Shift(before, next, tail);
        published := published + [next];
        rest := rest[1..];
      }
      published := published + [PubMessage(Name(UserLocation, user), LocationPayload(user, device, NIL, fix))];
    }

    /** The stored state besides what is published. */
    function Stored(): (map<Id, int>, seq<(Id, Id, Fix)>, map<Id, Fix>)
      reads this
    {
      (lastUpdate, history, lastLocation)
    }

    /**
     * `stored` is the answer of the history insert, `located` that of updating the device's last
     * location. A failed insert still counts for the throttle; a failed location is passed over.
     */
    method Update(now: int, user: Id, device: Id, fix: Fix, stored: bool, located: bool, groups: seq<Id>)
      returns (accepted: Result<bool, string>)
      modifies this
      ensures old(Throttled(device, now)) ==>
                accepted == Success(false) && Stored() == old(Stored()) && published == old(published)
      ensures !old(Throttled(device, now)) && !stored ==>
                accepted.Failure? && published == old(published)
                && Stored() == (old(lastUpdate)[device := now], old(history), old(lastLocation))
      ensures !old(Throttled(device, now)) && stored ==>
                accepted == Success(true)
                && Stored() == (old(lastUpdate)[device := now], old(history) + [(user, device, fix)],
                                if located then old(lastLocation)[device := fix] else old(lastLocation))
                && published == old(published) + LocationMessages(groups, user, device, fix)
    {
      if device in lastUpdate {
        var elapsed := now - lastUpdate[device];
        if elapsed < throttle {
          return Success(false);
        }
      }
      lastUpdate := lastUpdate[device := now];
      if !stored {
        return Failure("failed to insert location history");
      }
      history := history + [(user, device, fix)];
      if located {
        lastLocation := lastLocation[device := fix];
      }
      PublishUpdate(user, device, fix, groups);
      accepted := Success(true);
    }
  }

  class Hub {
    var clients: map<Id, set<Client>>

    constructor ()
      ensures Valid() && clients == map[]
    {
      clients := map[];
    }

    function Connected(): set<Client>
      reads this
    {
      R.All(clients)
    }

    ghost predicate Valid()
      reads this, Connected()
    {
      && R.NoEmptySets(clients)
      && (forall u, c | u in clients && c in clients[u] :: c.userID == u && !c.closed)
    }

    lemma ValidSound()
      requires Valid()
      ensures R.Sound(clients)
    {
      forall u, v | u in clients && v in clients && u != v
        ensures clients[u] !! clients[v]
      {
        assert forall c | c in clients[u] :: c.userID == u;
      }
    }

    lemma OwnSet(c: Client)
      requires Valid()
      ensures c in Connected() <==> c.userID in clients && c in clients[c.userID]
    {
    }

    lemma OwnSets(u: Id)
      requires Valid() && u in clients
      ensures clients[u] <= Connected()
      ensures forall c | c in Connected() :: c in clients[u] <==> c.userID == u
    {
    }

    method AddClient(client: Client)
      requires Valid() && client !in Connected() && !client.closed
      modifies this`clients
      ensures clients == R.Add(old(clients), client.userID, client)
      ensures Connected() == old(Connected()) + {client}
      ensures Valid()
    {
      ValidSound();
      R.AddSound(clients, client.userID, client);
      if client.userID !in clients {
        clients := clients[client.userID := {}];
      }
      clients := clients[client.userID := clients[client.userID] + {client}];
      assert clients == R.Add(old(clients), client.userID, client);
    }

    /** The channel is closed exactly when the client leaves the map, and only then. */
    method RemoveClient(client: Client)
      requires Valid()
      modifies this`clients, client`closed
      ensures clients == R.Remove(old(clients), client.userID, client)
      ensures Connected() == old(Connected()) - {client}
      ensures client.closed == (old(client.closed) || client in old(Connected()))
      ensures Valid()
    {
      ValidSound();
      OwnSet(client);
      R.RemoveSound(clients, client.userID, client);
      var u := client.userID;
      if u in clients {
        var inner := clients[u];
        if client in inner {
          inner := inner - {client};
          client.closed := true;
        }
        if |inner| == 0 {
          clients := clients - {u};
        } else {
          clients := clients[u := inner];
        }
        assert inner == old(clients)[u] - {client};
      }
      assert clients == R.Remove(old(clients), u, client);
    }

    /** The sum of the inner sets' sizes is the number of distinct connections. */
    method TotalClients() returns (count: nat)
      requires Valid()
      ensures count == |Connected()|
    {
      ValidSound();
      var rest := clients.Keys;
      count := 0;
      while rest != {}
        invariant rest <= clients.Keys
        invariant count == |R.Of(clients, clients.Keys - rest)|
      {
        var u :| u in rest;
        ghost var before := R.Of(clients, clients.Keys - rest);
        assert R.Of(clients, clients.Keys - (rest - {u})) == before + clients[u];
        assert before !! clients[u];
        count := count + |clients[u]|;
        rest := rest - {u};
      }
      assert clients.Keys - {} == clients.Keys;
      assert R.Of(clients, clients.Keys) == Connected();
    }

    /**
     * The inner loop of every fan-out: one non-blocking send per wanted client. Reports how many
     * sends went through, and (for proofs) which. `views` is what the clients look like before.
     */
    static method OfferEach(targets: set<Client>, wants: Conn -> bool, frame: Frame, ghost views: map<Client, Conn>)
      returns (sent: nat, ghost got: set<Client>)
      requires forall c | c in targets :: !c.closed && c in views && c.View() == views[c]
      modifies targets`send
      ensures forall c | c in targets :: c.send == Pushed(views[c], wants, frame)
      ensures sent == |got| && got <= targets
      ensures forall c | c in targets :: c in got <==> Takes(views[c], wants)
    {
      var rest := targets;
      sent, got := 0, {};
      while rest != {}
        invariant rest <= targets
        invariant forall c | c in rest :: c.View() == views[c]
        invariant forall c | c in targets && c !in rest :: c.send == Pushed(views[c], wants, frame)
        invariant sent == |got| && got <= targets - rest
        invariant forall c | c in targets && c !in rest :: c in got <==> Takes(views[c], wants)
      {
        var c :| c in rest;
        rest := rest - {c};
        if wants(c.View()) {
          var ok := c.TrySend(frame);
          if ok {
            sent := sent + 1;
            got := got + {c};
          }
        }
      }
    }

    /** The outer loop of the two group broadcasts, passing over one user if asked to. */
    static method OfferByUser(byUser: map<Id, set<Client>>, skip: Option<Id>, wants: Conn -> bool, frame: Frame,
                              ghost views: map<Client, Conn>)
      returns (sent: nat, ghost got: set<Client>)
      requires forall u, c | u in byUser && c in byUser[u] :: c.userID == u && c in views
      requires forall c | c in views :: !c.closed && c.View() == views[c] && c.userID in byUser && c in byUser[c.userID]
      requires skip.Some? ==> forall v | wants(v) :: v.user != skip.value
      modifies views.Keys`send
      ensures forall c | c in views :: c.send == Pushed(views[c], wants, frame)
      ensures sent == |got| && got <= views.Keys
      ensures forall c | c in views :: c in got <==> Takes(views[c], wants)
    {
      var rest := byUser.Keys;
      sent, got := 0, {};
      while rest != {}
        invariant rest <= byUser.Keys
        invariant forall c | c in views && c.userID in rest :: c.View() == views[c]
        invariant forall c | c in views && c.userID !in rest :: c.send == Pushed(views[c], wants, frame)
        invariant sent == |got| && got <= views.Keys
        invariant forall c | c in views :: c in got <==> c.userID !in rest && Takes(views[c], wants)
      {
        var u :| u in rest;
        rest := rest - {u};
        if skip != Some(u) {
          var n, here := OfferEach(byUser[u], wants, frame, views);
          assert got !! here;
          sent := sent + n;
          got := got + here;
        }
      }
    }

    ghost function Views(): map<Client, Conn>
      reads this, Connected()
    {
      map c | c in Connected() :: c.View()
    }

    method OfferToGroups(skip: Option<Id>, wants: Conn -> bool, frame: Frame, ghost views: map<Client, Conn>)
      returns (sent: nat, ghost got: set<Client>)
      requires Valid() && views == Views()
      requires skip.Some? ==> forall v | wants(v) :: v.user != skip.value
      modifies Connected()`send
      ensures forall c | c in views :: c.send == Pushed(views[c], wants, frame)
      ensures sent == |got| && got <= views.Keys
      ensures forall c | c in views :: c in got <==> Takes(views[c], wants)
    {
      sent, got := OfferByUser(clients, skip, wants, frame, views);
    }

    /** Excludes every connection of one user (the sender). */
    method BroadcastToGroup(group: Id, excludedUser: Id, action: string, frame: Frame, policy: Option<PermissionPolicy>)
      returns (sent: nat, ghost got: set<Client>)
      requires Valid()
      modifies Connected()`send
      ensures forall c | c in Connected() ::
                c.View() == Deliver(old(c.View()), ToGroupExceptUser(group, excludedUser, action, frame), policy)
      ensures sent == |got| && got <= Connected()
      ensures forall c | c in Connected() ::
                c in got <==> old(Takes(c.View(), Wanting(ToGroupExceptUser(group, excludedUser, action, frame), policy)))
    {
      sent, got := OfferToGroups(
        Some(excludedUser), Wanting(ToGroupExceptUser(group, excludedUser, action, frame), policy), frame, Views());
    }

    /** Excludes one device only, so the sender's other devices still receive. */
    method BroadcastToGroupExcludeDevice(group: Id, excludedDevice: Id, action: string, frame: Frame,
                                         policy: Option<PermissionPolicy>)
      returns (sent: nat, ghost got: set<Client>)
      requires Valid()
      modifies Connected()`send
      ensures forall c | c in Connected() ::
                c.View() == Deliver(old(c.View()), ToGroupExceptDevice(group, excludedDevice, action, frame), policy)
      ensures sent == |got| && got <= Connected()
      ensures forall c | c in Connected() ::
                c in got <==>
                old(Takes(c.View(), Wanting(ToGroupExceptDevice(group, excludedDevice, action, frame), policy)))
    {
      sent, got := OfferToGroups(
        None, Wanting(ToGroupExceptDevice(group, excludedDevice, action, frame), policy), frame, Views());
    }

    /** Offers to the connections of one user, the only ones that can want the frame. */
    method OfferToUser(user: Id, wants: Conn -> bool, frame: Frame, ghost views: map<Client, Conn>)
      returns (sent: nat, ghost got: set<Client>)
      requires Valid() && views == Views()
      requires forall v | wants(v) :: v.user == user
      modifies Connected()`send
      ensures forall c | c in views :: c.send == Pushed(views[c], wants, frame)
      ensures sent == |got| && got <= views.Keys
      ensures forall c | c in views :: c in got <==> Takes(views[c], wants)
    {
      if user !in clients {
        assert forall c | c in views :: c.userID != user;
        return 0, {};
      }
      OwnSets(user);
      sent, got := OfferEach(clients[user], wants, frame, views);
    }

    method SendToUser(user: Id, frame: Frame, policy: Option<PermissionPolicy>)
      requires Valid()
      modifies Connected()`send
      ensures forall c | c in Connected() :: c.View() == Deliver(old(c.View()), ToUser(user, frame), policy)
    {
      var _, _ := OfferToUser(user, Wanting(ToUser(user, frame), policy), frame, Views());
    }

    method SendLocationToUser(user: Id, excludedDevice: Id, frame: Frame, policy: Option<PermissionPolicy>)
      returns (sent: nat, ghost got: set<Client>)
      requires Valid()
      modifies Connected()`send
      ensures forall c | c in Connected() ::
                c.View() == Deliver(old(c.View()), ToUserExceptDevice(user, excludedDevice, frame), policy)
      ensures sent == |got| && got <= Connected()
      ensures forall c | c in Connected() ::
                c in got <==> old(Takes(c.View(), Wanting(ToUserExceptDevice(user, excludedDevice, frame), policy)))
    {
      sent, got := OfferToUser(user, Wanting(ToUserExceptDevice(user, excludedDevice, frame), policy), frame, Views());
    }

    method BuildSnapshotLocations(records: seq<LocationRecord>, excludedDevice: Id) returns (locations: seq<LocationRecord>)
      ensures locations == Others(records, excludedDevice)
      ensures forall r :: r in locations <==> r in records && r.device != excludedDevice
    {
      OthersAre(records, excludedDevice);
      locations := [];
      for i := 0 to |records|
        invariant locations == Others(records[..i], excludedDevice)
      {
        assert records[..i + 1][..i] == records[..i];
        if records[i].device != excludedDevice {
          locations := locations + [records[i]];
        }
      }
      assert records[..|records|] == records;
    }

    /** One pass of the refresh loop: swap the map, show each newly joined group, acknowledge. */
    method RefreshClient(client: Client, now: map<Id, GroupMember>, policy: Option<PermissionPolicy>,
                         snapshots: Snapshots, known: set<Id>)
      requires !client.closed
      modifies client`groupMemberships, client`send
      ensures Refreshed(old(client.View()), client.View(), now, policy, snapshots, known)
    {
      ghost var before := client.View();
      var previous := client.SetGroupMemberships(now);
      var rest := now.Keys;
      ghost var order: seq<Id> := [];
      ghost var joined := Joined(before, now, policy, snapshots);
      while rest != {}
        invariant rest <= now.Keys
        invariant Enumerates(order, joined - rest)
        invariant client.View() == before.(
                    groups := now, buf := OfferAll(before.buf, SnapshotFrames(order, before.device, snapshots)))
      {
        var g :| g in rest;
        ghost var shown := joined - rest;
        rest := rest - {g};
        if g !in previous && MayReceive(client.View(), g, ACTION_VIEW_LOCATIONS, policy) {
          var records := snapshots(g);
          var locations := BuildSnapshotLocations(records.GetOr([]), client.deviceID);
          if records.Some? && |locations| > 0 {
            assert joined - rest == shown + {g};
            OneMoreShown(before, order, g, shown, snapshots);
            var _ := client.TrySend(SnapshotFrame(g, locations));
            order := order + [g];
          } else {
            assert joined - rest == shown;
          }
        } else {
          assert joined - rest == shown;
        }
      }
      assert joined - {} == joined;
      OfferAllAppend(before.buf, SnapshotFrames(order, before.device, snapshots),
                     [ConnectedFrame(before.user, now.Keys * known)]);
      var _ := client.TrySend(ConnectedFrame(client.userID, now.Keys * known));
    }

    static method BuildMap(rows: seq<MembershipRow>) returns (now: map<Id, GroupMember>)
      ensures now == ToMap(rows)
      ensures GroupsDiffer(rows) ==> forall g, m :: g in now && now[g] == m <==> MembershipRow(g, m) in rows
    {
      if GroupsDiffer(rows) {
        MapHoldsRows(rows);
      }
      now := map[];
      for i := 0 to |rows|
        invariant now == ToMap(rows[..i])
      {
        assert rows[..i + 1][..i] == rows[..i];
        now := now[rows[i].group := rows[i].member];
      }
      assert rows[..|rows|] == rows;
    }

    method RefreshEach(targets: set<Client>, now: map<Id, GroupMember>, policy: Option<PermissionPolicy>,
                       snapshots: Snapshots, known: set<Id>)
      requires forall c | c in targets :: !c.closed
      modifies targets`send, targets`groupMemberships
      ensures forall c | c in targets :: Refreshed(old(c.View()), c.View(), now, policy, snapshots, known)
    {
      var rest := targets;
      while rest != {}
        invariant rest <= targets
        invariant forall c | c in rest :: c.View() == old(c.View())
        invariant forall c | c in targets && c !in rest ::
                    Refreshed(old(c.View()), c.View(), now, policy, snapshots, known)
      {
        var c :| c in rest;
        rest := rest - {c};
        RefreshClient(c, now, policy, snapshots, known);
      }
    }

    /** Reloads every connection of one user from the rows just read, if they could be; nobody else changes. */
    method RefreshClientMemberships(user: Id, rows: Option<seq<MembershipRow>>, policy: Option<PermissionPolicy>,
                                    snapshots: Snapshots, known: set<Id>)
      requires Valid()
      modifies Connected()`send, Connected()`groupMemberships
      ensures forall c | c in Connected() && c.userID == user ::
                RefreshedFrom(old(c.View()), c.View(), rows, policy, snapshots, known)
      ensures rows.Some? && GroupsDiffer(rows.value) ==>
                forall c | c in Connected() && c.userID == user ::
                  forall g, m :: g in c.groupMemberships && c.groupMemberships[g] == m <==> MembershipRow(g, m) in rows.value
      ensures forall c | c in Connected() && c.userID != user :: c.View() == old(c.View())
    {
      if user !in clients {
        return;
      }
      if rows.None? {
        return;
      }
      OwnSets(user);
      var now := BuildMap(rows.value);
      RefreshEach(clients[user], now, policy, snapshots, known);
    }

    /** The switch of routeMessage, after the channel name and payload have been read. */
    method Dispatch(plan: Plan, policy: Option<PermissionPolicy>, rows: Option<seq<MembershipRow>>,
                    snapshots: Snapshots, known: set<Id>)
      requires Valid()
      modifies Connected()`send, Connected()`groupMemberships
      ensures !plan.RefreshUser? ==> forall c | c in Connected() :: c.View() == Deliver(old(c.View()), plan, policy)
      ensures plan.RefreshUser? ==>
                forall c | c in Connected() ::
                  if c.userID == plan.user
                  then RefreshedFrom(old(c.View()), c.View(), rows, policy, snapshots, known)
                  else c.View() == old(c.View())
    {
      match plan {
        case Nobody =>
        case ToGroupExceptUser(g, u, action, frame) =>
          var _, _ := BroadcastToGroup(g, u, action, frame, policy);
        case ToGroupExceptDevice(g, d, action, frame) =>
          var _, _ := BroadcastToGroupExcludeDevice(g, d, action, frame, policy);
        case ToUser(u, frame) =>
          SendToUser(u, frame, policy);
        case ToUserExceptDevice(u, d, frame) =>
          var _, _ := SendLocationToUser(u, d, frame, policy);
        case RefreshUser(u) =>
          RefreshClientMemberships(u, rows, policy, snapshots, known);
      }
    }

    /** Everything but a membership notice reaches each connection as Deliver says. */
    method RouteMessage(msg: PubMessage, policy: Option<PermissionPolicy>, rows: Option<seq<MembershipRow>>,
                        snapshots: Snapshots, known: set<Id>)
      requires Valid()
      modifies Connected()`send, Connected()`groupMemberships
      ensures Valid()
      ensures !PlanOf(msg).RefreshUser? ==>
                forall c | c in Connected() :: c.View() == Deliver(old(c.View()), PlanOf(msg), policy)
      ensures PlanOf(msg).RefreshUser? ==>
                forall c | c in Connected() ::
                  if c.userID == PlanOf(msg).user
                  then RefreshedFrom(old(c.View()), c.View(), rows, policy, snapshots, known)
                  else c.View() == old(c.View())
    {
      Dispatch(PlanOf(msg), policy, rows, snapshots, known);
    }

    /**
     * A position report from a connection. A device id other than the connection's own is
     * refused with an error frame; otherwise the groups it may share with are handed to the
     * location service in some order, each once.
     */
    method HandleLocationUpdate(c: Client, reportedDevice: string, fix: Fix, now: int, stored: bool, located: bool,
                                policy: Option<PermissionPolicy>, service: LocationService)
      requires !c.closed
      modifies c`send, service
      ensures Parse(reportedDevice) != Some(c.deviceID) ==>
                c.send == Offer(old(c.send), ErrorFrame("device_id does not match authenticated device"))
                && service.published == old(service.published) && service.Stored() == old(service.Stored())
      ensures Parse(reportedDevice) == Some(c.deviceID) && old(service.Throttled(c.deviceID, now)) ==>
                c.send == old(c.send)
                && service.published == old(service.published) && service.Stored() == old(service.Stored())
      ensures Parse(reportedDevice) == Some(c.deviceID) && !old(service.Throttled(c.deviceID, now)) && !stored ==>
                c.send == Offer(old(c.send), ErrorFrame("failed to process location update"))
                && service.published == old(service.published)
                && service.Stored() ==
                     (old(service.lastUpdate)[c.deviceID := now], old(service.history), old(service.lastLocation))
      ensures Parse(reportedDevice) == Some(c.deviceID) && !old(service.Throttled(c.deviceID, now)) && stored ==>
                && c.send == old(c.send)
                && service.Stored() ==
                     (old(service.lastUpdate)[c.deviceID := now], old(service.history) + [(c.userID, c.deviceID, fix)],
                      if located then old(service.lastLocation)[c.deviceID := fix] else old(service.lastLocation))
                && exists order: seq<Id> {:trigger LocationMessages(order, c.userID, c.deviceID, fix)} ::
                     && Enumerates(order, set g | g in old(c.groupMemberships) && policy.Some?
                          && CheckCommunication(policy.value, ACTION_SHARE_LOCATION,
                                                Some(old(c.groupMemberships)[g]), c.isAdmin))
                     && service.published == old(service.published) + LocationMessages(order, c.userID, c.deviceID, fix)
    {
      if Parse(reportedDevice) != Some(c.deviceID) {
        c.SendError("device_id does not match authenticated device");
        return;
      }
      ghost var shared := SharedGroups(c.View(), policy);
      var rest := c.groupMemberships.Keys;
      var filtered: seq<Id> := [];
      while rest != {}
        invariant rest <= c.groupMemberships.Keys
        invariant Enumerates(filtered, shared - rest)
      {
        var g :| g in rest;
        ghost var kept := shared - rest;
        rest := rest - {g};
        if MayShare(c.View(), g, policy) {
          assert shared - rest == kept + {g};
          assert g !in filtered;
          filtered := filtered + [g];
        } else {
          assert shared - rest == kept;
        }
      }
      assert shared - {} == shared;
      SharedGroupsAre(c.View(), policy);
      var accepted := service.Update(now, c.userID, c.deviceID, fix, stored, located, filtered);
      if accepted.Failure? {
        c.SendError("failed to process location update");
      }
    }
  }
}
