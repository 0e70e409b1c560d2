/**
 * The hub loop, the connections' goroutines, the database and the pub/sub queue as one
 * interleaving system. A run is any sequence of enabled events up to shutdown.
 */
module HubProtocol {
  import opened Delivery
  import opened Policy
  import opened Uuids
  import opened Wrappers
  import R = Registry

  type ConnId = nat
  type Rows = map<Id, GroupMember>

  /**
   * Loaded: memberships read from the database, waiting for the hub to take the registration.
   * Live: in the hub's map, its own goroutine may still push frames.
   * Leaving: its read loop has ended and waits to hand over the unregistration.
   * Gone: removed by the hub.
   */
  datatype Phase = Loaded | Live | Leaving | Gone

  /** One offer to an outbound channel, with how full the channel was. */
  datatype Attempt = Attempt(frame: Frame, fill: nat)

  /**
   * A connection. `version` says which state of the user's rows its memberships come from;
   * `offers`, `written` and `lost` record the traffic of its outbound channel.
   */
  datatype Peer = Peer(
    conn: Conn, phase: Phase, version: nat, closed: bool, pumping: bool,
    offers: seq<Attempt>, written: seq<Frame>, lost: seq<Frame>)

  /** What the hub's single goroutine is in the middle of. */
  datatype Task =
    | Idle
    | Fanning(plan: Plan, remaining: set<ConnId>)
    | Reading(user: Id)
    | Refreshing(user: Id, version: nat, rows: Rows, remaining: set<ConnId>)

  /**
   * `db` holds every state a user's membership rows have had, the current one last.
   * `unpublished` are notices of committed changes still on their way to pub/sub, `queue` the
   * plans of the messages published and not yet taken. `missed` is a history variable: see Read.
   */
  datatype State = State(
    db: map<Id, seq<Rows>>,
    unpublished: multiset<Id>,
    queue: seq<Plan>,
    policy: Option<PermissionPolicy>,
    clients: R.Registry<Id, ConnId>,
    peers: map<ConnId, Peer>,
    task: Task,
    missed: set<ConnId>,
    panicked: bool,
    added: nat,
    removed: nat)

  datatype Event =
    | Load(c: ConnId, user: Id, device: Id, isAdmin: bool)
    | Register(c: ConnId)
    | OwnSend(c: ConnId, frame: Frame)
    | EndRead(c: ConnId)
    | Unregister(c: ConnId)
    | Write(c: ConnId, ok: bool)
    | StopPump(c: ConnId)
    | Commit(user: Id, rows: Rows)
    | PublishNotice(user: Id)
    | Publish(plan: Plan)
    | SetPolicy(policy: Option<PermissionPolicy>)
    | Take
    | FanOne(c: ConnId)
    | FanDone
    | Read
    | RefreshOne(c: ConnId, frames: seq<Frame>)
    | RefreshDone

  // ------------------------------------------------------------ steps

  function Current(s: State, user: Id): nat
    requires user in s.db && s.db[user] != []
  {
    |s.db[user]| - 1
  }

  /** A non-blocking send on a connection's channel, recorded. */
  function PushTo(p: Peer, frame: Frame): Peer {
    p.(conn := p.conn.(buf := Offer(p.conn.buf, frame)),
       offers := p.offers + [Attempt(frame, |p.conn.buf|)])
  }

  function PushAllTo(p: Peer, frames: seq<Frame>): Peer
    decreases frames
  {
    if frames == [] then p else PushAllTo(PushTo(p, frames[0]), frames[1..])
  }

  function Fresh(conn: Conn, version: nat): Peer {
    Peer(conn, Loaded, version, false, true, [], [], [])
  }

  /** The write pump takes the oldest frame; a failed write loses it and ends the pump. */
  function Written(p: Peer, ok: bool): Peer
    requires p.conn.buf != []
  {
    var rest := p.(conn := p.conn.(buf := p.conn.buf[1..]));
    if ok then rest.(written := p.written + [p.conn.buf[0]])
    else rest.(lost := p.lost + [p.conn.buf[0]], pumping := false)
  }

  predicate InPhase(s: State, c: ConnId, phase: Phase) {
    c in s.peers && s.peers[c].phase == phase
  }

  predicate Enabled(s: State, e: Event) {
    match e
    case Load(c, user, _, _) => c !in s.peers && user in s.db && s.db[user] != []
    case Register(c) => s.task.Idle? && InPhase(s, c, Loaded)
    case OwnSend(c, _) => InPhase(s, c, Live)
    case EndRead(c) => InPhase(s, c, Live)
    case Unregister(c) => s.task.Idle? && InPhase(s, c, Leaving)
    case Write(c, _) => c in s.peers && s.peers[c].pumping && s.peers[c].conn.buf != []
    case StopPump(c) => c in s.peers
    case Commit(user, _) => user in s.db
    case PublishNotice(user) => user in s.unpublished
    case Publish(plan) => plan.RefreshUser? ==> plan.user in s.db
    case SetPolicy(_) => true
    case Take => s.task.Idle? && s.queue != []
    case FanOne(c) => s.task.Fanning? && c in s.task.remaining && c in s.peers
    case FanDone => s.task.Fanning? && s.task.remaining == {}
    case Read => s.task.Reading? && s.task.user in s.db && s.db[s.task.user] != []
    case RefreshOne(c, _) => s.task.Refreshing? && c in s.task.remaining && c in s.peers
    case RefreshDone => s.task.Refreshing? && s.task.remaining == {}
  }

  function SetPeer(s: State, c: ConnId, p: Peer): State {
    s.(peers := s.peers[c := p])
  }

  /** The waiting connections that the rows just read make out of date and the refresh skips. */
  function Overlooked(s: State, user: Id): set<ConnId>
    requires user in s.db && s.db[user] != []
  {
    set c | c in s.peers && s.peers[c].phase == Loaded && s.peers[c].conn.user == user
            && s.peers[c].version != Current(s, user)
  }

  /** Steps of a connection's goroutines, and the hub taking it in or letting it go. */
  function ApplyConn(s: State, e: Event): State
    requires Enabled(s, e)
  {
    match e
    case Load(c, user, device, isAdmin) =>
      SetPeer(s, c, Fresh(Conn(user, device, isAdmin, s.db[user][Current(s, user)], []), Current(s, user)))
    case Register(c) =>
      SetPeer(s, c, s.peers[c].(phase := Live)).(
        clients := R.Add(s.clients, s.peers[c].conn.user, c), added := s.added + 1)
    case OwnSend(c, frame) =>
      SetPeer(s, c, PushTo(s.peers[c], frame)).(panicked := s.panicked || s.peers[c].closed)
    case EndRead(c) => SetPeer(s, c, s.peers[c].(phase := Leaving))
    case Unregister(c) =>
      var user := s.peers[c].conn.user;
      var gone := s.peers[c].(phase := Gone);
      if user in s.clients && c in s.clients[user] then
        SetPeer(s, c, gone.(closed := true)).(
          clients := R.Remove(s.clients, user, c),
          panicked := s.panicked || s.peers[c].closed,
          removed := s.removed + 1)
      else SetPeer(s, c, gone)
    case Write(c, ok) => SetPeer(s, c, Written(s.peers[c], ok))
    case StopPump(c) => SetPeer(s, c, s.peers[c].(pumping := false))
    case _ => s
  }

  /** What the hub makes of a user's notice; see Delivery.NoticePlan. */
  function NoticeFor(user: Id): Plan {
    if user == NIL then Nobody else RefreshUser(user)
  }

  /** Steps of the services: change rows, then publish a notice; publish anything else. */
  function ApplyService(s: State, e: Event): State
    requires Enabled(s, e)
  {
    match e
    case Commit(user, rows) =>
      s.(db := s.db[user := s.db[user] + [rows]], unpublished := s.unpublished + multiset{user})
    case PublishNotice(user) =>
      s.(unpublished := s.unpublished - multiset{user}, queue := s.queue + [NoticeFor(user)])
    case Publish(plan) => s.(queue := s.queue + [plan])
    case SetPolicy(policy) => s.(policy := policy)
    case _ => s
  }

  /** What the hub turns to after taking a message off the queue. */
  function TaskFor(plan: Plan, clients: R.Registry<Id, ConnId>): Task {
    if plan.Nobody? then Idle
    else if plan.RefreshUser? then Reading(plan.user)
    else Fanning(plan, R.All(clients))
  }

  /** Steps of the hub loop while it routes one message. */
  function ApplyRoute(s: State, e: Event): State
    requires Enabled(s, e)
  {
    match e
    case Take => s.(queue := s.queue[1..], task := TaskFor(s.queue[0], s.clients))
    case FanOne(c) =>
      var rest := s.(task := Fanning(s.task.plan, s.task.remaining - {c}));
      if Receives(s.peers[c].conn, s.task.plan, s.policy) then
        SetPeer(rest, c, PushTo(s.peers[c], s.task.plan.frame)).(panicked := s.panicked || s.peers[c].closed)
      else rest
    case FanDone => s.(task := Idle)
    case Read =>
      var user := s.task.user;
      var marked := s.(missed := s.missed + Overlooked(s, user));
      if user !in s.clients then marked.(task := Idle)
      else marked.(task := Refreshing(user, Current(s, user), s.db[user][Current(s, user)], s.clients[user]))
    case RefreshOne(c, frames) =>
      SetPeer(s, c, PushAllTo(Reloaded(s, c), frames)).(
        task := Refreshing(s.task.user, s.task.version, s.task.rows, s.task.remaining - {c}),
        missed := s.missed - {c},
        panicked := s.panicked || s.peers[c].closed)
    case RefreshDone => s.(task := Idle)
    case _ => s
  }

  /** setGroupMemberships with the rows the running refresh has read. */
  function Reloaded(s: State, c: ConnId): Peer
    requires c in s.peers && s.task.Refreshing?
  {
    s.peers[c].(conn := s.peers[c].conn.(groups := s.task.rows), version := s.task.version)
  }

  predicate ConnEvent(e: Event) {
    e.Load? || e.Register? || e.OwnSend? || e.EndRead? || e.Unregister? || e.Write? || e.StopPump?
  }

  predicate ServiceEvent(e: Event) {
    e.Commit? || e.PublishNotice? || e.Publish? || e.SetPolicy?
  }

  function Apply(s: State, e: Event): State
    requires Enabled(s, e)
  {
    if ConnEvent(e) then ApplyConn(s, e)
    else if ServiceEvent(e) then ApplyService(s, e)
    else ApplyRoute(s, e)
  }

  predicate IsRun(s: State, es: seq<Event>)
    decreases es
  {
    es == [] || (Enabled(s, es[0]) && IsRun(Apply(s, es[0]), es[1..]))
  }

  function Final(s: State, es: seq<Event>): State
    requires IsRun(s, es)
    decreases es
  {
    if es == [] then s else Final(Apply(s, es[0]), es[1..])
  }

  /** Any database contents, the nil identifier naming no user; nothing connected, nothing in flight. */
  predicate Init(s: State) {
    && NIL !in s.db
    && (forall u | u in s.db :: s.db[u] != [])
    && s.unpublished == multiset{}
    && s.queue == []
    && s.clients == map[]
    && s.peers == map[]
    && s.task.Idle?
    && s.missed == {}
    && !s.panicked
    && s.added == 0 && s.removed == 0
  }
}
