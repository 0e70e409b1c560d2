/** Agreement of the connections' cached memberships with the database, over every run. */
module HubCoherence {
  import opened Delivery
  import opened HubLifecycle
  import opened HubProtocol
  import opened Uuids
  import opened Wrappers
  import R = Registry

  /** A notice for the user has been committed and the hub has not yet read the rows for it. */
  ghost predicate Pending(s: State, user: Id) {
    user in s.unpublished || RefreshUser(user) in s.queue || s.task == Reading(user)
  }

  ghost predicate BeingRefreshed(s: State, user: Id, c: ConnId) {
    s.task.Refreshing? && s.task.user == user && c in s.task.remaining
  }

  ghost predicate UpToDate(s: State, c: ConnId)
    requires c in s.peers && s.peers[c].conn.user in s.db && s.db[s.peers[c].conn.user] != []
  {
    s.peers[c].version == Current(s, s.peers[c].conn.user)
  }

  ghost predicate DbSound(s: State) {
    && NIL !in s.db
    && (forall u | u in s.db :: s.db[u] != [])
    && (forall u | RefreshUser(u) in s.queue :: u in s.db)
    && (forall u | u in s.unpublished :: u in s.db)
    && (s.task.Reading? ==> s.task.user in s.db)
  }

  /** Every cache is one of the states its user's rows have had. */
  ghost predicate CachesFromDb(s: State) {
    forall c | c in s.peers ::
      var p := s.peers[c];
      p.conn.user in s.db && p.version < |s.db[p.conn.user]| && p.conn.groups == s.db[p.conn.user][p.version]
  }

  /** A refresh under way carries current rows, or newer ones already have their notice. */
  ghost predicate RefreshSound(s: State) {
    s.task.Refreshing? ==>
      && s.task.user in s.db && s.task.version < |s.db[s.task.user]|
      && s.task.rows == s.db[s.task.user][s.task.version]
      && (s.task.version == Current(s, s.task.user) || Pending(s, s.task.user))
      && (forall c | c in s.peers && Registered(s.peers[c]) && s.peers[c].conn.user == s.task.user ::
            c in s.task.remaining || (s.peers[c].version == s.task.version && c !in s.missed))
  }

  ghost predicate StaleHasReason(s: State)
    requires DbSound(s) && CachesFromDb(s)
  {
    && (forall c | c in s.peers && !s.peers[c].phase.Gone? ::
          || UpToDate(s, c)
          || Pending(s, s.peers[c].conn.user)
          || BeingRefreshed(s, s.peers[c].conn.user, c)
          || c in s.missed)
    && (forall c | c in s.missed :: c in s.peers && !UpToDate(s, c))
  }

  ghost predicate Coherence(s: State) {
    DbSound(s) && CachesFromDb(s) && RefreshSound(s) && StaleHasReason(s)
  }

  // ------------------------------------------------------------ preservation

  predicate PlainTask(task: Task) {
    task.Idle? || task.Fanning?
  }

  /** The cache is the same, and nobody joins the registered ones while a refresh is running. */
  predicate SameCache(p: Peer, q: Peer, refreshing: bool) {
    && q.conn.user == p.conn.user && q.conn.groups == p.conn.groups && q.version == p.version
    && (p.phase.Gone? ==> q.phase.Gone?)
    && (refreshing && Registered(q) ==> Registered(p))
  }

  /** A step that leaves database, notices and caches alone keeps coherence. */
  lemma FrameKeeps(s: State, t: State)
    requires Coherence(s)
    requires t.db == s.db && t.queue == s.queue && t.unpublished == s.unpublished && t.missed == s.missed
    requires t.task == s.task || (PlainTask(s.task) && PlainTask(t.task))
    requires t.peers.Keys == s.peers.Keys
    requires forall c | c in s.peers :: SameCache(s.peers[c], t.peers[c], s.task.Refreshing?)
    ensures Coherence(t)
  {
    assert forall u :: Pending(t, u) <==> Pending(s, u);
  }

  lemma OnePeerKeeps(s: State, t: State, c: ConnId, p: Peer)
    requires Coherence(s) && c in s.peers
    requires t.db == s.db && t.queue == s.queue && t.unpublished == s.unpublished && t.missed == s.missed
    requires t.task == s.task || (PlainTask(s.task) && PlainTask(t.task))
    requires t.peers == s.peers[c := p] && SameCache(s.peers[c], p, s.task.Refreshing?)
    ensures Coherence(t)
  {
    FrameKeeps(s, t);
  }

  /** A connection with the current rows, not yet registered, joins. */
  lemma NewPeerKeeps(s: State, t: State, c: ConnId, p: Peer)
    requires Coherence(s) && c !in s.peers
    requires t.db == s.db && t.queue == s.queue && t.unpublished == s.unpublished && t.missed == s.missed
    requires t.task == s.task
    requires t.peers == s.peers[c := p] && !Registered(p)
    requires p.conn.user in s.db && s.db[p.conn.user] != []
    requires p.version == Current(s, p.conn.user) && p.conn.groups == s.db[p.conn.user][p.version]
    ensures Coherence(t)
  {
    assert forall u :: Pending(t, u) <==> Pending(s, u);
    forall d | d in t.peers && !t.peers[d].phase.Gone?
      ensures || UpToDate(t, d) || Pending(t, t.peers[d].conn.user)
              || BeingRefreshed(t, t.peers[d].conn.user, d) || d in t.missed
    {
      if d == c {
        assert UpToDate(t, d);
      } else {
        assert t.peers[d] == s.peers[d];
        assert UpToDate(s, d) ==> UpToDate(t, d);
      }
    }
    assert forall d | d in s.peers :: t.peers[d] == s.peers[d];
  }

  lemma LoadKeeps(s: State, e: Event)
    requires Coherence(s) && Enabled(s, e) && e.Load?
    ensures Coherence(ApplyConn(s, e))
  {
    var t := ApplyConn(s, e);
    NewPeerKeeps(s, t, e.c, t.peers[e.c]);
  }

  lemma ConnKeepsCoherence(s: State, e: Event)
    requires Coherence(s) && Enabled(s, e) && ConnEvent(e)
    ensures Coherence(ApplyConn(s, e))
  {
    var t := ApplyConn(s, e);
    if e.Load? {
      LoadKeeps(s, e);
    } else {
      OnePeerKeeps(s, t, e.c, t.peers[e.c]);
    }
  }

  lemma CommitKeeps(s: State, user: Id, rows: Rows)
    requires Coherence(s) && Enabled(s, Commit(user, rows))
    ensures Coherence(ApplyService(s, Commit(user, rows)))
  {
    CommitFrame(s, ApplyService(s, Commit(user, rows)), user, rows);
  }

  /** A new state of the rows comes with its notice. */
  lemma CommitFrame(s: State, t: State, user: Id, rows: Rows)
    requires Coherence(s) && user in s.db
    requires t.db == s.db[user := s.db[user] + [rows]] && t.unpublished == s.unpublished + multiset{user}
    requires t.queue == s.queue && t.peers == s.peers && t.task == s.task && t.missed == s.missed
    ensures Coherence(t)
  {
    assert Pending(t, user);
    assert forall u :: Pending(s, u) ==> Pending(t, u);
    assert forall u | u in s.db && u != user :: t.db[u] == s.db[u];
  }

  /** Only notices move on, and none gets lost. */
  lemma NoticesFrame(s: State, t: State)
    requires Coherence(s)
    requires t.db == s.db && t.peers == s.peers && t.task == s.task && t.missed == s.missed
    requires forall u | RefreshUser(u) in t.queue || u in t.unpublished :: u in s.db
    requires forall u | Pending(s, u) :: Pending(t, u)
    ensures Coherence(t)
  {
  }

  lemma PublishKeeps(s: State, e: Event)
    requires Coherence(s) && Enabled(s, e) && (e.PublishNotice? || e.Publish? || e.SetPolicy?)
    ensures Coherence(ApplyService(s, e))
  {
    var t := ApplyService(s, e);
    forall u | Pending(s, u)
      ensures Pending(t, u)
    {
      if e.PublishNotice? && u == e.user {
        assert t.queue[|s.queue|] == RefreshUser(u);
      } else if RefreshUser(u) in s.queue {
        var i :| 0 <= i < |s.queue| && s.queue[i] == RefreshUser(u);
        assert t.queue[i] == RefreshUser(u);
      }
    }
    NoticesFrame(s, t);
  }

  /** Taking a message off the queue turns a queued notice into a pending read. */
  lemma TakeFrame(s: State, t: State)
    requires Coherence(s) && s.queue != [] && s.task.Idle?
    requires t.db == s.db && t.peers == s.peers && t.missed == s.missed && t.unpublished == s.unpublished
    requires t.queue == s.queue[1..]
    requires if s.queue[0].RefreshUser? then t.task == Reading(s.queue[0].user) else PlainTask(t.task)
    ensures Coherence(t)
  {
    assert s.queue == [s.queue[0]] + t.queue;
    assert forall u :: Pending(t, u) <==> Pending(s, u);
    assert forall u | RefreshUser(u) in t.queue :: RefreshUser(u) in s.queue;
    assert s.queue[0] in s.queue;
  }

  lemma TakeKeeps(s: State)
    requires Coherence(s) && Enabled(s, Take)
    ensures Coherence(ApplyRoute(s, Take))
  {
    TakeFrame(s, ApplyRoute(s, Take));
  }

  /** Reading the rows: the registered connections join the refresh, the waiting ones are missed. */
  lemma ReadFrame(s: State, t: State, user: Id)
    requires Coherence(s) && MapExact(s) && s.task == Reading(user)
    requires t.db == s.db && t.peers == s.peers && t.queue == s.queue && t.unpublished == s.unpublished
    requires t.missed == s.missed + Overlooked(s, user)
    requires if user in s.clients
             then t.task == Refreshing(user, Current(s, user), s.db[user][Current(s, user)], s.clients[user])
             else t.task == Idle
    ensures Coherence(t)
  {
    assert forall u | u != user :: Pending(t, u) <==> Pending(s, u);
    forall c | c in t.peers && !t.peers[c].phase.Gone? && t.peers[c].conn.user == user
      ensures UpToDate(t, c) || BeingRefreshed(t, user, c) || c in t.missed
    {
      if !Registered(t.peers[c]) && !UpToDate(t, c) {
        assert c in Overlooked(s, user);
      }
    }
    assert StaleHasReason(t);
  }

  lemma ReadKeeps(s: State)
    requires Coherence(s) && MapExact(s) && Enabled(s, Read)
    ensures Coherence(ApplyRoute(s, Read))
  {
    ReadFrame(s, ApplyRoute(s, Read), s.task.user);
  }

  lemma RefreshFrame(s: State, t: State, c: ConnId, p: Peer)
    requires Coherence(s) && c in s.peers && s.task.Refreshing? && c in s.task.remaining
    requires s.peers[c].conn.user == s.task.user && Registered(s.peers[c])
    requires t.db == s.db && t.queue == s.queue && t.unpublished == s.unpublished
    requires t.missed == s.missed - {c}
    requires t.task == Refreshing(s.task.user, s.task.version, s.task.rows, s.task.remaining - {c})
    requires t.peers == s.peers[c := p]
    requires p.conn.user == s.task.user && p.conn.groups == s.task.rows && p.version == s.task.version
    requires p.phase == s.peers[c].phase
    ensures Coherence(t)
  {
    assert forall u :: Pending(s, u) <==> Pending(t, u);
  }

  lemma RefreshOneKeeps(s: State, c: ConnId, frames: seq<Frame>)
    requires Coherence(s) && LoopsOverRegistered(s) && Enabled(s, RefreshOne(c, frames))
    ensures Coherence(ApplyRoute(s, RefreshOne(c, frames)))
  {
    var t := ApplyRoute(s, RefreshOne(c, frames));
    PushAllKeeps(Reloaded(s, c), frames);
    RefreshFrame(s, t, c, t.peers[c]);
  }

  /** A fan-out step changes at most the traffic of one connection. */
  lemma FanOneEffect(s: State, c: ConnId) returns (p: Peer)
    requires Enabled(s, FanOne(c))
    ensures var t := ApplyRoute(s, FanOne(c));
            t == s.(peers := s.peers[c := p], task := t.task, panicked := t.panicked) && t.task.Fanning?
    ensures SameCache(s.peers[c], p, false)
  {
    if Receives(s.peers[c].conn, s.task.plan, s.policy) {
      p := PushTo(s.peers[c], s.task.plan.frame);
    } else {
      p := s.peers[c];
      assert s.peers == s.peers[c := p];
    }
  }

  lemma FanKeeps(s: State, e: Event)
    requires Coherence(s) && Enabled(s, e) && (e.FanOne? || e.FanDone?)
    ensures Coherence(ApplyRoute(s, e))
  {
    if e.FanOne? {
      var p := FanOneEffect(s, e.c);
      OnePeerKeeps(s, ApplyRoute(s, e), e.c, p);
    } else {
      FrameKeeps(s, ApplyRoute(s, e));
    }
  }

  lemma StepKeepsCoherence(s: State, e: Event)
    requires Coherence(s) && Lifecycle(s) && Enabled(s, e)
    ensures Coherence(Apply(s, e))
  {
    if ConnEvent(e) {
      ConnKeepsCoherence(s, e);
    } else {
      match e {
        case Commit(user, rows) => CommitKeeps(s, user, rows);
        case PublishNotice(_) => PublishKeeps(s, e);
        case Publish(_) => PublishKeeps(s, e);
        case SetPolicy(_) => PublishKeeps(s, e);
        case Take => TakeKeeps(s);
        case FanOne(_) => FanKeeps(s, e);
        case FanDone => FanKeeps(s, e);
        case Read => ReadKeeps(s);
        case RefreshOne(c, frames) => RefreshOneKeeps(s, c, frames);
        case RefreshDone => assert forall u :: Pending(Apply(s, e), u) <==> Pending(s, u);
      }
    }
  }

  lemma {:induction false} RunKeepsCoherence(s: State, es: seq<Event>)
    requires Coherence(s) && Lifecycle(s) && IsRun(s, es)
    ensures Coherence(Final(s, es)) && Lifecycle(Final(s, es))
    decreases es
  {
    if es != [] {
      StepKeepsLifecycle(s, es[0]);
      StepKeepsCoherence(s, es[0]);
      RunKeepsCoherence(Apply(s, es[0]), es[1..]);
    }
  }

  lemma Reached(s: State, es: seq<Event>)
    requires Init(s) && IsRun(s, es)
    ensures Coherence(Final(s, es)) && Lifecycle(Final(s, es))
  {
    assert R.All(s.clients) == {};
    RunKeepsCoherence(s, es);
  }

  // ------------------------------------------------------------ results

  /** Nothing is owed to the user: no notice on its way and no refresh under way. */
  ghost predicate Settled(s: State, user: Id) {
    !Pending(s, user) && !(s.task.Refreshing? && s.task.user == user)
  }

  /**
   * Main result. In every run, once nothing is pending for a user, a registered connection of
   * that user holds the latest version of the user's rows if and only if it was not missed, that
   * is, unless the hub read newer rows for the user while the connection, with older rows already
   * loaded, was still waiting to be registered. Its cache equals the current rows if and only if
   * it was not missed or the rows it loaded happen to be the current ones again.
   */
  lemma CachesAgree(s: State, es: seq<Event>, c: ConnId)
    requires Init(s) && IsRun(s, es)
    requires c in Final(s, es).peers && Registered(Final(s, es).peers[c])
    requires Settled(Final(s, es), Final(s, es).peers[c].conn.user)
    ensures var t := Final(s, es);
            var p := t.peers[c];
            && p.conn.user in t.db && t.db[p.conn.user] != []
            && (c !in t.missed <==> p.version == Current(t, p.conn.user))
            && p.version < |t.db[p.conn.user]|
            && (p.conn.groups == t.db[p.conn.user][Current(t, p.conn.user)] <==>
                  c !in t.missed || t.db[p.conn.user][p.version] == t.db[p.conn.user][Current(t, p.conn.user)])
  {
    Reached(s, es);
  }

  function StatesOf(s: State, user: Id): seq<Rows> {
    if user in s.db then s.db[user] else []
  }

  ghost predicate AllDifferent(states: seq<Rows>) {
    forall i, j | 0 <= i < j < |states| :: states[i] != states[j]
  }

  /** If a user's rows never return to an earlier state, a settled cache is current if and only if it was not missed. */
  lemma DistinctStatesCachesAgree(s: State, es: seq<Event>, c: ConnId)
    requires Init(s) && IsRun(s, es)
    requires c in Final(s, es).peers && Registered(Final(s, es).peers[c])
    requires Settled(Final(s, es), Final(s, es).peers[c].conn.user)
    requires AllDifferent(StatesOf(Final(s, es), Final(s, es).peers[c].conn.user))
    ensures var t := Final(s, es);
            var p := t.peers[c];
            && p.conn.user in t.db && t.db[p.conn.user] != []
            && (p.conn.groups == t.db[p.conn.user][Current(t, p.conn.user)] <==> c !in t.missed)
  {
    CachesAgree(s, es, c);
    var t := Final(s, es);
    var states := StatesOf(t, t.peers[c].conn.user);
    assert t.peers[c].version < |states| - 1 ==> states[t.peers[c].version] != states[|states| - 1];
  }

  /** At every moment a stale cache has a cause: a pending notice, a running refresh or a miss. */
  lemma StaleCacheHasCause(s: State, es: seq<Event>, c: ConnId)
    requires Init(s) && IsRun(s, es)
    requires c in Final(s, es).peers && Registered(Final(s, es).peers[c])
    ensures var t := Final(s, es);
            var p := t.peers[c];
            && p.conn.user in t.db && t.db[p.conn.user] != []
            && (p.conn.groups != t.db[p.conn.user][Current(t, p.conn.user)] ==>
                  Pending(t, p.conn.user) || BeingRefreshed(t, p.conn.user, c) || c in t.missed)
  {
    Reached(s, es);
  }

  /** The next notice heals: when a refresh ends, no connection of that user is missed. */
  lemma RefreshHeals(s: State, es: seq<Event>, c: ConnId)
    requires Init(s) && IsRun(s, es)
    requires var t := Final(s, es); t.task.Refreshing? && t.task.remaining == {}
    requires var t := Final(s, es); c in t.peers && Registered(t.peers[c]) && t.peers[c].conn.user == t.task.user
    ensures var t := Final(s, es);
            c !in t.missed && t.peers[c].conn.groups == t.task.rows && t.peers[c].version == t.task.version
  {
    Reached(s, es);
  }

  /** Whenever the hub reads rows for a user, no connection of that user is waiting. */
  ghost predicate NobodyWaits(s: State, es: seq<Event>)
    requires IsRun(s, es)
    decreases es
  {
    es == [] ||
    (&& (es[0].Read? ==> forall c | c in s.peers && s.peers[c].conn.user == s.task.user :: !s.peers[c].phase.Loaded?)
     && NobodyWaits(Apply(s, es[0]), es[1..]))
  }

  lemma {:induction false} NobodyMissed(s: State, es: seq<Event>)
    requires IsRun(s, es) && NobodyWaits(s, es) && s.missed == {}
    ensures Final(s, es).missed == {}
    decreases es
  {
    if es != [] {
      var t := Apply(s, es[0]);
      if es[0].Read? {
        assert Overlooked(s, s.task.user) == {};
      }
      assert t.missed == {};
      NobodyMissed(t, es[1..]);
    }
  }

  /**
   * If loading memberships and registering are never separated by the hub reading rows for the
   * same user, then once everything is drained every registered cache equals the database.
   */
  lemma DrainedCachesAgree(s: State, es: seq<Event>)
    requires Init(s) && IsRun(s, es) && NobodyWaits(s, es)
    requires var t := Final(s, es); t.unpublished == multiset{} && t.queue == [] && t.task.Idle?
    ensures var t := Final(s, es);
            forall c | c in t.peers && Registered(t.peers[c]) ::
              && t.peers[c].conn.user in t.db && t.db[t.peers[c].conn.user] != []
              && t.peers[c].conn.groups == t.db[t.peers[c].conn.user][Current(t, t.peers[c].conn.user)]
  {
    Reached(s, es);
    NobodyMissed(s, es);
  }

  // ------------------------------------------------------------ the race is real

  function RaceStart(user: Id, before: Rows): State {
    State(map[user := [before]], multiset{}, [], None, map[], map[], Idle, {}, false, 0, 0)
  }

  function Race(user: Id, device: Id, after: Rows): seq<Event> {
    [Load(0, user, device, false), Commit(user, after), PublishNotice(user), Take, Read, Register(0)]
  }

  /**
   * The hypothesis cannot be dropped: a change committed, published and taken by the hub between
   * loading and registering leaves everything drained and the registered cache out of date.
   */
  lemma RaceLeavesStaleCache(user: Id, device: Id, before: Rows, after: Rows)
    requires before != after && user != NIL
    ensures var s := RaceStart(user, before);
            var es := Race(user, device, after);
            && Init(s) && IsRun(s, es)
            && var t := Final(s, es);
               && t.unpublished == multiset{} && t.queue == [] && t.task.Idle?
               && 0 in t.peers && Registered(t.peers[0])
               && t.peers[0].conn.groups == before
               && t.db == map[user := [before, after]]
               && 0 in t.missed
  {
    var s := RaceStart(user, before);
    var es := Race(user, device, after);
    var waiting := Fresh(Conn(user, device, false, before, []), 0);
    var s1 := s.(peers := map[0 := waiting]);
    var s2 := s1.(db := map[user := [before, after]], unpublished := multiset{user});
    var s3 := s2.(unpublished := multiset{}, queue := [RefreshUser(user)]);
    var s4 := s3.(queue := [], task := Reading(user));
    var s5 := s4.(task := Idle, missed := {0});
    RaceCommits(user, device, before, after, s, s1, s2, s3);
    RaceIsRead(user, after, s3, s4, s5, waiting);
    RunSix(s, es, s1, s2, s3, s4, s5, Apply(s5, es[5]));
  }

  /** The first half: loaded, then changed and published. */
  lemma RaceCommits(user: Id, device: Id, before: Rows, after: Rows, s: State, s1: State, s2: State, s3: State)
    requires s == RaceStart(user, before) && user != NIL
    requires s1 == s.(peers := map[0 := Fresh(Conn(user, device, false, before, []), 0)])
    requires s2 == s1.(db := map[user := [before, after]], unpublished := multiset{user})
    requires s3 == s2.(unpublished := multiset{}, queue := [RefreshUser(user)])
    ensures Enabled(s, Load(0, user, device, false)) && Apply(s, Load(0, user, device, false)) == s1
    ensures Enabled(s1, Commit(user, after)) && Apply(s1, Commit(user, after)) == s2
    ensures Enabled(s2, PublishNotice(user)) && Apply(s2, PublishNotice(user)) == s3
  {
    assert [before] + [after] == [before, after];
    assert s1.unpublished + multiset{user} == multiset{user};
  }

  /** The second half: the hub takes the notice and reads while the connection is still waiting. */
  lemma RaceIsRead(user: Id, after: Rows, s3: State, s4: State, s5: State, waiting: Peer)
    requires s3.task.Idle? && s3.queue == [RefreshUser(user)] && s3.clients == map[] && s3.missed == {}
    requires user in s3.db && |s3.db[user]| == 2 && s3.peers == map[0 := waiting]
    requires waiting.phase.Loaded? && waiting.conn.user == user && waiting.version == 0
    requires s4 == s3.(queue := [], task := Reading(user))
    requires s5 == s4.(task := Idle, missed := {0})
    ensures Enabled(s3, Take) && Apply(s3, Take) == s4
    ensures Enabled(s4, Read) && Apply(s4, Read) == s5
  {
    assert s3.queue[1..] == [];
    assert Overlooked(s4, user) == {0};
  }

  lemma RunSix(s: State, es: seq<Event>, s1: State, s2: State, s3: State, s4: State, s5: State, s6: State)
    requires |es| == 6
    requires Enabled(s, es[0]) && s1 == Apply(s, es[0])
    requires Enabled(s1, es[1]) && s2 == Apply(s1, es[1])
    requires Enabled(s2, es[2]) && s3 == Apply(s2, es[2])
    requires Enabled(s3, es[3]) && s4 == Apply(s3, es[3])
    requires Enabled(s4, es[4]) && s5 == Apply(s4, es[4])
    requires Enabled(s5, es[5]) && s6 == Apply(s5, es[5])
    ensures IsRun(s, es) && Final(s, es) == s6
  {
    var e1, e2, e3, e4, e5 := es[1..], es[2..], es[3..], es[4..], es[5..];
    assert e1[1..] == e2 && e2[1..] == e3 && e3[1..] == e4 && e4[1..] == e5 && e5[1..] == [];
    assert IsRun(s6, []) && Final(s6, []) == s6;
    assert IsRun(s5, e5) && Final(s5, e5) == s6;
    assert IsRun(s4, e4) && Final(s4, e4) == s6;
    assert IsRun(s3, e3) && Final(s3, e3) == s6;
    assert IsRun(s2, e2) && Final(s2, e2) == s6;
    assert IsRun(s1, e1) && Final(s1, e1) == s6;
  }
}
