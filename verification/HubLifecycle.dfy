/** Registration, channel closing and outbound buffers, over every run of the hub system. */
module HubLifecycle {
  import opened Delivery
  import opened HubProtocol
  import R = Registry

  predicate Registered(p: Peer) {
    p.phase.Live? || p.phase.Leaving?
  }

  /** The map holds exactly the registered connections, each under its own user. */
  ghost predicate MapExact(s: State) {
    && R.NoEmptySets(s.clients)
    && (forall u, c | u in s.clients && c in s.clients[u] ::
          c in s.peers && Registered(s.peers[c]) && s.peers[c].conn.user == u)
    && (forall c | c in s.peers && Registered(s.peers[c]) ::
          s.peers[c].conn.user in s.clients && c in s.clients[s.peers[c].conn.user])
  }

  ghost predicate ChannelsExact(s: State) {
    !s.panicked && forall c | c in s.peers :: s.peers[c].closed <==> s.peers[c].phase.Gone?
  }

  /** The connections a running loop still has to visit stay registered until it is done. */
  ghost predicate LoopsOverRegistered(s: State) {
    match s.task
    case Fanning(_, remaining) => forall c | c in remaining :: c in s.peers && Registered(s.peers[c])
    case Refreshing(user, _, _, remaining) =>
      forall c | c in remaining :: c in s.peers && Registered(s.peers[c]) && s.peers[c].conn.user == user
    case _ => true
  }

  ghost predicate Lifecycle(s: State) {
    && MapExact(s)
    && ChannelsExact(s)
    && LoopsOverRegistered(s)
    && s.added == s.removed + |R.All(s.clients)|
  }

  lemma MapSound(s: State)
    requires MapExact(s)
    ensures R.Sound(s.clients)
    ensures forall c :: c in R.All(s.clients) <==> c in s.peers && Registered(s.peers[c])
  {
    forall u, v | u in s.clients && v in s.clients && u != v
      ensures s.clients[u] !! s.clients[v]
    {
      assert forall c | c in s.clients[u] :: s.peers[c].conn.user == u;
    }
  }

  lemma MapExactAfterAdd(s: State, t: State, c: ConnId, user: Id)
    requires MapExact(s) && c in s.peers && !Registered(s.peers[c]) && s.peers[c].conn.user == user
    requires t.clients == R.Add(s.clients, user, c)
    requires c in t.peers && Registered(t.peers[c]) && t.peers[c].conn.user == user
    requires t.peers.Keys == s.peers.Keys && forall d | d in s.peers && d != c :: t.peers[d] == s.peers[d]
    ensures MapExact(t)
  {
  }

  lemma RegisterKeeps(s: State, c: ConnId)
    requires Lifecycle(s) && Enabled(s, Register(c))
    ensures Lifecycle(ApplyConn(s, Register(c)))
  {
    var t := ApplyConn(s, Register(c));
    var user := s.peers[c].conn.user;
    MapSound(s);
    R.AddSound(s.clients, user, c);
    MapExactAfterAdd(s, t, c, user);
  }

  lemma UnregisterKeeps(s: State, c: ConnId)
    requires Lifecycle(s) && Enabled(s, Unregister(c))
    ensures Lifecycle(ApplyConn(s, Unregister(c)))
  {
    MapSound(s);
    R.RemoveSound(s.clients, s.peers[c].conn.user, c);
    var t := ApplyConn(s, Unregister(c));
    assert R.All(t.clients) == R.All(s.clients) - {c};
  }

  lemma {:induction false} PushAllKeeps(p: Peer, frames: seq<Frame>)
    ensures var q := PushAllTo(p, frames);
            q == p.(conn := q.conn, offers := q.offers) && q.conn == p.conn.(buf := q.conn.buf)
    decreases frames
  {
    if frames != [] {
      PushAllKeeps(PushTo(p, frames[0]), frames[1..]);
    }
  }

  /** A change of one peer that keeps its user, phase and closed flag keeps the lifecycle. */
  lemma PeerChangeKeeps(s: State, t: State, c: ConnId, p: Peer)
    requires Lifecycle(s) && c in s.peers
    requires t.peers == s.peers[c := p]
    requires p.phase == s.peers[c].phase && p.closed == s.peers[c].closed && p.conn.user == s.peers[c].conn.user
    requires t.clients == s.clients && t.added == s.added && t.removed == s.removed && t.panicked == s.panicked
    requires t.task == s.task
    ensures Lifecycle(t)
  {
  }

  /** Moving a loop on to a smaller set, or ending it, keeps the lifecycle. */
  lemma TaskChangeKeeps(s: State, t: State)
    requires Lifecycle(s) && LoopsOverRegistered(t)
    requires t.peers == s.peers && t.clients == s.clients
             && t.added == s.added && t.removed == s.removed && t.panicked == s.panicked
    ensures Lifecycle(t)
  {
  }

  lemma ConnKeepsLifecycle(s: State, e: Event)
    requires Lifecycle(s) && Enabled(s, e) && ConnEvent(e)
    ensures Lifecycle(ApplyConn(s, e))
  {
    var t := ApplyConn(s, e);
    match e {
      case Register(c) => RegisterKeeps(s, c);
      case Unregister(c) => UnregisterKeeps(s, c);
      case OwnSend(c, _) => PeerChangeKeeps(s, t, c, t.peers[c]);
      case Write(c, _) => PeerChangeKeeps(s, t, c, t.peers[c]);
      case StopPump(c) => PeerChangeKeeps(s, t, c, t.peers[c]);
      case _ =>
    }
  }

  lemma FanOneKeepsLifecycle(s: State, c: ConnId)
    requires Lifecycle(s) && Enabled(s, FanOne(c))
    ensures Lifecycle(ApplyRoute(s, FanOne(c)))
  {
    var t := ApplyRoute(s, FanOne(c));
    var moved := s.(task := t.task);
    TaskChangeKeeps(s, moved);
    if t.peers != s.peers {
      PeerChangeKeeps(moved, t, c, t.peers[c]);
    }
  }

  lemma RefreshOneKeepsLifecycle(s: State, c: ConnId, frames: seq<Frame>)
    requires Lifecycle(s) && Enabled(s, RefreshOne(c, frames))
    ensures Lifecycle(ApplyRoute(s, RefreshOne(c, frames)))
  {
    var t := ApplyRoute(s, RefreshOne(c, frames));
    var moved := s.(task := t.task);
    TaskChangeKeeps(s, moved);
    PushAllKeeps(Reloaded(s, c), frames);
    PeerChangeKeeps(moved, t, c, t.peers[c]);
  }

  lemma RouteKeepsLifecycle(s: State, e: Event)
    requires Lifecycle(s) && Enabled(s, e) && !ConnEvent(e) && !ServiceEvent(e)
    ensures Lifecycle(ApplyRoute(s, e))
  {
    if e.FanOne? {
      FanOneKeepsLifecycle(s, e.c);
    } else if e.RefreshOne? {
      RefreshOneKeepsLifecycle(s, e.c, e.frames);
    } else {
      MapSound(s);
      TaskChangeKeeps(s, ApplyRoute(s, e));
    }
  }

  lemma StepKeepsLifecycle(s: State, e: Event)
    requires Lifecycle(s) && Enabled(s, e)
    ensures Lifecycle(Apply(s, e))
  {
    if ConnEvent(e) {
      ConnKeepsLifecycle(s, e);
    } else if ServiceEvent(e) {
      TaskChangeKeeps(s, ApplyService(s, e));
    } else {
      RouteKeepsLifecycle(s, e);
    }
  }

  lemma {:induction false} RunKeepsLifecycle(s: State, es: seq<Event>)
    requires Lifecycle(s) && IsRun(s, es)
    ensures Lifecycle(Final(s, es))
    decreases es
  {
    if es != [] {
      StepKeepsLifecycle(s, es[0]);
      RunKeepsLifecycle(Apply(s, es[0]), es[1..]);
    }
  }

  /**
   * In every run no goroutine sends on a closed channel or closes one twice (either would
   * panic), a channel is closed exactly when its connection has been removed, the hub's map
   * holds exactly the registered connections with no empty inner set, and the number of
   * connections is registrations minus removals.
   */
  lemma LifecycleSafety(s: State, es: seq<Event>)
    requires Init(s) && IsRun(s, es)
    ensures var t := Final(s, es);
            && !t.panicked
            && (forall c | c in t.peers :: t.peers[c].closed <==> t.peers[c].phase.Gone?)
            && (forall c :: c in R.All(t.clients) <==> c in t.peers && Registered(t.peers[c]))
            && (forall u | u in t.clients :: t.clients[u] != {})
            && t.added - t.removed == |R.All(t.clients)|
  {
    assert R.All(s.clients) == {};
    RunKeepsLifecycle(s, es);
    MapSound(Final(s, es));
  }

  /** Nothing is offered to a channel once it is closed. */
  lemma ClosedChannelIsQuiet(s: State, e: Event, c: ConnId)
    requires Lifecycle(s) && Enabled(s, e) && c in s.peers && s.peers[c].closed
    ensures var t := Apply(s, e);
            c in t.peers && t.peers[c].closed && t.peers[c].offers == s.peers[c].offers
  {
  }

  // ------------------------------------------------------------ outbound buffers

  /** The frames that were offered while there was room. */
  function Accepted(offers: seq<Attempt>): seq<Frame> {
    if offers == [] then []
    else
      var last := offers[|offers| - 1];
      Accepted(offers[..|offers| - 1]) + (if last.fill < SEND_BUFFER_SIZE then [last.frame] else [])
  }

  /** Every accepted frame is written, lost by the one failed write, or still buffered. */
  ghost predicate Accounted(p: Peer) {
    && |p.conn.buf| <= SEND_BUFFER_SIZE
    && Accepted(p.offers) == p.written + p.lost + p.conn.buf
    && |p.lost| <= 1
    && (p.lost != [] ==> !p.pumping)
  }

  lemma PushAccounted(p: Peer, frame: Frame)
    requires Accounted(p)
    ensures Accounted(PushTo(p, frame))
  {
    var q := PushTo(p, frame);
    assert q.offers[..|q.offers| - 1] == p.offers;
    if |p.conn.buf| < SEND_BUFFER_SIZE {
      assert p.written + p.lost + p.conn.buf + [frame] == q.written + q.lost + q.conn.buf;
    }
  }

  lemma {:induction false} PushAllAccounted(p: Peer, frames: seq<Frame>)
    requires Accounted(p)
    ensures Accounted(PushAllTo(p, frames))
    decreases frames
  {
    if frames != [] {
      PushAccounted(p, frames[0]);
      PushAllAccounted(PushTo(p, frames[0]), frames[1..]);
    }
  }

  lemma WriteAccounted(p: Peer, ok: bool)
    requires Accounted(p) && p.pumping && p.conn.buf != []
    ensures Accounted(Written(p, ok))
  {
    assert p.conn.buf == [p.conn.buf[0]] + p.conn.buf[1..];
    assert p.lost == [];
  }

  ghost predicate AllAccounted(s: State) {
    forall c | c in s.peers :: Accounted(s.peers[c])
  }

  lemma ConnKeepsAccounts(s: State, e: Event)
    requires AllAccounted(s) && Enabled(s, e) && ConnEvent(e)
    ensures AllAccounted(ApplyConn(s, e))
  {
    match e {
      case OwnSend(c, frame) => PushAccounted(s.peers[c], frame);
      case Write(c, ok) => WriteAccounted(s.peers[c], ok);
      case _ =>
    }
  }

  lemma RouteKeepsAccounts(s: State, e: Event)
    requires AllAccounted(s) && Enabled(s, e) && !ConnEvent(e) && !ServiceEvent(e)
    ensures AllAccounted(ApplyRoute(s, e))
  {
    match e {
      case FanOne(c) =>
        if Receives(s.peers[c].conn, s.task.plan, s.policy) {
          PushAccounted(s.peers[c], s.task.plan.frame);
        }
      case RefreshOne(c, frames) =>
        assert Accounted(Reloaded(s, c));
        PushAllAccounted(Reloaded(s, c), frames);
      case _ =>
    }
  }

  lemma StepKeepsAccounts(s: State, e: Event)
    requires AllAccounted(s) && Enabled(s, e)
    ensures AllAccounted(Apply(s, e))
  {
    if ConnEvent(e) {
      ConnKeepsAccounts(s, e);
    } else if !ServiceEvent(e) {
      RouteKeepsAccounts(s, e);
    }
  }

  lemma {:induction false} RunKeepsAccounts(s: State, es: seq<Event>)
    requires AllAccounted(s) && IsRun(s, es)
    ensures AllAccounted(Final(s, es))
    decreases es
  {
    if es != [] {
      StepKeepsAccounts(s, es[0]);
      RunKeepsAccounts(Apply(s, es[0]), es[1..]);
    }
  }

  /** The i-th offer, if it found room, is the Accepted(offers[..i])-th accepted frame. */
  lemma {:induction false} AcceptedAt(offers: seq<Attempt>, i: nat)
    requires i < |offers| && offers[i].fill < SEND_BUFFER_SIZE
    ensures |Accepted(offers[..i])| < |Accepted(offers)|
    ensures Accepted(offers)[|Accepted(offers[..i])|] == offers[i].frame
    decreases |offers|
  {
    var shorter := offers[..|offers| - 1];
    if i < |offers| - 1 {
      AcceptedAt(shorter, i);
      assert shorter[..i] == offers[..i];
    } else {
      assert offers[..i] == shorter;
    }
  }

  /** written occurs inside offered, in order. */
  ghost predicate Subsequence(written: seq<Frame>, offers: seq<Attempt>)
    decreases offers
  {
    written == [] ||
    (offers != [] &&
     ((written[|written| - 1] == offers[|offers| - 1].frame && Subsequence(written[..|written| - 1], offers[..|offers| - 1]))
      || Subsequence(written, offers[..|offers| - 1])))
  }

  lemma {:induction false} PrefixOfAccepted(written: seq<Frame>, offers: seq<Attempt>)
    requires written <= Accepted(offers)
    ensures Subsequence(written, offers)
    decreases offers
  {
    if written != [] {
      var shorter := offers[..|offers| - 1];
      if |written| <= |Accepted(shorter)| {
        assert Accepted(shorter) <= Accepted(offers);
        assert written == Accepted(offers)[..|written|] == Accepted(shorter)[..|written|];
        PrefixOfAccepted(written, shorter);
      } else {
        var but := written[..|written| - 1];
        assert |but| == |Accepted(shorter)|;
        assert but == Accepted(offers)[..|but|] == Accepted(shorter);
        PrefixOfAccepted(but, shorter);
      }
    }
  }

  /**
   * In every run each outbound buffer holds at most 256 frames; what the write pump wrote is an
   * in-order subsequence of what was offered; and every offer that found room is written, is
   * the single frame a failed write lost, or is still buffered, in offer order. So a frame that
   * is missing was offered to a full buffer or is that one loss.
   */
  lemma BackpressureSafety(s: State, es: seq<Event>, c: ConnId)
    requires Init(s) && IsRun(s, es) && c in Final(s, es).peers
    ensures var p := Final(s, es).peers[c];
            && |p.conn.buf| <= SEND_BUFFER_SIZE
            && Subsequence(p.written, p.offers)
            && |p.lost| <= 1 && (p.lost != [] ==> !p.pumping)
            && (forall i | 0 <= i < |p.offers| && p.offers[i].fill < SEND_BUFFER_SIZE ::
                  var k := |Accepted(p.offers[..i])|;
                  k < |p.written + p.lost + p.conn.buf| && (p.written + p.lost + p.conn.buf)[k] == p.offers[i].frame)
  {
    RunKeepsAccounts(s, es);
    var p := Final(s, es).peers[c];
    PrefixOfAccepted(p.written, p.offers);
    forall i | 0 <= i < |p.offers| && p.offers[i].fill < SEND_BUFFER_SIZE
      ensures |Accepted(p.offers[..i])| < |p.written + p.lost + p.conn.buf|
      ensures (p.written + p.lost + p.conn.buf)[|Accepted(p.offers[..i])|] == p.offers[i].frame
    {
      AcceptedAt(p.offers, i);
    }
  }
}
