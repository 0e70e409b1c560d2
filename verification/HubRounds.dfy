/**
 * The interleaving system and the hub object agree: routing one message with nothing in between
 * does to the registered connections what the hub's routeMessage does, and a refresh writes into
 * the caches the rows that the group_members table holds.
 */
module HubRounds {
  import opened Delivery
  import opened HubLifecycle
  import opened HubProtocol
  import opened Policy
  import opened Wrappers
  import G = Groups
  import H = Hub
  import R = Registry

  /** The fan-out loop in some order of the connections, then its end. */
  function FanEvents(order: seq<ConnId>): seq<Event> {
    if order == [] then [FanDone] else [FanOne(order[0])] + FanEvents(order[1..])
  }

  lemma FanOneDelivers(s: State, c: ConnId)
    requires Enabled(s, FanOne(c))
    ensures var t := Apply(s, FanOne(c));
            && t.task == Fanning(s.task.plan, s.task.remaining - {c})
            && t.peers.Keys == s.peers.Keys && t.clients == s.clients && t.policy == s.policy && t.queue == s.queue
            && t.peers[c].conn == Deliver(s.peers[c].conn, s.task.plan, s.policy)
            && forall d | d in s.peers && d != c :: t.peers[d] == s.peers[d]
  {
  }

  lemma {:induction false} FanAll(s: State, order: seq<ConnId>)
    requires s.task.Fanning? && Enumerates(order, s.task.remaining) && s.task.remaining <= s.peers.Keys
    ensures IsRun(s, FanEvents(order))
    ensures var t := Final(s, FanEvents(order));
            && t.task.Idle? && t.peers.Keys == s.peers.Keys && t.clients == s.clients && t.queue == s.queue
            && (forall c | c in s.peers ::
                  t.peers[c].conn == if c in s.task.remaining then Deliver(s.peers[c].conn, s.task.plan, s.policy)
                                     else s.peers[c].conn)
    decreases order
  {
    if order == [] {
      assert forall c :: c !in s.task.remaining;
      assert FanEvents(order)[1..] == [];
      assert IsRun(Apply(s, FanDone), []);
    } else {
      var c := order[0];
      assert c in order;
      FanOneDelivers(s, c);
      var t := Apply(s, FanOne(c));
      assert forall d :: d in order <==> d == c || d in order[1..];
      assert forall d | d in order[1..] :: d != c;
      FanAll(t, order[1..]);
      assert FanEvents(order)[1..] == FanEvents(order[1..]);
    }
  }

  /**
   * A message taken from the queue and fanned out undisturbed, whatever the order in which the
   * loop meets the connections: each registered connection ends as Deliver says, which is the
   * contract of the hub's RouteMessage, and everybody else is left alone.
   */
  lemma RoundDelivers(s: State, order: seq<ConnId>)
    requires Lifecycle(s) && s.task.Idle? && s.queue != []
    requires !s.queue[0].Nobody? && !s.queue[0].RefreshUser?
    requires Enumerates(order, R.All(s.clients))
    ensures var es := [Take] + FanEvents(order);
            && IsRun(s, es)
            && var t := Final(s, es);
               && t.task.Idle? && t.queue == s.queue[1..] && t.clients == s.clients && t.peers.Keys == s.peers.Keys
               && forall c | c in s.peers ::
                    t.peers[c].conn == if Registered(s.peers[c]) then Deliver(s.peers[c].conn, s.queue[0], s.policy)
                                       else s.peers[c].conn
  {
    MapSound(s);
    var t := Apply(s, Take);
    assert t.task == Fanning(s.queue[0], R.All(s.clients));
    FanAll(t, order);
    assert ([Take] + FanEvents(order))[1..] == FanEvents(order);
  }

  // ------------------------------------------------------------ refreshes

  /** The answer of the membership query: one row per group, in some order. */
  ghost predicate Lists(rows: seq<H.MembershipRow>, db: Rows) {
    H.GroupsDiffer(rows) && forall g, m :: H.MembershipRow(g, m) in rows <==> g in db && db[g] == m
  }

  lemma MapIsRows(rows: seq<H.MembershipRow>, db: Rows)
    requires Lists(rows, db)
    ensures H.ToMap(rows) == db
  {
    H.MapHoldsRows(rows);
    forall g
      ensures g in H.ToMap(rows) <==> g in db
      ensures g in db ==> H.ToMap(rows)[g] == db[g]
    {
      if g in db {
        assert H.MembershipRow(g, db[g]) in rows;
      }
      if g in H.ToMap(rows) {
        assert H.MembershipRow(g, H.ToMap(rows)[g]) in rows;
      }
    }
  }

  /** After a refresh from the query's answer a connection's cache is the table's rows of its user. */
  lemma RefreshCachesTable(before: Conn, after: Conn, s: G.State, rows: seq<H.MembershipRow>,
                           policy: Option<PermissionPolicy>, snapshots: H.Snapshots, known: set<Id>)
    requires H.RefreshedFrom(before, after, Some(rows), policy, snapshots, known)
    requires Lists(rows, G.RowsOf(s, before.user))
    ensures forall g :: g in after.groups <==> (g, before.user) in s.members
    ensures forall g | g in after.groups :: after.groups[g] == s.members[(g, before.user)]
  {
    MapIsRows(rows, G.RowsOf(s, before.user));
    G.RowsOfAre(s, before.user);
  }

  lemma {:induction false} PushAllIs(p: Peer, frames: seq<Frame>)
    ensures PushAllTo(p, frames).conn == p.conn.(buf := OfferAll(p.conn.buf, frames))
    decreases frames
  {
    if frames != [] {
      PushAllIs(PushTo(p, frames[0]), frames[1..]);
    }
  }

  /**
   * A refresh step of the interleaving system is the hub object's refresh of that connection: with
   * rows that list the version read, and the frames it sends in the order it meets the groups.
   */
  lemma RefreshOneRefines(s: State, c: ConnId, rows: seq<H.MembershipRow>, policy: Option<PermissionPolicy>,
                          snapshots: H.Snapshots, known: set<Id>, order: seq<Id>)
    requires s.task.Refreshing? && c in s.task.remaining && c in s.peers && Lists(rows, s.task.rows)
    requires Enumerates(order, H.Joined(s.peers[c].conn, s.task.rows, policy, snapshots))
    ensures var before := s.peers[c].conn;
            var frames := H.SnapshotFrames(order, before.device, snapshots)
                          + [ConnectedFrame(before.user, s.task.rows.Keys * known)];
            && Enabled(s, RefreshOne(c, frames))
            && H.RefreshedFrom(before, Apply(s, RefreshOne(c, frames)).peers[c].conn, Some(rows), policy, snapshots, known)
            && Apply(s, RefreshOne(c, frames)).peers[c].conn.groups == s.task.rows
  {
    var before := s.peers[c].conn;
    var frames := H.SnapshotFrames(order, before.device, snapshots)
                  + [ConnectedFrame(before.user, s.task.rows.Keys * known)];
    MapIsRows(rows, s.task.rows);
    PushAllIs(Reloaded(s, c), frames);
    assert Enumerates(order, H.Joined(before, H.ToMap(rows), policy, snapshots));
  }
}
