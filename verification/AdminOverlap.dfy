/**
 * Updates and deletions of users overlapping, be it by an administrator, of the own profile or of
 * the password: each reads the user, may count the administrators, and then writes the whole row
 * back or deletes it, in separate statements.
 */
module AdminOverlap {
  import A = Auth
  import opened Wrappers

  type UserId = nat
  type OpId = nat

  datatype Row = Row(isAdmin: bool, isActive: bool)

  datatype Request =
    | Edit(user: UserId, isAdmin: Option<bool>, isActive: Option<bool>)
    | Delete(user: UserId)

  /** `seen` is the row as it was read, `counted` the administrators counted if the guard asked. */
  datatype Pc = Reading | Counting(seen: Row) | Writing(seen: Row, counted: Option<nat>) | Done

  datatype Op = Op(request: Request, pc: Pc)

  datatype State = State(users: map<UserId, Row>, ops: map<OpId, Op>)

  datatype Event = Start(op: OpId, request: Request) | Step(op: OpId)

  function ActiveAdmins(users: map<UserId, Row>): set<UserId> {
    set u | u in users && users[u] == Row(true, true)
  }

  /** The guard counts only where the row as read is an administrator's and the role would go. */
  predicate Guarded(r: Request, seen: Row) {
    seen.isAdmin && (r.Delete? || r.isAdmin == Some(false))
  }

  function NewRow(r: Request, seen: Row): Row
    requires r.Edit?
  {
    Row(r.isAdmin.GetOr(seen.isAdmin), r.isActive.GetOr(seen.isActive))
  }

  /** The UPDATE or DELETE; a row that is gone is left alone. */
  function Written(users: map<UserId, Row>, r: Request, seen: Row): map<UserId, Row> {
    if r.user !in users then users
    else if r.Delete? then users - {r.user}
    else users[r.user := NewRow(r, seen)]
  }

  predicate Enabled(s: State, e: Event) {
    match e
    case Start(op, _) => op !in s.ops
    case Step(op) => op in s.ops && !s.ops[op].pc.Done?
  }

  function Goto(s: State, op: OpId, pc: Pc): State
    requires op in s.ops
  {
    s.(ops := s.ops[op := s.ops[op].(pc := pc)])
  }

  function Apply(s: State, e: Event): State
    requires Enabled(s, e)
  {
    match e
    case Start(op, request) => s.(ops := s.ops[op := Op(request, Reading)])
    case Step(op) =>
      var r := s.ops[op].request;
      (match s.ops[op].pc
       case Reading =>
         if r.user !in s.users then Goto(s, op, Done)
         else if Guarded(r, s.users[r.user]) then Goto(s, op, Counting(s.users[r.user]))
         else Goto(s, op, Writing(s.users[r.user], None))
       case Counting(seen) =>
         if |ActiveAdmins(s.users)| <= 1 then Goto(s, op, Done)
         else Goto(s, op, Writing(seen, Some(|ActiveAdmins(s.users)|)))
       case Writing(seen, _) => Goto(s, op, Done).(users := Written(s.users, r, seen))
       case Done => s)
  }

  predicate IsRun(s: State, es: seq<Event>)
    decreases es
  {
    es == [] || (Enabled(s, es[0]) && IsRun(Apply(s, es[0]), es[1..]))
  }

  function Final(s: State, es: seq<Event>): State
    requires IsRun(s, es)
    decreases es
  {
    if es == [] then s else Final(Apply(s, es[0]), es[1..])
  }

  /** An operation about to write has passed the guard where there is one. */
  predicate Inv(s: State) {
    forall op | op in s.ops ::
      match s.ops[op].pc
      case Counting(seen) => Guarded(s.ops[op].request, seen)
      case Writing(seen, counted) =>
        (Guarded(s.ops[op].request, seen) <==> counted.Some?) && (counted.Some? ==> counted.value > 1)
      case _ => true
  }

  lemma {:induction false} RunKeeps(s: State, es: seq<Event>)
    requires Inv(s) && IsRun(s, es)
    ensures Inv(Final(s, es))
    decreases es
  {
    if es != [] {
      assert Inv(Apply(s, es[0]));
      RunKeeps(Apply(s, es[0]), es[1..]);
    }
  }

  // ------------------------------------------------------------ losing the last administrator

  predicate Loses(s: State, e: Event)
    requires Enabled(s, e)
  {
    ActiveAdmins(s.users) != {} && ActiveAdmins(Apply(s, e).users) == {}
  }

  predicate Deactivates(r: Request) {
    r.Edit? && r.isActive == Some(false)
  }

  /** The row has changed since it was read. */
  predicate StaleRow(s: State, op: OpId)
    requires op in s.ops && s.ops[op].pc.Writing?
  {
    s.ops[op].request.user !in s.users || s.users[s.ops[op].request.user] != s.ops[op].pc.seen
  }

  /** The number of administrators has changed since it was counted. */
  predicate StaleCount(s: State, op: OpId)
    requires op in s.ops && s.ops[op].pc.Writing?
  {
    s.ops[op].pc.counted.Some? && s.ops[op].pc.counted.value != |ActiveAdmins(s.users)|
  }

  /** What the write leaves of the user's administrator rights. */
  predicate Keeps(r: Request, seen: Row) {
    r.Edit? && NewRow(r, seen) == Row(true, true)
  }

  /**
   * A step loses the last active administrator exactly when it writes over that very user a row
   * that is no active administrator's, or deletes it; and then the request deactivates, or the
   * row has changed since it was read, or the count the guard relied on is out of date.
   */
  lemma LosesExactly(s: State, e: Event)
    requires Inv(s) && Enabled(s, e)
    ensures Loses(s, e) <==>
            && e.Step? && s.ops[e.op].pc.Writing? && ActiveAdmins(s.users) == {s.ops[e.op].request.user}
            && !Keeps(s.ops[e.op].request, s.ops[e.op].pc.seen)
    ensures Loses(s, e) ==>
            Deactivates(s.ops[e.op].request) || StaleRow(s, e.op) || StaleCount(s, e.op)
  {
    if e.Step? && s.ops[e.op].pc.Writing? {
      var r, seen := s.ops[e.op].request, s.ops[e.op].pc.seen;
      var a, b := ActiveAdmins(s.users), ActiveAdmins(Written(s.users, r, seen));
      assert b - {r.user} == a - {r.user};
      assert r.user in a ==> a == {r.user} + (a - {r.user});
      assert r.user in b <==> r.user in s.users && Keeps(r, seen);
      assert r.user !in b ==> b == b - {r.user};
    }
  }

  /** Every write of the run is by a request that does not deactivate, on facts that still hold. */
  predicate FreshWrites(s: State, es: seq<Event>)
    requires IsRun(s, es)
    decreases es
  {
    es == [] ||
    (&& (es[0].Step? && s.ops[es[0].op].pc.Writing? ==>
           !Deactivates(s.ops[es[0].op].request) && !StaleRow(s, es[0].op) && !StaleCount(s, es[0].op))
     && FreshWrites(Apply(s, es[0]), es[1..]))
  }

  /** However many operations overlap, if every write is fresh an active administrator remains. */
  lemma {:induction false} FreshWritesKeepAnAdmin(s: State, es: seq<Event>)
    requires Inv(s) && IsRun(s, es) && FreshWrites(s, es) && ActiveAdmins(s.users) != {}
    ensures ActiveAdmins(Final(s, es).users) != {}
    decreases es
  {
    if es != [] {
      LosesExactly(s, es[0]);
      assert Inv(Apply(s, es[0]));
      FreshWritesKeepAnAdmin(Apply(s, es[0]), es[1..]);
    }
  }

  const ADMIN := Row(true, true)

  function Demotion(u: UserId, pc: Pc): Op {
    Op(Edit(u, Some(false), None), pc)
  }

  function Both(u: UserId, v: UserId, pc: Pc): State {
    State(map[u := ADMIN, v := ADMIN], map[0 := Demotion(u, pc), 1 := Demotion(v, pc)])
  }

  /** Two demotions step by step together: each counts two administrators, and nobody is left. */
  lemma TwoDemotionsLoseBoth(u: UserId, v: UserId)
    requires u != v
    ensures var s := Both(u, v, Reading);
            var es := [Step(0), Step(1), Step(0), Step(1), Step(0), Step(1)];
            && Inv(s) && ActiveAdmins(s.users) == {u, v} && IsRun(s, es) && ActiveAdmins(Final(s, es).users) == {}
  {
    assert ActiveAdmins(Both(u, v, Reading).users) == {u, v};
    assert ActiveAdmins(Both(u, v, Counting(ADMIN)).users) == {u, v};
  }

  // ------------------------------------------------------------ left alone

  function StepsLeft(pc: Pc): nat {
    match pc
    case Reading => 3
    case Counting(_) => 2
    case Writing(_, _) => 1
    case Done => 0
  }

  /** The operation executed to its end with nothing in between. */
  function Alone(s: State, op: OpId): State
    requires op in s.ops
    decreases StepsLeft(s.ops[op].pc)
  {
    if s.ops[op].pc.Done? then s else Alone(Apply(s, Step(op)), op)
  }

  function Begun(users: map<UserId, Row>, r: Request): State {
    State(users, map[0 := Op(r, Reading)])
  }

  /** The guard and the write, on one and the same table. */
  lemma AloneIs(users: map<UserId, Row>, r: Request)
    ensures Alone(Begun(users, r), 0).users ==
            if r.user !in users || (Guarded(r, users[r.user]) && |ActiveAdmins(users)| <= 1) then users
            else Written(users, r, users[r.user])
  {
    var s1 := Apply(Begun(users, r), Step(0));
    if !s1.ops[0].pc.Done? {
      var s2 := Apply(s1, Step(0));
      assert Alone(s1, 0) == Alone(s2, 0);
      if s2.ops[0].pc.Writing? {
        assert Alone(s2, 0) == Apply(s2, Step(0));
      }
    }
  }

  function Reduced(users: map<UserId, A.User>): map<UserId, Row> {
    map u | u in users :: Row(users[u].isAdmin, users[u].isActive)
  }

  lemma SameAdmins(users: map<UserId, A.User>)
    ensures ActiveAdmins(Reduced(users)) == A.ActiveAdmins(users)
  {
  }

  /** Left alone, the statements of an update have the effect of the service's operation. */
  lemma AloneIsUpdate(s: A.State, user: UserId, change: A.UserChange)
    requires A.EarlyRefusal(s, user, change).None?
    ensures Alone(Begun(Reduced(s.users), Edit(user, change.isAdmin, change.isActive)), 0).users ==
            Reduced(A.DoUpdate(s, user, change).users)
  {
    AloneIs(Reduced(s.users), Edit(user, change.isAdmin, change.isActive));
    SameAdmins(s.users);
  }

  /** So have those of a password change, which writes the role and activity back as it read them. */
  lemma AloneIsPasswordChange(s: A.State, user: UserId, current: string, password: string, now: A.Time)
    requires user in s.users && s.users[user].password == A.PasswordHash(current)
    ensures Alone(Begun(Reduced(s.users), Edit(user, None, None)), 0).users ==
            Reduced(A.Do(s, A.ChangePassword(user, current, password, false), now).users)
  {
    AloneIs(Reduced(s.users), Edit(user, None, None));
  }

  lemma AloneIsDelete(s: A.State, user: UserId, now: A.Time)
    ensures Alone(Begun(Reduced(s.users), Delete(user)), 0).users == Reduced(A.Do(s, A.Delete(user), now).users)
  {
    AloneIs(Reduced(s.users), Delete(user));
    SameAdmins(s.users);
  }
}
