/**
 * Refresh tokens over whole runs: which token is accepted is decided by the history alone, a
 * token is redeemed at most once, and revocations are final.
 */
module AuthRuns {
  import opened Auth
  import opened Wrappers

  datatype Timed = Timed(op: Op, now: Time)

  predicate WasIssued(log: seq<Entry>, token: Token) {
    exists e :: e in log && e.Issued? && e.token == token
  }

  /** Generated tokens and identifiers have not been used before. */
  predicate Enabled(s: State, op: Op) {
    match op
    case Login(_, _, minted) => !WasIssued(s.log, minted)
    case CompleteLogin(_, minted) => !WasIssued(s.log, minted)
    case Refresh(_, minted) => !WasIssued(s.log, minted)
    case Create(u, _) => u !in s.users
    case _ => true
  }

  /** A run on a clock that never goes back. */
  predicate IsRun(s: State, start: Time, ops: seq<Timed>)
    decreases ops
  {
    ops == [] ||
    (start <= ops[0].now && Enabled(s, ops[0].op)
     && IsRun(Do(s, ops[0].op, ops[0].now), ops[0].now, ops[1..]))
  }

  function Final(s: State, ops: seq<Timed>): State
    decreases ops
  {
    if ops == [] then s else Final(Do(s, ops[0].op, ops[0].now), ops[1..])
  }

  function EndTime(start: Time, ops: seq<Timed>): Time {
    if ops == [] then start else ops[|ops| - 1].now
  }

  predicate Init(s: State) {
    s.tokens == map[] && s.log == []
  }

  // ------------------------------------------------------------ history

  /** The entries after which a token of the user is no longer good. */
  predicate Ends(e: Entry, token: Token, user: UserId) {
    match e
    case Issued(_, _, _) => false
    case Redeemed(t) => t == token
    case Burned(t) => t == token
    case LoggedOut(t) => t == token
    case PasswordSet(u) => u == user
    case RevokedInVain(u) => u == user
    case Deactivated(u) => u == user
    case Removed(u) => u == user
  }

  predicate StandsFrom(log: seq<Entry>, token: Token, row: Row, i: int) {
    && 0 <= i < |log| && log[i] == Issued(token, row.user, row.expires)
    && forall k | i < k < |log| :: !Ends(log[k], token, row.user)
  }

  /** The token was issued with this row and nothing since has ended it. */
  ghost predicate Stands(log: seq<Entry>, token: Token, row: Row) {
    exists i :: StandsFrom(log, token, row, i)
  }

  ghost predicate IssuedOnce(log: seq<Entry>) {
    forall i, j | 0 <= i < j < |log| && log[i].Issued? && log[j].Issued? :: log[i].token != log[j].token
  }

  /** Whatever was redeemed stood at that moment. */
  ghost predicate RedemptionsSound(log: seq<Entry>) {
    forall j | 0 <= j < |log| && log[j].Redeemed? :: exists row :: Stands(log[..j], log[j].token, row)
  }

  ghost predicate TokensActive(s: State) {
    forall h | h in s.tokens :: s.tokens[h].user in s.users && s.users[s.tokens[h].user].isActive
  }

  ghost predicate TokensStand(s: State) {
    forall h | h in s.tokens :: Stands(s.log, h.token, s.tokens[h])
  }

  /** Only expired tokens are missing from the table. */
  ghost predicate StandingKept(s: State, now: Time) {
    forall t, row | Stands(s.log, t, row) && row.expires > now ::
      TokenHash(t) in s.tokens && s.tokens[TokenHash(t)] == row
  }

  /** Table and history agree. */
  ghost predicate Ledger(s: State, now: Time) {
    && TokensStand(s) && StandingKept(s, now)
    && IssuedOnce(s.log) && RedemptionsSound(s.log)
  }

  ghost predicate Inv(s: State, now: Time) {
    TokensActive(s) && Ledger(s, now)
  }

  // ------------------------------------------------------------ appending to the history

  lemma StandsAppend(log: seq<Entry>, e: Entry, token: Token, row: Row)
    ensures Stands(log + [e], token, row) <==>
            e == Issued(token, row.user, row.expires) || (Stands(log, token, row) && !Ends(e, token, row.user))
  {
    var more := log + [e];
    if e == Issued(token, row.user, row.expires) {
      assert StandsFrom(more, token, row, |log|);
    } else {
      forall i
        ensures StandsFrom(more, token, row, i) <==>
                StandsFrom(log, token, row, i) && !Ends(e, token, row.user)
      {
        if StandsFrom(more, token, row, i) {
          assert more[|log|] == e;
          assert forall k | i < k < |log| :: more[k] == log[k];
        }
      }
    }
  }

  /** One new entry: the table must drop what the entry ends and add what it issues. */
  lemma EntryKeeps(s: State, t: State, e: Entry, now: Time, later: Time)
    requires Ledger(s, now) && now <= later
    requires t.log == s.log + [e]
    requires e.Issued? ==> !WasIssued(s.log, e.token)
    requires e.Redeemed? ==> TokenHash(e.token) in s.tokens
    requires forall h :: h in t.tokens <==>
               (e.Issued? && h == TokenHash(e.token)) || (h in s.tokens && !Ends(e, h.token, s.tokens[h].user))
    requires forall h | h in t.tokens ::
               t.tokens[h] == if e.Issued? && h == TokenHash(e.token) then Row(e.user, e.expires) else s.tokens[h]
    ensures Ledger(t, later)
  {
    forall token, row
      ensures Stands(t.log, token, row) <==>
              e == Issued(token, row.user, row.expires) || (Stands(s.log, token, row) && !Ends(e, token, row.user))
    {
      StandsAppend(s.log, e, token, row);
    }
    IssuedAppend(s.log, e);
    forall j | 0 <= j < |t.log| && t.log[j].Redeemed?
      ensures exists row :: Stands(t.log[..j], t.log[j].token, row)
    {
      if j < |s.log| {
        assert t.log[..j] == s.log[..j];
      } else {
        assert t.log[..j] == s.log;
        assert Stands(s.log, e.token, s.tokens[TokenHash(e.token)]);
      }
    }
    forall token, row | Stands(t.log, token, row) && row.expires > later
      ensures TokenHash(token) in t.tokens && t.tokens[TokenHash(token)] == row
    {
      if e.Issued? && e.token == token {
        NotStanding(s.log, token, row);
      }
    }
  }

  lemma IssuedAppend(log: seq<Entry>, e: Entry)
    requires IssuedOnce(log)
    requires e.Issued? ==> !WasIssued(log, e.token)
    ensures IssuedOnce(log + [e])
  {
    var more := log + [e];
    forall i, j | 0 <= i < j < |more| && more[i].Issued? && more[j].Issued?
      ensures more[i].token != more[j].token
    {
      assert more[i] in log;
    }
  }

  lemma NotStanding(log: seq<Entry>, token: Token, row: Row)
    requires !WasIssued(log, token)
    ensures !Stands(log, token, row)
  {
    forall i
      ensures !StandsFrom(log, token, row, i)
    {
      if 0 <= i < |log| {
        assert log[i] in log;
      }
    }
  }

  // ------------------------------------------------------------ preservation

  lemma IssueKeeps(s: State, user: UserId, minted: Token, now: Time)
    requires Ledger(s, now) && !WasIssued(s.log, minted)
    ensures Ledger(Issue(s, user, minted, now), now)
  {
    EntryKeeps(s, Issue(s, user, minted, now), Issued(minted, user, now + s.ttl), now, now);
  }

  lemma RefreshKeeps(s: State, token: Token, minted: Token, now: Time)
    requires Ledger(s, now) && !WasIssued(s.log, minted)
    ensures Ledger(DoRefresh(s, token, minted, now), now)
  {
    if Accepts(s, token, now) {
      var gone := s.tokens - {TokenHash(token)};
      if GrantsRefresh(s, token, now) {
        var mid := s.(tokens := gone, log := s.log + [Redeemed(token)]);
        EntryKeeps(s, mid, Redeemed(token), now, now);
        IssueKeeps(mid, s.tokens[TokenHash(token)].user, minted, now);
      } else {
        EntryKeeps(s, s.(tokens := gone, log := s.log + [Burned(token)]), Burned(token), now, now);
      }
    }
  }

  /** Revoking all tokens of one user. */
  lemma RevokeKeeps(s: State, t: State, user: UserId, e: Entry, now: Time)
    requires Ledger(s, now)
    requires e.PasswordSet? || e.RevokedInVain? || e.Deactivated? || e.Removed?
    requires e.user == user
    requires t.tokens == WithoutUser(s.tokens, user) && t.log == s.log + [e]
    ensures Ledger(t, now)
  {
    EntryKeeps(s, t, e, now, now);
  }

  lemma UpdateKeeps(s: State, user: UserId, change: UserChange, now: Time)
    requires Ledger(s, now)
    ensures Ledger(DoUpdate(s, user, change), now)
  {
    var t := DoUpdate(s, user, change);
    if UpdateAllowed(s, user, change) {
      var revoked := WithoutUser(s.tokens, user);
      if change.password.Some? && change.isActive == Some(false) {
        var mid := t.(tokens := revoked, log := s.log + [PasswordSet(user)]);
        RevokeKeeps(s, mid, user, PasswordSet(user), now);
        assert WithoutUser(revoked, user) == revoked;
        RevokeKeeps(mid, t, user, Deactivated(user), now);
      } else if change.password.Some? {
        RevokeKeeps(s, t, user, PasswordSet(user), now);
      } else if change.isActive == Some(false) {
        RevokeKeeps(s, t, user, Deactivated(user), now);
      } else {
        assert t.log == s.log && t.tokens == s.tokens;
      }
    } else if t != s {
      RevokeKeeps(s, t, user, RevokedInVain(user), now);
    }
  }

  lemma LaterKeeps(s: State, now: Time, later: Time)
    requires Inv(s, now) && now <= later
    ensures Inv(s, later)
  {
  }

  /** Every operation keeps table and history in agreement, whoever is active. */
  lemma DoKeepsLedger(s: State, op: Op, now: Time)
    requires Ledger(s, now) && Enabled(s, op)
    ensures Ledger(Do(s, op, now), now)
  {
    var t := Do(s, op, now);
    match op
    case Login(u, password, minted) =>
      if GrantsLogin(s, u, password) {
        IssueKeeps(s, u, minted, now);
      }
    case CompleteLogin(u, minted) =>
      if u in s.users && s.users[u].isActive {
        IssueKeeps(s, u, minted, now);
      }
    case Refresh(token, minted) => RefreshKeeps(s, token, minted, now);
    case Logout(token) => EntryKeeps(s, t, LoggedOut(token), now, now);
    case DeleteExpired =>
    case Create(_, _) =>
    case SetMFA(_, _) =>
    case Update(u, change) => UpdateKeeps(s, u, change, now);
    case ChangePassword(u, _, _, _) =>
      if t != s {
        RevokeKeeps(s, t, u, PasswordSet(u), now);
      }
    case Delete(u) =>
      if t != s {
        RevokeKeeps(s, t, u, Removed(u), now);
      }
  }

  /** Every operation keeps refresh-token rows to active users. */
  lemma DoKeepsActive(s: State, op: Op, now: Time)
    requires TokensActive(s) && Enabled(s, op)
    ensures TokensActive(Do(s, op, now))
  {
  }

  lemma DoKeeps(s: State, op: Op, now: Time)
    requires Inv(s, now) && Enabled(s, op)
    ensures Inv(Do(s, op, now), now)
  {
    DoKeepsLedger(s, op, now);
    DoKeepsActive(s, op, now);
  }

  lemma {:induction false} RunKeeps(s: State, start: Time, ops: seq<Timed>)
    requires Inv(s, start) && IsRun(s, start, ops)
    ensures Inv(Final(s, ops), EndTime(start, ops))
    decreases ops
  {
    if ops != [] {
      var now := ops[0].now;
      LaterKeeps(s, start, now);
      DoKeeps(s, ops[0].op, now);
      RunKeeps(Do(s, ops[0].op, now), now, ops[1..]);
    }
  }

  lemma Reached(s: State, start: Time, ops: seq<Timed>)
    requires Init(s) && IsRun(s, start, ops)
    ensures Inv(Final(s, ops), EndTime(start, ops))
  {
    assert forall t, row :: !Stands(s.log, t, row);
    RunKeeps(s, start, ops);
  }

  // ------------------------------------------------------------ results

  /**
   * Main result. After any run, a refresh token is accepted exactly when the history says so:
   * it was issued, its time has not passed, and since then it was neither exchanged nor logged
   * out and its owner neither changed password nor was deactivated or removed. The row gives
   * the owner, who is active, so that an accepted refresh always rotates.
   */
  lemma AcceptedExactlyWhenStanding(s: State, start: Time, ops: seq<Timed>, token: Token, now: Time)
    requires Init(s) && IsRun(s, start, ops) && EndTime(start, ops) <= now
    ensures var t := Final(s, ops);
            && (Accepts(t, token, now) <==> exists row :: Stands(t.log, token, row) && row.expires > now)
            && (Accepts(t, token, now) <==> GrantsRefresh(t, token, now))
  {
    var t := Final(s, ops);
    Reached(s, start, ops);
    if Accepts(t, token, now) {
      assert Stands(t.log, token, t.tokens[TokenHash(token)]);
    }
  }

  /** The row a lookup finds is the one the history gives: the same owner and the same end. */
  lemma LookupFindsIssuedRow(s: State, start: Time, ops: seq<Timed>, token: Token, row: Row, now: Time)
    requires Init(s) && IsRun(s, start, ops) && EndTime(start, ops) <= now
    ensures var t := Final(s, ops);
            Accepts(t, token, now) && t.tokens[TokenHash(token)] == row <==>
            Stands(t.log, token, row) && row.expires > now
  {
    Reached(s, start, ops);
    var t := Final(s, ops);
    if Accepts(t, token, now) {
      assert Stands(t.log, token, t.tokens[TokenHash(token)]);
    }
  }

  predicate Grants(s: State, op: Op, now: Time) {
    match op
    case Login(u, password, _) => GrantsLogin(s, u, password)
    case CompleteLogin(u, _) => u in s.users && s.users[u].isActive
    case Refresh(token, _) => GrantsRefresh(s, token, now)
    case _ => false
  }

  /** After any run, the token an operation hands out is accepted for exactly its lifetime, if it was granted. */
  lemma NewTokenLifetime(s: State, start: Time, ops: seq<Timed>, op: Op, now: Time, later: Time)
    requires Init(s) && IsRun(s, start, ops) && Enabled(Final(s, ops), op)
    requires op.Login? || op.CompleteLogin? || op.Refresh?
    ensures var t := Final(s, ops);
            Accepts(Do(t, op, now), op.minted, later) <==> Grants(t, op, now) && later < now + t.ttl
  {
    Reached(s, start, ops);
    var t := Final(s, ops);
    forall row
      ensures !Stands(t.log, op.minted, row)
    {
      NotStanding(t.log, op.minted, row);
    }
    assert TokenHash(op.minted) !in t.tokens;
  }

  /** A deactivated or removed user owns no refresh-token row. */
  lemma InactiveOwnsNoToken(s: State, start: Time, ops: seq<Timed>, user: UserId)
    requires Init(s) && IsRun(s, start, ops)
    requires user !in Final(s, ops).users || !Final(s, ops).users[user].isActive
    ensures forall h | h in Final(s, ops).tokens :: Final(s, ops).tokens[h].user != user
  {
    Reached(s, start, ops);
  }

  lemma EndedNoLongerStands(log: seq<Entry>, i: nat, k: nat, j: nat)
    requires IssuedOnce(log) && i < k < j <= |log|
    requires log[i].Issued? && Ends(log[k], log[i].token, log[i].user)
    ensures forall row :: !Stands(log[..j], log[i].token, row)
  {
    forall row, a
      ensures !StandsFrom(log[..j], log[i].token, row, a)
    {
      if 0 <= a < j && log[..j][a] == Issued(log[i].token, row.user, row.expires) {
        assert a == i;
        assert log[..j][k] == log[k];
      }
    }
  }

  /** Once ended, by whatever entry, a token is never redeemed again. */
  lemma EndIsFinal(s: State, start: Time, ops: seq<Timed>, i: nat, k: nat, j: nat)
    requires Init(s) && IsRun(s, start, ops)
    requires i < k < j < |Final(s, ops).log|
    requires var log := Final(s, ops).log; log[i].Issued? && Ends(log[k], log[i].token, log[i].user)
    ensures var log := Final(s, ops).log; log[j] != Redeemed(log[i].token)
  {
    Reached(s, start, ops);
    EndedNoLongerStands(Final(s, ops).log, i, k, j);
  }

  /** In any run each token is redeemed at most once, and only after it was issued. */
  lemma RedeemedOnce(s: State, start: Time, ops: seq<Timed>, k: nat, j: nat)
    requires Init(s) && IsRun(s, start, ops)
    requires k < j < |Final(s, ops).log| && Final(s, ops).log[k].Redeemed?
    ensures Final(s, ops).log[j] != Final(s, ops).log[k]
    ensures var log := Final(s, ops).log;
            exists i :: 0 <= i < k && log[i].Issued? && log[i].token == log[k].token
  {
    Reached(s, start, ops);
    var log := Final(s, ops).log;
    var row :| Stands(log[..k], log[k].token, row);
    var i :| StandsFrom(log[..k], log[k].token, row, i);
    assert log[i] == log[..k][i];
    EndIsFinal(s, start, ops, i, k, j);
  }

  // ------------------------------------------------------------ administrators

  lemma AtMostOne(a: set<UserId>, u: UserId)
    requires u in a
    ensures |a| <= 1 <==> a == {u}
    ensures a == {u} <==> a - {u} == {}
  {
    assert a == {u} + (a - {u});
    if |a| <= 1 {
      assert |a - {u}| == |a| - 1;
    }
  }

  lemma UpdateLosesExactly(s: State, v: UserId, change: UserChange)
    requires ActiveAdmins(s.users) != {}
    ensures ActiveAdmins(DoUpdate(s, v, change).users) == {} <==>
            ActiveAdmins(s.users) == {v} && change.isActive == Some(false) && UpdateAllowed(s, v, change)
  {
    var a, b := ActiveAdmins(s.users), ActiveAdmins(DoUpdate(s, v, change).users);
    if v in a {
      AtMostOne(a, v);
    }
    if UpdateAllowed(s, v, change) {
      var u := Changed(s.users[v], change);
      assert b - {v} == a - {v};
      assert v in b <==> u.isAdmin && u.isActive;
    } else {
      assert a == b;
    }
  }

  /**
   * The guard on the last administrator leaves one way round it: a system with an active
   * administrator loses the last one exactly when that user is deactivated by an update that
   * does not also try to take the role away.
   */
  lemma LastAdminLostExactlyBy(s: State, op: Op, now: Time)
    requires Enabled(s, op) && ActiveAdmins(s.users) != {}
    ensures ActiveAdmins(Do(s, op, now).users) == {} <==>
            && op.Update? && ActiveAdmins(s.users) == {op.user}
            && op.change.isActive == Some(false)
            && UpdateAllowed(s, op.user, op.change)
  {
    var a, b := ActiveAdmins(s.users), ActiveAdmins(Do(s, op, now).users);
    var u :| u in a;
    AtMostOne(a, u);
    match op
    case Update(v, change) => UpdateLosesExactly(s, v, change);
    case Delete(v) =>
      if v in a {
        AtMostOne(a, v);
      }
      if DeleteAllowed(s, v) {
        assert b == a - {v};
      }
    case Create(_, _) =>
      assert a <= b;
    case ChangePassword(_, _, _, _) =>
      assert a == b;
    case SetMFA(_, _) =>
      assert a == b;
    case _ =>
  }

  /** The one way round the guard, on one administrator and nobody else. */
  lemma DeactivationLosesLastAdmin(admin: UserId, user: User, now: Time, ttl: nat)
    requires user.isAdmin && user.isActive
    ensures var s := State(map[admin := user], map[], ttl, []);
            var op := Update(admin, UserChange(None, None, None, false, None, Some(false)));
            && Enabled(s, op) && ActiveAdmins(s.users) == {admin} && UpdateAllowed(s, op.user, op.change)
            && ActiveAdmins(Do(s, op, now).users) == {}
  {
    var s := State(map[admin := user], map[], ttl, []);
    assert ActiveAdmins(s.users) == {admin};
  }

  // ------------------------------------------------------------ e-mail addresses

  ghost predicate EmailsDiffer(users: map<UserId, User>) {
    forall u, v | u in users && v in users && u != v :: users[u].email != users[v].email
  }

  lemma DoKeepsEmails(s: State, op: Op, now: Time)
    requires EmailsDiffer(s.users) && Enabled(s, op)
    ensures EmailsDiffer(Do(s, op, now).users)
  {
    if op.Update? {
      UpdateKeepsEmails(s, op.user, op.change);
    }
  }

  lemma UpdateKeepsEmails(s: State, user: UserId, change: UserChange)
    requires EmailsDiffer(s.users)
    ensures EmailsDiffer(DoUpdate(s, user, change).users)
  {
    if UpdateAllowed(s, user, change) && change.email.Some? && change.email.value != s.users[user].email {
      assert forall u | u in s.users :: s.users[u].email != change.email.value;
    }
  }

  /** In any run no two users come to share an e-mail address. */
  lemma {:induction false} RunKeepsEmails(s: State, start: Time, ops: seq<Timed>)
    requires EmailsDiffer(s.users) && IsRun(s, start, ops)
    ensures EmailsDiffer(Final(s, ops).users)
    decreases ops
  {
    if ops != [] {
      DoKeepsEmails(s, ops[0].op, ops[0].now);
      RunKeepsEmails(Do(s, ops[0].op, ops[0].now), ops[0].now, ops[1..]);
    }
  }

  // ------------------------------------------------------------ passwords

  /** A login with anything but the user's password changes nothing, whatever else is true of the user. */
  lemma WrongPasswordChangesNothing(s: State, user: UserId, password: string, minted: Token, now: Time)
    requires user in s.users ==> s.users[user].password != PasswordHash(password)
    ensures Do(s, Login(user, password, minted), now) == s
  {
  }

  /** The operations that may give the user another password. */
  predicate SetsPassword(op: Op, user: UserId) {
    match op
    case ChangePassword(u, _, _, _) => u == user
    case Update(u, change) => u == user && change.password.Some?
    case Create(u, _) => u == user
    case _ => false
  }

  lemma {:induction false} PasswordStays(s: State, start: Time, ops: seq<Timed>, user: UserId)
    requires IsRun(s, start, ops) && forall o | o in ops :: !SetsPassword(o.op, user)
    ensures user in Final(s, ops).users ==>
              user in s.users && Final(s, ops).users[user].password == s.users[user].password
    decreases ops
  {
    if ops != [] {
      assert ops[0] in ops;
      PasswordStays(Do(s, ops[0].op, ops[0].now), ops[0].now, ops[1..], user);
    }
  }

  /**
   * Once a password change is through, and until another operation sets a password, only the new
   * password logs in: with any other, the old one included, a login leaves everything as it is.
   */
  lemma OnlyNewPasswordLogsIn(s: State, start: Time, user: UserId, current: string, password: string,
                              ops: seq<Timed>, typed: string, minted: Token, now: Time)
    requires user in s.users && s.users[user].password == PasswordHash(current)
    requires var t := Do(s, ChangePassword(user, current, password, false), start);
             IsRun(t, start, ops) && forall o | o in ops :: !SetsPassword(o.op, user)
    requires typed != password
    ensures var t := Final(Do(s, ChangePassword(user, current, password, false), start), ops);
            Do(t, Login(user, typed, minted), now) == t
  {
    PasswordStays(Do(s, ChangePassword(user, current, password, false), start), start, ops, user);
  }
}
