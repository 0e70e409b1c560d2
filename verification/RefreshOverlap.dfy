/**
 * Refreshes statement by statement among all the other operations on accounts and tokens: the
 * row is selected, deleted, the user looked up and a new row inserted in four separate
 * statements, with any logins, logouts, revocations and the passing of time in between. A row can
 * only be inserted for a user who exists.
 */
module RefreshOverlap {
  import A = Auth
  import H = AuthRuns
  import opened Wrappers

  datatype Stage =
    | Requested
    | Selected(user: A.UserId)
    | Deleted(user: A.UserId)
    | Checked(user: A.UserId)
    | Granted(minted: A.Token)
    | Denied
    | Refused

  datatype Exchange = Exchange(token: A.Token, stage: Stage)

  datatype Server = Server(db: A.State, clock: A.Time, exchanges: map<nat, Exchange>)

  datatype Step =
    | Select(i: nat)
    | Delete(i: nat)
    | Check(i: nat)
    | Insert(i: nat, minted: A.Token)
    | Other(op: A.Op)
    | Tick(now: A.Time)

  predicate Enabled(s: Server, e: Step) {
    match e
    case Select(i) => i in s.exchanges && s.exchanges[i].stage.Requested?
    case Delete(i) => i in s.exchanges && s.exchanges[i].stage.Selected?
    case Check(i) => i in s.exchanges && s.exchanges[i].stage.Deleted?
    case Insert(i, minted) => i in s.exchanges && s.exchanges[i].stage.Checked? && !H.WasIssued(s.db.log, minted)
    case Other(op) => !op.Refresh? && H.Enabled(s.db, op)
    case Tick(now) => s.clock <= now
  }

  function Move(s: Server, i: nat, stage: Stage): Server
    requires i in s.exchanges
  {
    s.(exchanges := s.exchanges[i := s.exchanges[i].(stage := stage)])
  }

  function Apply(s: Server, e: Step): Server
    requires Enabled(s, e)
  {
    match e
    case Select(i) =>
      var token := s.exchanges[i].token;
      Move(s, i, if A.Accepts(s.db, token, s.clock) then Selected(s.db.tokens[A.TokenHash(token)].user) else Denied)
    case Delete(i) =>
      var token := s.exchanges[i].token;
      Move(s, i, Deleted(s.exchanges[i].stage.user)).(
        db := s.db.(tokens := s.db.tokens - {A.TokenHash(token)}, log := s.db.log + [A.Burned(token)]))
    case Check(i) =>
      var user := s.exchanges[i].stage.user;
      Move(s, i, if user in s.db.users && s.db.users[user].isActive then Checked(user) else Refused)
    case Insert(i, minted) =>
      var user := s.exchanges[i].stage.user;
      if user in s.db.users then Move(s, i, Granted(minted)).(db := A.Issue(s.db, user, minted, s.clock))
      else Move(s, i, Refused)
    case Other(op) => s.(db := A.Do(s.db, op, s.clock))
    case Tick(now) => s.(clock := now)
  }

  predicate IsRun(s: Server, es: seq<Step>)
    decreases es
  {
    es == [] || (Enabled(s, es[0]) && IsRun(Apply(s, es[0]), es[1..]))
  }

  function Final(s: Server, es: seq<Step>): Server
    requires IsRun(s, es)
    decreases es
  {
    if es == [] then s else Final(Apply(s, es[0]), es[1..])
  }

  /** No tokens yet; any number of exchanges may come, of tokens issued by then or not. */
  predicate Start(s: Server) {
    H.Init(s.db) && forall i | i in s.exchanges :: s.exchanges[i].stage.Requested?
  }

  // ------------------------------------------------------------ table and history

  lemma StepKeeps(s: Server, e: Step)
    requires H.Ledger(s.db, s.clock) && Enabled(s, e)
    ensures H.Ledger(Apply(s, e).db, Apply(s, e).clock)
  {
    match e
    case Select(_) =>
    case Delete(i) =>
      var token := s.exchanges[i].token;
      H.EntryKeeps(s.db, Apply(s, e).db, A.Burned(token), s.clock, s.clock);
    case Check(_) =>
    case Insert(i, minted) =>
      if s.exchanges[i].stage.user in s.db.users {
        H.IssueKeeps(s.db, s.exchanges[i].stage.user, minted, s.clock);
      }
    case Other(op) => H.DoKeepsLedger(s.db, op, s.clock);
    case Tick(_) =>
  }

  lemma {:induction false} RunKeeps(s: Server, es: seq<Step>)
    requires H.Ledger(s.db, s.clock) && IsRun(s, es)
    ensures H.Ledger(Final(s, es).db, Final(s, es).clock)
    decreases es
  {
    if es != [] {
      StepKeeps(s, es[0]);
      RunKeeps(Apply(s, es[0]), es[1..]);
    }
  }

  lemma Reached(s: Server, es: seq<Step>)
    requires Start(s) && IsRun(s, es)
    ensures H.Ledger(Final(s, es).db, Final(s, es).clock)
  {
    assert forall t, row :: !H.Stands(s.db.log, t, row);
    RunKeeps(s, es);
  }

  /** A decided exchange stays decided; one that was found never becomes denied. */
  lemma {:induction false} DecisionStays(s: Server, es: seq<Step>, i: nat)
    requires IsRun(s, es) && i in s.exchanges && !s.exchanges[i].stage.Requested?
    ensures i in Final(s, es).exchanges
    ensures Final(s, es).exchanges[i].stage.Denied? <==> s.exchanges[i].stage.Denied?
    decreases es
  {
    if es != [] {
      DecisionStays(Apply(s, es[0]), es[1..], i);
    }
  }

  /**
   * Main result. However refreshes interleave with each other and with everything else, one is
   * denied if and only if at its SELECT the history has ended its token or its time has passed:
   * the token was never issued, or has since been deleted by another refresh, logged out, or
   * revoked by a password change, deactivation or removal of its owner.
   */
  lemma DeniedExactlyByHistory(s: Server, before: seq<Step>, i: nat, after: seq<Step>)
    requires Start(s) && IsRun(s, before) && Enabled(Final(s, before), Select(i))
    requires IsRun(Apply(Final(s, before), Select(i)), after)
    ensures var t := Final(s, before);
            var end := Final(Apply(t, Select(i)), after);
            && i in end.exchanges
            && (end.exchanges[i].stage.Denied? <==>
                  !exists row :: H.Stands(t.db.log, t.exchanges[i].token, row) && row.expires > t.clock)
  {
    Reached(s, before);
    var t := Final(s, before);
    var token := t.exchanges[i].token;
    if A.Accepts(t.db, token, t.clock) {
      assert H.Stands(t.db.log, token, t.db.tokens[A.TokenHash(token)]);
    }
    DecisionStays(Apply(t, Select(i)), after, i);
  }

  // ------------------------------------------------------------ revocations

  /** The operations that end all tokens of a user, when they get that far. */
  predicate Revokes(s: A.State, op: A.Op, user: A.UserId) {
    match op
    case ChangePassword(u, current, _, hashFails) =>
      u == user && u in s.users && s.users[u].password == A.PasswordHash(current) && !hashFails
    case Update(u, change) =>
      u == user && A.EarlyRefusal(s, u, change).None?
      && (change.password.Some? || (change.isActive == Some(false) && A.UpdateAllowed(s, u, change)))
    case Delete(u) => u == user && A.DeleteAllowed(s, u)
    case _ => false
  }

  predicate HasRow(s: Server, user: A.UserId) {
    exists h :: h in s.db.tokens && s.db.tokens[h].user == user
  }

  /** Selected a row of the user and not yet finished. */
  predicate InFlight(s: Server, i: nat, user: A.UserId) {
    i in s.exchanges
    && (s.exchanges[i].stage.Selected? || s.exchanges[i].stage.Deleted? || s.exchanges[i].stage.Checked?)
    && s.exchanges[i].stage.user == user
  }

  function FlightsOf(s: Server, user: A.UserId): set<nat> {
    set i | i in s.exchanges && InFlight(s, i, user)
  }

  /** The user does not log in during the run. */
  predicate NoLogin(es: seq<Step>, user: A.UserId) {
    forall e | e in es && e.Other? && (e.op.Login? || e.op.CompleteLogin?) :: e.op.user != user
  }

  /** At some moment of the run the user owns a row. */
  predicate EverHasRow(s: Server, es: seq<Step>, user: A.UserId)
    requires IsRun(s, es)
    decreases es
  {
    HasRow(s, user) || (es != [] && EverHasRow(Apply(s, es[0]), es[1..], user))
  }

  predicate Inserts(s: Server, e: Step, user: A.UserId, flights: set<nat>) {
    e.Insert? && e.i in flights && user in s.db.users
  }

  /** One of the given exchanges inserts in the run, while the user exists. */
  predicate SomeInserts(s: Server, es: seq<Step>, user: A.UserId, flights: set<nat>)
    requires IsRun(s, es)
    decreases es
  {
    es != [] && (Inserts(s, es[0], user, flights) || SomeInserts(Apply(s, es[0]), es[1..], user, flights))
  }

  predicate OnlyFlights(s: Server, user: A.UserId, flights: set<nat>) {
    && (forall i | i in s.exchanges && InFlight(s, i, user) :: i in flights)
    && (forall i | i in flights :: i in s.exchanges && !s.exchanges[i].stage.Requested?
          && (s.exchanges[i].stage.Selected? || s.exchanges[i].stage.Deleted? || s.exchanges[i].stage.Checked? ==>
                s.exchanges[i].stage.user == user))
  }

  /** Without a row and without a login the user gets a row by one of the flights' inserts and in no other way. */
  lemma FlightStep(s: Server, e: Step, user: A.UserId, flights: set<nat>)
    requires Enabled(s, e) && !HasRow(s, user) && OnlyFlights(s, user, flights) && NoLogin([e], user)
    ensures HasRow(Apply(s, e), user) <==> Inserts(s, e, user, flights)
    ensures OnlyFlights(Apply(s, e), user, flights)
  {
    var t := Apply(s, e);
    assert e in [e];
    if e.Insert? {
      assert InFlight(s, e.i, s.exchanges[e.i].stage.user);
      assert s.exchanges[e.i].stage.user in s.db.users ==> A.TokenHash(e.minted) in t.db.tokens;
    }
    if e.Select? && t.exchanges[e.i].stage.Selected? {
      assert A.TokenHash(s.exchanges[e.i].token) in s.db.tokens;
    }
  }

  lemma {:induction false} FlightsOnly(s: Server, es: seq<Step>, user: A.UserId, flights: set<nat>)
    requires IsRun(s, es) && !HasRow(s, user) && OnlyFlights(s, user, flights) && NoLogin(es, user)
    ensures EverHasRow(s, es, user) <==> SomeInserts(s, es, user, flights)
    decreases es
  {
    if es != [] {
      var t := Apply(s, es[0]);
      assert es[0] in es;
      FlightStep(s, es[0], user, flights);
      if !HasRow(t, user) {
        FlightsOnly(t, es[1..], user, flights);
      } else {
        assert EverHasRow(t, es[1..], user);
      }
    }
  }

  /**
   * Main result on revocations. Right after one the user owns no row; and in whatever follows,
   * as long as the user does not log in again, the user comes to own a row if and only if a
   * refresh that had selected its row before the revocation inserts after it, the user existing.
   */
  lemma RevocationEscapedExactly(s: Server, op: A.Op, user: A.UserId, es: seq<Step>)
    requires Enabled(s, Other(op)) && Revokes(s.db, op, user)
    requires IsRun(Apply(s, Other(op)), es) && NoLogin(es, user)
    ensures var t := Apply(s, Other(op));
            !HasRow(t, user) && (EverHasRow(t, es, user) <==> SomeInserts(t, es, user, FlightsOf(s, user)))
  {
    var t := Apply(s, Other(op));
    assert t.exchanges == s.exchanges;
    assert OnlyFlights(t, user, FlightsOf(s, user));
    FlightsOnly(t, es, user, FlightsOf(s, user));
  }

  lemma NotIssuedByOthers(log: seq<A.Entry>, e: A.Entry, minted: A.Token)
    requires !H.WasIssued(log, minted) && !e.Issued?
    ensures !H.WasIssued(log + [e], minted)
  {
    forall x | x in log + [e] && x.Issued?
      ensures x in log
    {
    }
  }

  /** And such a refresh exists: checked before a password change, inserted after it. */
  lemma RefreshOutlivesPasswordChange(s: Server, i: nat, minted: A.Token, current: string, password: string)
    requires Enabled(s, Select(i)) && !H.WasIssued(s.db.log, minted)
    requires A.GrantsRefresh(s.db, s.exchanges[i].token, s.clock)
    requires s.db.users[s.db.tokens[A.TokenHash(s.exchanges[i].token)].user].password == A.PasswordHash(current)
    ensures var user := s.db.tokens[A.TokenHash(s.exchanges[i].token)].user;
            var change := Other(A.ChangePassword(user, current, password, false));
            var es := [Select(i), Delete(i), Check(i), change, Insert(i, minted)];
            IsRun(s, es) && HasRow(Final(s, es), user)
  {
    var token := s.exchanges[i].token;
    var user := s.db.tokens[A.TokenHash(token)].user;
    var change := Other(A.ChangePassword(user, current, password, false));
    var s1 := Apply(s, Select(i));
    var s2 := Apply(s1, Delete(i));
    NotIssuedByOthers(s.db.log, A.Burned(token), minted);
    var s3 := Apply(s2, Check(i));
    var s4 := Apply(s3, change);
    NotIssuedByOthers(s3.db.log, A.PasswordSet(user), minted);
    var s5 := Apply(s4, Insert(i, minted));
    assert A.TokenHash(minted) in s5.db.tokens && s5.db.tokens[A.TokenHash(minted)].user == user;
    RunFive(s, [Select(i), Delete(i), Check(i), change, Insert(i, minted)], s1, s2, s3, s4, s5);
  }

  lemma RunFive(s: Server, es: seq<Step>, s1: Server, s2: Server, s3: Server, s4: Server, s5: Server)
    requires |es| == 5
    requires Enabled(s, es[0]) && s1 == Apply(s, es[0])
    requires Enabled(s1, es[1]) && s2 == Apply(s1, es[1])
    requires Enabled(s2, es[2]) && s3 == Apply(s2, es[2])
    requires Enabled(s3, es[3]) && s4 == Apply(s3, es[3])
    requires Enabled(s4, es[4]) && s5 == Apply(s4, es[4])
    ensures IsRun(s, es) && Final(s, es) == s5
  {
    var e1, e2, e3, e4 := es[1..], es[2..], es[3..], es[4..];
    assert e1[1..] == e2 && e2[1..] == e3 && e3[1..] == e4 && e4[1..] == [];
    assert IsRun(s5, []) && Final(s5, []) == s5;
    assert IsRun(s4, e4) && Final(s4, e4) == s5;
    assert IsRun(s3, e3) && Final(s3, e3) == s5;
    assert IsRun(s2, e2) && Final(s2, e2) == s5;
    assert IsRun(s1, e1) && Final(s1, e1) == s5;
  }

  // ------------------------------------------------------------ left alone

  /** What an exchange does when nothing comes in between. */
  function Alone(s: Server, i: nat, minted: A.Token): Server
    requires Enabled(s, Select(i)) && !H.WasIssued(s.db.log, minted)
  {
    var s1 := Apply(s, Select(i));
    if s1.exchanges[i].stage.Denied? then s1
    else
      var s2 := Apply(Apply(s1, Delete(i)), Check(i));
      if Enabled(s2, Insert(i, minted)) then Apply(s2, Insert(i, minted)) else s2
  }

  /** The four statements together are the refresh operation: same tokens, same outcome, on any table. */
  lemma AloneIsRefresh(s: Server, i: nat, minted: A.Token)
    requires Enabled(s, Select(i)) && !H.WasIssued(s.db.log, minted)
    ensures var token := s.exchanges[i].token;
            var t := Alone(s, i, minted);
            && t.db.tokens == A.DoRefresh(s.db, token, minted, s.clock).tokens && t.db.users == s.db.users
            && (t.exchanges[i].stage == Granted(minted) <==> A.GrantsRefresh(s.db, token, s.clock))
            && (t.exchanges[i].stage == Denied <==> !A.Accepts(s.db, token, s.clock))
  {
    var token := s.exchanges[i].token;
    if A.Accepts(s.db, token, s.clock) {
      var log := s.db.log + [A.Burned(token)];
      forall e | e in log && e.Issued?
        ensures e in s.db.log
      {
      }
      assert !H.WasIssued(log, minted);
    }
  }
}
