/**
 * Accounts and refresh tokens: login, rotation, logout, and the administrative operations that
 * revoke tokens. Identifiers and token values stand for generated UUIDs and random strings.
 */
module Auth {
  import opened Wrappers

  type UserId = nat
  type Token = nat
  type Time = int

  /** SHA-256 of a refresh token and bcrypt of a password, both taken as injective. */
  datatype TokenHash = TokenHash(token: Token)
  datatype PasswordHash = PasswordHash(password: string)

  datatype User = User(
    email: string, displayName: Option<string>, password: PasswordHash,
    isAdmin: bool, isActive: bool, mfaEnabled: bool)

  datatype Row = Row(user: UserId, expires: Time)

  datatype Error = Validation | Forbidden | NotFound | Conflict | Internal

  /** What a login or refresh answers; Challenge is the MFA challenge returned instead of tokens. */
  datatype Answer = Tokens(refresh: Token) | Challenge | Refused(error: Error)

  /** `hashFails`: the library refuses to hash the new password. */
  datatype UserChange = UserChange(
    email: Option<string>, displayName: Option<string>, password: Option<string>, hashFails: bool,
    isAdmin: Option<bool>, isActive: Option<bool>)

  datatype NewUser = NewUser(
    nameTaken: bool, email: string, displayName: Option<string>, password: string, hashFails: bool, isAdmin: bool)

  /**
   * What has happened, oldest first. RevokedInVain is an update that deleted the user's tokens
   * for a new password and then failed without storing it; Burned a token deleted by a refresh
   * that then failed.
   */
  datatype Entry =
    | Issued(token: Token, user: UserId, expires: Time)
    | Redeemed(token: Token)
    | Burned(token: Token)
    | LoggedOut(token: Token)
    | PasswordSet(user: UserId)
    | RevokedInVain(user: UserId)
    | Deactivated(user: UserId)
    | Removed(user: UserId)

  datatype State = State(
    users: map<UserId, User>, tokens: map<TokenHash, Row>, ttl: nat, log: seq<Entry>)

  datatype Op =
    | Login(user: UserId, password: string, minted: Token)
    | CompleteLogin(user: UserId, minted: Token)
    | Refresh(token: Token, minted: Token)
    | Logout(token: Token)
    | DeleteExpired
    | Create(user: UserId, request: NewUser)
    | Update(user: UserId, change: UserChange)
    | ChangePassword(user: UserId, current: string, password: string, hashFails: bool)
    | SetMFA(user: UserId, enabled: bool)
    | Delete(user: UserId)

  // ------------------------------------------------------------ specification

  function WithoutUser(tokens: map<TokenHash, Row>, user: UserId): map<TokenHash, Row> {
    map h | h in tokens && tokens[h].user != user :: tokens[h]
  }

  function Unexpired(tokens: map<TokenHash, Row>, now: Time): map<TokenHash, Row> {
    map h | h in tokens && tokens[h].expires > now :: tokens[h]
  }

  function ActiveAdmins(users: map<UserId, User>): set<UserId> {
    set u | u in users && users[u].isAdmin && users[u].isActive
  }

  /** The row GetByHash finds. */
  predicate Accepts(s: State, token: Token, now: Time) {
    TokenHash(token) in s.tokens && s.tokens[TokenHash(token)].expires > now
  }

  function Issue(s: State, user: UserId, minted: Token, now: Time): State {
    s.(tokens := s.tokens[TokenHash(minted) := Row(user, now + s.ttl)],
       log := s.log + [Issued(minted, user, now + s.ttl)])
  }

  predicate GrantsLogin(s: State, user: UserId, password: string) {
    && user in s.users && s.users[user].isActive
    && s.users[user].password == PasswordHash(password) && !s.users[user].mfaEnabled
  }

  predicate GrantsRefresh(s: State, token: Token, now: Time) {
    && Accepts(s, token, now)
    && s.tokens[TokenHash(token)].user in s.users
    && s.users[s.tokens[TokenHash(token)].user].isActive
  }

  function DoRefresh(s: State, token: Token, minted: Token, now: Time): State {
    if !Accepts(s, token, now) then s
    else
      var user := s.tokens[TokenHash(token)].user;
      var deleted := s.(tokens := s.tokens - {TokenHash(token)});
      if GrantsRefresh(s, token, now)
      then Issue(deleted.(log := s.log + [Redeemed(token)]), user, minted, now)
      else deleted.(log := s.log + [Burned(token)])
  }

  predicate EmailTaken(users: map<UserId, User>, email: string) {
    exists u :: u in users && users[u].email == email
  }

  function CreateRefusal(s: State, request: NewUser): Option<Error> {
    if request.nameTaken || EmailTaken(s.users, request.email) then Some(Conflict)
    else if request.hashFails then Some(Internal)
    else None
  }

  /** What refuses an update before anything has been changed. */
  function EarlyRefusal(s: State, user: UserId, change: UserChange): Option<Error> {
    if user !in s.users then Some(NotFound)
    else if change.email.Some? && change.email.value != s.users[user].email && EmailTaken(s.users, change.email.value)
    then Some(Conflict)
    else if change.password.Some? && |change.password.value| < 8 then Some(Validation)
    else if change.password.Some? && change.hashFails then Some(Internal)
    else None
  }

  predicate UpdateAllowed(s: State, user: UserId, change: UserChange) {
    EarlyRefusal(s, user, change).None? && !DemotesLastAdmin(s, user, change)
  }

  predicate DemotesLastAdmin(s: State, user: UserId, change: UserChange)
    requires user in s.users
  {
    s.users[user].isAdmin && change.isAdmin == Some(false) && |ActiveAdmins(s.users)| <= 1
  }

  function Changed(user: User, change: UserChange): User {
    User(change.email.GetOr(user.email),
         if change.displayName.Some? then change.displayName else user.displayName,
         match change.password { case Some(p) => PasswordHash(p) case None => user.password },
         change.isAdmin.GetOr(user.isAdmin), change.isActive.GetOr(user.isActive), user.mfaEnabled)
  }

  function DoUpdate(s: State, user: UserId, change: UserChange): State {
    if UpdateAllowed(s, user, change) then
      s.(users := s.users[user := Changed(s.users[user], change)],
         tokens := if change.password.Some? || change.isActive == Some(false) then WithoutUser(s.tokens, user)
                   else s.tokens,
         log := s.log + (if change.password.Some? then [PasswordSet(user)] else [])
                      + (if change.isActive == Some(false) then [Deactivated(user)] else []))
    else if EarlyRefusal(s, user, change).None? && change.password.Some? then
      s.(tokens := WithoutUser(s.tokens, user), log := s.log + [RevokedInVain(user)])
    else s
  }

  /** What an accepted update changes: the fields it names, and all tokens if it revokes. */
  lemma AcceptedUpdate(s: State, user: UserId, change: UserChange)
    requires UpdateAllowed(s, user, change)
    ensures var t := DoUpdate(s, user, change);
            && user in s.users && user in t.users && t.users - {user} == s.users - {user}
            && t.users[user].email == change.email.GetOr(s.users[user].email)
            && t.users[user].displayName ==
                 (if change.displayName.Some? then change.displayName else s.users[user].displayName)
            && t.users[user].password ==
                 (if change.password.Some? then PasswordHash(change.password.value) else s.users[user].password)
            && t.users[user].isAdmin == change.isAdmin.GetOr(s.users[user].isAdmin)
            && t.users[user].isActive == change.isActive.GetOr(s.users[user].isActive)
            && t.users[user].mfaEnabled == s.users[user].mfaEnabled
            && t.tokens == (if change.password.Some? || change.isActive == Some(false)
                            then map h | h in s.tokens && s.tokens[h].user != user :: s.tokens[h]
                            else s.tokens)
  {
  }

  predicate DeleteAllowed(s: State, user: UserId) {
    user in s.users && (s.users[user].isAdmin ==> |ActiveAdmins(s.users)| > 1)
  }

  function Do(s: State, op: Op, now: Time): State {
    match op
    case Login(u, password, minted) => if GrantsLogin(s, u, password) then Issue(s, u, minted, now) else s
    case CompleteLogin(u, minted) => if u in s.users && s.users[u].isActive then Issue(s, u, minted, now) else s
    case Refresh(token, minted) => DoRefresh(s, token, minted, now)
    case Logout(token) => s.(tokens := s.tokens - {TokenHash(token)}, log := s.log + [LoggedOut(token)])
    case DeleteExpired => s.(tokens := Unexpired(s.tokens, now))
    case Create(u, r) =>
      if CreateRefusal(s, r).Some? then s
      else s.(users := s.users[u := User(r.email, r.displayName, PasswordHash(r.password), r.isAdmin, true, false)])
    case Update(u, change) => DoUpdate(s, u, change)
    case ChangePassword(u, current, password, hashFails) =>
      if u in s.users && s.users[u].password == PasswordHash(current) && !hashFails
      then s.(users := s.users[u := s.users[u].(password := PasswordHash(password))],
              tokens := WithoutUser(s.tokens, u), log := s.log + [PasswordSet(u)])
      else s
    case SetMFA(u, enabled) =>
      if u in s.users then s.(users := s.users[u := s.users[u].(mfaEnabled := enabled)]) else s
    case Delete(u) =>
      if DeleteAllowed(s, u)
      then s.(users := s.users - {u}, tokens := WithoutUser(s.tokens, u), log := s.log + [Removed(u)])
      else s
  }

  // ------------------------------------------------------------ services

  /** The users and refresh_tokens tables with the services that write them. */
  class Accounts {
    var users: map<UserId, User>
    var tokens: map<TokenHash, Row>
    const ttl: nat
    ghost var log: seq<Entry>

    constructor (ttl: nat)
      ensures View() == State(map[], map[], ttl, [])
    {
      this.ttl := ttl;
      users, tokens, log := map[], map[], [];
    }

    ghost function View(): State
      reads this
    {
      State(users, tokens, ttl, log)
    }

    /** Finds exactly the accepted tokens, with their rows. */
    method GetByHash(hash: TokenHash, now: Time) returns (row: Option<Row>)
      ensures row.Some? <==> Accepts(View(), hash.token, now)
      ensures row.Some? ==> hash in tokens && row.value == tokens[hash]
    {
      row := if hash in tokens && tokens[hash].expires > now then Some(tokens[hash]) else None;
    }

    method DeleteByHash(hash: TokenHash)
      modifies this`tokens
      ensures tokens == old(tokens) - {hash}
    {
      tokens := tokens - {hash};
    }

    method DeleteAllForUser(user: UserId)
      modifies this`tokens
      ensures tokens == WithoutUser(old(tokens), user)
    {
      tokens := map h | h in tokens && tokens[h].user != user :: tokens[h];
    }

    method PurgeExpired(now: Time)
      modifies this`tokens
      ensures View() == Do(old(View()), DeleteExpired, now)
      ensures tokens == map h | h in old(tokens) && old(tokens)[h].expires > now :: old(tokens)[h]
    {
      tokens := map h | h in tokens && tokens[h].expires > now :: tokens[h];
    }

    method CountAdmins() returns (count: nat)
      ensures count == |ActiveAdmins(users)|
      ensures count == |set u | u in users && users[u].isAdmin && users[u].isActive|
    {
      var admins := set u | u in users && users[u].isAdmin && users[u].isActive;
      assert admins == ActiveAdmins(users);
      count := |admins|;
    }

    /** Stores a new refresh token and returns it. */
    method GenerateTokens(user: UserId, minted: Token, now: Time) returns (answer: Answer)
      modifies this`tokens, this`log
      ensures View() == Issue(old(View()), user, minted, now)
      ensures answer == Tokens(minted)
    {
      tokens := tokens[TokenHash(minted) := Row(user, now + ttl)];
      log := log + [Issued(minted, user, now + ttl)];
      answer := Tokens(minted);
    }

    method Login(user: UserId, password: string, minted: Token, now: Time) returns (answer: Answer)
      modifies this`tokens, this`log
      ensures View() == Do(old(View()), Op.Login(user, password, minted), now)
      ensures answer.Tokens? <==>
                (&& user in old(users) && old(users)[user].isActive
                 && old(users)[user].password == PasswordHash(password) && !old(users)[user].mfaEnabled)
      ensures answer.Tokens? ==>
                answer.refresh == minted && tokens == old(tokens)[TokenHash(minted) := Row(user, now + ttl)]
      ensures !answer.Tokens? ==> tokens == old(tokens)
      ensures answer.Challenge? <==>
                (&& user in old(users) && old(users)[user].isActive
                 && old(users)[user].password == PasswordHash(password) && old(users)[user].mfaEnabled)
    {
      if user !in users {
        return Refused(Validation);
      }
      var u := users[user];
      if !u.isActive {
        return Refused(Forbidden);
      }
      if u.password != PasswordHash(password) {
        return Refused(Validation);
      }
      if u.mfaEnabled {
        return Challenge;
      }
      answer := GenerateTokens(user, minted, now);
    }

    /** The end of a passkey login and of a login whose MFA challenge has been answered. */
    method CompleteLogin(user: UserId, minted: Token, now: Time) returns (answer: Answer)
      modifies this`tokens, this`log
      ensures View() == Do(old(View()), Op.CompleteLogin(user, minted), now)
      ensures answer == if user !in old(users) then Refused(NotFound)
                        else if !old(users)[user].isActive then Refused(Forbidden)
                        else Tokens(minted)
    {
      if user !in users {
        return Refused(NotFound);
      }
      if !users[user].isActive {
        return Refused(Forbidden);
      }
      answer := GenerateTokens(user, minted, now);
    }

    method Refresh(token: Token, minted: Token, now: Time) returns (answer: Answer)
      modifies this`tokens, this`log
      ensures View() == Do(old(View()), Op.Refresh(token, minted), now)
      ensures answer.Tokens? <==> GrantsRefresh(old(View()), token, now)
      ensures answer.Tokens? ==> answer.refresh == minted
      ensures answer == Refused(Validation) <==>
                TokenHash(token) !in old(tokens) || old(tokens)[TokenHash(token)].expires <= now
      ensures answer != Refused(Validation) ==>
                var user := old(tokens)[TokenHash(token)].user;
                answer == if user !in users then Refused(NotFound)
                          else if !users[user].isActive then Refused(Forbidden)
                          else Tokens(minted)
      ensures tokens - {TokenHash(minted)} ==
                if answer == Refused(Validation) then old(tokens) - {TokenHash(minted)}
                else old(tokens) - {TokenHash(token), TokenHash(minted)}
    {
      var hash := TokenHash(token);
      var stored := GetByHash(hash, now);
      if stored.None? {
        return Refused(Validation);
      }
      DeleteByHash(hash);
      if stored.value.user !in users {
        log := log + [Burned(token)];
        return Refused(NotFound);
      }
      if !users[stored.value.user].isActive {
        log := log + [Burned(token)];
        return Refused(Forbidden);
      }
      log := log + [Redeemed(token)];
      answer := GenerateTokens(stored.value.user, minted, now);
    }

    method Logout(token: Token, now: Time)
      modifies this`tokens, this`log
      ensures View() == Do(old(View()), Op.Logout(token), now)
    {
      DeleteByHash(TokenHash(token));
      log := log + [LoggedOut(token)];
    }

    method ExistsByEmail(email: string) returns (taken: bool)
      ensures taken <==> EmailTaken(users, email)
    {
      taken := exists u :: u in users && users[u].email == email;
    }

    method Create(user: UserId, request: NewUser, now: Time) returns (error: Option<Error>)
      modifies this`users
      ensures View() == Do(old(View()), Op.Create(user, request), now)
      ensures error == Some(Conflict) <==>
                request.nameTaken || exists u :: u in old(users) && old(users)[u].email == request.email
      ensures error != Some(Conflict) ==> error == if request.hashFails then Some(Internal) else None
      ensures error.Some? ==> users == old(users)
      ensures error.None? ==> users - {user} == old(users) - {user} && user in users
      ensures error.None? ==>
                && users[user].email == request.email && users[user].displayName == request.displayName
                && users[user].password == PasswordHash(request.password) && users[user].isAdmin == request.isAdmin
                && users[user].isActive && !users[user].mfaEnabled
    {
      if request.nameTaken {
        return Some(Conflict);
      }
      var taken := ExistsByEmail(request.email);
      if taken {
        return Some(Conflict);
      }
      if request.hashFails {
        return Some(Internal);
      }
      users := users[user :=
        User(request.email, request.displayName, PasswordHash(request.password), request.isAdmin, true, false)];
      error := None;
    }

    /** The checks of an update that come before its first effect, in order. */
    method CheckRequest(user: UserId, change: UserChange) returns (error: Option<Error>)
      ensures error == EarlyRefusal(View(), user, change)
    {
      if user !in users {
        return Some(NotFound);
      }
      if change.email.Some? && change.email.value != users[user].email {
        var taken := ExistsByEmail(change.email.value);
        if taken {
          return Some(Conflict);
        }
      }
      if change.password.Some? {
        if |change.password.value| < 8 {
          return Some(Validation);
        }
        if change.hashFails {
          return Some(Internal);
        }
      }
      error := None;
    }

    /** The guard on the administrator role. */
    method LastAdminDemoted(user: UserId, change: UserChange) returns (refused: bool)
      requires user in users
      ensures refused <==> DemotesLastAdmin(View(), user, change)
      ensures refused <==>
                && change.isAdmin == Some(false) && users[user].isAdmin
                && |set u | u in users && users[u].isAdmin && users[u].isActive| <= 1
    {
      refused := false;
      if change.isAdmin.Some? {
        if users[user].isAdmin && !change.isAdmin.value {
          var count := CountAdmins();
          refused := count <= 1;
        }
      }
    }

    method Update(user: UserId, change: UserChange, now: Time) returns (error: Option<Error>)
      modifies this`users, this`tokens, this`log
      ensures View() == Do(old(View()), Op.Update(user, change), now)
      ensures error == match EarlyRefusal(old(View()), user, change)
                       case Some(e) => Some(e)
                       case None => if DemotesLastAdmin(old(View()), user, change) then Some(Validation) else None
      ensures error == Some(NotFound) <==> user !in old(users)
      ensures error == Some(Conflict) <==>
                && user in old(users) && change.email.Some? && change.email.value != old(users)[user].email
                && exists u :: u in old(users) && old(users)[u].email == change.email.value
      ensures error.None? && change.password.Some? ==> |change.password.value| >= 8
      ensures error.None? && change.isAdmin == Some(false) && old(users)[user].isAdmin ==>
                |set u | u in old(users) && old(users)[u].isAdmin && old(users)[u].isActive| > 1
      ensures error.Some? ==> users == old(users)
      ensures error.None? ==> users - {user} == old(users) - {user} && user in users
    {
      error := CheckRequest(user, change);
      if error.Some? {
        return;
      }
      var u := users[user];
      u := u.(email := change.email.GetOr(u.email),
              displayName := if change.displayName.Some? then change.displayName else u.displayName);
      if change.password.Some? {
        u := u.(password := PasswordHash(change.password.value));
        DeleteAllForUser(user);
      }
      var refused := LastAdminDemoted(user, change);
      if refused {
        log := log + (if change.password.Some? then [RevokedInVain(user)] else []);
        return Some(Validation);
      }
      u := u.(isAdmin := change.isAdmin.GetOr(u.isAdmin));
      if change.isActive.Some? {
        u := u.(isActive := change.isActive.value);
        if !change.isActive.value {
          DeleteAllForUser(user);
          assert tokens == WithoutUser(old(tokens), user);
        }
      }
      assert u == Changed(old(users)[user], change);
      users := users[user := u];
      log := log + (if change.password.Some? then [PasswordSet(user)] else [])
                 + (if change.isActive == Some(false) then [Deactivated(user)] else []);
      error := None;
    }

    method ChangePassword(user: UserId, current: string, password: string, hashFails: bool, now: Time)
      returns (error: Option<Error>)
      modifies this`users, this`tokens, this`log
      ensures View() == Do(old(View()), Op.ChangePassword(user, current, password, hashFails), now)
      ensures error == if user !in old(users) then Some(NotFound)
                       else if old(users)[user].password != PasswordHash(current) then Some(Validation)
                       else if hashFails then Some(Internal)
                       else None
      ensures users == if error.None? then old(users)[user := old(users)[user].(password := PasswordHash(password))]
                       else old(users)
      ensures tokens == if error.None? then map h | h in old(tokens) && old(tokens)[h].user != user :: old(tokens)[h]
                        else old(tokens)
    {
      if user !in users {
        return Some(NotFound);
      }
      if users[user].password != PasswordHash(current) {
        return Some(Validation);
      }
      if hashFails {
        return Some(Internal);
      }
      users := users[user := users[user].(password := PasswordHash(password))];
      DeleteAllForUser(user);
      log := log + [PasswordSet(user)];
      error := None;
    }

    method SetMFAEnabled(user: UserId, enabled: bool, now: Time) returns (error: Option<Error>)
      modifies this`users
      ensures View() == Do(old(View()), SetMFA(user, enabled), now)
      ensures error == if user in old(users) then None else Some(NotFound)
      ensures users == if error.None? then old(users)[user := old(users)[user].(mfaEnabled := enabled)] else old(users)
    {
      if user !in users {
        return Some(NotFound);
      }
      users := users[user := users[user].(mfaEnabled := enabled)];
      error := None;
    }

    method Delete(user: UserId, now: Time) returns (error: Option<Error>)
      modifies this`users, this`tokens, this`log
      ensures View() == Do(old(View()), Op.Delete(user), now)
      ensures error == if user !in old(users) then Some(NotFound)
                       else if !DeleteAllowed(old(View()), user) then Some(Validation)
                       else None
      ensures error == Some(Validation) <==>
                && user in old(users) && old(users)[user].isAdmin
                && |set u | u in old(users) && old(users)[u].isAdmin && old(users)[u].isActive| <= 1
      ensures users == if error.None? then old(users) - {user} else old(users)
      ensures tokens == if error.None? then map h | h in old(tokens) && old(tokens)[h].user != user :: old(tokens)[h]
                        else old(tokens)
    {
      if user !in users {
        return Some(NotFound);
      }
      if users[user].isAdmin {
        var count := CountAdmins();
        if count <= 1 {
          return Some(Validation);
        }
      }
      DeleteAllForUser(user);
      users := users - {user};
      log := log + [Removed(user)];
      error := None;
    }
  }
}
