/**
 * Multi-factor authentication: TOTP methods, WebAuthn credentials, recovery codes and the
 * mfa_enabled flag of each user, over sequences of operations that complete.
 */
module Mfa {
  import RC = RecoveryCodes
  import opened Sets
  import opened Wrappers

  type UserId = RC.UserId
  type CodeId = RC.CodeId
  type CodeRow = RC.CodeRow
  type MethodId = nat

  datatype Totp = Totp(user: UserId, verified: bool)

  datatype Error = NotFound | Validation

  /** New recovery codes with the row ids they get. */
  datatype Batch = Batch(ids: seq<CodeId>, codes: seq<string>)

  datatype Kind = TotpKind | WebAuthnKind | RecoveryKind

  /** `users` maps every user to the mfa_enabled flag. */
  datatype Tables = Tables(
    users: map<UserId, bool>, totp: map<MethodId, Totp>, webauthn: map<MethodId, UserId>,
    codes: map<CodeId, CodeRow>)

  // ------------------------------------------------------------ specification

  function VerifiedTotp(t: Tables, user: UserId): set<MethodId> {
    set m | m in t.totp && t.totp[m].user == user && t.totp[m].verified
  }

  function Credentials(t: Tables, user: UserId): set<MethodId> {
    set m | m in t.webauthn && t.webauthn[m] == user
  }

  predicate HasMethod(t: Tables, user: UserId) {
    VerifiedTotp(t, user) != {} || Credentials(t, user) != {}
  }

  function CodesOf(t: Tables, user: UserId): set<CodeId> {
    set c | c in t.codes && t.codes[c].user == user
  }

  predicate GoodBatch(t: Tables, b: Batch) {
    && |b.ids| == |b.codes| == RC.BATCH_SIZE
    && (forall i | 0 <= i < |b.ids| :: b.ids[i] !in t.codes)
    && (forall i, j | 0 <= i < j < |b.ids| :: b.ids[i] != b.ids[j])
  }

  function Inserted(codes: map<CodeId, CodeRow>, user: UserId, b: Batch, n: nat): map<CodeId, CodeRow>
    requires n <= |b.ids| && n <= |b.codes|
  {
    if n == 0 then codes
    else Inserted(codes, user, b, n - 1)[b.ids[n - 1] := RC.CodeRow(user, RC.CodeHash(RC.Stored(b.codes[n - 1])), false)]
  }

  /** The user's codes replaced by a new batch. */
  function Regenerated(t: Tables, user: UserId, b: Batch): Tables
    requires |b.ids| == |b.codes|
  {
    t.(codes := Inserted(RC.Keep(t.codes, user), user, b, |b.ids|))
  }

  /** After a method has been added: the first one turns MFA on and brings codes. */
  function Enabled(t: Tables, user: UserId, b: Batch): Tables
    requires |b.ids| == |b.codes|
  {
    if user !in t.users || t.users[user] then t else Regenerated(t.(users := t.users[user := true]), user, b)
  }

  /** After a method has been removed: the last one takes the codes with it. */
  function MaybeDisabled(t: Tables, user: UserId): Tables {
    if HasMethod(t, user) || user !in t.users then t
    else t.(users := t.users[user := false], codes := RC.Keep(t.codes, user))
  }

  datatype Op =
    | AddUser(user: UserId)
    | RemoveUser(user: UserId)
    | SetupTOTP(user: UserId, m: MethodId)
    | VerifyTOTPSetup(user: UserId, m: MethodId, codeOk: bool, b: Batch)
    | FinishRegistration(user: UserId, m: MethodId, valid: bool, b: Batch)
    | DeleteMethod(user: UserId, m: MethodId)
    | AdminReset(user: UserId)
    | Regenerate(user: UserId, b: Batch)
    | UseCode(c: CodeId)

  predicate Verifies(t: Tables, user: UserId, m: MethodId, codeOk: bool) {
    m in t.totp && t.totp[m].user == user && !t.totp[m].verified && codeOk
  }

  /** Generated identifiers are new. */
  predicate Callable(t: Tables, op: Op) {
    match op
    case AddUser(u) => u !in t.users
    case RemoveUser(_) => true
    case SetupTOTP(_, m) => m !in t.totp && m !in t.webauthn
    case VerifyTOTPSetup(_, _, _, b) => GoodBatch(t, b)
    case FinishRegistration(_, m, _, b) => m !in t.totp && m !in t.webauthn && GoodBatch(t, b)
    case DeleteMethod(_, _) => true
    case AdminReset(_) => true
    case Regenerate(_, b) => GoodBatch(t, b)
    case UseCode(_) => true
  }

  function Do(t: Tables, op: Op): Tables
    requires Callable(t, op)
  {
    match op
    case AddUser(u) => t.(users := t.users[u := false])
    case RemoveUser(u) =>
      Tables(t.users - {u}, (map m | m in t.totp && t.totp[m].user != u :: t.totp[m]),
             (map m | m in t.webauthn && t.webauthn[m] != u :: t.webauthn[m]), RC.Keep(t.codes, u))
    case SetupTOTP(u, m) => if u in t.users then t.(totp := t.totp[m := Totp(u, false)]) else t
    case VerifyTOTPSetup(u, m, codeOk, b) =>
      if Verifies(t, u, m, codeOk) then Enabled(t.(totp := t.totp[m := Totp(u, true)]), u, b) else t
    case FinishRegistration(u, m, valid, b) =>
      if u in t.users && valid then Enabled(t.(webauthn := t.webauthn[m := u]), u, b) else t
    case DeleteMethod(u, m) =>
      if m in t.totp && t.totp[m].user == u then MaybeDisabled(t.(totp := t.totp - {m}), u)
      else if m in t.webauthn && t.webauthn[m] == u then MaybeDisabled(t.(webauthn := t.webauthn - {m}), u)
      else t
    case AdminReset(u) =>
      Tables(if u in t.users then t.users[u := false] else t.users,
             (map m | m in t.totp && t.totp[m].user != u :: t.totp[m]),
             (map m | m in t.webauthn && t.webauthn[m] != u :: t.webauthn[m]), RC.Keep(t.codes, u))
    case Regenerate(u, b) => if u in t.users then Regenerated(t, u, b) else t
    case UseCode(c) => if c in t.codes then t.(codes := t.codes[c := t.codes[c].(used := true)]) else t
  }

  // ------------------------------------------------------------ the service

  class MFAService {
    var users: map<UserId, bool>
    var totp: map<MethodId, Totp>
    var webauthn: map<MethodId, UserId>
    var codes: map<CodeId, CodeRow>

    constructor ()
      ensures View() == Tables(map[], map[], map[], map[])
    {
      users, totp, webauthn, codes := map[], map[], map[], map[];
    }

    function View(): Tables
      reads this
    {
      Tables(users, totp, webauthn, codes)
    }

    method SetMFAEnabled(user: UserId, enabled: bool) returns (error: Option<Error>)
      modifies this`users
      ensures users == if user in old(users) then old(users)[user := enabled] else old(users)
      ensures error == if user in old(users) then None else Some(NotFound)
    {
      if user !in users {
        return Some(NotFound);
      }
      users := users[user := enabled];
      error := None;
    }

    method CreateRecoveryCodes(user: UserId, b: Batch, hashes: seq<RC.CodeHash>)
      requires |b.ids| == |b.codes| == |hashes|
      requires forall i | 0 <= i < |hashes| :: hashes[i] == RC.CodeHash(RC.Stored(b.codes[i]))
      modifies this`codes
      ensures codes == Inserted(RC.Keep(old(codes), user), user, b, |b.ids|)
    {
      codes := map c | c in codes && codes[c].user != user :: codes[c];
      for i := 0 to |hashes|
        invariant codes == Inserted(RC.Keep(old(codes), user), user, b, i)
      {
        codes := codes[b.ids[i] := RC.CodeRow(user, hashes[i], false)];
      }
    }

    method GenerateRecoveryCodes(user: UserId, b: Batch) returns (shown: seq<string>)
      requires |b.ids| == |b.codes| == RC.BATCH_SIZE
      modifies this`codes
      ensures View() == Regenerated(old(View()), user, b)
      ensures shown == b.codes
    {
      shown := [];
      var hashes: seq<RC.CodeHash> := [];
      for i := 0 to RC.BATCH_SIZE
        invariant |hashes| == i && shown == b.codes[..i]
        invariant forall k | 0 <= k < i :: hashes[k] == RC.CodeHash(RC.Stored(b.codes[k]))
      {
        shown := shown + [b.codes[i]];
        hashes := hashes + [RC.CodeHash(RC.Stored(b.codes[i]))];
      }
      CreateRecoveryCodes(user, b, hashes);
    }

    method EnableAndGenerate(user: UserId, b: Batch) returns (r: Result<Option<seq<string>>, Error>)
      requires |b.ids| == |b.codes| == RC.BATCH_SIZE
      modifies this`users, this`codes
      ensures View() == Enabled(old(View()), user, b)
      ensures r == if user !in old(users) then Failure(NotFound)
                   else Success(if old(users)[user] then None else Some(b.codes))
      ensures user !in old(users) || old(users)[user] ==> View() == old(View())
      ensures user in old(users) ==> users == old(users)[user := true]
    {
      if user !in users {
        return Failure(NotFound);
      }
      r := Success(None);
      if !users[user] {
        var _ := SetMFAEnabled(user, true);
        var shown := GenerateRecoveryCodes(user, b);
        r := Success(Some(shown));
      }
    }

    method CountVerifiedMethods(user: UserId) returns (count: nat)
      ensures count == |VerifiedTotp(View(), user)| + |Credentials(View(), user)|
    {
      var ts := set m | m in totp && totp[m].user == user && totp[m].verified;
      var ws := set m | m in webauthn && webauthn[m] == user;
      assert ts == VerifiedTotp(View(), user) && ws == Credentials(View(), user);
      count := |ts| + |ws|;
    }

    method MaybeDisable(user: UserId) returns (error: Option<Error>)
      modifies this`users, this`codes
      ensures View() == MaybeDisabled(old(View()), user)
      ensures user in old(users) ==> error == None
      ensures user in old(users) ==>
                if (exists x :: x in totp && totp[x] == Totp(user, true))
                   || (exists x :: x in webauthn && webauthn[x] == user)
                then users == old(users) && codes == old(codes)
                else users == old(users)[user := false]
                     && codes == map c | c in old(codes) && old(codes)[c].user != user :: old(codes)[c]
    {
      assert forall x | x in totp && totp[x] == Totp(user, true) :: x in VerifiedTotp(View(), user);
      assert forall x | x in webauthn && webauthn[x] == user :: x in Credentials(View(), user);
      var count := CountVerifiedMethods(user);
      error := None;
      if count == 0 {
        error := SetMFAEnabled(user, false);
        if error.Some? {
          return;
        }
        codes := map c | c in codes && codes[c].user != user :: codes[c];
      }
    }

    method SetupTOTP(user: UserId, m: MethodId) returns (error: Option<Error>)
      requires Callable(View(), Op.SetupTOTP(user, m))
      modifies this`totp
      ensures View() == Do(old(View()), Op.SetupTOTP(user, m))
      ensures totp == if user in users then old(totp)[m := Totp(user, false)] else old(totp)
      ensures error == if user in users then None else Some(NotFound)
    {
      if user !in users {
        return Some(NotFound);
      }
      totp := totp[m := Totp(user, false)];
      error := None;
    }

    /** Success carries the codes to show, if this was the first method. */
    method VerifyTOTPSetup(user: UserId, m: MethodId, codeOk: bool, b: Batch)
      returns (r: Result<Option<seq<string>>, Error>)
      requires Callable(View(), Op.VerifyTOTPSetup(user, m, codeOk, b))
      modifies this`users, this`totp, this`codes
      ensures View() == Do(old(View()), Op.VerifyTOTPSetup(user, m, codeOk, b))
      ensures r.Success? <==>
                codeOk && user in old(users) && m in old(totp) && old(totp)[m].user == user && !old(totp)[m].verified
      ensures r.Success? ==> r.value == if old(users)[user] then None else Some(b.codes)
      ensures r.Success? ==> totp == old(totp)[m := Totp(user, true)] && users == old(users)[user := true]
      ensures !codeOk ==> View() == old(View())
    {
      if m !in totp || totp[m].user != user {
        return Failure(NotFound);
      }
      if totp[m].verified || !codeOk {
        return Failure(Validation);
      }
      totp := totp[m := totp[m].(verified := true)];
      r := EnableAndGenerate(user, b);
    }

    method FinishWebAuthnRegistration(user: UserId, m: MethodId, valid: bool, b: Batch)
      returns (r: Result<Option<seq<string>>, Error>)
      requires Callable(View(), FinishRegistration(user, m, valid, b))
      modifies this`users, this`webauthn, this`codes
      ensures View() == Do(old(View()), FinishRegistration(user, m, valid, b))
      ensures r.Success? <==> valid && user in old(users)
      ensures r.Success? ==> r.value == if old(users)[user] then None else Some(b.codes)
      ensures r.Success? ==> webauthn == old(webauthn)[m := user] && users == old(users)[user := true]
      ensures !r.Success? ==> View() == old(View())
    {
      if user !in users {
        return Failure(NotFound);
      }
      if !valid {
        return Failure(Validation);
      }
      webauthn := webauthn[m := user];
      r := EnableAndGenerate(user, b);
    }

    method DeleteMethod(user: UserId, m: MethodId) returns (error: Option<Error>)
      modifies this
      ensures View() == Do(old(View()), Op.DeleteMethod(user, m))
      ensures user in old(users) ==>
                (error.None? <==>
                  (m in old(totp) && old(totp)[m].user == user) || (m in old(webauthn) && old(webauthn)[m] == user))
      ensures totp == if m in old(totp) && old(totp)[m].user == user then old(totp) - {m} else old(totp)
      ensures webauthn == if totp == old(totp) && m in old(webauthn) && old(webauthn)[m] == user
                          then old(webauthn) - {m} else old(webauthn)
      ensures error.None? && user in old(users) ==>
                if (exists x :: x in totp && totp[x] == Totp(user, true))
                   || (exists x :: x in webauthn && webauthn[x] == user)
                then users == old(users) && codes == old(codes)
                else users == old(users)[user := false]
                     && codes == map c | c in old(codes) && old(codes)[c].user != user :: old(codes)[c]
    {
      if m in totp && totp[m].user == user {
        totp := totp - {m};
        error := MaybeDisable(user);
        return;
      }
      if m in webauthn && webauthn[m] == user {
        webauthn := webauthn - {m};
        error := MaybeDisable(user);
        return;
      }
      error := Some(NotFound);
    }

    method AdminResetMFA(user: UserId) returns (error: Option<Error>)
      modifies this
      ensures View() == Do(old(View()), AdminReset(user))
      ensures error == if user in old(users) then None else Some(NotFound)
      ensures totp == map m | m in old(totp) && old(totp)[m].user != user :: old(totp)[m]
      ensures webauthn == map m | m in old(webauthn) && old(webauthn)[m] != user :: old(webauthn)[m]
      ensures codes == map c | c in old(codes) && old(codes)[c].user != user :: old(codes)[c]
      ensures users == if user in old(users) then old(users)[user := false] else old(users)
    {
      totp := map m | m in totp && totp[m].user != user :: totp[m];
      webauthn := map m | m in webauthn && webauthn[m] != user :: webauthn[m];
      codes := map c | c in codes && codes[c].user != user :: codes[c];
      error := SetMFAEnabled(user, false);
    }

    /** The ids of the user's unused codes, in some order, each once. */
    method ListUnusedRecoveryCodes(user: UserId) returns (list: seq<CodeId>)
      ensures forall c :: c in list <==> c in codes && codes[c].user == user && !codes[c].used
    {
      list := [];
      var left := set c | c in codes && codes[c].user == user && !codes[c].used;
      while left != {}
        invariant forall c :: c in list || c in left <==> c in codes && codes[c].user == user && !codes[c].used
        decreases |left|
      {
        var c :| c in left;
        list := list + [c];
        left := left - {c};
      }
    }

    /** A typed code is accepted exactly when an unused code matches; exactly that one is spent. */
    method ValidateRecoveryCode(user: UserId, typed: string) returns (spent: Option<CodeId>)
      modifies this`codes
      ensures spent.Some? <==> exists c :: RC.Matches(old(codes), c, user, typed)
      ensures spent.Some? ==> RC.Matches(old(codes), spent.value, user, typed)
                              && View() == Do(old(View()), UseCode(spent.value))
                              && codes == old(codes)[spent.value := old(codes)[spent.value].(used := true)]
      ensures spent.None? ==> codes == old(codes)
    {
      var normalized := RC.Typed(typed);
      var unused := ListUnusedRecoveryCodes(user);
      for i := 0 to |unused|
        invariant codes == old(codes)
        invariant forall k | 0 <= k < i :: codes[unused[k]].hash != RC.CodeHash(normalized)
      {
        assert unused[i] in unused;
        if codes[unused[i]].hash == RC.CodeHash(normalized) {
          assert RC.Matches(codes, unused[i], user, typed);
          codes := codes[unused[i] := codes[unused[i]].(used := true)];
          return Some(unused[i]);
        }
      }
      spent := None;
    }

    /** The methods named in a login challenge. */
    method CreateMFAToken(user: UserId) returns (methods: seq<Kind>)
      ensures TotpKind in methods <==> VerifiedTotp(View(), user) != {}
      ensures WebAuthnKind in methods <==> Credentials(View(), user) != {}
      ensures RecoveryKind in methods <==> exists c :: c in codes && codes[c].user == user && !codes[c].used
    {
      methods := [];
      var ts := set m | m in totp && totp[m].user == user && totp[m].verified;
      assert ts == VerifiedTotp(View(), user);
      if ts != {} {
        methods := methods + [TotpKind];
      }
      var ws := set m | m in webauthn && webauthn[m] == user;
      assert ws == Credentials(View(), user);
      if ws != {} {
        methods := methods + [WebAuthnKind];
      }
      var unused := ListUnusedRecoveryCodes(user);
      if |unused| > 0 {
        assert unused[0] in unused;
        methods := methods + [RecoveryKind];
      }
    }
  }

  // ------------------------------------------------------------ results

  predicate IsRun(t: Tables, ops: seq<Op>)
    decreases ops
  {
    ops == [] || (Callable(t, ops[0]) && IsRun(Do(t, ops[0]), ops[1..]))
  }

  function Final(t: Tables, ops: seq<Op>): Tables
    requires IsRun(t, ops)
    decreases ops
  {
    if ops == [] then t else Final(Do(t, ops[0]), ops[1..])
  }

  /** No row without its user; each flag says whether there is a method; codes come in eights. */
  ghost predicate Inv(t: Tables) {
    && (forall m | m in t.totp :: t.totp[m].user in t.users)
    && (forall m | m in t.webauthn :: t.webauthn[m] in t.users)
    && (forall c | c in t.codes :: t.codes[c].user in t.users)
    && (forall u | u in t.users :: t.users[u] <==> HasMethod(t, u))
    && (forall u :: |CodesOf(t, u)| == 0 || |CodesOf(t, u)| == RC.BATCH_SIZE)
  }

  lemma {:induction false} InsertedIs(t: Tables, user: UserId, b: Batch, n: nat)
    requires GoodBatch(t, b) && n <= RC.BATCH_SIZE
    ensures var codes := Inserted(RC.Keep(t.codes, user), user, b, n);
            && (forall c :: c in codes <==> (c in t.codes && t.codes[c].user != user) || c in b.ids[..n])
            && (forall c | c in b.ids[..n] :: codes[c].user == user && !codes[c].used)
            && (forall i | 0 <= i < n :: codes[b.ids[i]].hash == RC.CodeHash(RC.Stored(b.codes[i])))
            && (forall c | c in t.codes && t.codes[c].user != user :: codes[c] == t.codes[c])
  {
    if n > 0 {
      InsertedIs(t, user, b, n - 1);
      assert b.ids[..n] == b.ids[..n - 1] + [b.ids[n - 1]];
    }
  }

  /** A new batch: eight unused codes for the user, everybody else's untouched. */
  lemma RegeneratedIs(t: Tables, user: UserId, b: Batch)
    requires GoodBatch(t, b)
    ensures var r := Regenerated(t, user, b);
            && r == t.(codes := r.codes)
            && |CodesOf(r, user)| == RC.BATCH_SIZE
            && (forall c | c in CodesOf(r, user) :: !r.codes[c].used && c !in t.codes)
            && (forall u | u != user :: CodesOf(r, u) == CodesOf(t, u))
            && (forall c | c in r.codes :: r.codes[c].user == user || (c in t.codes && r.codes[c] == t.codes[c]))
  {
    InsertedIs(t, user, b, RC.BATCH_SIZE);
    assert b.ids[..RC.BATCH_SIZE] == b.ids;
    DistinctSize(b.ids);
    assert CodesOf(Regenerated(t, user, b), user) == Elements(b.ids);
  }

  lemma RegenerateKeeps(t: Tables, r: Tables, user: UserId, b: Batch)
    requires Inv(t) && GoodBatch(t, b) && user in t.users && r == Regenerated(t, user, b)
    ensures Inv(r)
  {
    RegeneratedIs(t, user, b);
    assert forall u :: HasMethod(r, u) <==> HasMethod(t, u);
    forall u
      ensures |CodesOf(r, u)| == 0 || |CodesOf(r, u)| == RC.BATCH_SIZE
    {
      if u != user {
        assert CodesOf(r, u) == CodesOf(t, u);
      }
    }
  }

  /** All but the user's flag is in order and the user now has a method. */
  lemma EnabledKeeps(t: Tables, s: Tables, user: UserId, b: Batch)
    requires Inv(t) && GoodBatch(t, b) && user in t.users
    requires s.users == t.users && s.codes == t.codes && HasMethod(s, user)
    requires forall u | u != user :: HasMethod(s, u) <==> HasMethod(t, u)
    requires forall m | m in s.totp :: s.totp[m].user in s.users
    requires forall m | m in s.webauthn :: s.webauthn[m] in s.users
    ensures Inv(Enabled(s, user, b))
  {
    var on := s.(users := s.users[user := true]);
    assert forall u :: HasMethod(on, u) <==> HasMethod(s, u);
    assert forall u :: CodesOf(on, u) == CodesOf(t, u) && CodesOf(s, u) == CodesOf(t, u);
    assert Inv(on);
    if !s.users[user] {
      RegenerateKeeps(on, Regenerated(on, user, b), user, b);
    }
  }

  lemma KeepDrops(t: Tables, r: Tables, user: UserId)
    requires r.codes == RC.Keep(t.codes, user)
    ensures CodesOf(r, user) == {}
    ensures forall u | u != user :: CodesOf(r, u) == CodesOf(t, u)
  {
  }

  lemma MaybeDisabledKeeps(t: Tables, s: Tables, user: UserId)
    requires Inv(t) && user in t.users
    requires s.users == t.users && s.codes == t.codes
    requires HasMethod(s, user) ==> HasMethod(t, user)
    requires forall u | u != user :: HasMethod(s, u) <==> HasMethod(t, u)
    requires forall m | m in s.totp :: s.totp[m].user in s.users
    requires forall m | m in s.webauthn :: s.webauthn[m] in s.users
    ensures Inv(MaybeDisabled(s, user))
  {
    var r := MaybeDisabled(s, user);
    assert forall u :: CodesOf(s, u) == CodesOf(t, u);
    assert forall u :: HasMethod(r, u) <==> HasMethod(s, u);
    if !HasMethod(s, user) {
      KeepDrops(s, r, user);
    }
  }

  lemma OthersKeepMethods(t: Tables, s: Tables, user: UserId)
    requires forall m | m in s.totp && s.totp[m].user != user :: m in t.totp && t.totp[m] == s.totp[m]
    requires forall m | m in t.totp && t.totp[m].user != user :: m in s.totp && t.totp[m] == s.totp[m]
    requires forall m | m in s.webauthn && s.webauthn[m] != user :: m in t.webauthn && t.webauthn[m] == s.webauthn[m]
    requires forall m | m in t.webauthn && t.webauthn[m] != user :: m in s.webauthn && t.webauthn[m] == s.webauthn[m]
    ensures forall u | u != user :: HasMethod(s, u) <==> HasMethod(t, u)
  {
    forall u | u != user
      ensures HasMethod(s, u) <==> HasMethod(t, u)
    {
      assert VerifiedTotp(s, u) == VerifiedTotp(t, u) && Credentials(s, u) == Credentials(t, u);
    }
  }

  lemma AddedKeeps(t: Tables, op: Op)
    requires Inv(t) && Callable(t, op) && (op.VerifyTOTPSetup? || op.FinishRegistration?)
    ensures Inv(Do(t, op))
  {
    if op.VerifyTOTPSetup? && Verifies(t, op.user, op.m, op.codeOk) {
      var s := t.(totp := t.totp[op.m := Totp(op.user, true)]);
      assert op.m in VerifiedTotp(s, op.user);
      OthersKeepMethods(t, s, op.user);
      EnabledKeeps(t, s, op.user, op.b);
    } else if op.FinishRegistration? && op.user in t.users && op.valid {
      var s := t.(webauthn := t.webauthn[op.m := op.user]);
      assert op.m in Credentials(s, op.user);
      OthersKeepMethods(t, s, op.user);
      EnabledKeeps(t, s, op.user, op.b);
    }
  }

  lemma TotpDeletedKeeps(t: Tables, user: UserId, m: MethodId)
    requires Inv(t) && m in t.totp && t.totp[m].user == user
    ensures Inv(MaybeDisabled(t.(totp := t.totp - {m}), user))
  {
    var s := t.(totp := t.totp - {m});
    assert VerifiedTotp(s, user) <= VerifiedTotp(t, user) && Credentials(s, user) == Credentials(t, user);
    OthersKeepMethods(t, s, user);
    MaybeDisabledKeeps(t, s, user);
  }

  lemma WebAuthnDeletedKeeps(t: Tables, user: UserId, m: MethodId)
    requires Inv(t) && m in t.webauthn && t.webauthn[m] == user
    ensures Inv(MaybeDisabled(t.(webauthn := t.webauthn - {m}), user))
  {
    var s := t.(webauthn := t.webauthn - {m});
    assert VerifiedTotp(s, user) == VerifiedTotp(t, user) && Credentials(s, user) <= Credentials(t, user);
    OthersKeepMethods(t, s, user);
    MaybeDisabledKeeps(t, s, user);
  }

  lemma DeletedKeeps(t: Tables, user: UserId, m: MethodId)
    requires Inv(t)
    ensures Inv(Do(t, Op.DeleteMethod(user, m)))
  {
    if m in t.totp && t.totp[m].user == user {
      TotpDeletedKeeps(t, user, m);
    } else if m in t.webauthn && t.webauthn[m] == user {
      WebAuthnDeletedKeeps(t, user, m);
    }
  }

  lemma WipedKeeps(t: Tables, op: Op)
    requires Inv(t) && Callable(t, op) && (op.RemoveUser? || op.AdminReset?)
    ensures Inv(Do(t, op))
  {
    var r := Do(t, op);
    OthersKeepMethods(t, r, op.user);
    assert VerifiedTotp(r, op.user) == {} && Credentials(r, op.user) == {};
    KeepDrops(t, r, op.user);
  }

  lemma PlainKeeps(t: Tables, op: Op)
    requires Inv(t) && Callable(t, op) && (op.AddUser? || op.SetupTOTP? || op.UseCode?)
    ensures Inv(Do(t, op))
  {
    var r := Do(t, op);
    forall u
      ensures HasMethod(r, u) <==> HasMethod(t, u)
    {
      assert VerifiedTotp(r, u) == VerifiedTotp(t, u) && Credentials(r, u) == Credentials(t, u);
    }
    assert forall u :: CodesOf(r, u) == CodesOf(t, u);
    if op.AddUser? {
      assert VerifiedTotp(t, op.user) == {} && Credentials(t, op.user) == {};
    }
  }

  lemma DoKeeps(t: Tables, op: Op)
    requires Inv(t) && Callable(t, op)
    ensures Inv(Do(t, op))
  {
    match op
    case VerifyTOTPSetup(_, _, _, _) => AddedKeeps(t, op);
    case FinishRegistration(_, _, _, _) => AddedKeeps(t, op);
    case DeleteMethod(u, m) => DeletedKeeps(t, u, m);
    case AdminReset(_) => WipedKeeps(t, op);
    case RemoveUser(_) => WipedKeeps(t, op);
    case Regenerate(u, b) =>
      if u in t.users {
        RegenerateKeeps(t, Do(t, op), u, b);
      }
    case AddUser(_) => PlainKeeps(t, op);
    case SetupTOTP(_, _) => PlainKeeps(t, op);
    case UseCode(_) => PlainKeeps(t, op);
  }

  lemma {:induction false} RunKeeps(t: Tables, ops: seq<Op>)
    requires Inv(t) && IsRun(t, ops)
    ensures Inv(Final(t, ops))
    decreases ops
  {
    if ops != [] {
      DoKeeps(t, ops[0]);
      RunKeeps(Do(t, ops[0]), ops[1..]);
    }
  }

  /**
   * Main result. After any sequence of completed operations, mfa_enabled holds for a user
   * exactly if the user has a verified TOTP method or a WebAuthn credential, so that a login
   * challenge always offers one of the two; and the user has either no recovery codes or eight.
   */
  lemma EnabledExactlyWithMethod(ops: seq<Op>, user: UserId)
    requires IsRun(Tables(map[], map[], map[], map[]), ops)
    requires user in Final(Tables(map[], map[], map[], map[]), ops).users
    ensures var t := Final(Tables(map[], map[], map[], map[]), ops);
            && (t.users[user] <==> VerifiedTotp(t, user) != {} || Credentials(t, user) != {})
            && |CodesOf(t, user)| in {0, 8}
  {
    var empty := Tables(map[], map[], map[], map[]);
    assert forall u :: CodesOf(empty, u) == {};
    RunKeeps(empty, ops);
  }

  /** The codes replaced by a regeneration, used or not, are no longer recognised. */
  lemma OldCodesDie(t: Tables, user: UserId, b: Batch, c: CodeId, typed: string)
    requires GoodBatch(t, b) && c in CodesOf(t, user)
    ensures !RC.Matches(Regenerated(t, user, b).codes, c, user, typed)
  {
    RegeneratedIs(t, user, b);
    assert c !in CodesOf(Regenerated(t, user, b), user);
  }

  /** And each of the new ones is, as it was shown; RecoveryCodes has the other ways to type it. */
  lemma NewCodesWork(t: Tables, user: UserId, b: Batch, i: nat, typed: string)
    requires GoodBatch(t, b) && i < RC.BATCH_SIZE
    ensures RC.Matches(Regenerated(t, user, b).codes, b.ids[i], user, typed) <==> RC.Typed(typed) == RC.Stored(b.codes[i])
  {
    InsertedIs(t, user, b, RC.BATCH_SIZE);
    assert b.ids[..RC.BATCH_SIZE] == b.ids;
  }

  lemma {:induction false} VerifiedSince(t: Tables, ops: seq<Op>, m: MethodId)
    requires IsRun(t, ops) && m in Final(t, ops).totp && Final(t, ops).totp[m].verified
    ensures var user := Final(t, ops).totp[m].user;
            || (m in t.totp && t.totp[m] == Totp(user, true))
            || exists op :: op in ops && op.VerifyTOTPSetup? && op.user == user && op.m == m && op.codeOk
    decreases ops
  {
    if ops != [] {
      var user := Final(t, ops).totp[m].user;
      var s := Do(t, ops[0]);
      VerifiedSince(s, ops[1..], m);
      if m in s.totp && s.totp[m] == Totp(user, true) && !(m in t.totp && t.totp[m] == Totp(user, true)) {
        assert ops[0].VerifyTOTPSetup? && ops[0].user == user && ops[0].m == m && ops[0].codeOk;
      }
    }
  }

  /** In every run a verified TOTP method was verified by its owner with a right code. */
  lemma VerifiedWithRightCode(ops: seq<Op>, m: MethodId)
    requires IsRun(Tables(map[], map[], map[], map[]), ops)
    requires var t := Final(Tables(map[], map[], map[], map[]), ops); m in t.totp && t.totp[m].verified
    ensures var t := Final(Tables(map[], map[], map[], map[]), ops);
            exists op :: op in ops && op.VerifyTOTPSetup? && op.user == t.totp[m].user && op.m == m && op.codeOk
  {
    VerifiedSince(Tables(map[], map[], map[], map[]), ops, m);
  }
}
