/**
 * The statements of the MFA operations, executed with nothing in between, have the effect of the
 * service's operations: the overlapping system and the sequential one describe the same code.
 */
module MfaAlone {
  import opened MfaOverlap
  import M = Mfa

  function StepsLeft(pc: Pc): nat {
    if pc.Looking? || pc.Checking? then 5
    else if pc.DroppingTotp? || pc.DroppingKey? || pc.Verifying? || pc.Inserting? || pc.WipingTotp? then 4
    else if pc.Counting? || pc.ReadingFlag? || pc.WipingKeys? then 3
    else if pc.Clearing? || pc.Setting? || pc.WipingCodes? || pc.ReadingUser? then 2
    else if pc.Done? then 0 else 1
  }

  /** One operation executed to its end. */
  function Whole(db: Db, pc: Pc): Db
    decreases StepsLeft(pc)
  {
    if pc.Done? then db
    else
      var x := Execute(db, 0, pc);
      Whole(x.db, x.pc)
  }

  /** The rows of one user in the service's tables. */
  function RowsOf(t: M.Tables, user: M.UserId): Db {
    Db((set m | m in t.totp && t.totp[m] == M.Totp(user, true)),
       (set m | m in t.totp && t.totp[m] == M.Totp(user, false)),
       (set m | m in t.webauthn && t.webauthn[m] == user),
       user in t.users && t.users[user],
       M.CodesOf(t, user) != {})
  }

  // ------------------------------------------------------------ on one user's rows

  /** maybeDisableMFA on rows that stay as they are. */
  function Disabled(db: Db): Db {
    if HasMethod(db) then db else db.(flag := false, codes := false)
  }

  function SwitchedOn(db: Db): Db {
    if db.flag then db else db.(flag := true, codes := true)
  }

  lemma DisableWhole(db: Db)
    ensures Whole(db, Counting) == Disabled(db)
  {
    if !HasMethod(db) {
      var off := db.(flag := false);
      assert Whole(db, Clearing) == Whole(off, DroppingCodes);
      assert Whole(off, DroppingCodes) == Whole(off.(codes := false), Done);
    }
  }

  lemma DeleteWhole(db: Db, m: MethodId)
    ensures Whole(db, Looking(m)) ==
            if m in db.totp + db.unverified then Disabled(db.(totp := db.totp - {m}, unverified := db.unverified - {m}))
            else if m in db.keys then Disabled(db.(keys := db.keys - {m}))
            else db
  {
    if m in db.totp + db.unverified {
      assert Whole(db, DroppingTotp(m)) == Whole(db.(totp := db.totp - {m}, unverified := db.unverified - {m}), Counting);
      DisableWhole(db.(totp := db.totp - {m}, unverified := db.unverified - {m}));
    } else if m in db.keys {
      assert Whole(db, DroppingKey(m)) == Whole(db.(keys := db.keys - {m}), Counting);
      DisableWhole(db.(keys := db.keys - {m}));
    }
  }

  lemma SwitchOnWhole(db: Db)
    ensures Whole(db, ReadingFlag) == SwitchedOn(db)
  {
    if !db.flag {
      var on := db.(flag := true);
      assert Whole(db, Setting) == Whole(on, Storing);
      assert Whole(on, Storing) == Whole(on.(codes := true), Done);
    }
  }

  lemma VerifyWhole(db: Db, m: MethodId)
    ensures Whole(db, Checking(m)) ==
            if m in db.unverified then SwitchedOn(db.(totp := db.totp + {m}, unverified := db.unverified - {m})) else db
  {
    if m in db.unverified {
      assert Whole(db, Verifying(m)) == Whole(db.(totp := db.totp + {m}, unverified := db.unverified - {m}), ReadingFlag);
      SwitchOnWhole(db.(totp := db.totp + {m}, unverified := db.unverified - {m}));
    }
  }

  lemma RegisterWhole(db: Db, m: MethodId)
    ensures Whole(db, Inserting(m)) == SwitchedOn(db.(keys := db.keys + {m}))
  {
    assert Whole(db, Inserting(m)) == Whole(db.(keys := db.keys + {m}), ReadingFlag);
    SwitchOnWhole(db.(keys := db.keys + {m}));
  }

  lemma ResetWhole(db: Db)
    ensures Whole(db, WipingTotp) == Db({}, {}, {}, false, false)
  {
    var s1 := db.(totp := {}, unverified := {});
    var s2 := s1.(keys := {});
    var s3 := s2.(codes := false);
    assert Whole(db, WipingTotp) == Whole(s1, WipingKeys) == Whole(s2, WipingCodes) == Whole(s3, LastClearing);
    assert Whole(s3, LastClearing) == Whole(s3.(flag := false), Done);
  }

  // ------------------------------------------------------------ the service's operations

  lemma SameMethods(t: M.Tables, user: M.UserId)
    ensures HasMethod(RowsOf(t, user)) <==> M.HasMethod(t, user)
  {
    assert RowsOf(t, user).totp == M.VerifiedTotp(t, user);
    assert RowsOf(t, user).keys == M.Credentials(t, user);
  }

  lemma SameDisable(t: M.Tables, user: M.UserId)
    requires user in t.users
    ensures RowsOf(M.MaybeDisabled(t, user), user) == Disabled(RowsOf(t, user))
  {
    SameMethods(t, user);
    var r := M.MaybeDisabled(t, user);
    if !M.HasMethod(t, user) {
      M.KeepDrops(t, r, user);
    }
  }

  lemma TotpGone(t: M.Tables, user: M.UserId, m: MethodId)
    requires m in t.totp && t.totp[m].user == user
    ensures var db := RowsOf(t, user);
            && m in db.totp + db.unverified
            && RowsOf(t.(totp := t.totp - {m}), user) == db.(totp := db.totp - {m}, unverified := db.unverified - {m})
  {
    assert M.CodesOf(t.(totp := t.totp - {m}), user) == M.CodesOf(t, user);
  }

  lemma KeyGone(t: M.Tables, user: M.UserId, m: MethodId)
    requires m in t.webauthn && t.webauthn[m] == user && !(m in t.totp && t.totp[m].user == user)
    ensures var db := RowsOf(t, user);
            && m !in db.totp + db.unverified && m in db.keys
            && RowsOf(t.(webauthn := t.webauthn - {m}), user) == db.(keys := db.keys - {m})
  {
    assert M.CodesOf(t.(webauthn := t.webauthn - {m}), user) == M.CodesOf(t, user);
  }

  lemma AloneIsDelete(t: M.Tables, user: M.UserId, m: MethodId)
    requires user in t.users
    ensures Whole(RowsOf(t, user), First(Delete(m))) == RowsOf(M.Do(t, M.DeleteMethod(user, m)), user)
  {
    DeleteWhole(RowsOf(t, user), m);
    if m in t.totp && t.totp[m].user == user {
      TotpGone(t, user, m);
      SameDisable(t.(totp := t.totp - {m}), user);
    } else if m in t.webauthn && t.webauthn[m] == user {
      KeyGone(t, user, m);
      SameDisable(t.(webauthn := t.webauthn - {m}), user);
    }
  }

  lemma SameEnable(t: M.Tables, user: M.UserId, b: M.Batch)
    requires user in t.users && M.GoodBatch(t, b)
    ensures RowsOf(M.Enabled(t, user, b), user) == SwitchedOn(RowsOf(t, user))
  {
    if !t.users[user] {
      var on := t.(users := t.users[user := true]);
      M.RegeneratedIs(on, user, b);
      assert RowsOf(M.Enabled(t, user, b), user).codes;
    }
  }

  lemma AloneIsVerify(t: M.Tables, user: M.UserId, m: MethodId, b: M.Batch)
    requires user in t.users && M.GoodBatch(t, b)
    ensures Whole(RowsOf(t, user), First(Verify(m))) == RowsOf(M.Do(t, M.VerifyTOTPSetup(user, m, true, b)), user)
  {
    var db := RowsOf(t, user);
    VerifyWhole(db, m);
    if m in t.totp && t.totp[m] == M.Totp(user, false) {
      var s := t.(totp := t.totp[m := M.Totp(user, true)]);
      SameEnable(s, user, b);
      assert M.CodesOf(s, user) == M.CodesOf(t, user);
      assert RowsOf(s, user) == db.(totp := db.totp + {m}, unverified := db.unverified - {m});
    }
  }

  lemma AloneIsRegister(t: M.Tables, user: M.UserId, m: MethodId, b: M.Batch)
    requires user in t.users && M.Callable(t, M.FinishRegistration(user, m, true, b))
    ensures Whole(RowsOf(t, user), First(Register(m))) == RowsOf(M.Do(t, M.FinishRegistration(user, m, true, b)), user)
  {
    var db := RowsOf(t, user);
    var s := t.(webauthn := t.webauthn[m := user]);
    RegisterWhole(db, m);
    SameEnable(s, user, b);
    assert M.CodesOf(s, user) == M.CodesOf(t, user);
    assert RowsOf(s, user) == db.(keys := db.keys + {m});
  }

  lemma AloneIsReset(t: M.Tables, user: M.UserId)
    ensures Whole(RowsOf(t, user), First(Reset)) == RowsOf(M.Do(t, M.AdminReset(user)), user)
  {
    var r := M.Do(t, M.AdminReset(user));
    ResetWhole(RowsOf(t, user));
    M.KeepDrops(t, r, user);
    assert RowsOf(r, user).totp == {};
    assert RowsOf(r, user).unverified == {};
    assert RowsOf(r, user).keys == {};
  }
}
