/**
 * MFA operations of one user at the level of single SQL statements, any number of them at once.
 * The flag and the methods are separate tables, so that operations can overtake each other. So can
 * edits of the user, which read the row and write all of it back, the flag included.
 */
module MfaOverlap {

  type OpId = nat
  type MethodId = nat

  /** The user's rows: TOTP methods by whether they are verified, credentials, flag, and whether codes are stored. */
  datatype Db = Db(totp: set<MethodId>, unverified: set<MethodId>, keys: set<MethodId>, flag: bool, codes: bool)

  predicate HasMethod(db: Db) {
    db.totp != {} || db.keys != {}
  }

  /** The statement an operation executes next. Storing stands for deleting the old codes and inserting eight. */
  datatype Pc =
    | Looking(m: MethodId) | DroppingTotp(m: MethodId) | DroppingKey(m: MethodId)
    | Counting | Clearing | DroppingCodes
    | Checking(m: MethodId) | Verifying(m: MethodId) | Inserting(m: MethodId)
    | ReadingFlag | Setting | Storing
    | WipingTotp | WipingKeys | WipingCodes | LastClearing
    | ReadingUser | WritingUser(flag: bool)
    | Done

  datatype Request = Delete(m: MethodId) | Verify(m: MethodId) | Register(m: MethodId) | Reset | Edit

  /** What has happened, and whether the user had a method just before. */
  datatype What = Wrote | Dropped | Counted | Wiped | FlagRead | Cleared | SwitchedOn | UserRead | PutBack(flag: bool)

  datatype Entry = Entry(what: What, op: OpId, hadMethod: bool)

  datatype State = State(db: Db, ops: map<OpId, Pc>, log: seq<Entry>)

  datatype Event =
    | Start(op: OpId, request: Request)
    | Setup(m: MethodId)
    | Step(op: OpId)

  // ------------------------------------------------------------ statements

  function First(request: Request): Pc {
    match request
    case Delete(m) => Looking(m)
    case Verify(m) => Checking(m)
    case Register(m) => Inserting(m)
    case Reset => WipingTotp
    case Edit => ReadingUser
  }

  datatype Effect = Effect(db: Db, pc: Pc, entries: seq<Entry>)

  function Drop(db: Db, op: OpId, pc: Pc): Effect
    requires pc.Looking? || pc.DroppingTotp? || pc.DroppingKey?
  {
    match pc
    case Looking(m) =>
      Effect(db,
             if m in db.totp + db.unverified then DroppingTotp(m) else if m in db.keys then DroppingKey(m) else Done,
             [])
    case DroppingTotp(m) =>
      if m in db.totp + db.unverified
      then Effect(db.(totp := db.totp - {m}, unverified := db.unverified - {m}), Counting,
                  [Entry(Dropped, op, HasMethod(db))])
      else Effect(db, Done, [])
    case DroppingKey(m) =>
      if m in db.keys then Effect(db.(keys := db.keys - {m}), Counting, [Entry(Dropped, op, HasMethod(db))])
      else Effect(db, Done, [])
  }

  /** maybeDisableMFA */
  function Disable(db: Db, op: OpId, pc: Pc): Effect
    requires pc.Counting? || pc.Clearing? || pc.DroppingCodes?
  {
    match pc
    case Counting => Effect(db, if HasMethod(db) then Done else Clearing, [Entry(Counted, op, HasMethod(db))])
    case Clearing => Effect(db.(flag := false), DroppingCodes, [Entry(Cleared, op, HasMethod(db))])
    case DroppingCodes => Effect(db.(codes := false), Done, [])
  }

  /** Writing the method's row, then enableMFAAndGenerateCodes. */
  function Add(db: Db, op: OpId, pc: Pc): Effect
    requires pc.Checking? || pc.Verifying? || pc.Inserting? || pc.ReadingFlag? || pc.Setting? || pc.Storing?
  {
    match pc
    case Checking(m) => Effect(db, if m in db.unverified then Verifying(m) else Done, [])
    case Verifying(m) =>
      if m in db.totp + db.unverified
      then Effect(db.(totp := db.totp + {m}, unverified := db.unverified - {m}), ReadingFlag,
                  [Entry(Wrote, op, HasMethod(db))])
      else Effect(db, Done, [])
    case Inserting(m) => Effect(db.(keys := db.keys + {m}), ReadingFlag, [Entry(Wrote, op, HasMethod(db))])
    case ReadingFlag => Effect(db, if db.flag then Done else Setting, [Entry(FlagRead, op, HasMethod(db))])
    case Setting => Effect(db.(flag := true), Storing, [Entry(SwitchedOn, op, HasMethod(db))])
    case Storing => Effect(db.(codes := true), Done, [])
  }

  /** AdminResetMFA */
  function Wipe(db: Db, op: OpId, pc: Pc): Effect
    requires pc.WipingTotp? || pc.WipingKeys? || pc.WipingCodes? || pc.LastClearing?
  {
    match pc
    case WipingTotp => Effect(db.(totp := {}, unverified := {}), WipingKeys, [Entry(Wiped, op, HasMethod(db))])
    case WipingKeys => Effect(db.(keys := {}), WipingCodes, [Entry(Wiped, op, HasMethod(db))])
    case WipingCodes => Effect(db.(codes := false), LastClearing, [])
    case LastClearing => Effect(db.(flag := false), Done, [Entry(Cleared, op, HasMethod(db))])
  }

  /** Any update of the user: GetByID, then Update with every column. */
  function Rewrite(db: Db, op: OpId, pc: Pc): Effect
    requires pc.ReadingUser? || pc.WritingUser?
  {
    match pc
    case ReadingUser => Effect(db, WritingUser(db.flag), [Entry(UserRead, op, HasMethod(db))])
    case WritingUser(flag) => Effect(db.(flag := flag), Done, [Entry(PutBack(flag), op, HasMethod(db))])
  }

  function Execute(db: Db, op: OpId, pc: Pc): Effect {
    if pc.Done? then Effect(db, Done, [])
    else if pc.Looking? || pc.DroppingTotp? || pc.DroppingKey? then Drop(db, op, pc)
    else if pc.Counting? || pc.Clearing? || pc.DroppingCodes? then Disable(db, op, pc)
    else if pc.WipingTotp? || pc.WipingKeys? || pc.WipingCodes? || pc.LastClearing? then Wipe(db, op, pc)
    else if pc.ReadingUser? || pc.WritingUser? then Rewrite(db, op, pc)
    else Add(db, op, pc)
  }

  /** New operations and new rows get new identifiers. */
  predicate Enabled(s: State, e: Event) {
    match e
    case Start(op, _) => op !in s.ops
    case Setup(m) => m !in s.db.totp + s.db.unverified + s.db.keys
    case Step(op) => op in s.ops && !s.ops[op].Done?
  }

  function Apply(s: State, e: Event): State
    requires Enabled(s, e)
  {
    match e
    case Start(op, request) => s.(ops := s.ops[op := First(request)])
    case Setup(m) => s.(db := s.db.(unverified := s.db.unverified + {m}))
    case Step(op) =>
      var x := Execute(s.db, op, s.ops[op]);
      State(x.db, s.ops[op := x.pc], s.log + x.entries)
  }

  predicate IsRun(s: State, es: seq<Event>)
    decreases es
  {
    es == [] || (Enabled(s, es[0]) && IsRun(Apply(s, es[0]), es[1..]))
  }

  function Final(s: State, es: seq<Event>): State
    requires IsRun(s, es)
    decreases es
  {
    if es == [] then s else Final(Apply(s, es[0]), es[1..])
  }

  /** Nothing under way and the flag exact. */
  predicate Consistent(s: State) {
    s.ops == map[] && s.log == [] && s.db.flag == HasMethod(s.db)
  }

  predicate Quiet(s: State) {
    forall op | op in s.ops :: s.ops[op].Done?
  }

  // ------------------------------------------------------------ the last write of the flag

  /** Which write of the flag was the last, whether there was a method then, and whether one was written since. */
  datatype Verdict = Untouched | Off(hadMethod: bool) | On(hadMethod: bool, writtenSince: bool)

  function After(v: Verdict, e: Entry): Verdict {
    match e.what
    case Cleared => Off(e.hadMethod)
    case SwitchedOn => On(e.hadMethod, false)
    case PutBack(flag) => if flag then On(e.hadMethod, false) else Off(e.hadMethod)
    case Wrote => if v.On? then v.(writtenSince := true) else v
    case _ => v
  }

  function LastWrite(log: seq<Entry>): Verdict {
    if log == [] then Untouched else After(LastWrite(log[..|log| - 1]), log[|log| - 1])
  }

  lemma LastWriteAppend(log: seq<Entry>, entries: seq<Entry>)
    requires |entries| <= 1
    ensures LastWrite(log + entries) == if entries == [] then LastWrite(log) else After(LastWrite(log), entries[0])
  {
    if entries == [] {
      assert log + entries == log;
    } else {
      assert (log + entries)[..|log|] == log;
    }
  }

  predicate WillClear(pc: Pc) {
    pc.Clearing? || pc.WipingTotp? || pc.WipingKeys? || pc.WipingCodes? || pc.LastClearing?
  }

  predicate WillRead(pc: Pc) {
    pc.ReadingFlag? || pc.Setting?
  }

  predicate SomeReader(s: State) {
    exists op :: op in s.ops && WillRead(s.ops[op])
  }

  /** There is a method, or somebody is about to find that there is none. */
  predicate Kept(s: State) {
    HasMethod(s.db) || exists op :: op in s.ops && (s.ops[op].Counting? || WillClear(s.ops[op]))
  }

  predicate InvAt(db: Db, v: Verdict, kept: bool, reader: bool) {
    match v
    case Untouched => if db.flag then kept else HasMethod(db) ==> reader
    case Off(had) => !db.flag && if had then kept || reader else HasMethod(db) ==> reader
    case On(had, since) => db.flag && if had || since then kept else !HasMethod(db)
  }

  predicate Inv(s: State) {
    InvAt(s.db, LastWrite(s.log), Kept(s), SomeReader(s))
  }

  /**
   * One statement, seen from the rows: `kept` and `reader` before it, `keptAfter` and
   * `readerAfter` after it, where whatever another operation was about to do it still is.
   */
  lemma StatementKeeps(db: Db, op: OpId, pc: Pc, v: Verdict,
                       kept: bool, reader: bool, keptAfter: bool, readerAfter: bool)
    requires InvAt(db, v, kept, reader)
    requires HasMethod(db) ==> kept
    requires reader ==> WillRead(pc) || readerAfter
    requires kept ==> HasMethod(db) || pc.Counting? || WillClear(pc) || keptAfter
    requires var x := Execute(db, op, pc);
             && (WillRead(x.pc) ==> readerAfter)
             && (HasMethod(x.db) || x.pc.Counting? || WillClear(x.pc) ==> keptAfter)
    ensures var x := Execute(db, op, pc);
            InvAt(x.db, if x.entries == [] then v else After(v, x.entries[0]), keptAfter, readerAfter)
  {
  }

  lemma StepKeeps(s: State, op: OpId)
    requires Inv(s) && Enabled(s, Step(op))
    ensures Inv(Apply(s, Step(op)))
  {
    var t := Apply(s, Step(op));
    OnlyWritesAdd(s.db, op, s.ops[op]);
    LastWriteAppend(s.log, Execute(s.db, op, s.ops[op]).entries);
    OthersStay(s, t, op);
    StatementKeeps(s.db, op, s.ops[op], LastWrite(s.log), Kept(s), SomeReader(s), Kept(t), SomeReader(t));
  }

  /** Whoever else is about to read, count or clear still is. */
  lemma OthersStay(s: State, t: State, op: OpId)
    requires op in s.ops && op in t.ops && t.ops == s.ops[op := t.ops[op]]
    ensures SomeReader(s) ==> WillRead(s.ops[op]) || SomeReader(t)
    ensures WillRead(t.ops[op]) ==> SomeReader(t)
    ensures Kept(s) ==> HasMethod(s.db) || s.ops[op].Counting? || WillClear(s.ops[op]) || Kept(t)
    ensures t.ops[op].Counting? || WillClear(t.ops[op]) ==> Kept(t)
  {
    if SomeReader(s) && !WillRead(s.ops[op]) {
      var r :| r in s.ops && WillRead(s.ops[r]);
      assert t.ops[r] == s.ops[r];
    }
    if Kept(s) && !HasMethod(s.db) && !s.ops[op].Counting? && !WillClear(s.ops[op]) {
      var r :| r in s.ops && (s.ops[r].Counting? || WillClear(s.ops[r]));
      assert t.ops[r] == s.ops[r];
    }
  }

  lemma OtherKeeps(s: State, e: Event)
    requires Inv(s) && Enabled(s, e) && !e.Step?
    ensures Inv(Apply(s, e))
  {
    var t := Apply(s, e);
    assert forall op | op in s.ops :: op in t.ops && t.ops[op] == s.ops[op];
    assert HasMethod(t.db) == HasMethod(s.db);
    if SomeReader(s) {
      var r :| r in s.ops && WillRead(s.ops[r]);
      assert t.ops[r] == s.ops[r];
    }
    if Kept(s) && !HasMethod(s.db) {
      var r :| r in s.ops && (s.ops[r].Counting? || WillClear(s.ops[r]));
      assert t.ops[r] == s.ops[r];
    }
  }

  lemma {:induction false} RunKeeps(s: State, es: seq<Event>)
    requires Inv(s) && IsRun(s, es)
    ensures Inv(Final(s, es))
    decreases es
  {
    if es != [] {
      if es[0].Step? {
        StepKeeps(s, es[0].op);
      } else {
        OtherKeeps(s, es[0]);
      }
      RunKeeps(Apply(s, es[0]), es[1..]);
    }
  }

  /**
   * Main result, for any number of overlapping operations of the user. Once all have ended, the
   * flag is wrong if and only if its last write set it to off while there was a method, or to on
   * while there was none and no method has been written since.
   */
  lemma FlagWrongExactly(s: State, es: seq<Event>)
    requires Consistent(s) && IsRun(s, es) && Quiet(Final(s, es))
    ensures var t := Final(s, es);
            t.db.flag != HasMethod(t.db) <==>
            LastWrite(t.log) == Off(true) || LastWrite(t.log) == On(false, false)
  {
    RunKeeps(s, es);
  }

  // ------------------------------------------------------------ how a write comes to be wrong

  ghost predicate At(log: seq<Entry>, i: int, what: What, op: OpId) {
    0 <= i < |log| && log[i].what == what && log[i].op == op
  }

  /** The operation has counted no method or has begun to remove them all. */
  ghost predicate SawNone(log: seq<Entry>, op: OpId) {
    exists i :: At(log, i, Counted, op) || At(log, i, Wiped, op)
  }

  /** Since then somebody has written one. */
  ghost predicate Overtaken(log: seq<Entry>, op: OpId) {
    exists j | 0 <= j < |log| :: log[j].what.Wrote? && SawNone(log[..j], op)
  }

  lemma Grows(log: seq<Entry>, e: Entry, op: OpId)
    ensures SawNone(log, op) ==> SawNone(log + [e], op)
    ensures e.op == op && (e.what.Counted? || e.what.Wiped?) ==> SawNone(log + [e], op)
    ensures Overtaken(log, op) ==> Overtaken(log + [e], op)
    ensures SawNone(log, op) && e.what.Wrote? ==> Overtaken(log + [e], op)
  {
    var more := log + [e];
    assert more[|log|] == e && more[..|log|] == log;
    if SawNone(log, op) {
      var i :| At(log, i, Counted, op) || At(log, i, Wiped, op);
      assert At(more, i, Counted, op) || At(more, i, Wiped, op);
    }
    if e.op == op && (e.what.Counted? || e.what.Wiped?) {
      assert At(more, |log|, Counted, op) || At(more, |log|, Wiped, op);
    }
    if Overtaken(log, op) {
      var j :| 0 <= j < |log| && log[j].what.Wrote? && SawNone(log[..j], op);
      assert more[..j] == log[..j];
    }
  }

  predicate HasSeenNone(pc: Pc) {
    pc.Clearing? || pc.WipingCodes? || pc.LastClearing?
  }

  ghost predicate PcExplained(db: Db, log: seq<Entry>, op: OpId, pc: Pc) {
    && (HasSeenNone(pc) || pc.WipingKeys? ==> SawNone(log, op))
    && (HasSeenNone(pc) && HasMethod(db) ==> Overtaken(log, op))
    && (pc.WipingKeys? && db.totp != {} ==> Overtaken(log, op))
  }

  ghost predicate ClearingsExplained(log: seq<Entry>) {
    forall k | 0 <= k < |log| && log[k].what.Cleared? && log[k].hadMethod :: Overtaken(log[..k], log[k].op)
  }

  ghost predicate Explained(s: State) {
    ClearingsExplained(s.log) && forall op | op in s.ops :: PcExplained(s.db, s.log, op, s.ops[op])
  }

  lemma ClearingsAppend(log: seq<Entry>, e: Entry)
    requires ClearingsExplained(log)
    requires e.what.Cleared? && e.hadMethod ==> Overtaken(log, e.op)
    ensures ClearingsExplained(log + [e])
  {
    var more := log + [e];
    forall k | 0 <= k < |more| && more[k].what.Cleared? && more[k].hadMethod
      ensures Overtaken(more[..k], more[k].op)
    {
      assert more[..k] == log[..k];
      assert log[..|log|] == log;
    }
  }

  /** A statement that adds a method is logged as a write. */
  lemma OnlyWritesAdd(db: Db, op: OpId, pc: Pc)
    ensures var x := Execute(db, op, pc);
            && |x.entries| <= 1
            && (x.entries == [] || !x.entries[0].what.Wrote? ==> x.db.totp <= db.totp && x.db.keys <= db.keys)
            && (x.entries != [] ==> x.entries[0] == Entry(x.entries[0].what, op, HasMethod(db)))
  {
  }

  lemma StepExplained(s: State, op: OpId)
    requires Explained(s) && Enabled(s, Step(op))
    ensures Explained(Apply(s, Step(op)))
  {
    var t := Apply(s, Step(op));
    var x := Execute(s.db, op, s.ops[op]);
    OnlyWritesAdd(s.db, op, s.ops[op]);
    if x.entries == [] {
      assert t.log == s.log;
    } else {
      assert t.log == s.log + [x.entries[0]];
      ClearingsAppend(s.log, x.entries[0]);
    }
    forall other | other in t.ops
      ensures PcExplained(t.db, t.log, other, t.ops[other])
    {
      assert PcExplained(s.db, s.log, other, s.ops[other]);
      if x.entries != [] {
        Grows(s.log, x.entries[0], other);
      }
    }
  }

  lemma {:induction false} RunExplained(s: State, es: seq<Event>)
    requires Explained(s) && IsRun(s, es)
    ensures Explained(Final(s, es))
    decreases es
  {
    if es != [] {
      if es[0].Step? {
        StepExplained(s, es[0].op);
      } else {
        var t := Apply(s, es[0]);
        assert forall op | op in s.ops :: PcExplained(s.db, s.log, op, s.ops[op]);
        assert Explained(t);
      }
      RunExplained(Apply(s, es[0]), es[1..]);
    }
  }

  /**
   * A clearing made while there was a method was overtaken: between the operation's count of no
   * method (or its first removal) and its clearing, some operation wrote one.
   */
  lemma WrongClearingOvertaken(s: State, es: seq<Event>, k: nat)
    requires Consistent(s) && IsRun(s, es)
    requires k < |Final(s, es).log| && Final(s, es).log[k].what.Cleared? && Final(s, es).log[k].hadMethod
    ensures var log := Final(s, es).log;
            exists j | 0 <= j < k :: log[j].what.Wrote? && SawNone(log[..j], log[k].op)
  {
    RunExplained(s, es);
    var log := Final(s, es).log;
    var j :| 0 <= j < k && log[..k][j].what.Wrote? && SawNone(log[..k][..j], log[k].op);
    assert log[..k][..j] == log[..j];
  }

  // ------------------------------------------------------------ how a row comes to be put back stale

  predicate WritesFlag(what: What) {
    what.Cleared? || what.SwitchedOn? || what.PutBack?
  }

  ghost predicate HasRead(log: seq<Entry>, op: OpId) {
    exists i :: At(log, i, UserRead, op)
  }

  /** Since the operation read the user somebody has written the flag. */
  ghost predicate FlagWrittenSince(log: seq<Entry>, op: OpId) {
    exists j | 0 <= j < |log| :: WritesFlag(log[j].what) && HasRead(log[..j], op)
  }

  ghost predicate SeenFlag(s: State, op: OpId)
    requires op in s.ops
  {
    s.ops[op].WritingUser? ==>
      HasRead(s.log, op) && (s.ops[op].flag == s.db.flag || FlagWrittenSince(s.log, op))
  }

  lemma ReadingGrows(log: seq<Entry>, e: Entry, op: OpId)
    ensures HasRead(log, op) || (e.what.UserRead? && e.op == op) ==> HasRead(log + [e], op)
    ensures FlagWrittenSince(log, op) || (HasRead(log, op) && WritesFlag(e.what)) ==> FlagWrittenSince(log + [e], op)
  {
    var more := log + [e];
    assert more[|log|] == e && more[..|log|] == log;
    if HasRead(log, op) {
      var i :| At(log, i, UserRead, op);
      assert At(more, i, UserRead, op);
    }
    if e.what.UserRead? && e.op == op {
      assert At(more, |log|, UserRead, op);
    }
    if FlagWrittenSince(log, op) {
      var j :| 0 <= j < |log| && WritesFlag(log[j].what) && HasRead(log[..j], op);
      assert more[..j] == log[..j];
    }
  }

  lemma SeenFlagStep(s: State, e: Event, op: OpId)
    requires Enabled(s, e) && (op in s.ops ==> SeenFlag(s, op)) && op in Apply(s, e).ops
    ensures SeenFlag(Apply(s, e), op)
  {
    if e.Step? {
      var x := Execute(s.db, e.op, s.ops[e.op]);
      OnlyWritesAdd(s.db, e.op, s.ops[e.op]);
      if x.entries == [] {
        assert s.log + x.entries == s.log;
      } else {
        assert s.log + x.entries == s.log + [x.entries[0]];
        ReadingGrows(s.log, x.entries[0], op);
      }
    }
  }

  lemma {:induction false} SeenFlags(s: State, es: seq<Event>, op: OpId)
    requires IsRun(s, es) && (op in s.ops ==> SeenFlag(s, op)) && op in Final(s, es).ops
    ensures SeenFlag(Final(s, es), op)
    decreases es
  {
    if es != [] {
      if op in Apply(s, es[0]).ops {
        SeenFlagStep(s, es[0], op);
      }
      SeenFlags(Apply(s, es[0]), es[1..], op);
    }
  }

  /** An edit that is about to change the flag has been overtaken: the flag was written after the edit's read. */
  lemma ChangingPutBackOvertaken(s: State, es: seq<Event>, op: OpId)
    requires Consistent(s) && IsRun(s, es)
    requires var t := Final(s, es); op in t.ops && t.ops[op].WritingUser? && t.ops[op].flag != t.db.flag
    ensures var log := Final(s, es).log;
            exists j | 0 <= j < |log| :: WritesFlag(log[j].what) && HasRead(log[..j], op)
  {
    SeenFlags(s, es, op);
  }

  // ------------------------------------------------------------ failing runs

  lemma {:induction false} Join(s: State, first: seq<Event>, t: State, second: seq<Event>)
    requires IsRun(s, first) && Final(s, first) == t && IsRun(t, second)
    ensures IsRun(s, first + second) && Final(s, first + second) == Final(t, second)
    decreases first
  {
    if first == [] {
      assert first + second == second;
    } else {
      assert (first + second)[1..] == first[1..] + second;
      Join(Apply(s, first[0]), first[1..], t, second);
    }
  }

  /** Some run goes from one state to the other. */
  ghost predicate Leads(s: State, t: State) {
    exists es :: IsRun(s, es) && Final(s, es) == t
  }

  lemma Onward(s: State, t: State, u: State)
    requires Leads(s, t) && Leads(t, u)
    ensures Leads(s, u)
  {
    var first :| IsRun(s, first) && Final(s, first) == t;
    var second :| IsRun(t, second) && Final(t, second) == u;
    Join(s, first, t, second);
  }

  lemma One(s: State, a: Event)
    requires Enabled(s, a)
    ensures IsRun(s, [a]) && Final(s, [a]) == Apply(s, a)
  {
    assert [a][1..] == [];
  }

  lemma Two(s: State, a: Event, b: Event)
    requires Enabled(s, a) && Enabled(Apply(s, a), b)
    ensures IsRun(s, [a, b]) && Final(s, [a, b]) == Apply(Apply(s, a), b)
  {
    assert [a, b][1..] == [b];
    One(Apply(s, a), b);
  }

  lemma Three(s: State, a: Event, b: Event, c: Event)
    requires Enabled(s, a) && Enabled(Apply(s, a), b) && Enabled(Apply(Apply(s, a), b), c)
    ensures IsRun(s, [a, b, c]) && Final(s, [a, b, c]) == Apply(Apply(Apply(s, a), b), c)
  {
    assert [a, b, c][1..] == [b, c];
    Two(Apply(s, a), b, c);
  }

  lemma Begins(s: State, d: MethodId, m: MethodId) returns (t: State)
    requires s.ops == map[]
    ensures Leads(s, t)
    ensures t == s.(ops := map[0 := Looking(d), 1 := Checking(m)])
  {
    Two(s, Start(0, Delete(d)), Start(1, Verify(m)));
    t := Apply(Apply(s, Start(0, Delete(d))), Start(1, Verify(m)));
  }

  /** Look up, drop and count: the operation goes on to clear. */
  lemma Drops(s: State, d: MethodId) returns (t: State)
    requires 0 in s.ops && s.ops[0] == Looking(d) && d in s.db.totp + s.db.unverified
    requires s.db.totp <= {d} && s.db.keys == {}
    ensures Leads(s, t)
    ensures t.db == s.db.(totp := {}, unverified := s.db.unverified - {d}) && t.ops == s.ops[0 := Clearing]
  {
    var s1 := Apply(s, Step(0));
    var s2 := Apply(s1, Step(0));
    assert s2.db.totp == {};
    t := Apply(s2, Step(0));
    assert t.ops == s.ops[0 := Clearing];
    Three(s, Step(0), Step(0), Step(0));
  }

  /** Clear the flag and drop the codes. */
  lemma Clears(s: State) returns (t: State)
    requires 0 in s.ops && s.ops[0] == Clearing
    ensures Leads(s, t)
    ensures t.db == s.db.(flag := false, codes := false) && t.ops == s.ops[0 := Done]
  {
    t := Apply(Apply(s, Step(0)), Step(0));
    assert t.ops == s.ops[0 := Done];
    Two(s, Step(0), Step(0));
  }

  /** Check the code and mark the method verified. */
  lemma Verifies(s: State, m: MethodId) returns (t: State)
    requires 1 in s.ops && s.ops[1] == Checking(m) && m in s.db.unverified
    ensures Leads(s, t)
    ensures t.db == s.db.(totp := s.db.totp + {m}, unverified := s.db.unverified - {m})
    ensures t.ops == s.ops[1 := ReadingFlag]
  {
    t := Apply(Apply(s, Step(1)), Step(1));
    assert t.ops == s.ops[1 := ReadingFlag];
    Two(s, Step(1), Step(1));
  }

  /** Read the flag as on and end. */
  lemma LooksAway(s: State) returns (t: State)
    requires 1 in s.ops && s.ops[1] == ReadingFlag && s.db.flag
    ensures Leads(s, t)
    ensures t.db == s.db && t.ops == s.ops[1 := Done]
  {
    t := Apply(s, Step(1));
    One(s, Step(1));
  }

  /** Read the flag as off, switch it on, store codes. */
  lemma SwitchesOn(s: State) returns (t: State)
    requires 1 in s.ops && s.ops[1] == ReadingFlag && !s.db.flag
    ensures Leads(s, t)
    ensures t.db == s.db.(flag := true, codes := true) && t.ops == s.ops[1 := Done]
  {
    t := Apply(Apply(Apply(s, Step(1)), Step(1)), Step(1));
    assert t.ops == s.ops[1 := Done];
    Three(s, Step(1), Step(1), Step(1));
  }

  /**
   * Deleting the only method while another is being verified: after the count the verification
   * sees the flag still set and does nothing, and the deletion then clears it.
   */
  lemma DeleteRacesVerify(a: MethodId, m: MethodId)
    requires a != m
    ensures var s := State(Db({a}, {m}, {}, true, true), map[], []);
            Consistent(s) && exists t :: Leads(s, t) && Quiet(t) && t.db == Db({m}, {}, {}, false, false)
  {
    var s := State(Db({a}, {m}, {}, true, true), map[], []);
    var s1 := Begins(s, a, m);
    var s2 := Drops(s1, a);
    assert s2.db == Db({}, {m}, {}, true, true);
    var s3 := Verifies(s2, m);
    assert s3.db == Db({m}, {}, {}, true, true);
    var s4 := LooksAway(s3);
    var s5 := Clears(s4);
    Onward(s, s1, s2);
    Onward(s, s2, s3);
    Onward(s, s3, s4);
    Onward(s, s4, s5);
    assert Quiet(s5) && s5.db == Db({m}, {}, {}, false, false);
  }

  /**
   * Deleting a method that was never verified while the first one is being verified: the flag
   * just set is cleared and the codes just shown are dropped.
   */
  lemma UnverifiedDeleteRacesVerify(a: MethodId, m: MethodId)
    requires a != m
    ensures var s := State(Db({}, {a, m}, {}, false, false), map[], []);
            Consistent(s) && exists t :: Leads(s, t) && Quiet(t) && t.db == Db({m}, {}, {}, false, false)
  {
    var s := State(Db({}, {a, m}, {}, false, false), map[], []);
    var s1 := Begins(s, a, m);
    var s2 := Drops(s1, a);
    assert s2.db == Db({}, {m}, {}, false, false);
    var s3 := Verifies(s2, m);
    assert s3.db == Db({m}, {}, {}, false, false);
    var s4 := SwitchesOn(s3);
    var s5 := Clears(s4);
    Onward(s, s1, s2);
    Onward(s, s2, s3);
    Onward(s, s3, s4);
    Onward(s, s4, s5);
    assert Quiet(s5) && s5.db == Db({m}, {}, {}, false, false);
  }

  /** Deleting the very method that is being verified: MFA ends on, with codes, but without a method. */
  lemma DeleteOfVerifiedLeavesFlag(m: MethodId)
    ensures var s := State(Db({}, {m}, {}, false, false), map[], []);
            Consistent(s) && exists t :: Leads(s, t) && Quiet(t) && t.db == Db({}, {}, {}, true, true)
  {
    var s := State(Db({}, {m}, {}, false, false), map[], []);
    var s1 := Begins(s, m, m);
    var s2 := Verifies(s1, m);
    var s3 := Drops(s2, m);
    var s4 := Clears(s3);
    var s5 := SwitchesOn(s4);
    Onward(s, s1, s2);
    Onward(s, s2, s3);
    Onward(s, s3, s4);
    Onward(s, s4, s5);
    assert Quiet(s5) && s5.db == Db({}, {}, {}, true, true);
  }

  lemma EditBegins(s: State, m: MethodId) returns (t: State)
    requires s.ops == map[]
    ensures Leads(s, t)
    ensures t.db == s.db && t.ops == map[0 := WritingUser(s.db.flag), 1 := Checking(m)]
  {
    t := Apply(Apply(Apply(s, Start(0, Edit)), Start(1, Verify(m))), Step(0));
    assert t.ops == map[0 := WritingUser(s.db.flag), 1 := Checking(m)];
    Three(s, Start(0, Edit), Start(1, Verify(m)), Step(0));
  }

  lemma PutsBack(s: State) returns (t: State)
    requires 0 in s.ops && s.ops[0].WritingUser?
    ensures Leads(s, t)
    ensures t.db == s.db.(flag := s.ops[0].flag) && t.ops == s.ops[0 := Done]
  {
    t := Apply(s, Step(0));
    One(s, Step(0));
  }

  /** An edit of the user that read the row before MFA was switched on puts the flag back to off. */
  lemma EditLosesFlag(m: MethodId)
    ensures var s := State(Db({}, {m}, {}, false, false), map[], []);
            Consistent(s) && exists t :: Leads(s, t) && Quiet(t) && t.db == Db({m}, {}, {}, false, true)
  {
    var s := State(Db({}, {m}, {}, false, false), map[], []);
    var s1 := EditBegins(s, m);
    var s2 := Verifies(s1, m);
    var s3 := SwitchesOn(s2);
    var s4 := PutsBack(s3);
    Onward(s, s1, s2);
    Onward(s, s2, s3);
    Onward(s, s3, s4);
    assert Quiet(s4) && s4.db == Db({m}, {}, {}, false, true);
  }
}
