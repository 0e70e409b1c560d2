/**
 * One deletion overlapping with one verification or registration of the same user, in every
 * interleaving: exactly which orders of statements leave the flag wrong.
 */
module MfaPair {
  import opened MfaOverlap

  const DELETER: OpId := 0
  const ADDER: OpId := 1

  /** Only the two operations, not begun, on consistent rows; a registration inserts a new credential. */
  predicate PairStart(s: State, d: MethodId, m: MethodId) {
    && s.log == [] && s.db.flag == HasMethod(s.db) && s.db.totp + s.db.unverified !! s.db.keys
    && s.ops.Keys == {DELETER, ADDER} && s.ops[DELETER] == Looking(d)
    && (s.ops[ADDER] == Checking(m)
        || (s.ops[ADDER] == Inserting(m) && m !in s.db.totp + s.db.unverified + s.db.keys))
  }

  predicate OnlySteps(es: seq<Event>) {
    forall e | e in es :: e.Step?
  }

  // ------------------------------------------------------------ order of the logged statements

  /** Which statements of the two operations have been executed, and which before which. */
  datatype Marks = Marks(
    wrote: bool, read: bool, on: bool, dropped: bool, counted: bool, cleared: bool,
    countedWrote: bool, wroteCleared: bool, readCleared: bool, onCleared: bool,
    clearedRead: bool, clearedOn: bool)

  predicate Is(e: Entry, what: What, op: OpId) {
    e.what == what && e.op == op
  }

  /** The operation has executed the statement. */
  predicate Did(log: seq<Entry>, what: What, op: OpId)
    decreases |log|
  {
    log != [] && (Is(log[|log| - 1], what, op) || Did(log[..|log| - 1], what, op))
  }

  /** The second statement was executed at a moment when the first had been. */
  predicate Before(log: seq<Entry>, first: What, a: OpId, second: What, b: OpId)
    decreases |log|
  {
    log != [] &&
    ((Is(log[|log| - 1], second, b) && Did(log[..|log| - 1], first, a))
     || Before(log[..|log| - 1], first, a, second, b))
  }

  function MarksOf(log: seq<Entry>): Marks {
    Marks(Did(log, Wrote, ADDER), Did(log, FlagRead, ADDER), Did(log, SwitchedOn, ADDER),
          Did(log, Dropped, DELETER), Did(log, Counted, DELETER), Did(log, Cleared, DELETER),
          Before(log, Counted, DELETER, Wrote, ADDER), Before(log, Wrote, ADDER, Cleared, DELETER),
          Before(log, FlagRead, ADDER, Cleared, DELETER), Before(log, SwitchedOn, ADDER, Cleared, DELETER),
          Before(log, Cleared, DELETER, FlagRead, ADDER), Before(log, Cleared, DELETER, SwitchedOn, ADDER))
  }

  /** The marks after one more entry. */
  function Mark(k: Marks, e: Entry): Marks {
    Marks(k.wrote || Is(e, Wrote, ADDER), k.read || Is(e, FlagRead, ADDER), k.on || Is(e, SwitchedOn, ADDER),
          k.dropped || Is(e, Dropped, DELETER), k.counted || Is(e, Counted, DELETER), k.cleared || Is(e, Cleared, DELETER),
          k.countedWrote || (Is(e, Wrote, ADDER) && k.counted), k.wroteCleared || (Is(e, Cleared, DELETER) && k.wrote),
          k.readCleared || (Is(e, Cleared, DELETER) && k.read), k.onCleared || (Is(e, Cleared, DELETER) && k.on),
          k.clearedRead || (Is(e, FlagRead, ADDER) && k.cleared), k.clearedOn || (Is(e, SwitchedOn, ADDER) && k.cleared))
  }

  lemma MarksAppend(log: seq<Entry>, e: Entry)
    ensures MarksOf(log + [e]) == Mark(MarksOf(log), e)
  {
    assert (log + [e])[..|log|] == log;
  }

  // ------------------------------------------------------------ invariant

  predicate AdderMarks(p: Pc, m: MethodId, k: Marks) {
    && (k.on ==> k.read) && (k.read ==> k.wrote)
    && (match p
        case Checking(x) => x == m && !k.wrote
        case Verifying(x) => x == m && !k.wrote
        case Inserting(x) => x == m && !k.wrote
        case ReadingFlag => k.wrote && !k.read
        case Setting => k.read && !k.on
        case Storing => k.on
        case Done => k.wrote ==> k.read
        case _ => false)
  }

  predicate DeleterMarks(p: Pc, d: MethodId, k: Marks) {
    && (k.cleared ==> k.counted) && (k.counted ==> k.dropped)
    && (match p
        case Looking(x) => x == d && !k.dropped
        case DroppingTotp(x) => x == d && !k.dropped
        case DroppingKey(x) => x == d && !k.dropped
        case Counting => k.dropped && !k.counted
        case Clearing => k.counted && !k.cleared
        case DroppingCodes => k.cleared
        case Done => k.dropped ==> k.counted
        case _ => false)
  }

  /** Consistency of the order marks. */
  predicate OrderMarks(k: Marks) {
    && (k.countedWrote ==> k.counted && k.wrote)
    && (k.wroteCleared ==> k.wrote && k.cleared)
    && (k.readCleared ==> k.wroteCleared) && (k.onCleared ==> k.readCleared)
    && (k.readCleared || k.clearedRead <==> k.read && k.cleared) && !(k.readCleared && k.clearedRead)
    && (k.onCleared || k.clearedOn <==> k.on && k.cleared) && !(k.onCleared && k.clearedOn)
  }

  predicate Holds(db: Db, m: MethodId) {
    m in db.totp || m in db.keys
  }

  predicate Somewhere(db: Db, m: MethodId) {
    m in db.totp || m in db.unverified || m in db.keys
  }

  /** Where the method being added is, and what the deletion has seen. */
  predicate Rows(db: Db, p0: Pc, p1: Pc, d: MethodId, m: MethodId, k: Marks) {
    && db.totp + db.unverified !! db.keys
    && (k.wrote && !(d == m && k.dropped) ==> Holds(db, m))
    && (p1.Inserting? ==> !Somewhere(db, m))
    && (p1.Inserting? && d == m ==> !k.dropped && !p0.DroppingTotp? && !p0.DroppingKey?)
    && (d == m && k.dropped ==> !Somewhere(db, m))
    && (p0.Clearing? ==> HasMethod(db) == k.countedWrote)
    && (d == m ==> !k.countedWrote)
    && (d == m && k.cleared ==> !HasMethod(db))
    && (d == m && k.dropped && !k.cleared && p0.Done? ==> HasMethod(db))
  }

  /** What the last write of the flag was, in terms of the order. */
  predicate Flags(p0: Pc, p1: Pc, d: MethodId, m: MethodId, k: Marks, v: Verdict) {
    && (if k.cleared && !k.clearedOn then v == Off(k.countedWrote && k.wroteCleared)
        else if k.on then v.On? && !v.writtenSince
        else v == Untouched)
    && (k.clearedRead && !k.on ==> p1.Setting?)
    && (v.On? && !v.hadMethod ==> d == m && k.dropped && (k.clearedOn || p0.Counting? || p0.Clearing?))
    && (k.clearedOn && d == m ==> v == On(false, false))
  }

  /** The part of the general invariant that speaks of the flag itself. */
  predicate FlagIs(db: Db, v: Verdict) {
    && (v.Off? ==> !db.flag)
    && (v == On(false, false) ==> !HasMethod(db))
  }

  predicate PairAt(db: Db, p0: Pc, p1: Pc, d: MethodId, m: MethodId, k: Marks, v: Verdict) {
    && AdderMarks(p1, m, k) && DeleterMarks(p0, d, k) && OrderMarks(k)
    && Rows(db, p0, p1, d, m, k) && Flags(p0, p1, d, m, k, v)
  }

  predicate Pair(s: State, d: MethodId, m: MethodId) {
    && s.ops.Keys == {DELETER, ADDER}
    && PairAt(s.db, s.ops[DELETER], s.ops[ADDER], d, m, MarksOf(s.log), LastWrite(s.log))
  }

  // ------------------------------------------------------------ preservation

  function NextMarks(k: Marks, x: Effect): Marks {
    if x.entries == [] then k else Mark(k, x.entries[0])
  }

  function NextVerdict(v: Verdict, x: Effect): Verdict {
    if x.entries == [] then v else After(v, x.entries[0])
  }

  lemma AdderWrites(db: Db, p0: Pc, p1: Pc, d: MethodId, m: MethodId, k: Marks, v: Verdict)
    requires PairAt(db, p0, p1, d, m, k, v) && (p1.Checking? || p1.Verifying? || p1.Inserting?)
    ensures var x := Execute(db, ADDER, p1);
            PairAt(x.db, p0, x.pc, d, m, NextMarks(k, x), NextVerdict(v, x))
  {
  }

  lemma AdderSwitches(db: Db, p0: Pc, p1: Pc, d: MethodId, m: MethodId, k: Marks, v: Verdict)
    requires PairAt(db, p0, p1, d, m, k, v) && FlagIs(db, v) && (p1.ReadingFlag? || p1.Setting? || p1.Storing?)
    ensures var x := Execute(db, ADDER, p1);
            PairAt(x.db, p0, x.pc, d, m, NextMarks(k, x), NextVerdict(v, x))
  {
  }

  lemma DeleterStep(db: Db, p0: Pc, p1: Pc, d: MethodId, m: MethodId, k: Marks, v: Verdict)
    requires PairAt(db, p0, p1, d, m, k, v) && FlagIs(db, v) && !p0.Done?
    ensures var x := Execute(db, DELETER, p0);
            PairAt(x.db, x.pc, p1, d, m, NextMarks(k, x), NextVerdict(v, x))
  {
  }

  lemma LogNext(s: State, op: OpId)
    requires Enabled(s, Step(op))
    ensures var x := Execute(s.db, op, s.ops[op]);
            var t := Apply(s, Step(op));
            MarksOf(t.log) == NextMarks(MarksOf(s.log), x) && LastWrite(t.log) == NextVerdict(LastWrite(s.log), x)
  {
    var x := Execute(s.db, op, s.ops[op]);
    OnlyWritesAdd(s.db, op, s.ops[op]);
    LastWriteAppend(s.log, x.entries);
    if x.entries == [] {
      assert s.log + x.entries == s.log;
    } else {
      assert x.entries == [x.entries[0]];
      MarksAppend(s.log, x.entries[0]);
    }
  }

  lemma PairStep(s: State, op: OpId, d: MethodId, m: MethodId)
    requires Pair(s, d, m) && Inv(s) && Enabled(s, Step(op))
    ensures Pair(Apply(s, Step(op)), d, m)
  {
    var k, v := MarksOf(s.log), LastWrite(s.log);
    LogNext(s, op);
    if op == ADDER {
      if s.ops[ADDER].Checking? || s.ops[ADDER].Verifying? || s.ops[ADDER].Inserting? {
        AdderWrites(s.db, s.ops[DELETER], s.ops[ADDER], d, m, k, v);
      } else {
        AdderSwitches(s.db, s.ops[DELETER], s.ops[ADDER], d, m, k, v);
      }
    } else {
      DeleterStep(s.db, s.ops[DELETER], s.ops[ADDER], d, m, k, v);
    }
  }

  lemma {:induction false} PairRun(s: State, es: seq<Event>, d: MethodId, m: MethodId)
    requires Pair(s, d, m) && Inv(s) && IsRun(s, es) && OnlySteps(es)
    ensures Pair(Final(s, es), d, m) && Inv(Final(s, es))
    decreases es
  {
    if es != [] {
      assert es[0] in es;
      PairStep(s, es[0].op, d, m);
      One(s, es[0]);
      RunKeeps(s, [es[0]]);
      PairRun(Apply(s, es[0]), es[1..], d, m);
    }
  }

  /**
   * Main result for two operations. In every interleaving of a deletion and a verification or
   * registration, the flag ends up wrong if and only if
   * either the deletion counts no method before the other writes its row, and clears the flag
   * after the other's last access to it,
   * or both are about the same method and the clearing comes before the switching on.
   */
  lemma PairWrongExactly(s: State, es: seq<Event>, d: MethodId, m: MethodId)
    requires PairStart(s, d, m) && IsRun(s, es) && OnlySteps(es) && Quiet(Final(s, es))
    ensures var t := Final(s, es);
            t.db.flag != HasMethod(t.db) <==>
            || (&& Before(t.log, Counted, DELETER, Wrote, ADDER)
                && if Did(t.log, SwitchedOn, ADDER) then Before(t.log, SwitchedOn, ADDER, Cleared, DELETER)
                   else Before(t.log, FlagRead, ADDER, Cleared, DELETER))
            || (d == m && Before(t.log, Cleared, DELETER, SwitchedOn, ADDER))
  {
    assert Inv(s);
    PairRun(s, es, d, m);
  }
}
