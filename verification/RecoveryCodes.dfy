/**
 * One-time recovery codes: how a code is written and recognised, and validations racing each
 * other and regenerations at the level of single SQL statements.
 */
module RecoveryCodes {
  import opened Sets
  import opened Wrappers

  type UserId = nat
  type CodeId = nat
  type BatchId = nat
  type ValidationId = nat

  const BATCH_SIZE := 8

  /** bcrypt, taken as injective. */
  datatype CodeHash = CodeHash(text: string)

  datatype CodeRow = CodeRow(user: UserId, hash: CodeHash, used: bool)

  // ------------------------------------------------------------ spelling

  function LowerChar(c: char): char {
    if 'A' <= c <= 'Z' then (c as int + 32) as char else c
  }

  function ToLower(s: string): string {
    if s == "" then "" else [LowerChar(s[0])] + ToLower(s[1..])
  }

  function WithoutDashes(s: string): string {
    if s == "" then "" else (if s[0] == '-' then "" else [s[0]]) + WithoutDashes(s[1..])
  }

  predicate IsSpace(c: char) {
    c == ' ' || c == '\t' || c == '\n' || c == '\r'
  }

  function TrimLeft(s: string): string {
    if s != "" && IsSpace(s[0]) then TrimLeft(s[1..]) else s
  }

  function TrimRight(s: string): string {
    if s != "" && IsSpace(s[|s| - 1]) then TrimRight(s[..|s| - 1]) else s
  }

  /** What is hashed when a code is generated. */
  function Stored(code: string): string {
    WithoutDashes(ToLower(code))
  }

  /** What is compared when a code is typed in. */
  function Typed(code: string): string {
    WithoutDashes(ToLower(TrimRight(TrimLeft(code))))
  }

  /** The displayed form of eight random characters. */
  function Display(raw: string): string
    requires |raw| == 8
  {
    raw[..4] + "-" + raw[4..]
  }

  lemma {:induction false} ToLowerConcat(a: string, b: string)
    ensures ToLower(a + b) == ToLower(a) + ToLower(b)
  {
    if a == "" {
      assert a + b == b;
    } else {
      assert (a + b)[1..] == a[1..] + b;
      ToLowerConcat(a[1..], b);
    }
  }

  lemma {:induction false} WithoutDashesConcat(a: string, b: string)
    ensures WithoutDashes(a + b) == WithoutDashes(a) + WithoutDashes(b)
  {
    if a == "" {
      assert a + b == b;
    } else {
      assert (a + b)[1..] == a[1..] + b;
      WithoutDashesConcat(a[1..], b);
    }
  }

  predicate AllSpace(s: string) {
    forall c | c in s :: IsSpace(c)
  }

  lemma {:induction false} TrimLeftDrops(pad: string, s: string)
    requires AllSpace(pad) && (s != "" ==> !IsSpace(s[0]))
    ensures TrimLeft(pad + s) == s
    decreases |pad|
  {
    if pad == "" {
      assert pad + s == s;
    } else {
      assert (pad + s)[1..] == pad[1..] + s;
      TrimLeftDrops(pad[1..], s);
    }
  }

  lemma {:induction false} TrimRightDrops(s: string, pad: string)
    requires AllSpace(pad) && (s != "" ==> !IsSpace(s[|s| - 1]))
    ensures TrimRight(s + pad) == s
    decreases |pad|
  {
    if pad == "" {
      assert s + pad == s;
    } else {
      assert (s + pad)[..|s + pad| - 1] == s + pad[..|pad| - 1];
      TrimRightDrops(s, pad[..|pad| - 1]);
    }
  }

  /** Differs from the code only in letter case. */
  predicate SameLetters(a: string, b: string) {
    ToLower(a) == ToLower(b)
  }

  /**
   * A displayed code is recognised however it is typed in: in any letter case, with blanks
   * around it, and with its dash kept, left out or put anywhere else.
   */
  lemma TypedCodeRecognised(raw: string, left: string, a: string, b: string, dash: string, right: string)
    requires |raw| == 8
    requires SameLetters(a + b, raw) && a != "" && b != ""
    requires !IsSpace(a[0]) && !IsSpace(b[|b| - 1])
    requires AllSpace(left) && AllSpace(right) && (dash == "" || dash == "-")
    ensures Typed(left + (a + dash + b) + right) == Stored(Display(raw))
  {
    var body := a + dash + b;
    assert left + body + right == left + (body + right);
    assert (body + right)[0] == a[0] && body[|body| - 1] == b[|b| - 1];
    TrimLeftDrops(left, body + right);
    TrimRightDrops(body, right);
    DashIgnored(a, dash, b);
    DashIgnored(raw[..4], "-", raw[4..]);
    assert raw == raw[..4] + raw[4..];
  }

  lemma StoredConcat(a: string, b: string)
    ensures Stored(a + b) == Stored(a) + Stored(b)
  {
    ToLowerConcat(a, b);
    WithoutDashesConcat(ToLower(a), ToLower(b));
  }

  lemma StoredDash()
    ensures Stored("-") == "" && Stored("") == ""
  {
    assert ToLower("-") == "-" + ToLower("");
  }

  lemma DashIgnored(a: string, dash: string, b: string)
    requires dash == "" || dash == "-"
    ensures Stored(a + dash + b) == Stored(a + b)
  {
    StoredConcat(a + dash, b);
    StoredConcat(a, dash);
    StoredConcat(a, b);
    StoredDash();
  }

  /** Lower case, without dashes, and without blanks at the ends. */
  predicate IsNormal(s: string) {
    && (forall c | c in s :: !('A' <= c <= 'Z') && c != '-')
    && (s != "" ==> !IsSpace(s[0]) && !IsSpace(s[|s| - 1]))
  }

  lemma {:induction false} LowerStays(s: string)
    requires forall c | c in s :: !('A' <= c <= 'Z') && c != '-'
    ensures ToLower(s) == s && WithoutDashes(s) == s
  {
    if s != "" {
      assert forall c | c in s[1..] :: c in s;
      LowerStays(s[1..]);
      assert [s[0]] + s[1..] == s;
      assert s[0] in s;
    }
  }

  /**
   * What is compared is the code itself: a text in normal form stands for itself, so that two
   * different codes are never taken for each other; and the displayed dash does not count.
   */
  lemma NormalFormStays(s: string)
    requires IsNormal(s)
    ensures Typed(s) == s && Stored(s) == s
    ensures |s| == 8 ==> Stored(Display(s)) == s
  {
    LowerStays(s);
    if |s| == 8 {
      DashIgnored(s[..4], "-", s[4..]);
      assert s[..4] + s[4..] == s;
    }
  }

  /** Of codes in normal form exactly the displayed one is recognised. */
  lemma OnlyThatCodeRecognised(raw: string, typed: string)
    requires IsNormal(raw) && |raw| == 8 && IsNormal(typed)
    ensures Typed(typed) == Stored(Display(raw)) <==> typed == raw
  {
    NormalFormStays(raw);
    NormalFormStays(typed);
  }

  // ------------------------------------------------------------ racing validations

  /** A validation that has listed the unused codes, and how it ended. */
  datatype Validation =
    | Listed(candidate: Option<CodeId>)
    | Accepted(id: CodeId)
    | Rejected

  /**
   * `batch` says which batch every code ever inserted belongs to and `inserted` how many codes a
   * batch has so far; `marked` are the codes whose conditional update has hit a row.
   */
  datatype State = State(
    rows: map<CodeId, CodeRow>, validations: map<ValidationId, Validation>,
    batch: map<CodeId, BatchId>, inserted: map<BatchId, (UserId, nat)>, marked: set<CodeId>)

  datatype Event =
    | List(v: ValidationId, user: UserId, typed: string, candidate: Option<CodeId>)
    | Mark(v: ValidationId)
    | StartBatch(b: BatchId, user: UserId)
    | InsertCode(b: BatchId, id: CodeId, hash: CodeHash)
    | DeleteAll(user: UserId)

  predicate Matches(rows: map<CodeId, CodeRow>, id: CodeId, user: UserId, typed: string) {
    id in rows && rows[id].user == user && !rows[id].used && rows[id].hash == CodeHash(Typed(typed))
  }

  ghost predicate Enabled(s: State, e: Event) {
    match e
    case List(v, user, typed, candidate) =>
      v !in s.validations
      && (match candidate
          case Some(id) => Matches(s.rows, id, user, typed)
          case None => forall id :: !Matches(s.rows, id, user, typed))
    case Mark(v) => v in s.validations && s.validations[v].Listed?
    case StartBatch(b, _) => b !in s.inserted
    case InsertCode(b, id, _) => b in s.inserted && s.inserted[b].1 < BATCH_SIZE && id !in s.batch
    case DeleteAll(_) => true
  }

  function Keep(rows: map<CodeId, CodeRow>, user: UserId): map<CodeId, CodeRow> {
    map id | id in rows && rows[id].user != user :: rows[id]
  }

  ghost function Apply(s: State, e: Event): State
    requires Enabled(s, e)
  {
    match e
    case List(v, _, _, candidate) => s.(validations := s.validations[v := Listed(candidate)])
    case Mark(v) =>
      (match s.validations[v].candidate
       case None => s.(validations := s.validations[v := Rejected])
       case Some(id) =>
         if id in s.rows && !s.rows[id].used
         then s.(rows := s.rows[id := s.rows[id].(used := true)],
                 validations := s.validations[v := Accepted(id)], marked := s.marked + {id})
         else s.(validations := s.validations[v := Rejected]))
    case StartBatch(b, user) => s.(rows := Keep(s.rows, user), inserted := s.inserted[b := (user, 0)])
    case InsertCode(b, id, hash) =>
      s.(rows := s.rows[id := CodeRow(s.inserted[b].0, hash, false)],
         batch := s.batch[id := b],
         inserted := s.inserted[b := (s.inserted[b].0, s.inserted[b].1 + 1)])
    case DeleteAll(user) => s.(rows := Keep(s.rows, user))
  }

  ghost predicate IsRun(s: State, es: seq<Event>)
    decreases es
  {
    es == [] || (Enabled(s, es[0]) && IsRun(Apply(s, es[0]), es[1..]))
  }

  ghost function Final(s: State, es: seq<Event>): State
    requires IsRun(s, es)
    decreases es
  {
    if es == [] then s else Final(Apply(s, es[0]), es[1..])
  }

  const EMPTY := State(map[], map[], map[], map[], {})

  function Successes(s: State): set<ValidationId> {
    set v | v in s.validations && s.validations[v].Accepted?
  }

  /** The codes of a batch. */
  function CodesOf(s: State, b: BatchId): set<CodeId> {
    set id | id in s.batch && s.batch[id] == b
  }

  function SuccessesOf(s: State, b: BatchId): set<ValidationId> {
    set v | v in s.validations && s.validations[v].Accepted? && s.validations[v].id in s.batch
            && s.batch[s.validations[v].id] == b
  }

  ghost predicate Inv(s: State) {
    && (forall id | id in s.rows :: id in s.batch)
    && (forall id | id in s.rows :: s.rows[id].used <==> id in s.marked)
    && (forall id | id in s.marked :: id in s.batch)
    && (forall v | v in s.validations && s.validations[v].Accepted? :: s.validations[v].id in s.marked)
    && (forall v, w | v in s.validations && w in s.validations && s.validations[v].Accepted?
                      && s.validations[w].Accepted? && s.validations[v].id == s.validations[w].id :: v == w)
    && |Successes(s)| == |s.marked|
    && (forall v | v in s.validations && s.validations[v].Listed? && s.validations[v].candidate.Some? ::
          s.validations[v].candidate.value in s.batch)
  }

  ghost predicate BatchesBounded(s: State) {
    && (forall id | id in s.batch :: s.batch[id] in s.inserted)
    && (forall b | b in s.inserted :: |CodesOf(s, b)| == s.inserted[b].1 <= BATCH_SIZE)
  }

  lemma AcceptKeeps(s: State, t: State, v: ValidationId, id: CodeId)
    requires Inv(s) && v in s.validations && s.validations[v].Listed?
    requires id in s.rows && !s.rows[id].used
    requires t == s.(rows := s.rows[id := s.rows[id].(used := true)],
                     validations := s.validations[v := Accepted(id)], marked := s.marked + {id})
    requires Successes(t) == Successes(s) + {v}
    ensures Inv(t)
  {
  }

  lemma RejectKeeps(s: State, v: ValidationId)
    requires Inv(s) && v in s.validations && s.validations[v].Listed?
    ensures Inv(s.(validations := s.validations[v := Rejected]))
  {
    assert Successes(s.(validations := s.validations[v := Rejected])) == Successes(s);
  }

  lemma MarkKeeps(s: State, v: ValidationId)
    requires Inv(s) && Enabled(s, Mark(v))
    ensures Inv(Apply(s, Mark(v)))
  {
    var t := Apply(s, Mark(v));
    if t.validations[v].Accepted? {
      assert Successes(t) == Successes(s) + {v};
      AcceptKeeps(s, t, v, t.validations[v].id);
    } else {
      RejectKeeps(s, v);
    }
  }

  lemma StepKeeps(s: State, e: Event)
    requires Inv(s) && Enabled(s, e)
    ensures Inv(Apply(s, e))
  {
    var t := Apply(s, e);
    if e.Mark? {
      MarkKeeps(s, e.v);
    } else {
      assert Successes(t) == Successes(s);
    }
  }

  lemma InsertKeepsBatches(s: State, e: Event)
    requires BatchesBounded(s) && Enabled(s, e) && e.InsertCode?
    ensures BatchesBounded(Apply(s, e))
  {
    var t := Apply(s, e);
    assert CodesOf(t, e.b) == CodesOf(s, e.b) + {e.id};
    forall b | b != e.b
      ensures CodesOf(t, b) == CodesOf(s, b)
    {
    }
    forall b | b in t.inserted
      ensures |CodesOf(t, b)| == t.inserted[b].1 <= BATCH_SIZE
    {
      assert |CodesOf(s, b)| == s.inserted[b].1 <= BATCH_SIZE;
    }
  }

  lemma StepKeepsBatches(s: State, e: Event)
    requires BatchesBounded(s) && Enabled(s, e)
    ensures BatchesBounded(Apply(s, e))
  {
    if e.InsertCode? {
      InsertKeepsBatches(s, e);
    } else {
      var t := Apply(s, e);
      assert t.batch == s.batch;
      assert forall b :: CodesOf(t, b) == CodesOf(s, b);
      if e.StartBatch? {
        assert CodesOf(t, e.b) == {};
      }
    }
  }

  lemma {:induction false} RunKeeps(s: State, es: seq<Event>)
    requires Inv(s) && BatchesBounded(s) && IsRun(s, es)
    ensures Inv(Final(s, es)) && BatchesBounded(Final(s, es))
    decreases es
  {
    if es != [] {
      StepKeeps(s, es[0]);
      StepKeepsBatches(s, es[0]);
      RunKeeps(Apply(s, es[0]), es[1..]);
    }
  }

  /**
   * Main result. However validations, regenerations and resets interleave, a code is accepted
   * at most once, a row of the table is marked used exactly if a validation was accepted with
   * it, and the updates that hit a row are as many as the successes.
   */
  lemma EachCodeOnce(es: seq<Event>)
    requires IsRun(EMPTY, es)
    ensures var t := Final(EMPTY, es);
            && (forall v, w | v in Successes(t) && w in Successes(t) && t.validations[v].id == t.validations[w].id :: v == w)
            && (forall id | id in t.rows :: t.rows[id].used <==> exists v :: v in Successes(t) && t.validations[v].id == id)
            && |Successes(t)| == |t.marked|
  {
    assert Successes(EMPTY) == {};
    RunKeeps(EMPTY, es);
    var t := Final(EMPTY, es);
    MarkedHaveSuccess(t);
  }

  /** Equally many successes as marked codes, none sharing a code: every marked code has its success. */
  lemma MarkedHaveSuccess(t: State)
    requires Inv(t)
    ensures forall id | id in t.marked :: exists v :: v in Successes(t) && t.validations[v].id == id
  {
    var used := set v | v in Successes(t) :: t.validations[v].id;
    ImageSize(t, Successes(t), used);
    assert used <= t.marked;
    SubsetSize(used, t.marked);
  }

  lemma {:induction false} ImageSize(t: State, vs: set<ValidationId>, ids: set<CodeId>)
    requires vs <= Successes(t)
    requires forall v, w | v in Successes(t) && w in Successes(t) && t.validations[v].id == t.validations[w].id :: v == w
    requires ids == set v | v in vs :: t.validations[v].id
    ensures |vs| == |ids|
    decreases vs
  {
    if vs != {} {
      var v :| v in vs;
      var id := t.validations[v].id;
      assert forall w | w in vs - {v} :: t.validations[w].id != id;
      ImageSize(t, vs - {v}, ids - {id});
    }
  }

  /** One batch of codes allows at most eight successful validations. */
  lemma AtMostEightPerBatch(es: seq<Event>, b: BatchId)
    requires IsRun(EMPTY, es) && b in Final(EMPTY, es).inserted
    ensures |SuccessesOf(Final(EMPTY, es), b)| <= 8
  {
    assert Successes(EMPTY) == {};
    RunKeeps(EMPTY, es);
    var t := Final(EMPTY, es);
    var ids := set v | v in SuccessesOf(t, b) :: t.validations[v].id;
    ImageSize(t, SuccessesOf(t, b), ids);
    assert ids <= CodesOf(t, b);
    SubsetSize(ids, CodesOf(t, b));
  }
}
