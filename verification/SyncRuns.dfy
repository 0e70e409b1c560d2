/** The offline queue over every interleaving of enqueues and drains at its suspension points. */
module SyncRuns {
  import opened SyncQueue

  type DrainId = nat

  /** A drain that has passed its guard: what it still wants to try, and whether it has stopped. */
  datatype Drainer = Drainer(todo: seq<ActionId>, stopped: bool)

  /**
   * Actions are numbered in the order they are queued. `finished` lists those synced or dropped
   * in the order that happened, `attempts` counts the attempts at each.
   */
  datatype State = State(
    q: Queue, drains: map<DrainId, Drainer>, kinds: seq<Kind>, finished: seq<ActionId>, attempts: seq<nat>)

  datatype Event =
    | Enqueue(kind: Kind)
    | Begin(d: DrainId)
    | TryNext(d: DrainId, reply: Reply)
    | Finish(d: DrainId)

  predicate Enabled(s: State, e: Event) {
    match e
    case Enqueue(_) => true
    case Begin(d) => d !in s.drains
    case TryNext(d, _) =>
      d in s.drains && !s.drains[d].stopped && s.drains[d].todo != []
      && s.drains[d].todo[0] < |s.kinds| && s.drains[d].todo[0] < |s.attempts|
    case Finish(d) => d in s.drains && (s.drains[d].stopped || s.drains[d].todo == [])
  }

  predicate IsSynced(store: seq<Action>, id: ActionId) {
    exists i | 0 <= i < |store| :: store[i].id == id && store[i].synced
  }

  function Apply(s: State, e: Event): State
    requires Enabled(s, e)
  {
    match e
    case Enqueue(kind) =>
      s.(q := DoEnqueue(s.q, |s.kinds|, kind), kinds := s.kinds + [kind], attempts := s.attempts + [0])
    case Begin(d) =>
      var q := DoBegin(s.q);
      if !s.q.isSyncing && q.isSyncing
      then s.(q := q, drains := s.drains[d := Drainer(Ids(Unsynced(s.q.store)), false)])
      else s.(q := q)
    case TryNext(d, reply) =>
      var id := s.drains[d].todo[0];
      var ok := Succeeds(s.kinds[id], reply);
      var q := DoAttempt(s.q, id, ok);
      s.(q := q,
         drains := s.drains[d := if ok then Drainer(s.drains[d].todo[1..], false)
                                 else s.drains[d].(stopped := true)],
         finished := if IsSynced(q.store, id) then s.finished + [id] else s.finished,
         attempts := s.attempts[id := s.attempts[id] + 1])
    case Finish(d) => s.(q := DoFinish(s.q), drains := s.drains - {d})
  }

  predicate IsRun(s: State, es: seq<Event>)
    decreases es
  {
    es == [] || (Enabled(s, es[0]) && IsRun(Apply(s, es[0]), es[1..]))
  }

  function Final(s: State, es: seq<Event>): State
    requires IsRun(s, es)
    decreases es
  {
    if es == [] then s else Final(Apply(s, es[0]), es[1..])
  }

  const EMPTY := State(Queue([], false, 0), map[], [], [], [])

  // ------------------------------------------------------------ invariant

  /** The number of the oldest row of the table. */
  function Oldest(s: State): int {
    |s.kinds| - |s.q.store|
  }

  /** The table holds consecutive actions, the finished ones first. */
  ghost predicate StoreSound(s: State) {
    && |s.attempts| == |s.kinds|
    && 0 <= Oldest(s) <= |s.finished| <= |s.kinds|
    && (forall i | 0 <= i < |s.finished| :: s.finished[i] == i)
    && (forall i | 0 <= i < |s.q.store| :: s.q.store[i].id == Oldest(s) + i)
    && (forall i | 0 <= i < |s.q.store| :: s.q.store[i].synced <==> s.q.store[i].id < |s.finished|)
    && s.q.pendingCount == |s.q.store|
  }

  ghost predicate RetriesSound(s: State) {
    && |s.attempts| == |s.kinds|
    && (forall a | a in s.q.store && !a.synced :: a.id < |s.attempts| && a.retries == s.attempts[a.id])
    && (forall id | 0 <= id < |s.attempts| ::
          if id < |s.finished| then 1 <= s.attempts[id] <= MAX_RETRIES
          else if id == |s.finished| then s.attempts[id] < MAX_RETRIES
          else s.attempts[id] == 0)
  }

  ghost predicate DrainsSound(s: State) {
    && (forall d, e | d in s.drains && e in s.drains :: d == e)
    && (s.q.isSyncing <==> s.drains != map[])
    && (s.drains == map[] ==> Oldest(s) == |s.finished|)
    && (forall d | d in s.drains && !s.drains[d].stopped ::
          && |s.finished| + |s.drains[d].todo| <= |s.kinds|
          && forall i | 0 <= i < |s.drains[d].todo| :: s.drains[d].todo[i] == |s.finished| + i)
  }

  ghost predicate Inv(s: State) {
    StoreSound(s) && RetriesSound(s) && DrainsSound(s)
  }

  lemma {:induction false} UnsyncedSuffix(store: seq<Action>, k: nat)
    requires k <= |store|
    requires forall i | 0 <= i < |store| :: store[i].synced <==> i < k
    ensures Unsynced(store) == store[k..]
    decreases store
  {
    if store != [] {
      if k > 0 {
        UnsyncedSuffix(store[1..], k - 1);
      } else {
        UnsyncedSuffix(store[1..], 0);
        assert store == [store[0]] + store[1..];
      }
    }
  }

  lemma UnsyncedHere(s: State)
    requires StoreSound(s)
    ensures Unsynced(s.q.store) == s.q.store[|s.finished| - Oldest(s)..]
  {
    UnsyncedSuffix(s.q.store, |s.finished| - Oldest(s));
  }

  lemma EnqueueKeeps(s: State, kind: Kind)
    requires Inv(s)
    ensures Inv(Apply(s, Enqueue(kind)))
  {
    var t := Apply(s, Enqueue(kind));
    assert t.q.store == s.q.store + [Action(|s.kinds|, kind, 0, false)];
  }

  lemma BeginKeeps(s: State, d: DrainId)
    requires Inv(s) && Enabled(s, Begin(d))
    ensures Inv(Apply(s, Begin(d)))
  {
    if !s.q.isSyncing {
      UnsyncedHere(s);
      var store := s.q.store;
      assert store[0..] == store;
      assert Unsynced(store) == store;
      var t := Apply(s, Begin(d));
      assert t.q.store == store && t.q.pendingCount == |store|;
      if store != [] {
        assert t.drains == map[d := Drainer(Ids(store), false)];
      }
    }
  }

  lemma TryKeepsStore(s: State, d: DrainId, reply: Reply)
    requires Inv(s) && Enabled(s, TryNext(d, reply))
    ensures StoreSound(Apply(s, TryNext(d, reply)))
    ensures s.drains[d].todo[0] == |s.finished| < |s.kinds|
    ensures var t := Apply(s, TryNext(d, reply));
            t.finished == s.finished || t.finished == s.finished + [|s.finished|]
    ensures var row := s.q.store[|s.finished| - Oldest(s)];
            |Apply(s, TryNext(d, reply)).finished| > |s.finished| <==>
              Attempted(row, Succeeds(s.kinds[|s.finished|], reply)).synced
  {
    var t := Apply(s, TryNext(d, reply));
    var id := s.drains[d].todo[0];
    var at := id - Oldest(s);
    assert s.q.store[at].id == id;
    assert forall i | 0 <= i < |s.q.store| && i != at :: t.q.store[i] == s.q.store[i];
    assert IsSynced(t.q.store, id) <==> t.q.store[at].synced;
  }

  lemma TryKeepsRetries(s: State, d: DrainId, reply: Reply)
    requires Inv(s) && Enabled(s, TryNext(d, reply))
    ensures RetriesSound(Apply(s, TryNext(d, reply)))
  {
    var t := Apply(s, TryNext(d, reply));
    TryKeepsStore(s, d, reply);
    assert s.q.store[|s.finished| - Oldest(s)] in s.q.store;
    forall a | a in t.q.store && !a.synced
      ensures a.id < |t.attempts| && a.retries == t.attempts[a.id]
    {
      var i :| 0 <= i < |t.q.store| && t.q.store[i] == a;
      assert s.q.store[i] in s.q.store;
    }
  }

  lemma TryKeeps(s: State, d: DrainId, reply: Reply)
    requires Inv(s) && Enabled(s, TryNext(d, reply))
    ensures Inv(Apply(s, TryNext(d, reply)))
  {
    TryKeepsStore(s, d, reply);
    TryKeepsRetries(s, d, reply);
  }

  lemma FinishKeeps(s: State, d: DrainId)
    requires Inv(s) && Enabled(s, Finish(d))
    ensures Inv(Apply(s, Finish(d)))
  {
    UnsyncedHere(s);
    var t := Apply(s, Finish(d));
    assert t.drains == map[];
    assert forall a | a in t.q.store :: a in s.q.store;
  }

  lemma {:induction false} RunKeeps(s: State, es: seq<Event>)
    requires Inv(s) && IsRun(s, es)
    ensures Inv(Final(s, es))
    decreases es
  {
    if es != [] {
      match es[0] {
        case Enqueue(kind) => EnqueueKeeps(s, kind);
        case Begin(d) => BeginKeeps(s, d);
        case TryNext(d, reply) => TryKeeps(s, d, reply);
        case Finish(d) => FinishKeeps(s, d);
      }
      RunKeeps(Apply(s, es[0]), es[1..]);
    }
  }

  // ------------------------------------------------------------ results

  /**
   * Main result, for every interleaving of enqueues and drains. At most one drain is active.
   * Actions are finished in exactly the order they were queued, and none is lost: the finished
   * ones followed by the unsynced rows are all that were ever queued.
   */
  lemma DrainedInOrder(es: seq<Event>)
    requires IsRun(EMPTY, es)
    ensures var t := Final(EMPTY, es);
            && (forall d, e | d in t.drains && e in t.drains :: d == e)
            && (forall i | 0 <= i < |t.finished| :: t.finished[i] == i)
            && |t.finished| + |Unsynced(t.q.store)| == |t.kinds|
            && (forall i | 0 <= i < |Unsynced(t.q.store)| :: Unsynced(t.q.store)[i].id == |t.finished| + i)
  {
    RunKeeps(EMPTY, es);
    UnsyncedHere(Final(EMPTY, es));
  }

  /** No action is attempted more than three times; only the oldest remaining one can have been tried at all. */
  lemma AtMostThreeAttempts(es: seq<Event>)
    requires IsRun(EMPTY, es)
    ensures var t := Final(EMPTY, es);
            && (forall id | 0 <= id < |t.attempts| :: t.attempts[id] <= MAX_RETRIES)
            && (forall i | 0 <= i < |Unsynced(t.q.store)| ::
                  Unsynced(t.q.store)[i].retries < MAX_RETRIES && (i > 0 ==> Unsynced(t.q.store)[i].retries == 0))
  {
    RunKeeps(EMPTY, es);
    var t := Final(EMPTY, es);
    UnsyncedHere(t);
    forall i | 0 <= i < |Unsynced(t.q.store)|
      ensures Unsynced(t.q.store)[i].retries < MAX_RETRIES && (i > 0 ==> Unsynced(t.q.store)[i].retries == 0)
    {
      assert Unsynced(t.q.store)[i] in Unsynced(t.q.store);
    }
  }

  /** The pending count is the number of stored rows always, and of unsynced actions whenever no drain is active. */
  lemma PendingCountExact(es: seq<Event>)
    requires IsRun(EMPTY, es)
    ensures var t := Final(EMPTY, es);
            && t.q.pendingCount == |t.q.store|
            && (!t.q.isSyncing ==> t.q.pendingCount == |Unsynced(t.q.store)|)
  {
    RunKeeps(EMPTY, es);
    UnsyncedHere(Final(EMPTY, es));
  }

  /**
   * In every run an attempt is at the oldest unfinished action, and it finishes that action unless
   * it fails, which only a replayed kind can, for the first or second time. So an action goes
   * because it was done, because the server won a conflict, or after its third failure.
   */
  lemma AttemptFinishesExactly(es: seq<Event>, d: DrainId, reply: Reply)
    requires IsRun(EMPTY, es) && Enabled(Final(EMPTY, es), TryNext(d, reply))
    ensures var t := Final(EMPTY, es);
            var id := t.drains[d].todo[0];
            var fails := t.kinds[id] in {CreateDrawing, UpdateProfile, UpdateMarker} && reply == Failed;
            && id == |t.finished|
            && Apply(t, TryNext(d, reply)).finished ==
                 if fails && t.attempts[id] < 2 then t.finished else t.finished + [id]
  {
    RunKeeps(EMPTY, es);
    var t := Final(EMPTY, es);
    TryKeepsStore(t, d, reply);
    assert t.q.store[|t.finished| - Oldest(t)] in t.q.store;
  }
}
