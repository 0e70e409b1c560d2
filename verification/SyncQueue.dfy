/**
 * The offline action queue: actions are drained in the order they were queued, a failed one
 * stops the drain and is retried by the next, and after three failures it is dropped.
 */
module SyncQueue {

  const MAX_RETRIES := 3

  type ActionId = nat

  datatype Kind =
    | SendMessage | CreateDrawing | UpdateDrawing | DeleteDrawing | ShareDrawing
    | UpdateProfile | UpdateMarker | Unknown

  datatype Action = Action(id: ActionId, kind: Kind, retries: nat, synced: bool)

  /** The server's answer, should the action be sent to it. */
  datatype Reply = Accepted | Conflict | Failed

  /** Conflicts are won by the server; kinds that have no replay yet count as done. */
  predicate Succeeds(kind: Kind, reply: Reply) {
    (kind.CreateDrawing? || kind.UpdateProfile? || kind.UpdateMarker?) ==> !reply.Failed?
  }

  /** The action table in creation order, with the manager's own fields. */
  datatype Queue = Queue(store: seq<Action>, isSyncing: bool, pendingCount: int)

  function Unsynced(store: seq<Action>): (r: seq<Action>)
    ensures |r| <= |store|
    ensures forall a | a in r :: a in store && !a.synced
  {
    if store == [] then []
    else if store[0].synced then Unsynced(store[1..])
    else [store[0]] + Unsynced(store[1..])
  }

  function Ids(actions: seq<Action>): (r: seq<ActionId>)
    ensures |r| == |actions| && forall i | 0 <= i < |r| :: r[i] == actions[i].id
  {
    seq(|actions|, i requires 0 <= i < |actions| => actions[i].id)
  }

  function Attempted(a: Action, ok: bool): Action {
    if ok then a.(synced := true)
    else a.(retries := a.retries + 1, synced := a.retries + 1 >= MAX_RETRIES)
  }

  /** The table after an attempt at one action. */
  function Attempt(store: seq<Action>, id: ActionId, ok: bool): (r: seq<Action>)
    ensures |r| == |store|
    ensures forall i | 0 <= i < |r| :: r[i] == if store[i].id == id then Attempted(store[i], ok) else store[i]
  {
    seq(|store|, i requires 0 <= i < |store| => if store[i].id == id then Attempted(store[i], ok) else store[i])
  }

  function DoEnqueue(q: Queue, id: ActionId, kind: Kind): Queue {
    q.(store := q.store + [Action(id, kind, 0, false)], pendingCount := q.pendingCount + 1)
  }

  function DoBegin(q: Queue): Queue {
    if q.isSyncing then q
    else if Unsynced(q.store) == [] then q.(pendingCount := 0)
    else q.(isSyncing := true)
  }

  function DoAttempt(q: Queue, id: ActionId, ok: bool): Queue {
    q.(store := Attempt(q.store, id, ok))
  }

  function DoFinish(q: Queue): Queue {
    Queue(Unsynced(q.store), false, |Unsynced(q.store)|)
  }

  /** What one undisturbed drain leaves of the actions, given the answers it would get. */
  function Drain(actions: seq<Action>, replies: seq<Reply>): seq<Action>
    requires |replies| >= |actions|
    decreases actions
  {
    if actions == [] then []
    else
      var a := actions[0];
      if Succeeds(a.kind, replies[0]) then Drain(actions[1..], replies[1..])
      else if a.retries + 1 >= MAX_RETRIES then actions[1..]
      else [a.(retries := a.retries + 1)] + actions[1..]
  }

  lemma DrainStep(a: Action, rest: seq<Action>, replies: seq<Reply>)
    requires !a.synced && |replies| > |rest|
    ensures Drain([a] + rest, replies) ==
            if Succeeds(a.kind, replies[0]) then Drain(rest, replies[1..])
            else if Attempted(a, false).synced then rest
            else [Attempted(a, false)] + rest
  {
    var actions := [a] + rest;
    assert actions[0] == a && actions[1..] == rest;
  }

  predicate UniqueIds(store: seq<Action>) {
    forall i, j | 0 <= i < j < |store| :: store[i].id != store[j].id
  }

  /** An attempt at the oldest unsynced action changes that action only. */
  lemma {:induction false} AttemptOldest(store: seq<Action>, a: Action, rest: seq<Action>, ok: bool)
    requires UniqueIds(store) && Unsynced(store) == [a] + rest
    ensures Unsynced(Attempt(store, a.id, ok)) ==
            if Attempted(a, ok).synced then rest else [Attempted(a, ok)] + rest
    ensures UniqueIds(Attempt(store, a.id, ok))
    decreases store
  {
    var t := Attempt(store, a.id, ok);
    var tail := store[1..];
    if store[0].synced {
      assert a in store;
      assert store[0].id != a.id;
      assert t[1..] == Attempt(tail, a.id, ok);
      AttemptOldest(tail, a, rest, ok);
    } else {
      assert ([a] + rest)[0] == a && ([a] + rest)[1..] == rest;
      assert Unsynced(store)[0] == store[0] && Unsynced(store)[1..] == Unsynced(tail);
      assert t[1..] == tail;
    }
  }

  class SyncManager {
    var store: seq<Action>
    var isSyncing: bool
    var pendingCount: int

    constructor ()
      ensures View() == Queue([], false, 0)
    {
      store, isSyncing, pendingCount := [], false, 0;
    }

    function View(): Queue
      reads this
    {
      Queue(store, isSyncing, pendingCount)
    }

    method Enqueue(id: ActionId, kind: Kind)
      modifies this`store, this`pendingCount
      ensures View() == DoEnqueue(old(View()), id, kind)
    {
      store := store + [Action(id, kind, 0, false)];
      pendingCount := pendingCount + 1;
    }

    method FetchUnsynced() returns (actions: seq<Action>)
      ensures actions == Unsynced(store)
    {
      actions := [];
      for i := 0 to |store|
        invariant Unsynced(store) == actions + Unsynced(store[i..])
      {
        assert store[i..][1..] == store[i + 1..];
        if !store[i].synced {
          actions := actions + [store[i]];
        }
      }
      assert store[|store|..] == [];
    }

    /** The part before the first await. Nothing to do is an empty list. */
    method Begin() returns (actions: seq<Action>)
      modifies this`isSyncing, this`pendingCount
      ensures View() == DoBegin(old(View()))
      ensures actions == if old(isSyncing) then [] else Unsynced(store)
    {
      if isSyncing {
        return [];
      }
      isSyncing := true;
      actions := FetchUnsynced();
      if actions == [] {
        isSyncing := false;
        pendingCount := 0;
      }
    }

    /** The outcome of one attempt is stored; `goOn` unless it failed. */
    method Record(action: Action, ok: bool) returns (goOn: bool)
      modifies this`store
      ensures View() == DoAttempt(old(View()), action.id, ok)
      ensures goOn == ok
    {
      store := Attempt(store, action.id, ok);
      goOn := ok;
    }

    /** Cleanup of synced rows and the new count. */
    method Finish()
      modifies this
      ensures View() == DoFinish(old(View()))
    {
      store := FetchUnsynced();
      pendingCount := |store|;
      isSyncing := false;
    }

    /** The loop over the fetched actions, up to the first failure. */
    method Process(actions: seq<Action>, replies: seq<Reply>)
      requires UniqueIds(store) && |replies| >= |actions| && actions == Unsynced(store)
      modifies this`store
      ensures Unsynced(store) == Drain(actions, replies)
    {
      var todo, answers := actions, replies;
      while todo != []
        invariant UniqueIds(store) && |answers| >= |todo|
        invariant Unsynced(store) == todo
        invariant Drain(actions, replies) == Drain(todo, answers)
        decreases |todo|
      {
        var action := todo[0];
        var ok := Succeeds(action.kind, answers[0]);
        assert todo == [action] + todo[1..];
        DrainStep(action, todo[1..], answers);
        AttemptOldest(store, action, todo[1..], ok);
        var goOn := Record(action, ok);
        if !goOn {
          return;
        }
        todo, answers := todo[1..], answers[1..];
      }
    }

    /** A whole drain with nothing in between; `replies[i]` is what the server would answer to the i-th action. */
    method SyncPendingActions(replies: seq<Reply>)
      requires UniqueIds(store) && |replies| >= |store|
      modifies this
      ensures old(isSyncing) ==> View() == old(View())
      ensures !old(isSyncing) && Unsynced(old(store)) == [] ==> View() == old(View()).(pendingCount := 0)
      ensures !old(isSyncing) && Unsynced(old(store)) != [] ==>
                var left := Drain(Unsynced(old(store)), replies);
                View() == Queue(left, false, |left|)
    {
      var actions := Begin();
      if actions != [] {
        Process(actions, replies);
        Finish();
      }
    }
  }

  // ------------------------------------------------------------ how many drains it takes

  function Measure(actions: seq<Action>): nat
    requires forall a | a in actions :: a.retries <= MAX_RETRIES
  {
    if actions == [] then 0 else MAX_RETRIES - actions[0].retries + Measure(actions[1..])
  }

  /** A queue as drains see it: nothing synced, no retry count used up. */
  predicate Waiting(actions: seq<Action>) {
    forall a | a in actions :: !a.synced && a.retries < MAX_RETRIES
  }

  /** A drain of a non-empty queue lowers the measure and leaves a suffix but for the head's retry. */
  lemma {:induction false} DrainLowersMeasure(actions: seq<Action>, replies: seq<Reply>)
    requires Waiting(actions) && |replies| >= |actions|
    ensures var left := Drain(actions, replies);
            && Waiting(left)
            && (actions != [] ==> Measure(left) < Measure(actions))
            && |left| <= |actions|
            && (left != [] ==> left[1..] == actions[|actions| - |left| + 1..])
    decreases actions
  {
    if actions != [] {
      if Succeeds(actions[0].kind, replies[0]) {
        DrainLowersMeasure(actions[1..], replies[1..]);
        var left := Drain(actions, replies);
        if left != [] {
          assert actions[1..][|actions| - 1 - |left| + 1..] == actions[|actions| - |left| + 1..];
        }
      } else if actions[0].retries + 1 < MAX_RETRIES {
        assert Drain(actions, replies)[1..] == actions[1..];
      }
    }
  }

  /** One drain after another, each with its own answers. */
  function Drains(actions: seq<Action>, rounds: seq<seq<Reply>>): seq<Action>
    requires forall r | r in rounds :: |r| >= |actions|
    requires Waiting(actions)
    decreases rounds
  {
    if rounds == [] then actions
    else
      DrainLowersMeasure(actions, rounds[0]);
      Drains(Drain(actions, rounds[0]), rounds[1..])
  }

  lemma MeasurePositive(actions: seq<Action>)
    requires Waiting(actions)
    ensures actions != [] ==> Measure(actions) > 0
  {
    if actions != [] {
      assert actions[0] in actions;
    }
  }

  lemma {:induction false} EmptyAfterMeasure(actions: seq<Action>, rounds: seq<seq<Reply>>)
    requires Waiting(actions) && forall r | r in rounds :: |r| >= |actions|
    requires |rounds| >= Measure(actions)
    ensures Drains(actions, rounds) == []
    decreases rounds
  {
    MeasurePositive(actions);
    if rounds != [] {
      DrainLowersMeasure(actions, rounds[0]);
      if actions != [] {
        EmptyAfterMeasure(Drain(actions, rounds[0]), rounds[1..]);
      } else {
        EmptyAfterMeasure([], rounds[1..]);
      }
    }
  }

  lemma {:induction false} MeasureBound(actions: seq<Action>)
    requires Waiting(actions)
    ensures Measure(actions) <= MAX_RETRIES * |actions|
    ensures (forall a | a in actions :: a.retries == 0) ==> Measure(actions) == MAX_RETRIES * |actions|
  {
    if actions != [] {
      MeasureBound(actions[1..]);
    }
  }

  /** Main result on termination: n actions are gone after 3n drains, whatever the server answers. */
  lemma EmptyAfterThreeDrainsEach(actions: seq<Action>, rounds: seq<seq<Reply>>)
    requires Waiting(actions) && forall r | r in rounds :: |r| >= |actions|
    requires |rounds| >= MAX_RETRIES * |actions|
    ensures Drains(actions, rounds) == []
  {
    MeasureBound(actions);
    EmptyAfterMeasure(actions, rounds);
  }

  predicate AllFail(actions: seq<Action>, rounds: seq<seq<Reply>>) {
    && (forall a | a in actions :: a.kind.UpdateProfile?)
    && (forall r | r in rounds :: |r| >= |actions| && forall x | x in r :: x.Failed?)
  }

  lemma {:induction false} FailureLowersByOne(actions: seq<Action>, rounds: seq<seq<Reply>>)
    requires Waiting(actions) && AllFail(actions, rounds) && |rounds| < Measure(actions)
    ensures Drains(actions, rounds) != []
    decreases rounds
  {
    if rounds != [] && actions != [] {
      var left := Drain(actions, rounds[0]);
      assert rounds[0][0] in rounds[0] && rounds[0] in rounds;
      DrainLowersMeasure(actions, rounds[0]);
      assert Measure(left) == Measure(actions) - 1 by {
        if left != [] && |left| == |actions| {
          assert left[1..] == actions[1..];
        }
      }
      assert forall a | a in left :: a.kind.UpdateProfile?;
      FailureLowersByOne(left, rounds[1..]);
    }
  }

  /** And the bound is met: when every attempt fails, fewer drains do not empty a new queue. */
  lemma ThreeDrainsEachNeeded(actions: seq<Action>, rounds: seq<seq<Reply>>)
    requires Waiting(actions) && AllFail(actions, rounds)
    requires forall a | a in actions :: a.retries == 0
    requires |rounds| < MAX_RETRIES * |actions|
    ensures Drains(actions, rounds) != []
  {
    MeasureBound(actions);
    FailureLowersByOne(actions, rounds);
  }

  // ------------------------------------------------------------ what stops a drain

  /** The three kinds that are replayed to the server fail if it fails; a conflict is the server's win, not a failure. */
  predicate Fails(a: Action, reply: Reply) {
    a.kind in {CreateDrawing, UpdateProfile, UpdateMarker} && reply == Failed
  }

  /**
   * A drain in one formula: all actions before the first failing one are gone, and with them the
   * failing one if it was its third failure; otherwise it stays in front with one more retry.
   */
  lemma {:induction false} DrainStopsAtFirstFailure(actions: seq<Action>, replies: seq<Reply>, k: nat)
    requires |replies| >= |actions| && k <= |actions|
    requires forall i | 0 <= i < k :: !Fails(actions[i], replies[i])
    requires k < |actions| ==> Fails(actions[k], replies[k])
    ensures Drain(actions, replies) ==
            if k == |actions| then []
            else if actions[k].retries >= 2 then actions[k + 1..]
            else [actions[k].(retries := actions[k].retries + 1)] + actions[k + 1..]
    decreases actions
  {
    if k > 0 {
      DrainStopsAtFirstFailure(actions[1..], replies[1..], k - 1);
      assert k < |actions| ==> actions[1..][k..] == actions[k + 1..];
    }
  }
}
