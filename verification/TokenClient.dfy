/**
 * The browser API client and the server's token rotation as one distributed protocol. Each
 * method of ApiClient is one stretch of JavaScript between two awaits.
 */
module TokenClient {
  import opened Wrappers
  import opened RefreshExchange

  type RequestId = nat

  /** Numbers the promises that have been stored in refreshPromise. */
  type PromiseId = nat

  /**
   * Sent: waiting for the response, `retry` if a 401 may still lead to a refresh. Awaiting: on a
   * refresh promise, which the owner will clear.
   */
  datatype Pc = Sent(retry: bool) | Awaiting(promise: PromiseId, owner: bool) | Finished

  datatype Request = Request(pc: Pc, sends: nat)

  /** `results` holds the settled promises, `failures` counts the refreshes that cleared the tokens. */
  datatype Client = Client(
    refreshPromise: Option<PromiseId>, next: PromiseId, results: map<PromiseId, bool>,
    stored: Option<Token>, requests: map<RequestId, Request>, failures: nat)

  // ------------------------------------------------------------ specification

  predicate At(c: Client, r: RequestId, pc: Pc) {
    r in c.requests && c.requests[r].pc == pc
  }

  function Goto(c: Client, r: RequestId, pc: Pc): Client
    requires r in c.requests
  {
    c.(requests := c.requests[r := c.requests[r].(pc := pc)])
  }

  function DoStart(c: Client, r: RequestId): Client {
    c.(requests := c.requests[r := Request(Sent(true), 1)])
  }

  predicate Refreshes(c: Client, r: RequestId, unauthorized: bool) {
    unauthorized && At(c, r, Sent(true))
  }

  /** The token a response makes the client send to the refresh endpoint. */
  function Outgoing(c: Client, r: RequestId, unauthorized: bool): Option<Token> {
    if Refreshes(c, r, unauthorized) && c.refreshPromise.None? then c.stored else None
  }

  function DoResponse(c: Client, r: RequestId, unauthorized: bool): Client
    requires r in c.requests
  {
    if !Refreshes(c, r, unauthorized) then Goto(c, r, Finished)
    else if c.refreshPromise.Some? then Goto(c, r, Awaiting(c.refreshPromise.value, false))
    else
      Goto(c, r, Awaiting(c.next, true)).(
        refreshPromise := Some(c.next), next := c.next + 1,
        results := if c.stored.None? then c.results[c.next := false] else c.results)
  }

  function DoReply(c: Client, p: PromiseId, answer: Option<Token>): Client {
    c.(stored := answer, results := c.results[p := answer.Some?],
       failures := c.failures + if answer.Some? then 0 else 1)
  }

  predicate CanResume(c: Client, r: RequestId) {
    r in c.requests && c.requests[r].pc.Awaiting? && c.requests[r].pc.promise in c.results
  }

  function DoResume(c: Client, r: RequestId): Client
    requires CanResume(c, r)
  {
    var q := c.requests[r];
    var cleared := if q.pc.owner then c.(refreshPromise := None) else c;
    if c.results[q.pc.promise] then cleared.(requests := c.requests[r := Request(Sent(false), q.sends + 1)])
    else Goto(cleared, r, Finished)
  }

  // ------------------------------------------------------------ the client

  class ApiClient {
    var refreshPromise: Option<PromiseId>
    var stored: Option<Token>
    var next: PromiseId
    var results: map<PromiseId, bool>
    var requests: map<RequestId, Request>
    var failures: nat

    constructor (stored: Option<Token>)
      ensures View() == Client(None, 0, map[], stored, map[], 0)
    {
      this.stored := stored;
      refreshPromise, next, results, requests, failures := None, 0, map[], map[], 0;
    }

    function View(): Client
      reads this
    {
      Client(refreshPromise, next, results, stored, requests, failures)
    }

    method Start(r: RequestId)
      requires r !in requests
      modifies this`requests
      ensures View() == DoStart(old(View()), r)
    {
      requests := requests[r := Request(Sent(true), 1)];
    }

    /** The response of a request; `send` is posted to the refresh endpoint, as exchange number `next`. */
    method OnResponse(r: RequestId, unauthorized: bool) returns (send: Option<Token>)
      requires r in requests && requests[r].pc.Sent?
      modifies this
      ensures View() == DoResponse(old(View()), r, unauthorized)
      ensures send == Outgoing(old(View()), r, unauthorized)
      ensures requests.Keys == old(requests).Keys && requests - {r} == old(requests) - {r}
      ensures requests[r].sends == old(requests)[r].sends
      ensures !unauthorized || old(requests)[r].pc == Sent(false) ==>
                requests[r].pc == Finished && refreshPromise == old(refreshPromise) && send == None
      ensures unauthorized && old(requests)[r].pc == Sent(true) && old(refreshPromise).Some? ==>
                requests[r].pc == Awaiting(old(refreshPromise).value, false)
                && refreshPromise == old(refreshPromise) && send == None
      ensures unauthorized && old(requests)[r].pc == Sent(true) && old(refreshPromise).None? ==>
                requests[r].pc == Awaiting(old(next), true) && refreshPromise == Some(old(next))
                && send == old(stored) && (old(next) in results && !results[old(next)] <== stored.None?)
      ensures stored == old(stored)
    {
      send := None;
      if unauthorized && requests[r].pc.retry {
        if refreshPromise.Some? {
          requests := requests[r := requests[r].(pc := Awaiting(refreshPromise.value, false))];
          return;
        }
        var promise := next;
        next := next + 1;
        refreshPromise := Some(promise);
        if stored.None? {
          results := results[promise := false];
        } else {
          send := stored;
        }
        requests := requests[r := requests[r].(pc := Awaiting(promise, true))];
        return;
      }
      requests := requests[r := requests[r].(pc := Finished)];
    }

    /** The answer of the refresh endpoint; None is any failure. */
    method OnRefreshReply(promise: PromiseId, answer: Option<Token>)
      modifies this
      ensures View() == DoReply(old(View()), promise, answer)
      ensures stored == answer && results == old(results)[promise := answer.Some?]
      ensures requests == old(requests) && refreshPromise == old(refreshPromise)
    {
      if answer.None? {
        stored := None;
        failures := failures + 1;
        results := results[promise := false];
      } else {
        stored := answer;
        results := results[promise := true];
      }
    }

    /** A request goes on after its refresh promise has settled. */
    method Resume(r: RequestId)
      requires CanResume(View(), r)
      modifies this
      ensures View() == DoResume(old(View()), r)
      ensures var q := old(requests)[r];
              && requests == old(requests)[r := if old(results)[q.pc.promise] then Request(Sent(false), q.sends + 1)
                                                else Request(Finished, q.sends)]
              && refreshPromise == (if q.pc.owner then None else old(refreshPromise))
      ensures results == old(results) && stored == old(stored)
    {
      var q := requests[r];
      var refreshed := results[q.pc.promise];
      if q.pc.owner {
        refreshPromise := None;
      }
      if refreshed {
        requests := requests[r := Request(Sent(false), q.sends + 1)];
      } else {
        requests := requests[r := q.(pc := Finished)];
      }
    }
  }

  // ------------------------------------------------------------ the protocol

  /** Exchange number p is the one of promise p. */
  datatype State = State(client: Client, server: Server)

  /** Others: any other user's or session's traffic on the token table. */
  datatype Event =
    | Start(r: RequestId)
    | Response(r: RequestId, unauthorized: bool)
    | Serve(step: Step)
    | Reply(p: PromiseId)
    | Resume(r: RequestId)
    | Others(added: set<Token>, removed: set<Token>)

  /** The tokens this client holds or is about to be handed. */
  function Ours(s: State): set<Token> {
    (if s.client.stored.Some? then {s.client.stored.value} else {})
    + (set p | p in s.server.exchanges && s.server.exchanges[p].stage.Granted? :: s.server.exchanges[p].stage.minted)
  }

  predicate Answered(x: Exchange) {
    x.stage.Granted? || x.stage.Denied?
  }

  predicate CanHappen(s: State, e: Event) {
    match e
    case Start(r) => r !in s.client.requests
    case Response(r, _) => r in s.client.requests && s.client.requests[r].pc.Sent?
    case Serve(step) => RefreshExchange.Enabled(s.server, step)
    case Reply(p) => p in s.server.exchanges && Answered(s.server.exchanges[p])
    case Resume(r) => CanResume(s.client, r)
    case Others(added, removed) => added !! s.server.issued && removed !! Ours(s)
  }

  function Happen(s: State, e: Event): State
    requires CanHappen(s, e)
  {
    match e
    case Start(r) => s.(client := DoStart(s.client, r))
    case Response(r, unauthorized) =>
      var out := Outgoing(s.client, r, unauthorized);
      State(DoResponse(s.client, r, unauthorized),
            if out.None? then s.server
            else s.server.(exchanges := s.server.exchanges[s.client.next := Exchange(out.value, Requested)]))
    case Serve(step) => s.(server := RefreshExchange.Apply(s.server, step))
    case Reply(p) =>
      var stage := s.server.exchanges[p].stage;
      State(DoReply(s.client, p, if stage.Granted? then Some(stage.minted) else None),
            s.server.(exchanges := s.server.exchanges - {p}))
    case Resume(r) => s.(client := DoResume(s.client, r))
    case Others(added, removed) =>
      s.(server := s.server.(live := s.server.live - removed + added, issued := s.server.issued + added))
  }

  predicate Possible(s: State, es: seq<Event>)
    decreases es
  {
    es == [] || (CanHappen(s, es[0]) && Possible(Happen(s, es[0]), es[1..]))
  }

  function Outcome(s: State, es: seq<Event>): State
    requires Possible(s, es)
    decreases es
  {
    if es == [] then s else Outcome(Happen(s, es[0]), es[1..])
  }

  /** A freshly loaded page, logged in or not. */
  predicate Loaded(s: State) {
    && s.client.refreshPromise.None? && s.client.next == 0 && s.client.results == map[]
    && s.client.requests == map[] && s.client.failures == 0
    && s.server.exchanges == map[] && s.server.live <= s.server.issued
    && (s.client.stored.Some? ==> s.client.stored.value in s.server.live)
  }

  // ------------------------------------------------------------ invariant

  /** The exchange under way is the one of the promise in the field, and carries the stored token. */
  ghost predicate OneExchange(s: State) {
    forall p | p in s.server.exchanges ::
      && s.client.refreshPromise == Some(p) && p !in s.client.results && p < s.client.next
      && s.client.stored == Some(s.server.exchanges[p].token)
  }

  ghost predicate PromisesSound(c: Client) {
    && (c.refreshPromise.Some? ==> c.refreshPromise.value < c.next)
    && (forall p | p in c.results :: p < c.next)
  }

  ghost predicate OwnersSound(c: Client) {
    && (forall r | r in c.requests && c.requests[r].pc.Awaiting? && c.requests[r].pc.owner ::
          c.refreshPromise == Some(c.requests[r].pc.promise))
    && (forall r, q | r in c.requests && q in c.requests && c.requests[r].pc.Awaiting? && c.requests[r].pc.owner
                      && c.requests[q].pc.Awaiting? && c.requests[q].pc.owner :: r == q)
  }

  predicate SentAtMostTwice(q: Request) {
    q.sends <= if q.pc.Finished? || q.pc == Sent(false) then 2 else 1
  }

  /** The exchange still has, or has been given, a token the server accepts. */
  predicate Delivers(server: Server, x: Exchange) {
    match x.stage
    case Requested => x.token in server.live
    case Selected => x.token in server.live
    case Deleted => true
    case Granted(minted) => minted in server.live
    case Denied => false
  }

  ghost predicate TokenSafe(s: State) {
    && s.server.live <= s.server.issued
    && (s.client.stored.Some? && s.server.exchanges == map[] ==> s.client.stored.value in s.server.live)
    && (s.client.stored.Some? ==> s.client.stored.value in s.server.issued)
    && (forall p | p in s.server.exchanges :: Delivers(s.server, s.server.exchanges[p]))
    && s.client.failures == 0
  }

  ghost predicate Safe(s: State) {
    && OneExchange(s) && PromisesSound(s.client) && OwnersSound(s.client)
    && (forall r | r in s.client.requests :: SentAtMostTwice(s.client.requests[r]))
    && TokenSafe(s)
  }

  // ------------------------------------------------------------ preservation

  lemma ResponseKeeps(s: State, r: RequestId, unauthorized: bool)
    requires Safe(s) && CanHappen(s, Response(r, unauthorized))
    ensures Safe(Happen(s, Response(r, unauthorized)))
  {
  }

  lemma ServeKeeps(s: State, step: Step)
    requires Safe(s) && CanHappen(s, Serve(step))
    ensures Safe(Happen(s, Serve(step)))
  {
  }

  lemma ReplyKeeps(s: State, p: PromiseId)
    requires Safe(s) && CanHappen(s, Reply(p))
    ensures Safe(Happen(s, Reply(p)))
  {
    assert Delivers(s.server, s.server.exchanges[p]);
    assert forall q | q in s.server.exchanges :: q == p;
  }

  lemma ResumeKeeps(s: State, r: RequestId)
    requires Safe(s) && CanHappen(s, Resume(r))
    ensures Safe(Happen(s, Resume(r)))
  {
    if s.client.requests[r].pc.owner {
      assert s.server.exchanges == map[];
    }
  }

  lemma OthersKeep(s: State, added: set<Token>, removed: set<Token>)
    requires Safe(s) && CanHappen(s, Others(added, removed))
    ensures Safe(Happen(s, Others(added, removed)))
  {
    forall p | p in s.server.exchanges
      ensures Delivers(Happen(s, Others(added, removed)).server, s.server.exchanges[p])
    {
      assert Delivers(s.server, s.server.exchanges[p]);
    }
  }

  lemma StepKeeps(s: State, e: Event)
    requires Safe(s) && CanHappen(s, e)
    ensures Safe(Happen(s, e))
  {
    match e
    case Start(r) =>
    case Response(r, unauthorized) => ResponseKeeps(s, r, unauthorized);
    case Serve(step) => ServeKeeps(s, step);
    case Reply(p) => ReplyKeeps(s, p);
    case Resume(r) => ResumeKeeps(s, r);
    case Others(added, removed) => OthersKeep(s, added, removed);
  }

  lemma {:induction false} RunKeeps(s: State, es: seq<Event>)
    requires Safe(s) && Possible(s, es)
    ensures Safe(Outcome(s, es))
    decreases es
  {
    if es != [] {
      StepKeeps(s, es[0]);
      RunKeeps(Happen(s, es[0]), es[1..]);
    }
  }

  // ------------------------------------------------------------ results

  /**
   * Main result. Whatever the timing of any number of requests, at most one exchange is
   * outstanding, no request is sent more than twice, no refresh ever fails, and the stored
   * token is either live on the server or about to be replaced by the exchange that carries it.
   */
  lemma RotationIsSafe(s: State, es: seq<Event>)
    requires Loaded(s) && Possible(s, es)
    ensures var t := Outcome(s, es);
            && (forall p, q | p in t.server.exchanges && q in t.server.exchanges :: p == q)
            && (forall r | r in t.client.requests :: t.client.requests[r].sends <= 2)
            && t.client.failures == 0
            && (t.client.stored.Some? && t.client.stored.value !in t.server.live ==>
                  exists p :: && p in t.server.exchanges && t.server.exchanges[p].token == t.client.stored.value
                              && (t.server.exchanges[p].stage.Deleted?
                                  || (t.server.exchanges[p].stage.Granted?
                                      && t.server.exchanges[p].stage.minted in t.server.live)))
  {
    RunKeeps(s, es);
    var t := Outcome(s, es);
    if t.client.stored.Some? && t.client.stored.value !in t.server.live {
      var p :| p in t.server.exchanges;
      assert Delivers(t.server, t.server.exchanges[p]);
    }
  }

  /** A client that was logged in stays so: the stored token is never cleared. */
  lemma {:induction false} NeverLoggedOut(s: State, es: seq<Event>)
    requires Safe(s) && s.client.stored.Some? && Possible(s, es)
    ensures Outcome(s, es).client.stored.Some?
    decreases es
  {
    if es != [] {
      StepKeeps(s, es[0]);
      if es[0].Reply? {
        assert Delivers(s.server, s.server.exchanges[es[0].p]);
      }
      NeverLoggedOut(Happen(s, es[0]), es[1..]);
    }
  }

  /** Every promise in use has settled or has its exchange on the way. */
  ghost predicate PromisesKept(s: State) {
    && (s.client.refreshPromise.Some? ==> Underway(s, s.client.refreshPromise.value))
    && (forall r | r in s.client.requests && s.client.requests[r].pc.Awaiting? ::
          Underway(s, s.client.requests[r].pc.promise))
  }

  predicate Underway(s: State, p: PromiseId) {
    p in s.client.results || p in s.server.exchanges
  }

  lemma StepKeepsPromises(s: State, e: Event)
    requires PromisesKept(s) && CanHappen(s, e)
    ensures PromisesKept(Happen(s, e))
  {
    var t := Happen(s, e);
    assert forall p :: Underway(s, p) ==> Underway(t, p);
  }

  lemma {:induction false} RunKeepsPromises(s: State, es: seq<Event>)
    requires PromisesKept(s) && Possible(s, es)
    ensures PromisesKept(Outcome(s, es))
    decreases es
  {
    if es != [] {
      StepKeepsPromises(s, es[0]);
      RunKeepsPromises(Happen(s, es[0]), es[1..]);
    }
  }

  /** An exchange that can go no further on the server can be answered to the client. */
  predicate CanAdvance(s: State, p: PromiseId) {
    CanHappen(s, Reply(p)) || CanHappen(s, Serve(Select(p))) || CanHappen(s, Serve(Delete(p)))
    || (p in s.server.exchanges && s.server.exchanges[p].stage.Deleted?)
  }

  /**
   * No request waits for nothing: in every run each unfinished request can take its own next
   * step, or the exchange it waits for can take one (an insert needs only a new token).
   */
  lemma NobodyStuck(s: State, es: seq<Event>, r: RequestId)
    requires Loaded(s) && Possible(s, es)
    requires r in Outcome(s, es).client.requests && !Outcome(s, es).client.requests[r].pc.Finished?
    ensures var t := Outcome(s, es);
            var pc := t.client.requests[r].pc;
            CanHappen(t, Response(r, false)) || CanHappen(t, Resume(r)) || (pc.Awaiting? && CanAdvance(t, pc.promise))
  {
    RunKeepsPromises(s, es);
    var t := Outcome(s, es);
    if t.client.requests[r].pc.Awaiting? {
      assert Underway(t, t.client.requests[r].pc.promise);
    }
  }

  // ------------------------------------------------------------ how requests end

  predicate Waits(s: State, r: RequestId, p: PromiseId) {
    r in s.client.requests && s.client.requests[r].pc.Awaiting? && s.client.requests[r].pc.promise == p
  }

  /** At some moment of the run the request waited for the promise. */
  predicate Awaited(s: State, es: seq<Event>, r: RequestId, p: PromiseId)
    requires Possible(s, es)
    decreases es
  {
    || Waits(s, r, p)
    || (es != [] && Awaited(Happen(s, es[0]), es[1..], r, p))
  }

  /** The request waited for a promise that has settled with this result. */
  ghost predicate Heard(s: State, es: seq<Event>, r: RequestId, refreshed: bool)
    requires Possible(s, es)
  {
    var results := Outcome(s, es).client.results;
    exists p: PromiseId :: Awaited(s, es, r, p) && p in results && results[p] == refreshed
  }

  /** Settled promises keep their result. */
  lemma {:induction false} ResultsStay(s: State, es: seq<Event>, p: PromiseId)
    requires Safe(s) && Possible(s, es) && p in s.client.results
    ensures p in Outcome(s, es).client.results && Outcome(s, es).client.results[p] == s.client.results[p]
    decreases es
  {
    if es != [] {
      StepKeeps(s, es[0]);
      ResultsStay(Happen(s, es[0]), es[1..], p);
    }
  }

  /**
   * How a request has come out of a run: without ever waiting, when its first answer was no 401;
   * or having waited for one promise, and then sent once more if and only if that settled well.
   */
  ghost predicate CameOut(s: State, es: seq<Event>, r: RequestId, sends: nat, waited: Option<PromiseId>)
    requires Possible(s, es)
  {
    var t := Outcome(s, es).client;
    && r in t.requests
    && (forall p: PromiseId :: Awaited(s, es, r, p) <==> waited == Some(p))
    && match t.requests[r].pc
       case Sent(retry) =>
         if retry then t.requests[r].sends == sends && waited.None?
         else t.requests[r].sends == sends + 1 && waited.Some? && waited.value in t.results && t.results[waited.value]
       case Awaiting(p, _) => t.requests[r].sends == sends && waited == Some(p)
       case Finished =>
         if waited.None? then t.requests[r].sends == sends && Response(r, false) in es
         else waited.value in t.results && t.requests[r].sends == sends + if t.results[waited.value] then 1 else 0
  }

  /** A request that is through waits for nothing any more and stays as it is but for its last answer. */
  lemma {:induction false} LastLeg(s: State, es: seq<Event>, r: RequestId)
    requires Possible(s, es) && r in s.client.requests
    requires s.client.requests[r].pc.Finished? || s.client.requests[r].pc == Sent(false)
    ensures var t := Outcome(s, es).client.requests;
            && r in t && t[r].sends == s.client.requests[r].sends
            && (t[r].pc.Finished? || t[r].pc == s.client.requests[r].pc)
    ensures forall p: PromiseId :: !Awaited(s, es, r, p)
    decreases es
  {
    if es != [] {
      LastLeg(Happen(s, es[0]), es[1..], r);
    }
  }

  lemma AwaitedFirst(s: State, es: seq<Event>, r: RequestId, p: PromiseId)
    requires es != [] && Possible(s, es)
    ensures Awaited(s, es, r, p) <==> Waits(s, r, p) || Awaited(Happen(s, es[0]), es[1..], r, p)
  {
  }

  lemma {:induction false} WaitingLeg(s: State, es: seq<Event>, r: RequestId)
    requires Safe(s) && Possible(s, es) && r in s.client.requests && s.client.requests[r].pc.Awaiting?
    ensures CameOut(s, es, r, s.client.requests[r].sends, Some(s.client.requests[r].pc.promise))
    decreases es
  {
    if es != [] {
      StepKeeps(s, es[0]);
      var next := Happen(s, es[0]);
      if next.client.requests[r].pc.Awaiting? {
        WaitingLeg(next, es[1..], r);
      } else {
        LastLeg(next, es[1..], r);
        ResultsStay(s, es, s.client.requests[r].pc.promise);
      }
      forall p: PromiseId
        ensures Awaited(s, es, r, p) <==> s.client.requests[r].pc.promise == p
      {
        AwaitedFirst(s, es, r, p);
      }
    }
  }

  lemma {:induction false} FirstLeg(s: State, es: seq<Event>, r: RequestId) returns (waited: Option<PromiseId>)
    requires Safe(s) && Possible(s, es) && r in s.client.requests && s.client.requests[r].pc == Sent(true)
    ensures CameOut(s, es, r, s.client.requests[r].sends, waited)
    decreases es
  {
    waited := None;
    if es != [] {
      StepKeeps(s, es[0]);
      var next := Happen(s, es[0]);
      match next.client.requests[r].pc {
        case Sent(_) =>
          waited := FirstLeg(next, es[1..], r);
        case Awaiting(p, _) =>
          WaitingLeg(next, es[1..], r);
          waited := Some(p);
        case Finished =>
          LastLeg(next, es[1..], r);
          assert es[0] == Response(r, false);
      }
      forall p: PromiseId
        ensures Awaited(s, es, r, p) <==> waited == Some(p)
      {
        AwaitedFirst(s, es, r, p);
      }
    }
  }

  lemma {:induction false} WholeLife(s: State, es: seq<Event>, r: RequestId) returns (waited: Option<PromiseId>)
    requires Safe(s) && Possible(s, es) && r !in s.client.requests && r in Outcome(s, es).client.requests
    ensures CameOut(s, es, r, 1, waited)
    decreases es
  {
    StepKeeps(s, es[0]);
    var next := Happen(s, es[0]);
    if r in next.client.requests {
      waited := FirstLeg(next, es[1..], r);
    } else {
      waited := WholeLife(next, es[1..], r);
    }
    forall p: PromiseId
      ensures Awaited(s, es, r, p) <==> waited == Some(p)
    {
      AwaitedFirst(s, es, r, p);
    }
  }

  /**
   * Main result on retries. In every run a request waits for at most one refresh. Once that has
   * succeeded and the request has gone on, it has been sent exactly twice, and no request is sent
   * twice otherwise; a request that ended after one send got an answer other than 401, or its
   * refresh failed.
   */
  lemma RetriedExactly(s: State, es: seq<Event>, r: RequestId)
    requires Loaded(s) && Possible(s, es) && r in Outcome(s, es).client.requests
    ensures var q := Outcome(s, es).client.requests[r];
            && q.sends in {1, 2}
            && (q.sends == 2 ==> Heard(s, es, r, true))
            && (Heard(s, es, r, true) && !q.pc.Awaiting? ==> q.sends == 2)
            && (q.pc.Finished? && q.sends == 1 ==> Heard(s, es, r, false) || Response(r, false) in es)
            && (Heard(s, es, r, false) && !q.pc.Awaiting? ==> q.pc.Finished? && q.sends == 1)
    ensures forall p: PromiseId, x: PromiseId | Awaited(s, es, r, p) && Awaited(s, es, r, x) :: p == x
  {
    var waited := WholeLife(s, es, r);
  }
}
