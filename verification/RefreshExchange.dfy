/**
 * Exchanges of refresh tokens with each other, at the level of single SQL statements. The server
 * selects the row, deletes it and inserts a new one in separate statements, so that exchanges can
 * interleave; the delete does not look at how many rows it removed. The token table is reduced to
 * its live tokens, which is what the browser client's protocol runs on; RefreshOverlap has the
 * same statements on the whole table, with users, expiry and all other operations.
 */
module RefreshExchange {

  type Token = nat

  datatype Stage = Requested | Selected | Deleted | Granted(minted: Token) | Denied

  datatype Exchange = Exchange(token: Token, stage: Stage)

  /** `live` are the rows of refresh_tokens, `issued` every token there has ever been. */
  datatype Server = Server(live: set<Token>, issued: set<Token>, exchanges: map<nat, Exchange>)

  datatype Step = Select(i: nat) | Delete(i: nat) | Insert(i: nat, minted: Token)

  predicate AtStage(s: Server, i: nat, stage: Stage) {
    i in s.exchanges && s.exchanges[i].stage == stage
  }

  predicate Enabled(s: Server, e: Step) {
    match e
    case Select(i) => AtStage(s, i, Requested)
    case Delete(i) => AtStage(s, i, Selected)
    case Insert(i, minted) => AtStage(s, i, Deleted) && minted !in s.issued
  }

  function Move(s: Server, i: nat, stage: Stage): Server
    requires i in s.exchanges
  {
    s.(exchanges := s.exchanges[i := s.exchanges[i].(stage := stage)])
  }

  function Apply(s: Server, e: Step): Server
    requires Enabled(s, e)
  {
    match e
    case Select(i) => Move(s, i, if s.exchanges[i].token in s.live then Selected else Denied)
    case Delete(i) => Move(s, i, Deleted).(live := s.live - {s.exchanges[i].token})
    case Insert(i, minted) =>
      Move(s, i, Granted(minted)).(live := s.live + {minted}, issued := s.issued + {minted})
  }

  predicate IsRun(s: Server, es: seq<Step>)
    decreases |es|, 0
  {
    es == [] || (IsRun(s, es[..|es| - 1]) && Enabled(After(s, es[..|es| - 1]), es[|es| - 1]))
  }

  function After(s: Server, es: seq<Step>): Server
    requires IsRun(s, es)
    decreases |es|, 1
  {
    if es == [] then s else Apply(After(s, es[..|es| - 1]), es[|es| - 1])
  }

  /** Any number of exchanges, of any tokens, have arrived and none has been looked at. */
  predicate Start(s: Server) {
    && s.live <= s.issued
    && forall i | i in s.exchanges :: s.exchanges[i].stage == Requested && s.exchanges[i].token in s.issued
  }

  // ------------------------------------------------------------ lemmas

  lemma {:induction false} PrefixRun(s: Server, es: seq<Step>, p: nat)
    requires IsRun(s, es) && p <= |es|
    ensures IsRun(s, es[..p])
    decreases |es|
  {
    if p == |es| {
      assert es[..p] == es;
    } else {
      PrefixRun(s, es[..|es| - 1], p);
      assert es[..|es| - 1][..p] == es[..p];
    }
  }

  /** Some exchange of the token has reached its DELETE. */
  predicate DeletedIn(s: Server, es: seq<Step>, token: Token) {
    exists q | 0 <= q < |es| :: es[q].Delete? && es[q].i in s.exchanges && s.exchanges[es[q].i].token == token
  }

  lemma DeletedAppend(s: Server, es: seq<Step>, e: Step, token: Token)
    ensures DeletedIn(s, es + [e], token) <==>
            DeletedIn(s, es, token) || (e.Delete? && e.i in s.exchanges && s.exchanges[e.i].token == token)
  {
    var more := es + [e];
    assert forall q | 0 <= q < |es| :: more[q] == es[q];
    assert more[|es|] == e;
  }

  lemma {:induction false} Bookkeeping(s: Server, es: seq<Step>, token: Token)
    requires Start(s) && IsRun(s, es) && token in s.issued
    ensures var t := After(s, es);
            && s.issued <= t.issued && t.exchanges.Keys == s.exchanges.Keys
            && (forall i | i in s.exchanges :: t.exchanges[i].token == s.exchanges[i].token)
            && (token in t.live <==> token in s.live && !DeletedIn(s, es, token))
    decreases |es|
  {
    if es != [] {
      var rest, e := es[..|es| - 1], es[|es| - 1];
      Bookkeeping(s, rest, token);
      assert es == rest + [e];
      DeletedAppend(s, rest, e, token);
    }
  }

  /** The SELECT decides: what it found stays the outcome. */
  lemma {:induction false} DecidedAtSelect(s: Server, es: seq<Step>, i: nat, p: nat)
    requires Start(s) && IsRun(s, es) && p < |es| && es[p] == Select(i)
    requires IsRun(s, es[..p])
    ensures var t := After(s, es);
            && i in After(s, es[..p]).exchanges && i in t.exchanges
            && t.exchanges[i].stage != Requested
            && (t.exchanges[i].stage == Denied <==>
                  After(s, es[..p]).exchanges[i].token !in After(s, es[..p]).live)
    decreases |es|
  {
    var rest := es[..|es| - 1];
    if p < |es| - 1 {
      assert rest[..p] == es[..p];
      DecidedAtSelect(s, rest, i, p);
    } else {
      assert es[..p] == rest;
    }
  }

  // ------------------------------------------------------------ results

  /**
   * Main result. However any number of exchanges of any tokens interleave, one of a live token
   * is denied exactly when its SELECT comes after the DELETE of some exchange of that token.
   */
  lemma DeniedExactlyAfterDelete(s: Server, es: seq<Step>, i: nat, p: nat)
    requires Start(s) && IsRun(s, es) && p < |es| && es[p] == Select(i)
    ensures i in s.exchanges && i in After(s, es).exchanges
    ensures After(s, es).exchanges[i].stage == Denied <==>
            s.exchanges[i].token !in s.live || DeletedIn(s, es[..p], s.exchanges[i].token)
  {
    PrefixRun(s, es, p + 1);
    PrefixRun(s, es, p);
    assert es[..p + 1][..p] == es[..p];
    var any := After(s, es[..p]);
    DecidedAtSelect(s, es, i, p);
    KeysStay(s, es[..p]);
    Bookkeeping(s, es[..p], s.exchanges[i].token);
  }

  lemma {:induction false} KeysStay(s: Server, es: seq<Step>)
    requires IsRun(s, es)
    ensures After(s, es).exchanges.Keys == s.exchanges.Keys
    decreases |es|
  {
    if es != [] {
      KeysStay(s, es[..|es| - 1]);
    }
  }

  /** Two exchanges of one token can both succeed only by overlapping: neither deletes before the other selects. */
  lemma BothGrantedOverlap(s: Server, es: seq<Step>, i: nat, j: nat, p: nat, q: nat)
    requires Start(s) && IsRun(s, es) && i in s.exchanges && j in s.exchanges && i != j
    requires s.exchanges[i].token == s.exchanges[j].token
    requires p < |es| && es[p] == Select(i) && q < |es| && es[q] == Delete(j)
    requires i in After(s, es).exchanges && After(s, es).exchanges[i].stage.Granted?
    ensures p < q
  {
    assert q < p ==> DeletedIn(s, es[..p], s.exchanges[i].token) by {
      if q < p {
        assert es[..p][q] == Delete(j);
      }
    }
    DeniedExactlyAfterDelete(s, es, i, p);
    assert q != p;
  }

  /**
   * And overlapping ones do: one token exchanged twice, both times for a live new token, because
   * the second DELETE removes nothing and nobody asks.
   */
  lemma DoubleRedemption(t: Token, a: Token, b: Token)
    requires t != a && t != b && a != b
    ensures var s := Server({t}, {t}, map[0 := Exchange(t, Requested), 1 := Exchange(t, Requested)]);
            var es := [Select(0), Select(1), Delete(0), Delete(1), Insert(0, a), Insert(1, b)];
            && Start(s) && IsRun(s, es)
            && After(s, es) == Server({a, b}, {t, a, b}, map[0 := Exchange(t, Granted(a)), 1 := Exchange(t, Granted(b))])
  {
    var s := Server({t}, {t}, map[0 := Exchange(t, Requested), 1 := Exchange(t, Requested)]);
    var s2 := Server({t}, {t}, map[0 := Exchange(t, Selected), 1 := Exchange(t, Selected)]);
    var s4 := Server({}, {t}, map[0 := Exchange(t, Deleted), 1 := Exchange(t, Deleted)]);
    var s6 := Server({a, b}, {t, a, b}, map[0 := Exchange(t, Granted(a)), 1 := Exchange(t, Granted(b))]);
    var es := [Select(0), Select(1), Delete(0), Delete(1), Insert(0, a), Insert(1, b)];
    var s1, s3, s5 := Apply(s, Select(0)), Apply(s2, Delete(0)), Apply(s4, Insert(0, a));
    assert s2 == Apply(s1, Select(1));
    assert s4 == Apply(s3, Delete(1));
    assert s6 == Apply(s5, Insert(1, b));
    Follow(s, es, [s, s1, s2, s3, s4, s5, s6]);
  }

  lemma Follow(s: Server, es: seq<Step>, states: seq<Server>)
    requires |states| == |es| + 1 && states[0] == s
    requires forall i | 0 <= i < |es| :: Enabled(states[i], es[i]) && states[i + 1] == Apply(states[i], es[i])
    ensures IsRun(s, es) && After(s, es) == states[|es|]
  {
    assert es[..0] == [];
    for i := 0 to |es|
      invariant IsRun(s, es[..i]) && After(s, es[..i]) == states[i]
    {
      var _ := Extend(s, es, i, states[i]);
    }
    assert es[..|es|] == es;
  }

  lemma Extend(s: Server, es: seq<Step>, n: nat, t: Server) returns (u: Server)
    requires n < |es| && IsRun(s, es[..n]) && After(s, es[..n]) == t && Enabled(t, es[n])
    ensures u == Apply(t, es[n]) && IsRun(s, es[..n + 1]) && After(s, es[..n + 1]) == u
  {
    assert es[..n + 1][..n] == es[..n];
    u := Apply(t, es[n]);
  }
}
