/**
 * First messages of sockets that are no longer current. The service does not ask which socket a
 * first message came from; this says exactly what follows from that, over every run.
 */
module ReconnectStale {
  import opened Reconnect
  import opened ReconnectRuns
  import opened Wrappers

  /** There is a current socket and it has delivered its first message. */
  predicate CurrentOpen(s: State) {
    s.webSocketTask.Some? && s.webSocketTask.value in s.sockets && s.sockets[s.webSocketTask.value].didOpen
  }

  /** Connected is reported only of an open current socket. */
  predicate Honest(s: State) {
    s.connectionState.Connected? ==> CurrentOpen(s)
  }

  /** The first message of another socket while mounted, with the current one absent or not yet open. */
  predicate Misleads(s: State, e: Event) {
    e.FirstReceive? && s.isMounted && s.webSocketTask != Some(e.i) && !CurrentOpen(s)
  }

  /** The events that end a false report: connect() is not one of them. */
  predicate Repairs(s: State, e: Event) {
    match e
    case Connect(_, _) => false
    case Disconnect => true
    case FirstReceive(i) => s.webSocketTask == Some(i)
    case Closed(i, _) => s.webSocketTask == Some(i)
    case TimerFires(t, env) => t in s.timers && !s.timers[t].cancelled && !env.NoCredentials?
    case ResolveBegins(_, _) => false
    case ResolveAnswered(_, answer, env) => answer.Some? && !env.NoCredentials?
  }

  /** Facts that every run keeps. */
  predicate Sane(s: State) {
    && (s.connectionState.Connected? ==> s.isMounted)
    && (s.webSocketTask.Some? ==> s.isMounted && s.webSocketTask.value in s.sockets)
    && (forall i | i in s.sockets :: i < s.next)
  }

  lemma StepKeepsSane(s: State, e: Event)
    requires Sane(s) && Enabled(s, e)
    ensures Sane(Apply(s, e))
  {
  }

  lemma HonestStep(s: State, e: Event)
    requires Sane(s) && Enabled(s, e)
    ensures !Honest(Apply(s, e)) <==> Misleads(s, e) || (!Honest(s) && !Repairs(s, e))
  {
  }

  // ------------------------------------------------------------ whole runs

  /** Nothing in the run repairs a false report. */
  predicate NothingRepairs(s: State, es: seq<Event>)
    requires IsRun(s, es)
    decreases es
  {
    es == [] || (!Repairs(s, es[0]) && NothingRepairs(Apply(s, es[0]), es[1..]))
  }

  /** Some event of the run misleads and nothing after it repairs that. */
  predicate LeftMisled(s: State, es: seq<Event>)
    requires IsRun(s, es)
    decreases es
  {
    es != [] &&
    ((Misleads(s, es[0]) && NothingRepairs(Apply(s, es[0]), es[1..])) || LeftMisled(Apply(s, es[0]), es[1..]))
  }

  predicate NeverMisled(s: State, es: seq<Event>)
    requires IsRun(s, es)
    decreases es
  {
    es == [] || (!Misleads(s, es[0]) && NeverMisled(Apply(s, es[0]), es[1..]))
  }

  /** The report is right before, during and after the run. */
  predicate AlwaysHonest(s: State, es: seq<Event>)
    requires IsRun(s, es)
    decreases es
  {
    Honest(s) && (es == [] || AlwaysHonest(Apply(s, es[0]), es[1..]))
  }

  lemma {:induction false} FinalHonesty(s: State, es: seq<Event>)
    requires Sane(s) && IsRun(s, es)
    ensures !Honest(Final(s, es)) <==> LeftMisled(s, es) || (!Honest(s) && NothingRepairs(s, es))
    decreases es
  {
    if es != [] {
      StepKeepsSane(s, es[0]);
      HonestStep(s, es[0]);
      FinalHonesty(Apply(s, es[0]), es[1..]);
    }
  }

  lemma {:induction false} HonestyThroughout(s: State, es: seq<Event>)
    requires Sane(s) && Honest(s) && IsRun(s, es)
    ensures AlwaysHonest(s, es) <==> NeverMisled(s, es)
    decreases es
  {
    if es != [] {
      StepKeepsSane(s, es[0]);
      HonestStep(s, es[0]);
      var t := Apply(s, es[0]);
      if Honest(t) {
        HonestyThroughout(t, es[1..]);
      }
    }
  }

  /**
   * Main result. Over every run of a new service, Connected is reported of an open current
   * socket throughout if and only if no first message of another socket arrives while the
   * current one is absent or not yet open; and the report is wrong at the end if and only if
   * such a message arrived and nothing since has repaired it.
   */
  lemma ConnectedMeansOpenExactly(es: seq<Event>)
    requires IsRun(NEW_SERVICE, es)
    ensures AlwaysHonest(NEW_SERVICE, es) <==> NeverMisled(NEW_SERVICE, es)
    ensures Honest(Final(NEW_SERVICE, es)) <==> !LeftMisled(NEW_SERVICE, es)
  {
    HonestyThroughout(NEW_SERVICE, es);
    FinalHonesty(NEW_SERVICE, es);
  }

  // ------------------------------------------------------------ counting from the current socket's opens

  /** What should end a count: an open of the current socket, or a clean disconnect. */
  predicate ClearsRightly(e: Entry) {
    e.Reset? || (e.Opened? && e.current)
  }

  predicate StaleOpen(e: Entry) {
    e.Opened? && !e.current
  }

  function ScheduledSinceCurrent(log: seq<Entry>): nat {
    if log == [] then 0
    else
      var last := log[|log| - 1];
      if ClearsRightly(last) then 0
      else ScheduledSinceCurrent(log[..|log| - 1]) + (if last.Scheduled? then 1 else 0)
  }

  predicate ResolvedSinceCurrent(log: seq<Entry>) {
    log != [] && !ClearsRightly(log[|log| - 1])
    && (log[|log| - 1].Resolving? || ResolvedSinceCurrent(log[..|log| - 1]))
  }

  /** Since the last right end of the count, a reconnect was scheduled and then a stale open came. */
  predicate CountCutShort(log: seq<Entry>) {
    log != [] && !ClearsRightly(log[|log| - 1])
    && (CountCutShort(log[..|log| - 1]) || (StaleOpen(log[|log| - 1]) && ScheduledSinceCurrent(log[..|log| - 1]) > 0))
  }

  /** Since then a device was re-resolved and a stale open came, with no further re-resolution after it. */
  predicate GuardLifted(log: seq<Entry>) {
    log != [] && !ClearsRightly(log[|log| - 1]) && !log[|log| - 1].Resolving?
    && (GuardLifted(log[..|log| - 1]) || (StaleOpen(log[|log| - 1]) && ResolvedSinceCurrent(log[..|log| - 1])))
  }

  lemma {:induction false} CountsCompared(log: seq<Entry>)
    ensures ScheduledSince(log) <= ScheduledSinceCurrent(log)
    ensures ScheduledSince(log) == ScheduledSinceCurrent(log) <==> !CountCutShort(log)
    decreases |log|
  {
    if log != [] {
      CountsCompared(log[..|log| - 1]);
    }
  }

  lemma {:induction false} GuardsCompared(log: seq<Entry>)
    ensures ResolvedSince(log) ==> ResolvedSinceCurrent(log)
    ensures ResolvedSince(log) == ResolvedSinceCurrent(log) <==> !GuardLifted(log)
    decreases |log|
  {
    if log != [] {
      GuardsCompared(log[..|log| - 1]);
    }
  }

  lemma {:induction false} PowerGrows(j: nat, k: nat)
    requires j <= k
    ensures Power(j) <= Power(k) && (j < k ==> Power(j) < Power(k))
    ensures Power(j) >= 1
    decreases k
  {
    if j < k {
      PowerGrows(j, k - 1);
    } else if j > 0 {
      PowerGrows(j - 1, k - 1);
    }
  }

  lemma DelaysDiffer(j: nat, k: nat)
    requires j < k
    ensures Delay(j) == Delay(k) <==> j >= 5
  {
    assert Power(5) == 32 && Power(4) == 16 by {
      assert Power(1) == 2 && Power(2) == 4 && Power(3) == 8;
    }
    PowerGrows(j, k);
    if j >= 5 {
      PowerGrows(5, j);
    } else {
      PowerGrows(j, 4);
    }
  }

  /**
   * A scheduled reconnect waits what the count from the current socket's last open demands if
   * and only if no stale open has cut that count short, or the delay is at its bound anyway.
   */
  lemma DelayRightExactly(es: seq<Event>, i: nat)
    requires IsRun(NEW_SERVICE, es)
    requires i < |Final(NEW_SERVICE, es).log| && Final(NEW_SERVICE, es).log[i].Scheduled?
    ensures var log := Final(NEW_SERVICE, es).log;
            log[i].delay == Delay(ScheduledSinceCurrent(log[..i])) <==>
            !CountCutShort(log[..i]) || ScheduledSince(log[..i]) >= 5
  {
    DelaysDouble(es, i);
    var before := Final(NEW_SERVICE, es).log[..i];
    CountsCompared(before);
    if CountCutShort(before) {
      DelaysDiffer(ScheduledSince(before), ScheduledSinceCurrent(before));
    }
  }

  /**
   * The guard on re-resolving the device stands exactly if the device was re-resolved since the
   * current socket's last open, unless a stale open has lifted it.
   */
  lemma GuardRightExactly(es: seq<Event>)
    requires IsRun(NEW_SERVICE, es)
    ensures var t := Final(NEW_SERVICE, es);
            && (t.retriedDevice ==> ResolvedSinceCurrent(t.log))
            && (t.retriedDevice == ResolvedSinceCurrent(t.log) <==> !GuardLifted(t.log))
  {
    RunKeeps(NEW_SERVICE, es);
    GuardsCompared(Final(NEW_SERVICE, es).log);
  }

  // ------------------------------------------------------------ misled runs

  lemma {:induction false} Follow(s: State, es: seq<Event>, states: seq<State>)
    requires |states| == |es| + 1 && states[0] == s
    requires forall i | 0 <= i < |es| :: Enabled(states[i], es[i]) && Apply(states[i], es[i]) == states[i + 1]
    ensures IsRun(s, es) && Final(s, es) == states[|es|]
    decreases es
  {
    if es != [] {
      Follow(states[1], es[1..], states[1..]);
    }
  }

  /** The device is rejected, the service connected afresh, and the resolved device supersedes that socket. */
  function Superseding(device: Device, other: Device): seq<Event> {
    [Connect(device, Good), Closed(0, 403), ResolveBegins(1, true), Connect(device, Good),
     ResolveAnswered(1, Some(other), Good)]
  }

  lemma Supersedes(device: Device, other: Device) returns (t: State)
    ensures IsRun(NEW_SERVICE, Superseding(device, other)) && Final(NEW_SERVICE, Superseding(device, other)) == t
    ensures t == NEW_SERVICE.(
              connectionState := Connecting, deviceId := Some(other), webSocketTask := Some(3), isMounted := true,
              retriedDevice := true, sockets := map[2 := Socket(device, false), 3 := Socket(other, false)], next := 4,
              log := [Mounted, Started(0), Resolving, Mounted, Started(2), Started(3)])
  {
    var es := Superseding(device, other);
    var s1 := Apply(NEW_SERVICE, es[0]);
    var s2 := Apply(s1, es[1]);
    var s3 := Apply(s2, es[2]);
    var s4 := Apply(s3, es[3]);
    t := Apply(s4, es[4]);
    Follow(NEW_SERVICE, es, [NEW_SERVICE, s1, s2, s3, s4, t]);
  }

  lemma {:induction false} Join(s: State, first: seq<Event>, t: State, second: seq<Event>)
    requires IsRun(s, first) && Final(s, first) == t && IsRun(t, second)
    ensures IsRun(s, first + second) && Final(s, first + second) == Final(t, second)
    decreases first
  {
    if first == [] {
      assert first + second == second;
    } else {
      assert (first + second)[1..] == first[1..] + second;
      Join(Apply(s, first[0]), first[1..], t, second);
    }
  }

  /** A message the superseded socket had already received marks the service connected, its current socket unopened. */
  lemma StaleOpenMarksConnected(device: Device, other: Device)
    ensures var es := Superseding(device, other) + [FirstReceive(2)];
            && IsRun(NEW_SERVICE, es)
            && var t := Final(NEW_SERVICE, es);
               t.connectionState.Connected? && t.webSocketTask == Some(3)
               && 3 in t.sockets && !t.sockets[3].didOpen && !Honest(t)
  {
    var s := Supersedes(device, other);
    var t := Apply(s, FirstReceive(2));
    Follow(s, [FirstReceive(2)], [s, t]);
    Join(NEW_SERVICE, Superseding(device, other), s, [FirstReceive(2)]);
  }

  /** The same after the current socket has gone: connected without any socket, and connect() opens none. */
  lemma StaleOpenWithoutSocket(device: Device, other: Device, next: Device, env: Env)
    ensures var es := Superseding(device, other) + [Closed(3, 0), FirstReceive(2)];
            && IsRun(NEW_SERVICE, es)
            && var t := Final(NEW_SERVICE, es);
               && t.connectionState.Connected? && t.webSocketTask.None? && !Honest(t)
               && Apply(t, Connect(next, env)) == t.(deviceId := Some(next))
  {
    var s := Supersedes(device, other);
    var s1 := Apply(s, Closed(3, 0));
    var t := Apply(s1, FirstReceive(2));
    Follow(s, [Closed(3, 0), FirstReceive(2)], [s, s1, t]);
    Join(NEW_SERVICE, Superseding(device, other), s, [Closed(3, 0), FirstReceive(2)]);
  }
}
