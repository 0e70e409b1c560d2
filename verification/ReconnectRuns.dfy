/** The WebSocket service over every run of its callbacks. */
module ReconnectRuns {
  import opened Reconnect
  import opened Wrappers

  datatype Event =
    | Connect(device: Device, env: Env)
    | Disconnect
    | FirstReceive(i: SocketId)
    | Closed(i: SocketId, status: int)
    | TimerFires(t: TimerId, env: Env)
    | ResolveBegins(r: ResolveId, hasResolver: bool)
    | ResolveAnswered(r: ResolveId, answer: Option<Device>, env: Env)

  /** A socket reports its first message once; a cancelled socket or timer may still report. */
  predicate Enabled(s: State, e: Event) {
    match e
    case Connect(_, _) => true
    case Disconnect => true
    case FirstReceive(i) => i in s.sockets && !s.sockets[i].didOpen
    case Closed(i, _) => i in s.sockets
    case TimerFires(t, _) => t in s.timers
    case ResolveBegins(r, _) => r in s.resolves && s.resolves[r].Queued?
    case ResolveAnswered(r, _, _) => r in s.resolves && s.resolves[r].Asking?
  }

  function Apply(s: State, e: Event): State
    requires Enabled(s, e)
  {
    match e
    case Connect(device, env) => DoConnect(s, device, env)
    case Disconnect => DoDisconnect(s)
    case FirstReceive(i) => DoFirstReceive(s, i)
    case Closed(i, status) => DoClosed(s, i, status)
    case TimerFires(t, env) => DoTimerFires(s, t, env)
    case ResolveBegins(r, hasResolver) => DoResolveBegins(s, r, hasResolver)
    case ResolveAnswered(r, answer, env) => DoResolved(s, r, answer, env)
  }

  predicate IsRun(s: State, es: seq<Event>)
    decreases es
  {
    es == [] || (Enabled(s, es[0]) && IsRun(Apply(s, es[0]), es[1..]))
  }

  function Final(s: State, es: seq<Event>): State
    requires IsRun(s, es)
    decreases es
  {
    if es == [] then s else Final(Apply(s, es[0]), es[1..])
  }

  const NEW_SERVICE := State(Disconnected, None, None, INITIAL_BACKOFF, None, false, false, map[], map[], map[], 0, [])

  // ------------------------------------------------------------ reading the history

  function Power(k: nat): nat {
    if k == 0 then 1 else 2 * Power(k - 1)
  }

  /** min(2^k, 30) */
  function Delay(k: nat): nat {
    if Power(k) < MAX_BACKOFF then Power(k) else MAX_BACKOFF
  }

  predicate Clears(e: Entry) {
    e.Opened? || e.Reset?
  }

  /** How many reconnects have been scheduled since the last open or clean disconnect. */
  function ScheduledSince(log: seq<Entry>): nat {
    if log == [] then 0
    else
      var last := log[|log| - 1];
      if Clears(last) then 0
      else ScheduledSince(log[..|log| - 1]) + (if last.Scheduled? then 1 else 0)
  }

  predicate ResolvedSince(log: seq<Entry>) {
    log != [] && !Clears(log[|log| - 1]) && (log[|log| - 1].Resolving? || ResolvedSince(log[..|log| - 1]))
  }

  predicate MountedBy(log: seq<Entry>) {
    log != [] && !log[|log| - 1].Reset? && (log[|log| - 1].Mounted? || MountedBy(log[..|log| - 1]))
  }

  /** Every entry was right when it was written. */
  ghost predicate HistorySound(log: seq<Entry>) {
    forall i | 0 <= i < |log| ::
      && (log[i].Scheduled? ==> log[i].delay == Delay(ScheduledSince(log[..i])))
      && (log[i].Resolving? ==> !ResolvedSince(log[..i]))
      && (log[i].Started? || log[i].Opened? || log[i].Scheduled? || log[i].Resolving? ==> MountedBy(log[..i]))
  }

  ghost predicate LogMatches(s: State) {
    && HistorySound(s.log)
    && s.backoff == Delay(ScheduledSince(s.log))
    && (s.retriedDevice <==> ResolvedSince(s.log))
    && (s.isMounted <==> MountedBy(s.log))
  }

  /** A timer that can still act is the one in the field, and there is no current socket then. */
  ghost predicate TimersSound(s: State) {
    && (forall t | t in s.timers :: t < s.next)
    && (forall t | t in s.timers && !s.timers[t].cancelled :: s.reconnectTask == Some(t) && s.webSocketTask.None?)
    && (s.webSocketTask.Some? ==> s.webSocketTask.value < s.next)
    && (!s.isMounted ==> s.webSocketTask.None? && s.reconnectTask.None?)
  }

  // ------------------------------------------------------------ preservation

  /** One new entry, right in itself, with the fields moved on accordingly. */
  lemma EntryKeeps(s: State, t: State, e: Entry)
    requires LogMatches(s) && t.log == s.log + [e]
    requires e.Scheduled? ==> e.delay == s.backoff
    requires e.Resolving? ==> !s.retriedDevice
    requires e.Started? || e.Opened? || e.Scheduled? || e.Resolving? ==> s.isMounted
    requires t.backoff == if Clears(e) then 1
                          else if e.Scheduled? then (if s.backoff * 2 < MAX_BACKOFF then s.backoff * 2 else MAX_BACKOFF)
                          else s.backoff
    requires t.retriedDevice <==> !Clears(e) && (e.Resolving? || s.retriedDevice)
    requires t.isMounted <==> !e.Reset? && (e.Mounted? || s.isMounted)
    ensures LogMatches(t)
  {
    assert t.log[..|s.log|] == s.log;
    forall i | 0 <= i < |t.log|
      ensures (t.log[i].Scheduled? ==> t.log[i].delay == Delay(ScheduledSince(t.log[..i])))
           && (t.log[i].Resolving? ==> !ResolvedSince(t.log[..i]))
           && (t.log[i].Started? || t.log[i].Opened? || t.log[i].Scheduled? || t.log[i].Resolving? ==> MountedBy(t.log[..i]))
    {
      if i < |s.log| {
        assert t.log[..i] == s.log[..i];
      }
    }
  }

  lemma ConnectInternalKeeps(s: State, device: Device, env: Env)
    requires LogMatches(s)
    ensures LogMatches(DoConnectInternal(s, device, env))
  {
    var t := DoConnectInternal(s, device, env);
    if t.log != s.log {
      EntryKeeps(s, t, Started(s.next));
    }
  }

  lemma ConnectKeeps(s: State, device: Device, env: Env)
    requires LogMatches(s)
    ensures LogMatches(DoConnect(s, device, env))
  {
    if !(s.isMounted && !s.connectionState.Disconnected?) {
      var mounted := s.(deviceId := Some(device), isMounted := true, log := s.log + [Mounted]);
      EntryKeeps(s, mounted, Mounted);
      ConnectInternalKeeps(mounted, device, env);
    }
  }

  lemma ClosedKeeps(s: State, i: SocketId, status: int)
    requires LogMatches(s) && i in s.sockets
    ensures LogMatches(DoClosed(s, i, status))
  {
    var t := DoClosed(s, i, status);
    if t.log != s.log {
      EntryKeeps(s, t, t.log[|s.log|]);
    }
  }

  lemma StepKeepsLog(s: State, e: Event)
    requires LogMatches(s) && Enabled(s, e)
    ensures LogMatches(Apply(s, e))
  {
    var t := Apply(s, e);
    match e
    case Connect(device, env) => ConnectKeeps(s, device, env);
    case Disconnect => EntryKeeps(s, t, Reset);
    case FirstReceive(i) =>
      if s.isMounted {
        EntryKeeps(s, t, Opened(i, s.webSocketTask == Some(i)));
      }
    case Closed(i, status) => ClosedKeeps(s, i, status);
    case TimerFires(timer, env) =>
      ConnectInternalKeeps(s.(timers := s.timers - {timer}), s.deviceId.GetOr(s.timers[timer].device), env);
    case ResolveBegins(_, _) =>
    case ResolveAnswered(r, answer, env) =>
      if answer.Some? {
        ConnectInternalKeeps(s.(resolves := s.resolves - {r}, deviceId := answer), answer.value, env);
      }
  }

  lemma ConnectInternalKeepsTimers(s: State, device: Device, env: Env)
    requires TimersSound(s)
    ensures TimersSound(DoConnectInternal(s, device, env))
  {
  }

  lemma ClosedKeepsTimers(s: State, i: SocketId, status: int)
    requires TimersSound(s) && i in s.sockets
    ensures TimersSound(DoClosed(s, i, status))
  {
    if s.webSocketTask == Some(i) {
      assert forall t | t in s.timers :: s.timers[t].cancelled;
    }
  }

  lemma StepKeepsTimers(s: State, e: Event)
    requires TimersSound(s) && Enabled(s, e)
    ensures TimersSound(Apply(s, e))
  {
    match e
    case Connect(device, env) =>
      ConnectInternalKeepsTimers(s.(deviceId := Some(device), isMounted := true, log := s.log + [Mounted]), device, env);
    case Disconnect =>
    case FirstReceive(_) =>
    case Closed(i, status) => ClosedKeepsTimers(s, i, status);
    case TimerFires(t, env) =>
      ConnectInternalKeepsTimers(s.(timers := s.timers - {t}), s.deviceId.GetOr(s.timers[t].device), env);
    case ResolveBegins(_, _) =>
    case ResolveAnswered(r, answer, env) =>
      if answer.Some? {
        ConnectInternalKeepsTimers(s.(resolves := s.resolves - {r}, deviceId := answer), answer.value, env);
      }
  }

  lemma {:induction false} RunKeeps(s: State, es: seq<Event>)
    requires LogMatches(s) && TimersSound(s) && IsRun(s, es)
    ensures LogMatches(Final(s, es)) && TimersSound(Final(s, es))
    decreases es
  {
    if es != [] {
      StepKeepsLog(s, es[0]);
      StepKeepsTimers(s, es[0]);
      RunKeeps(Apply(s, es[0]), es[1..]);
    }
  }

  // ------------------------------------------------------------ results

  /**
   * Main result on delays. In every run, each scheduled reconnect waits min(2^k, 30) seconds,
   * where k counts those scheduled before it since the last open or clean disconnect.
   */
  lemma DelaysDouble(es: seq<Event>, i: nat)
    requires IsRun(NEW_SERVICE, es)
    requires i < |Final(NEW_SERVICE, es).log| && Final(NEW_SERVICE, es).log[i].Scheduled?
    ensures var log := Final(NEW_SERVICE, es).log;
            log[i].delay == Delay(ScheduledSince(log[..i]))
  {
    RunKeeps(NEW_SERVICE, es);
  }

  lemma {:induction false} NotSince(log: seq<Entry>, i: nat)
    requires i < |log| && log[i].Resolving?
    requires !ResolvedSince(log)
    ensures exists k :: i < k < |log| && Clears(log[k])
    decreases |log|
  {
    var last := |log| - 1;
    if !Clears(log[last]) {
      assert i < last;
      NotSince(log[..last], i);
      var k :| i < k < last && Clears(log[..last][k]);
      assert Clears(log[k]);
    }
  }

  /** Between two re-resolutions of the device there is an open or a clean disconnect. */
  lemma OneResolveBetweenOpens(es: seq<Event>, i: nat, j: nat)
    requires IsRun(NEW_SERVICE, es)
    requires i < j < |Final(NEW_SERVICE, es).log|
    requires Final(NEW_SERVICE, es).log[i].Resolving? && Final(NEW_SERVICE, es).log[j].Resolving?
    ensures var log := Final(NEW_SERVICE, es).log;
            exists k :: i < k < j && Clears(log[k])
  {
    RunKeeps(NEW_SERVICE, es);
    var log := Final(NEW_SERVICE, es).log;
    NotSince(log[..j], i);
    var k :| i < k < j && Clears(log[..j][k]);
    assert Clears(log[k]);
  }

  lemma {:induction false} SinceMounted(log: seq<Entry>) returns (i: nat)
    requires MountedBy(log)
    ensures i < |log| && log[i].Mounted? && forall k | i < k < |log| :: !log[k].Reset?
    decreases |log|
  {
    if log[|log| - 1].Mounted? {
      i := |log| - 1;
    } else {
      i := SinceMounted(log[..|log| - 1]);
    }
  }

  /** After disconnect() no socket is started, and no reconnect scheduled, until connect(). */
  lemma NothingAfterDisconnect(es: seq<Event>, d: nat, j: nat)
    requires IsRun(NEW_SERVICE, es)
    requires d < j < |Final(NEW_SERVICE, es).log|
    requires var log := Final(NEW_SERVICE, es).log;
             log[d].Reset? && (log[j].Started? || log[j].Scheduled? || log[j].Opened? || log[j].Resolving?)
    ensures var log := Final(NEW_SERVICE, es).log;
            exists i :: d < i < j && log[i].Mounted?
  {
    RunKeeps(NEW_SERVICE, es);
    var log := Final(NEW_SERVICE, es).log;
    var i := SinceMounted(log[..j]);
    assert log[..j][i] == log[i] && log[..j][d] == log[d];
    assert i > d;
  }

  /**
   * At most one reconnect timer can still act, and none can while there is a current socket: a
   * timer never tears down a connection.
   */
  lemma TimersNeverInterfere(es: seq<Event>, t: TimerId, env: Env)
    requires IsRun(NEW_SERVICE, es)
    requires t in Final(NEW_SERVICE, es).timers
    ensures var s := Final(NEW_SERVICE, es);
            && (!s.timers[t].cancelled ==> s.webSocketTask.None?)
            && (s.webSocketTask.Some? ==> Apply(s, TimerFires(t, env)) == s.(timers := s.timers - {t}))
            && (forall u | u in s.timers && !s.timers[u].cancelled && !s.timers[t].cancelled :: u == t)
  {
    RunKeeps(NEW_SERVICE, es);
  }

  /** A superseded socket's end changes nothing but that it has ended. */
  lemma SupersededEndIgnored(s: State, i: SocketId, status: int)
    requires i in s.sockets && s.webSocketTask != Some(i)
    ensures Apply(s, Closed(i, status)) == s.(sockets := s.sockets - {i})
  {
  }

  // ------------------------------------------------------------ devices

  function Given(before: Option<Device>, e: Event): Option<Device> {
    if e.Connect? then Some(e.device)
    else if e.ResolveAnswered? && e.answer.Some? then e.answer
    else before
  }

  /** The device last given, by connect() or by a resolver's answer. */
  function LastGiven(es: seq<Event>): Option<Device> {
    if es == [] then None else Given(LastGiven(es[..|es| - 1]), es[|es| - 1])
  }

  /** Nothing has been started before a device was given. */
  ghost predicate DeviceKnown(s: State) {
    s.deviceId.None? ==> s.sockets == map[] && s.timers == map[] && s.resolves == map[]
  }

  lemma DeviceStep(s: State, e: Event)
    requires DeviceKnown(s) && Enabled(s, e)
    ensures DeviceKnown(Apply(s, e)) && Apply(s, e).deviceId == Given(s.deviceId, e)
  {
  }

  /** A new socket is for the device in the field, also when a timer starts it that was set for another. */
  lemma NewSocketDevice(s: State, e: Event, i: SocketId)
    requires DeviceKnown(s) && Enabled(s, e)
    requires i in Apply(s, e).sockets && i !in s.sockets
    ensures Apply(s, e).deviceId == Some(Apply(s, e).sockets[i].device)
  {
  }

  lemma {:induction false} DeviceIsLastGiven(s: State, es: seq<Event>, more: seq<Event>)
    requires DeviceKnown(s) && IsRun(s, more) && s.deviceId == LastGiven(es)
    ensures DeviceKnown(Final(s, more)) && Final(s, more).deviceId == LastGiven(es + more)
    decreases more
  {
    if more == [] {
      assert es + more == es;
    } else {
      DeviceStep(s, more[0]);
      assert (es + [more[0]])[..|es|] == es;
      assert es + [more[0]] + more[1..] == es + more;
      DeviceIsLastGiven(Apply(s, more[0]), es + [more[0]], more[1..]);
    }
  }

  /**
   * In every run each new socket is for the device last given by connect() or by a resolver's
   * answer, even if it is started by a timer that was set for another.
   */
  lemma SocketsUseLastDevice(es: seq<Event>, e: Event, i: SocketId)
    requires IsRun(NEW_SERVICE, es) && Enabled(Final(NEW_SERVICE, es), e)
    requires i in Apply(Final(NEW_SERVICE, es), e).sockets && i !in Final(NEW_SERVICE, es).sockets
    ensures LastGiven(es + [e]) == Some(Apply(Final(NEW_SERVICE, es), e).sockets[i].device)
  {
    DeviceIsLastGiven(NEW_SERVICE, [], es);
    assert [] + es == es && (es + [e])[..|es|] == es;
    DeviceStep(Final(NEW_SERVICE, es), e);
    NewSocketDevice(Final(NEW_SERVICE, es), e, i);
  }
}
