/**
 * The iOS WebSocket service: one current socket, exponential backoff between attempts, and one
 * re-resolution of a rejected device. Every callback of a socket, timer or resolver is a step.
 */
module Reconnect {
  import opened Wrappers

  type SocketId = nat
  type TimerId = nat
  type ResolveId = nat
  type Device = nat

  const INITIAL_BACKOFF := 1
  const MAX_BACKOFF := 30

  datatype ConnectionState = Disconnected | Connecting | Connected

  /** What an attempt to connect finds in the keychain and makes of the server address. */
  datatype Env = NoCredentials | BadUrl | Good

  /** A socket's receive loop, with its local didOpen. */
  datatype Socket = Socket(device: Device, didOpen: bool)

  datatype Timer = Timer(device: Device, cancelled: bool)

  /** Queued: the resolving task has not run yet; Asking: it awaits the callback's answer. */
  datatype Resolve = Queued | Asking

  /** What happened, oldest first; `current` says whether the opened socket was the current one. */
  datatype Entry =
    | Mounted
    | Reset
    | Started(socket: SocketId)
    | Opened(socket: SocketId, current: bool)
    | Scheduled(delay: nat)
    | Resolving

  /**
   * `sockets`, `timers` and `resolves` are the receive loops, reconnect tasks and resolving tasks
   * that have not ended; the other fields are the service's own.
   */
  datatype State = State(
    connectionState: ConnectionState, deviceId: Option<Device>, webSocketTask: Option<SocketId>,
    backoff: nat, reconnectTask: Option<TimerId>, isMounted: bool, retriedDevice: bool,
    sockets: map<SocketId, Socket>, timers: map<TimerId, Timer>, resolves: map<ResolveId, Resolve>,
    next: nat, log: seq<Entry>)

  // ------------------------------------------------------------ specification

  function Cancelled(timers: map<TimerId, Timer>, task: Option<TimerId>): map<TimerId, Timer> {
    match task
    case None => timers
    case Some(t) => if t in timers then timers[t := timers[t].(cancelled := true)] else timers
  }

  function DoConnectInternal(s: State, device: Device, env: Env): State {
    if !s.isMounted || env.NoCredentials? then s
    else
      var quiet := s.(timers := Cancelled(s.timers, s.reconnectTask), reconnectTask := None);
      if env.BadUrl? then quiet.(connectionState := Disconnected)
      else
        quiet.(connectionState := Connecting, webSocketTask := Some(s.next),
               sockets := s.sockets[s.next := Socket(device, false)], next := s.next + 1,
               log := s.log + [Started(s.next)])
  }

  function DoConnect(s: State, device: Device, env: Env): State {
    var known := s.(deviceId := Some(device));
    if s.isMounted && !s.connectionState.Disconnected? then known
    else DoConnectInternal(known.(isMounted := true, log := s.log + [Mounted]), device, env)
  }

  function DoDisconnect(s: State): State {
    s.(isMounted := false, timers := Cancelled(s.timers, s.reconnectTask), reconnectTask := None,
       webSocketTask := None, connectionState := Disconnected, backoff := INITIAL_BACKOFF,
       retriedDevice := false, log := s.log + [Reset])
  }

  /** The first message on a socket; nothing asks whether the socket is still the current one. */
  function DoFirstReceive(s: State, i: SocketId): State
    requires i in s.sockets
  {
    var marked := s.(sockets := s.sockets[i := s.sockets[i].(didOpen := true)]);
    if !s.isMounted then marked
    else marked.(connectionState := Connected, backoff := INITIAL_BACKOFF, retriedDevice := false,
                 log := s.log + [Opened(i, s.webSocketTask == Some(i))])
  }

  predicate RejectsDevice(status: int) {
    status == 400 || status == 403
  }

  /** A reconnect after the current backoff, which doubles up to its bound. */
  function DoSchedule(s: State, device: Device): State {
    s.(backoff := if s.backoff * 2 < MAX_BACKOFF then s.backoff * 2 else MAX_BACKOFF,
       timers := s.timers[s.next := Timer(device, false)], reconnectTask := Some(s.next), next := s.next + 1,
       log := s.log + [Scheduled(s.backoff)])
  }

  function DoClosed(s: State, i: SocketId, status: int): State
    requires i in s.sockets
  {
    var ended := s.(sockets := s.sockets - {i});
    if !s.isMounted || s.webSocketTask != Some(i) then ended
    else
      var down := ended.(webSocketTask := None, connectionState := Disconnected);
      if !s.sockets[i].didOpen && !s.retriedDevice && RejectsDevice(status) then
        down.(retriedDevice := true, resolves := s.resolves[s.next := Queued], next := s.next + 1,
              log := s.log + [Resolving])
      else
        DoSchedule(down, s.sockets[i].device)
  }

  function DoTimerFires(s: State, t: TimerId, env: Env): State
    requires t in s.timers
  {
    var ended := s.(timers := s.timers - {t});
    if !s.isMounted || s.timers[t].cancelled then ended
    else DoConnectInternal(ended, s.deviceId.GetOr(s.timers[t].device), env)
  }

  function DoResolveBegins(s: State, r: ResolveId, hasResolver: bool): State {
    if s.isMounted && hasResolver then s.(resolves := s.resolves[r := Asking])
    else s.(resolves := s.resolves - {r})
  }

  function DoResolved(s: State, r: ResolveId, answer: Option<Device>, env: Env): State {
    var ended := s.(resolves := s.resolves - {r});
    match answer
    case None => ended
    case Some(device) => DoConnectInternal(ended.(deviceId := Some(device)), device, env)
  }

  // ------------------------------------------------------------ the service

  class WebSocketService {
    var connectionState: ConnectionState
    var deviceId: Option<Device>
    var webSocketTask: Option<SocketId>
    var backoff: nat
    var reconnectTask: Option<TimerId>
    var isMounted: bool
    var retriedDevice: bool
    var sockets: map<SocketId, Socket>
    var timers: map<TimerId, Timer>
    var resolves: map<ResolveId, Resolve>
    var next: nat
    ghost var log: seq<Entry>

    constructor ()
      ensures View() == State(Disconnected, None, None, INITIAL_BACKOFF, None, false, false, map[], map[], map[], 0, [])
    {
      connectionState, deviceId, webSocketTask := Disconnected, None, None;
      backoff, reconnectTask, isMounted, retriedDevice := INITIAL_BACKOFF, None, false, false;
      sockets, timers, resolves, next, log := map[], map[], map[], 0, [];
    }

    ghost function View(): State
      reads this
    {
      State(connectionState, deviceId, webSocketTask, backoff, reconnectTask, isMounted, retriedDevice,
            sockets, timers, resolves, next, log)
    }

    method CancelReconnect()
      modifies this`timers, this`reconnectTask
      ensures timers == Cancelled(old(timers), old(reconnectTask)) && reconnectTask == None
    {
      if reconnectTask.Some? && reconnectTask.value in timers {
        timers := timers[reconnectTask.value := timers[reconnectTask.value].(cancelled := true)];
      }
      reconnectTask := None;
    }

    method ConnectInternal(device: Device, env: Env)
      modifies this
      ensures View() == DoConnectInternal(old(View()), device, env)
      ensures !isMounted || env == NoCredentials ==> View() == old(View())
      ensures isMounted && env == BadUrl ==> connectionState == Disconnected && sockets == old(sockets)
      ensures isMounted && env == Good ==>
                && connectionState == Connecting && webSocketTask == Some(old(next))
                && sockets == old(sockets)[old(next) := Socket(device, false)]
      ensures isMounted && env != NoCredentials ==>
                && reconnectTask == None && timers.Keys == old(timers).Keys
                && (forall t | t in timers ::
                      timers[t].cancelled <==> old(timers)[t].cancelled || old(reconnectTask) == Some(t))
      ensures (deviceId, isMounted, backoff, retriedDevice) == old((deviceId, isMounted, backoff, retriedDevice))
    {
      if !isMounted {
        return;
      }
      if env.NoCredentials? {
        return;
      }
      CancelReconnect();
      connectionState := Connecting;
      if env.BadUrl? {
        connectionState := Disconnected;
        return;
      }
      webSocketTask := Some(next);
      sockets := sockets[next := Socket(device, false)];
      log := log + [Started(next)];
      next := next + 1;
    }

    method Connect(device: Device, env: Env)
      modifies this
      ensures View() == DoConnect(old(View()), device, env)
      ensures deviceId == Some(device) && isMounted
      ensures old(isMounted) && old(connectionState) != Disconnected ==>
                (connectionState, webSocketTask, sockets, timers) == old((connectionState, webSocketTask, sockets, timers))
      ensures (!old(isMounted) || old(connectionState) == Disconnected) && env == Good ==>
                && connectionState == Connecting && webSocketTask == Some(old(next))
                && sockets == old(sockets)[old(next) := Socket(device, false)]
    {
      deviceId := Some(device);
      if isMounted && connectionState != Disconnected {
        return;
      }
      isMounted := true;
      log := log + [Mounted];
      ConnectInternal(device, env);
    }

    method Disconnect()
      modifies this
      ensures View() == DoDisconnect(old(View()))
      ensures !isMounted && connectionState == Disconnected && webSocketTask == None && reconnectTask == None
      ensures backoff == 1 && !retriedDevice
      ensures old(reconnectTask).Some? && old(reconnectTask).value in timers ==> timers[old(reconnectTask).value].cancelled
    {
      isMounted := false;
      CancelReconnect();
      webSocketTask := None;
      connectionState := Disconnected;
      backoff := INITIAL_BACKOFF;
      retriedDevice := false;
      log := log + [Reset];
    }

    method FirstReceive(i: SocketId)
      requires i in sockets
      modifies this
      ensures View() == DoFirstReceive(old(View()), i)
      ensures sockets == old(sockets)[i := Socket(old(sockets)[i].device, true)] && webSocketTask == old(webSocketTask)
      ensures isMounted ==> connectionState == Connected && backoff == 1 && !retriedDevice
      ensures !isMounted ==> (connectionState, backoff, retriedDevice) == old((connectionState, backoff, retriedDevice))
    {
      sockets := sockets[i := sockets[i].(didOpen := true)];
      if !isMounted {
        return;
      }
      connectionState := Connected;
      backoff := INITIAL_BACKOFF;
      retriedDevice := false;
      log := log + [Opened(i, webSocketTask == Some(i))];
    }

    method ScheduleReconnect(device: Device)
      modifies this
      ensures View() == DoSchedule(old(View()), device)
    {
      var delay := backoff;
      backoff := if backoff * 2 < MAX_BACKOFF then backoff * 2 else MAX_BACKOFF;
      timers := timers[next := Timer(device, false)];
      reconnectTask := Some(next);
      next := next + 1;
      log := log + [Scheduled(delay)];
    }

    /** The receive loop has ended; `status` is the HTTP status of the upgrade, 0 if there is none. */
    method HandleDisconnect(i: SocketId, status: int)
      requires i in sockets
      modifies this
      ensures View() == DoClosed(old(View()), i, status)
      ensures sockets == old(sockets) - {i}
      ensures !isMounted || old(webSocketTask) != Some(i) ==>
                (webSocketTask, connectionState, timers, resolves, backoff) ==
                old((webSocketTask, connectionState, timers, resolves, backoff))
      ensures isMounted && old(webSocketTask) == Some(i) ==>
                && webSocketTask == None && connectionState == Disconnected
                && if !old(sockets)[i].didOpen && !old(retriedDevice) && status in {400, 403}
                   then retriedDevice && resolves == old(resolves)[old(next) := Queued]
                        && timers == old(timers) && backoff == old(backoff)
                   else reconnectTask == Some(old(next))
                        && timers == old(timers)[old(next) := Timer(old(sockets)[i].device, false)]
                        && backoff == (if old(backoff) < 15 then 2 * old(backoff) else 30)
                        && resolves == old(resolves) && retriedDevice == old(retriedDevice)
    {
      var task := sockets[i];
      sockets := sockets - {i};
      if !isMounted {
        return;
      }
      if webSocketTask != Some(i) {
        return;
      }
      webSocketTask := None;
      connectionState := Disconnected;
      if !task.didOpen && !retriedDevice {
        if status == 400 || status == 403 {
          retriedDevice := true;
          resolves := resolves[next := Queued];
          next := next + 1;
          log := log + [Resolving];
          return;
        }
      }
      ScheduleReconnect(task.device);
    }

    method TimerFires(t: TimerId, env: Env)
      requires t in timers
      modifies this
      ensures View() == DoTimerFires(old(View()), t, env)
      ensures !isMounted || old(timers)[t].cancelled || env != Good ==> sockets == old(sockets)
      ensures isMounted && !old(timers)[t].cancelled && env == Good ==>
                var device := if deviceId.Some? then deviceId.value else old(timers)[t].device;
                && sockets == old(sockets)[old(next) := Socket(device, false)]
                && webSocketTask == Some(old(next)) && connectionState == Connecting
      ensures t !in timers && deviceId == old(deviceId)
    {
      var timer := timers[t];
      timers := timers - {t};
      if !isMounted || timer.cancelled {
        return;
      }
      ConnectInternal(if deviceId.Some? then deviceId.value else timer.device, env);
    }

    method ResolveBegins(r: ResolveId, hasResolver: bool)
      modifies this`resolves
      ensures View() == DoResolveBegins(old(View()), r, hasResolver)
      ensures r in resolves <==> isMounted && hasResolver
      ensures r in resolves ==> resolves[r] == Asking
    {
      if !isMounted || !hasResolver {
        resolves := resolves - {r};
        return;
      }
      resolves := resolves[r := Asking];
    }

    method Resolved(r: ResolveId, answer: Option<Device>, env: Env)
      modifies this
      ensures View() == DoResolved(old(View()), r, answer, env)
      ensures r !in resolves && deviceId == if answer.Some? then answer else old(deviceId)
      ensures answer.Some? && isMounted && env == Good ==>
                && sockets == old(sockets)[old(next) := Socket(answer.value, false)]
                && webSocketTask == Some(old(next)) && connectionState == Connecting
      ensures answer.None? || !isMounted || env != Good ==> sockets == old(sockets)
    {
      resolves := resolves - {r};
      if answer.Some? {
        deviceId := answer;
        ConnectInternal(answer.value, env);
      }
    }
  }
}
