/** The relay client as the object it is, with the event loop as it sees it (agent/src/relay-client.ts). */
module RelayClientObject {
  import opened Options
  import opened Sequences
  import opened RelayClientModel

  class RelayClient {
    var ws: Option<SocketId>
    var session: Option<Session>
    var reconnectTimer: Option<TimerId>
    var sessionRotationTimer: Option<TimerId>

    // The event loop as the client sees it.
    var now: int
    var timers: map<TimerId, Timer>
    var nextTimer: TimerId
    var tasks: multiset<Task>
    var live: map<SocketId, Phase>
    var nextSocket: SocketId
    ghost var armed: seq<Arming>
    ghost var stopped: bool
    var crashed: bool

    ghost function State(): Client
      reads this
    {
      Client(ws, session, reconnectTimer, sessionRotationTimer, now, timers, nextTimer, tasks, live, nextSocket, armed,
             stopped, crashed)
    }

    ghost predicate Valid()
      reads this
    {
      Inv(State())
    }

    constructor (now: int)
      ensures State() == Fresh(now) && Valid()
    {
      ws, session, reconnectTimer, sessionRotationTimer := None, None, None, None;
      this.now := now;
      timers, nextTimer, tasks, live, nextSocket := map[], 0, multiset{}, map[], 0;
      armed, stopped, crashed := [], false, false;
    }

    method SetTimeout(kind: Kind, ms: int) returns (timer: TimerId)
      modifies `timers, `nextTimer
      ensures timer == old(nextTimer) && nextTimer == timer + 1
      ensures timers == old(timers)[timer := Timer(kind, now + TimerDelay(ms))]
    {
      timer := nextTimer;
      timers := timers[timer := Timer(kind, now + TimerDelay(ms))];
      nextTimer := nextTimer + 1;
    }

    method ClearTimeout(timer: TimerId)
      modifies `timers
      ensures timers == old(timers) - {timer}
    {
      timers := timers - {timer};
    }

    method Spawn(task: Task)
      modifies `tasks
      ensures State() == Begin(old(State()), task)
    {
      tasks := tasks + multiset{task};
    }

    method Start(file: Option<Grant>)
      requires Valid() && !crashed
      modifies this
      ensures State() == Step(old(State()), StartCall(file)) && Valid()
    {
      StepInv(State(), StartCall(file));
      RunEnsureSession(file, true);
    }

    /** Clears both timers; the fields keep them. */
    method ClearPendingTimers()
      modifies `timers
      ensures timers == ClearTimer(ClearTimer(old(State()), reconnectTimer), sessionRotationTimer).timers
    {
      if reconnectTimer.Some? {
        ClearTimeout(reconnectTimer.value);
      }
      if sessionRotationTimer.Some? {
        ClearTimeout(sessionRotationTimer.value);
      }
    }

    method StopClient()
      requires Valid() && !crashed
      modifies this
      ensures State() == Step(old(State()), StopCall) && Valid() && timers == map[]
    {
      hide Inv;
      StepInv(State(), StopCall);
      StopInv(State());
      ClearPendingTimers();
      CloseCurrent();
      ws := None;
      stopped := true;
    }

    method RefreshSessionState(file: Option<Grant>)
      requires Valid() && !crashed
      modifies this
      ensures State() == Refresh(old(State()), file) && Valid()
    {
      hide Inv;
      RefreshInv(State(), file);
      if session.None? {
        return;
      }
      if session.value.Full? && session.value.grant.expiresAt <= now {
        RotateSession(file, false);
        return;
      }
      Spawn(Refreshing);
    }

    /** A frame on which the client reports its status. */
    method OnStatusFrame(socket: SocketId, file: Option<Grant>)
      requires Valid() && Enabled(State(), StatusFrame(socket, file))
      modifies this
      ensures State() == Step(old(State()), StatusFrame(socket, file)) && Valid()
    {
      RefreshSessionState(file);
    }

    method RunEnsureSession(file: Option<Grant>, caught: bool)
      modifies `tasks
      ensures State() == EnsureSession(old(State()), file, caught)
    {
      if file.Some? && file.value.expiresAt > now {
        Spawn(Restoring(file.value, caught));
      } else {
        Spawn(Posting(caught));
      }
    }

    method RunScheduleRetry()
      modifies `timers, `nextTimer, `reconnectTimer
      ensures State() == ScheduleSessionRetry(old(State()))
    {
      if reconnectTimer.Some? {
        return;
      }
      var timer := SetTimeout(Retry, RETRY_MS);
      reconnectTimer := Some(timer);
    }

    method RunScheduleReconnect()
      modifies `timers, `nextTimer, `reconnectTimer
      ensures State() == ScheduleReconnect(old(State()))
    {
      if reconnectTimer.Some? || session.None? {
        return;
      }
      var timer := SetTimeout(Reconnect, RECONNECT_MS);
      reconnectTimer := Some(timer);
    }

    method RunScheduleSessionRotation(expiresAt: int)
      modifies `timers, `nextTimer, `sessionRotationTimer, `armed
      ensures State() == ScheduleSessionRotation(old(State()), expiresAt)
    {
      hide TimerDelay;
      if sessionRotationTimer.Some? {
        ClearTimeout(sessionRotationTimer.value);
      }
      var rotateInMs := Max(expiresAt - now - ROTATE_BEFORE_EXPIRY_MS, 1_000);
      var timer := SetTimeout(Rotation, rotateInMs);
      sessionRotationTimer := Some(timer);
      armed := armed + [Arming(timer, now, expiresAt, now + TimerDelay(rotateInMs))];
    }

    method InstallSession(grant: Grant)
      modifies `session, `timers, `nextTimer, `sessionRotationTimer, `armed
      ensures State() == Install(old(State()), grant)
    {
      hide ScheduleSessionRotation;
      session := Some(Full(grant));
      RunScheduleSessionRotation(grant.expiresAt);
    }

    method ClearBothTimers()
      modifies `reconnectTimer, `sessionRotationTimer, `timers
      ensures reconnectTimer.None? && sessionRotationTimer.None?
      ensures timers == ClearTimer(ClearTimer(old(State()), old(reconnectTimer)), old(sessionRotationTimer)).timers
    {
      if reconnectTimer.Some? {
        ClearTimeout(reconnectTimer.value);
        reconnectTimer := None;
      }
      if sessionRotationTimer.Some? {
        ClearTimeout(sessionRotationTimer.value);
        sessionRotationTimer := None;
      }
    }

    /** `close` on the current socket: one in its handshake fails, any other keeps on until its close event. */
    method CloseCurrent()
      modifies `live
      ensures live == ClosedCurrent(old(State()))
    {
      if ws.Some? && ws.value in live && live[ws.value] == Connecting {
        live := live[ws.value := Failed];
      }
    }

    method RotateSession(file: Option<Grant>, caught: bool)
      modifies `reconnectTimer, `sessionRotationTimer, `timers, `ws, `session, `live, `tasks
      ensures State() == Rotate(old(State()), file, caught)
    {
      hide EnsureSession;
      ClearBothTimers();
      CloseCurrent();
      ws := None;
      session := None;
      RunEnsureSession(file, caught);
    }

    /** Without a URL it throws before there is a socket; if nobody catches that, the process ends. */
    method Connect(caught: bool)
      modifies `ws, `live, `nextSocket, `crashed
      ensures State() == Connected(old(State()), caught)
    {
      if session.None? {
        return;
      }
      if !HasUrl(session.value) {
        if !caught {
          crashed := true;
        }
        return;
      }
      ws := Some(nextSocket);
      live := live[nextSocket := Connecting];
      nextSocket := nextSocket + 1;
    }

    method OnResume(task: Task, outcome: Outcome, file: Option<Grant>)
      requires Valid() && !crashed && task in tasks
      modifies this
      ensures State() == Step(old(State()), Resume(task, outcome, file)) && Valid()
    {
      hide Inv, Continue;
      StepInv(State(), Resume(task, outcome, file));
      tasks := tasks - multiset{task};
      if task.Finishing? || task.Refreshing? || task.ReadingStatus? {
        ResumeOther(task, outcome, file);
      } else {
        ResumeCreation(task, outcome, file);
      }
    }

    /** The rest of `refreshSessionState`, or what follows `ensureSession`. */
    method ResumeOther(task: Task, outcome: Outcome, file: Option<Grant>)
      requires task.Finishing? || task.Refreshing? || task.ReadingStatus?
      modifies this
      ensures State() == Continue(old(State()), task, outcome, file)
    {
      hide Rotate, Connected;
      match task {
        case Finishing(caught) => Connect(caught);
        case Refreshing =>
          if outcome.Good? {
            Spawn(ReadingStatus);
          } else if outcome.Refused? {
            RotateSession(file, true);
          }
        case ReadingStatus =>
          if outcome.Good? && session.None? {
            session := Some(Partial);
          }
      }
    }

    /** The rest of `ensureSession`. */
    method ResumeCreation(task: Task, outcome: Outcome, file: Option<Grant>)
      requires task.Restoring? || task.Posting? || task.ReadingError? || task.ReadingBody?
      modifies `session, `timers, `nextTimer, `reconnectTimer, `sessionRotationTimer, `armed, `tasks
      ensures State() == Continue(old(State()), task, outcome, file)
    {
      hide Install, ScheduleSessionRetry, Rotate;
      match task {
        case Restoring(grant, caught) =>
          if outcome.Good? {
            InstallSession(grant);
            Spawn(Finishing(caught));
          } else {
            Spawn(Posting(caught));
          }
        case Posting(caught) =>
          if outcome.Good? {
            Spawn(ReadingBody(caught));
          } else if outcome.Threw? {
            RunScheduleRetry();
            Spawn(Finishing(caught));
          } else {
            Spawn(ReadingError(caught));
          }
        case ReadingError(caught) =>
          RunScheduleRetry();
          Spawn(Finishing(caught));
        case ReadingBody(caught) =>
          if outcome.Good? {
            InstallSession(outcome.grant);
          } else {
            RunScheduleRetry();
          }
          Spawn(Finishing(caught));
      }
    }

    method OnTimer(timer: TimerId, file: Option<Grant>)
      requires Valid() && Enabled(State(), Fire(timer, file))
      modifies this
      ensures State() == Step(old(State()), Fire(timer, file)) && Valid()
    {
      hide Inv, Rotate, Connected, EnsureSession;
      StepInv(State(), Fire(timer, file));
      var kind := timers[timer].kind;
      timers := timers - {timer};
      match kind {
        case Retry =>
          reconnectTimer := None;
          RunEnsureSession(file, false);
        case Reconnect =>
          reconnectTimer := None;
          Connect(false);
        case Rotation =>
          sessionRotationTimer := None;
          RotateSession(file, false);
      }
    }

    /** Sends the token on the current socket; if that is still in its handshake, `send` throws. */
    method OnSocketOpen(socket: SocketId)
      requires Valid() && Enabled(State(), SocketOpened(socket))
      modifies this
      ensures State() == Step(old(State()), SocketOpened(socket)) && Valid()
    {
      hide Inv;
      StepInv(State(), SocketOpened(socket));
      live := live[socket := Opened];
      if session.None? || ws.None? {
        return;
      }
      if ws.value in live && live[ws.value] == Connecting {
        crashed := true;
      }
    }

    method OnSocketError(socket: SocketId)
      requires Valid() && Enabled(State(), SocketError(socket))
      modifies this
      ensures State() == Step(old(State()), SocketError(socket)) && Valid()
    {
      hide Inv;
      StepInv(State(), SocketError(socket));
      CloseCurrent();
      live := live[socket := Failed];
    }

    method OnSocketClose(socket: SocketId)
      requires Valid() && !crashed && socket in live
      modifies this
      ensures State() == Step(old(State()), SocketClosed(socket)) && Valid()
    {
      hide Inv;
      StepInv(State(), SocketClosed(socket));
      live := live - {socket};
      RunScheduleReconnect();
    }
  }
}
