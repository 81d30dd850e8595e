/** What `stop` on the relay client ends, and what it does not (agent/src/relay-client.ts). */
module RelayClientStop {
  import opened Options
  import opened Sequences
  import opened RelayClientModel

  /** What happens without a call from outside; also the frames of a socket that is still there. */
  predicate Internal(e: Event) {
    !e.StartCall? && !e.StopCall?
  }

  /** A task that can go on to store a session. */
  predicate Stores(t: Task) {
    t.Restoring? || t.Posting? || t.ReadingBody? || t.Refreshing?
  }

  predicate FailsNext(t: Task) {
    t.ReadingError?
  }

  predicate ConnectsNext(t: Task) {
    t.Finishing?
  }

  predicate SomeTask(c: Client, p: Task -> bool) {
    exists t :: t in c.tasks && p(t)
  }

  /** Some socket can hand over a frame, at once or after it opened. */
  predicate Speaks(c: Client) {
    exists socket :: socket in c.live && c.live[socket] != Failed
  }

  /** There is a session, or a status on its way that brings one back. */
  predicate HoldsSession(c: Client) {
    c.session.Some? || ReadingStatus in c.tasks
  }

  predicate MayConnect(c: Client) {
    && c.session.Some? && HasUrl(c.session.value)
    && (SomeTask(c, ConnectsNext) || SomeTask(c, FailsNext))
  }

  /** Some answer to what is in flight, or an event of a socket, arms a timer even after `stop`: a frame
      has the session refreshed, and a refusal has it created anew, whatever the fields say; a failed
      creation or a close arms one when no timer is remembered. */
  predicate Restless(c: Client) {
    && !c.crashed
    && (|| SomeTask(c, Stores)
        || (Speaks(c) && HoldsSession(c))
        || MayConnect(c)
        || (c.reconnectTimer.None? && (SomeTask(c, FailsNext) || (c.live != map[] && HoldsSession(c)))))
  }

  predicate AllInternal(events: seq<Event>) {
    forall e :: e in events ==> Internal(e)
  }

  /** Nothing pending, and nothing that could make it so. */
  predicate Still(c: Client) {
    c.timers == map[] && !Restless(c)
  }

  // ----- a still client stays still -----

  lemma StillFinishing(c: Client, caught: bool)
    requires Still(c) && !c.crashed && Finishing(caught) in c.tasks
    ensures Still(Connected(c.(tasks := c.tasks - multiset{Finishing(caught)}), caught))
  {
    assert ConnectsNext(Finishing(caught));
  }

  lemma StillReadingError(c: Client, caught: bool)
    requires Still(c) && !c.crashed && ReadingError(caught) in c.tasks
    ensures var c0 := c.(tasks := c.tasks - multiset{ReadingError(caught)});
            ScheduleSessionRetry(c0) == c0 && Still(Begin(c0, Finishing(caught)))
  {
    assert FailsNext(ReadingError(caught));
    assert c.reconnectTimer.Some?;
  }

  lemma StillReadingStatus(c: Client, outcome: Outcome, file: Option<Grant>)
    requires Still(c) && !c.crashed && ReadingStatus in c.tasks
    ensures Still(ResumeStep(c, ReadingStatus, outcome, file))
  {
  }

  lemma StillResume(c: Client, task: Task, outcome: Outcome, file: Option<Grant>)
    requires Still(c) && task in c.tasks && !c.crashed
    ensures Still(ResumeStep(c, task, outcome, file))
  {
    hide Install, Rotate;
    assert !Stores(task);
    match task
    case Finishing(caught) => StillFinishing(c, caught);
    case ReadingError(caught) => StillReadingError(c, caught);
    case ReadingStatus => StillReadingStatus(c, outcome, file);
  }

  /** Neither does a socket wake it. */
  lemma StillSocket(c: Client, socket: SocketId)
    requires Still(c) && !c.crashed
    ensures IsConnecting(c, socket) ==> Still(Open(c, socket))
    ensures IsOpened(c, socket) ==> c.session.None?
    ensures socket in c.live ==> Still(Fail(c, socket)) && Still(ScheduleReconnect(c.(live := c.live - {socket})))
  {
    hide TimerDelay;
  }

  lemma StillStep(c: Client, e: Event)
    requires Still(c) && Internal(e) && Enabled(c, e)
    ensures Still(Step(c, e))
  {
    hide ResumeStep, FireStep, Open, Fail, ScheduleReconnect;
    if e.Resume? {
      StillResume(c, e.task, e.outcome, e.file);
    } else if e.SocketOpened? || e.SocketClosed? || e.SocketError? || e.StatusFrame? {
      StillSocket(c, e.socket);
    }
  }

  lemma {:induction false} StillRun(c: Client, events: seq<Event>)
    requires Still(c) && AllInternal(events) && CanRun(c, events)
    ensures Run(c, events).timers == map[]
    decreases |events|
  {
    if events != [] {
      assert events[0] in events;
      StillStep(c, events[0]);
      assert forall e :: e in events[1..] ==> e in events;
      StillRun(Step(c, events[0]), events[1..]);
    }
  }

  // ----- a restless one can arm a timer -----

  ghost predicate Arms(c: Client, events: seq<Event>) {
    AllInternal(events) && CanRun(c, events) && Run(c, events).timers != map[]
  }

  lemma Now(c: Client, e: Event) returns (events: seq<Event>)
    requires Enabled(c, e) && Internal(e) && Step(c, e).timers != map[]
    ensures Arms(c, events)
  {
    events := [e];
    assert events[1..] == [];
  }

  lemma Then(c: Client, e: Event, rest: seq<Event>) returns (events: seq<Event>)
    requires Enabled(c, e) && Internal(e) && Arms(Step(c, e), rest)
    ensures Arms(c, events)
  {
    events := [e] + rest;
    assert events[1..] == rest;
  }

  lemma InstallArms(c: Client, grant: Grant)
    ensures c.nextTimer in Install(c, grant).timers
  {
  }

  lemma PostingArms(c: Client) returns (events: seq<Event>)
    requires !c.crashed && exists t :: t in c.tasks && (t.Posting? || t.ReadingBody?)
    ensures Arms(c, events)
  {
    hide Arms, Install;
    var t :| t in c.tasks && (t.Posting? || t.ReadingBody?);
    if t.ReadingBody? {
      InstallArms(c.(tasks := c.tasks - multiset{t}), OK.grant);
      events := Now(c, Resume(t, OK, None));
    } else {
      var c1 := Step(c, Resume(t, OK, None));
      var body := ReadingBody(t.caught);
      InstallArms(c1.(tasks := c1.tasks - multiset{body}), OK.grant);
      events := Now(c1, Resume(body, OK, None));
      events := Then(c, Resume(t, OK, None), events);
    }
  }

  lemma RefusalArms(c: Client) returns (events: seq<Event>)
    requires !c.crashed && Refreshing in c.tasks
    ensures Arms(c, events)
  {
    hide Arms, ClosedCurrent;
    var c1 := Step(c, Resume(Refreshing, Refused, None));
    assert Posting(true) in c1.tasks;
    events := PostingArms(c1);
    events := Then(c, Resume(Refreshing, Refused, None), events);
  }

  /** A frame has the session refreshed; refused or expired, it is created anew. */
  lemma FrameArms(c: Client, socket: SocketId) returns (events: seq<Event>)
    requires !c.crashed && c.session.Some? && IsOpened(c, socket)
    ensures Arms(c, events)
  {
    hide Arms, ClosedCurrent;
    var e := StatusFrame(socket, None);
    var c1 := Step(c, e);
    if Refreshing in c1.tasks {
      events := RefusalArms(c1);
    } else {
      assert Posting(false) in c1.tasks;
      events := PostingArms(c1);
    }
    events := Then(c, e, events);
  }

  /** Of two sockets in their handshake the current one opens first. */
  lemma SpeakingArms(c: Client) returns (events: seq<Event>)
    requires !c.crashed && c.session.Some? && Speaks(c)
    ensures Arms(c, events)
  {
    hide Arms, Refresh;
    var socket :| socket in c.live && c.live[socket] != Failed;
    if c.live[socket] == Opened {
      events := FrameArms(c, socket);
    } else {
      var first := if c.ws.Some? && IsConnecting(c, c.ws.value) then c.ws.value else socket;
      events := FrameArms(Step(c, SocketOpened(first)), first);
      events := Then(c, SocketOpened(first), events);
    }
  }

  lemma ConnectingArms(c: Client) returns (events: seq<Event>)
    requires !c.crashed && c.session.Some? && HasUrl(c.session.value) && SomeTask(c, ConnectsNext)
    ensures Arms(c, events)
  {
    hide Arms;
    var t :| t in c.tasks && t.Finishing?;
    var c1 := Step(c, Resume(t, OK, None));
    assert IsConnecting(c1, c.nextSocket);
    events := SpeakingArms(c1);
    events := Then(c, Resume(t, OK, None), events);
  }

  lemma FailingArms(c: Client) returns (events: seq<Event>)
    requires !c.crashed && SomeTask(c, FailsNext)
    requires c.reconnectTimer.None? || (c.session.Some? && HasUrl(c.session.value))
    ensures Arms(c, events)
  {
    hide Arms;
    var t :| t in c.tasks && t.ReadingError?;
    var e := Resume(t, OK, None);
    if c.reconnectTimer.None? {
      assert c.nextTimer in Step(c, e).timers;
      events := Now(c, e);
    } else {
      assert ConnectsNext(Finishing(t.caught)) && Finishing(t.caught) in Step(c, e).tasks;
      events := ConnectingArms(Step(c, e));
      events := Then(c, e, events);
    }
  }

  lemma ClosingArms(c: Client) returns (events: seq<Event>)
    requires !c.crashed && c.reconnectTimer.None? && c.session.Some? && c.live != map[]
    ensures Arms(c, events)
  {
    hide Arms;
    var socket :| socket in c.live;
    assert c.nextTimer in Step(c, SocketClosed(socket)).timers;
    events := Now(c, SocketClosed(socket));
  }

  lemma SocketsArm(c: Client) returns (events: seq<Event>)
    requires !c.crashed && HoldsSession(c) && (Speaks(c) || (c.reconnectTimer.None? && c.live != map[]))
    ensures Arms(c, events)
    decreases c.session.None?
  {
    hide Arms;
    if c.session.None? {
      var c1 := Step(c, Resume(ReadingStatus, OK, None));
      assert Speaks(c) ==> Speaks(c1);
      events := SocketsArm(c1);
      events := Then(c, Resume(ReadingStatus, OK, None), events);
    } else if Speaks(c) {
      events := SpeakingArms(c);
    } else {
      events := ClosingArms(c);
    }
  }

  /** What makes a stopped client arm a timer again. */
  lemma RestlessArms(c: Client) returns (events: seq<Event>)
    requires Restless(c)
    ensures Arms(c, events)
  {
    hide Arms, Install, Speaks;
    if SomeTask(c, Stores) {
      var t :| t in c.tasks && Stores(t);
      if t.Restoring? {
        InstallArms(c.(tasks := c.tasks - multiset{t}), t.grant);
        events := Now(c, Resume(t, OK, None));
      } else if t.Refreshing? {
        events := RefusalArms(c);
      } else {
        events := PostingArms(c);
      }
    } else if MayConnect(c) && SomeTask(c, ConnectsNext) {
      events := ConnectingArms(c);
    } else if SomeTask(c, FailsNext) && (c.reconnectTimer.None? || MayConnect(c)) {
      events := FailingArms(c);
    } else {
      events := SocketsArm(c);
    }
  }

  /** `stop` clears every timer, and it is final exactly when nothing is in flight that can arm one: unless
      `start` is called again, no timer is ever pending after it, whatever the sockets still do. */
  lemma StopIsFinalIff(now: int, before: seq<Event>)
    requires CanRun(Fresh(now), before)
    ensures var c := Stop(Run(Fresh(now), before));
            && c.timers == map[]
            && ((forall events :: AllInternal(events) && CanRun(c, events) ==> Run(c, events).timers == map[])
                <==> !Restless(c))
  {
    hide Restless;
    RunInv(Fresh(now), before);
    StopInv(Run(Fresh(now), before));
    var c := Stop(Run(Fresh(now), before));
    if Restless(c) {
      var events := RestlessArms(c);
    } else {
      forall events | AllInternal(events) && CanRun(c, events) ensures Run(c, events).timers == map[] {
        StillRun(c, events);
      }
    }
  }

  /** So stopping a connected client with nothing in flight is not final: its own close event comes
      back as a reconnect two seconds later. */
  lemma ClosedSocketReconnects(c: Client, socket: SocketId)
    requires Inv(c) && !c.crashed && socket in c.live && c.session.Some? && c.reconnectTimer.None?
    ensures var c' := Step(Stop(c), SocketClosed(socket));
            c'.timers == map[c.nextTimer := Timer(Reconnect, c.now + 2_000)] && c'.reconnectTimer == Some(c.nextTimer)
  {
    StopInv(c);
  }

  /** Nor when a timer that `stop` cleared is still remembered: a frame that is on its way has the session
      refreshed, and the refusal has the next one created. */
  lemma StoppedClientCreates(c: Client, socket: SocketId) returns (events: seq<Event>)
    requires Inv(c) && !c.crashed && IsOpened(c, socket) && c.session.Some?
    ensures Arms(Stop(c), events)
  {
    hide Arms, Inv;
    events := FrameArms(Stop(c), socket);
  }
}
