/** Runs of the relay client that show where it does less than it should (agent/src/relay-client.ts). */
module RelayClientRuns {
  import opened Options
  import opened Sequences
  import opened RelayClientModel

  // ----- a rotation, from timer to connect -----

  /** Nothing is going on but a rotation that is due at `due`. */
  predicate Resting(c: Client, due: int) {
    && !c.stopped && !c.crashed
    && c.tasks == multiset{}
    && c.session.Some? && c.session.value.Full?
    && c.reconnectTimer.None?
    && c.rotationTimer.Some?
    && c.timers == map[c.rotationTimer.value := Timer(Rotation, due)]
    && c.now <= due
  }

  function Renewal(c: Client, due: int, grant: Grant): seq<Event>
    requires Resting(c, due)
  {
    [Wait(due), Fire(c.rotationTimer.value, None), Resume(Posting(false), OK, None),
     Resume(ReadingBody(false), Good(grant), None), Resume(Finishing(false), OK, None)]
  }

  function Expired(c: Client, due: int): Client {
    c.(now := due, timers := map[], rotationTimer := None, ws := None, session := None, live := ClosedCurrent(c),
       tasks := multiset{Posting(false)})
  }

  function Stored(c: Client, due: int, grant: Grant): Client {
    var next := due + TimerDelay(RotationDelay(grant.expiresAt, due));
    c.(now := due, ws := None, session := Some(Full(grant)), live := ClosedCurrent(c),
       tasks := multiset{Finishing(false)},
       rotationTimer := Some(c.nextTimer), timers := map[c.nextTimer := Timer(Rotation, next)],
       nextTimer := c.nextTimer + 1, armed := c.armed + [Arming(c.nextTimer, due, grant.expiresAt, next)])
  }

  function Renewed(c: Client, due: int, grant: Grant): Client {
    Stored(c, due, grant).(tasks := multiset{}, ws := Some(c.nextSocket), nextSocket := c.nextSocket + 1,
                           live := ClosedCurrent(c)[c.nextSocket := Connecting])
  }

  lemma ExpiringSteps(c: Client, due: int)
    requires Resting(c, due)
    ensures var c1, t := c.(now := due), c.rotationTimer.value;
            && Enabled(c, Wait(due)) && Step(c, Wait(due)) == c1
            && Enabled(c1, Fire(t, None)) && Step(c1, Fire(t, None)) == Expired(c, due)
  {
    assert c.timers - {c.rotationTimer.value} == map[];
  }

  lemma PostedStep(c: Client, due: int)
    requires !c.crashed
    ensures var c2, e := Expired(c, due), Resume(Posting(false), OK, None);
            Enabled(c2, e) && Step(c2, e) == c2.(tasks := multiset{ReadingBody(false)})
  {
    hide ClosedCurrent;
  }

  lemma InstallIgnoresTasks(c: Client, grant: Grant, tasks: multiset<Task>)
    ensures Install(c.(tasks := tasks), grant) == Install(c, grant).(tasks := tasks)
  {
    hide TimerDelay, RotationDelay;
  }

  lemma BodyStores(c: Client, grant: Grant)
    requires !c.crashed && c.tasks == multiset{ReadingBody(false)}
    ensures var e := Resume(ReadingBody(false), Good(grant), None);
            Enabled(c, e) && Step(c, e) == Install(c, grant).(tasks := multiset{Finishing(false)})
  {
    hide Install;
    InstallIgnoresTasks(c, grant, multiset{});
    assert c.tasks - multiset{ReadingBody(false)} == multiset{};
  }

  lemma StoringStep(c: Client, due: int, grant: Grant)
    requires !c.crashed && c.reconnectTimer.None?
    ensures var c3 := Expired(c, due).(tasks := multiset{ReadingBody(false)});
            var e := Resume(ReadingBody(false), Good(grant), None);
            Enabled(c3, e) && Step(c3, e) == Stored(c, due, grant)
  {
    hide TimerDelay, RotationDelay, ClosedCurrent, Step, Enabled;
    BodyStores(Expired(c, due).(tasks := multiset{ReadingBody(false)}), grant);
  }

  lemma ConnectingStep(c: Client, due: int, grant: Grant)
    requires !c.crashed && grant.url
    ensures var c4, e := Stored(c, due, grant), Resume(Finishing(false), OK, None);
            Enabled(c4, e) && Step(c4, e) == Renewed(c, due, grant)
  {
    hide TimerDelay, RotationDelay, ClosedCurrent;
  }

  lemma RenewalRun(c: Client, due: int, grant: Grant)
    requires Resting(c, due) && grant.url
    ensures CanRun(c, Renewal(c, due, grant)) && Run(c, Renewal(c, due, grant)) == Renewed(c, due, grant)
  {
    hide CanRun, Run, Step, Enabled, Expired, Stored, Renewed;
    var e := Renewal(c, due, grant);
    ExpiringSteps(c, due);
    PostedStep(c, due);
    StoringStep(c, due, grant);
    ConnectingStep(c, due, grant);
    NoEvents(Renewed(c, due, grant), e);
    FirstThen(Stored(c, due, grant), e, 4);
    FirstThen(Expired(c, due).(tasks := multiset{ReadingBody(false)}), e, 3);
    FirstThen(Expired(c, due), e, 2);
    FirstThen(c.(now := due), e, 1);
    FirstThen(c, e, 0);
    assert e[0..] == e;
  }

  // ----- stop -----

  function StopWhileConnected(now: int): seq<Event> {
    [StopCall, SocketClosed(0), Wait(now + 2_000), Fire(1, None)]
  }

  /** A client that starts, connects and is stopped, with nothing in flight, is connecting again two seconds
      after its socket closed. */
  lemma StoppedClientReconnects(now: int, grant: Grant)
    requires grant.url
    ensures var events := Creation(grant) + StopWhileConnected(now);
            && CanRun(Fresh(now), events)
            && var c := Run(Fresh(now), events);
               c.stopped && c.live == map[1 := Connecting] && c.ws == Some(1)
  {
    hide CanRun, Run, Step, Enabled, JustConnected;
    var e := StopWhileConnected(now);
    var c1 := JustConnected(now, grant, Opened);
    CreationRun(now, grant);
    var c2, c3, c4, c5 := StopSteps(now, grant, c1);
    NoEvents(c5, e);
    FirstThen(c4, e, 3);
    FirstThen(c3, e, 2);
    FirstThen(c2, e, 1);
    FirstThen(c1, e, 0);
    assert e[0..] == e;
    RunOn(Fresh(now), Creation(grant), e);
  }

  lemma StopSteps(now: int, grant: Grant, c1: Client) returns (c2: Client, c3: Client, c4: Client, c5: Client)
    requires c1 == JustConnected(now, grant, Opened) && grant.url
    ensures Enabled(c1, StopCall) && Step(c1, StopCall) == c2
    ensures Enabled(c2, SocketClosed(0)) && Step(c2, SocketClosed(0)) == c3
    ensures Enabled(c3, Wait(now + 2_000)) && Step(c3, Wait(now + 2_000)) == c4
    ensures Enabled(c4, Fire(1, None)) && Step(c4, Fire(1, None)) == c5
    ensures c5.stopped && c5.live == map[1 := Connecting] && c5.ws == Some(1)
  {
    hide RotationDelay;
    c2 := c1.(timers := map[], ws := None, stopped := true);
    c3 := c2.(live := map[], timers := map[1 := Timer(Reconnect, now + 2_000)], nextTimer := 2,
              reconnectTimer := Some(1));
    c4 := c3.(now := now + 2_000);
    c5 := c4.(timers := map[], reconnectTimer := None, ws := Some(1), live := map[1 := Connecting], nextSocket := 2);
    assert Stop(c1).timers == map[] && c1.live - {0} == map[];
    assert c4.timers - {1} == map[] && c4.live[1 := Connecting] == map[1 := Connecting];
  }

  // ----- a rotation while the old socket is still there -----

  /** Two minutes to live, so that the rotation is due after one. */
  function TwoMinutes(now: int): Grant {
    Grant(now + 120_000, true)
  }

  /** A client whose first session was rotated: its old socket still open, its new one in its handshake. */
  function Rotated(now: int): Client {
    Renewed(JustConnected(now, TwoMinutes(now), Opened), now + 60_000, TwoMinutes(now + 60_000))
  }

  function UntilRotated(now: int): seq<Event> {
    Creation(TwoMinutes(now))
    + Renewal(JustConnected(now, TwoMinutes(now), Opened), now + 60_000, TwoMinutes(now + 60_000))
  }

  lemma RotatedRun(now: int)
    ensures CanRun(Fresh(now), UntilRotated(now)) && Run(Fresh(now), UntilRotated(now)) == Rotated(now)
  {
    hide CanRun, Run;
    var c := JustConnected(now, TwoMinutes(now), Opened);
    CreationRun(now, TwoMinutes(now));
    RenewalRun(c, now + 60_000, TwoMinutes(now + 60_000));
    RunOn(Fresh(now), Creation(TwoMinutes(now)), Renewal(c, now + 60_000, TwoMinutes(now + 60_000)));
  }

  /** Its old socket closes late, which arms a reconnect; its new one opens; and it is stopped. */
  function StopAfterClose(): seq<Event> {
    [SocketClosed(0), SocketOpened(1), StopCall]
  }

  /** A frame, refused by the relay, and a new session. */
  function FrameAfterStop(grant: Grant): seq<Event> {
    [StatusFrame(1, None), Resume(Refreshing, Refused, None), Resume(Posting(true), OK, None),
     Resume(ReadingBody(true), Good(grant), None)]
  }

  /** What `StopAfterClose` leaves: nothing in flight, no timer, but one remembered and an open socket. */
  function StoppedAfterClose(now: int): Client {
    var c := Rotated(now);
    c.(live := map[1 := Opened], ws := None, reconnectTimer := Some(2), nextTimer := 3, timers := map[],
       stopped := true)
  }

  /** The sockets of a client that was just rotated. */
  lemma RotatedSockets(now: int)
    ensures var c := Rotated(now);
            && !c.crashed && c.tasks == multiset{} && c.reconnectTimer.None? && c.nextTimer == 2 && c.nextSocket == 2
            && c.session == Some(Full(TwoMinutes(now + 60_000))) && c.now == now + 60_000
            && c.ws == Some(1) && c.live == map[0 := Opened, 1 := Connecting]
            && c.rotationTimer == Some(1) && c.timers.Keys == {1}
  {
    hide TimerDelay, RotationDelay;
    assert map[0 := Opened][1 := Connecting] == map[0 := Opened, 1 := Connecting];
  }

  lemma LateCloseSteps(c: Client) returns (c1: Client, c2: Client)
    requires !c.crashed && c.reconnectTimer.None? && c.nextTimer == 2 && c.session.Some?
    requires c.ws == Some(1) && c.live == map[0 := Opened, 1 := Connecting]
    ensures Enabled(c, SocketClosed(0)) && Step(c, SocketClosed(0)) == c1
    ensures Enabled(c1, SocketOpened(1)) && Step(c1, SocketOpened(1)) == c2
    ensures c2 == c.(live := map[1 := Opened], reconnectTimer := Some(2), nextTimer := 3, timers := c2.timers)
    ensures c2.timers.Keys == c.timers.Keys + {2}
  {
    hide TimerDelay;
    c1, c2 := Step(c, SocketClosed(0)), Step(Step(c, SocketClosed(0)), SocketOpened(1));
    assert c.live - {0} == map[1 := Connecting];
    assert map[1 := Connecting][1 := Opened] == map[1 := Opened];
  }

  lemma StopStep(c: Client)
    requires !c.crashed && c.reconnectTimer == Some(2) && c.rotationTimer == Some(1) && c.timers.Keys == {1, 2}
    requires c.ws == Some(1) && c.live == map[1 := Opened]
    ensures Enabled(c, StopCall) && Step(c, StopCall) == c.(ws := None, timers := map[], stopped := true)
  {
    assert (c.timers - {2}) - {1} == map[];
  }

  lemma StopAfterCloseRun(now: int)
    ensures CanRun(Rotated(now), StopAfterClose()) && Run(Rotated(now), StopAfterClose()) == StoppedAfterClose(now)
  {
    hide CanRun, Run, Step, Enabled, Rotated;
    var e, c := StopAfterClose(), Rotated(now);
    RotatedSockets(now);
    var c1, c2 := LateCloseSteps(c);
    StopStep(c2);
    NoEvents(StoppedAfterClose(now), e);
    FirstThen(c2, e, 2);
    FirstThen(c1, e, 1);
    FirstThen(c, e, 0);
    assert e[0..] == e;
  }

  /** A client that began to create its next session. */
  function Dropped(c: Client, task: Task): Client {
    c.(tasks := multiset{task}, reconnectTimer := None, rotationTimer := None, ws := None, session := None,
       live := ClosedCurrent(c))
  }

  lemma RefusalSteps(c: Client, socket: SocketId)
    requires !c.crashed && c.tasks == multiset{} && IsOpened(c, socket) && c.timers == map[]
    requires c.session.Some? && c.session.value.Full? && c.session.value.grant.expiresAt > c.now
    ensures var e0, e1 := StatusFrame(socket, None), Resume(Refreshing, Refused, None);
            var c1 := c.(tasks := multiset{Refreshing});
            && Enabled(c, e0) && Step(c, e0) == c1
            && Enabled(c1, e1) && Step(c1, e1) == Dropped(c, Posting(true))
  {
    hide ClosedCurrent;
    assert Step(c, StatusFrame(socket, None)).tasks == multiset{Refreshing};
    RotateNothing(c, true);
  }

  lemma RotateNothing(c: Client, caught: bool)
    requires c.timers == map[] && c.tasks == multiset{}
    ensures Rotate(c, None, caught) == Dropped(c, Posting(caught))
  {
    hide ClosedCurrent;
    assert Rotate(c, None, caught).timers == map[];
  }

  lemma AnswerStep(c: Client)
    requires !c.crashed
    ensures var c1, e := Dropped(c, Posting(true)), Resume(Posting(true), OK, None);
            Enabled(c1, e) && Step(c1, e) == Dropped(c, ReadingBody(true))
  {
    hide ClosedCurrent;
  }

  lemma BodyStep(c: Client, grant: Grant)
    requires !c.crashed
    ensures var c1, e := Dropped(c, ReadingBody(true)), Resume(ReadingBody(true), Good(grant), None);
            && Enabled(c1, e)
            && Step(c1, e).stopped == c.stopped && Step(c1, e).session == Some(Full(grant))
            && Step(c1, e).rotationTimer == Some(c.nextTimer) && c.nextTimer in Step(c1, e).timers
  {
    hide ClosedCurrent, RotationDelay;
  }

  lemma FrameAfterStopRun(c: Client, grant: Grant)
    requires !c.crashed && c.stopped && c.tasks == multiset{} && IsOpened(c, 1) && c.timers == map[]
    requires c.session.Some? && c.session.value.Full? && c.session.value.grant.expiresAt > c.now
    ensures CanRun(c, FrameAfterStop(grant))
    ensures var c' := Run(c, FrameAfterStop(grant));
            && c'.stopped && c'.session == Some(Full(grant))
            && c'.rotationTimer == Some(c.nextTimer) && c.nextTimer in c'.timers
  {
    hide CanRun, Run, Step, Enabled, Dropped;
    var e := FrameAfterStop(grant);
    RefusalSteps(c, 1);
    AnswerStep(c);
    BodyStep(c, grant);
    NoEvents(Step(Dropped(c, ReadingBody(true)), e[3]), e);
    FirstThen(Dropped(c, ReadingBody(true)), e, 3);
    FirstThen(Dropped(c, Posting(true)), e, 2);
    FirstThen(c.(tasks := multiset{Refreshing}), e, 1);
    FirstThen(c, e, 0);
    assert e[0..] == e;
  }

  /** So a client may be stopped with nothing in flight, no timer pending and one remembered, and still
      create its next session. */
  lemma StoppedClientCreatesSession(now: int, grant: Grant)
    ensures var stopping := UntilRotated(now) + StopAfterClose();
            && CanRun(Fresh(now), stopping)
            && var c := Run(Fresh(now), stopping);
            && c.stopped && c.tasks == multiset{} && c.timers == map[] && c.reconnectTimer.Some?
            && CanRun(c, FrameAfterStop(grant))
            && var c' := Run(c, FrameAfterStop(grant));
            && c'.stopped && c'.session == Some(Full(grant))
            && c'.rotationTimer.Some? && c'.rotationTimer.value in c'.timers
  {
    hide CanRun, Run, Rotated;
    RotatedRun(now);
    RotatedSockets(now);
    StopAfterCloseRun(now);
    RunOn(Fresh(now), UntilRotated(now), StopAfterClose());
    FrameAfterStopRun(StoppedAfterClose(now), grant);
  }

  // ----- a socket that opens too late -----

  function Overtaking(c: Client, earlier: SocketId): seq<Event>
    requires c.ws.Some?
  {
    [SocketClosed(earlier), Wait(c.now + 2_000), Fire(c.nextTimer, None), SocketOpened(c.ws.value)]
  }

  lemma OvertakingSteps(c: Client, earlier: SocketId) returns (c1: Client, c2: Client, c3: Client)
    requires !c.crashed && c.session.Some? && HasUrl(c.session.value) && c.reconnectTimer.None?
    requires c.ws.Some? && earlier in c.live && earlier != c.ws.value
    ensures Enabled(c, SocketClosed(earlier)) && Step(c, SocketClosed(earlier)) == c1
    ensures Enabled(c1, Wait(c.now + 2_000)) && Step(c1, Wait(c.now + 2_000)) == c2
    ensures Enabled(c2, Fire(c.nextTimer, None)) && Step(c2, Fire(c.nextTimer, None)) == c3
    ensures !c3.crashed && c3.session == c.session && c3.ws == Some(c.nextSocket)
    ensures c3.live == (c.live - {earlier})[c.nextSocket := Connecting]
  {
    c1 := c.(live := c.live - {earlier}, reconnectTimer := Some(c.nextTimer), nextTimer := c.nextTimer + 1,
             timers := c.timers[c.nextTimer := Timer(Reconnect, c.now + 2_000)]);
    c2 := c1.(now := c.now + 2_000);
    c3 := Step(c2, Fire(c.nextTimer, None));
  }

  lemma LateOpening(c: Client, socket: SocketId)
    requires !c.crashed && c.session.Some? && IsConnecting(c, socket)
    requires c.ws.Some? && c.ws.value != socket && IsConnecting(c, c.ws.value)
    ensures Enabled(c, SocketOpened(socket)) && Step(c, SocketOpened(socket)).crashed
  {
  }

  /** Every client whose current socket is in its handshake while an older one is still there may end that
      way: the older one closes, the reconnect replaces the current one, and then that one opens.  (The next
      socket is a new one.) */
  lemma OvertakenSocketCrashes(c: Client, earlier: SocketId)
    requires !c.crashed && c.session.Some? && HasUrl(c.session.value) && c.reconnectTimer.None?
    requires c.ws.Some? && IsConnecting(c, c.ws.value)
    requires earlier in c.live && earlier != c.ws.value && c.nextSocket !in c.live
    ensures CanRun(c, Overtaking(c, earlier)) && Run(c, Overtaking(c, earlier)).crashed
  {
    hide CanRun, Run, Step, Enabled;
    var c1, c2, c3 := OvertakingSteps(c, earlier);
    var e := Overtaking(c, earlier);
    LateOpening(c3, c.ws.value);
    NoEvents(Step(c3, e[3]), e);
    FirstThen(c3, e, 3);
    FirstThen(c2, e, 2);
    FirstThen(c1, e, 1);
    FirstThen(c, e, 0);
    assert e[0..] == e;
  }

  /** A client right after a rotation is one, with a session that has its URL. */
  lemma OvertakenSocketRun(now: int)
    ensures var events := UntilRotated(now) + Overtaking(Rotated(now), 0);
            CanRun(Fresh(now), events) && Run(Fresh(now), events).crashed
  {
    hide CanRun, Run, Rotated;
    RotatedRun(now);
    RotatedSockets(now);
    OvertakenSocketCrashes(Rotated(now), 0);
    RunOn(Fresh(now), UntilRotated(now), Overtaking(Rotated(now), 0));
  }

  // ----- expiries beyond a 31-bit timeout -----

  /** The expiry is further away than `setTimeout` can wait. */
  predicate Far(expiresAt: int, now: int) {
    expiresAt - ROTATE_BEFORE_EXPIRY_MS - now > LONGEST_TIMEOUT
  }

  /** Only a rotation is pending, and it fires in a millisecond. */
  predicate Racing(c: Client) {
    Resting(c, c.now + 1)
  }

  lemma FarDelay(expiresAt: int, now: int)
    requires Far(expiresAt, now)
    ensures TimerDelay(RotationDelay(expiresAt, now)) == 1
  {
  }

  /** One round: the rotation fires, a session is created, and the client connects. */
  lemma Round(c: Client, expiresAt: int) returns (events: seq<Event>)
    requires Racing(c) && Far(expiresAt, c.now + 1)
    ensures CanRun(c, events) && Racing(Run(c, events)) && Run(c, events).now == c.now + 1
    ensures Run(c, events).armed == c.armed + [Arming(c.nextTimer, c.now + 1, expiresAt, c.now + 2)]
  {
    hide CanRun, Run, TimerDelay, RotationDelay, ClosedCurrent;
    FarDelay(expiresAt, c.now + 1);
    RenewalRun(c, c.now + 1, Grant(expiresAt, true));
    events := Renewal(c, c.now + 1, Grant(expiresAt, true));
  }

  /** Sessions that all live further than a 31-bit timeout are rotated every millisecond, for ever: one run
      from the start for any number of them. */
  lemma {:induction false} FarSessionsRotateForEver(now: int, expiries: seq<int>) returns (events: seq<Event>)
    requires expiries != [] && forall i :: 0 <= i < |expiries| ==> Far(expiries[i], now + i)
    ensures CanRun(Fresh(now), events)
    ensures var c := Run(Fresh(now), events);
            && Racing(c) && c.now == now + |expiries| - 1
            && |c.armed| == |expiries|
            && forall i :: 0 <= i < |expiries| ==>
                 && c.armed[i].at == now + i
                 && c.armed[i].expiresAt == expiries[i]
                 && c.armed[i].due == now + i + 1
  {
    hide CanRun, Run, TimerDelay, RotationDelay;
    if |expiries| == 1 {
      CreationRun(now, Grant(expiries[0], true));
      FarDelay(expiries[0], now);
      events := Creation(Grant(expiries[0], true));
    } else {
      var before := FarSessionsRotateForEver(now, DropLast(expiries));
      var c := Run(Fresh(now), before);
      var round := Round(c, Last(expiries));
      RunOn(Fresh(now), before, round);
      events := before + round;
    }
  }
}
