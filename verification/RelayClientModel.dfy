/** The agent's relay client (agent/src/relay-client.ts): which timers it keeps while fetches, sockets
    and timers complete in any order.

    An async method is cut at its awaits.  The part after an await waits in `tasks` until the event loop
    resumes it with whatever the fetch gave.  Everything between two awaits is one step.

    Two calls throw: `connect` on a session without a URL that a WebSocket takes, and the `send` of the
    open handler when the current socket is still in its handshake.  A task knows whether a throw of
    `connect` is caught: `start` and the refusal branch of `refreshSessionState` have a handler above
    them; retries, rotations, reconnects and the open handler have none, and an exception nobody catches
    ends the process. */
module RelayClientModel {
  import opened Options
  import opened Sequences

  type TimerId = nat
  type SocketId = nat

  const RETRY_MS := 15_000
  const RECONNECT_MS := 2_000
  const ROTATE_BEFORE_EXPIRY_MS := 60_000
  const LONGEST_TIMEOUT := 0x7fff_ffff

  datatype Kind = Retry | Reconnect | Rotation

  datatype Timer = Timer(kind: Kind, due: int)

  /** What the relay or the session file gives for a session; `url` tells whether a WebSocket takes the URL. */
  datatype Grant = Grant(expiresAt: int, url: bool)

  /** Partial is what spreading a null session and adding a status leaves: no id, no URL, no expiry. */
  datatype Session = Full(grant: Grant) | Partial

  /** A socket until its close event.  Failed: it had its error, or was closed during its handshake, so
      that it neither opens nor hands over a frame.  One that is closed once open still hands over
      frames. */
  datatype Phase = Connecting | Opened | Failed

  /** `caught` tells whether a throw of `connect` at the end is handled. */
  datatype Task =
    | Restoring(grant: Grant, caught: bool)
    | Posting(caught: bool)
    | ReadingError(caught: bool)
    | ReadingBody(caught: bool)
    | Finishing(caught: bool)
    | Refreshing
    | ReadingStatus

  /** What an awaited promise gives.  Refused is status 401, 403 or 404; Bad any other failing status. */
  datatype Outcome = Good(grant: Grant) | Refused | Bad | Threw

  /** An answer whose session fields, if it has any, nobody reads. */
  const OK := Good(Grant(0, true))

  /** A rotation that was armed; `due` is when it fires. */
  datatype Arming = Arming(timer: TimerId, at: int, expiresAt: int, due: int)

  /** `stopped` and `crashed` record that `stop` was called and that the process ended. */
  datatype Client = Client(
    ws: Option<SocketId>,
    session: Option<Session>,
    reconnectTimer: Option<TimerId>,
    rotationTimer: Option<TimerId>,
    now: int,
    timers: map<TimerId, Timer>,
    nextTimer: TimerId,
    tasks: multiset<Task>,
    live: map<SocketId, Phase>,
    nextSocket: SocketId,
    armed: seq<Arming>,
    stopped: bool,
    crashed: bool)

  // ----- the methods -----

  function Max(a: int, b: int): int {
    if a < b then b else a
  }

  /** What `setTimeout` makes of a delay: past 31 bits it becomes 1 ms. */
  function TimerDelay(ms: int): int {
    if 1 <= ms <= LONGEST_TIMEOUT then ms else 1
  }

  function SetTimer(c: Client, kind: Kind, ms: int): Client {
    c.(timers := c.timers[c.nextTimer := Timer(kind, c.now + TimerDelay(ms))], nextTimer := c.nextTimer + 1)
  }

  function ClearTimer(c: Client, timer: Option<TimerId>): Client {
    if timer.Some? then c.(timers := c.timers - {timer.value}) else c
  }

  function ScheduleSessionRetry(c: Client): Client {
    if c.reconnectTimer.Some? then c else SetTimer(c, Retry, RETRY_MS).(reconnectTimer := Some(c.nextTimer))
  }

  function ScheduleReconnect(c: Client): Client {
    if c.reconnectTimer.Some? || c.session.None? then c
    else SetTimer(c, Reconnect, RECONNECT_MS).(reconnectTimer := Some(c.nextTimer))
  }

  function RotationDelay(expiresAt: int, now: int): int {
    Max(expiresAt - now - ROTATE_BEFORE_EXPIRY_MS, 1_000)
  }

  /** Arms the rotation in place of the one before. */
  function ScheduleSessionRotation(c: Client, expiresAt: int): Client {
    var delay := RotationDelay(expiresAt, c.now);
    SetTimer(ClearTimer(c, c.rotationTimer), Rotation, delay).(
      rotationTimer := Some(c.nextTimer),
      armed := c.armed + [Arming(c.nextTimer, c.now, expiresAt, c.now + TimerDelay(delay))])
  }

  /** Stores a full session and arms its rotation. */
  function Install(c: Client, grant: Grant): Client {
    ScheduleSessionRotation(c.(session := Some(Full(grant))), grant.expiresAt)
  }

  predicate HasUrl(session: Session) {
    session.Full? && session.grant.url
  }

  /** `connect`; without a URL it throws before a socket exists. */
  function Connected(c: Client, caught: bool): Client {
    if c.session.None? then c
    else if !HasUrl(c.session.value) then c.(crashed := c.crashed || !caught)
    else c.(ws := Some(c.nextSocket), live := c.live[c.nextSocket := Connecting], nextSocket := c.nextSocket + 1)
  }

  predicate IsConnecting(c: Client, socket: SocketId) {
    socket in c.live && c.live[socket] == Connecting
  }

  predicate IsOpened(c: Client, socket: SocketId) {
    socket in c.live && c.live[socket] == Opened
  }

  /** The sockets after `close` on the current one. */
  function ClosedCurrent(c: Client): map<SocketId, Phase> {
    if c.ws.Some? && IsConnecting(c, c.ws.value) then c.live[c.ws.value := Failed] else c.live
  }

  /** The open handler sends the token on the current socket, whichever socket opened. */
  function Open(c: Client, socket: SocketId): Client {
    var c1 := c.(live := c.live[socket := Opened]);
    if c.session.Some? && c.ws.Some? && IsConnecting(c1, c.ws.value) then c1.(crashed := true) else c1
  }

  /** The error handler closes the current socket, whichever socket failed. */
  function Fail(c: Client, socket: SocketId): Client {
    c.(live := ClosedCurrent(c)[socket := Failed])
  }

  function Begin(c: Client, task: Task): Client {
    c.(tasks := c.tasks + multiset{task})
  }

  /** `ensureSession` up to its first fetch.  `file` is the session of the session file, when the
      file holds one of this workspace. */
  function EnsureSession(c: Client, file: Option<Grant>, caught: bool): Client {
    if file.Some? && file.value.expiresAt > c.now then Begin(c, Restoring(file.value, caught))
    else Begin(c, Posting(caught))
  }

  function Rotate(c: Client, file: Option<Grant>, caught: bool): Client {
    var c1 := ClearTimer(ClearTimer(c, c.reconnectTimer), c.rotationTimer);
    var c2 := c1.(reconnectTimer := None, rotationTimer := None, ws := None, session := None, live := ClosedCurrent(c));
    EnsureSession(c2, file, caught)
  }

  function Stop(c: Client): Client {
    ClearTimer(ClearTimer(c, c.reconnectTimer), c.rotationTimer).(
      ws := None, live := ClosedCurrent(c), stopped := true)
  }

  /** `refreshSessionState` up to its fetch.  A session that expired here is rotated outside its try. */
  function Refresh(c: Client, file: Option<Grant>): Client {
    if c.session.None? then c
    else if c.session.value.Full? && c.session.value.grant.expiresAt <= c.now then Rotate(c, file, false)
    else Begin(c, Refreshing)
  }

  /** The rest of an async method, from one await to the next. */
  function Continue(c: Client, task: Task, outcome: Outcome, file: Option<Grant>): Client {
    match task
    case Restoring(grant, caught) =>
      if outcome.Good? then Begin(Install(c, grant), Finishing(caught)) else Begin(c, Posting(caught))
    case Posting(caught) =>
      if outcome.Good? then Begin(c, ReadingBody(caught))
      else if outcome.Threw? then Begin(ScheduleSessionRetry(c), Finishing(caught))
      else Begin(c, ReadingError(caught))
    case ReadingError(caught) => Begin(ScheduleSessionRetry(c), Finishing(caught))
    case ReadingBody(caught) =>
      if outcome.Good? then Begin(Install(c, outcome.grant), Finishing(caught))
      else Begin(ScheduleSessionRetry(c), Finishing(caught))
    case Finishing(caught) => Connected(c, caught)
    case Refreshing =>
      if outcome.Good? then Begin(c, ReadingStatus)
      else if outcome.Refused? then Rotate(c, file, true)
      else c
    case ReadingStatus =>
      if outcome.Good? && c.session.None? then c.(session := Some(Partial)) else c
  }

  function ResumeStep(c: Client, task: Task, outcome: Outcome, file: Option<Grant>): Client
    requires task in c.tasks
  {
    Continue(c.(tasks := c.tasks - multiset{task}), task, outcome, file)
  }

  function FireStep(c: Client, timer: TimerId, file: Option<Grant>): Client
    requires timer in c.timers
  {
    var c0 := c.(timers := c.timers - {timer});
    match c.timers[timer].kind
    case Retry => EnsureSession(c0.(reconnectTimer := None), file, false)
    case Reconnect => Connected(c0.(reconnectTimer := None), false)
    case Rotation => Rotate(c0.(rotationTimer := None), file, false)
  }

  // ----- runs -----

  datatype Event =
    | StartCall(file: Option<Grant>)
    | StopCall
    | StatusFrame(socket: SocketId, file: Option<Grant>)
    | Resume(task: Task, outcome: Outcome, file: Option<Grant>)
    | Fire(timer: TimerId, file: Option<Grant>)
    | SocketOpened(socket: SocketId)
    | SocketClosed(socket: SocketId)
    | SocketError(socket: SocketId)
    | Wait(to: int)

  /** Nothing happens any more once the process has ended.  A StatusFrame is a frame on which the client
      reports its status, for which it refreshes its session first; nobody else has it refreshed. */
  predicate Enabled(c: Client, e: Event) {
    && !c.crashed
    && match e
       case Resume(task, _, _) => task in c.tasks
       case Fire(timer, _) => timer in c.timers && c.timers[timer].due <= c.now
       case StatusFrame(socket, _) => IsOpened(c, socket)
       case SocketOpened(socket) => IsConnecting(c, socket)
       case SocketClosed(socket) => socket in c.live
       case SocketError(socket) => socket in c.live
       case Wait(to) => c.now <= to
       case _ => true
  }

  /** After an error the close event is still to come. */
  function Step(c: Client, e: Event): Client
    requires Enabled(c, e)
  {
    match e
    case StartCall(file) => EnsureSession(c, file, true)
    case StopCall => Stop(c)
    case StatusFrame(_, file) => Refresh(c, file)
    case Resume(task, outcome, file) => ResumeStep(c, task, outcome, file)
    case Fire(timer, file) => FireStep(c, timer, file)
    case SocketOpened(socket) => Open(c, socket)
    case SocketClosed(socket) => ScheduleReconnect(c.(live := c.live - {socket}))
    case SocketError(socket) => Fail(c, socket)
    case Wait(to) => c.(now := to)
  }

  function Fresh(now: int): Client {
    Client(None, None, None, None, now, map[], 0, multiset{}, map[], 0, [], false, false)
  }

  predicate CanRun(c: Client, events: seq<Event>)
    decreases |events|
  {
    events == [] || (Enabled(c, events[0]) && CanRun(Step(c, events[0]), events[1..]))
  }

  function Run(c: Client, events: seq<Event>): Client
    requires CanRun(c, events)
    decreases |events|
  {
    if events == [] then c else Run(Step(c, events[0]), events[1..])
  }

  lemma NoEvents(c: Client, all: seq<Event>)
    ensures CanRun(c, all[|all|..]) && Run(c, all[|all|..]) == c
  {
  }

  /** Puts event `i` in front of the run of the events after it. */
  lemma FirstThen(c: Client, all: seq<Event>, i: nat)
    requires i < |all| && Enabled(c, all[i]) && CanRun(Step(c, all[i]), all[i + 1..])
    ensures CanRun(c, all[i..]) && Run(c, all[i..]) == Run(Step(c, all[i]), all[i + 1..])
  {
    assert all[i..][1..] == all[i + 1..];
  }

  /** A run that goes on. */
  lemma {:induction false} RunOn(c: Client, before: seq<Event>, after: seq<Event>)
    requires CanRun(c, before) && CanRun(Run(c, before), after)
    ensures CanRun(c, before + after) && Run(c, before + after) == Run(Run(c, before), after)
    decreases |before|
  {
    hide Step, Enabled;
    if before == [] {
      assert before + after == after;
    } else {
      RunOn(Step(c, before[0]), before[1..], after);
      assert (before + after)[1..] == before[1..] + after;
    }
  }

  // ----- no timer is orphaned -----

  /** The field that remembers a timer of this kind. */
  function FieldOf(c: Client, kind: Kind): Option<TimerId> {
    if kind == Rotation then c.rotationTimer else c.reconnectTimer
  }

  predicate Remembered(c: Client) {
    && (forall t :: t in c.timers ==> t < c.nextTimer && FieldOf(c, c.timers[t].kind) == Some(t))
    && (c.reconnectTimer.Some? ==> c.reconnectTimer.value < c.nextTimer)
    && (c.rotationTimer.Some? ==> c.rotationTimer.value < c.nextTimer)
    && (c.reconnectTimer.Some? && c.rotationTimer.Some? ==> c.reconnectTimer.value != c.rotationTimer.value)
  }

  /** A pending rotation is the one armed last, for the session there is. */
  predicate RotationFits(c: Client) {
    forall t :: t in c.timers && c.timers[t].kind == Rotation ==>
      && c.armed != []
      && Last(c.armed).timer == t
      && Last(c.armed).due == c.timers[t].due
      && c.session.Some? && c.session.value.Full?
      && c.session.value.grant.expiresAt == Last(c.armed).expiresAt
  }

  /** Until `stop` is called a field is set exactly while its timer is pending, and every full session
      has its rotation pending. */
  predicate Timely(c: Client) {
    !c.stopped ==>
      && (c.reconnectTimer.Some? ==> c.reconnectTimer.value in c.timers)
      && (c.rotationTimer.Some? ==> c.rotationTimer.value in c.timers)
      && (c.session.Some? && c.session.value.Full? ==> c.rotationTimer.Some?)
  }

  predicate ArmedWell(a: Arming) {
    a.due == a.at + TimerDelay(RotationDelay(a.expiresAt, a.at))
  }

  predicate Inv(c: Client) {
    && Remembered(c)
    && RotationFits(c)
    && Timely(c)
    && (forall a :: a in c.armed ==> ArmedWell(a))
  }

  function FieldTimers(c: Client): set<TimerId> {
    (if c.reconnectTimer.Some? then {c.reconnectTimer.value} else {})
    + (if c.rotationTimer.Some? then {c.rotationTimer.value} else {})
  }

  lemma RememberedTimers(c: Client)
    requires Inv(c)
    ensures c.timers.Keys <= FieldTimers(c)
  {
    forall t | t in c.timers ensures t in FieldTimers(c) {
      assert FieldOf(c, c.timers[t].kind) == Some(t);
    }
  }

  lemma RetryInv(c: Client)
    requires Inv(c)
    ensures Inv(ScheduleSessionRetry(c))
  {
  }

  lemma ReconnectInv(c: Client)
    requires Inv(c)
    ensures Inv(ScheduleReconnect(c))
  {
  }

  lemma InstallInv(c: Client, grant: Grant)
    requires Inv(c)
    ensures Inv(Install(c, grant))
  {
  }

  lemma ForgetReconnectInv(c: Client)
    requires Inv(c)
    ensures Inv(ClearTimer(c, c.reconnectTimer).(reconnectTimer := None))
  {
  }

  lemma ForgetRotationInv(c: Client)
    requires Inv(c)
    ensures Inv(ClearTimer(c, c.rotationTimer).(rotationTimer := None, session := None))
  {
  }

  lemma StopInv(c: Client)
    requires Inv(c)
    ensures Inv(Stop(c)) && Stop(c).timers == map[]
  {
    RememberedTimers(c);
    assert Stop(c).timers.Keys == {};
  }

  lemma RotateInv(c: Client, file: Option<Grant>, caught: bool)
    requires Inv(c)
    ensures Inv(Rotate(c, file, caught))
  {
    hide RotationFits, Timely, Remembered;
    var c1 := ClearTimer(c, c.reconnectTimer).(reconnectTimer := None);
    ForgetReconnectInv(c);
    ForgetRotationInv(c1);
    var c2 := ClearTimer(c1, c1.rotationTimer).(rotationTimer := None, session := None);
    SameTimers(c2, Rotate(c, file, caught));
  }

  /** Sockets, tasks and the clock play no part. */
  lemma SameTimers(c: Client, c': Client)
    requires Inv(c)
    requires c' == c.(ws := c'.ws, now := c'.now, tasks := c'.tasks, live := c'.live, nextSocket := c'.nextSocket,
                      crashed := c'.crashed)
          || (c.session.None? && c' == c.(session := Some(Partial), tasks := c'.tasks))
    ensures Inv(c')
  {
  }

  lemma ResumeInv(c: Client, task: Task, outcome: Outcome, file: Option<Grant>)
    requires Inv(c) && task in c.tasks
    ensures Inv(ResumeStep(c, task, outcome, file))
  {
    hide Inv, Install, ScheduleSessionRetry, Rotate;
    var c0 := c.(tasks := c.tasks - multiset{task});
    var c' := ResumeStep(c, task, outcome, file);
    SameTimers(c, c0);
    RetryInv(c0);
    RotateInv(c0, file, true);
    match task
    case Restoring(grant, _) =>
      InstallInv(c0, grant);
      SameTimers(if outcome.Good? then Install(c0, grant) else c0, c');
    case Posting(_) => SameTimers(if outcome.Threw? then ScheduleSessionRetry(c0) else c0, c');
    case ReadingError(_) => SameTimers(ScheduleSessionRetry(c0), c');
    case ReadingBody(_) =>
      if outcome.Good? {
        InstallInv(c0, outcome.grant);
        SameTimers(Install(c0, outcome.grant), c');
      } else {
        SameTimers(ScheduleSessionRetry(c0), c');
      }
    case Refreshing =>
      if !outcome.Refused? {
        SameTimers(c0, c');
      }
    case Finishing(_) => SameTimers(c0, c');
    case ReadingStatus => SameTimers(c0, c');
  }

  /** The callback forgets its timer first. */
  lemma FiredInv(c: Client, timer: TimerId)
    requires Inv(c) && timer in c.timers && c.timers[timer].kind != Rotation
    ensures Inv(c.(timers := c.timers - {timer}, reconnectTimer := None))
  {
    ForgetReconnectInv(c);
  }

  /** A rotation that fires does what a rotation that is called does. */
  lemma FiredRotation(c: Client, timer: TimerId, file: Option<Grant>)
    requires Inv(c) && timer in c.timers && c.timers[timer].kind == Rotation
    ensures FireStep(c, timer, file) == Rotate(c, file, false)
  {
    hide EnsureSession, RotationFits, Timely;
    assert c.rotationTimer == Some(timer);
    var left := ClearTimer(c, c.reconnectTimer).timers;
    assert ClearTimer(c.(timers := c.timers - {timer}), c.reconnectTimer).timers == left - {timer};
  }

  lemma FireInv(c: Client, timer: TimerId, file: Option<Grant>)
    requires Inv(c) && timer in c.timers
    ensures Inv(FireStep(c, timer, file))
  {
    hide Inv, Rotate;
    if c.timers[timer].kind == Rotation {
      FiredRotation(c, timer, file);
      RotateInv(c, file, false);
    } else {
      FiredInv(c, timer);
      SameTimers(c.(timers := c.timers - {timer}, reconnectTimer := None), FireStep(c, timer, file));
    }
  }

  lemma RefreshInv(c: Client, file: Option<Grant>)
    requires Inv(c)
    ensures Inv(Refresh(c, file))
  {
    hide Inv, Rotate;
    RotateInv(c, file, false);
    if Refresh(c, file) != Rotate(c, file, false) {
      SameTimers(c, Refresh(c, file));
    }
  }

  lemma StepInv(c: Client, e: Event)
    requires Inv(c) && Enabled(c, e)
    ensures Inv(Step(c, e))
  {
    hide Inv, Rotate, Refresh, FireStep, ResumeStep, Stop, ScheduleReconnect;
    match e
    case StopCall => StopInv(c);
    case StatusFrame(_, file) => RefreshInv(c, file);
    case Resume(task, outcome, file) => ResumeInv(c, task, outcome, file);
    case Fire(timer, file) => FireInv(c, timer, file);
    case SocketClosed(socket) =>
      SameTimers(c, c.(live := c.live - {socket}));
      ReconnectInv(c.(live := c.live - {socket}));
    case StartCall(file) => SameTimers(c, Step(c, e));
    case SocketOpened(socket) => SameTimers(c, Open(c, socket));
    case SocketError(socket) => SameTimers(c, Fail(c, socket));
    case Wait(to) => SameTimers(c, Step(c, e));
  }

  lemma {:induction false} RunInv(c: Client, events: seq<Event>)
    requires Inv(c) && CanRun(c, events)
    ensures Inv(Run(c, events))
    decreases |events|
  {
    if events != [] {
      StepInv(c, events[0]);
      RunInv(Step(c, events[0]), events[1..]);
    }
  }

  /** In every interleaving the pending timers are among the two the fields remember, one for each field
      at most; until `stop` is called they are exactly those. */
  lemma NoTimerOrphaned(now: int, events: seq<Event>)
    requires CanRun(Fresh(now), events)
    ensures var c := Run(Fresh(now), events);
            && c.timers.Keys <= FieldTimers(c)
            && (!c.stopped ==> c.timers.Keys == FieldTimers(c))
            && (forall t, u :: t in c.timers && u in c.timers && c.timers[t].kind == c.timers[u].kind ==> t == u)
            && (forall t, u ::
                  t in c.timers && u in c.timers && c.timers[t].kind != Rotation && c.timers[u].kind != Rotation ==>
                  t == u)
  {
    RunInv(Fresh(now), events);
    RememberedTimers(Run(Fresh(now), events));
  }

  /** A rotation is due a minute before the expiry but never sooner than a second from now, exactly when
      that is near enough for a 31-bit timeout; else it is due after 1 ms. */
  lemma RotationDue(now: int, events: seq<Event>, a: Arming)
    requires CanRun(Fresh(now), events) && a in Run(Fresh(now), events).armed
    ensures a.due == Max(a.expiresAt - 60_000, a.at + 1_000) <==> a.expiresAt - 60_000 - a.at <= LONGEST_TIMEOUT
    ensures a.expiresAt - 60_000 - a.at > LONGEST_TIMEOUT ==> a.due == a.at + 1
  {
    RunInv(Fresh(now), events);
    assert ArmedWell(a);
  }

  /** While running, a full session and a pending rotation go together, and the rotation is that session's. */
  lemma RotationFollowsSession(now: int, events: seq<Event>)
    requires CanRun(Fresh(now), events) && !Run(Fresh(now), events).stopped
    ensures var c := Run(Fresh(now), events);
            && (c.rotationTimer.Some? <==> c.session.Some? && c.session.value.Full?)
            && (c.rotationTimer.Some? ==>
                 && c.rotationTimer.value in c.timers
                 && c.armed != []
                 && c.timers[c.rotationTimer.value] == Timer(Rotation, Last(c.armed).due)
                 && c.session.value.grant.expiresAt == Last(c.armed).expiresAt)
  {
    RunInv(Fresh(now), events);
    var c := Run(Fresh(now), events);
    if c.rotationTimer.Some? {
      var t := c.rotationTimer.value;
      assert FieldOf(c, c.timers[t].kind) == Some(t);
    }
  }

  // ----- the session that comes back without an expiry -----

  /** What the parts of a step do to the session; none of them ends the process. */
  lemma ArmingKeeps(c: Client, grant: Grant)
    ensures Install(c, grant).session == Some(Full(grant)) && Install(c, grant).crashed == c.crashed
    ensures ScheduleSessionRetry(c).session == c.session && ScheduleSessionRetry(c).crashed == c.crashed
    ensures ScheduleReconnect(c).session == c.session && ScheduleReconnect(c).crashed == c.crashed
  {
    hide TimerDelay, RotationDelay;
  }

  /** A creation changes the tasks only. */
  lemma EnsureTasks(c: Client, file: Option<Grant>, caught: bool)
    ensures EnsureSession(c, file, caught) == c.(tasks := EnsureSession(c, file, caught).tasks)
  {
  }

  lemma ClearingKeeps(c: Client, file: Option<Grant>, caught: bool)
    ensures EnsureSession(c, file, caught).session == c.session && EnsureSession(c, file, caught).crashed == c.crashed
    ensures Rotate(c, file, caught).session == None && Rotate(c, file, caught).crashed == c.crashed
    ensures Stop(c).session == c.session && Stop(c).crashed == c.crashed
  {
    hide EnsureSession, ClosedCurrent;
    var c1 := ClearTimer(ClearTimer(c, c.reconnectTimer), c.rotationTimer);
    EnsureTasks(c, file, caught);
    var c2 := c1.(reconnectTimer := None, rotationTimer := None, ws := None, session := None);
    EnsureTasks(c2.(live := ClosedCurrent(c)), file, caught);
  }

  /** A resumed task turns the session partial, or ends the process, in one case each. */
  lemma ResumeCases(c: Client, task: Task, outcome: Outcome, file: Option<Grant>)
    ensures var c' := Continue(c, task, outcome, file);
            && (c'.session == Some(Partial) <==>
                  if c.session.None? then task == ReadingStatus && outcome.Good?
                  else c.session == Some(Partial) && !Replaces(task, outcome))
            && (c'.crashed <==> c.crashed || (c.session.Some? && !HasUrl(c.session.value) && task == Finishing(false)))
  {
    hide Install, ScheduleSessionRetry, Rotate;
    ArmingKeeps(c, if task.Restoring? then task.grant else if outcome.Good? then outcome.grant else OK.grant);
    ClearingKeeps(c, file, true);
  }

  /** The session is stored anew or dropped. */
  predicate Replaces(task: Task, outcome: Outcome) {
    ((task.Restoring? || task.ReadingBody?) && outcome.Good?) || (task.Refreshing? && outcome.Refused?)
  }

  /** A session turns partial exactly when a status arrives after the session was dropped. */
  lemma PartialOnlyFromLateStatus(c: Client, e: Event)
    requires Enabled(c, e) && c.session != Some(Partial)
    ensures Step(c, e).session == Some(Partial)
       <==> e.Resume? && e.task == ReadingStatus && e.outcome.Good? && c.session.None?
  {
    hide Continue, ScheduleReconnect, Rotate, EnsureSession, Stop;
    EventCases(c, e);
  }

  /** The parts of the step of an event, each as above. */
  lemma EventCases(c: Client, e: Event)
    requires Enabled(c, e)
    ensures e.Resume? ==>
      && Step(c, e) == Continue(c.(tasks := c.tasks - multiset{e.task}), e.task, e.outcome, e.file)
      && (Step(c, e).session == Some(Partial) <==>
            if c.session.None? then e.task == ReadingStatus && e.outcome.Good?
            else c.session == Some(Partial) && !Replaces(e.task, e.outcome))
      && (Step(c, e).crashed <==> c.session.Some? && !HasUrl(c.session.value) && e.task == Finishing(false))
    ensures e.Fire? ==>
      && (Step(c, e).session == if c.timers[e.timer].kind == Rotation then None else c.session)
      && (Step(c, e).crashed <==>
            c.timers[e.timer].kind == Reconnect && c.session.Some? && !HasUrl(c.session.value))
    ensures e.StartCall? || e.StopCall? || e.SocketClosed? ==> Step(c, e).session == c.session && !Step(c, e).crashed
    ensures e.StatusFrame? ==> (Step(c, e).session == c.session || Step(c, e).session == None) && !Step(c, e).crashed
  {
    hide Continue, ScheduleReconnect, Rotate, EnsureSession, Stop;
    match e
    case Resume(task, outcome, file) => ResumeCases(c.(tasks := c.tasks - multiset{task}), task, outcome, file);
    case Fire(timer, file) =>
      ClearingKeeps(c.(timers := c.timers - {timer}, reconnectTimer := None), file, false);
      ClearingKeeps(c.(timers := c.timers - {timer}, rotationTimer := None), file, false);
    case SocketClosed(socket) => ArmingKeeps(c.(live := c.live - {socket}), OK.grant);
    case StartCall(file) => ClearingKeeps(c, file, true);
    case StatusFrame(_, file) => ClearingKeeps(c, file, false);
    case StopCall => ClearingKeeps(c, None, false);
    case _ =>
  }

  /** `connect` is entered with a session that has no URL, and with no handler above it: after a retry's
      or a rotation's creation, or from a reconnect. */
  predicate ConnectThrows(c: Client, e: Event)
    requires Enabled(c, e)
  {
    && c.session.Some? && !HasUrl(c.session.value)
    && ((e.Resume? && e.task == Finishing(false)) || (e.Fire? && c.timers[e.timer].kind == Reconnect))
  }

  /** A socket opens when another one, still in its handshake, has become the current one. */
  predicate SendThrows(c: Client, e: Event) {
    e.SocketOpened? && c.session.Some? && c.ws.Some? && c.ws.value != e.socket && IsConnecting(c, c.ws.value)
  }

  /** A step ends the process exactly when one of these throws. */
  lemma CrashesIff(c: Client, e: Event)
    requires Enabled(c, e)
    ensures Step(c, e).crashed <==> ConnectThrows(c, e) || SendThrows(c, e)
  {
    hide Continue, ScheduleReconnect, Rotate, EnsureSession, Stop;
    EventCases(c, e);
  }

  /** The session turns partial in every running client whose rotation falls due while a
      status is being read: what comes back has no expiry, and no rotation will end it. */
  lemma StatusOutlivesSession(c: Client)
    requires Inv(c) && !c.stopped && !c.crashed && c.session.Some? && c.session.value.Full?
    requires ReadingStatus in c.tasks && c.rotationTimer.Some? && c.timers[c.rotationTimer.value].due <= c.now
    ensures var events := [Fire(c.rotationTimer.value, None), Resume(ReadingStatus, OK, None)];
            && CanRun(c, events)
            && Run(c, events).session == Some(Partial) && Run(c, events).timers == map[]
  {
    hide CanRun, Run, Rotate;
    var t := c.rotationTimer.value;
    assert FieldOf(c, c.timers[t].kind) == Some(t);
    FiredRotation(c, t, None);
    var c1 := Rotate(c, None, false);
    RotateClears(c, false);
    var c2 := Step(c1, Resume(ReadingStatus, OK, None));
    var events := [Fire(t, None), Resume(ReadingStatus, OK, None)];
    NoEvents(c2, events);
    FirstThen(c1, events, 1);
    FirstThen(c, events, 0);
    assert events[0..] == events;
  }

  lemma RotateClears(c: Client, caught: bool)
    requires Inv(c)
    ensures Rotate(c, None, caught)
         == c.(timers := map[], reconnectTimer := None, rotationTimer := None, ws := None, session := None,
               live := ClosedCurrent(c), tasks := c.tasks + multiset{Posting(caught)})
  {
    RememberedTimers(c);
    assert Rotate(c, None, caught).timers.Keys == {};
  }

  // ----- runs from the start -----

  /** A client whose session was just stored, at `now`, with nothing else going on but tasks. */
  function JustStored(now: int, grant: Grant, tasks: multiset<Task>): Client {
    var due := now + TimerDelay(RotationDelay(grant.expiresAt, now));
    Client(None, Some(Full(grant)), None, Some(0), now, map[0 := Timer(Rotation, due)], 1,
           tasks, map[], 0, [Arming(0, now, grant.expiresAt, due)], false, false)
  }

  /** And then connected, in the given phase of its first socket. */
  function JustConnected(now: int, grant: Grant, phase: Phase): Client {
    JustStored(now, grant, multiset{}).(ws := Some(0), live := map[0 := phase], nextSocket := 1)
  }

  function Creation(grant: Grant): seq<Event> {
    [StartCall(None), Resume(Posting(true), OK, None), Resume(ReadingBody(true), Good(grant), None),
     Resume(Finishing(true), OK, None), SocketOpened(0)]
  }

  /** Start, a session created, a socket opened. */
  lemma CreationRun(now: int, grant: Grant)
    requires grant.url
    ensures CanRun(Fresh(now), Creation(grant))
    ensures Run(Fresh(now), Creation(grant)) == JustConnected(now, grant, Opened)
  {
    hide CanRun, Run, Step, Enabled, JustStored, JustConnected;
    var e := Creation(grant);
    FirstSteps(now);
    StoreStep(now, grant);
    ConnectStep(now, grant);
    NoEvents(JustConnected(now, grant, Opened), e);
    FirstThen(JustConnected(now, grant, Connecting), e, 4);
    FirstThen(JustStored(now, grant, multiset{Finishing(true)}), e, 3);
    FirstThen(Fresh(now).(tasks := multiset{ReadingBody(true)}), e, 2);
    FirstThen(Fresh(now).(tasks := multiset{Posting(true)}), e, 1);
    FirstThen(Fresh(now), e, 0);
    assert e[0..] == e;
  }

  lemma FirstSteps(now: int)
    ensures var c1 := Fresh(now).(tasks := multiset{Posting(true)});
            && Enabled(Fresh(now), StartCall(None)) && Step(Fresh(now), StartCall(None)) == c1
            && Enabled(c1, Resume(Posting(true), OK, None))
            && Step(c1, Resume(Posting(true), OK, None)) == Fresh(now).(tasks := multiset{ReadingBody(true)})
  {
  }

  lemma StoreStep(now: int, grant: Grant)
    ensures var c, e := Fresh(now).(tasks := multiset{ReadingBody(true)}), Resume(ReadingBody(true), Good(grant), None);
            Enabled(c, e) && Step(c, e) == JustStored(now, grant, multiset{Finishing(true)})
  {
    hide TimerDelay, RotationDelay;
  }

  lemma ConnectStep(now: int, grant: Grant)
    requires grant.url
    ensures var c, e := JustStored(now, grant, multiset{Finishing(true)}), Resume(Finishing(true), OK, None);
            Enabled(c, e) && Step(c, e) == JustConnected(now, grant, Connecting)
    ensures var c, e := JustConnected(now, grant, Connecting), SocketOpened(0);
            Enabled(c, e) && Step(c, e) == JustConnected(now, grant, Opened)
  {
    hide TimerDelay, RotationDelay;
  }

  function StatusWhenDue(now: int): seq<Event> {
    [StatusFrame(0, None), Resume(Refreshing, OK, None), Wait(now + 60_000)]
  }

  function ReadingWhenDue(now: int): seq<Event> {
    Creation(Grant(now + 120_000, true)) + StatusWhenDue(now)
  }

  /** And such a client is reachable. */
  lemma SuchAClient(now: int)
    ensures CanRun(Fresh(now), ReadingWhenDue(now))
    ensures var c := Run(Fresh(now), ReadingWhenDue(now));
            && !c.stopped && !c.crashed && ReadingStatus in c.tasks
            && c.session == Some(Full(Grant(now + 120_000, true)))
            && c.rotationTimer == Some(0) && c.timers == map[0 := Timer(Rotation, c.now)]
  {
    hide CanRun, Run, Step, Enabled;
    var e := StatusWhenDue(now);
    var grant := Grant(now + 120_000, true);
    var c0 := JustConnected(now, grant, Opened);
    var c1 := c0.(tasks := multiset{Refreshing});
    var c2 := c0.(tasks := multiset{ReadingStatus});
    var c3 := c2.(now := now + 60_000);
    CreationRun(now, grant);
    StatusSteps(c0);
    assert Enabled(c2, e[2]) && Step(c2, e[2]) == c3 by { WaitStep(c2, now + 60_000); }
    NoEvents(c3, e);
    FirstThen(c2, e, 2);
    FirstThen(c1, e, 1);
    FirstThen(c0, e, 0);
    assert e[0..] == e;
    RunOn(Fresh(now), Creation(grant), e);
  }

  lemma StatusSteps(c: Client)
    requires c.session.Some? && c.session.value.Full? && c.session.value.grant.expiresAt > c.now
    requires c.tasks == multiset{} && !c.crashed && IsOpened(c, 0)
    ensures var c1, fetched := c.(tasks := multiset{Refreshing}), Resume(Refreshing, OK, None);
            && Enabled(c, StatusFrame(0, None)) && Step(c, StatusFrame(0, None)) == c1
            && Enabled(c1, fetched) && Step(c1, fetched) == c.(tasks := multiset{ReadingStatus})
  {
  }

  lemma WaitStep(c: Client, to: int)
    requires c.now <= to && !c.crashed
    ensures Enabled(c, Wait(to)) && Step(c, Wait(to)) == c.(now := to)
  {
  }
}
