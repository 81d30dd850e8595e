/** What one event of the relay client arms, begins and stores (agent/src/relay-client.ts). */
module RelayClientSteps {
  import opened Options
  import opened Sequences
  import opened RelayClientModel

  /** A creation that failed, and one that gave a session. */
  predicate Fails(task: Task, outcome: Outcome) {
    (task.Posting? && outcome.Threw?) || task.ReadingError? || (task.ReadingBody? && !outcome.Good?)
  }

  function Obtained(task: Task, outcome: Outcome): Option<Grant> {
    if task.Restoring? && outcome.Good? then Some(task.grant)
    else if task.ReadingBody? && outcome.Good? then Some(outcome.grant)
    else None
  }

  /** When the rotation of a session is due: a minute before it expires, in a second at the soonest, and in a
      millisecond when a 31-bit timeout does not reach so far. */
  function RotatesAt(expiresAt: int, now: int): int {
    if expiresAt - 60_000 - now > 2_147_483_647 then now + 1
    else if expiresAt - 60_000 - now < 1_000 then now + 1_000
    else expiresAt - 60_000
  }

  /** The timer an event arms, if any. */
  function Armed(c: Client, e: Event): Option<Timer> {
    match e
    case Resume(task, outcome, _) =>
      if Obtained(task, outcome).Some? then
        Some(Timer(Rotation, RotatesAt(Obtained(task, outcome).value.expiresAt, c.now)))
      else if Fails(task, outcome) && c.reconnectTimer.None? then Some(Timer(Retry, c.now + 15_000))
      else None
    case SocketClosed(_) =>
      if c.reconnectTimer.None? && c.session.Some? then Some(Timer(Reconnect, c.now + 2_000)) else None
    case _ => None
  }

  lemma DueTimes(c: Client, grant: Grant)
    ensures Install(c, grant).nextTimer == c.nextTimer + 1 && c.nextTimer in Install(c, grant).timers
    ensures Install(c, grant).timers[c.nextTimer] == Timer(Rotation, RotatesAt(grant.expiresAt, c.now))
    ensures c.reconnectTimer.None? ==>
              && ScheduleSessionRetry(c).nextTimer == c.nextTimer + 1 && c.nextTimer in ScheduleSessionRetry(c).timers
              && ScheduleSessionRetry(c).timers[c.nextTimer] == Timer(Retry, c.now + 15_000)
    ensures c.reconnectTimer.None? && c.session.Some? ==>
              && ScheduleReconnect(c).nextTimer == c.nextTimer + 1 && c.nextTimer in ScheduleReconnect(c).timers
              && ScheduleReconnect(c).timers[c.nextTimer] == Timer(Reconnect, c.now + 2_000)
    ensures c.reconnectTimer.Some? ==> ScheduleSessionRetry(c) == c
    ensures c.reconnectTimer.Some? || c.session.None? ==> ScheduleReconnect(c) == c
  {
  }

  lemma ClearKeeps(c: Client)
    ensures var c1 := ClearTimer(ClearTimer(c, c.reconnectTimer), c.rotationTimer);
            c1 == c.(timers := c1.timers)
  {
  }

  lemma ClearsOnly(c: Client, file: Option<Grant>, caught: bool)
    ensures Rotate(c, file, caught).nextTimer == c.nextTimer && Stop(c).nextTimer == c.nextTimer
    ensures EnsureSession(c, file, caught).nextTimer == c.nextTimer
  {
    hide ClosedCurrent, EnsureSession, ClearTimer;
    ClearKeeps(c);
    EnsureTasks(c, file, caught);
    var c1 := ClearTimer(ClearTimer(c, c.reconnectTimer), c.rotationTimer);
    var c2 := c1.(reconnectTimer := None, rotationTimer := None, ws := None, session := None);
    EnsureTasks(c2.(live := ClosedCurrent(c)), file, caught);
  }

  lemma ConnectKeeps(c: Client, caught: bool)
    ensures Connected(c, caught).nextTimer == c.nextTimer
  {
  }

  lemma ResumeArms(c: Client, task: Task, outcome: Outcome, file: Option<Grant>)
    ensures var c', armed := Continue(c, task, outcome, file), Armed(c, Resume(task, outcome, file));
            && c'.nextTimer == c.nextTimer + (if armed.Some? then 1 else 0)
            && (armed.Some? ==> c.nextTimer in c'.timers && c'.timers[c.nextTimer] == armed.value)
  {
    hide Install, ScheduleSessionRetry, ScheduleReconnect, Rotate, RotatesAt, Connected;
    DueTimes(c, Obtained(task, outcome).GetOr(OK.grant));
    ClearsOnly(c, file, true);
    if task.Finishing? {
      ConnectKeeps(c, task.caught);
    }
  }

  /** An event arms at most one timer: a rotation when a session was obtained, a retry after 15 seconds when a
      creation failed, and a reconnect after 2 seconds when a socket closed with a session there; the last two
      only when neither is remembered. */
  lemma ArmsExactly(c: Client, e: Event)
    requires Enabled(c, e)
    ensures var c', armed := Step(c, e), Armed(c, e);
            && c'.nextTimer == c.nextTimer + (if armed.Some? then 1 else 0)
            && (armed.Some? ==> c.nextTimer in c'.timers && c'.timers[c.nextTimer] == armed.value)
  {
    hide Continue, ScheduleReconnect, Rotate, EnsureSession, Stop, RotatesAt;
    match e
    case Resume(task, outcome, file) => ResumeArms(c.(tasks := c.tasks - multiset{task}), task, outcome, file);
    case SocketClosed(socket) => DueTimes(c.(live := c.live - {socket}), OK.grant);
    case Fire(timer, file) =>
      ClearsOnly(c.(timers := c.timers - {timer}, reconnectTimer := None), file, false);
      ClearsOnly(c.(timers := c.timers - {timer}, rotationTimer := None), file, false);
    case StartCall(file) => ClearsOnly(c, file, true);
    case StatusFrame(_, file) => ClearsOnly(c, file, false);
    case StopCall => ClearsOnly(c, None, false);
    case _ =>
  }

  // ----- creations -----

  /** The event begins to create a session: the start, a retry or a rotation that fires, a refused refresh, or
      the refresh of a session that has expired. */
  predicate BeginsCreation(c: Client, e: Event)
    requires Enabled(c, e)
  {
    match e
    case StartCall(_) => true
    case StatusFrame(_, _) => c.session.Some? && c.session.value.Full? && c.session.value.grant.expiresAt <= c.now
    case Resume(task, outcome, _) => task.Refreshing? && outcome.Refused?
    case Fire(timer, _) => c.timers[timer].kind != Reconnect
    case _ => false
  }

  function FileOf(e: Event): Option<Grant>
    requires e.StartCall? || e.StatusFrame? || e.Resume? || e.Fire?
  {
    e.file
  }

  /** What is left to do without the task that was resumed. */
  function Others(c: Client, e: Event): multiset<Task> {
    if e.Resume? then c.tasks - multiset{e.task} else c.tasks
  }

  /** The task a creation begins with: asking about the session of the file, when that has not expired, or
      for a new one. */
  function FirstTask(file: Option<Grant>, caught: bool, now: int): Task {
    if file.Some? && file.value.expiresAt > now then Restoring(file.value, caught) else Posting(caught)
  }

  lemma EnsureBegins(c: Client, file: Option<Grant>, caught: bool)
    ensures EnsureSession(c, file, caught) == c.(tasks := c.tasks + multiset{FirstTask(file, caught, c.now)})
  {
  }

  lemma RotateBegins(c: Client, file: Option<Grant>, caught: bool)
    ensures Rotate(c, file, caught).tasks == c.tasks + multiset{FirstTask(file, caught, c.now)}
    ensures Rotate(c, file, caught).session == None
  {
    hide ClosedCurrent, EnsureSession, ClearTimer, FirstTask;
    ClearKeeps(c);
    var c1 := ClearTimer(ClearTimer(c, c.reconnectTimer), c.rotationTimer);
    var c2 := c1.(reconnectTimer := None, rotationTimer := None, ws := None, session := None);
    EnsureBegins(c2.(live := ClosedCurrent(c)), file, caught);
  }

  lemma FireBegins(c: Client, timer: TimerId, file: Option<Grant>)
    requires timer in c.timers && c.timers[timer].kind != Reconnect
    ensures FireStep(c, timer, file).tasks == c.tasks + multiset{FirstTask(file, false, c.now)}
    ensures FireStep(c, timer, file).session == if c.timers[timer].kind == Retry then c.session else None
  {
    hide EnsureSession, Rotate, FirstTask, Connected;
    RotateBegins(c.(timers := c.timers - {timer}, rotationTimer := None), file, false);
    EnsureBegins(c.(timers := c.timers - {timer}, reconnectTimer := None), file, false);
  }

  lemma RefusalBegins(c: Client, file: Option<Grant>)
    requires Refreshing in c.tasks
    ensures var c' := ResumeStep(c, Refreshing, Refused, file);
            && c'.tasks == (c.tasks - multiset{Refreshing}) + multiset{FirstTask(file, true, c.now)}
            && c'.session == None
  {
    hide Rotate, FirstTask;
    RotateBegins(c.(tasks := c.tasks - multiset{Refreshing}), file, true);
  }

  /** A creation begins with its first task; the session there was is dropped, except by a start and a retry. */
  lemma CreationBegins(c: Client, e: Event)
    requires Enabled(c, e) && BeginsCreation(c, e)
    ensures Step(c, e).tasks == Others(c, e) + multiset{FirstTask(FileOf(e), e.StartCall? || e.Resume?, c.now)}
    ensures Step(c, e).session
         == if e.StartCall? || (e.Fire? && c.timers[e.timer].kind == Retry) then c.session else None
  {
    hide EnsureSession, Rotate, FirstTask, ResumeStep, FireStep;
    match e
    case StartCall(file) => EnsureBegins(c, file, true);
    case StatusFrame(_, file) => RotateBegins(c, file, false);
    case Resume(task, outcome, file) => RefusalBegins(c, file);
    case Fire(timer, file) => FireBegins(c, timer, file);
  }

  /** A frame on which the status is reported has the session refreshed exactly when there is one that has not
      expired, as far as it has an expiry; it does nothing without a session. */
  lemma FrameRefreshes(c: Client, e: Event)
    requires Enabled(c, e) && e.StatusFrame? && !BeginsCreation(c, e)
    ensures Step(c, e) == if c.session.Some? then c.(tasks := c.tasks + multiset{Refreshing}) else c
  {
  }

  /** A session is stored exactly when one was obtained, and is the one obtained. */
  lemma StoresObtained(c: Client, e: Event)
    requires Enabled(c, e)
    ensures e.Resume? && Obtained(e.task, e.outcome).Some? ==>
              Step(c, e).session == Some(Full(Obtained(e.task, e.outcome).value))
    ensures Step(c, e).session.Some? && Step(c, e).session.value.Full? && Step(c, e).session != c.session ==>
              e.Resume? && Obtained(e.task, e.outcome).Some?
  {
    hide ScheduleReconnect, Rotate, EnsureSession, Stop, Install, ScheduleSessionRetry;
    EventCases(c, e);
    if e.Resume? {
      var c0 := c.(tasks := c.tasks - multiset{e.task});
      ArmingKeeps(c0, Obtained(e.task, e.outcome).GetOr(OK.grant));
      ClearingKeeps(c0, e.file, true);
    }
  }
}
