/** The relay client keeps trying (agent/src/relay-client.ts): from `start` until `stop` it always has
    something in flight or a timer pending, unless its process has ended. */
module RelayClientProgress {
  import opened Options
  import opened Sequences
  import opened RelayClientModel

  /** A task that ends in a session or in a retry. */
  predicate Creates(t: Task) {
    t.Restoring? || t.Posting? || t.ReadingError? || t.ReadingBody?
  }

  predicate RetryPending(c: Client) {
    c.reconnectTimer.Some? && c.reconnectTimer.value in c.timers && c.timers[c.reconnectTimer.value].kind == Retry
  }

  predicate CreatingTask(c: Client) {
    exists t :: t in c.tasks && Creates(t)
  }

  /** Without a session one is being created or a retry is pending, and the reconnect timer can only be
      that retry; with a session that has no expiry there is still a creation or a timer. */
  predicate Awake(c: Client) {
    !c.stopped && !c.crashed ==>
      && (c.session.None? ==>
           && (CreatingTask(c) || RetryPending(c))
           && (c.reconnectTimer.Some? ==> RetryPending(c)))
      && (c.session == Some(Partial) ==> CreatingTask(c) || c.reconnectTimer.Some?)
  }

  /** Retries and reconnects are never further away than their delay. */
  predicate DueSoon(c: Client) {
    forall t :: t in c.timers ==>
      && (c.timers[t].kind == Retry ==> c.timers[t].due <= c.now + 15_000)
      && (c.timers[t].kind == Reconnect ==> c.timers[t].due <= c.now + 2_000)
  }

  lemma HasTask(c: Client, t: Task)
    requires t in c.tasks && Creates(t)
    ensures CreatingTask(c)
  {
  }

  predicate OnlyRetry(c: Client) {
    !c.stopped && !c.crashed && c.session.None? && c.reconnectTimer.Some? ==> RetryPending(c)
  }

  /** A failed attempt leaves a retry, unless there is a session by now. */
  lemma RetryAwake(c: Client, caught: bool)
    requires Inv(c) && OnlyRetry(c)
    ensures Awake(Begin(ScheduleSessionRetry(c), Finishing(caught)))
  {
  }

  lemma EnsureAwake(c: Client, file: Option<Grant>, caught: bool)
    requires OnlyRetry(c)
    ensures Awake(EnsureSession(c, file, caught))
  {
    HasTask(EnsureSession(c, file, caught),
            if file.Some? && file.value.expiresAt > c.now then Restoring(file.value, caught) else Posting(caught));
  }

  lemma RotateAwake(c: Client, file: Option<Grant>, caught: bool)
    ensures Awake(Rotate(c, file, caught))
  {
    hide EnsureSession, Awake;
    var c1 := ClearTimer(ClearTimer(c, c.reconnectTimer), c.rotationTimer).(
      reconnectTimer := None, rotationTimer := None, ws := None, session := None, live := ClosedCurrent(c));
    EnsureAwake(c1, file, caught);
  }

  /** A task that is not creating a session may go. */
  lemma WithoutTask(c: Client, t: Task)
    requires Awake(c) && t in c.tasks && !Creates(t)
    ensures Awake(c.(tasks := c.tasks - multiset{t}))
  {
    var c' := c.(tasks := c.tasks - multiset{t});
    if exists u :: u in c.tasks && Creates(u) {
      var u :| u in c.tasks && Creates(u);
      assert u in c'.tasks;
    }
  }

  lemma BeginAwake(c: Client, t: Task)
    requires Awake(c)
    ensures Awake(Begin(c, t))
  {
    if exists u :: u in c.tasks && Creates(u) {
      var u :| u in c.tasks && Creates(u);
      HasTask(Begin(c, t), u);
    }
  }

  lemma StoredAwake(c: Client, grant: Grant, caught: bool)
    ensures Awake(Begin(Install(c, grant), Finishing(caught)))
  {
    hide TimerDelay, RotationDelay;
  }

  lemma CreatingAwake(c: Client, t: Task)
    requires OnlyRetry(c) && Creates(t)
    ensures Awake(Begin(c, t))
  {
    HasTask(Begin(c, t), t);
  }

  /** A task that was creating a session goes on, stores one, or leaves a retry. */
  lemma CreationAwake(c: Client, task: Task, outcome: Outcome, file: Option<Grant>)
    requires Inv(c) && OnlyRetry(c) && Creates(task)
    ensures Awake(Continue(c, task, outcome, file))
  {
    hide Inv, Awake, OnlyRetry, Install, ScheduleSessionRetry, Begin;
    RetryAwake(c, task.caught);
    match task
    case Restoring(grant, caught) =>
      StoredAwake(c, grant, caught);
      CreatingAwake(c, Posting(caught));
    case Posting(caught) =>
      CreatingAwake(c, ReadingBody(caught));
      CreatingAwake(c, ReadingError(caught));
    case ReadingError(caught) =>
    case ReadingBody(caught) =>
      if outcome.Good? {
        StoredAwake(c, outcome.grant, caught);
      }
  }

  lemma ResumeAwake(c: Client, task: Task, outcome: Outcome, file: Option<Grant>)
    requires Inv(c) && Awake(c) && task in c.tasks
    ensures Awake(ResumeStep(c, task, outcome, file))
  {
    hide Inv, Continue, Rotate, Connected;
    var c0 := c.(tasks := c.tasks - multiset{task});
    SameTimers(c, c0);
    if Creates(task) {
      CreationAwake(c0, task, outcome, file);
    } else {
      WithoutTask(c, task);
      OtherAwake(c0, task, outcome, file);
    }
  }

  lemma OtherAwake(c: Client, task: Task, outcome: Outcome, file: Option<Grant>)
    requires Awake(c) && !Creates(task)
    ensures Awake(Continue(c, task, outcome, file))
  {
    hide Rotate, Connected;
    match task
    case Refreshing =>
      RotateAwake(c, file, true);
      BeginAwake(c, ReadingStatus);
    case Finishing(caught) => ConnectedAwake(c, caught);
    case ReadingStatus =>
  }

  lemma ConnectedAwake(c: Client, caught: bool)
    requires Awake(c)
    ensures Awake(Connected(c, caught))
  {
  }

  lemma FireAwake(c: Client, timer: TimerId, file: Option<Grant>)
    requires Inv(c) && Awake(c) && timer in c.timers
    ensures Awake(FireStep(c, timer, file))
  {
    hide EnsureSession, Rotate, Awake, RotationFits, Timely, Connected;
    var c0 := c.(timers := c.timers - {timer});
    assert FieldOf(c, c.timers[timer].kind) == Some(timer);
    match c.timers[timer].kind
    case Retry => EnsureAwake(c0.(reconnectTimer := None), file, false);
    case Rotation => RotateAwake(c0.(rotationTimer := None), file, false);
    case Reconnect =>
      ReconnectAwake(c, timer);
  }

  /** A reconnect is pending only while there is a session, or after `stop`; without a URL it ends the
      process. */
  lemma ReconnectAwake(c: Client, timer: TimerId)
    requires Inv(c) && Awake(c) && timer in c.timers && c.timers[timer].kind == Reconnect
    ensures Awake(Connected(c.(timers := c.timers - {timer}, reconnectTimer := None), false))
  {
    assert FieldOf(c, Reconnect) == Some(timer);
  }

  lemma StepAwake(c: Client, e: Event)
    requires Inv(c) && (Awake(c) || e.StartCall?) && Enabled(c, e)
    requires e.StartCall? ==> Awake(c) || c.reconnectTimer.None?
    ensures Awake(Step(c, e))
  {
    hide Inv, Rotate, ResumeStep, FireStep, EnsureSession;
    match e
    case StartCall(file) => EnsureAwake(c, file, true);
    case StopCall =>
    case StatusFrame(_, file) =>
      RotateAwake(c, file, false);
      if Refresh(c, file) == Begin(c, Refreshing) {
        BeginAwake(c, Refreshing);
      }
    case Resume(task, outcome, file) => ResumeAwake(c, task, outcome, file);
    case Fire(timer, file) => FireAwake(c, timer, file);
    case _ =>
  }

  lemma ArmedDueSoon(c: Client, grant: Grant)
    requires DueSoon(c)
    ensures DueSoon(ScheduleSessionRetry(c)) && DueSoon(ScheduleReconnect(c)) && DueSoon(Install(c, grant))
  {
  }

  lemma FewerDueSoon(c: Client, c': Client)
    requires DueSoon(c) && c.now <= c'.now
    requires forall t :: t in c'.timers ==> t in c.timers && c'.timers[t] == c.timers[t]
    ensures DueSoon(c')
  {
  }

  lemma RotateDueSoon(c: Client, file: Option<Grant>, caught: bool)
    requires DueSoon(c)
    ensures DueSoon(Rotate(c, file, caught)) && DueSoon(Stop(c))
  {
    hide DueSoon, ClosedCurrent, EnsureSession;
    var c1 := ClearTimer(ClearTimer(c, c.reconnectTimer), c.rotationTimer);
    assert forall t :: t in c1.timers ==> t in c.timers && c1.timers[t] == c.timers[t];
    var c2 := c1.(reconnectTimer := None, rotationTimer := None, ws := None, session := None);
    EnsureTasks(c2.(live := ClosedCurrent(c)), file, caught);
    FewerDueSoon(c, Rotate(c, file, caught));
    FewerDueSoon(c, Stop(c));
  }

  lemma ResumeDueSoon(c: Client, task: Task, outcome: Outcome, file: Option<Grant>)
    requires DueSoon(c) && task in c.tasks
    ensures DueSoon(ResumeStep(c, task, outcome, file))
  {
    hide DueSoon, Install, ScheduleSessionRetry, ScheduleReconnect, Stop, Rotate;
    var c0 := c.(tasks := c.tasks - multiset{task});
    var c' := ResumeStep(c, task, outcome, file);
    KeptDueSoon(c, c0);
    RotateDueSoon(c0, file, true);
    match task
    case Restoring(grant, _) =>
      ArmedDueSoon(c0, grant);
      KeptDueSoon(if outcome.Good? then Install(c0, grant) else c0, c');
    case ReadingBody(_) =>
      ArmedDueSoon(c0, if outcome.Good? then outcome.grant else OK.grant);
      KeptDueSoon(if outcome.Good? then Install(c0, outcome.grant) else ScheduleSessionRetry(c0), c');
    case Posting(_) =>
      ArmedDueSoon(c0, OK.grant);
      KeptDueSoon(if outcome.Threw? then ScheduleSessionRetry(c0) else c0, c');
    case ReadingError(_) =>
      ArmedDueSoon(c0, OK.grant);
      KeptDueSoon(ScheduleSessionRetry(c0), c');
    case Refreshing =>
      if !outcome.Refused? {
        KeptDueSoon(c0, c');
      }
    case _ => KeptDueSoon(c0, c');
  }

  lemma KeptDueSoon(c: Client, c': Client)
    requires DueSoon(c) && c'.timers == c.timers && c'.now == c.now
    ensures DueSoon(c')
  {
  }

  lemma StepDueSoon(c: Client, e: Event)
    requires DueSoon(c) && Enabled(c, e)
    ensures DueSoon(Step(c, e))
  {
    hide DueSoon, ResumeStep, Rotate, Stop, ScheduleReconnect;
    match e
    case Resume(task, outcome, file) => ResumeDueSoon(c, task, outcome, file);
    case StartCall(_) => FewerDueSoon(c, Step(c, e));
    case StopCall => RotateDueSoon(c, None, false);
    case StatusFrame(_, file) =>
      RotateDueSoon(c, file, false);
      FewerDueSoon(c, Begin(c, Refreshing));
    case Fire(timer, file) =>
      var c0 := c.(timers := c.timers - {timer}, rotationTimer := None);
      FewerDueSoon(c, c0);
      RotateDueSoon(c0, file, false);
      if c.timers[timer].kind != Rotation {
        FewerDueSoon(c, Step(c, e));
      }
    case SocketClosed(socket) =>
      FewerDueSoon(c, c.(live := c.live - {socket}));
      ArmedDueSoon(c.(live := c.live - {socket}), OK.grant);
    case _ => FewerDueSoon(c, Step(c, e));
  }

  lemma {:induction false} RunAwake(c: Client, events: seq<Event>)
    requires Inv(c) && Awake(c) && CanRun(c, events)
    ensures Awake(Run(c, events))
    decreases |events|
  {
    if events != [] {
      hide Inv, Awake;
      StepInv(c, events[0]);
      StepAwake(c, events[0]);
      RunAwake(Step(c, events[0]), events[1..]);
    }
  }

  lemma {:induction false} RunDueSoon(c: Client, events: seq<Event>)
    requires DueSoon(c) && CanRun(c, events)
    ensures DueSoon(Run(c, events))
    decreases |events|
  {
    if events != [] {
      hide DueSoon;
      StepDueSoon(c, events[0]);
      RunDueSoon(Step(c, events[0]), events[1..]);
    }
  }

  predicate Dormant(c: Client) {
    c.tasks == multiset{} && c.timers == map[]
  }

  /** Once started and until stopped a client has something in flight or a timer pending as long as its
      process lives.  With nothing in flight, no timer is pending exactly when the session has no expiry
      and no reconnect is due.  A retry or a reconnect that is pending is due within 15 or 2 seconds. */
  lemma NeverDormant(now: int, file: Option<Grant>, events: seq<Event>)
    requires CanRun(Fresh(now), [StartCall(file)] + events)
    ensures var c := Run(Fresh(now), [StartCall(file)] + events);
            && (!c.stopped && !c.crashed ==> !Dormant(c))
            && (!c.stopped && c.tasks == multiset{} ==>
                 (c.timers == map[] <==> c.session == Some(Partial) && c.reconnectTimer.None?))
            && DueSoon(c)
  {
    hide Awake, Inv, DueSoon;
    var all := [StartCall(file)] + events;
    var c1 := Step(Fresh(now), StartCall(file));
    assert all[1..] == events;
    FreshClient(now);
    StepAwake(Fresh(now), StartCall(file));
    StepInv(Fresh(now), StartCall(file));
    RunAwake(c1, events);
    RunInv(c1, events);
    RunCrashed(c1, events);
    RunDueSoon(Fresh(now), all);
    if !Run(Fresh(now), all).stopped {
      AwakeNotDormant(Run(Fresh(now), all));
    }
  }

  lemma FreshClient(now: int)
    ensures Inv(Fresh(now)) && DueSoon(Fresh(now))
  {
  }

  /** A process that has ended had a session. */
  predicate CrashedInSession(c: Client) {
    c.crashed ==> c.session.Some?
  }

  lemma {:induction false} RunCrashed(c: Client, events: seq<Event>)
    requires CrashedInSession(c) && CanRun(c, events)
    ensures CrashedInSession(Run(c, events))
    decreases |events|
  {
    if events != [] {
      StepCrashed(c, events[0]);
      RunCrashed(Step(c, events[0]), events[1..]);
    }
  }

  /** What throws leaves the session as it is. */
  lemma StepCrashed(c: Client, e: Event)
    requires Enabled(c, e)
    ensures CrashedInSession(Step(c, e))
  {
    hide Install, ScheduleSessionRetry, ScheduleReconnect, Rotate, EnsureSession, Stop;
    EventCases(c, e);
  }

  lemma AwakeNotDormant(c: Client)
    requires Inv(c) && Awake(c) && CrashedInSession(c) && !c.stopped
    ensures !c.crashed ==> !Dormant(c)
    ensures c.tasks == multiset{} ==> (c.timers == map[] <==> c.session == Some(Partial) && c.reconnectTimer.None?)
  {
    hide RotationDelay, TimerDelay;
    if c.session == Some(Partial) && c.reconnectTimer.None? {
      RememberedTimers(c);
      if c.rotationTimer.Some? {
        RotationKind(c);
      }
      assert c.timers.Keys == {};
    }
  }

  // ----- the process that ends -----

  /** Every running client whose rotation falls due while a status is being read may end that way: the
      status brings the session back without its URL, the creation fails, and `connect` throws. */
  lemma LateStatusCrashes(c: Client) returns (events: seq<Event>)
    requires Inv(c) && !c.stopped && !c.crashed && c.session.Some? && c.session.value.Full?
    requires ReadingStatus in c.tasks && c.rotationTimer.Some? && c.timers[c.rotationTimer.value].due <= c.now
    ensures CanRun(c, events) && Run(c, events).crashed
  {
    hide CanRun, Run, Inv, Rotate;
    var t := c.rotationTimer.value;
    RotationKind(c);
    FiredRotation(c, t, None);
    RotateClears(c, false);
    var c1 := Step(c, Fire(t, None));
    var c2 := Step(c1, Resume(ReadingStatus, OK, None));
    var after := FailedCreationCrashes(c2);
    var before := [Fire(t, None), Resume(ReadingStatus, OK, None)];
    NoEvents(c2, before);
    FirstThen(c1, before, 1);
    FirstThen(c, before, 0);
    assert before[0..] == before;
    RunOn(c, before, after);
    events := before + after;
  }

  lemma FailedCreationCrashes(c: Client) returns (events: seq<Event>)
    requires !c.crashed && c.session == Some(Partial) && Posting(false) in c.tasks
    ensures CanRun(c, events) && Run(c, events).crashed
  {
    hide CanRun, Run, ScheduleSessionRetry;
    events := [Resume(Posting(false), Threw, None), Resume(Finishing(false), OK, None)];
    RetryKeepsSession(c.(tasks := c.tasks - multiset{Posting(false)}));
    var c1 := Step(c, events[0]);
    var c2 := Step(c1, events[1]);
    NoEvents(c2, events);
    FirstThen(c1, events, 1);
    FirstThen(c, events, 0);
    assert events[0..] == events;
  }

  lemma RetryKeepsSession(c: Client)
    ensures ScheduleSessionRetry(c).session == c.session && ScheduleSessionRetry(c).crashed == c.crashed
  {
  }

  /** And from a fresh client a run gets there. */
  lemma CrashIsReachable(now: int) returns (events: seq<Event>)
    ensures CanRun(Fresh(now), events) && Run(Fresh(now), events).crashed
  {
    hide CanRun, Run, Inv;
    SuchAClient(now);
    var before := ReadingWhenDue(now);
    FreshClient(now);
    RunInv(Fresh(now), before);
    var after := LateStatusCrashes(Run(Fresh(now), before));
    RunOn(Fresh(now), before, after);
    events := before + after;
  }

  lemma RotationKind(c: Client)
    requires Inv(c) && !c.stopped && c.rotationTimer.Some?
    ensures c.rotationTimer.value in c.timers && c.timers[c.rotationTimer.value].kind == Rotation
  {
    assert FieldOf(c, c.timers[c.rotationTimer.value].kind) == c.rotationTimer;
  }
}
