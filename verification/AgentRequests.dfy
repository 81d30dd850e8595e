/** File requests from HTTP to an agent: `pendingAgentRequests`, its timers and its promises
    (relay/src/server.ts, `requestAgentPayload` and the file-response branch). */
module AgentRequests {
  import opened Options
  import opened Sequences

  const REQUEST_TIMEOUT_MS := 5_000

  /** How a promise was settled: by an agent's reply or by its timer. */
  datatype Outcome = Resolved(reply: string) | TimedOut

  datatype Settlement = Settlement(requestId: string, outcome: Outcome, at: int)

  /** A live timeout: the closure's request and the time it is due. */
  datatype Timer = Timer(requestId: string, due: int)

  /** `pending` is the map of the source; the rest is what the event loop knows and what happened. */
  datatype Requests = Requests(
    clock: int,
    pending: map<string, nat>,
    timers: map<nat, Timer>,
    nextTimer: nat,
    issued: map<string, int>,
    settled: seq<Settlement>)

  datatype Event =
    | Issue(requestId: string)
    | Respond(replyTo: string, reply: string)
    | Fire(timer: nat)
    | Advance(to: int)

  /** Request ids are fresh UUIDs; a timer fires once it is due, and time does not pass a due timer by. */
  ghost predicate Enabled(r: Requests, e: Event) {
    match e
    case Issue(id) => id !in r.issued
    case Respond(_, _) => true
    case Fire(t) => t in r.timers && r.timers[t].due <= r.clock
    case Advance(to) => r.clock <= to && forall t :: t in r.timers ==> to <= r.timers[t].due
  }

  function IssueStep(r: Requests, id: string): Requests {
    r.(pending := r.pending[id := r.nextTimer],
       timers := r.timers[r.nextTimer := Timer(id, r.clock + REQUEST_TIMEOUT_MS)],
       nextTimer := r.nextTimer + 1,
       issued := r.issued[id := r.clock])
  }

  function RespondStep(r: Requests, id: string, reply: string): Requests {
    if id in r.pending
    then r.(timers := r.timers - {r.pending[id]},
            pending := r.pending - {id},
            settled := r.settled + [Settlement(id, Resolved(reply), r.clock)])
    else r
  }

  function FireStep(r: Requests, t: nat): Requests {
    if t in r.timers
    then r.(timers := r.timers - {t},
            pending := r.pending - {r.timers[t].requestId},
            settled := r.settled + [Settlement(r.timers[t].requestId, TimedOut, r.clock)])
    else r
  }

  function Step(r: Requests, e: Event): Requests {
    match e
    case Issue(id) => IssueStep(r, id)
    case Respond(id, reply) => RespondStep(r, id, reply)
    case Fire(t) => FireStep(r, t)
    case Advance(to) => r.(clock := to)
  }

  function Initial(clock: int): Requests {
    Requests(clock, map[], map[], 0, map[], [])
  }

  function SettledIds(settled: seq<Settlement>): seq<string> {
    if settled == [] then [] else SettledIds(DropLast(settled)) + [Last(settled).requestId]
  }

  lemma SettledIdsPush(settled: seq<Settlement>, s: Settlement)
    ensures SettledIds(settled + [s]) == SettledIds(settled) + [s.requestId]
  {
    assert DropLast(settled + [s]) == settled;
  }

  // ----- what every reachable state satisfies -----

  /** Pending is exactly issued minus settled, and no promise was settled twice. */
  ghost predicate ExactlyOnce(r: Requests) {
    && NoDup(SettledIds(r.settled))
    && (forall id :: id in SettledIds(r.settled) ==> id in r.issued)
    && (forall id :: id in r.pending <==> id in r.issued && id !in SettledIds(r.settled))
  }

  /** Pending entries and live timers are in bijection, and each timer is due 5 s after its issue. */
  ghost predicate OneTimerEach(r: Requests) {
    && (forall t :: t in r.timers ==> t < r.nextTimer && r.timers[t].requestId in r.pending
                                      && r.pending[r.timers[t].requestId] == t)
    && (forall id :: id in r.pending ==> id in r.issued && r.pending[id] in r.timers
                                         && r.timers[r.pending[id]] == Timer(id, r.issued[id] + 5_000))
  }

  predicate Timely(issuedAt: int, s: Settlement) {
    && issuedAt <= s.at <= issuedAt + 5_000
    && (s.outcome == TimedOut ==> s.at == issuedAt + 5_000)
  }

  ghost predicate OnTime(r: Requests) {
    && (forall s :: s in r.settled ==> s.requestId in r.issued && Timely(r.issued[s.requestId], s))
    && (forall id :: id in r.pending ==> id in r.issued && r.issued[id] <= r.clock <= r.issued[id] + 5_000)
  }

  ghost predicate Inv(r: Requests) {
    ExactlyOnce(r) && OneTimerEach(r) && OnTime(r)
  }

  lemma InSettledIds(settled: seq<Settlement>, s: Settlement)
    requires s in settled
    ensures s.requestId in SettledIds(settled)
  {
    if s != Last(settled) {
      InSettledIds(DropLast(settled), s);
    }
  }

  lemma StepInv(r: Requests, e: Event)
    requires Inv(r) && Enabled(r, e)
    ensures Inv(Step(r, e))
  {
    match e
    case Issue(id) => IssueInv(r, id);
    case Respond(id, reply) =>
      if id in r.pending {
        SettleInv(r, id, Resolved(reply));
      }
    case Fire(t) => SettleInv(r, r.timers[t].requestId, TimedOut);
    case Advance(to) =>
  }

  lemma IssueInv(r: Requests, id: string)
    requires Inv(r) && id !in r.issued
    ensures Inv(IssueStep(r, id))
  {
    hide ExactlyOnce, OneTimerEach, OnTime;
    IssuedOnce(r, id);
    IssuedTimer(r, id);
    IssuedOnTime(r, id);
  }

  lemma IssuedOnce(r: Requests, id: string)
    requires ExactlyOnce(r) && id !in r.issued
    ensures ExactlyOnce(IssueStep(r, id))
  {
    hide NoDup, SettledIds;
  }

  lemma IssuedTimer(r: Requests, id: string)
    requires OneTimerEach(r) && id !in r.issued
    ensures OneTimerEach(IssueStep(r, id))
  {
  }

  lemma IssuedOnTime(r: Requests, id: string)
    requires ExactlyOnce(r) && OnTime(r) && id !in r.issued
    ensures OnTime(IssueStep(r, id))
  {
    hide NoDup, SettledIds;
    forall s | s in r.settled ensures s.requestId != id {
      InSettledIds(r.settled, s);
    }
  }

  lemma SettleInv(r: Requests, id: string, outcome: Outcome)
    requires Inv(r) && id in r.pending
    requires outcome == TimedOut ==> r.timers[r.pending[id]].due <= r.clock
    ensures Inv(r.(timers := r.timers - {r.pending[id]}, pending := r.pending - {id},
                   settled := r.settled + [Settlement(id, outcome, r.clock)]))
  {
    SettledIdsPush(r.settled, Settlement(id, outcome, r.clock));
    NoDupPush(SettledIds(r.settled), id);
  }

  function Run(start: int, events: seq<Event>): Requests {
    if events == [] then Initial(start) else Step(Run(start, DropLast(events)), Last(events))
  }

  ghost predicate EnabledRun(start: int, events: seq<Event>) {
    events == [] || (EnabledRun(start, DropLast(events)) && Enabled(Run(start, DropLast(events)), Last(events)))
  }

  /** Over every interleaving of requests, replies, late and duplicate replies and timer firings. */
  lemma {:induction false} RequestsSettleOnce(start: int, events: seq<Event>)
    requires EnabledRun(start, events)
    ensures Inv(Run(start, events))
  {
    if events != [] {
      RequestsSettleOnce(start, DropLast(events));
      StepInv(Run(start, DropLast(events)), Last(events));
    }
  }

  /** More than 5 s after its issue a request is settled: exactly one settlement, at most 5 s after it. */
  lemma SettledWithinFiveSeconds(start: int, events: seq<Event>, id: string) returns (i: nat)
    requires EnabledRun(start, events)
    requires id in Run(start, events).issued
    requires Run(start, events).clock > Run(start, events).issued[id] + 5_000
    ensures i < |Run(start, events).settled| && Run(start, events).settled[i].requestId == id
    ensures forall j ::
              0 <= j < |Run(start, events).settled| && j != i ==> Run(start, events).settled[j].requestId != id
    ensures Timely(Run(start, events).issued[id], Run(start, events).settled[i])
  {
    var r := Run(start, events);
    RequestsSettleOnce(start, events);
    i := FindSettlement(r.settled, id);
  }

  lemma {:induction false} FindSettlement(settled: seq<Settlement>, id: string) returns (i: nat)
    requires NoDup(SettledIds(settled)) && id in SettledIds(settled)
    ensures i < |settled| && settled[i].requestId == id
    ensures forall j :: 0 <= j < |settled| && j != i ==> settled[j].requestId != id
  {
    var init := DropLast(settled);
    assert settled == init + [Last(settled)];
    NoDupPush(SettledIds(init), Last(settled).requestId);
    if Last(settled).requestId == id {
      i := |settled| - 1;
      forall j | 0 <= j < |settled| && j != i ensures settled[j].requestId != id {
        assert settled[j] in init;
        InSettledIds(init, settled[j]);
      }
    } else {
      i := FindSettlement(init, id);
      forall j | 0 <= j < |settled| && j != i ensures settled[j].requestId != id {
        assert j < |init| ==> settled[j] == init[j];
      }
    }
  }

  // ----- the object -----

  class RequestTable {
    var state: Requests

    constructor (clock: int)
      ensures state == Initial(clock) && Inv(state)
    {
      state := Initial(clock);
    }

    /** Arms the timer first, then files the request under its id. */
    method Open(id: string)
      requires Inv(state) && Enabled(state, Issue(id))
      modifies this
      ensures state == Step(old(state), Issue(id)) && Inv(state)
    {
      StepInv(state, Issue(id));
      var timer := state.nextTimer;
      state := state.(timers := state.timers[timer := Timer(id, state.clock + REQUEST_TIMEOUT_MS)],
                      nextTimer := timer + 1);
      state := state.(pending := state.pending[id := timer], issued := state.issued[id := state.clock]);
    }

    method OnReply(id: string, reply: string)
      requires Inv(state)
      modifies this
      ensures state == Step(old(state), Respond(id, reply)) && Inv(state)
    {
      StepInv(state, Respond(id, reply));
      if id !in state.pending {
        return;
      }
      var timer := state.pending[id];
      state := state.(timers := state.timers - {timer});
      state := state.(pending := state.pending - {id});
      state := state.(settled := state.settled + [Settlement(id, Resolved(reply), state.clock)]);
    }

    method OnTimeout(timer: nat)
      requires Inv(state) && Enabled(state, Fire(timer))
      modifies this
      ensures state == Step(old(state), Fire(timer)) && Inv(state)
    {
      StepInv(state, Fire(timer));
      var id := state.timers[timer].requestId;
      state := state.(timers := state.timers - {timer});
      state := state.(pending := state.pending - {id});
      state := state.(settled := state.settled + [Settlement(id, TimedOut, state.clock)]);
    }

    method Wait(to: int)
      requires Inv(state) && Enabled(state, Advance(to))
      modifies this
      ensures state == Step(old(state), Advance(to)) && Inv(state)
    {
      StepInv(state, Advance(to));
      state := state.(clock := to);
    }
  }
}
