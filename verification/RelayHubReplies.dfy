/** Which file requests an agent's reply settles (relay/src/server.ts). */
module RelayHubReplies {
  import opened Options
  import opened Sequences
  import opened OrderedMaps
  import opened Texts
  import opened Messages
  import opened HistoryLog
  import opened Snapshots
  import opened StoreTables
  import opened RelayHubModel
  import opened RelayHubInvariants
  import opened RelayHubSteps
  import opened RelayHubRuns
  import opened RelayHubReachability
  import AR = AgentRequests

  predicate IsReply(msg: Msg) {
    msg.kind == Some("relay_file_response") && msg.requestId.Some?
  }

  function ReplyMsg(requestId: string, reply: string): Msg {
    Msg(Some("relay_file_response"), None, None, None, None, Some(requestId), None, None, None, None, NO_PAYLOAD, reply)
  }

  /** A reply settles the request it names exactly when that is pending, with this reply, and no other;
      neither the session of the replying agent nor that of the request plays a part. */
  lemma ReplySettlesIff(codec: Codec, h: Hub, ws: SocketId, msg: Msg, io: Io)
    requires Inv(h) && Live(h, ws) && IsReply(msg)
    requires h.sockets[ws].claims.Some? && h.sockets[ws].claims.value.role == Agent
    ensures var id, r := msg.requestId.value, h.requests;
            var r' := LaterFrame(codec, h, ws, h.sockets[ws].claims.value, msg, io).0.requests;
            && (id in r.pending ==> r'.pending == r.pending - {id}
                                    && r'.settled == r.settled + [AR.Settlement(id, AR.Resolved(msg.reply), r.clock)])
            && (id !in r.pending ==> r' == r)
            && (r'.settled != r.settled <==> id in r.pending)
  {
    assert h.requests.settled == h.requests.settled[..|h.requests.settled|];
  }

  /** Two sessions, an open socket each. */
  lemma TwoSessions(codec: Codec, a: Session, b: Session) returns (states: seq<Hub>, events: seq<Event>)
    requires a.id != b.id
    ensures Execution(codec, 0, states, events) && states != []
    ensures Inv(Last(states)) && Quiet(Last(states), a.id) && Quiet(Last(states), b.id)
    ensures Last(states).sockets == map[1 := FRESH_SOCKET, 2 := FRESH_SOCKET] && Last(states).requests == AR.Initial(0)
  {
    hide Inv, IsStep;
    var h0, h1 := Start(0), Step(codec, Start(0), StoreOp(Create(a)));
    StartInv(0);
    InvValid(h0);
    StepInv(codec, h0, StoreOp(Create(a)));
    InvValid(h1);
    var h2 := Step(codec, h1, StoreOp(Create(b)));
    StepInv(codec, h1, StoreOp(Create(b)));
    InvValid(h2);
    var h3 := Step(codec, h2, Connect(1));
    StepInv(codec, h2, Connect(1));
    InvValid(h3);
    var h4 := Step(codec, h3, Connect(2));
    StepInv(codec, h3, Connect(2));
    StepsOf(codec, h0, StoreOp(Create(a)));
    StepsOf(codec, h1, StoreOp(Create(b)));
    StepsOf(codec, h2, Connect(1));
    StepsOf(codec, h3, Connect(2));
    states := [h0, h1, h2, h3, h4];
    events := [StoreOp(Create(a)), StoreOp(Create(b)), Connect(1), Connect(2)];
  }

  lemma StepsOf(codec: Codec, h: Hub, e: Event)
    requires h.db.workspaces.Valid() && Enabled(h, e)
    ensures IsStep(codec, h, e, Step(codec, h, e))
  {
  }

  /** Adds a step to a run. */
  lemma Extend(codec: Codec, states: seq<Hub>, events: seq<Event>, e: Event, h': Hub)
    requires Execution(codec, 0, states, events) && states != [] && IsStep(codec, Last(states), e, h')
    ensures Execution(codec, 0, states + [h'], events + [e])
  {
    hide IsStep;
  }

  /** HTTP asks for a file of a registered, open agent. */
  lemma FileStep(codec: Codec, h: Hub, s: string, ws: SocketId, requestId: string) returns (h1: Hub)
    requires Inv(h) && Registered(h, s, "w", ws) && IsOpen(h, ws) && h.requests == AR.Initial(0)
    ensures IsStep(codec, h, HttpFile(s, Some("w"), "", requestId), h1) && Inv(h1)
    ensures h1.sockets == h.sockets && h1.appended == h.appended && h1.requests == AR.IssueStep(h.requests, requestId)
  {
    hide Inv, RequestStep;
    var e := HttpFile(s, Some("w"), "", requestId);
    InvValid(h);
    h1 := Step(codec, h, e);
    StepInv(codec, h, e);
    OpenRequest(h, s, ws, requestId);
  }

  lemma OpenRequest(h: Hub, s: string, ws: SocketId, requestId: string)
    requires Inv(h) && Registered(h, s, "w", ws) && IsOpen(h, ws)
    ensures var h1 := RequestStep(h, s, Some("w"), "", requestId);
            h1.sockets == h.sockets && h1.appended == h.appended && h1.requests == AR.IssueStep(h.requests, requestId)
  {
    hide Inv, ResolveTargetAgent, AR.IssueStep;
    ResolvedIsRegistered(h, s, "w", ws);
    assert Trim("w") == "w";
  }

  /** Some agent replies. */
  lemma ReplyStep(codec: Codec, h: Hub, ws: SocketId, requestId: string, reply: string) returns (h1: Hub)
    requires Inv(h) && Live(h, ws) && h.sockets[ws].claims.Some? && h.sockets[ws].claims.value.role == Agent
    requires h.appended == [] && h.requests == AR.IssueStep(AR.Initial(0), requestId)
    ensures IsStep(codec, h, Message(ws, Some(ReplyMsg(requestId, reply)), NO_IO), h1)
    ensures h1.sockets == h.sockets && h1.requests.pending == map[]
    ensures h1.requests.settled == [AR.Settlement(requestId, AR.Resolved(reply), 0)]
  {
    hide Inv;
    InvValid(h);
    h1 := Step(codec, h, Message(ws, Some(ReplyMsg(requestId, reply)), NO_IO));
    assert h.requests.pending - {requestId} == map[];
  }

  /** So HTTP may ask session `a` for a file and the agent of session `b` answer. */
  lemma OtherSessionSettles(codec: Codec, a: Session, b: Session, requestId: string, reply: string)
    returns (states: seq<Hub>, events: seq<Event>)
    requires a.id != b.id
    ensures Execution(codec, 0, states, events) && |states| >= 2 && |events| >= 2
    ensures events[|events| - 2] == HttpFile(a.id, Some("w"), "", requestId)
    ensures requestId in states[|states| - 2].requests.pending
    ensures Last(events) == Message(2, Some(ReplyMsg(requestId, reply)), NO_IO)
    ensures 2 in Last(states).sockets && Last(states).sockets[2].claims == Some(Claims(b.id, Agent))
    ensures Last(states).requests.pending == map[]
    ensures Last(states).requests.settled == [AR.Settlement(requestId, AR.Resolved(reply), 0)]
  {
    hide Inv, Execution, IsStep, Registered, Claiming;
    states, events := TwoSessions(codec, a, b);
    var h1 := AuthRun(codec, Last(states), 2, b.id);
    Extend(codec, states, events, Message(2, Some(AuthMsg(Claims(b.id, Agent))), NO_IO), h1);
    states, events := states + [h1], events + [Message(2, Some(AuthMsg(Claims(b.id, Agent))), NO_IO)];
    var h2 := AuthRun(codec, h1, 1, a.id);
    Extend(codec, states, events, Message(1, Some(AuthMsg(Claims(a.id, Agent))), NO_IO), h2);
    states, events := states + [h2], events + [Message(1, Some(AuthMsg(Claims(a.id, Agent))), NO_IO)];
    var h3 := HelloRun(codec, h2, 1, a.id);
    Extend(codec, states, events, Message(1, Some(HelloMsg("w")), NO_IO), h3);
    states, events := states + [h3], events + [Message(1, Some(HelloMsg("w")), NO_IO)];
    assert h3.sockets[2] == h1.sockets[2];
    var h4 := FileStep(codec, h3, a.id, 1, requestId);
    Extend(codec, states, events, HttpFile(a.id, Some("w"), "", requestId), h4);
    states, events := states + [h4], events + [HttpFile(a.id, Some("w"), "", requestId)];
    var h5 := ReplyStep(codec, h4, 2, requestId, reply);
    Extend(codec, states, events, Message(2, Some(ReplyMsg(requestId, reply)), NO_IO), h5);
    states, events := states + [h5], events + [Message(2, Some(ReplyMsg(requestId, reply)), NO_IO)];
  }
}
