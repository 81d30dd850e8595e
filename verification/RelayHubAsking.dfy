/** Whom a file request asks, and who settles it when agents reply to what they were asked
    (relay/src/server.ts). */
module RelayHubAsking {
  import opened Options
  import opened Sequences
  import opened OrderedMaps
  import opened Messages
  import opened Snapshots
  import opened StoreTables
  import opened RelayHubModel
  import opened RelayHubInvariants
  import opened RelayHubSteps
  import opened RelayHubRuns
  import opened RelayHubJoining
  import opened RelayHubReplies
  import AR = AgentRequests

  predicate Asks(frame: Frame, id: string) {
    frame.FileRequest? && frame.requestId == id
  }

  /** The sockets that were handed request `id`, in order. */
  function AskedFor(sent: seq<Delivery>, id: string): seq<SocketId> {
    if sent == [] then []
    else AskedFor(DropLast(sent), id) + if Asks(Last(sent).frame, id) then [Last(sent).to] else []
  }

  // ----- one send -----

  lemma SendAsks(h: Hub, to: SocketId, frame: Frame, id: string)
    ensures AskedFor(Send(h, to, frame).sent, id)
         == AskedFor(h.sent, id) + if Asks(frame, id) && IsOpen(h, to) then [to] else []
  {
    if IsOpen(h, to) {
      assert DropLast(h.sent + [Delivery(to, frame)]) == h.sent;
    }
  }

  lemma {:induction false} SendAllAsksNobody(h: Hub, to: seq<SocketId>, frame: Frame, id: string)
    requires !frame.FileRequest?
    ensures AskedFor(SendAll(h, to, frame).sent, id) == AskedFor(h.sent, id)
  {
    if to != [] {
      SendAllAsksNobody(h, DropLast(to), frame, id);
      SendAsks(SendAll(h, DropLast(to), frame), Last(to), frame, id);
    }
  }

  /** From `h` to `h'` nobody was asked for `id`, and it was not issued. */
  predicate Quietly(h: Hub, h': Hub, id: string) {
    AskedFor(h'.sent, id) == AskedFor(h.sent, id) && h'.requests.issued == h.requests.issued
  }

  lemma BroadcastAsksNobody(h: Hub, s: string, id: string)
    ensures Quietly(h, Broadcast(h, s), id)
  {
    if s in h.peers {
      SendAllAsksNobody(h, Recipients(h.peers[s]), StatusOf(h.peers[s]), id);
      SendAllFields(h, Recipients(h.peers[s]), StatusOf(h.peers[s]));
    }
  }

  lemma SendMobileAsksNobody(h: Hub, s: string, frame: Frame, id: string)
    requires !frame.FileRequest?
    ensures Quietly(h, SendMobile(h, s, frame), id)
  {
    if s in h.peers && h.peers[s].mobile.Some? {
      SendAsks(h, h.peers[s].mobile.value, frame, id);
    }
  }

  // ----- one step -----

  lemma AuthAsksNobody(h: Hub, ws: SocketId, claims: Claims, io: Io, id: string)
    requires h.db.workspaces.Valid() && ws in h.sockets
    ensures Quietly(h, AuthStep(h, ws, claims, io), id)
  {
    var p := PeersOf(h, claims.sessionId);
    var h1 := h.(sockets := h.sockets[ws := h.sockets[ws].(claims := Some(claims))],
                 peers := h.peers[claims.sessionId := if claims.role == Mobile then p.(mobile := Some(ws)) else p]);
    var frame := AuthOk(claims.role, claims.sessionId, ListConnectedWorkspaces(h1, claims.sessionId), io.listing);
    SendAsks(h1, ws, frame, id);
    BroadcastAsksNobody(Send(h1, ws, frame), claims.sessionId, id);
  }

  lemma RegisterAsksNobody(h: Hub, ws: SocketId, s: string, key: string, name: string, path: Option<string>, now: int,
                           id: string)
    requires ws in h.sockets
    ensures Quietly(h, RegisterStep(h, ws, s, key, name, path, now).0, id)
  {
    hide AskedFor;
    var h1 := HelloFields(h, ws, s, key, name, path);
    var stored := if name != "" then name else key;
    var h2 := h1.(db := UpsertWorkspaceDb(h1.db, s, Workspace(key, stored, path, now)));
    SendMobileAsksNobody(h2, s, WorkspaceConnected(key, stored), id);
    BroadcastAsksNobody(SendMobile(h2, s, WorkspaceConnected(key, stored)), s, id);
  }

  lemma ForwardAsksNobody(h: Hub, ws: SocketId, claims: Claims, msg: Msg, io: Io, id: string)
    requires ws in h.sockets
    ensures Quietly(h, ForwardStep(h, ws, claims, msg, io), id)
  {
    hide AskedFor, AppendDb, BodyOf;
    var s := claims.sessionId;
    if s in h.db.sessions {
      var env := Envelope(io.uuid, s, claims.role, io.now, BodyOf(h.sockets[ws], claims.role, msg));
      var h1 := h.(db := AppendDb(h.db, env), appended := h.appended + [env]);
      SendMobileAsksNobody(h1, s, Relayed(env), id);
      var target := ResolveTargetAgent(h1, s, TargetWorkspace(h.sockets[ws], claims.role, msg));
      if target.Some? {
        SendAsks(h1, target.value, Relayed(env), id);
      }
    }
  }

  lemma LaterFrameAsksNobody(codec: Codec, h: Hub, ws: SocketId, claims: Claims, msg: Msg, io: Io, id: string)
    requires ws in h.sockets
    ensures Quietly(h, LaterFrame(codec, h, ws, claims, msg, io).0, id)
  {
    hide AskedFor, RegisterStep, ForwardStep;
    var s := claims.sessionId;
    var name := msg.workspaceName.GetOr(msg.workspaceId.GetOr(""));
    RegisterAsksNobody(h, ws, s, HelloId(msg), name, msg.workspacePath, io.now, id);
    ForwardAsksNobody(h, ws, claims, msg, io, id);
    ForwardAsksNobody(SnapshotStep(codec, h, ws, s, msg, io.now).0, ws, claims, msg, io, id);
  }

  lemma CloseAsksNobody(h: Hub, ws: SocketId, id: string)
    requires ws in h.sockets
    ensures Quietly(h, OnClose(h, ws), id)
  {
    hide AskedFor;
    var h0, socket := SetReady(h, ws, Closed), h.sockets[ws];
    if socket.claims.Some? && socket.claims.value.sessionId in h.peers {
      var s := socket.claims.value.sessionId;
      var p := h.peers[s];
      if socket.claims.value.role == Mobile {
        BroadcastAsksNobody(h0.(peers := h.peers[s := if p.mobile == Some(ws) then p.(mobile := None) else p]), s, id);
      } else if socket.workspaceId.Some? {
        var h1 := h0.(peers := h.peers[s := WithoutAgent(p, socket.workspaceId.value)]);
        SendMobileAsksNobody(h1, s, WorkspaceDisconnected(socket.workspaceId.value), id);
        BroadcastAsksNobody(SendMobile(h1, s, WorkspaceDisconnected(socket.workspaceId.value)), s, id);
      } else {
        BroadcastAsksNobody(h0, s, id);
      }
    }
  }

  /** The open agent that HTTP asks with request `id`, if the event does. */
  function AskedBy(h: Hub, e: Event, id: string): Option<SocketId> {
    if e.HttpFile? && e.requestId == id then
      var target := ResolveTargetAgent(h, e.sessionId, e.workspaceId);
      if target.Some? && IsOpen(h, target.value) then target else None
    else None
  }

  /** One event asks at most one socket, and exactly when it issues the request. */
  lemma StepAsks(codec: Codec, h: Hub, e: Event, id: string)
    requires h.db.workspaces.Valid() && Enabled(h, e)
    ensures var h', asked := Step(codec, h, e), AskedBy(h, e, id);
            && AskedFor(h'.sent, id) == AskedFor(h.sent, id) + (if asked.Some? then [asked.value] else [])
            && (id in h'.requests.issued <==> id in h.requests.issued || asked.Some?)
            && (asked.Some? ==> id !in h.requests.issued)
  {
    hide AskedFor, AuthStep, LaterFrame, OnClose, Apply, ResolveTargetAgent;
    match e
    case Message(ws, raw, io) =>
      if raw.Some? && h.sockets[ws].claims.Some? {
        LaterFrameAsksNobody(codec, h, ws, h.sockets[ws].claims.value, raw.value, io, id);
      } else if raw.Some? && raw.value.verified.Some? {
        AuthAsksNobody(h, ws, raw.value.verified.value, io, id);
      }
    case CloseEvent(ws) => CloseAsksNobody(h, ws, id);
    case HttpFile(s, workspaceId, path, requestId) =>
      var target := ResolveTargetAgent(h, s, workspaceId);
      if target.Some? {
        var frame := FileRequest(requestId, path, if workspaceId == Some("") then None else workspaceId);
        SendAsks(h.(requests := AR.IssueStep(h.requests, requestId)), target.value, frame, id);
      }
    case _ =>
  }

  // ----- whole runs -----

  /** Event `j` is the HTTP request that asked `ws`, an agent of its session, for `id`. */
  ghost predicate AskedAt(states: seq<Hub>, events: seq<Event>, j: int, id: string, ws: SocketId) {
    && 0 <= j < |events| && j < |states|
    && AskedBy(states[j], events[j], id) == Some(ws)
    && ws in states[j].sockets && states[j].sockets[ws].claims == Some(Claims(events[j].sessionId, Agent))
  }

  /** In every reachable state a request that was issued was handed to exactly one socket, once: an agent
      of the session HTTP asked; and any other id to nobody. */
  lemma {:induction false} IssuedAsksOne(codec: Codec, clock: int, states: seq<Hub>, events: seq<Event>, n: nat,
                                         id: string)
    returns (j: int, ws: SocketId)
    requires Execution(codec, clock, states, events) && n <= |events|
    ensures id !in states[n].requests.issued ==> AskedFor(states[n].sent, id) == []
    ensures id in states[n].requests.issued ==>
              AskedFor(states[n].sent, id) == [ws] && j < n && AskedAt(states, events, j, id, ws)
  {
    hide Inv, Step, Enabled;
    j, ws := 0, 0;
    if n > 0 {
      var h, e := states[n - 1], events[n - 1];
      j, ws := IssuedAsksOne(codec, clock, states, events, n - 1, id);
      assert IsStep(codec, h, e, states[n]);
      StepAsks(codec, h, e, id);
      if AskedBy(h, e, id).Some? {
        j, ws := n - 1, AskedBy(h, e, id).value;
        ReachableInv(codec, clock, states, events, n - 1);
        ResolvedClaims(h, e.sessionId, e.workspaceId);
      }
    }
  }

  lemma ResolvedClaims(h: Hub, s: string, requested: Option<string>)
    requires Inv(h)
    ensures var target := ResolveTargetAgent(h, s, requested);
            target.Some? ==> target.value in h.sockets && h.sockets[target.value].claims == Some(Claims(s, Agent))
  {
    hide PeersInv, ResolveTargetAgent;
    if ResolveTargetAgent(h, s, requested).Some? {
      ResolvedIsAgent(h, s, requested);
    }
  }

  /** Event `i` is a reply of an agent to request `id`. */
  ghost predicate RepliesTo(states: seq<Hub>, events: seq<Event>, i: nat, id: string)
    requires i < |events| && i < |states|
  {
    && events[i].Message? && events[i].raw.Some? && IsReply(events[i].raw.value)
    && events[i].raw.value.requestId == Some(id)
    && events[i].ws in states[i].sockets && states[i].sockets[events[i].ws].claims.Some?
    && states[i].sockets[events[i].ws].claims.value.role == Agent
  }

  /** Agents reply only to what they were asked. */
  ghost predicate OwnReplies(states: seq<Hub>, events: seq<Event>)
    requires |states| == |events| + 1
  {
    forall i, id :: 0 <= i < |events| && RepliesTo(states, events, i, id) ==>
      events[i].ws in AskedFor(states[i].sent, id)
  }

  /** Then every reply that settles a request comes from the one socket that was asked, an agent of the
      session HTTP asked; and a reply to a request that is still pending does settle it. */
  lemma OwnRepliesSettle(codec: Codec, clock: int, states: seq<Hub>, events: seq<Event>, i: nat, id: string)
    returns (j: int)
    requires Execution(codec, clock, states, events) && OwnReplies(states, events)
    requires i < |events| && RepliesTo(states, events, i, id)
    ensures j < i && AskedAt(states, events, j, id, events[i].ws)
    ensures AskedFor(states[i].sent, id) == [events[i].ws]
    ensures states[i + 1].requests.settled
         == states[i].requests.settled
            + if id in states[i].requests.pending
              then [AR.Settlement(id, AR.Resolved(events[i].raw.value.reply), states[i].requests.clock)] else []
  {
    hide Inv, AskedFor, AskedAt, LaterFrame;
    var ws;
    j, ws := IssuedAsksOne(codec, clock, states, events, i, id);
    ReachableInv(codec, clock, states, events, i);
    var e := events[i];
    assert IsStep(codec, states[i], e, states[i + 1]);
    ReplySettlesIff(codec, states[i], e.ws, e.raw.value, e.io);
  }
}
