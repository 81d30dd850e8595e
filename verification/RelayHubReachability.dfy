/** Which agents a mobile can reach: every agent that is live and said hello, as long as no two live
    sockets of a session hold the same workspace id; and what happens when two do. */
module RelayHubReachability {
  import opened Options
  import opened Sequences
  import opened OrderedMaps
  import opened Texts
  import opened Messages
  import opened HistoryLog
  import opened Snapshots
  import opened StoreTables
  import opened RelayHubModel
  import opened RelayHubInvariants
  import opened RelayHubSteps
  import opened RelayHubRuns
  import AR = AgentRequests

  /** `ws` is a live agent of session `s` whose latest hello named `k`. */
  predicate Claiming(h: Hub, s: string, k: string, ws: SocketId) {
    Live(h, ws) && h.sockets[ws].claims == Some(Claims(s, Agent)) && h.sockets[ws].workspaceId == Some(k)
  }

  /** No two live sockets of a session hold the same workspace id. */
  ghost predicate NoCollision(h: Hub) {
    forall s, k, v, w :: Claiming(h, s, k, v) && Claiming(h, s, k, w) ==> v == w
  }

  predicate Registered(h: Hub, s: string, k: string, ws: SocketId) {
    s in h.peers && h.peers[s].agents.Get(k) == Some(ws)
  }

  /** Every live agent that said hello is registered under its id. */
  ghost predicate AllRegistered(h: Hub) {
    forall s, k, ws :: Claiming(h, s, k, ws) ==> Registered(h, s, k, ws)
  }

  lemma RegisteredIsClaiming(h: Hub, s: string, k: string, ws: SocketId)
    requires PeersInv(h) && Registered(h, s, k, ws)
    ensures Claiming(h, s, k, ws)
  {
    assert AgentUnder(h.sockets, s, k, h.peers[s].agents.at[k]);
  }

  // ----- what each handler does to sockets and peers -----

  lemma RegisterFields(h: Hub, ws: SocketId, s: string, id: string, name: string, path: Option<string>, now: int)
    requires ws in h.sockets
    ensures var h1, h' := HelloFields(h, ws, s, id, name, path), RegisterStep(h, ws, s, id, name, path, now).0;
            h'.sockets == h1.sockets && h'.peers == h1.peers && h'.hellos == h1.hellos && h'.appended == h1.appended
            && h'.requests == h.requests
  {
    var h1 := HelloFields(h, ws, s, id, name, path);
    var stored := if name != "" then name else id;
    var h2 := h1.(db := UpsertWorkspaceDb(h1.db, s, Workspace(id, stored, path, now)));
    var h3 := SendMobile(h2, s, WorkspaceConnected(id, stored));
    if s in h3.peers {
      SendAllFields(h3, Recipients(h3.peers[s]), StatusOf(h3.peers[s]));
    }
  }

  lemma AuthFields(h: Hub, ws: SocketId, claims: Claims, io: Io)
    requires ws in h.sockets && h.db.workspaces.Valid()
    ensures var h' := AuthStep(h, ws, claims, io);
            var p := PeersOf(h, claims.sessionId);
            && h'.sockets == h.sockets[ws := h.sockets[ws].(claims := Some(claims))]
            && h'.peers == h.peers[claims.sessionId := if claims.role == Mobile then p.(mobile := Some(ws)) else p]
            && h'.db == h.db && h'.appended == h.appended && h'.requests == h.requests
  {
    var s := claims.sessionId;
    var p := PeersOf(h, s);
    var h1 := h.(sockets := h.sockets[ws := h.sockets[ws].(claims := Some(claims))],
                 peers := h.peers[s := if claims.role == Mobile then p.(mobile := Some(ws)) else p]);
    var h2 := Send(h1, ws, AuthOk(claims.role, s, ListConnectedWorkspaces(h1, s), io.listing));
    SendAllFields(h2, Recipients(h2.peers[s]), StatusOf(h2.peers[s]));
  }

  lemma ForwardFields(h: Hub, ws: SocketId, claims: Claims, msg: Msg, io: Io)
    requires ws in h.sockets
    ensures var h' := ForwardStep(h, ws, claims, msg, io);
            h'.peers == h.peers && (h'.sockets == h.sockets || h'.sockets == BeginClose(h, ws).sockets)
  {
  }

  lemma CloseFields(h: Hub, ws: SocketId)
    requires ws in h.sockets
    ensures OnClose(h, ws).sockets == SetReady(h, ws, Closed).sockets
    ensures h.sockets[ws].claims.None? || SessionOf(h, ws) !in h.peers ==> OnClose(h, ws).peers == h.peers
    ensures h.sockets[ws].claims.Some? && SessionOf(h, ws) in h.peers ==>
              var s := SessionOf(h, ws);
              var p := PeersAfterClose(h, ws, s);
              OnClose(h, ws).peers == if p.mobile.None? && p.agents.order == [] then h.peers - {s} else h.peers[s := p]
  {
    hide Filter;
    if h.sockets[ws].claims.Some? && SessionOf(h, ws) in h.peers {
      var s, socket := SessionOf(h, ws), h.sockets[ws];
      var p := PeersAfterClose(h, ws, s);
      var h1 := SetReady(h, ws, Closed).(peers := h.peers[s := p]);
      assert h1.peers - {s} == h.peers - {s};
      assert p == h.peers[s] ==> h1.peers == h.peers;
      var h2 := if socket.claims.value.role == Agent && socket.workspaceId.Some?
                then SendMobile(h1, s, WorkspaceDisconnected(socket.workspaceId.value)) else h1;
      SendAllFields(h2, Recipients(h2.peers[s]), StatusOf(h2.peers[s]));
    }
  }

  // ----- steps without collisions -----

  lemma SameClaims(h: Hub, h': Hub)
    requires AllRegistered(h) && h'.peers == h.peers
    requires forall s, k, ws :: Claiming(h', s, k, ws) ==> Claiming(h, s, k, ws)
    ensures AllRegistered(h')
  {
    forall s, k, ws | Claiming(h', s, k, ws) ensures Registered(h', s, k, ws) {
      assert Claiming(h, s, k, ws);
    }
  }

  lemma BeginCloseRegistered(h: Hub, h': Hub, ws: SocketId)
    requires AllRegistered(h) && ws in h.sockets
    requires h'.peers == h.peers && (h'.sockets == h.sockets || h'.sockets == BeginClose(h, ws).sockets)
    ensures AllRegistered(h')
  {
    SameClaims(h, h');
  }

  lemma AuthRegistered(h: Hub, ws: SocketId, claims: Claims, io: Io)
    requires Inv(h) && AllRegistered(h) && Live(h, ws) && h.sockets[ws].claims.None?
    ensures AllRegistered(AuthStep(h, ws, claims, io))
  {
    var h' := AuthStep(h, ws, claims, io);
    AuthFields(h, ws, claims, io);
    forall s, k, w | Claiming(h', s, k, w) ensures Registered(h', s, k, w) {
      assert Claiming(h, s, k, w);
      assert Registered(h, s, k, w);
    }
  }

  /** What a hello does to one key of its session: it takes its own, leaves its old one, touches no other. */
  lemma RekeyedAt(agents: OMap<string, SocketId>, was: Option<string>, id: string, ws: SocketId, k: string)
    ensures Rekeyed(agents, was, id, ws).Get(k)
         == if k == id then Some(ws) else if was == Some(k) then None else agents.Get(k)
  {
  }

  lemma HelloRegistered(h: Hub, ws: SocketId, s: string, id: string, name: string, path: Option<string>, now: int)
    requires Inv(h) && AllRegistered(h) && Live(h, ws) && h.sockets[ws].claims == Some(Claims(s, Agent))
    requires NoCollision(h) && NoCollision(RegisterStep(h, ws, s, id, name, path, now).0)
    ensures AllRegistered(RegisterStep(h, ws, s, id, name, path, now).0)
  {
    hide Inv, Rekeyed, RegisterStep;
    var h' := RegisterStep(h, ws, s, id, name, path, now).0;
    RegisterFields(h, ws, s, id, name, path, now);
    assert Claiming(h', s, id, ws);
    forall o, k, w | Claiming(h', o, k, w) ensures Registered(h', o, k, w) {
      if o == s {
        RekeyedAt(PeersOf(h, s).agents, h.sockets[ws].workspaceId, id, ws, k);
        if w != ws {
          assert Claiming(h, s, k, w) && Registered(h, s, k, w);
          assert h.sockets[ws].workspaceId == Some(k) ==> Claiming(h, s, k, ws);
        }
      } else {
        assert Claiming(h, o, k, w) && Registered(h, o, k, w);
      }
    }
  }

  lemma CloseRegistered(h: Hub, ws: SocketId)
    requires Inv(h) && AllRegistered(h) && NoCollision(h) && Live(h, ws)
    ensures AllRegistered(OnClose(h, ws))
  {
    hide Filter, OnClose, LastHello, Sound, LogInv, AR.Inv;
    var h' := OnClose(h, ws);
    CloseFields(h, ws);
    forall o, k, w | Claiming(h', o, k, w) ensures Registered(h', o, k, w) {
      assert Claiming(h, o, k, w) && Registered(h, o, k, w);
      if h.sockets[ws].claims.Some? && o == SessionOf(h, ws) {
        assert h.sockets[ws].claims == Some(Claims(o, Agent)) && h.sockets[ws].workspaceId == Some(k) ==>
            Claiming(h, o, k, ws);
        PeersAfterCloseOk(h, ws, o);
        assert k in PeersAfterClose(h, ws, o).agents.at;
        assert k in PeersAfterClose(h, ws, o).agents.order;
      }
    }
  }

  lemma LaterFrameRegistered(codec: Codec, h: Hub, ws: SocketId, claims: Claims, msg: Msg, io: Io)
    requires Inv(h) && AllRegistered(h) && NoCollision(h) && Live(h, ws) && h.sockets[ws].claims == Some(claims)
    requires NoCollision(LaterFrame(codec, h, ws, claims, msg, io).0)
    ensures AllRegistered(LaterFrame(codec, h, ws, claims, msg, io).0)
  {
    hide Inv, AllRegistered, NoCollision, RegisterStep, ForwardStep;
    var s := claims.sessionId;
    var h' := LaterFrame(codec, h, ws, claims, msg, io).0;
    var (h1, outcome) := SnapshotStep(codec, h, ws, s, msg, io.now);
    if claims.role == Agent && msg.kind == Some("agent_hello") {
      if HelloId(msg) != "" {
        var name := msg.workspaceName.GetOr(msg.workspaceId.GetOr(""));
        HelloRegistered(h, ws, s, HelloId(msg), name, msg.workspacePath, io.now);
      }
    } else {
      ForwardFields(h, ws, claims, msg, io);
      ForwardFields(h1, ws, claims, msg, io);
      assert BeginClose(h1, ws).sockets == BeginClose(h, ws).sockets;
      BeginCloseRegistered(h, h', ws);
    }
  }

  lemma StepRegistered(codec: Codec, h: Hub, e: Event)
    requires Inv(h) && Enabled(h, e) && AllRegistered(h)
    requires NoCollision(h) && NoCollision(Step(codec, h, e))
    ensures AllRegistered(Step(codec, h, e))
  {
    hide PeersInv, SentInv, LogInv, AR.Inv, AllRegistered, NoCollision, AuthStep, LaterFrame, OnClose, Apply;
    match e
    case Connect(ws) => ConnectRegistered(h, ws);
    case PeerCloses(ws) => BeginCloseRegistered(h, BeginClose(h, ws), ws);
    case Message(ws, raw, io) =>
      if raw.None? || (h.sockets[ws].claims.None?
                       && (raw.value.verified.None? || raw.value.verified.value.sessionId !in h.db.sessions)) {
        BeginCloseRegistered(h, BeginClose(h, ws), ws);
      } else if h.sockets[ws].claims.None? {
        AuthRegistered(h, ws, raw.value.verified.value, io);
      } else {
        LaterFrameRegistered(codec, h, ws, h.sockets[ws].claims.value, raw.value, io);
      }
    case CloseEvent(ws) => CloseRegistered(h, ws);
    case HttpFile(s, workspaceId, path, requestId) =>
      UntouchedRegistered(h, RequestStep(h, s, workspaceId, path, requestId));
    case RequestTimer(t) => UntouchedRegistered(h, Step(codec, h, e));
    case Wait(to) => UntouchedRegistered(h, Step(codec, h, e));
    case StoreOp(op) => UntouchedRegistered(h, Step(codec, h, e));
  }

  lemma UntouchedRegistered(h: Hub, h': Hub)
    requires AllRegistered(h) && h'.peers == h.peers && h'.sockets == h.sockets
    ensures AllRegistered(h')
  {
    SameClaims(h, h');
  }

  lemma ConnectRegistered(h: Hub, ws: SocketId)
    requires AllRegistered(h) && ws !in h.sockets
    ensures AllRegistered(h.(sockets := h.sockets[ws := FRESH_SOCKET]))
  {
    SameClaims(h, h.(sockets := h.sockets[ws := FRESH_SOCKET]));
  }

  lemma {:induction false} AllRegisteredInRun(codec: Codec, clock: int, states: seq<Hub>, events: seq<Event>, i: nat)
    requires Execution(codec, clock, states, events) && i < |states|
    requires forall j :: 0 <= j <= i ==> NoCollision(states[j])
    ensures AllRegistered(states[i])
  {
    hide NoCollision, Inv, Step, Enabled;
    if i == 0 {
      NoneClaiming(clock);
    } else {
      AllRegisteredInRun(codec, clock, states, events, i - 1);
      ReachableInv(codec, clock, states, events, i - 1);
      assert IsStep(codec, states[i - 1], events[i - 1], states[i]);
      StepRegistered(codec, states[i - 1], events[i - 1]);
    }
  }

  lemma NoneClaiming(clock: int)
    ensures AllRegistered(Start(clock))
  {
  }

  lemma RegisteredIffClaiming(h: Hub)
    requires Inv(h) && AllRegistered(h)
    ensures forall s, k, ws :: Registered(h, s, k, ws) <==> Claiming(h, s, k, ws)
  {
    hide Inv, Registered, Claiming, AllRegistered;
    forall s, k, ws ensures Registered(h, s, k, ws) <==> Claiming(h, s, k, ws) {
      RegisteredClaims(h, s, k, ws);
    }
  }

  lemma RegisteredClaims(h: Hub, s: string, k: string, ws: SocketId)
    requires Inv(h) && AllRegistered(h)
    ensures Registered(h, s, k, ws) <==> Claiming(h, s, k, ws)
  {
    if Registered(h, s, k, ws) {
      RegisteredIsClaiming(h, s, k, ws);
    }
  }

  lemma ResolvedIsRegistered(h: Hub, s: string, requested: string, ws: SocketId)
    requires Trim(requested) != ""
    ensures ResolveTargetAgent(h, s, Some(requested)) == Some(ws) <==> Registered(h, s, Trim(requested), ws)
  {
    hide Trim;
  }

  /** Two live sockets under one id cannot both be registered. */
  lemma RegisteredNoCollision(h: Hub)
    requires AllRegistered(h)
    ensures NoCollision(h)
  {
    forall s, k, v, w | Claiming(h, s, k, v) && Claiming(h, s, k, w) ensures v == w {
      assert Registered(h, s, k, v) && Registered(h, s, k, w);
    }
  }

  /** Throughout a run every live agent that said hello is registered under its id exactly when throughout
      the run no two live sockets of a session go by one id. */
  lemma AllReachableIff(codec: Codec, clock: int, states: seq<Hub>, events: seq<Event>, i: nat)
    requires Execution(codec, clock, states, events) && i < |states|
    ensures (forall j :: 0 <= j <= i ==> AllRegistered(states[j]))
       <==> (forall j :: 0 <= j <= i ==> NoCollision(states[j]))
  {
    hide Execution, AllRegistered, NoCollision;
    if forall j :: 0 <= j <= i ==> NoCollision(states[j]) {
      forall j | 0 <= j <= i ensures AllRegistered(states[j]) {
        AllRegisteredInRun(codec, clock, states, events, j);
      }
    }
    if forall j :: 0 <= j <= i ==> AllRegistered(states[j]) {
      forall j | 0 <= j <= i ensures NoCollision(states[j]) {
        RegisteredNoCollision(states[j]);
      }
    }
  }

  /** In a run without collisions the registered agents are exactly the live ones that said hello:
      a mobile frame with explicit id reaches the live agent whose latest hello named it, or nobody. */
  lemma LiveAgentsReachable(codec: Codec, clock: int, states: seq<Hub>, events: seq<Event>, i: nat)
    requires Execution(codec, clock, states, events) && i < |states|
    requires forall j :: 0 <= j <= i ==> NoCollision(states[j])
    ensures forall s, k, ws :: Registered(states[i], s, k, ws) <==> Claiming(states[i], s, k, ws)
    ensures forall s: string, requested: string, ws: SocketId
              {:trigger Claiming(states[i], s, Trim(requested), ws)} ::
              Trim(requested) != "" ==>
                (ResolveTargetAgent(states[i], s, Some(requested)) == Some(ws) <==>
                   Claiming(states[i], s, Trim(requested), ws))
  {
    hide Inv, AllRegistered, Registered, Claiming, ResolveTargetAgent, Trim, Execution;
    ReachableInv(codec, clock, states, events, i);
    AllRegisteredInRun(codec, clock, states, events, i);
    var h := states[i];
    RegisteredIffClaiming(h);
    forall s: string, requested: string, ws: SocketId | Trim(requested) != ""
      ensures ResolveTargetAgent(h, s, Some(requested)) == Some(ws) <==> Claiming(h, s, Trim(requested), ws)
    {
      ResolvedIsRegistered(h, s, requested, ws);
    }
  }

  // ----- with collisions -----

  /** A close unregisters nobody else exactly when the entry under its id is its own or missing. */
  lemma CloseKeepsOthersIff(h: Hub, ws: SocketId, s: string, k: string)
    requires Inv(h) && Claiming(h, s, k, ws) && s in h.peers
    ensures (forall o, id, w :: w != ws && Registered(h, o, id, w) ==> Registered(OnClose(h, ws), o, id, w))
       <==> h.peers[s].agents.Get(k) == None || h.peers[s].agents.Get(k) == Some(ws)
  {
    assert ws in h.sockets;
    hide Inv, OnClose, Registered, Claiming;
    if h.peers[s].agents.Get(k) == None || h.peers[s].agents.Get(k) == Some(ws) {
      forall o, id, w | w != ws && Registered(h, o, id, w) ensures Registered(OnClose(h, ws), o, id, w) {
        CloseKeeps(h, ws, s, k, o, id, w);
      }
    } else {
      CloseLoses(h, ws, s, k);
    }
  }

  lemma CloseKeeps(h: Hub, ws: SocketId, s: string, k: string, o: string, id: string, w: SocketId)
    requires Inv(h) && Claiming(h, s, k, ws) && s in h.peers
    requires h.peers[s].agents.Get(k) == None || h.peers[s].agents.Get(k) == Some(ws)
    requires w != ws && Registered(h, o, id, w)
    ensures Registered(OnClose(h, ws), o, id, w)
  {
    hide Filter, OnClose, LastHello, Sound, LogInv, AR.Inv;
    CloseFields(h, ws);
    if o == s {
      var p := PeersAfterClose(h, ws, s);
      PeersAfterCloseOk(h, ws, s);
      assert id in p.agents.at && id in p.agents.order;
    }
  }

  lemma CloseLoses(h: Hub, ws: SocketId, s: string, k: string)
    requires Inv(h) && Claiming(h, s, k, ws) && s in h.peers && h.peers[s].agents.Get(k).Some?
    ensures var w := h.peers[s].agents.at[k];
            Registered(h, s, k, w) && !Registered(OnClose(h, ws), s, k, w)
  {
    hide Filter, OnClose, LastHello, Sound, LogInv, AR.Inv, AgentsOk;
    CloseFields(h, ws);
    assert k !in PeersAfterClose(h, ws, s).agents.at;
  }

  /** A hello unregisters nobody under another id exactly when the entry under the id it leaves is
      its own or missing. */
  lemma RenameKeepsOthersIff(h: Hub, ws: SocketId, s: string, was: string, id: string, name: string,
                             path: Option<string>, now: int)
    requires Inv(h) && Claiming(h, s, was, ws) && s in h.peers && id != was
    ensures (forall o, k, w :: w != ws && (o != s || k != id) && Registered(h, o, k, w)
              ==> Registered(RegisterStep(h, ws, s, id, name, path, now).0, o, k, w))
       <==> h.peers[s].agents.Get(was) == None || h.peers[s].agents.Get(was) == Some(ws)
  {
    hide RegisterStep, Inv, Rekeyed;
    var h' := RegisterStep(h, ws, s, id, name, path, now).0;
    RegisterFields(h, ws, s, id, name, path, now);
    var agents := h.peers[s].agents;
    RekeyedAt(agents, Some(was), id, ws, was);
    if agents.Get(was) == None || agents.Get(was) == Some(ws) {
      forall o, k, w | w != ws && (o != s || k != id) && Registered(h, o, k, w) ensures Registered(h', o, k, w) {
        RekeyedAt(agents, Some(was), id, ws, k);
      }
    } else {
      assert Registered(h, s, was, agents.at[was]) && !Registered(h', s, was, agents.at[was]);
    }
  }

  /** A hello displaces the socket under the id it takes exactly when that entry is another socket's. */
  lemma HelloDisplacesIff(h: Hub, ws: SocketId, s: string, id: string, name: string, path: Option<string>, now: int)
    requires Inv(h) && Live(h, ws) && h.sockets[ws].claims == Some(Claims(s, Agent))
    ensures (exists w ::
               && w != ws && Registered(h, s, id, w)
               && !Registered(RegisterStep(h, ws, s, id, name, path, now).0, s, id, w))
       <==> s in h.peers && h.peers[s].agents.Get(id) != None && h.peers[s].agents.Get(id) != Some(ws)
  {
    hide RegisterStep, Inv, Rekeyed;
    var h' := RegisterStep(h, ws, s, id, name, path, now).0;
    RegisterFields(h, ws, s, id, name, path, now);
    RekeyedAt(PeersOf(h, s).agents, h.sockets[ws].workspaceId, id, ws, id);
    if s in h.peers && h.peers[s].agents.Get(id) != None && h.peers[s].agents.Get(id) != Some(ws) {
      var w := h.peers[s].agents.at[id];
      assert Registered(h, s, id, w) && !Registered(h', s, id, w);
    }
  }

  /** An id is free for a socket when its entry is missing or the socket's own. */
  predicate FreeFor(h: Hub, s: string, k: string, ws: SocketId) {
    s in h.peers ==> h.peers[s].agents.Get(k) == None || h.peers[s].agents.Get(k) == Some(ws)
  }

  /** Taken together: a hello unregisters no other socket at all exactly when the id it takes and the id it
      leaves are free for it. */
  lemma HelloKeepsOthersIff(h: Hub, ws: SocketId, s: string, id: string, name: string, path: Option<string>, now: int)
    requires Inv(h) && Live(h, ws) && h.sockets[ws].claims == Some(Claims(s, Agent))
    ensures (forall o, k, w :: w != ws && Registered(h, o, k, w) ==>
               Registered(RegisterStep(h, ws, s, id, name, path, now).0, o, k, w))
       <==> && FreeFor(h, s, id, ws)
            && (h.sockets[ws].workspaceId.Some? ==> FreeFor(h, s, h.sockets[ws].workspaceId.value, ws))
  {
    hide RegisterStep, Inv, Rekeyed;
    var h' := RegisterStep(h, ws, s, id, name, path, now).0;
    var was, agents := h.sockets[ws].workspaceId, PeersOf(h, s).agents;
    RegisterFields(h, ws, s, id, name, path, now);
    RekeyedAt(agents, was, id, ws, id);
    if was.Some? {
      RekeyedAt(agents, was, id, ws, was.value);
    }
    if !FreeFor(h, s, id, ws) {
      assert Registered(h, s, id, agents.at[id]) && !Registered(h', s, id, agents.at[id]);
    } else if was.Some? && !FreeFor(h, s, was.value, ws) {
      assert Registered(h, s, was.value, agents.at[was.value]) && !Registered(h', s, was.value, agents.at[was.value]);
    } else {
      forall o, k, w | w != ws && Registered(h, o, k, w) ensures Registered(h', o, k, w) {
        RekeyedAt(agents, was, id, ws, k);
      }
    }
  }

  // ----- a run with a collision -----

  function AuthMsg(claims: Claims): Msg {
    Msg(Some("auth"), Some(claims), None, None, None, None, None, None, None, None, NO_PAYLOAD, "")
  }

  function HelloMsg(id: string): Msg {
    Msg(Some("agent_hello"), None, Some(id), None, None, None, None, None, None, None, NO_PAYLOAD, "")
  }

  const NO_PAYLOAD := Payload(None, None, None, None, None, None)

  const NO_IO := Io(0, "", [])

  /** Nothing was ever appended, and the session exists. */
  predicate Quiet(h: Hub, s: string) {
    s in h.db.sessions && h.appended == [] && h.db.history == []
  }

  predicate OthersKept(h: Hub, h': Hub, ws: SocketId) {
    h'.sockets.Keys == h.sockets.Keys && forall w :: w in h.sockets && w != ws ==> h'.sockets[w] == h.sockets[w]
  }

  /** An agent authenticates on a socket that just connected. */
  lemma AuthRun(codec: Codec, h: Hub, ws: SocketId, s: string) returns (h1: Hub)
    requires Inv(h) && Quiet(h, s) && ws in h.sockets && h.sockets[ws] == FRESH_SOCKET
    ensures IsStep(codec, h, Message(ws, Some(AuthMsg(Claims(s, Agent))), NO_IO), h1)
    ensures Inv(h1) && Quiet(h1, s) && OthersKept(h, h1, ws)
    ensures ws in h1.sockets && h1.sockets[ws] == FRESH_SOCKET.(claims := Some(Claims(s, Agent)))
    ensures h1.requests == h.requests && h1.db == h.db
  {
    hide Inv, AuthStep;
    var auth := AuthMsg(Claims(s, Agent));
    assert Inv(h) ==> h.db.workspaces.Valid() by { InvValid(h); }
    assert IsListing(h.db, s, []);
    h1 := Step(codec, h, Message(ws, Some(auth), NO_IO));
    AuthFields(h, ws, Claims(s, Agent), NO_IO);
    StepInv(codec, h, Message(ws, Some(auth), NO_IO));
  }

  lemma InvValid(h: Hub)
    ensures Inv(h) ==> h.db.workspaces.Valid()
  {
  }

  /** It says hello for "w". */
  lemma HelloRun(codec: Codec, h: Hub, ws: SocketId, s: string) returns (h1: Hub)
    requires Inv(h) && Quiet(h, s)
    requires ws in h.sockets && h.sockets[ws] == FRESH_SOCKET.(claims := Some(Claims(s, Agent)))
    ensures IsStep(codec, h, Message(ws, Some(HelloMsg("w")), NO_IO), h1)
    ensures Inv(h1) && Quiet(h1, s) && OthersKept(h, h1, ws)
    ensures Claiming(h1, s, "w", ws) && Registered(h1, s, "w", ws)
    ensures h1.sockets[ws].ready == Open && h1.requests == h.requests && h1.db.sessions == h.db.sessions
  {
    hide Inv, RegisterStep, Rekeyed;
    var hello := HelloMsg("w");
    assert Inv(h) ==> h.db.workspaces.Valid() by { InvValid(h); }
    h1 := Step(codec, h, Message(ws, Some(hello), NO_IO));
    StepInv(codec, h, Message(ws, Some(hello), NO_IO));
    assert HelloId(hello) == "w";
    assert h1 == RegisterStep(h, ws, s, "w", "w", None, 0).0;
    RegisterFields(h, ws, s, "w", "w", None, 0);
    RegisterDb(h, ws, s, "w", "w", None, 0);
    RekeyedAt(PeersOf(h, s).agents, h.sockets[ws].workspaceId, "w", ws, "w");
  }

  lemma RegisterDb(h: Hub, ws: SocketId, s: string, id: string, name: string, path: Option<string>, now: int)
    requires ws in h.sockets && s in h.db.sessions
    ensures RegisterStep(h, ws, s, id, name, path, now).0.db
         == UpsertWorkspaceDb(h.db, s, Workspace(id, if name != "" then name else id, path, now))
  {
    var h1 := HelloFields(h, ws, s, id, name, path);
    var stored := if name != "" then name else id;
    var h2 := h1.(db := UpsertWorkspaceDb(h1.db, s, Workspace(id, stored, path, now)));
    var h3 := SendMobile(h2, s, WorkspaceConnected(id, stored));
    if s in h3.peers {
      SendAllFields(h3, Recipients(h3.peers[s]), StatusOf(h3.peers[s]));
    }
  }

  /** Without the hypothesis reachability fails: an agent reconnects and says hello before the close
      event of its old socket, and the late close takes the new socket's entry away. */
  lemma LateCloseHidesSuccessor(codec: Codec, session: Session) returns (states: seq<Hub>, events: seq<Event>)
    ensures Execution(codec, 0, states, events)
    ensures Claiming(Last(states), session.id, "w", 2) && !Registered(Last(states), session.id, "w", 2)
    ensures ResolveTargetAgent(Last(states), session.id, Some("w")) == None
  {
    hide Inv, IsStep, OnClose, Quiet;
    var s := session.id;
    var auth, hello := AuthMsg(Claims(s, Agent)), HelloMsg("w");
    var h0, h1, h2, h3 := SetupRun(codec, session);
    var h4 := AuthRun(codec, h3, 1, s);
    var h5 := HelloRun(codec, h4, 1, s);
    var h6 := AuthRun(codec, h5, 2, s);
    var h7 := HelloRun(codec, h6, 2, s);
    var h8 := CloseRun(codec, h7, 1, 2, s);
    states := [h0, h1, h2, h3, h4, h5, h6, h7, h8];
    events := [StoreOp(Create(session)), Connect(1), Connect(2),
               Message(1, Some(auth), NO_IO), Message(1, Some(hello), NO_IO),
               Message(2, Some(auth), NO_IO), Message(2, Some(hello), NO_IO), CloseEvent(1)];
  }

  lemma SetupRun(codec: Codec, session: Session) returns (h0: Hub, h1: Hub, h2: Hub, h3: Hub)
    ensures h0 == Start(0) && Inv(h3) && Quiet(h3, session.id)
    ensures IsStep(codec, h0, StoreOp(Create(session)), h1)
    ensures IsStep(codec, h1, Connect(1), h2) && IsStep(codec, h2, Connect(2), h3)
    ensures h3.sockets == map[1 := FRESH_SOCKET, 2 := FRESH_SOCKET]
  {
    hide Inv;
    h0 := Start(0);
    StartInv(0);
    InvValid(h0);
    h1 := Step(codec, h0, StoreOp(Create(session)));
    StepInv(codec, h0, StoreOp(Create(session)));
    InvValid(h1);
    h2 := Step(codec, h1, Connect(1));
    StepInv(codec, h1, Connect(1));
    InvValid(h2);
    h3 := Step(codec, h2, Connect(2));
    StepInv(codec, h2, Connect(2));
  }

  /** The late close: the old socket still goes by the key the new one is registered under. */
  lemma CloseRun(codec: Codec, h: Hub, leaving: SocketId, successor: SocketId, s: string) returns (h1: Hub)
    requires Inv(h) && leaving != successor && s in h.peers
    requires Claiming(h, s, "w", leaving) && Claiming(h, s, "w", successor)
    ensures IsStep(codec, h, CloseEvent(leaving), h1)
    ensures Claiming(h1, s, "w", successor) && !Registered(h1, s, "w", successor)
    ensures ResolveTargetAgent(h1, s, Some("w")) == None
  {
    hide Inv, OnClose, Filter, Settle, Apply, LastKey, ResolveTargetAgent, Registered;
    InvValid(h);
    h1 := Step(codec, h, CloseEvent(leaving));
    CloseFields(h, leaving);
    assert "w" !in PeersAfterClose(h, leaving, s).agents.at;
    NobodyUnder(h1, s, "w", successor);
  }

  lemma NobodyUnder(h: Hub, s: string, k: string, ws: SocketId)
    requires s in h.peers ==> k !in h.peers[s].agents.at
    ensures !Registered(h, s, k, ws) && (Trim(k) == k != "" ==> ResolveTargetAgent(h, s, Some(k)) == None)
    ensures Trim("w") == "w"
  {
  }
}
