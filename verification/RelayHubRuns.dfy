/** The relay hub over whole runs. */
module RelayHubRuns {
  import opened Options
  import opened Sequences
  import opened OrderedMaps
  import opened Texts
  import opened Messages
  import opened HistoryLog
  import opened Snapshots
  import opened StoreTables
  import SR = StoreRuns
  import opened RelayHubModel
  import opened RelayHubInvariants
  import opened RelayHubSteps
  import AR = AgentRequests

  // ----- invariants -----

  lemma OnMessageInv(codec: Codec, h: Hub, ws: SocketId, raw: Option<Msg>, io: Io)
    requires Inv(h) && Enabled(h, Message(ws, raw, io))
    ensures Inv(OnMessage(codec, h, ws, raw, io).0)
  {
    hide PeersInv, SentInv, LogInv, AR.Inv;
    if raw.None? {
      BeginCloseInv(h, ws);
    } else if h.sockets[ws].claims.None? {
      if raw.value.verified.None? || raw.value.verified.value.sessionId !in h.db.sessions {
        BeginCloseInv(h, ws);
      } else {
        AuthInv(h, ws, raw.value.verified.value, io);
      }
    } else {
      LaterFrameInv(codec, h, ws, h.sockets[ws].claims.value, raw.value, io);
    }
  }

  lemma RequestInv(h: Hub, s: string, workspaceId: Option<string>, path: string, requestId: string)
    requires Inv(h) && AR.Enabled(h.requests, AR.Issue(requestId))
    ensures Inv(RequestStep(h, s, workspaceId, path, requestId))
    ensures SendsIn(h, RequestStep(h, s, workspaceId, path, requestId), s)
  {
    hide Sound, LogInv, AR.Inv, PeersOk, SentInv, LastHello, Trim, AR.IssueStep;
    var target := ResolveTargetAgent(h, s, workspaceId);
    if target.Some? && IsOpen(h, target.value) {
      AR.StepInv(h.requests, AR.Issue(requestId));
      var h1 := h.(requests := AR.IssueStep(h.requests, requestId));
      ResolvedIsMember(h1, s, workspaceId);
      var frame := FileRequest(requestId, path, if workspaceId == Some("") then None else workspaceId);
      SendOnly(h1, target.value, frame, s);
      OnlySentInv(h1, Send(h1, target.value, frame), s);
    }
  }

  /** Every step keeps the invariants. */
  lemma StepInv(codec: Codec, h: Hub, e: Event)
    requires Inv(h) && Enabled(h, e)
    ensures Inv(Step(codec, h, e))
  {
    hide PeersInv, SentInv, LogInv;
    match e
    case Connect(ws) => ConnectInv(h, ws);
    case PeerCloses(ws) => BeginCloseInv(h, ws);
    case Message(ws, raw, io) => OnMessageInv(codec, h, ws, raw, io);
    case CloseEvent(ws) => CloseInv(h, ws);
    case HttpFile(s, workspaceId, path, requestId) => RequestInv(h, s, workspaceId, path, requestId);
    case RequestTimer(t) => RequestsInv(h, AR.Fire(t));
    case Wait(to) => RequestsInv(h, AR.Advance(to));
    case StoreOp(op) => StoreOpInv(codec, h, op);
  }

  lemma RequestsInv(h: Hub, e: AR.Event)
    requires Inv(h) && AR.Enabled(h.requests, e)
    ensures Inv(h.(requests := AR.Step(h.requests, e)))
  {
    AR.StepInv(h.requests, e);
  }

  lemma StartInv(clock: int)
    ensures Inv(Start(clock))
  {
  }

  /** A run of the hub from its start. */
  ghost predicate Execution(codec: Codec, clock: int, states: seq<Hub>, events: seq<Event>) {
    IsRun(codec, states, events) && states[0] == Start(clock)
  }

  lemma {:induction false} ReachableInv(codec: Codec, clock: int, states: seq<Hub>, events: seq<Event>, i: nat)
    requires Execution(codec, clock, states, events) && i < |states|
    ensures Inv(states[i])
  {
    if i == 0 {
      StartInv(clock);
    } else {
      ReachableInv(codec, clock, states, events, i - 1);
      assert IsStep(codec, states[i - 1], events[i - 1], states[i]);
      StepInv(codec, states[i - 1], events[i - 1]);
    }
  }

  /** No dangling reference and no leak in any reachable state: whoever is registered is live, of the
      session, in its role and under its own id; an entry exists only while a socket of it lives. */
  lemma NoDanglingNoLeak(codec: Codec, clock: int, states: seq<Hub>, events: seq<Event>, i: nat, s: string)
    requires Execution(codec, clock, states, events) && i < |states| && s in states[i].peers
    ensures var h := states[i];
            var p := h.peers[s];
            && (p.mobile.Some? ==>
                 Live(h, p.mobile.value) && h.sockets[p.mobile.value].claims == Some(Claims(s, Mobile)))
            && (forall k :: k in p.agents.at ==>
                 Live(h, p.agents.at[k])
                 && h.sockets[p.agents.at[k]].claims == Some(Claims(s, Agent))
                 && h.sockets[p.agents.at[k]].workspaceId == Some(k))
            && (exists ws :: Live(h, ws) && h.sockets[ws].claims.Some? && SessionOf(h, ws) == s)
  {
    var h := states[i];
    ReachableInv(codec, clock, states, events, i);
    assert PeersOk(h.sockets, h.hellos, s, h.peers[s]);
    forall k | k in h.peers[s].agents.at ensures AgentUnder(h.sockets, s, k, h.peers[s].agents.at[k]) {}
    var ws :| Member(h.sockets, s, ws);
    assert Live(h, ws);
  }

  /** The session a step acts for, if any. */
  function SenderSession(h: Hub, h': Hub, e: Event): Option<string> {
    match e
    case Message(ws, _, _) => if ws in h'.sockets && h'.sockets[ws].claims.Some? then Some(SessionOf(h', ws)) else None
    case CloseEvent(ws) => if ws in h.sockets && h.sockets[ws].claims.Some? then Some(SessionOf(h, ws)) else None
    case HttpFile(s, _, _, _) => Some(s)
    case _ => None
  }

  lemma ClaimsKept(codec: Codec, h: Hub, ws: SocketId, msg: Msg, io: Io)
    requires Inv(h) && Live(h, ws) && h.sockets[ws].claims.Some?
    ensures ws in LaterFrame(codec, h, ws, h.sockets[ws].claims.value, msg, io).0.sockets
    ensures LaterFrame(codec, h, ws, h.sockets[ws].claims.value, msg, io).0.sockets[ws].claims == h.sockets[ws].claims
  {
    hide Inv, ForwardStep, RegisterStep;
    var claims := h.sockets[ws].claims.value;
    var s := claims.sessionId;
    var id := HelloId(msg);
    var name := msg.workspaceName.GetOr(msg.workspaceId.GetOr(""));
    var (h1, _) := SnapshotStep(codec, h, ws, s, msg, io.now);
    ForwardKeepsClaims(h, ws, claims, msg, io);
    ForwardKeepsClaims(h1, ws, claims, msg, io);
    RegisterKeepsClaims(h, ws, s, id, name, msg.workspacePath, io.now);
  }

  lemma {:induction false} SendAllFields(h: Hub, to: seq<SocketId>, frame: Frame)
    ensures SendAll(h, to, frame) == h.(sent := SendAll(h, to, frame).sent)
  {
    if to != [] {
      SendAllFields(h, DropLast(to), frame);
    }
  }

  lemma ForwardKeepsClaims(h: Hub, ws: SocketId, claims: Claims, msg: Msg, io: Io)
    requires ws in h.sockets
    ensures ws in ForwardStep(h, ws, claims, msg, io).sockets
    ensures ForwardStep(h, ws, claims, msg, io).sockets[ws].claims == h.sockets[ws].claims
  {
  }

  lemma RegisterKeepsClaims(h: Hub, ws: SocketId, s: string, id: string, name: string, path: Option<string>, now: int)
    requires ws in h.sockets
    ensures ws in RegisterStep(h, ws, s, id, name, path, now).0.sockets
    ensures RegisterStep(h, ws, s, id, name, path, now).0.sockets[ws].claims == h.sockets[ws].claims
  {
    var h1 := HelloFields(h, ws, s, id, name, path);
    var stored := if name != "" then name else id;
    var h2 := h1.(db := UpsertWorkspaceDb(h1.db, s, Workspace(id, stored, path, now)));
    var h3 := SendMobile(h2, s, WorkspaceConnected(id, stored));
    if s in h3.peers {
      SendAllFields(h3, Recipients(h3.peers[s]), StatusOf(h3.peers[s]));
    }
  }

  lemma AuthSetsClaims(h: Hub, ws: SocketId, claims: Claims, io: Io)
    requires ws in h.sockets && h.db.workspaces.Valid()
    ensures ws in AuthStep(h, ws, claims, io).sockets
    ensures AuthStep(h, ws, claims, io).sockets[ws].claims == Some(claims)
  {
    var s := claims.sessionId;
    var p := PeersOf(h, s);
    var h1 := h.(sockets := h.sockets[ws := h.sockets[ws].(claims := Some(claims))],
                 peers := h.peers[s := if claims.role == Mobile then p.(mobile := Some(ws)) else p]);
    var h2 := Send(h1, ws, AuthOk(claims.role, s, ListConnectedWorkspaces(h1, s), io.listing));
    SendAllFields(h2, Recipients(h2.peers[s]), StatusOf(h2.peers[s]));
  }

  /** Every frame a step sends goes to an open socket of the sender's session and carries that
      session's messages only; a step without a session sends nothing. */
  lemma SessionIsolation(codec: Codec, h: Hub, e: Event)
    requires Inv(h) && Enabled(h, e)
    ensures var h' := Step(codec, h, e);
            match SenderSession(h, h', e)
            case Some(s) => SendsIn(h, h', s)
            case None => h'.sent == h.sent
  {
    hide PeersInv, SentInv, LogInv, AR.Inv, AuthStep, LaterFrame, OnClose, RequestStep, Apply, IsListing;
    match e
    case Message(ws, raw, io) =>
      if raw.None? {
      } else if h.sockets[ws].claims.None? {
        if raw.value.verified.Some? && raw.value.verified.value.sessionId in h.db.sessions {
          AuthInv(h, ws, raw.value.verified.value, io);
          AuthSetsClaims(h, ws, raw.value.verified.value, io);
        }
      } else {
        LaterFrameInv(codec, h, ws, h.sockets[ws].claims.value, raw.value, io);
        ClaimsKept(codec, h, ws, raw.value, io);
      }
    case CloseEvent(ws) => CloseInv(h, ws);
    case HttpFile(s, workspaceId, path, requestId) => RequestInv(h, s, workspaceId, path, requestId);
    case _ =>
  }

  // ----- the active workspace -----

  /** The cached active id is null exactly when no agent is registered, else it is the id of the
      registered agent whose latest hello is the most recent; that agent is the default target. */
  lemma DefaultTargetIsLatestHello(h: Hub, s: string)
    requires Inv(h) && s in h.peers
    ensures h.peers[s].activeWorkspaceId.None? <==> h.peers[s].agents.at == map[]
    ensures h.peers[s].activeWorkspaceId.None? ==> ResolveTargetAgent(h, s, None) == None
    ensures h.peers[s].activeWorkspaceId.Some? ==>
              var agents, k := h.peers[s].agents.at, h.peers[s].activeWorkspaceId.value;
              && k in agents
              && ResolveTargetAgent(h, s, None) == Some(agents[k])
              && h.hellos[LastHello(h.hellos, s, k)] == Hello(s, k, agents[k])
              && forall o :: o in agents && o != k ==> LastHello(h.hellos, s, o) < LastHello(h.hellos, s, k)
  {
    hide Filter, LastHello, Sound, LogInv, AR.Inv;
    var p := h.peers[s];
    assert PeersOk(h.sockets, h.hellos, s, p);
    if p.agents.order == [] {
      forall k ensures k !in p.agents.at {
        assert k in p.agents.at ==> k in p.agents.order;
      }
    } else {
      var k := Last(p.agents.order);
      assert k in p.agents.order;
      LastHelloBounds(h.hellos, s, k);
      assert LatestBy(h.hellos, s, k, p.agents.at[k]);
      forall o | o in p.agents.at && o != k ensures LastHello(h.hellos, s, o) < LastHello(h.hellos, s, k) {
        var i :| 0 <= i < |p.agents.order| && p.agents.order[i] == o;
        assert Pair(p.agents.order, HelloBefore(h.hellos, s), i, |p.agents.order| - 1);
      }
    }
  }

  predicate IsActive(w: ConnectedWorkspace) {
    w.active
  }

  /** The entry with the active id is the one marked active, when it is listed. */
  ghost predicate MarksActive(entries: seq<ConnectedWorkspace>, active: Option<string>) {
    var marked := Filter(entries, IsActive);
    if active.Some? && active.value in Ids(entries) then |marked| == 1 && marked[0].id == active.value else marked == []
  }

  lemma MarksActivePush(entries: seq<ConnectedWorkspace>, x: ConnectedWorkspace, active: Option<string>)
    requires MarksActive(entries, active) && x.id !in Ids(entries) && x.active == (active == Some(x.id))
    ensures MarksActive(entries + [x], active) && Ids(entries + [x]) == Ids(entries) + [x.id]
  {
    FilterPush(entries, x, IsActive);
    assert DropLast(entries + [x]) == entries;
  }

  lemma NothingActive(active: Option<string>)
    ensures MarksActive([], active)
  {
    FilterNone<ConnectedWorkspace>([], IsActive);
  }

  lemma {:induction false} ConnectedActive(h: Hub, p: SessionPeers, keys: seq<string>)
    requires NoDup(keys) && forall k :: k in keys ==> k in p.agents.at && p.agents.at[k] in h.sockets
    ensures Ids(ConnectedEntries(h, p, keys)) == keys
    ensures MarksActive(ConnectedEntries(h, p, keys), p.activeWorkspaceId)
  {
    hide Filter, LastHello, MarksActive, NoDup;
    if keys == [] {
      NothingActive(p.activeWorkspaceId);
    } else {
      var init, k := DropLast(keys), Last(keys);
      assert keys == init + [k];
      NoDupPush(init, k);
      assert k in keys && forall x :: x in init ==> x in keys;
      ConnectedActive(h, p, init);
      var socket := h.sockets[p.agents.at[k]];
      var active := p.activeWorkspaceId == Some(k);
      var x := ConnectedWorkspace(k, NonEmpty(socket.workspaceName, k), socket.workspacePath, active);
      assert ConnectedEntries(h, p, keys) == ConnectedEntries(h, p, init) + [x];
      MarksActivePush(ConnectedEntries(h, p, init), x, p.activeWorkspaceId);
    }
  }

  lemma {:induction false} AddStoredActive(entries: seq<ConnectedWorkspace>, stored: seq<Workspace>)
    ensures Filter(AddStored(entries, stored), IsActive) == Filter(entries, IsActive)
    ensures NoDup(Ids(entries)) ==> NoDup(Ids(AddStored(entries, stored)))
    ensures forall x :: x in Ids(entries) ==> x in Ids(AddStored(entries, stored))
    ensures forall w :: w in stored ==> w.id in Ids(AddStored(entries, stored))
  {
    if stored != [] {
      var before, w := AddStored(entries, DropLast(stored)), Last(stored);
      AddStoredActive(entries, DropLast(stored));
      assert stored == DropLast(stored) + [w];
      if w.id !in Ids(before) {
        var x := ConnectedWorkspace(w.id, w.name, w.path, false);
        FilterPush(before, x, IsActive);
        assert DropLast(before + [x]) == before;
        NoDupPush(Ids(before), w.id);
      }
    }
  }

  /** The workspace list names every registered and every stored workspace once, and marks exactly
      one active when an agent is registered, the default target's, and none otherwise. */
  lemma ListMarksDefaultTarget(h: Hub, s: string)
    requires Inv(h)
    ensures var list, p := ListConnectedWorkspaces(h, s), PeersOf(h, s);
            && NoDup(Ids(list))
            && (forall k :: k in p.agents.at ==> k in Ids(list))
            && (forall w :: w in ListWorkspacesOf(h.db, s) ==> w.id in Ids(list))
            && (p.agents.at == map[] ==> Filter(list, IsActive) == [])
            && (p.agents.at != map[] ==>
                 && |Filter(list, IsActive)| == 1
                 && Filter(list, IsActive)[0].id in p.agents.at
                 && ResolveTargetAgent(h, s, None) == Some(p.agents.at[Filter(list, IsActive)[0].id]))
  {
    var entries := if s in h.peers then ConnectedEntries(h, h.peers[s], h.peers[s].agents.order) else [];
    AddStoredActive(entries, ListWorkspacesOf(h.db, s));
    if s in h.peers {
      assert PeersOk(h.sockets, h.hellos, s, h.peers[s]);
      forall k | k in h.peers[s].agents.order
        ensures k in h.peers[s].agents.at && h.peers[s].agents.at[k] in h.sockets
      {
        assert AgentUnder(h.sockets, s, k, h.peers[s].agents.at[k]);
      }
      ConnectedActive(h, h.peers[s], h.peers[s].agents.order);
      DefaultTargetIsLatestHello(h, s);
    }
  }
}
