/** The hub as the object `createRelayServer` builds: its maps, the fields of its sockets, its store and
    its request table, changed in place by the event handlers. */
module RelayHubObject {
  import opened Options
  import opened Sequences
  import opened OrderedMaps
  import opened Texts
  import opened Messages
  import opened HistoryLog
  import opened Snapshots
  import opened StoreTables
  import opened RelayStoreObject
  import opened RelayHubModel
  import opened RelayHubInvariants
  import opened RelayHubSteps
  import opened RelayHubRuns
  import opened RelayHubFrames
  import AR = AgentRequests

  class RelayHub {
    const store: RelayStore
    const requests: AR.RequestTable
    var sockets: map<SocketId, Socket>
    var peers: map<string, SessionPeers>
    ghost var sent: seq<Delivery>
    ghost var appended: seq<Envelope>
    ghost var hellos: seq<Hello>

    ghost function State(): Hub
      reads this, store, requests
    {
      Hub(sockets, peers, requests.state, store.Tables(), sent, appended, hellos)
    }

    ghost predicate Valid()
      reads this, store, requests
    {
      Inv(State())
    }

    constructor (codec: Codec, clock: int)
      ensures Valid() && State() == Start(clock) && fresh(store) && fresh(requests) && store.codec == codec
    {
      store := new RelayStore(codec);
      requests := new AR.RequestTable(clock);
      sockets := map[];
      peers := map[];
      sent := [];
      appended := [];
      hellos := [];
      new;
      StartInv(clock);
    }

    // ----- sending -----

    method SendFrame(to: SocketId, frame: Frame)
      modifies this`sent
      ensures State() == Send(old(State()), to, frame)
    {
      if to in sockets && sockets[to].ready == Open {
        sent := sent + [Delivery(to, frame)];
      }
    }

    method SendWorkspaceEvent(sessionId: string, frame: Frame)
      modifies this`sent
      ensures State() == SendMobile(old(State()), sessionId, frame)
    {
      if sessionId in peers && peers[sessionId].mobile.Some? {
        SendFrame(peers[sessionId].mobile.value, frame);
      }
    }

    method BroadcastPeerStatus(sessionId: string)
      requires sessionId in peers ==> peers[sessionId].agents.Valid()
      modifies this`sent
      ensures State() == Broadcast(old(State()), sessionId)
    {
      hide NoDup, Filter, Send, SendAll, AgentsInOrder;
      if sessionId !in peers {
        return;
      }
      var p := peers[sessionId];
      var payload := PeerStatus(p.agents.order != [], p.mobile.Some?);
      ghost var h := State();
      ghost var done: seq<SocketId> := if p.mobile.Some? then [p.mobile.value] else [];
      ghost var first := done;
      SendAllBase(h, payload);
      if p.mobile.Some? {
        SendFrame(p.mobile.value, payload);
        SendAllPush(h, [], p.mobile.value, payload);
      }
      AgentsInOrderUpTo(p.agents, p.agents.order, 0);
      for i := 0 to |p.agents.order|
        invariant done == first + AgentsInOrder(p.agents, p.agents.order[..i])
        invariant State() == SendAll(h, done, payload)
      {
        var k := p.agents.order[i];
        assert k in p.agents.order && k in p.agents.at;
        SendFrame(p.agents.at[k], payload);
        SendAllPush(h, done, p.agents.at[k], payload);
        AgentsInOrderUpTo(p.agents, p.agents.order, i + 1);
        done := done + [p.agents.at[k]];
      }
      assert p.agents.order[..|p.agents.order|] == p.agents.order;
    }

    // ----- looking up -----

    method GetSessionPeers(sessionId: string) returns (p: SessionPeers)
      modifies this`peers
      ensures p == PeersOf(old(State()), sessionId)
      ensures peers == old(peers)[sessionId := p]
    {
      if sessionId in peers {
        assert peers[sessionId := peers[sessionId]] == peers;
        return peers[sessionId];
      }
      p := SessionPeers(None, Empty(), None);
      peers := peers[sessionId := p];
    }

    method ResolveTarget(sessionId: string, requested: Option<string>) returns (r: Option<SocketId>)
      ensures r == ResolveTargetAgent(State(), sessionId, requested)
    {
      if sessionId !in peers {
        return None;
      }
      var p := peers[sessionId];
      var explicit := "";
      if requested.Some? {
        explicit := Trim(requested.value);
      }
      if explicit != "" {
        return p.agents.Get(explicit);
      }
      if p.activeWorkspaceId.Some? {
        return p.agents.Get(p.activeWorkspaceId.value);
      }
      if p.agents.order == [] {
        return None;
      }
      return p.agents.Get(Last(p.agents.order));
    }

    method ListConnected(sessionId: string) returns (r: seq<ConnectedWorkspace>)
      requires Valid() && sessionId in peers
      ensures r == ConnectedEntries(State(), peers[sessionId], peers[sessionId].agents.order)
    {
      hide Inv, NoDup, Filter, HelloBefore, LatestBy;
      Parts(State(), sessionId);
      r := [];
      var p := peers[sessionId];
      for i := 0 to |p.agents.order|
        invariant r == ConnectedEntries(State(), p, p.agents.order[..i])
      {
        var k := p.agents.order[i];
        assert k in p.agents.order && k in p.agents.at;
        assert AgentUnder(sockets, sessionId, k, p.agents.at[k]);
        var socket := sockets[p.agents.at[k]];
        assert DropLast(p.agents.order[..i + 1]) == p.agents.order[..i];
        var active := p.activeWorkspaceId == Some(k);
        r := r + [ConnectedWorkspace(k, NonEmpty(socket.workspaceName, k), socket.workspacePath, active)];
      }
      assert p.agents.order[..|p.agents.order|] == p.agents.order;
    }

    method ListWorkspaces(sessionId: string) returns (r: seq<ConnectedWorkspace>)
      requires Valid()
      ensures r == ListConnectedWorkspaces(State(), sessionId)
    {
      hide Inv, NoDup, Filter, PeersOk, ConnectedEntries, PeersInv, AddStored, ListWorkspacesOf;
      Parts(State(), sessionId);
      r := [];
      if sessionId in peers {
        r := ListConnected(sessionId);
      }
      ghost var connected := r;
      var stored := store.ListWorkspaces(sessionId);
      AddStoredUpTo(connected, stored, 0);
      for i := 0 to |stored|
        invariant r == AddStored(connected, stored[..i])
      {
        AddStoredUpTo(connected, stored, i + 1);
        if stored[i].id !in Ids(r) {
          r := r + [ConnectedWorkspace(stored[i].id, stored[i].name, stored[i].path, false)];
        }
      }
      assert stored[..|stored|] == stored;
    }

    // ----- handlers -----

    method OnConnection(ws: SocketId)
      requires Valid() && ws !in sockets
      modifies `sockets
      ensures State() == Step(store.codec, old(State()), Connect(ws)) && Valid()
    {
      hide Inv;
      ConnectInv(State(), ws);
      sockets := sockets[ws := FRESH_SOCKET];
    }

    /** The pruning interval. */
    method OnPruneTick(now: int)
      requires Valid()
      modifies store
      ensures State() == Step(store.codec, old(State()), StoreOp(PruneExpired(now))) && Valid()
    {
      hide Inv, Apply;
      ghost var h := State();
      Parts(h, "");
      StoreOpInv(store.codec, h, PruneExpired(now));
      store.PruneExpiredSessions(now);
    }

    method CloseSocket(ws: SocketId)
      requires ws in sockets
      modifies this`sockets
      ensures State() == BeginClose(old(State()), ws)
    {
      if sockets[ws].ready == Open {
        sockets := sockets[ws := sockets[ws].(ready := Closing)];
      }
    }

    /** Moves the agent to its new workspace id: its old entry goes, its new one comes last and is active. */
    method TakeWorkspace(ws: SocketId, id: string, name: string, path: Option<string>)
      requires ws in sockets && sockets[ws].claims.Some?
      modifies `sockets, `peers, `hellos
      ensures State() == HelloFields(old(State()), ws, SessionOf(old(State()), ws), id, name, path)
    {
      hide Filter, NoDup, Delete, Put;
      ghost var h := State();
      var s := sockets[ws].claims.value.sessionId;
      var p := GetSessionPeers(s);
      if sockets[ws].workspaceId.Some? && sockets[ws].workspaceId.value != id {
        p := p.(agents := Delete(p.agents, sockets[ws].workspaceId.value));
      }
      sockets := sockets[ws := sockets[ws].(workspaceId := Some(id),
                                            workspaceName := Some(if name != "" then name else id),
                                            workspacePath := path)];
      p := p.(agents := Delete(p.agents, id));
      p := p.(agents := Put(p.agents, id, ws));
      p := p.(activeWorkspaceId := Some(id));
      peers := peers[s := p];
      hellos := hellos + [Hello(s, id, ws)];
      assert peers == HelloFields(h, ws, s, id, name, path).peers;
    }

    method RegisterAgentWorkspace(ws: SocketId, workspaceId: string, name: string, path: Option<string>, now: int)
      returns (outcome: Outcome)
      requires Valid() && Live(State(), ws) && Trim(workspaceId) != ""
      requires sockets[ws].claims.Some? && sockets[ws].claims.value.role == Agent
      modifies this, store
      ensures (State(), outcome)
           == RegisterStep(old(State()), ws, SessionOf(old(State()), ws), Trim(workspaceId), name, path, now)
      ensures Valid()
    {
      hide Inv, Filter, NoDup, Broadcast, SendMobile, HelloFields, Apply, Trim;
      ghost var h := State();
      var s := sockets[ws].claims.value.sessionId;
      var id := Trim(workspaceId);
      HelloFieldsInv(h, ws, s, id, name, path);
      RegisterInv(store.codec, h, ws, s, id, name, path, now);
      Parts(HelloFields(h, ws, s, id, name, path), s);
      HelloKeepsDb(h, ws, s, id, name, path);
      TakeWorkspace(ws, id, name, path);
      var stored := if name != "" then name else id;
      RowStored(store.codec, h.db, s, Workspace(id, stored, path, now));
      var ok := store.UpsertWorkspaceRow(s, Workspace(id, stored, path, now));
      if !ok {
        return ForeignKeyFailure;
      }
      SendWorkspaceEvent(s, WorkspaceConnected(id, stored));
      BroadcastPeerStatus(s);
      outcome := Handled;
    }

    method Authenticate(ws: SocketId, claims: Claims, now: int, uuid: string) returns (ghost io: Io)
      requires Valid() && Live(State(), ws) && sockets[ws].claims.None?
      modifies this
      ensures io.now == now && io.uuid == uuid && IsListing(old(store.Tables()), claims.sessionId, io.listing)
      ensures State() == AuthStep(old(State()), ws, claims, io) && Valid()
    {
      hide Inv, Filter, NoDup, Broadcast, ListConnectedWorkspaces;
      ghost var h := State();
      var s := claims.sessionId;
      var history := store.ListHistory(s);
      io := Io(now, uuid, history);
      AuthInv(h, ws, claims, io);
      AuthFieldsInv(h, ws, claims);
      sockets := sockets[ws := sockets[ws].(claims := Some(claims))];
      var p := GetSessionPeers(s);
      if claims.role == Mobile {
        p := p.(mobile := Some(ws));
        peers := peers[s := p];
      }
      assert peers == h.peers[s := p];
      Parts(State(), s);
      var workspaces := ListWorkspaces(s);
      SendFrame(ws, AuthOk(claims.role, s, workspaces, history));
      BroadcastPeerStatus(s);
    }

    /** Appends first, then sends: what a mobile is handed live is already in the history. */
    method Forward(ws: SocketId, msg: Msg, now: int, uuid: string, ghost io: Io)
      requires io.now == now && io.uuid == uuid
      requires Valid() && Live(State(), ws) && sockets[ws].claims.Some? && FreshMessage(State(), io.uuid)
      modifies this, store
      ensures State() == ForwardStep(old(State()), ws, old(sockets)[ws].claims.value, msg, io) && Valid()
      ensures var claims := old(sockets)[ws].claims.value;
              claims.role == Mobile && claims.sessionId in old(store.sessions) ==>
                ReachesAddressed(old(State()), State(), claims.sessionId, msg, io)
    {
      hide Inv, Filter, NoDup, ResolveTargetAgent, ReachesAddressed, BodyOf, TrimRows, Insert;
      ghost var h := State();
      var claims := sockets[ws].claims.value;
      var s, role := claims.sessionId, claims.role;
      Parts(h, s);
      ForwardInv(h, ws, claims, msg, io);
      if role == Mobile && s in store.sessions {
        ForwardReaches(h, ws, s, msg, io);
      }
      var target := TargetWorkspace(sockets[ws], role, msg);
      var envelope := store.AppendEnvelope(uuid, s, role, now, BodyOf(sockets[ws], role, msg));
      if envelope.None? {
        CloseSocket(ws);
        return;
      }
      appended := appended + [envelope.value];
      AppendInv(h, envelope.value);
      if role == Agent {
        SendWorkspaceEvent(s, Relayed(envelope.value));
        return;
      }
      var agent := ResolveTarget(s, target);
      if agent.Some? {
        SendFrame(agent.value, Relayed(envelope.value));
      }
    }

    method OnMessageEvent(ws: SocketId, raw: Option<Msg>, now: int, uuid: string)
      returns (outcome: Outcome, ghost io: Io)
      requires Valid() && Live(State(), ws) && FreshMessage(State(), uuid)
      modifies this, store, requests
      ensures io.now == now && io.uuid == uuid && Enabled(old(State()), Message(ws, raw, io))
      ensures (State(), outcome) == OnMessage(store.codec, old(State()), ws, raw, io)
      ensures Valid()
    {
      hide Inv, ForwardStep, RegisterStep, AuthStep;
      ghost var h := State();
      outcome := Handled;
      var some := if raw.Some? && raw.value.verified.Some? then raw.value.verified.value.sessionId else "";
      var listing := store.ListHistory(some);
      io := Io(now, uuid, listing);
      if raw.None? {
        CloseSocket(ws);
        BeginCloseInv(h, ws);
        return;
      }
      var msg := raw.value;
      if sockets[ws].claims.None? {
        if msg.verified.None? || msg.verified.value.sessionId !in store.sessions {
          CloseSocket(ws);
          BeginCloseInv(h, ws);
        } else {
          io := Authenticate(ws, msg.verified.value, now, uuid);
        }
        return;
      }
      var role := sockets[ws].claims.value.role;
      if role == Agent && msg.kind == Some("agent_hello") {
        var workspaceId := if msg.workspaceId.Some? then msg.workspaceId.value else "";
        if Trim(workspaceId) != "" {
          var name := msg.workspaceName.GetOr(workspaceId);
          outcome := RegisterAgentWorkspace(ws, workspaceId, name, msg.workspacePath, now);
        }
        return;
      }
      if role == Agent && msg.kind == Some("relay_file_response") && msg.requestId.Some? {
        RequestsValid(h);
        requests.OnReply(msg.requestId.value, msg.reply);
        RequestsInv(h, AR.Respond(msg.requestId.value, msg.reply));
        return;
      }
      if role == Agent && msg.kind == Some("status_snapshot") {
        outcome := StoreStatus(ws, msg, now);
        if outcome == ForeignKeyFailure {
          return;
        }
      }
      Forward(ws, msg, now, uuid, io);
    }

    method StoreStatus(ws: SocketId, msg: Msg, now: int) returns (outcome: Outcome)
      requires Valid() && Live(State(), ws) && sockets[ws].claims.Some? && sockets[ws].claims.value.role == Agent
      modifies store
      ensures (State(), outcome) == SnapshotStep(store.codec, old(State()), ws, SessionOf(old(State()), ws), msg, now)
      ensures Valid()
    {
      ghost var h := State();
      var s := sockets[ws].claims.value.sessionId;
      var id := TargetWorkspace(sockets[ws], Agent, msg);
      outcome := Handled;
      if id.Some? && id.value != "" {
        StoreOpInv(store.codec, h, UpsertSnapshot(s, id.value, Update(StatusPayload(msg), now)));
        var ok := store.UpsertWorkspaceSnapshot(s, id.value, Update(StatusPayload(msg), now));
        if !ok {
          outcome := ForeignKeyFailure;
        }
      }
    }

    method OnCloseEvent(ws: SocketId)
      requires Valid() && Live(State(), ws)
      modifies this
      ensures State() == OnClose(old(State()), ws) && Valid()
    {
      hide Inv, Filter, NoDup, Broadcast, Delete, LastKey;
      ghost var h := State();
      CloseInv(h, ws);
      var socket := sockets[ws];
      sockets := sockets[ws := socket.(ready := Closed)];
      if socket.claims.None? || socket.claims.value.sessionId !in peers {
        return;
      }
      var s := socket.claims.value.sessionId;
      Parts(h, s);
      AgentsStayValid(h.peers[s], socket.workspaceId);
      if socket.claims.value.role == Mobile {
        LeaveAsMobile(ws, s);
      } else if socket.workspaceId.Some? {
        LeaveAsAgent(s, socket.workspaceId.value);
      }
      SettlePeers(s);
    }

    method LeaveAsMobile(ws: SocketId, s: string)
      requires s in peers
      modifies `peers
      ensures var p := old(peers)[s]; peers == old(peers)[s := if p.mobile == Some(ws) then p.(mobile := None) else p]
    {
      if peers[s].mobile == Some(ws) {
        peers := peers[s := peers[s].(mobile := None)];
      }
    }

    /** Deletes by key: the entry goes whoever put it there. */
    method LeaveAsAgent(s: string, k: string)
      requires s in peers
      modifies `peers, `sent
      ensures var left := old(State()).(peers := old(peers)[s := WithoutAgent(old(peers)[s], k)]);
              State() == SendMobile(left, s, WorkspaceDisconnected(k))
    {
      hide Delete, LastKey;
      var p := peers[s];
      p := p.(agents := Delete(p.agents, k));
      peers := peers[s := p];
      SendWorkspaceEvent(s, WorkspaceDisconnected(k));
      if p.activeWorkspaceId == Some(k) {
        p := p.(activeWorkspaceId := LastKey(p.agents));
        peers := peers[s := p];
      }
      assert peers == old(peers)[s := WithoutAgent(old(peers)[s], k)];
    }

    method SettlePeers(s: string)
      requires s in peers && peers[s].agents.Valid()
      modifies `peers, `sent
      ensures State() == Settle(old(State()), s)
    {
      if peers[s].mobile.None? && peers[s].agents.order == [] {
        peers := peers - {s};
      } else {
        BroadcastPeerStatus(s);
      }
    }

    /** False is "workspace unavailable". */
    method RequestAgentPayload(s: string, workspaceId: Option<string>, path: string, requestId: string)
      returns (ok: bool)
      requires Valid() && AR.Enabled(requests.state, AR.Issue(requestId))
      modifies this, requests
      ensures State() == RequestStep(old(State()), s, workspaceId, path, requestId) && Valid()
      ensures ok <==> requestId in requests.state.pending
    {
      hide Inv, Filter, NoDup, ResolveTargetAgent;
      ghost var h := State();
      Parts(h, s);
      RequestInv(h, s, workspaceId, path, requestId);
      var target := ResolveTarget(s, workspaceId);
      if target.None? || target.value !in sockets || sockets[target.value].ready != Open {
        return false;
      }
      requests.Open(requestId);
      SendFrame(target.value, FileRequest(requestId, path, if workspaceId == Some("") then None else workspaceId));
      ok := true;
    }
  }

  lemma RequestsValid(h: Hub)
    requires Inv(h)
    ensures AR.Inv(h.requests)
  {
  }

  lemma Parts(h: Hub, s: string)
    requires Inv(h)
    ensures Sound(h.db) && PeersInv(h) && AR.Inv(h.requests)
    ensures s in h.peers ==> PeersOk(h.sockets, h.hellos, s, h.peers[s]) && h.peers[s].agents.Valid()
  {
  }

  lemma AgentsStayValid(p: SessionPeers, k: Option<string>)
    requires p.agents.Valid()
    ensures k.Some? ==> WithoutAgent(p, k.value).agents.Valid()
  {
    if k.Some? {
      DeleteValid(p.agents, k.value);
    }
  }

  lemma HelloKeepsDb(h: Hub, ws: SocketId, s: string, id: string, name: string, path: Option<string>)
    requires ws in h.sockets
    ensures HelloFields(h, ws, s, id, name, path).db == h.db
  {
  }

  lemma RowStored(codec: Codec, db: Db, s: string, workspace: Workspace)
    ensures Apply(codec, db, UpsertWorkspace(s, workspace))
         == if s in db.sessions then UpsertWorkspaceDb(db, s, workspace) else db
  {
  }

  lemma SendAllBase(h: Hub, frame: Frame)
    ensures SendAll(h, [], frame) == h
  {
  }

  lemma SendAllPush(h: Hub, to: seq<SocketId>, last: SocketId, frame: Frame)
    ensures SendAll(h, to + [last], frame) == Send(SendAll(h, to, frame), last, frame)
    ensures SendAll(h, [] + [last], frame) == SendAll(h, [last], frame)
  {
    assert DropLast(to + [last]) == to;
    assert [] + [last] == [last];
  }

  lemma AddStoredUpTo(entries: seq<ConnectedWorkspace>, stored: seq<Workspace>, i: nat)
    requires i <= |stored|
    ensures AddStored(entries, stored[..i])
         == if i == 0 then entries
            else
              var before := AddStored(entries, stored[..i - 1]);
              var w := stored[i - 1];
              if w.id in Ids(before) then before else before + [ConnectedWorkspace(w.id, w.name, w.path, false)]
  {
    if i > 0 {
      assert DropLast(stored[..i]) == stored[..i - 1];
    }
  }

  lemma AgentsInOrderUpTo(agents: OMap<string, SocketId>, keys: seq<string>, i: nat)
    requires i <= |keys| && (i > 0 ==> keys[i - 1] in agents.at)
    ensures AgentsInOrder(agents, keys[..i])
         == if i == 0 then [] else AgentsInOrder(agents, keys[..i - 1]) + [agents.at[keys[i - 1]]]
  {
    if i > 0 {
      assert DropLast(keys[..i]) == keys[..i - 1];
    }
  }
}
