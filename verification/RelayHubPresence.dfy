/** Who is told what when sockets come, say hello and go, and when HTTP asks for a file
    (relay/src/server.ts). */
module RelayHubPresence {
  import opened Options
  import opened Sequences
  import opened OrderedMaps
  import opened Texts
  import opened Messages
  import opened HistoryLog
  import opened Snapshots
  import opened StoreTables
  import opened RelayHubModel
  import opened RelayHubInvariants
  import opened RelayHubSteps
  import opened RelayHubRuns
  import opened RelayHubReachability
  import opened RelayHubFrames
  import AR = AgentRequests

  // ----- hellos -----

  /** The agent's hello under `id`, as the socket and the stored row keep it. */
  function HelloName(msg: Msg, id: string): string {
    if msg.workspaceName.Some? then (if msg.workspaceName.value != "" then msg.workspaceName.value else id)
    else if msg.workspaceId.Some? then msg.workspaceId.value
    else id
  }

  lemma Knows(h: Hub, s: string)
    requires Inv(h)
    ensures KnowsAgents(h, s)
  {
    if s in h.peers {
      assert PeersOk(h.sockets, h.hellos, s, h.peers[s]);
    }
  }

  /** Sending changes neither who is there nor who is open. */
  lemma SamePeople(h: Hub, h1: Hub, s: string, to: seq<SocketId>, frame: Frame)
    requires h1.peers == h.peers && h1.sockets == h.sockets
    ensures MobileIn(h1, s) == MobileIn(h, s) && AgentsIn(h1, s) == AgentsIn(h, s) && StatusIn(h1, s) == StatusIn(h, s)
    ensures Deliveries(h1, to, frame) == Deliveries(h, to, frame)
  {
    SameDeliveries(h, h1, to, frame);
  }

  /** An event to the mobile, then the status to everybody. */
  function Announced(h: Hub, s: string, event: Frame): seq<Delivery> {
    Deliveries(h, MobileIn(h, s), event) + StatusToAll(h, s)
  }

  function StatusToAll(h: Hub, s: string): seq<Delivery> {
    Deliveries(h, MobileIn(h, s) + AgentsIn(h, s), StatusIn(h, s))
  }

  lemma Announces(h: Hub, s: string, event: Frame)
    requires KnowsAgents(h, s) && s in h.peers
    ensures Broadcast(SendMobile(h, s, event), s) == h.(sent := h.sent + Announced(h, s, event))
  {
    hide Deliveries, MobileIn, AgentsIn, StatusIn, SendMobile, Broadcast;
    var h1 := SendMobile(h, s, event);
    MobileSend(h, s, event);
    StatusSend(h1, s);
    SamePeople(h, h1, s, MobileIn(h, s) + AgentsIn(h, s), StatusIn(h, s));
    assert (h.sent + Deliveries(h, MobileIn(h, s), event)) + StatusToAll(h, s) == h.sent + Announced(h, s, event);
  }

  lemma RegisterAnnounces(h: Hub, ws: SocketId, s: string, id: string, name: string, path: Option<string>, now: int)
    requires ws in h.sockets && s in h.db.sessions && KnowsAgents(HelloFields(h, ws, s, id, name, path), s)
    ensures var stored := if name != "" then name else id;
            var h1 := HelloFields(h, ws, s, id, name, path);
            RegisterStep(h, ws, s, id, name, path, now).0
            == h1.(db := UpsertWorkspaceDb(h.db, s, Workspace(id, stored, path, now)),
                   sent := h.sent + Announced(h1, s, WorkspaceConnected(id, stored)))
  {
    hide Announced, Broadcast, SendMobile, Rekeyed, UpsertWorkspaceDb;
    var stored := if name != "" then name else id;
    var h1 := HelloFields(h, ws, s, id, name, path);
    var h2 := h1.(db := UpsertWorkspaceDb(h1.db, s, Workspace(id, stored, path, now)));
    Announces(h2, s, WorkspaceConnected(id, stored));
    SameAnnounced(h1, h2, s, WorkspaceConnected(id, stored));
  }

  lemma SameAnnounced(h: Hub, h1: Hub, s: string, event: Frame)
    requires h1.peers == h.peers && h1.sockets == h.sockets
    ensures Announced(h1, s, event) == Announced(h, s, event) && StatusToAll(h1, s) == StatusToAll(h, s)
  {
    hide Deliveries, MobileIn, AgentsIn, StatusIn;
    SamePeople(h, h1, s, MobileIn(h, s), event);
    SamePeople(h, h1, s, MobileIn(h, s) + AgentsIn(h, s), StatusIn(h, s));
  }

  /** A hello with an id that is not blank, of an agent of a stored session: the socket goes by that id,
      the workspace row says so, the mobile is told, and then everybody is. */
  lemma HelloFrame(codec: Codec, h: Hub, ws: SocketId, s: string, msg: Msg, io: Io)
    requires Inv(h) && Enabled(h, Message(ws, Some(msg), io)) && s in h.db.sessions
    requires h.sockets[ws].claims == Some(Claims(s, Agent)) && msg.kind == Some("agent_hello")
    requires msg.workspaceId.Some? && Trim(msg.workspaceId.value) != ""
    ensures var id := Trim(msg.workspaceId.value);
            var name := HelloName(msg, id);
            var h' := Step(codec, h, Message(ws, Some(msg), io));
            && h'.sockets == h.sockets[ws := h.sockets[ws].(
                               workspaceId := Some(id), workspaceName := Some(name),
                               workspacePath := msg.workspacePath)]
            && h'.db == h.db.(workspaces := h'.db.workspaces)
            && h'.db.workspaces.at == h.db.workspaces.at[(s, id) := Workspace(id, name, msg.workspacePath, io.now)]
            && Registered(h', s, id, ws)
            && h'.sent == h.sent + Announced(h', s, WorkspaceConnected(id, name))
            && h'.appended == h.appended && h'.requests == h.requests
  {
    hide Inv, Announced, RegisterStep, Rekeyed, Trim;
    var id, e := Trim(msg.workspaceId.value), Message(ws, Some(msg), io);
    var name := msg.workspaceName.GetOr(msg.workspaceId.GetOr(""));
    InvValid(h);
    StepInv(codec, h, e);
    var h1, h' := HelloFields(h, ws, s, id, name, msg.workspacePath), Step(codec, h, e);
    assert h' == RegisterStep(h, ws, s, id, name, msg.workspacePath, io.now).0;
    RegisterFields(h, ws, s, id, name, msg.workspacePath, io.now);
    Knows(h', s);
    RegisterAnnounces(h, ws, s, id, name, msg.workspacePath, io.now);
    NotBlank(msg.workspaceId.value);
    SameAnnounced(h1, h', s, WorkspaceConnected(id, HelloName(msg, id)));
    TakesItsId(PeersOf(h, s).agents, h.sockets[ws].workspaceId, id, ws);
  }

  lemma NotBlank(text: string)
    requires Trim(text) != ""
    ensures text != ""
  {
  }

  /** A blank or missing id is no hello. */
  lemma BlankHello(codec: Codec, h: Hub, ws: SocketId, s: string, msg: Msg, io: Io)
    requires Inv(h) && Enabled(h, Message(ws, Some(msg), io))
    requires h.sockets[ws].claims == Some(Claims(s, Agent)) && msg.kind == Some("agent_hello")
    requires msg.workspaceId.Some? ==> Trim(msg.workspaceId.value) == ""
    ensures Step(codec, h, Message(ws, Some(msg), io)) == h
  {
    hide Inv, RegisterStep;
    InvValid(h);
    assert Trim("") == "";
  }

  // ----- authentication -----

  /** Entry `i` of a listing of the session's workspaces: the registered ones first, in the order of their
      hellos and the last of them active, then stored ones that are not registered. */
  ghost predicate Lists(h: Hub, s: string, list: seq<ConnectedWorkspace>, i: int)
    requires 0 <= i < |list|
  {
    if i < |PeersOf(h, s).agents.order| then ListsAgent(h, s, list[i], i)
    else exists key :: ListsStored(h, s, list[i], key)
  }

  predicate ListsAgent(h: Hub, s: string, entry: ConnectedWorkspace, i: nat)
    requires i < |PeersOf(h, s).agents.order|
  {
    var agents := PeersOf(h, s).agents;
    var k := agents.order[i];
    && k in agents.at && agents.at[k] in h.sockets
    && var socket := h.sockets[agents.at[k]];
       var named := socket.workspaceName.Some? && socket.workspaceName.value != "";
       entry == ConnectedWorkspace(k, if named then socket.workspaceName.value else k, socket.workspacePath,
                                   i == |agents.order| - 1)
  }

  predicate ListsStored(h: Hub, s: string, entry: ConnectedWorkspace, key: Key) {
    && key.0 == s && key in h.db.workspaces.at
    && var w := h.db.workspaces.at[key];
       w.id !in PeersOf(h, s).agents.at && entry == ConnectedWorkspace(w.id, w.name, w.path, false)
  }

  /** The whole listing: every registered and every stored workspace once. */
  ghost predicate IsWorkspaceList(h: Hub, s: string, list: seq<ConnectedWorkspace>) {
    && NoDup(Ids(list))
    && |PeersOf(h, s).agents.order| <= |list|
    && (forall i :: 0 <= i < |list| ==> Lists(h, s, list, i))
    && (forall key :: key in h.db.workspaces.at && key.0 == s ==> h.db.workspaces.at[key].id in Ids(list))
  }

  lemma {:induction false} EntryAt(h: Hub, p: SessionPeers, keys: seq<string>, i: nat)
    requires i < |keys| && forall k :: k in keys ==> k in p.agents.at && p.agents.at[k] in h.sockets
    ensures |ConnectedEntries(h, p, keys)| == |keys|
    ensures var socket := h.sockets[p.agents.at[keys[i]]];
            ConnectedEntries(h, p, keys)[i]
            == ConnectedWorkspace(keys[i], NonEmpty(socket.workspaceName, keys[i]), socket.workspacePath,
                                  p.activeWorkspaceId == Some(keys[i]))
  {
    hide NonEmpty;
    var init := DropLast(keys);
    assert Last(keys) in keys && forall k :: k in init ==> k in keys;
    if |keys| > 1 {
      EntryAt(h, p, init, if i < |init| then i else 0);
    } else {
      assert init == [];
    }
  }

  ghost predicate Adds(entries: seq<ConnectedWorkspace>, stored: seq<Workspace>, x: ConnectedWorkspace) {
    exists w :: w in stored && w.id !in Ids(entries) && x == ConnectedWorkspace(w.id, w.name, w.path, false)
  }

  lemma {:induction false} AddedAt(entries: seq<ConnectedWorkspace>, stored: seq<Workspace>)
    ensures var r := AddStored(entries, stored);
            && |entries| <= |r| && r[..|entries|] == entries
            && forall i :: |entries| <= i < |r| ==> Adds(entries, stored, r[i])
  {
    if stored != [] {
      var before, w := AddStored(entries, DropLast(stored)), Last(stored);
      AddedAt(entries, DropLast(stored));
      AddStoredActive(entries, DropLast(stored));
      forall i | |entries| <= i < |before| ensures Adds(entries, stored, before[i]) {
        var v :| v in DropLast(stored) && v.id !in Ids(entries)
                 && before[i] == ConnectedWorkspace(v.id, v.name, v.path, false);
        assert v in stored;
      }
      if w.id !in Ids(before) {
        assert Adds(entries, stored, ConnectedWorkspace(w.id, w.name, w.path, false));
      }
    }
  }

  lemma ListingIs(h: Hub, s: string)
    requires Inv(h)
    ensures IsWorkspaceList(h, s, ListConnectedWorkspaces(h, s))
  {
    hide Inv, NoDup, ListConnectedWorkspaces, Ids, Lists;
    InvValid(h);
    var list := ListConnectedWorkspaces(h, s);
    ListMarksDefaultTarget(h, s);
    ListingLength(h, s);
    forall i | 0 <= i < |list| ensures Lists(h, s, list, i) {
      ListingAt(h, s, i);
    }
    forall key | key in h.db.workspaces.at && key.0 == s ensures h.db.workspaces.at[key].id in Ids(list) {
      RowListed(h.db, s, key);
    }
  }

  lemma ListingLength(h: Hub, s: string)
    requires Inv(h)
    ensures h.db.workspaces.Valid() && |PeersOf(h, s).agents.order| <= |ListConnectedWorkspaces(h, s)|
  {
    hide Inv, ConnectedEntries, AddStored;
    InvValid(h);
    EntriesAre(h, s);
    AddedAt(if s in h.peers then ConnectedEntries(h, h.peers[s], h.peers[s].agents.order) else [],
            ListWorkspacesOf(h.db, s));
  }

  lemma ListingAt(h: Hub, s: string, i: nat)
    requires Inv(h) && h.db.workspaces.Valid() && i < |ListConnectedWorkspaces(h, s)|
    ensures Lists(h, s, ListConnectedWorkspaces(h, s), i)
  {
    hide Inv, ConnectedEntries, AddStored, Ids, Lists, ListsAgent, ListsStored;
    var list, p, stored := ListConnectedWorkspaces(h, s), PeersOf(h, s), ListWorkspacesOf(h.db, s);
    var entries := if s in h.peers then ConnectedEntries(h, p, p.agents.order) else [];
    EntriesAre(h, s);
    AddedAt(entries, stored);
    if i < |entries| {
      assert list[i] == list[..|entries|][i];
      AgentListed(h, s, list, i);
    } else {
      var w := AddedOne(entries, stored, list[i]);
      var key := ListedRow(h.db, s, w);
      RowIsListed(h, s, list[i], key, w);
      StoredListed(h, s, list, i, key);
    }
  }

  lemma AddedOne(entries: seq<ConnectedWorkspace>, stored: seq<Workspace>, x: ConnectedWorkspace) returns (w: Workspace)
    requires Adds(entries, stored, x)
    ensures w in stored && w.id !in Ids(entries) && x == ConnectedWorkspace(w.id, w.name, w.path, false)
  {
    w :| w in stored && w.id !in Ids(entries) && x == ConnectedWorkspace(w.id, w.name, w.path, false);
  }

  lemma RowIsListed(h: Hub, s: string, x: ConnectedWorkspace, key: Key, w: Workspace)
    requires key in h.db.workspaces.at && key.0 == s && h.db.workspaces.at[key] == w
    requires w.id !in PeersOf(h, s).agents.at && x == ConnectedWorkspace(w.id, w.name, w.path, false)
    ensures ListsStored(h, s, x, key)
  {
  }

  lemma StoredListed(h: Hub, s: string, list: seq<ConnectedWorkspace>, i: nat, key: Key)
    requires |PeersOf(h, s).agents.order| <= i < |list| && ListsStored(h, s, list[i], key)
    ensures Lists(h, s, list, i)
  {
  }

  lemma AgentListed(h: Hub, s: string, list: seq<ConnectedWorkspace>, i: nat)
    requires i < |PeersOf(h, s).agents.order| && i < |list| && ListsAgent(h, s, list[i], i)
    ensures Lists(h, s, list, i)
  {
  }

  lemma EntriesAre(h: Hub, s: string)
    requires Inv(h)
    ensures var p := PeersOf(h, s);
            var entries := if s in h.peers then ConnectedEntries(h, p, p.agents.order) else [];
            && |entries| == |p.agents.order|
            && (forall i :: 0 <= i < |entries| ==> ListsAgent(h, s, entries[i], i))
            && (forall k :: k in Ids(entries) <==> k in p.agents.at)
  {
    hide ConnectedEntries, NoDup, Filter, LastHello, Sound, LogInv, AR.Inv, SentInv;
    if s in h.peers {
      var p := h.peers[s];
      assert PeersOk(h.sockets, h.hellos, s, p);
      forall k | k in p.agents.order ensures k in p.agents.at && p.agents.at[k] in h.sockets {
        assert AgentUnder(h.sockets, s, k, p.agents.at[k]);
      }
      ConnectedActive(h, p, p.agents.order);
      EntryCount(h, p, p.agents.order);
      forall i | 0 <= i < |p.agents.order| ensures ListsAgent(h, s, ConnectedEntries(h, p, p.agents.order)[i], i) {
        EntryAt(h, p, p.agents.order, i);
        if i < |p.agents.order| - 1 {
          NoDupAt(p.agents.order, i, |p.agents.order| - 1);
        }
      }
    } else {
      assert Ids([]) == [];
    }
  }

  lemma EntryCount(h: Hub, p: SessionPeers, keys: seq<string>)
    requires forall k :: k in keys ==> k in p.agents.at && p.agents.at[k] in h.sockets
    ensures |ConnectedEntries(h, p, keys)| == |keys|
  {
    if keys != [] {
      EntryAt(h, p, keys, 0);
    }
  }

  /** The rows of a session are what is listed of it. */
  lemma {:induction false} RowsAt(workspaces: OMap<Key, Workspace>, keys: seq<Key>, s: string, w: Workspace)
    requires forall k :: k in keys ==> k in workspaces.at
    ensures w in WorkspacesAt(workspaces, keys, s) <==> exists k :: k in keys && k.0 == s && workspaces.at[k] == w
  {
    if keys != [] {
      var init := DropLast(keys);
      assert keys == init + [Last(keys)];
      RowsAt(workspaces, init, s, w);
    }
  }

  lemma ListedRow(db: Db, s: string, w: Workspace) returns (key: Key)
    requires db.workspaces.Valid() && w in ListWorkspacesOf(db, s)
    ensures key in db.workspaces.at && key.0 == s && db.workspaces.at[key] == w
  {
    assert w in multiset(ListWorkspacesOf(db, s));
    RowsAt(db.workspaces, db.workspaces.order, s, w);
    key :| key in db.workspaces.order && key.0 == s && db.workspaces.at[key] == w;
  }

  lemma RowListed(db: Db, s: string, key: Key)
    requires db.workspaces.Valid() && key in db.workspaces.at && key.0 == s
    ensures db.workspaces.at[key] in ListWorkspacesOf(db, s)
  {
    RowsAt(db.workspaces, db.workspaces.order, s, db.workspaces.at[key]);
    assert db.workspaces.at[key] in multiset(WorkspacesOf(db, s));
    assert db.workspaces.at[key] in multiset(ListWorkspacesOf(db, s));
  }

  /** The first frame authenticates exactly when its token verifies and its session is stored: the socket
      gets the claims, a mobile becomes the current one, the socket is handed the workspaces and the
      history, and then everybody is told who is there. */
  lemma AuthFrame(codec: Codec, h: Hub, ws: SocketId, msg: Msg, io: Io) returns (list: seq<ConnectedWorkspace>)
    requires Inv(h) && Enabled(h, Message(ws, Some(msg), io)) && h.sockets[ws].claims.None?
    ensures var h' := Step(codec, h, Message(ws, Some(msg), io));
            if msg.verified.Some? && msg.verified.value.sessionId in h.db.sessions then
              var s, role := msg.verified.value.sessionId, msg.verified.value.role;
              && h'.sockets == h.sockets[ws := h.sockets[ws].(claims := Some(Claims(s, role)))]
              && MobileIn(h', s) == (if role == Mobile then [ws] else MobileIn(h, s))
              && PeersOf(h', s).agents == PeersOf(h, s).agents
              && IsWorkspaceList(h', s, list)
              && h'.sent == h.sent + Deliveries(h', [ws], AuthOk(role, s, list, io.listing)) + StatusToAll(h', s)
              && h'.db == h.db && h'.appended == h.appended && h'.requests == h.requests
            else h' == Turned(h, ws)
  {
    hide Inv, Deliveries, AgentsIn, StatusIn, IsWorkspaceList, AuthStep, IsListing;
    InvValid(h);
    list := [];
    if msg.verified.Some? && msg.verified.value.sessionId in h.db.sessions {
      var claims := msg.verified.value;
      AuthFields(h, ws, claims, io);
      StepInv(codec, h, Message(ws, Some(msg), io));
      list := AuthSends(h, ws, claims, io);
    }
  }

  lemma AuthSends(h: Hub, ws: SocketId, claims: Claims, io: Io) returns (list: seq<ConnectedWorkspace>)
    requires Inv(h) && Live(h, ws) && h.sockets[ws].claims.None? && IsListing(h.db, claims.sessionId, io.listing)
    ensures var h', s := AuthStep(h, ws, claims, io), claims.sessionId;
            && IsWorkspaceList(h', s, list)
            && h'.sent == h.sent + Deliveries(h', [ws], AuthOk(claims.role, s, list, io.listing)) + StatusToAll(h', s)
  {
    hide Inv, Deliveries, AgentsIn, StatusIn, MobileIn, IsWorkspaceList, Broadcast, Send, ListConnectedWorkspaces;
    var s := claims.sessionId;
    var p := PeersOf(h, s);
    var h1 := h.(sockets := h.sockets[ws := h.sockets[ws].(claims := Some(claims))],
                 peers := h.peers[s := if claims.role == Mobile then p.(mobile := Some(ws)) else p]);
    InvValid(h);
    AuthFieldsInv(h, ws, claims);
    InvValid(h1);
    list := ListConnectedWorkspaces(h1, s);
    ListingIs(h1, s);
    var frame := AuthOk(claims.role, s, list, io.listing);
    SendDelivers(h1, ws, frame);
    var h2 := Send(h1, ws, frame);
    Knows(h1, s);
    StatusSend(h2, s);
    SamePeople(h1, h2, s, [ws], frame);
    var h' := Broadcast(h2, s);
    SamePeople(h1, h', s, [ws], frame);
    SamePeople(h1, h2, s, MobileIn(h1, s) + AgentsIn(h1, s), StatusIn(h1, s));
    SamePeople(h1, h', s, MobileIn(h1, s) + AgentsIn(h1, s), StatusIn(h1, s));
    SameListing(h1, h', s, list);
  }

  lemma SameListing(h: Hub, h1: Hub, s: string, list: seq<ConnectedWorkspace>)
    requires IsWorkspaceList(h, s, list) && h1.sockets == h.sockets && h1.peers == h.peers && h1.db == h.db
    ensures IsWorkspaceList(h1, s, list)
  {
    forall i | 0 <= i < |list| ensures Lists(h1, s, list, i) {
      assert Lists(h, s, list, i);
      if i >= |PeersOf(h, s).agents.order| {
        var key :| ListsStored(h, s, list[i], key);
        assert ListsStored(h1, s, list[i], key);
      }
    }
  }

  /** A frame that is not JSON closes its socket and does nothing else. */
  lemma BadFrame(codec: Codec, h: Hub, ws: SocketId, io: Io)
    requires Inv(h) && Enabled(h, Message(ws, None, io))
    ensures Step(codec, h, Message(ws, None, io)) == Turned(h, ws)
  {
    hide Inv;
    InvValid(h);
  }

  // ----- closing and asking -----

  lemma NobodyHears(h: Hub, s: string, event: Frame)
    requires s !in h.peers || (h.peers[s].mobile.None? && h.peers[s].agents.order == [])
    ensures MobileIn(h, s) == [] && AgentsIn(h, s) == []
    ensures Deliveries(h, MobileIn(h, s), event) == [] && StatusToAll(h, s) == []
  {
    assert Deliveries(h, [], event) == [] && [] + AgentsIn(h, s) == [];
    assert Deliveries(h, [], StatusIn(h, s)) == [];
  }

  /** Telling the mobile, then dropping the empty entry or telling everybody. */
  lemma SettleSends(h: Hub, s: string, event: Option<Frame>)
    requires s in h.peers && KnowsAgents(h, s)
    ensures var h' := Settle(if event.Some? then SendMobile(h, s, event.value) else h, s);
            && h' == h.(peers := h'.peers, sent := h'.sent)
            && MobileIn(h', s) == MobileIn(h, s)
            && h'.sent == h.sent + (if event.Some? then Deliveries(h', MobileIn(h', s), event.value) else [])
                          + StatusToAll(h', s)
  {
    hide Deliveries, AgentsIn, StatusIn, StatusToAll, Announced;
    var frame := if event.Some? then event.value else StatusIn(h, s);
    var h1 := if event.Some? then SendMobile(h, s, event.value) else h;
    MobileSend(h, s, frame);
    var h' := Settle(h1, s);
    if h.peers[s].mobile.None? && h.peers[s].agents.order == [] {
      NobodyThen(h, s, h', frame);
      assert h.sent + [] + [] == h.sent;
    } else {
      AnnouncedIs(h, s, frame);
      if event.Some? {
        Announces(h, s, frame);
        assert (h.sent + Deliveries(h, MobileIn(h, s), frame)) + StatusToAll(h, s) == h.sent + Announced(h, s, frame);
      } else {
        StatusSend(h, s);
        assert h.sent + [] + StatusToAll(h, s) == h.sent + StatusToAll(h, s);
      }
      SameAnnounced(h, h', s, frame);
      SamePeople(h, h', s, MobileIn(h, s), frame);
    }
  }

  lemma AnnouncedIs(h: Hub, s: string, event: Frame)
    ensures Announced(h, s, event) == Deliveries(h, MobileIn(h, s), event) + StatusToAll(h, s)
    ensures StatusToAll(h, s) == Deliveries(h, MobileIn(h, s) + AgentsIn(h, s), StatusIn(h, s))
  {
  }

  lemma NobodyThen(h: Hub, s: string, h1: Hub, event: Frame)
    requires s in h.peers && (h1.peers == h.peers || h1.peers == h.peers - {s})
    ensures h.peers[s].mobile.None? && h.peers[s].agents.order == [] ==>
              && MobileIn(h, s) == MobileIn(h1, s) == []
              && Deliveries(h, [], event) == [] && Deliveries(h1, [], event) == [] && StatusToAll(h1, s) == []
  {
    if h.peers[s].mobile.None? && h.peers[s].agents.order == [] {
      NobodyHears(h, s, event);
      NobodyHears(h1, s, event);
    }
  }

  /** The event the mobile is told when this socket closes. */
  function Leaving(socket: Socket): Option<Frame> {
    if socket.workspaceId.Some? then Some(WorkspaceDisconnected(socket.workspaceId.value)) else None
  }

  /** The close event of an authenticated socket: a mobile is current no more; for an agent that said hello
      the mobile is told which workspace went; and whoever is left is told who is there. */
  lemma CloseFrame(codec: Codec, h: Hub, ws: SocketId)
    requires Inv(h) && Live(h, ws)
    ensures var h', socket := Step(codec, h, CloseEvent(ws)), h.sockets[ws];
            && h'.sockets == h.sockets[ws := socket.(ready := Closed)]
            && h'.db == h.db && h'.appended == h.appended && h'.requests == h.requests
            && (socket.claims.None? ==> h'.sent == h.sent && h'.peers == h.peers)
            && (socket.claims.Some? ==>
                 var s := socket.claims.value.sessionId;
                 && MobileIn(h', s) == (if MobileIn(h, s) == [ws] then [] else MobileIn(h, s))
                 && h'.sent == h.sent
                               + (if socket.workspaceId.Some?
                                  then Deliveries(h', MobileIn(h', s), WorkspaceDisconnected(socket.workspaceId.value))
                                  else [])
                               + StatusToAll(h', s))
  {
    hide Inv, Deliveries, AgentsIn, StatusIn, StatusToAll, Settle, SendMobile, PeersAfterClose;
    var socket := h.sockets[ws];
    InvValid(h);
    if socket.claims.Some? {
      var s := socket.claims.value.sessionId;
      if s in h.peers {
        var h1 := SetReady(h, ws, Closed).(peers := h.peers[s := PeersAfterClose(h, ws, s)]);
        CloseSettles(h, ws, s);
        SettleSends(h1, s, Leaving(socket));
        MobileLeaves(h, ws, s);
      } else {
        var h' := SetReady(h, ws, Closed);
        NobodyHears(h', s, Leaving(socket).GetOr(StatusIn(h, s)));
        assert h.sent + [] + [] == h.sent;
        assert MobileIn(h, s) == [];
      }
    }
  }

  lemma CloseSettles(h: Hub, ws: SocketId, s: string)
    requires Inv(h) && Live(h, ws) && s in h.peers
    requires h.sockets[ws].claims.Some? && h.sockets[ws].claims.value.sessionId == s
    ensures var h1 := SetReady(h, ws, Closed).(peers := h.peers[s := PeersAfterClose(h, ws, s)]);
            && KnowsAgents(h1, s)
            && OnClose(h, ws) == Settle(if Leaving(h.sockets[ws]).Some?
                                        then SendMobile(h1, s, Leaving(h.sockets[ws]).value) else h1, s)
  {
    hide Settle, SendMobile, Filter, LastHello, Sound, LogInv, AR.Inv;
    PeersAfterCloseOk(h, ws, s);
    if h.sockets[ws].workspaceId.Some? {
      OnlyAgentsHaveIds(h, ws);
    }
    assert h.peers[s := h.peers[s]] == h.peers;
  }

  lemma OnlyAgentsHaveIds(h: Hub, ws: SocketId)
    requires Inv(h) && ws in h.sockets && h.sockets[ws].workspaceId.Some?
    ensures h.sockets[ws].claims.Some? && h.sockets[ws].claims.value.role == Agent
  {
  }

  lemma MobileLeaves(h: Hub, ws: SocketId, s: string)
    requires Inv(h) && Live(h, ws) && s in h.peers
    requires h.sockets[ws].claims.Some? && h.sockets[ws].claims.value.sessionId == s
    ensures var h1 := SetReady(h, ws, Closed).(peers := h.peers[s := PeersAfterClose(h, ws, s)]);
            MobileIn(h1, s) == if MobileIn(h, s) == [ws] then [] else MobileIn(h, s)
  {
    hide Filter, LastHello, Sound, LogInv, AR.Inv;
    assert PeersOk(h.sockets, h.hellos, s, h.peers[s]);
  }

  /** HTTP asks exactly the open agent its id addresses, for the path, and names the id when it is not empty;
      with no such agent nothing happens. */
  lemma FileFrame(codec: Codec, h: Hub, s: string, workspaceId: Option<string>, path: string, requestId: string)
    requires Inv(h) && Enabled(h, HttpFile(s, workspaceId, path, requestId))
    ensures var h' := Step(codec, h, HttpFile(s, workspaceId, path, requestId));
            var frame := FileRequest(requestId, path, if workspaceId == Some("") then None else workspaceId);
            && (forall to :: Addressed(h, s, workspaceId, to) && IsOpen(h, to) ==>
                 && h'.requests == AR.IssueStep(h.requests, requestId)
                 && h'.sent == h.sent + [Delivery(to, frame)]
                 && h' == h.(requests := h'.requests, sent := h'.sent))
            && ((forall to :: Addressed(h, s, workspaceId, to) ==> !IsOpen(h, to)) ==> h' == h)
  {
    hide Inv, ResolveTargetAgent, Addressed;
    InvValid(h);
    forall to: SocketId
      ensures Addressed(h, s, workspaceId, to) <==> ResolveTargetAgent(h, s, workspaceId) == Some(to)
    {
      AddressedIff(h, s, workspaceId, to);
    }
    var target := ResolveTargetAgent(h, s, workspaceId);
    assert target.Some? ==> Addressed(h, s, workspaceId, target.value);
  }
}
