/** Every step of the hub keeps its invariants, and what it sends stays in one session. */
module RelayHubSteps {
  import opened Options
  import opened Sequences
  import opened OrderedMaps
  import opened Messages
  import opened HistoryLog
  import opened Snapshots
  import opened StoreTables
  import opened RelayHubModel
  import opened RelayHubInvariants
  import AR = AgentRequests

  /** Whatever a step sent, it sent to sockets of session `s`. */
  ghost predicate SendsIn(h: Hub, h': Hub, s: string) {
    && |h.sent| <= |h'.sent|
    && h'.sent[..|h.sent|] == h.sent
    && StaysIn(h', |h.sent|, s)
  }

  lemma OnlySentInv(h: Hub, h': Hub, s: string)
    requires Inv(h) && OnlySent(h, h', s)
    ensures Inv(h') && SendsIn(h, h', s)
  {
    hide Sound, AR.Inv, LogInv, AgentsOk, Filter;
    forall d | d in h'.sent ensures d.to in h'.sockets && h'.sockets[d.to].claims.Some? {
      var i :| 0 <= i < |h'.sent| && h'.sent[i] == d;
      if i < |h.sent| {
        assert h'.sent[..|h.sent|][i] == d;
        assert d in h.sent;
      } else {
        assert Belongs(h', d, s);
      }
    }
  }

  /** The session a socket authenticated for. */
  function SessionOf(h: Hub, ws: SocketId): string
    requires ws in h.sockets && h.sockets[ws].claims.Some?
  {
    h.sockets[ws].claims.value.sessionId
  }

  // ----- changes of the ready state -----

  /** Sockets keep who they are, and none is closed that was not. */
  ghost predicate SameIdentities(sockets: map<SocketId, Socket>, sockets': map<SocketId, Socket>) {
    && (forall w :: w in sockets' ==> w in sockets)
    && forall w :: w in sockets ==>
      && w in sockets'
      && sockets'[w].claims == sockets[w].claims
      && sockets'[w].workspaceId == sockets[w].workspaceId
      && (sockets[w].ready != Closed ==> sockets'[w].ready != Closed)
  }

  lemma PeersInvSameIdentities(h: Hub, sockets': map<SocketId, Socket>)
    requires PeersInv(h) && SameIdentities(h.sockets, sockets')
    ensures PeersInv(h.(sockets := sockets'))
  {
    forall s | s in h.peers ensures PeersOk(sockets', h.hellos, s, h.peers[s]) {
      forall k | k in h.peers[s].agents.at ensures AgentUnder(sockets', s, k, h.peers[s].agents.at[k]) {
        assert AgentUnder(h.sockets, s, k, h.peers[s].agents.at[k]);
      }
    }
    forall s | s in h.peers ensures exists ws :: Member(sockets', s, ws) {
      var ws :| Member(h.sockets, s, ws);
      assert Member(sockets', s, ws);
    }
  }

  lemma BeginCloseInv(h: Hub, ws: SocketId)
    requires Inv(h) && ws in h.sockets
    ensures Inv(BeginClose(h, ws)) && BeginClose(h, ws).sent == h.sent
  {
    hide Sound, AR.Inv, LogInv, LastHello, Filter;
    PeersInvSameIdentities(h, BeginClose(h, ws).sockets);
  }

  lemma ConnectInv(h: Hub, ws: SocketId)
    requires Inv(h) && ws !in h.sockets
    ensures Inv(h.(sockets := h.sockets[ws := FRESH_SOCKET]))
  {
    hide Sound, AR.Inv, LogInv, LastHello, Filter;
    var sockets' := h.sockets[ws := FRESH_SOCKET];
    forall s | s in h.peers ensures PeersOk(sockets', h.hellos, s, h.peers[s]) {
      forall k | k in h.peers[s].agents.at ensures AgentUnder(sockets', s, k, h.peers[s].agents.at[k]) {
        assert AgentUnder(h.sockets, s, k, h.peers[s].agents.at[k]);
      }
    }
    forall s | s in h.peers ensures exists w :: Member(sockets', s, w) {
      var w :| Member(h.sockets, s, w);
      assert Member(sockets', s, w);
    }
  }

  // ----- a change of one socket and its own session -----

  /** `h1` differs from `h` in socket `ws`, in session `s` and in a hello for `s` at most. */
  ghost predicate OnlyOwn(h: Hub, h1: Hub, ws: SocketId, s: string) {
    && (forall o :: o in h1.peers && o != s ==> o in h.peers && h1.peers[o] == h.peers[o])
    && (forall w :: w in h.sockets && w != ws ==> w in h1.sockets && h1.sockets[w] == h.sockets[w])
    && (ws in h.sockets && h.sockets[ws].claims.Some? ==> SessionOf(h, ws) == s)
    && (h1.hellos == h.hellos || (h1.hellos != [] && DropLast(h1.hellos) == h.hellos && Last(h1.hellos).sessionId == s))
  }

  lemma OwnSessionSuffices(h: Hub, h1: Hub, ws: SocketId, s: string)
    requires PeersInv(h) && OnlyOwn(h, h1, ws, s) && SocketsOk(h1.sockets)
    requires s in h1.peers ==> PeersOk(h1.sockets, h1.hellos, s, h1.peers[s])
    requires s in h1.peers ==> exists w :: Member(h1.sockets, s, w)
    ensures PeersInv(h1)
  {
    hide PeersOk, LastHello;
    forall o | o in h1.peers && o != s
      ensures PeersOk(h1.sockets, h1.hellos, o, h1.peers[o]) && exists w :: Member(h1.sockets, o, w)
    {
      assert PeersOk(h.sockets, h.hellos, o, h.peers[o]);
      PeersOkElsewhere(h, h1, ws, s, o);
      var w :| Member(h.sockets, o, w);
      assert Member(h1.sockets, o, w);
    }
  }

  /** Whoever is registered is a member. */
  lemma RegisteredIsMember(sockets: map<SocketId, Socket>, hellos: seq<Hello>, s: string, p: SessionPeers)
    requires PeersOk(sockets, hellos, s, p) && (p.mobile.Some? || p.agents.order != [])
    ensures exists w :: Member(sockets, s, w)
  {
    if p.mobile.Some? {
      assert Member(sockets, s, p.mobile.value);
    } else {
      var k := Last(p.agents.order);
      assert k in p.agents.order && k in p.agents.at;
      assert AgentUnder(sockets, s, k, p.agents.at[k]);
      assert Member(sockets, s, p.agents.at[k]);
    }
  }

  // ----- the store -----

  lemma StoreOpInv(codec: Codec, h: Hub, op: Op)
    requires Inv(h) && (FromOutside(op) || op.UpsertWorkspace? || op.UpsertSnapshot?)
    ensures Inv(h.(db := Apply(codec, h.db, op)))
  {
    ApplySound(codec, h.db, op);
    HistoryShrinks(codec, h.db, op);
  }

  lemma HistoryShrinks(codec: Codec, db: Db, op: Op)
    requires !op.Append?
    ensures forall r :: r in Apply(codec, db, op).history ==> r in db.history
    ensures Pairwise(db.history, DifferentMessages) ==> Pairwise(Apply(codec, db, op).history, DifferentMessages)
  {
    match op
    case PruneHistory(now, scope) => PruneShrinks(db, now, scope);
    case PruneExpired(now) =>
      FilterMembers(db.history, OutsideSessions(Expired(db, now)));
      FilterDifferent(db.history, OutsideSessions(Expired(db, now)));
      PruneShrinks(DeleteSessionsDb(db, Expired(db, now)), now, None);
    case _ =>
  }

  lemma PruneShrinks(db: Db, now: int, scope: Option<string>)
    ensures forall r :: r in PruneHistoryDb(db, now, scope).history ==> r in db.history
    ensures Pairwise(db.history, DifferentMessages) ==>
              Pairwise(PruneHistoryDb(db, now, scope).history, DifferentMessages)
  {
    var cutoff := now - HISTORY_RETENTION_MS;
    if OneSession(scope) {
      FilterMembers(db.history, RecentAndUntrimmed(db.history, cutoff, scope.value));
      FilterDifferent(db.history, RecentAndUntrimmed(db.history, cutoff, scope.value));
    } else {
      var aged := DeleteOlder(db.history, cutoff);
      FilterMembers(db.history, Recent(cutoff));
      FilterMembers(aged, Untrimmed(aged, db.sessions.Keys));
      FilterDifferent(db.history, Recent(cutoff));
      FilterDifferent(aged, Untrimmed(aged, db.sessions.Keys));
    }
  }

  lemma FilterDifferent(rows: seq<Row>, keep: Row -> bool)
    ensures Pairwise(rows, DifferentMessages) ==> Pairwise(Filter(rows, keep), DifferentMessages)
  {
    if Pairwise(rows, DifferentMessages) {
      PairwiseFilter(rows, keep, DifferentMessages);
    }
  }

  ghost predicate FreshMessage(h: Hub, id: string) {
    forall env :: env in h.appended ==> env.id != id
  }

  lemma {:induction false} MessageIdsOf(envs: seq<Envelope>, id: string)
    ensures id in MessageIds(envs) <==> exists env :: env in envs && env.id == id
  {
    if envs != [] {
      assert envs == DropLast(envs) + [Last(envs)];
      MessageIdsOf(DropLast(envs), id);
      if Last(envs).id == id {
        assert Last(envs) in envs;
      }
    }
  }

  lemma AppendInv(h: Hub, env: Envelope)
    requires Inv(h) && env.sessionId in h.db.sessions && FreshMessage(h, env.id)
    ensures Inv(h.(db := AppendDb(h.db, env), appended := h.appended + [env]))
  {
    AppendSound(h.db, env);
    var inserted := Insert(h.db.history, env);
    FilterMembers(inserted, Untrimmed(inserted, {env.sessionId}));
    PairwisePush(h.db.history, Row(MaxRowid(h.db.history) + 1, env), DifferentMessages);
    FilterDifferent(inserted, Untrimmed(inserted, {env.sessionId}));
    MessageIdsOf(h.appended, env.id);
    assert DropLast(h.appended + [env]) == h.appended;
    NoDupPush(MessageIds(h.appended), env.id);
  }

  // ----- authentication -----

  lemma EmptyAgentsOk(sockets: map<SocketId, Socket>, hellos: seq<Hello>, s: string)
    ensures AgentsOk(sockets, hellos, s, Empty())
  {
  }

  lemma PeersOfOk(h: Hub, s: string)
    requires PeersInv(h)
    ensures PeersOk(h.sockets, h.hellos, s, PeersOf(h, s))
  {
    EmptyAgentsOk(h.sockets, h.hellos, s);
  }

  lemma AuthFieldsInv(h: Hub, ws: SocketId, claims: Claims)
    requires Inv(h) && Live(h, ws) && h.sockets[ws].claims.None?
    ensures var p := PeersOf(h, claims.sessionId);
            var h1 := h.(sockets := h.sockets[ws := h.sockets[ws].(claims := Some(claims))],
                         peers := h.peers[claims.sessionId :=
                                            if claims.role == Mobile then p.(mobile := Some(ws)) else p]);
            Inv(h1)
  {
    hide Sound, AR.Inv, LogInv, PeersOk;
    var p := PeersOf(h, claims.sessionId);
    var h1 := h.(sockets := h.sockets[ws := h.sockets[ws].(claims := Some(claims))],
                 peers := h.peers[claims.sessionId := if claims.role == Mobile then p.(mobile := Some(ws)) else p]);
    InstalledOk(h, ws, claims);
    assert Member(h1.sockets, claims.sessionId, ws);
    OwnSessionSuffices(h, h1, ws, claims.sessionId);
  }

  /** An authenticating socket was registered nowhere, so nobody else's registration depends on it. */
  lemma InstalledOk(h: Hub, ws: SocketId, claims: Claims)
    requires PeersInv(h) && Live(h, ws) && h.sockets[ws].claims.None?
    ensures var p := PeersOf(h, claims.sessionId);
            PeersOk(h.sockets[ws := h.sockets[ws].(claims := Some(claims))], h.hellos, claims.sessionId,
                    if claims.role == Mobile then p.(mobile := Some(ws)) else p)
  {
    hide LastHello, Filter;
    var s := claims.sessionId;
    var p := PeersOf(h, s);
    PeersOfOk(h, s);
    forall k | k in p.agents.at ensures p.agents.at[k] != ws {
      assert AgentUnder(h.sockets, s, k, p.agents.at[k]);
    }
    AgentsOkElsewhere(h.sockets, h.sockets[ws := h.sockets[ws].(claims := Some(claims))], h.hellos, s, p.agents, ws);
  }

  lemma ListingOfSession(h: Hub, s: string, listing: seq<Envelope>)
    requires IsListing(h.db, s, listing)
    ensures forall env :: env in listing ==> env.sessionId == s && exists r :: r in h.db.history && r.env == env
  {
    var rows := OfSession(h.db.history, s);
    FilterMembers(h.db.history, InSession(s));
    forall env | env in listing ensures env.sessionId == s && exists r :: r in h.db.history && r.env == env {
      assert env in multiset(listing);
      assert env in Envelopes(rows);
      var i :| 0 <= i < |Envelopes(rows)| && Envelopes(rows)[i] == env;
      MapAt(rows, ENVELOPE_OF, i);
      assert rows[i] in rows;
    }
  }

  lemma AuthInv(h: Hub, ws: SocketId, claims: Claims, io: Io)
    requires Inv(h) && Live(h, ws) && h.sockets[ws].claims.None? && IsListing(h.db, claims.sessionId, io.listing)
    ensures Inv(AuthStep(h, ws, claims, io)) && SendsIn(h, AuthStep(h, ws, claims, io), claims.sessionId)
  {
    hide AR.Inv, LogInv, AgentsOk, Filter;
    var s := claims.sessionId;
    var p := PeersOf(h, s);
    var h1 := h.(sockets := h.sockets[ws := h.sockets[ws].(claims := Some(claims))],
                 peers := h.peers[s := if claims.role == Mobile then p.(mobile := Some(ws)) else p]);
    AuthFieldsInv(h, ws, claims);
    ListingOfSession(h, s, io.listing);
    var frame := AuthOk(claims.role, s, ListConnectedWorkspaces(h1, s), io.listing);
    var h2 := Send(h1, ws, frame);
    SendOnly(h1, ws, frame, s);
    OnlySentInv(h1, h2, s);
    BroadcastOnly(h2, s);
    OnlySentTransitive(h1, h2, Broadcast(h2, s), s);
    OnlySentInv(h1, Broadcast(h2, s), s);
  }

  // ----- hello -----

  lemma HelloFieldsInv(h: Hub, ws: SocketId, s: string, id: string, name: string, path: Option<string>)
    requires Inv(h) && Live(h, ws) && h.sockets[ws].claims == Some(Claims(s, Agent)) && id != ""
    ensures Inv(HelloFields(h, ws, s, id, name, path))
    ensures HelloFields(h, ws, s, id, name, path).sent == h.sent
  {
    hide Sound, AR.Inv, LogInv, PeersOk, Rekeyed;
    var h1 := HelloFields(h, ws, s, id, name, path);
    HelloOwnOk(h, ws, s, id, name, path);
    assert DropLast(h1.hellos) == h.hellos;
    assert Member(h1.sockets, s, ws);
    OwnSessionSuffices(h, h1, ws, s);
  }

  lemma HelloOwnOk(h: Hub, ws: SocketId, s: string, id: string, name: string, path: Option<string>)
    requires PeersInv(h) && Live(h, ws) && h.sockets[ws].claims == Some(Claims(s, Agent))
    ensures var h1 := HelloFields(h, ws, s, id, name, path);
            PeersOk(h1.sockets, h1.hellos, s, h1.peers[s])
  {
    hide AgentsOk, LastHello, Rekeyed;
    var h1 := HelloFields(h, ws, s, id, name, path);
    PeersOfOk(h, s);
    RekeyedOk(h.sockets, h1.sockets, h.hellos, s, PeersOf(h, s).agents, id, ws);
  }

  lemma RegisterInv(codec: Codec, h: Hub, ws: SocketId, s: string, id: string, name: string, path: Option<string>,
                    now: int)
    requires Inv(h) && Live(h, ws) && h.sockets[ws].claims == Some(Claims(s, Agent)) && id != ""
    ensures Inv(RegisterStep(h, ws, s, id, name, path, now).0)
    ensures SendsIn(h, RegisterStep(h, ws, s, id, name, path, now).0, s)
  {
    hide Sound, AR.Inv, AgentsOk, Filter, LogInv, PeersOk;
    var h1 := HelloFields(h, ws, s, id, name, path);
    var stored := if name != "" then name else id;
    HelloFieldsInv(h, ws, s, id, name, path);
    if s in h.db.sessions {
      var w := Workspace(id, stored, path, now);
      StoreOpInv(codec, h1, UpsertWorkspace(s, w));
      AnnounceInv(h1.(db := UpsertWorkspaceDb(h1.db, s, w)), s, WorkspaceConnected(id, stored));
    }
  }

  /** A workspace event to the mobile, then the status to everybody. */
  lemma AnnounceInv(h: Hub, s: string, frame: Frame)
    requires Inv(h) && FrameOf(frame, s)
    ensures Inv(Broadcast(SendMobile(h, s, frame), s)) && SendsIn(h, Broadcast(SendMobile(h, s, frame), s), s)
  {
    var h1 := SendMobile(h, s, frame);
    SendMobileOnly(h, s, frame);
    BroadcastOnly(h1, s);
    OnlySentTransitive(h, h1, Broadcast(h1, s), s);
    OnlySentInv(h, Broadcast(h1, s), s);
  }

  // ----- other frames -----

  /** A resolved agent is a live agent of the session. */
  lemma ResolvedIsMember(h: Hub, s: string, requested: Option<string>)
    requires PeersInv(h)
    ensures var target := ResolveTargetAgent(h, s, requested); target.Some? ==> Member(h.sockets, s, target.value)
  {
    var target := ResolveTargetAgent(h, s, requested);
    if target.Some? {
      var agents := h.peers[s].agents;
      assert PeersOk(h.sockets, h.hellos, s, h.peers[s]);
      var k :| k in agents.at && agents.at[k] == target.value;
      assert AgentUnder(h.sockets, s, k, agents.at[k]);
    }
  }

  lemma ForwardInv(h: Hub, ws: SocketId, claims: Claims, msg: Msg, io: Io)
    requires Inv(h) && Live(h, ws) && FreshMessage(h, io.uuid)
    ensures Inv(ForwardStep(h, ws, claims, msg, io))
    ensures SendsIn(h, ForwardStep(h, ws, claims, msg, io), claims.sessionId)
  {
    hide Sound, AR.Inv, LogInv, AgentsOk, Filter;
    var s := claims.sessionId;
    if s !in h.db.sessions {
      BeginCloseInv(h, ws);
    } else {
      var env := Envelope(io.uuid, s, claims.role, io.now, BodyOf(h.sockets[ws], claims.role, msg));
      var h1 := h.(db := AppendDb(h.db, env), appended := h.appended + [env]);
      AppendInv(h, env);
      var h2 := ForwardStep(h, ws, claims, msg, io);
      if claims.role == Agent {
        SendMobileOnly(h1, s, Relayed(env));
      } else {
        var target := ResolveTargetAgent(h1, s, TargetWorkspace(h.sockets[ws], claims.role, msg));
        ResolvedIsMember(h1, s, TargetWorkspace(h.sockets[ws], claims.role, msg));
        if target.Some? {
          SendOnly(h1, target.value, Relayed(env), s);
        }
      }
      OnlySentInv(h1, h2, s);
    }
  }

  lemma LaterFrameInv(codec: Codec, h: Hub, ws: SocketId, claims: Claims, msg: Msg, io: Io)
    requires Inv(h) && Live(h, ws) && h.sockets[ws].claims == Some(claims) && FreshMessage(h, io.uuid)
    ensures Inv(LaterFrame(codec, h, ws, claims, msg, io).0)
    ensures SendsIn(h, LaterFrame(codec, h, ws, claims, msg, io).0, claims.sessionId)
  {
    hide Sound, AR.Inv, LogInv, AgentsOk, Filter;
    if claims.role == Agent && msg.kind == Some("agent_hello") {
      var id := HelloId(msg);
      if id != "" {
        RegisterInv(codec, h, ws, claims.sessionId, id,
                    msg.workspaceName.GetOr(msg.workspaceId.GetOr("")), msg.workspacePath, io.now);
      }
    } else if claims.role == Agent && msg.kind == Some("relay_file_response") && msg.requestId.Some? {
      AR.StepInv(h.requests, AR.Respond(msg.requestId.value, msg.reply));
    } else if claims.role == Agent && msg.kind == Some("status_snapshot") {
      var (h1, outcome) := SnapshotStep(codec, h, ws, claims.sessionId, msg, io.now);
      var id := TargetWorkspace(h.sockets[ws], Agent, msg);
      if id.Some? && id.value != "" && claims.sessionId in h.db.sessions {
        StoreOpInv(codec, h, UpsertSnapshot(claims.sessionId, id.value, Update(StatusPayload(msg), io.now)));
      }
      if outcome == Handled {
        ForwardInv(h1, ws, claims, msg, io);
      }
    } else {
      ForwardInv(h, ws, claims, msg, io);
    }
  }

  /** The frames that write a row whose session they do not check. */
  predicate WritesUnchecked(socket: Socket, msg: Msg) {
    || (msg.kind == Some("agent_hello") && HelloId(msg) != "")
    || (msg.kind == Some("status_snapshot") && TargetWorkspace(socket, Agent, msg).GetOr("") != "")
  }

  /** A frame ends in a failing foreign key exactly when it is such a frame of an agent whose session is
      gone.  Nothing is sent, stored or appended then, but a hello has taken its id by that time. */
  lemma ForeignKeyFailsIff(codec: Codec, h: Hub, ws: SocketId, raw: Option<Msg>, io: Io)
    requires Inv(h) && Live(h, ws)
    ensures var (h', outcome), claims := OnMessage(codec, h, ws, raw, io), h.sockets[ws].claims;
            && (outcome == ForeignKeyFailure <==>
                  && raw.Some? && claims.Some? && claims.value.role == Agent
                  && claims.value.sessionId !in h.db.sessions && WritesUnchecked(h.sockets[ws], raw.value))
            && (outcome == ForeignKeyFailure ==>
                  && h'.sent == h.sent && h'.db == h.db && h'.appended == h.appended && h'.requests == h.requests
                  && if raw.value.kind == Some("agent_hello")
                     then PeersOf(h', claims.value.sessionId).agents.Get(HelloId(raw.value)) == Some(ws)
                     else h' == h)
  {
    hide Inv, AuthStep, ForwardStep, Rekeyed;
    if raw.Some? && h.sockets[ws].claims.Some? && HelloId(raw.value) != "" {
      var agents := PeersOf(h, SessionOf(h, ws)).agents;
      TakesItsId(agents, h.sockets[ws].workspaceId, HelloId(raw.value), ws);
    }
  }

  lemma TakesItsId(agents: OMap<string, SocketId>, was: Option<string>, id: string, ws: SocketId)
    ensures Rekeyed(agents, was, id, ws).Get(id) == Some(ws)
  {
  }

  // ----- close -----

  /** A socket is registered in no session but its own, and there only in its role and under its id. */
  lemma NotElsewhere(h: Hub, ws: SocketId, s: string)
    requires PeersInv(h) && ws in h.sockets && s in h.peers
    ensures h.sockets[ws].claims != Some(Claims(s, Mobile)) ==> h.peers[s].mobile != Some(ws)
    ensures forall k :: k in h.peers[s].agents.at && h.peers[s].agents.at[k] == ws ==>
      h.sockets[ws].claims == Some(Claims(s, Agent)) && h.sockets[ws].workspaceId == Some(k)
  {
    forall k | k in h.peers[s].agents.at && h.peers[s].agents.at[k] == ws
      ensures h.sockets[ws].claims == Some(Claims(s, Agent)) && h.sockets[ws].workspaceId == Some(k)
    {
      assert AgentUnder(h.sockets, s, k, h.peers[s].agents.at[k]);
    }
  }

  /** What the close event leaves of the closing socket's own session. */
  function PeersAfterClose(h: Hub, ws: SocketId, s: string): SessionPeers
    requires ws in h.sockets && s in h.peers
  {
    var p := h.peers[s];
    if h.sockets[ws].claims == Some(Claims(s, Mobile)) then (if p.mobile == Some(ws) then p.(mobile := None) else p)
    else if h.sockets[ws].workspaceId.Some? then WithoutAgent(p, h.sockets[ws].workspaceId.value)
    else p
  }

  lemma PeersAfterCloseOk(h: Hub, ws: SocketId, s: string)
    requires PeersInv(h) && Live(h, ws) && s in h.peers
    requires h.sockets[ws].claims.Some? && h.sockets[ws].claims.value.sessionId == s
    ensures PeersOk(SetReady(h, ws, Closed).sockets, h.hellos, s, PeersAfterClose(h, ws, s))
    ensures PeersAfterClose(h, ws, s).mobile != Some(ws)
  {
    var sockets' := SetReady(h, ws, Closed).sockets;
    var p, p' := h.peers[s], PeersAfterClose(h, ws, s);
    NotElsewhere(h, ws, s);
    if h.sockets[ws].claims.value.role == Agent && h.sockets[ws].workspaceId.Some? {
      var k := h.sockets[ws].workspaceId.value;
      DeleteAgentsOk(h.sockets, h.hellos, s, p.agents, k);
      WithoutAgentActive(p, k);
    }
    AgentsOkElsewhere(h.sockets, sockets', h.hellos, s, p'.agents, ws);
  }

  lemma CloseFieldsInv(h: Hub, ws: SocketId, s: string)
    requires Inv(h) && Live(h, ws) && s in h.peers
    requires h.sockets[ws].claims.Some? && h.sockets[ws].claims.value.sessionId == s
    requires PeersAfterClose(h, ws, s).mobile.Some? || PeersAfterClose(h, ws, s).agents.order != []
    ensures Inv(SetReady(h, ws, Closed).(peers := h.peers[s := PeersAfterClose(h, ws, s)]))
  {
    hide Sound, AR.Inv, LogInv, PeersOk, PeersAfterClose;
    var p' := PeersAfterClose(h, ws, s);
    var h1 := SetReady(h, ws, Closed).(peers := h.peers[s := p']);
    PeersAfterCloseOk(h, ws, s);
    RegisteredIsMember(h1.sockets, h1.hellos, s, p');
    OwnSessionSuffices(h, h1, ws, s);
  }

  lemma DropPeersInv(h: Hub, ws: SocketId, gone: set<string>)
    requires Inv(h) && Live(h, ws)
    requires h.sockets[ws].claims.Some? ==> SessionOf(h, ws) in gone || SessionOf(h, ws) !in h.peers
    ensures Inv(SetReady(h, ws, Closed).(peers := h.peers - gone))
  {
    hide Sound, AR.Inv, LogInv, LastHello, Filter;
    var h1 := SetReady(h, ws, Closed).(peers := h.peers - gone);
    forall o | o in h1.peers
      ensures PeersOk(h1.sockets, h1.hellos, o, h1.peers[o]) && exists w :: Member(h1.sockets, o, w)
    {
      NotElsewhere(h, ws, o);
      AgentsOkElsewhere(h.sockets, h1.sockets, h.hellos, o, h.peers[o].agents, ws);
      var w :| Member(h.sockets, o, w);
      assert Member(h1.sockets, o, w);
    }
  }

  lemma CloseInv(h: Hub, ws: SocketId)
    requires Inv(h) && Live(h, ws)
    ensures Inv(OnClose(h, ws))
    ensures h.sockets[ws].claims.Some? ==> SendsIn(h, OnClose(h, ws), SessionOf(h, ws))
    ensures h.sockets[ws].claims.None? ==> OnClose(h, ws).sent == h.sent
  {
    hide Sound, AR.Inv, AgentsOk, Filter, LogInv, PeersOk;
    var h0, socket := SetReady(h, ws, Closed), h.sockets[ws];
    if socket.claims.None? || socket.claims.value.sessionId !in h.peers {
      assert h.peers - {} == h.peers;
      DropPeersInv(h, ws, {});
      assert h0.(peers := h.peers) == h0;
    } else {
      var s := socket.claims.value.sessionId;
      var p' := PeersAfterClose(h, ws, s);
      var h1 := h0.(peers := h.peers[s := p']);
      assert h1.peers - {s} == h.peers - {s};
      PeersAfterCloseOk(h, ws, s);
      var isAgent := socket.claims.value.role == Agent && socket.workspaceId.Some?;
      if p'.mobile.None? && p'.agents.order == [] {
        DropPeersInv(h, ws, {s});
        assert p' == h.peers[s] ==> h1.peers == h.peers;
        assert OnClose(h, ws) == h0.(peers := h.peers - {s});
      } else {
        CloseFieldsInv(h, ws, s);
        assert p' == h.peers[s] ==> h1 == h0;
        if isAgent {
          AnnounceInv(h1, s, WorkspaceDisconnected(socket.workspaceId.value));
        } else {
          BroadcastOnly(h1, s);
          OnlySentInv(h1, Broadcast(h1, s), s);
        }
      }
    }
  }
}
