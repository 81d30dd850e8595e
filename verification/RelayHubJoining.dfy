/** What a mobile receives: the history kept when it joins, then every agent message after, once each. */
module RelayHubJoining {
  import opened Options
  import opened Sequences
  import opened OrderedMaps
  import opened Messages
  import opened HistoryLog
  import opened Snapshots
  import opened StoreTables
  import opened RelayHubModel
  import opened RelayHubInvariants
  import opened RelayHubSteps
  import opened RelayHubRuns
  import SR = StoreRuns
  import AR = AgentRequests

  /** The messages a frame carries. */
  function Carried(frame: Frame): seq<Envelope> {
    match frame
    case AuthOk(_, _, _, history) => history
    case Relayed(env) => [env]
    case _ => []
  }

  /** The messages socket `m` was handed, in order. */
  function EnvelopesTo(sent: seq<Delivery>, m: SocketId): seq<Envelope> {
    if sent == [] then []
    else EnvelopesTo(DropLast(sent), m) + if Last(sent).to == m then Carried(Last(sent).frame) else []
  }

  function FromAgent(s: string): Envelope -> bool {
    (env: Envelope) => env.sessionId == s && env.source == Agent
  }

  /** The messages agents of `s` sent, in order. */
  function AgentEnvelopes(envs: seq<Envelope>, s: string): seq<Envelope> {
    Filter(envs, FromAgent(s))
  }

  // ----- one send -----

  lemma SendCarries(h: Hub, to: SocketId, frame: Frame, m: SocketId)
    ensures EnvelopesTo(Send(h, to, frame).sent, m)
         == EnvelopesTo(h.sent, m) + if to == m && IsOpen(h, m) then Carried(frame) else []
  {
    if IsOpen(h, to) {
      assert DropLast(h.sent + [Delivery(to, frame)]) == h.sent;
    }
  }

  lemma {:induction false} SendAllCarriesNothing(h: Hub, to: seq<SocketId>, frame: Frame, m: SocketId)
    requires Carried(frame) == []
    ensures EnvelopesTo(SendAll(h, to, frame).sent, m) == EnvelopesTo(h.sent, m)
  {
    if to != [] {
      SendAllCarriesNothing(h, DropLast(to), frame, m);
      SendCarries(SendAll(h, DropLast(to), frame), Last(to), frame, m);
    }
  }

  lemma BroadcastCarriesNothing(h: Hub, s: string, m: SocketId)
    ensures EnvelopesTo(Broadcast(h, s).sent, m) == EnvelopesTo(h.sent, m)
    ensures Broadcast(h, s).appended == h.appended
  {
    if s in h.peers {
      SendAllCarriesNothing(h, Recipients(h.peers[s]), StatusOf(h.peers[s]), m);
      SendAllFields(h, Recipients(h.peers[s]), StatusOf(h.peers[s]));
    }
  }

  lemma SendMobileCarriesNothing(h: Hub, s: string, frame: Frame, m: SocketId)
    requires Carried(frame) == []
    ensures EnvelopesTo(SendMobile(h, s, frame).sent, m) == EnvelopesTo(h.sent, m)
    ensures SendMobile(h, s, frame).appended == h.appended
  {
    if s in h.peers && h.peers[s].mobile.Some? {
      SendCarries(h, h.peers[s].mobile.value, frame, m);
    }
  }

  // ----- one step, seen by the current mobile -----

  /** `m` is the current mobile of `s` and its socket is open. */
  predicate Current(h: Hub, s: string, m: SocketId) {
    s in h.peers && h.peers[s].mobile == Some(m) && IsOpen(h, m)
  }

  /** From `h` to `h'` mobile `m` was handed exactly the agent messages of `s` appended meanwhile. */
  ghost predicate KeepsUp(h: Hub, h': Hub, s: string, m: SocketId) {
    && |h.appended| <= |h'.appended| && h'.appended[..|h.appended|] == h.appended
    && EnvelopesTo(h'.sent, m) == EnvelopesTo(h.sent, m) + AgentEnvelopes(h'.appended[|h.appended|..], s)
  }

  lemma KeepsUpQuietly(h: Hub, h': Hub, s: string, m: SocketId)
    requires h'.appended == h.appended && EnvelopesTo(h'.sent, m) == EnvelopesTo(h.sent, m)
    ensures KeepsUp(h, h', s, m)
  {
    assert h'.appended[|h.appended|..] == [];
  }

  lemma KeepsUpByOne(h: Hub, h': Hub, env: Envelope, s: string, m: SocketId)
    requires h'.appended == h.appended + [env]
    requires EnvelopesTo(h'.sent, m) == EnvelopesTo(h.sent, m) + if FromAgent(s)(env) then [env] else []
    ensures KeepsUp(h, h', s, m)
  {
    assert h'.appended[|h.appended|..] == [env];
    FilterPush([], env, FromAgent(s));
    assert [] + [env] == [env];
    FilterNone<Envelope>([], FromAgent(s));
  }

  lemma AuthKeepsUp(h: Hub, ws: SocketId, claims: Claims, io: Io, s: string, m: SocketId)
    requires h.db.workspaces.Valid() && ws in h.sockets && ws != m
    ensures KeepsUp(h, AuthStep(h, ws, claims, io), s, m)
  {
    var p := PeersOf(h, claims.sessionId);
    var h1 := h.(sockets := h.sockets[ws := h.sockets[ws].(claims := Some(claims))],
                 peers := h.peers[claims.sessionId := if claims.role == Mobile then p.(mobile := Some(ws)) else p]);
    var frame := AuthOk(claims.role, claims.sessionId, ListConnectedWorkspaces(h1, claims.sessionId), io.listing);
    SendCarries(h1, ws, frame, m);
    BroadcastCarriesNothing(Send(h1, ws, frame), claims.sessionId, m);
    KeepsUpQuietly(h, AuthStep(h, ws, claims, io), s, m);
  }

  lemma RegisterKeepsUp(h: Hub, ws: SocketId, o: string, id: string, name: string, path: Option<string>, now: int,
                        s: string, m: SocketId)
    requires ws in h.sockets
    ensures KeepsUp(h, RegisterStep(h, ws, o, id, name, path, now).0, s, m)
  {
    hide KeepsUp;
    var h1 := HelloFields(h, ws, o, id, name, path);
    var stored := if name != "" then name else id;
    var h2 := h1.(db := UpsertWorkspaceDb(h1.db, o, Workspace(id, stored, path, now)));
    SendMobileCarriesNothing(h2, o, WorkspaceConnected(id, stored), m);
    BroadcastCarriesNothing(SendMobile(h2, o, WorkspaceConnected(id, stored)), o, m);
    KeepsUpQuietly(h, RegisterStep(h, ws, o, id, name, path, now).0, s, m);
  }

  lemma ForwardKeepsUp(h: Hub, ws: SocketId, claims: Claims, msg: Msg, io: Io, s: string, m: SocketId)
    requires PeersInv(h) && ws in h.sockets && Current(h, s, m)
    ensures KeepsUp(h, ForwardStep(h, ws, claims, msg, io), s, m)
  {
    hide KeepsUp, PeersInv, AppendDb, BodyOf;
    var o := claims.sessionId;
    var h' := ForwardStep(h, ws, claims, msg, io);
    if o !in h.db.sessions {
      KeepsUpQuietly(h, h', s, m);
    } else {
      var env := Envelope(io.uuid, o, claims.role, io.now, BodyOf(h.sockets[ws], claims.role, msg));
      var h1 := h.(db := AppendDb(h.db, env), appended := h.appended + [env]);
      CurrentIsMobile(h, s, m);
      if claims.role == Agent {
        if o in h1.peers && h1.peers[o].mobile.Some? {
          MobileClaims(h, o);
          SendCarries(h1, h1.peers[o].mobile.value, Relayed(env), m);
        }
      } else {
        var requested := TargetWorkspace(h.sockets[ws], claims.role, msg);
        var target := ResolveTargetAgent(h1, o, requested);
        assert PeersInv(h1) by { SamePeers(h, h1); }
        if target.Some? {
          ResolvedIsAgent(h1, o, requested);
          SendCarries(h1, target.value, Relayed(env), m);
        }
      }
      KeepsUpByOne(h, h', env, s, m);
    }
  }

  lemma SamePeers(h: Hub, h1: Hub)
    requires PeersInv(h) && h1.peers == h.peers && h1.sockets == h.sockets && h1.hellos == h.hellos
    ensures PeersInv(h1)
  {
    hide PeersOk, Member;
  }

  lemma MobileClaims(h: Hub, s: string)
    requires PeersInv(h) && s in h.peers && h.peers[s].mobile.Some?
    ensures MobileOf(h.sockets, s, h.peers[s].mobile.value)
  {
    hide AgentsOk;
    assert PeersOk(h.sockets, h.hellos, s, h.peers[s]);
  }

  lemma ResolvedIsAgent(h: Hub, s: string, requested: Option<string>)
    requires PeersInv(h) && ResolveTargetAgent(h, s, requested).Some?
    ensures var w := ResolveTargetAgent(h, s, requested).value;
            w in h.sockets && h.sockets[w].claims == Some(Claims(s, Agent))
  {
    var w := ResolveTargetAgent(h, s, requested).value;
    assert PeersOk(h.sockets, h.hellos, s, h.peers[s]);
    var k :| k in h.peers[s].agents.at && h.peers[s].agents.at[k] == w;
    assert AgentUnder(h.sockets, s, k, w);
  }

  lemma CloseKeepsUp(h: Hub, ws: SocketId, s: string, m: SocketId)
    requires ws in h.sockets
    ensures KeepsUp(h, OnClose(h, ws), s, m)
  {
    hide KeepsUp;
    var h0, socket := SetReady(h, ws, Closed), h.sockets[ws];
    if socket.claims.Some? && socket.claims.value.sessionId in h.peers {
      var o := socket.claims.value.sessionId;
      var p := h.peers[o];
      if socket.claims.value.role == Mobile {
        var p' := if p.mobile == Some(ws) then p.(mobile := None) else p;
        BroadcastCarriesNothing(h0.(peers := h.peers[o := p']), o, m);
      } else if socket.workspaceId.Some? {
        var k := socket.workspaceId.value;
        var h1 := h0.(peers := h.peers[o := WithoutAgent(p, k)]);
        SendMobileCarriesNothing(h1, o, WorkspaceDisconnected(k), m);
        BroadcastCarriesNothing(SendMobile(h1, o, WorkspaceDisconnected(k)), o, m);
      } else {
        BroadcastCarriesNothing(h0, o, m);
      }
    }
    KeepsUpQuietly(h, OnClose(h, ws), s, m);
  }

  lemma LaterFrameKeepsUp(codec: Codec, h: Hub, ws: SocketId, claims: Claims, msg: Msg, io: Io, s: string, m: SocketId)
    requires Inv(h) && ws in h.sockets && Current(h, s, m)
    ensures KeepsUp(h, LaterFrame(codec, h, ws, claims, msg, io).0, s, m)
  {
    hide KeepsUp, RegisterStep, ForwardStep, PeersOk, Sound, LogInv, AR.Inv;
    var o := claims.sessionId;
    var (h1, outcome) := SnapshotStep(codec, h, ws, o, msg, io.now);
    if claims.role == Agent && msg.kind == Some("agent_hello") {
      var name := msg.workspaceName.GetOr(msg.workspaceId.GetOr(""));
      RegisterKeepsUp(h, ws, o, HelloId(msg), name, msg.workspacePath, io.now, s, m);
      KeepsUpQuietly(h, h, s, m);
    } else if claims.role == Agent && msg.kind == Some("relay_file_response") && msg.requestId.Some? {
      KeepsUpQuietly(h, LaterFrame(codec, h, ws, claims, msg, io).0, s, m);
    } else if claims.role == Agent && msg.kind == Some("status_snapshot") {
      KeepsUpQuietly(h, h1, s, m);
      if outcome == Handled {
        ForwardKeepsUp(h1, ws, claims, msg, io, s, m);
        KeepsUpFrom(h, h1, ForwardStep(h1, ws, claims, msg, io), s, m);
      }
    } else {
      ForwardKeepsUp(h, ws, claims, msg, io, s, m);
    }
  }

  lemma KeepsUpFrom(h: Hub, h1: Hub, h2: Hub, s: string, m: SocketId)
    requires h1.sent == h.sent && h1.appended == h.appended && KeepsUp(h1, h2, s, m)
    ensures KeepsUp(h, h2, s, m)
  {
  }

  /** No step lets the current mobile miss a message or get one twice. */
  lemma StepKeepsUp(codec: Codec, h: Hub, e: Event, s: string, m: SocketId)
    requires Inv(h) && Enabled(h, e) && Current(h, s, m)
    ensures KeepsUp(h, Step(codec, h, e), s, m)
  {
    hide KeepsUp, AuthStep, LaterFrame, OnClose, Inv;
    InvSound(h);
    CurrentIsMobile(h, s, m);
    match e
    case Message(ws, raw, io) =>
      if raw.Some? && h.sockets[ws].claims.Some? {
        LaterFrameKeepsUp(codec, h, ws, h.sockets[ws].claims.value, raw.value, io, s, m);
      } else if raw.Some? && raw.value.verified.Some? && raw.value.verified.value.sessionId in h.db.sessions {
        AuthKeepsUp(h, ws, raw.value.verified.value, io, s, m);
      } else {
        KeepsUpQuietly(h, Step(codec, h, e), s, m);
      }
    case CloseEvent(ws) => CloseKeepsUp(h, ws, s, m);
    case HttpFile(o, workspaceId, path, requestId) =>
      var target := ResolveTargetAgent(h, o, workspaceId);
      if target.Some? && IsOpen(h, target.value) {
        var frame := FileRequest(requestId, path, if workspaceId == Some("") then None else workspaceId);
        SendCarries(h.(requests := AR.IssueStep(h.requests, requestId)), target.value, frame, m);
      }
      KeepsUpQuietly(h, Step(codec, h, e), s, m);
    case _ => KeepsUpQuietly(h, Step(codec, h, e), s, m);
  }

  lemma CurrentIsMobile(h: Hub, s: string, m: SocketId)
    requires PeersInv(h) || Inv(h)
    requires Current(h, s, m)
    ensures h.sockets[m].claims == Some(Claims(s, Mobile))
  {
    hide AgentsOk;
    assert PeersOk(h.sockets, h.hellos, s, h.peers[s]);
  }

  lemma InvSound(h: Hub)
    requires Inv(h)
    ensures h.db.workspaces.Valid()
  {
  }

  // ----- whole runs -----

  lemma KeepsUpTransitive(h: Hub, h1: Hub, h2: Hub, s: string, m: SocketId)
    requires KeepsUp(h, h1, s, m) && KeepsUp(h1, h2, s, m)
    ensures KeepsUp(h, h2, s, m)
  {
    hide Filter, EnvelopesTo;
    var a, b := h1.appended[|h.appended|..], h2.appended[|h1.appended|..];
    assert h2.appended[..|h.appended|] == h2.appended[..|h1.appended|][..|h.appended|];
    assert h2.appended == h1.appended + b && h1.appended == h.appended + a;
    assert h2.appended[|h.appended|..] == a + b;
    FilterConcat(a, b, FromAgent(s));
  }

  lemma {:induction false} StretchKeepsUp(codec: Codec, clock: int, states: seq<Hub>, events: seq<Event>,
                                          i: nat, j: nat, s: string, m: SocketId)
    requires Execution(codec, clock, states, events) && i <= j < |states|
    requires forall t :: i <= t < j ==> Current(states[t], s, m)
    ensures KeepsUp(states[i], states[j], s, m)
  {
    hide Inv, Step, KeepsUp, Enabled;
    if i == j {
      KeepsUpQuietly(states[i], states[j], s, m);
    } else {
      StretchKeepsUp(codec, clock, states, events, i, j - 1, s, m);
      ReachableInv(codec, clock, states, events, j - 1);
      assert IsStep(codec, states[j - 1], events[j - 1], states[j]);
      assert Current(states[j - 1], s, m);
      StepKeepsUp(codec, states[j - 1], events[j - 1], s, m);
      KeepsUpTransitive(states[i], states[j - 1], states[j], s, m);
    }
  }

  lemma {:induction false} NothingBefore(sockets: map<SocketId, Socket>, sent: seq<Delivery>, m: SocketId)
    requires SentInv(sockets, sent) && m in sockets && sockets[m].claims.None?
    ensures EnvelopesTo(sent, m) == []
  {
    if sent != [] {
      assert Last(sent) in sent;
      assert forall d :: d in DropLast(sent) ==> d in sent;
      NothingBefore(sockets, DropLast(sent), m);
    }
  }

  /** Authenticating hands the socket the history and nothing else, and appends nothing. */
  lemma AuthHandsHistory(h: Hub, m: SocketId, claims: Claims, io: Io)
    requires Inv(h) && IsOpen(h, m) && h.sockets[m].claims.None?
    ensures EnvelopesTo(AuthStep(h, m, claims, io).sent, m) == io.listing
    ensures AuthStep(h, m, claims, io).appended == h.appended
  {
    var s := claims.sessionId;
    var p := PeersOf(h, s);
    var h1 := h.(sockets := h.sockets[m := h.sockets[m].(claims := Some(claims))],
                 peers := h.peers[s := if claims.role == Mobile then p.(mobile := Some(m)) else p]);
    var frame := AuthOk(claims.role, s, ListConnectedWorkspaces(h1, s), io.listing);
    NothingBefore(h.sockets, h.sent, m);
    SendCarries(h1, m, frame, m);
    BroadcastCarriesNothing(Send(h1, m, frame), s, m);
  }

  // ----- once each -----

  lemma {:induction false} MessageIdsDistinct(envs: seq<Envelope>)
    requires NoDup(MessageIds(envs))
    ensures NoDup(envs)
  {
    if envs != [] {
      MessageIdsDistinct(DropLast(envs));
      NoDupPush(MessageIds(DropLast(envs)), Last(envs).id);
      MessageIdsOf(DropLast(envs), Last(envs).id);
    }
  }

  lemma {:induction false} EnvelopesDistinct(rows: seq<Row>)
    requires Pairwise(rows, DifferentMessages)
    ensures NoDup(Envelopes(rows))
  {
    if rows != [] {
      var init, x := DropLast(rows), Last(rows);
      assert rows == init + [x];
      PairwisePrefix(init, x, DifferentMessages);
      EnvelopesDistinct(init);
      EnvelopesPush(init, x);
      forall i | 0 <= i < |Envelopes(init)| ensures Envelopes(init)[i] != x.env {
        MapAt(init, ENVELOPE_OF, i);
        assert Pair(rows, DifferentMessages, i, |rows| - 1);
      }
      NoDupPush(Envelopes(init), x.env);
    }
  }

  lemma ListingDistinct(h: Hub, s: string, listing: seq<Envelope>)
    requires LogInv(h.appended, h.db.history) && IsListing(h.db, s, listing)
    ensures NoDup(listing) && forall env :: env in listing ==> env in h.appended
  {
    PairwiseFilter(h.db.history, InSession(s), DifferentMessages);
    EnvelopesDistinct(OfSession(h.db.history, s));
    PermutationNoDup(Envelopes(OfSession(h.db.history, s)), listing);
    ListingOfSession(h, s, listing);
  }

  /** Joining neither loses nor repeats: from the step in which it authenticates, as long as it is the
      current mobile, a socket is handed the listing of the history kept then, followed by every agent
      message appended for the session since, and no message twice. */
  lemma JoinNeitherLosesNorRepeats(codec: Codec, clock: int, states: seq<Hub>, events: seq<Event>,
                                   i: nat, j: nat, m: SocketId, s: string, msg: Msg, io: Io)
    requires Execution(codec, clock, states, events) && i < j < |states|
    requires events[i] == Message(m, Some(msg), io) && msg.verified == Some(Claims(s, Mobile))
    requires IsOpen(states[i], m) && states[i].sockets[m].claims.None? && s in states[i].db.sessions
    requires forall t :: i < t < j ==> Current(states[t], s, m)
    ensures |states[i].appended| <= |states[j].appended|
    ensures multiset(io.listing) == multiset(Envelopes(OfSession(states[i].db.history, s)))
    ensures EnvelopesTo(states[j].sent, m)
         == io.listing + AgentEnvelopes(states[j].appended[|states[i].appended|..], s)
    ensures NoDup(EnvelopesTo(states[j].sent, m))
  {
    hide KeepsUp, AuthStep, PeersInv, Sound, AR.Inv, LogInv, NoDup, Filter;
    ReachableInv(codec, clock, states, events, i);
    ReachableInv(codec, clock, states, events, j);
    assert IsStep(codec, states[i], events[i], states[i + 1]);
    AuthHandsHistory(states[i], m, Claims(s, Mobile), io);
    assert states[i + 1] == AuthStep(states[i], m, Claims(s, Mobile), io);
    StretchKeepsUp(codec, clock, states, events, i + 1, j, s, m);
    KeptUp(states[i + 1], states[j], s, m);
    AppendedDistinct(states[i]);
    AppendedDistinct(states[j]);
    ListingDistinct(states[i], s, io.listing);
    HandedDistinct(states[i].appended, states[j].appended, s, io.listing);
  }

  lemma AppendedDistinct(h: Hub)
    requires Inv(h)
    ensures LogInv(h.appended, h.db.history) && NoDup(MessageIds(h.appended))
  {
  }

  /** What was listed is older than what was appended since. */
  lemma HandedDistinct(before: seq<Envelope>, after: seq<Envelope>, s: string, listing: seq<Envelope>)
    requires |before| <= |after| && after[..|before|] == before && NoDup(MessageIds(after))
    requires NoDup(listing) && forall env :: env in listing ==> env in before
    ensures NoDup(listing + AgentEnvelopes(after[|before|..], s))
  {
    hide NoDup, Filter;
    var late := after[|before|..];
    assert after == before + late;
    MessageIdsDistinct(after);
    NoDupConcat(before, late);
    FilterNoDup(late, FromAgent(s));
    FilterMembers(late, FromAgent(s));
    NoDupConcat(listing, AgentEnvelopes(late, s));
  }

  lemma KeptUp(h: Hub, h': Hub, s: string, m: SocketId)
    requires KeepsUp(h, h', s, m)
    ensures |h.appended| <= |h'.appended| && h'.appended[..|h.appended|] == h.appended
    ensures EnvelopesTo(h'.sent, m) == EnvelopesTo(h.sent, m) + AgentEnvelopes(h'.appended[|h.appended|..], s)
  {
  }

  // ----- the history a mobile joins with -----

  /** The store operations of one step, in order. */
  function StoreOps(h: Hub, e: Event): seq<Op> {
    match e
    case StoreOp(op) => [op]
    case Message(ws, raw, io) =>
      if raw.None? || ws !in h.sockets || h.sockets[ws].claims.None? then []
      else FrameOps(h.sockets[ws], h.sockets[ws].claims.value, raw.value, io)
    case _ => []
  }

  function AppendOp(socket: Socket, claims: Claims, msg: Msg, io: Io): Op {
    Append(Envelope(io.uuid, claims.sessionId, claims.role, io.now, BodyOf(socket, claims.role, msg)))
  }

  function FrameOps(socket: Socket, claims: Claims, msg: Msg, io: Io): seq<Op> {
    var s := claims.sessionId;
    var append := [AppendOp(socket, claims, msg, io)];
    if claims.role == Agent && msg.kind == Some("agent_hello") then
      var name := msg.workspaceName.GetOr(msg.workspaceId.GetOr(""));
      if HelloId(msg) == "" then []
      else
        var stored := if name != "" then name else HelloId(msg);
        [UpsertWorkspace(s, Workspace(HelloId(msg), stored, msg.workspacePath, io.now))]
    else if claims.role == Agent && msg.kind == Some("relay_file_response") && msg.requestId.Some? then []
    else if claims.role == Agent && msg.kind == Some("status_snapshot") then
      var id := TargetWorkspace(socket, Agent, msg);
      (if id.Some? && id.value != "" then [UpsertSnapshot(s, id.value, Update(StatusPayload(msg), io.now))] else [])
      + append
    else append
  }

  function ApplyAll(codec: Codec, db: Db, ops: seq<Op>): Db {
    if ops == [] then db else Apply(codec, ApplyAll(codec, db, DropLast(ops)), Last(ops))
  }

  lemma ApplyOne(codec: Codec, db: Db, op: Op)
    ensures ApplyAll(codec, db, [op]) == Apply(codec, db, op)
  {
    assert DropLast([op]) == [];
  }

  lemma {:induction false} RunConcat(codec: Codec, ops: seq<Op>, more: seq<Op>)
    ensures Run(codec, ops + more) == ApplyAll(codec, Run(codec, ops), more)
  {
    if more == [] {
      assert ops + more == ops;
    } else {
      assert DropLast(ops + more) == ops + DropLast(more);
      RunConcat(codec, ops, DropLast(more));
    }
  }

  lemma SendAllDb(h: Hub, s: string, frame: Frame)
    ensures Broadcast(h, s).db == h.db && Broadcast(SendMobile(h, s, frame), s).db == h.db
  {
    if s in h.peers {
      SendAllFields(h, Recipients(h.peers[s]), StatusOf(h.peers[s]));
      var h1 := SendMobile(h, s, frame);
      SendAllFields(h1, Recipients(h1.peers[s]), StatusOf(h1.peers[s]));
    }
  }

  lemma FrameDb(codec: Codec, h: Hub, ws: SocketId, claims: Claims, msg: Msg, io: Io)
    requires ws in h.sockets
    ensures LaterFrame(codec, h, ws, claims, msg, io).0.db
         == ApplyAll(codec, h.db, FrameOps(h.sockets[ws], claims, msg, io))
  {
    hide Apply, AppendDb, RegisterStep, ForwardStep, SnapshotStep;
    if claims.role == Agent && msg.kind == Some("agent_hello") {
      if HelloId(msg) != "" {
        var name := msg.workspaceName.GetOr(msg.workspaceId.GetOr(""));
        HelloDb(codec, h, ws, claims.sessionId, HelloId(msg), name, msg.workspacePath, io.now);
      }
    } else if claims.role == Agent && msg.kind == Some("status_snapshot") {
      StatusDb(codec, h, ws, claims, msg, io);
    } else {
      ForwardDb(codec, h, ws, claims, msg, io);
    }
  }

  lemma HelloDb(codec: Codec, h: Hub, ws: SocketId, s: string, id: string, name: string, path: Option<string>, now: int)
    requires ws in h.sockets
    ensures RegisterStep(h, ws, s, id, name, path, now).0.db
         == ApplyAll(codec, h.db, [UpsertWorkspace(s, Workspace(id, if name != "" then name else id, path, now))])
  {
    hide Rekeyed;
    var w := Workspace(id, if name != "" then name else id, path, now);
    var h1 := HelloFields(h, ws, s, id, name, path);
    SendAllDb(h1.(db := UpsertWorkspaceDb(h1.db, s, w)), s, WorkspaceConnected(id, w.name));
    ApplyOne(codec, h.db, UpsertWorkspace(s, w));
  }

  lemma ForwardDb(codec: Codec, h: Hub, ws: SocketId, claims: Claims, msg: Msg, io: Io)
    requires ws in h.sockets
    ensures ForwardStep(h, ws, claims, msg, io).db == ApplyAll(codec, h.db, [AppendOp(h.sockets[ws], claims, msg, io)])
  {
    ApplyOne(codec, h.db, AppendOp(h.sockets[ws], claims, msg, io));
  }

  lemma ApplyBoth(codec: Codec, db: Db, a: Op, b: Op)
    ensures ApplyAll(codec, db, [a, b]) == Apply(codec, Apply(codec, db, a), b)
  {
    hide Apply;
    assert DropLast([a, b]) == [a];
    ApplyOne(codec, db, a);
  }

  /** With a status frame the snapshot comes first; when its session is gone, nothing is stored. */
  lemma StatusDb(codec: Codec, h: Hub, ws: SocketId, claims: Claims, msg: Msg, io: Io)
    requires ws in h.sockets && claims.role == Agent && msg.kind == Some("status_snapshot")
    ensures LaterFrame(codec, h, ws, claims, msg, io).0.db
         == ApplyAll(codec, h.db, FrameOps(h.sockets[ws], claims, msg, io))
  {
    hide ForwardStep, UpsertRow, TrimRows, Insert, BodyOf, StatusPayload, RegisterStep, ApplyAll, PruneHistoryDb;
    hide DeleteSessionsDb, PairDb;
    var s := claims.sessionId;
    var id := TargetWorkspace(h.sockets[ws], Agent, msg);
    var append := AppendOp(h.sockets[ws], claims, msg, io);
    var (h1, outcome) := SnapshotStep(codec, h, ws, s, msg, io.now);
    ForwardDb(codec, h1, ws, claims, msg, io);
    if id.Some? && id.value != "" {
      var upsert := UpsertSnapshot(s, id.value, Update(StatusPayload(msg), io.now));
      ApplyOne(codec, h.db, upsert);
      ApplyOne(codec, h1.db, append);
      ApplyBoth(codec, h.db, upsert, append);
      assert [upsert] + [append] == [upsert, append];
    } else {
      assert [] + [append] == [append];
    }
  }

  lemma StepDb(codec: Codec, h: Hub, e: Event)
    requires Inv(h) && Enabled(h, e)
    ensures Step(codec, h, e).db == ApplyAll(codec, h.db, StoreOps(h, e))
  {
    hide LaterFrame, FrameOps, Apply, AuthStep, OnClose, Inv;
    InvSound(h);
    match e
    case StoreOp(op) => ApplyOne(codec, h.db, op);
    case Message(ws, raw, io) =>
      if raw.Some? {
        if h.sockets[ws].claims.Some? {
          FrameDb(codec, h, ws, h.sockets[ws].claims.value, raw.value, io);
        } else if raw.value.verified.Some? && raw.value.verified.value.sessionId in h.db.sessions {
          AuthDb(h, ws, raw.value.verified.value, io);
        }
      }
    case CloseEvent(ws) => CloseDb(h, ws);
    case _ =>
  }

  lemma AuthDb(h: Hub, ws: SocketId, claims: Claims, io: Io)
    requires ws in h.sockets && h.db.workspaces.Valid()
    ensures AuthStep(h, ws, claims, io).db == h.db
  {
    var s := claims.sessionId;
    var p := PeersOf(h, s);
    var h1 := h.(sockets := h.sockets[ws := h.sockets[ws].(claims := Some(claims))],
                 peers := h.peers[s := if claims.role == Mobile then p.(mobile := Some(ws)) else p]);
    var h2 := Send(h1, ws, AuthOk(claims.role, s, ListConnectedWorkspaces(h1, s), io.listing));
    SendAllDb(h2, s, PeerStatus(true, true));
  }

  lemma CloseDb(h: Hub, ws: SocketId)
    requires ws in h.sockets
    ensures OnClose(h, ws).db == h.db
  {
    var h0, socket := SetReady(h, ws, Closed), h.sockets[ws];
    if socket.claims.Some? && socket.claims.value.sessionId in h.peers {
      var o := socket.claims.value.sessionId;
      var p := PeersAfterClose(h, ws, o);
      var h1 := h0.(peers := h.peers[o := p]);
      assert p == h.peers[o] ==> h1.peers == h.peers;
      SendAllDb(h1, o, PeerStatus(true, true));
      if socket.workspaceId.Some? {
        SendAllDb(h1, o, WorkspaceDisconnected(socket.workspaceId.value));
      }
    }
  }

  /** Everything the hub ever asked its store to do, up to state `n`. */
  function OpsUpTo(states: seq<Hub>, events: seq<Event>, n: nat): seq<Op>
    requires n <= |events| && |states| == |events| + 1
  {
    if n == 0 then [] else OpsUpTo(states, events, n - 1) + StoreOps(states[n - 1], events[n - 1])
  }

  lemma {:induction false} HubDbIsStoreRun(codec: Codec, clock: int, states: seq<Hub>, events: seq<Event>, n: nat)
    requires Execution(codec, clock, states, events) && n <= |events|
    ensures states[n].db == Run(codec, OpsUpTo(states, events, n))
  {
    hide Inv, Step, ApplyAll, StoreOps, Enabled;
    if n > 0 {
      HubDbIsStoreRun(codec, clock, states, events, n - 1);
      ReachableInv(codec, clock, states, events, n - 1);
      assert IsStep(codec, states[n - 1], events[n - 1], states[n]);
      StepDb(codec, states[n - 1], events[n - 1]);
      RunConcat(codec, OpsUpTo(states, events, n - 1), StoreOps(states[n - 1], events[n - 1]));
    }
  }

  /** The history a mobile joins with is the 100 newest of everything the hub appended for its session
      and no pruning since took away, oldest timestamp first. */
  lemma JoinedHistoryIsNewest(codec: Codec, clock: int, states: seq<Hub>, events: seq<Event>, i: nat, m: SocketId,
                              s: string, msg: Msg, io: Io)
    requires Execution(codec, clock, states, events) && i < |events|
    requires events[i] == Message(m, Some(msg), io) && msg.verified == Some(Claims(s, Mobile))
    ensures multiset(io.listing) == multiset(Envelopes(Newest(SR.Survivors(codec, OpsUpTo(states, events, i), s))))
    ensures SortedBy(io.listing, Earlier)
  {
    HubDbIsStoreRun(codec, clock, states, events, i);
    SR.HistoryIsNewestSurvivors(codec, OpsUpTo(states, events, i), s);
    assert IsStep(codec, states[i], events[i], states[i + 1]);
  }
}
