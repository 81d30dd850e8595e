/** The relay hub as a transition system (relay/src/server.ts).

    A socket is its id; the fields the source keeps on the socket object are its record in
    `sockets`.  Every handler of the source is synchronous, so one event is one step.  The fields
    `sent`, `appended` and `hellos` record what happened; no step reads them. */
module RelayHubModel {
  import opened Options
  import opened Sequences
  import opened OrderedMaps
  import opened Texts
  import opened Messages
  import opened HistoryLog
  import opened Snapshots
  import opened StoreTables
  import AR = AgentRequests

  type SocketId = nat

  /** `readyState`; Closed once the close event has been handled. */
  datatype Ready = Open | Closing | Closed

  datatype Socket = Socket(
    ready: Ready,
    claims: Option<Claims>,
    workspaceId: Option<string>,
    workspaceName: Option<string>,
    workspacePath: Option<string>)

  datatype SessionPeers = SessionPeers(
    mobile: Option<SocketId>,
    agents: OMap<string, SocketId>,
    activeWorkspaceId: Option<string>)

  datatype Frame =
    | AuthOk(role: Role, sessionId: string, workspaces: seq<ConnectedWorkspace>, history: seq<Envelope>)
    | PeerStatus(agentConnected: bool, mobileConnected: bool)
    | WorkspaceConnected(workspaceId: string, name: string)
    | WorkspaceDisconnected(lostId: string)
    | Relayed(env: Envelope)
    | FileRequest(requestId: string, path: string, requestedId: Option<string>)

  /** A frame that was handed to an open socket. */
  datatype Delivery = Delivery(to: SocketId, frame: Frame)

  datatype Hello = Hello(sessionId: string, workspaceId: string, socket: SocketId)

  datatype Hub = Hub(
    sockets: map<SocketId, Socket>,
    peers: map<string, SessionPeers>,
    requests: AR.Requests,
    db: Db,
    sent: seq<Delivery>,
    appended: seq<Envelope>,
    hellos: seq<Hello>)

  /** A parsed frame.  `verified` is what `auth.verify` makes of its token, when it is an auth frame
      with a token; `own` is the frame's own fields read as a status payload. */
  datatype Msg = Msg(
    kind: Option<string>,
    verified: Option<Claims>,
    workspaceId: Option<string>,
    workspaceName: Option<string>,
    workspacePath: Option<string>,
    requestId: Option<string>,
    target: Option<string>,
    tool: Option<string>,
    text: Option<string>,
    payload: Option<Json>,
    own: Payload,
    reply: string)

  /** What one handler takes from outside: the clock, a fresh UUID, the order SQLite lists history in. */
  datatype Io = Io(now: int, uuid: string, listing: seq<Envelope>)

  datatype Outcome = Handled | ForeignKeyFailure

  // ----- sending -----

  predicate IsOpen(h: Hub, ws: SocketId) {
    ws in h.sockets && h.sockets[ws].ready == Open
  }

  function Send(h: Hub, to: SocketId, frame: Frame): Hub {
    if IsOpen(h, to) then h.(sent := h.sent + [Delivery(to, frame)]) else h
  }

  function SendAll(h: Hub, to: seq<SocketId>, frame: Frame): Hub {
    if to == [] then h else Send(SendAll(h, DropLast(to), frame), Last(to), frame)
  }

  function SendMobile(h: Hub, s: string, frame: Frame): Hub {
    if s in h.peers && h.peers[s].mobile.Some? then Send(h, h.peers[s].mobile.value, frame) else h
  }

  function AgentsInOrder(agents: OMap<string, SocketId>, keys: seq<string>): seq<SocketId> {
    if keys == [] then []
    else AgentsInOrder(agents, DropLast(keys)) + (if Last(keys) in agents.at then [agents.at[Last(keys)]] else [])
  }

  function Recipients(p: SessionPeers): seq<SocketId> {
    (if p.mobile.Some? then [p.mobile.value] else []) + AgentsInOrder(p.agents, p.agents.order)
  }

  function StatusOf(p: SessionPeers): Frame {
    PeerStatus(p.agents.order != [], p.mobile.Some?)
  }

  /** `broadcastPeerStatus` */
  function Broadcast(h: Hub, s: string): Hub {
    if s in h.peers then SendAll(h, Recipients(h.peers[s]), StatusOf(h.peers[s])) else h
  }

  // ----- looking up -----

  const NO_PEERS := SessionPeers(None, Empty(), None)

  function PeersOf(h: Hub, s: string): SessionPeers {
    if s in h.peers then h.peers[s] else NO_PEERS
  }

  /** `resolveTargetAgent`; an absent or blank id means the active workspace. */
  function ResolveTargetAgent(h: Hub, s: string, requested: Option<string>): Option<SocketId> {
    if s !in h.peers then None
    else
      var p := h.peers[s];
      var explicit := if requested.Some? then Trim(requested.value) else "";
      if explicit != "" then p.agents.Get(explicit)
      else if p.activeWorkspaceId.Some? then p.agents.Get(p.activeWorkspaceId.value)
      else if p.agents.order != [] then p.agents.Get(Last(p.agents.order))
      else None
  }

  function NonEmpty(s: Option<string>, fallback: string): string {
    if s.Some? && s.value != "" then s.value else fallback
  }

  function ConnectedEntries(h: Hub, p: SessionPeers, keys: seq<string>): seq<ConnectedWorkspace> {
    if keys == [] then []
    else
      var k := Last(keys);
      ConnectedEntries(h, p, DropLast(keys))
      + if k in p.agents.at && p.agents.at[k] in h.sockets then
          var socket := h.sockets[p.agents.at[k]];
          var active := p.activeWorkspaceId == Some(k);
          [ConnectedWorkspace(k, NonEmpty(socket.workspaceName, k), socket.workspacePath, active)]
        else []
  }

  function Ids(entries: seq<ConnectedWorkspace>): seq<string> {
    if entries == [] then [] else Ids(DropLast(entries)) + [Last(entries).id]
  }

  /** Adds the stored workspaces that are not listed yet, inactive. */
  function AddStored(entries: seq<ConnectedWorkspace>, stored: seq<Workspace>): seq<ConnectedWorkspace> {
    if stored == [] then entries
    else
      var before := AddStored(entries, DropLast(stored));
      var w := Last(stored);
      if w.id in Ids(before) then before else before + [ConnectedWorkspace(w.id, w.name, w.path, false)]
  }

  /** `listConnectedWorkspaces` */
  function ListConnectedWorkspaces(h: Hub, s: string): seq<ConnectedWorkspace>
    requires h.db.workspaces.Valid()
  {
    AddStored(if s in h.peers then ConnectedEntries(h, h.peers[s], h.peers[s].agents.order) else [],
              ListWorkspacesOf(h.db, s))
  }

  // ----- handlers -----

  function SetReady(h: Hub, ws: SocketId, ready: Ready): Hub
    requires ws in h.sockets
  {
    h.(sockets := h.sockets[ws := h.sockets[ws].(ready := ready)])
  }

  /** `ws.close()`: nothing more can be sent; the close event comes later. */
  function BeginClose(h: Hub, ws: SocketId): Hub
    requires ws in h.sockets
  {
    if h.sockets[ws].ready == Open then SetReady(h, ws, Closing) else h
  }

  function AuthStep(h: Hub, ws: SocketId, claims: Claims, io: Io): Hub
    requires ws in h.sockets && h.db.workspaces.Valid()
  {
    var s := claims.sessionId;
    var p := PeersOf(h, s);
    var h1 := h.(sockets := h.sockets[ws := h.sockets[ws].(claims := Some(claims))],
                 peers := h.peers[s := if claims.role == Mobile then p.(mobile := Some(ws)) else p]);
    var h2 := Send(h1, ws, AuthOk(claims.role, s, ListConnectedWorkspaces(h1, s), io.listing));
    Broadcast(h2, s)
  }

  /** The first frame of a socket. */
  function FirstFrame(h: Hub, ws: SocketId, msg: Msg, io: Io): Hub
    requires ws in h.sockets && h.db.workspaces.Valid()
  {
    if msg.verified.None? || msg.verified.value.sessionId !in h.db.sessions then BeginClose(h, ws)
    else AuthStep(h, ws, msg.verified.value, io)
  }

  /** The agents map after socket `ws` took the key `id`, leaving the key `was` it had. */
  function Rekeyed(agents: OMap<string, SocketId>, was: Option<string>, id: string, ws: SocketId)
    : OMap<string, SocketId>
  {
    var left := if was.Some? && was.value != id then Delete(agents, was.value) else agents;
    Put(Delete(left, id), id, ws)
  }

  function HelloFields(h: Hub, ws: SocketId, s: string, id: string, name: string, path: Option<string>): Hub
    requires ws in h.sockets
  {
    var p := PeersOf(h, s);
    h.(sockets := h.sockets[ws := h.sockets[ws].(
                    workspaceId := Some(id), workspaceName := Some(if name != "" then name else id),
                    workspacePath := path)],
       peers := h.peers[s := SessionPeers(p.mobile, Rekeyed(p.agents, h.sockets[ws].workspaceId, id, ws), Some(id))],
       hellos := h.hellos + [Hello(s, id, ws)])
  }

  /** `registerAgentWorkspace`, with the workspace id already trimmed and not blank. */
  function RegisterStep(h: Hub, ws: SocketId, s: string, id: string, name: string, path: Option<string>, now: int)
    : (Hub, Outcome)
    requires ws in h.sockets
  {
    var h1 := HelloFields(h, ws, s, id, name, path);
    var stored := if name != "" then name else id;
    if s !in h.db.sessions then (h1, ForeignKeyFailure)
    else
      var h2 := h1.(db := UpsertWorkspaceDb(h1.db, s, Workspace(id, stored, path, now)));
      (Broadcast(SendMobile(h2, s, WorkspaceConnected(id, stored)), s), Handled)
  }

  function Field(fields: seq<(string, Json)>, name: string): Option<Json> {
    if fields == [] then None
    else if Last(fields).0 == name then Some(Last(fields).1)
    else Field(DropLast(fields), name)
  }

  /** The payload of a status frame: its `payload` when that is an object, else the frame itself. */
  function StatusPayload(msg: Msg): Payload {
    if msg.payload.Some? && msg.payload.value.Object? then
      var fields := msg.payload.value.fields;
      Payload(Field(fields, "ideState"), Field(fields, "previewUrl"), Field(fields, "fileTree"),
              Field(fields, "adapters"), Field(fields, "activeAdapter"), Field(fields, "timestamp"))
    else if msg.payload.Some? && msg.payload.value.Array? then Payload(None, None, None, None, None, None)
    else msg.own
  }

  function TargetWorkspace(socket: Socket, role: Role, msg: Msg): Option<string> {
    if msg.workspaceId.Some? then msg.workspaceId
    else if role == Agent then socket.workspaceId
    else None
  }

  function BodyOf(socket: Socket, role: Role, msg: Msg): Body {
    Body(msg.kind.GetOr("relay_message"),
         TargetWorkspace(socket, role, msg),
         if role == Agent then socket.workspaceName else None,
         if role == Agent then socket.workspacePath else None,
         msg.target, msg.tool, msg.text, msg.payload)
  }

  /** Appends a frame to the history, then hands it to the other side. */
  function ForwardStep(h: Hub, ws: SocketId, claims: Claims, msg: Msg, io: Io): Hub
    requires ws in h.sockets
  {
    var s := claims.sessionId;
    var env := Envelope(io.uuid, s, claims.role, io.now, BodyOf(h.sockets[ws], claims.role, msg));
    if s !in h.db.sessions then BeginClose(h, ws)
    else
      var h1 := h.(db := AppendDb(h.db, env), appended := h.appended + [env]);
      if claims.role == Agent then SendMobile(h1, s, Relayed(env))
      else
        var target := ResolveTargetAgent(h1, s, TargetWorkspace(h.sockets[ws], claims.role, msg));
        if target.Some? then Send(h1, target.value, Relayed(env)) else h1
  }

  /** The snapshot a status frame leaves, for a workspace id that is not the empty string. */
  function SnapshotStep(codec: Codec, h: Hub, ws: SocketId, s: string, msg: Msg, now: int): (Hub, Outcome)
    requires ws in h.sockets
  {
    var id := TargetWorkspace(h.sockets[ws], Agent, msg);
    if id.None? || id.value == "" then (h, Handled)
    else if s !in h.db.sessions then (h, ForeignKeyFailure)
    else (h.(db := UpsertSnapshotDb(codec, h.db, s, id.value, Update(StatusPayload(msg), now))), Handled)
  }

  function HelloId(msg: Msg): string {
    Trim(msg.workspaceId.GetOr(""))
  }

  /** A frame on an authenticated socket. */
  function LaterFrame(codec: Codec, h: Hub, ws: SocketId, claims: Claims, msg: Msg, io: Io): (Hub, Outcome)
    requires ws in h.sockets
  {
    if claims.role == Agent && msg.kind == Some("agent_hello") then
      var id := HelloId(msg);
      if id == "" then (h, Handled)
      else
        var name := msg.workspaceName.GetOr(msg.workspaceId.GetOr(""));
        RegisterStep(h, ws, claims.sessionId, id, name, msg.workspacePath, io.now)
    else if claims.role == Agent && msg.kind == Some("relay_file_response") && msg.requestId.Some? then
      (h.(requests := AR.RespondStep(h.requests, msg.requestId.value, msg.reply)), Handled)
    else if claims.role == Agent && msg.kind == Some("status_snapshot") then
      var (h1, outcome) := SnapshotStep(codec, h, ws, claims.sessionId, msg, io.now);
      if outcome == Handled then (ForwardStep(h1, ws, claims, msg, io), Handled) else (h1, outcome)
    else (ForwardStep(h, ws, claims, msg, io), Handled)
  }

  /** The message event; None is a frame that is not JSON. */
  function OnMessage(codec: Codec, h: Hub, ws: SocketId, raw: Option<Msg>, io: Io): (Hub, Outcome)
    requires ws in h.sockets && h.db.workspaces.Valid()
  {
    if raw.None? then (BeginClose(h, ws), Handled)
    else if h.sockets[ws].claims.None? then (FirstFrame(h, ws, raw.value, io), Handled)
    else LaterFrame(codec, h, ws, h.sockets[ws].claims.value, raw.value, io)
  }

  /** The peers of a session after an agent with workspace id `k` is gone. */
  function WithoutAgent(p: SessionPeers, k: string): SessionPeers {
    var agents := Delete(p.agents, k);
    SessionPeers(p.mobile, agents, if p.activeWorkspaceId == Some(k) then LastKey(agents) else p.activeWorkspaceId)
  }

  /** Drops an empty entry, else tells who is left. */
  function Settle(h: Hub, s: string): Hub
    requires s in h.peers
  {
    if h.peers[s].mobile.None? && h.peers[s].agents.order == [] then h.(peers := h.peers - {s}) else Broadcast(h, s)
  }

  /** The close event. */
  function OnClose(h: Hub, ws: SocketId): Hub
    requires ws in h.sockets
  {
    var h0 := SetReady(h, ws, Closed);
    var socket := h.sockets[ws];
    if socket.claims.None? || socket.claims.value.sessionId !in h.peers then h0
    else
      var s := socket.claims.value.sessionId;
      var p := h.peers[s];
      if socket.claims.value.role == Mobile then
        Settle(h0.(peers := h.peers[s := if p.mobile == Some(ws) then p.(mobile := None) else p]), s)
      else if socket.workspaceId.Some? then
        var k := socket.workspaceId.value;
        Settle(SendMobile(h0.(peers := h.peers[s := WithoutAgent(p, k)]), s, WorkspaceDisconnected(k)), s)
      else Settle(h0, s)
  }

  /** `requestAgentPayload`: None is "workspace unavailable". */
  function RequestStep(h: Hub, s: string, workspaceId: Option<string>, path: string, requestId: string): Hub {
    var target := ResolveTargetAgent(h, s, workspaceId);
    if target.None? || !IsOpen(h, target.value) then h
    else
      var frame := FileRequest(requestId, path, if workspaceId == Some("") then None else workspaceId);
      Send(h.(requests := AR.IssueStep(h.requests, requestId)), target.value, frame)
  }

  // ----- runs -----

  datatype Event =
    | Connect(ws: SocketId)
    | PeerCloses(ws: SocketId)
    | Message(ws: SocketId, raw: Option<Msg>, io: Io)
    | CloseEvent(ws: SocketId)
    | HttpFile(sessionId: string, workspaceId: Option<string>, path: string, requestId: string)
    | RequestTimer(timer: nat)
    | Wait(to: int)
    | StoreOp(op: Op)

  predicate Live(h: Hub, ws: SocketId) {
    ws in h.sockets && h.sockets[ws].ready != Closed
  }

  /** Operations the HTTP routes and the pruning interval run on the store. */
  predicate FromOutside(op: Op) {
    op.Create? || op.PairMobile? || op.PruneHistory? || op.PruneExpired?
  }

  /** Sockets and UUIDs are new; a socket that had its close event stays silent; a listing is one
      SQLite could give. */
  ghost predicate Enabled(h: Hub, e: Event) {
    match e
    case Connect(ws) => ws !in h.sockets
    case PeerCloses(ws) => Live(h, ws)
    case Message(ws, raw, io) =>
      && Live(h, ws)
      && (forall env :: env in h.appended ==> env.id != io.uuid)
      && (raw.Some? && raw.value.verified.Some? ==> IsListing(h.db, raw.value.verified.value.sessionId, io.listing))
    case CloseEvent(ws) => Live(h, ws)
    case HttpFile(_, _, _, requestId) => AR.Enabled(h.requests, AR.Issue(requestId))
    case RequestTimer(t) => AR.Enabled(h.requests, AR.Fire(t))
    case Wait(to) => AR.Enabled(h.requests, AR.Advance(to))
    case StoreOp(op) => FromOutside(op)
  }

  const FRESH_SOCKET := Socket(Open, None, None, None, None)

  function Step(codec: Codec, h: Hub, e: Event): Hub
    requires h.db.workspaces.Valid()
    requires e.PeerCloses? || e.Message? || e.CloseEvent? ==> e.ws in h.sockets
  {
    match e
    case Connect(ws) => h.(sockets := h.sockets[ws := FRESH_SOCKET])
    case PeerCloses(ws) => BeginClose(h, ws)
    case Message(ws, raw, io) => OnMessage(codec, h, ws, raw, io).0
    case CloseEvent(ws) => OnClose(h, ws)
    case HttpFile(s, workspaceId, path, requestId) => RequestStep(h, s, workspaceId, path, requestId)
    case RequestTimer(t) => h.(requests := AR.FireStep(h.requests, t))
    case Wait(to) => h.(requests := h.requests.(clock := to))
    case StoreOp(op) => h.(db := Apply(codec, h.db, op))
  }

  function Start(clock: int): Hub {
    Hub(map[], map[], AR.Initial(clock), EmptyDb(), [], [], [])
  }

  /** A run: the states it goes through, one more than its events. */
  ghost predicate IsRun(codec: Codec, states: seq<Hub>, events: seq<Event>) {
    && |states| == |events| + 1
    && forall i :: 0 <= i < |events| ==> IsStep(codec, states[i], events[i], states[i + 1])
  }

  ghost predicate IsStep(codec: Codec, h: Hub, e: Event, h': Hub) {
    && h.db.workspaces.Valid()
    && Enabled(h, e)
    && h' == Step(codec, h, e)
  }
}
