/** What a frame of an authenticated socket does: how it is logged and who is handed it
    (relay/src/server.ts). */
module RelayHubFrames {
  import opened Options
  import opened Sequences
  import opened OrderedMaps
  import opened Texts
  import opened Messages
  import opened HistoryLog
  import opened Snapshots
  import opened StoreTables
  import opened RelayHubModel
  import opened RelayHubInvariants
  import opened RelayHubSteps
  import opened RelayHubRuns
  import opened RelayHubReachability
  import opened RelayHubReplies
  import AR = AgentRequests

  // ----- deliveries -----

  function OpenIn(h: Hub): SocketId -> bool {
    (w: SocketId) => w in h.sockets && h.sockets[w].ready == Open
  }

  function Handing(frame: Frame): SocketId -> Delivery {
    (w: SocketId) => Delivery(w, frame)
  }

  /** `frame` to every open socket among `to`, in order. */
  function Deliveries(h: Hub, to: seq<SocketId>, frame: Frame): seq<Delivery> {
    Map(Filter(to, OpenIn(h)), Handing(frame))
  }

  lemma {:induction false} MapConcat<T, U>(s: seq<T>, t: seq<T>, f: T -> U)
    ensures Map(s + t, f) == Map(s, f) + Map(t, f)
  {
    if t == [] {
      assert s + t == s;
    } else {
      MapConcat(s, DropLast(t), f);
      assert DropLast(s + t) == s + DropLast(t);
    }
  }

  lemma DeliveriesConcat(h: Hub, a: seq<SocketId>, b: seq<SocketId>, frame: Frame)
    ensures Deliveries(h, a + b, frame) == Deliveries(h, a, frame) + Deliveries(h, b, frame)
  {
    FilterConcat(a, b, OpenIn(h));
    MapConcat(Filter(a, OpenIn(h)), Filter(b, OpenIn(h)), Handing(frame));
  }

  lemma DeliveryToOne(h: Hub, w: SocketId, frame: Frame)
    ensures Deliveries(h, [w], frame) == if IsOpen(h, w) then [Delivery(w, frame)] else []
  {
    FilterPush([], w, OpenIn(h));
    assert [] + [w] == [w];
    FilterNone<SocketId>([], OpenIn(h));
    assert DropLast([w]) == [];
  }

  /** Sending is delivering to those that are open. */
  lemma {:induction false} SendAllDelivers(h: Hub, to: seq<SocketId>, frame: Frame)
    ensures SendAll(h, to, frame) == h.(sent := h.sent + Deliveries(h, to, frame))
  {
    if to == [] {
      FilterNone<SocketId>([], OpenIn(h));
      assert h.sent + Deliveries(h, to, frame) == h.sent;
    } else {
      hide Filter, Map;
      var init, w := DropLast(to), Last(to);
      SendAllDelivers(h, init, frame);
      assert to == init + [w];
      DeliveriesConcat(h, init, [w], frame);
      DeliveryToOne(h, w, frame);
    }
  }

  lemma SendDelivers(h: Hub, w: SocketId, frame: Frame)
    ensures Send(h, w, frame) == h.(sent := h.sent + Deliveries(h, [w], frame))
  {
    hide Filter, Map;
    DeliveryToOne(h, w, frame);
  }

  // ----- who is in a session -----

  /** The current mobile of `s`, if any. */
  function MobileIn(h: Hub, s: string): seq<SocketId> {
    if s in h.peers && h.peers[s].mobile.Some? then [h.peers[s].mobile.value] else []
  }

  function HeldBy(agents: OMap<string, SocketId>): string -> SocketId {
    (k: string) => agents.Get(k).GetOr(0)
  }

  /** The registered agents of `s` in the order of their latest hellos. */
  function AgentsIn(h: Hub, s: string): seq<SocketId> {
    if s in h.peers then Map(h.peers[s].agents.order, HeldBy(h.peers[s].agents)) else []
  }

  /** Whether an agent, and whether a mobile, is there. */
  function StatusIn(h: Hub, s: string): Frame {
    PeerStatus(AgentsIn(h, s) != [], MobileIn(h, s) != [])
  }

  lemma {:induction false} InOrderIsMap(agents: OMap<string, SocketId>, keys: seq<string>)
    requires forall k :: k in keys ==> k in agents.at
    ensures AgentsInOrder(agents, keys) == Map(keys, HeldBy(agents))
  {
    if keys != [] {
      assert Last(keys) in keys && forall k :: k in DropLast(keys) ==> k in keys;
      InOrderIsMap(agents, DropLast(keys));
    }
  }

  ghost predicate KnowsAgents(h: Hub, s: string) {
    s in h.peers ==> h.peers[s].agents.Valid()
  }

  lemma MobileSend(h: Hub, s: string, frame: Frame)
    ensures SendMobile(h, s, frame) == h.(sent := h.sent + Deliveries(h, MobileIn(h, s), frame))
  {
    if s in h.peers && h.peers[s].mobile.Some? {
      SendDelivers(h, h.peers[s].mobile.value, frame);
    } else {
      assert Deliveries(h, [], frame) == [];
      assert h.sent + [] == h.sent;
    }
  }

  /** The status goes to the mobile and then to every registered agent. */
  lemma StatusSend(h: Hub, s: string)
    requires KnowsAgents(h, s) && s in h.peers
    ensures Broadcast(h, s)
         == h.(sent := h.sent + Deliveries(h, MobileIn(h, s) + AgentsIn(h, s), StatusIn(h, s)))
  {
    var p := h.peers[s];
    InOrderIsMap(p.agents, p.agents.order);
    assert Recipients(p) == MobileIn(h, s) + AgentsIn(h, s);
    assert AgentsIn(h, s) != [] <==> p.agents.order != [];
    SendAllDelivers(h, Recipients(p), StatusOf(p));
  }

  // ----- whom a frame of a mobile reaches -----

  /** The registered agent of `s` with the latest hello. */
  ghost predicate LatestAgent(h: Hub, s: string, ws: SocketId) {
    exists k :: Registered(h, s, k, ws) && LatestKey(h, s, k)
  }

  ghost predicate LatestKey(h: Hub, s: string, k: string) {
    forall o, w :: Registered(h, s, o, w) && o != k ==> LastHello(h.hellos, s, o) < LastHello(h.hellos, s, k)
  }

  /** The socket registered under the id asked for, when that is not blank, else the latest agent. */
  ghost predicate Addressed(h: Hub, s: string, requested: Option<string>, ws: SocketId) {
    if requested.Some? && Trim(requested.value) != "" then Registered(h, s, Trim(requested.value), ws)
    else LatestAgent(h, s, ws)
  }

  lemma LatestIsDefault(h: Hub, s: string, ws: SocketId)
    requires Inv(h)
    ensures LatestAgent(h, s, ws) <==> ResolveTargetAgent(h, s, None) == Some(ws)
  {
    hide Inv, ResolveTargetAgent, LastHello;
    if s in h.peers {
      DefaultTargetIsLatestHello(h, s);
      var agents := h.peers[s].agents.at;
      if h.peers[s].activeWorkspaceId.Some? {
        var k := h.peers[s].activeWorkspaceId.value;
        assert Registered(h, s, k, agents[k]);
        assert LatestKey(h, s, k);
        if LatestAgent(h, s, ws) {
          var o :| Registered(h, s, o, ws) && LatestKey(h, s, o);
          assert o == k;
        }
      }
    } else {
      NobodyThere(h, s, None);
    }
  }

  lemma NobodyThere(h: Hub, s: string, requested: Option<string>)
    requires s !in h.peers
    ensures ResolveTargetAgent(h, s, requested) == None
  {
  }

  lemma BlankIsNone(h: Hub, s: string, requested: Option<string>)
    requires requested.Some? ==> Trim(requested.value) == ""
    ensures ResolveTargetAgent(h, s, requested) == ResolveTargetAgent(h, s, None)
  {
  }

  lemma AddressedIff(h: Hub, s: string, requested: Option<string>, ws: SocketId)
    requires Inv(h)
    ensures Addressed(h, s, requested, ws) <==> ResolveTargetAgent(h, s, requested) == Some(ws)
  {
    hide Inv, ResolveTargetAgent, LatestAgent, Registered, Trim;
    if requested.Some? && Trim(requested.value) != "" {
      ResolvedIsRegistered(h, s, requested.value, ws);
    } else {
      BlankIsNone(h, s, requested);
      LatestIsDefault(h, s, ws);
    }
  }

  /** The fields of a frame, as they are logged. */
  function Logged(msg: Msg, from: Role, s: string, workspaceId: Option<string>, name: Option<string>,
                  path: Option<string>, io: Io): Envelope
  {
    Envelope(io.uuid, s, from, io.now,
             Body(if msg.kind.Some? then msg.kind.value else "relay_message", workspaceId, name, path,
                  msg.target, msg.tool, msg.text, msg.payload))
  }

  lemma ForwardsTo(h: Hub, ws: SocketId, s: string, msg: Msg, io: Io)
    requires Inv(h) && ws in h.sockets && s in h.db.sessions
    ensures var env := Logged(msg, Mobile, s, msg.workspaceId, None, None, io);
            var target := ResolveTargetAgent(h, s, msg.workspaceId);
            var h' := ForwardStep(h, ws, Claims(s, Mobile), msg, io);
            && h'.appended == h.appended + [env]
            && h'.sent == h.sent + (if target.Some? && IsOpen(h, target.value)
                                    then [Delivery(target.value, Relayed(env))] else [])
            && h' == h.(db := h'.db, appended := h'.appended, sent := h'.sent)
  {
    hide Trim, Inv, AppendDb;
    var env := Logged(msg, Mobile, s, msg.workspaceId, None, None, io);
    var h1 := h.(db := AppendDb(h.db, env), appended := h.appended + [env]);
    SameTarget(h, h1, s, msg.workspaceId);
  }

  lemma SameTarget(h: Hub, h1: Hub, s: string, requested: Option<string>)
    requires h1.peers == h.peers
    ensures ResolveTargetAgent(h1, s, requested) == ResolveTargetAgent(h, s, requested)
  {
  }

  /** From `h` to `h'` a frame of a mobile was logged once, with its own fields, and handed, as logged, to the
      open agent it addresses, and to nobody else. */
  ghost predicate ReachesAddressed(h: Hub, h': Hub, s: string, msg: Msg, io: Io) {
    var env := Logged(msg, Mobile, s, msg.workspaceId, None, None, io);
    && h'.appended == h.appended + [env]
    && (forall to :: Addressed(h, s, msg.workspaceId, to) && IsOpen(h, to) ==>
         h'.sent == h.sent + [Delivery(to, Relayed(env))])
    && ((forall to :: Addressed(h, s, msg.workspaceId, to) ==> !IsOpen(h, to)) ==> h'.sent == h.sent)
    && h' == h.(db := h'.db, appended := h'.appended, sent := h'.sent)
  }

  lemma ForwardReaches(h: Hub, ws: SocketId, s: string, msg: Msg, io: Io)
    requires Inv(h) && ws in h.sockets && s in h.db.sessions
    ensures ReachesAddressed(h, ForwardStep(h, ws, Claims(s, Mobile), msg, io), s, msg, io)
  {
    hide Inv, ForwardStep, ResolveTargetAgent, Addressed, Logged;
    ForwardsTo(h, ws, s, msg, io);
    forall to: SocketId
      ensures Addressed(h, s, msg.workspaceId, to) <==> ResolveTargetAgent(h, s, msg.workspaceId) == Some(to)
    {
      AddressedIff(h, s, msg.workspaceId, to);
    }
    if forall to :: Addressed(h, s, msg.workspaceId, to) ==> !IsOpen(h, to) {
      var target := ResolveTargetAgent(h, s, msg.workspaceId);
      if target.Some? {
        assert Addressed(h, s, msg.workspaceId, target.value);
      }
      assert h.sent + [] == h.sent;
    }
  }

  /** Every frame of an authenticated mobile of a stored session does that. */
  lemma MobileFrame(codec: Codec, h: Hub, ws: SocketId, s: string, msg: Msg, io: Io)
    requires Inv(h) && Enabled(h, Message(ws, Some(msg), io))
    requires h.sockets[ws].claims == Some(Claims(s, Mobile)) && s in h.db.sessions
    ensures var env := Logged(msg, Mobile, s, msg.workspaceId, None, None, io);
            var h' := Step(codec, h, Message(ws, Some(msg), io));
            && h'.appended == h.appended + [env]
            && (forall to :: Addressed(h, s, msg.workspaceId, to) && IsOpen(h, to) ==>
                 h'.sent == h.sent + [Delivery(to, Relayed(env))])
            && ((forall to :: Addressed(h, s, msg.workspaceId, to) ==> !IsOpen(h, to)) ==> h'.sent == h.sent)
            && h' == h.(db := h'.db, appended := h'.appended, sent := h'.sent)
  {
    hide Inv, ForwardStep, Addressed, Logged;
    InvValid(h);
    ForwardReaches(h, ws, s, msg, io);
  }

  // ----- frames of agents -----

  /** A frame of an agent that is neither a hello nor a reply. */
  predicate IsForwarded(msg: Msg) {
    msg.kind != Some("agent_hello") && !IsReply(msg)
  }

  lemma AgentForwards(h: Hub, ws: SocketId, s: string, msg: Msg, io: Io)
    requires ws in h.sockets && s in h.db.sessions
    ensures var socket := h.sockets[ws];
            var wid := if msg.workspaceId.Some? then msg.workspaceId else socket.workspaceId;
            var env := Logged(msg, Agent, s, wid, socket.workspaceName, socket.workspacePath, io);
            var h' := ForwardStep(h, ws, Claims(s, Agent), msg, io);
            && h'.appended == h.appended + [env]
            && h'.sent == h.sent + Deliveries(h, MobileIn(h, s), Relayed(env))
            && h' == h.(db := h'.db, appended := h'.appended, sent := h'.sent)
  {
    hide AppendDb, Deliveries;
    var socket := h.sockets[ws];
    var wid := if msg.workspaceId.Some? then msg.workspaceId else socket.workspaceId;
    var env := Logged(msg, Agent, s, wid, socket.workspaceName, socket.workspacePath, io);
    var h1 := h.(db := AppendDb(h.db, env), appended := h.appended + [env]);
    MobileSend(h1, s, Relayed(env));
    SameDeliveries(h, h1, MobileIn(h, s), Relayed(env));
  }

  lemma SameDeliveries(h: Hub, h1: Hub, to: seq<SocketId>, frame: Frame)
    requires h1.sockets == h.sockets
    ensures Deliveries(h1, to, frame) == Deliveries(h, to, frame)
  {
    FilterCongruence(to, OpenIn(h), OpenIn(h1));
  }

  /** A frame of an agent of a stored session that is neither a hello nor a reply is logged once, under
      its own workspace id or else its socket's, and handed to the current mobile, if that is open. */
  lemma AgentFrame(codec: Codec, h: Hub, ws: SocketId, s: string, msg: Msg, io: Io)
    requires Inv(h) && Enabled(h, Message(ws, Some(msg), io)) && IsForwarded(msg)
    requires h.sockets[ws].claims == Some(Claims(s, Agent)) && s in h.db.sessions
    ensures var socket := h.sockets[ws];
            var wid := if msg.workspaceId.Some? then msg.workspaceId else socket.workspaceId;
            var env := Logged(msg, Agent, s, wid, socket.workspaceName, socket.workspacePath, io);
            var h' := Step(codec, h, Message(ws, Some(msg), io));
            && h'.appended == h.appended + [env]
            && h'.sent == h.sent + Deliveries(h, MobileIn(h, s), Relayed(env))
            && h' == h.(db := h'.db, appended := h'.appended, sent := h'.sent)
  {
    hide Inv, ForwardStep, Deliveries, MobileIn, Logged, UpsertSnapshotDb;
    InvValid(h);
    var h1 := SnapshotStep(codec, h, ws, s, msg, io.now).0;
    UpsertKeepsSessions(codec, h, ws, s, msg, io.now);
    AgentForwards(h, ws, s, msg, io);
    AgentForwards(h1, ws, s, msg, io);
    SameMobile(h, h1, s);
    SameDeliveries(h, h1, MobileIn(h, s), Relayed(Last(ForwardStep(h1, ws, Claims(s, Agent), msg, io).appended)));
  }

  lemma SameMobile(h: Hub, h1: Hub, s: string)
    requires h1.peers == h.peers
    ensures MobileIn(h1, s) == MobileIn(h, s)
  {
  }

  lemma UpsertKeepsSessions(codec: Codec, h: Hub, ws: SocketId, s: string, msg: Msg, now: int)
    requires ws in h.sockets && s in h.db.sessions
    ensures var (h1, outcome) := SnapshotStep(codec, h, ws, s, msg, now);
            outcome == Handled && h1 == h.(db := h1.db) && h1.db == h.db.(snapshots := h1.db.snapshots)
  {
  }

  /** What an object has under a key; of two equal keys the later counts. */
  ghost predicate Under(fields: seq<(string, Json)>, name: string, value: Option<Json>) {
    if value.None? then forall i :: 0 <= i < |fields| ==> fields[i].0 != name
    else exists i :: 0 <= i < |fields| && fields[i] == (name, value.value)
                     && forall j :: i < j < |fields| ==> fields[j].0 != name
  }

  lemma {:induction false} FieldIff(fields: seq<(string, Json)>, name: string)
    ensures Under(fields, name, Field(fields, name))
  {
    if fields != [] {
      var init := DropLast(fields);
      FieldIff(init, name);
      if Last(fields).0 == name {
        assert fields[|fields| - 1] == (name, Last(fields).1);
      } else if Field(init, name).Some? {
        var i :| 0 <= i < |init| && init[i] == (name, Field(init, name).value)
                 && forall j :: i < j < |init| ==> init[j].0 != name;
        assert fields[i] == init[i];
        forall j | i < j < |fields| ensures fields[j].0 != name {
          assert j < |init| ==> fields[j] == init[j];
        }
      } else {
        forall j | 0 <= j < |fields| ensures fields[j].0 != name {
          assert j < |init| ==> fields[j] == init[j];
        }
      }
    }
  }

  lemma UnderUnique(fields: seq<(string, Json)>, name: string, a: Option<Json>, b: Option<Json>)
    requires Under(fields, name, a) && Under(fields, name, b)
    ensures a == b
  {
  }

  /** The status a frame carries: under the six names in its `payload`, when that is an object; none of
      them when it is an array; else the frame's own. */
  ghost predicate CarriesStatus(msg: Msg, p: Payload) {
    if msg.payload.Some? && msg.payload.value.Object? then
      var fields := msg.payload.value.fields;
      && Under(fields, "ideState", p.ideState)
      && Under(fields, "previewUrl", p.previewUrl)
      && Under(fields, "fileTree", p.fileTree)
      && Under(fields, "adapters", p.adapters)
      && Under(fields, "activeAdapter", p.activeAdapter)
      && Under(fields, "timestamp", p.timestamp)
    else if msg.payload.Some? && msg.payload.value.Array? then p == Payload(None, None, None, None, None, None)
    else p == msg.own
  }

  lemma StatusIff(msg: Msg, p: Payload)
    ensures CarriesStatus(msg, p) <==> p == StatusPayload(msg)
  {
    hide Under, Field;
    if msg.payload.Some? && msg.payload.value.Object? {
      var fields, q := msg.payload.value.fields, StatusPayload(msg);
      FieldIff(fields, "ideState");
      FieldIff(fields, "previewUrl");
      FieldIff(fields, "fileTree");
      FieldIff(fields, "adapters");
      FieldIff(fields, "activeAdapter");
      FieldIff(fields, "timestamp");
      if CarriesStatus(msg, p) {
        UnderUnique(fields, "ideState", p.ideState, q.ideState);
        UnderUnique(fields, "previewUrl", p.previewUrl, q.previewUrl);
        UnderUnique(fields, "fileTree", p.fileTree, q.fileTree);
        UnderUnique(fields, "adapters", p.adapters, q.adapters);
        UnderUnique(fields, "activeAdapter", p.activeAdapter, q.activeAdapter);
        UnderUnique(fields, "timestamp", p.timestamp, q.timestamp);
      }
    }
  }

  /** A status frame of an agent of a stored session merges what it carries into the snapshot of its
      workspace, the frame's or else the socket's; any other forwarded frame leaves the snapshots. */
  lemma StatusFrame(codec: Codec, h: Hub, ws: SocketId, s: string, msg: Msg, io: Io, p: Payload)
    requires Inv(h) && Enabled(h, Message(ws, Some(msg), io)) && IsForwarded(msg) && CarriesStatus(msg, p)
    requires h.sockets[ws].claims == Some(Claims(s, Agent)) && s in h.db.sessions
    ensures var wid := if msg.workspaceId.Some? then msg.workspaceId else h.sockets[ws].workspaceId;
            var was, h' := h.db.snapshots, Step(codec, h, Message(ws, Some(msg), io));
            if msg.kind == Some("status_snapshot") && wid.Some? && wid.value != "" then
              var key := (s, wid.value);
              h'.db.snapshots == was[key := UpsertRow(codec, if key in was then Some(was[key]) else None, p, io.now)]
            else h'.db.snapshots == was
  {
    hide Inv, StatusPayload, CarriesStatus, UpsertRow;
    StatusIff(msg, p);
    InvValid(h);
    var h1 := SnapshotStep(codec, h, ws, s, msg, io.now).0;
    UpsertKeepsSessions(codec, h, ws, s, msg, io.now);
    ForwardKeepsSnapshots(h, ws, Claims(s, Agent), msg, io);
    ForwardKeepsSnapshots(h1, ws, Claims(s, Agent), msg, io);
    hide ForwardStep;
  }

  lemma ForwardKeepsSnapshots(h: Hub, ws: SocketId, claims: Claims, msg: Msg, io: Io)
    requires ws in h.sockets
    ensures ForwardStep(h, ws, claims, msg, io).db.snapshots == h.db.snapshots
  {
  }

  /** The socket is being closed; nothing else happened. */
  function Turned(h: Hub, ws: SocketId): Hub
    requires ws in h.sockets
  {
    if h.sockets[ws].ready == Open then h.(sockets := h.sockets[ws := h.sockets[ws].(ready := Closing)]) else h
  }

  /** Of a session that is gone nothing is forwarded: the socket is closed and that is all. */
  lemma GoneSession(codec: Codec, h: Hub, ws: SocketId, s: string, role: Role, msg: Msg, io: Io)
    requires Inv(h) && Enabled(h, Message(ws, Some(msg), io))
    requires h.sockets[ws].claims == Some(Claims(s, role)) && s !in h.db.sessions
    requires role == Agent ==> IsForwarded(msg) && !WritesUnchecked(h.sockets[ws], msg)
    ensures Step(codec, h, Message(ws, Some(msg), io)) == Turned(h, ws)
  {
    hide Inv;
    InvValid(h);
    assert h.sockets[ws := h.sockets[ws]] == h.sockets;
  }

  // ----- over runs -----

  /** In a run in which no two live sockets of a session go by one id, a mobile's frame for an id is handed
      to the live agent whose latest hello named it, when that is open, and else to nobody. */
  lemma FrameReachesLiveAgent(codec: Codec, clock: int, states: seq<Hub>, events: seq<Event>, i: nat,
                              ws: SocketId, s: string, msg: Msg, io: Io)
    requires Execution(codec, clock, states, events) && i < |events| && events[i] == Message(ws, Some(msg), io)
    requires forall j :: 0 <= j <= i ==> NoCollision(states[j])
    requires ws in states[i].sockets && states[i].sockets[ws].claims == Some(Claims(s, Mobile))
    requires s in states[i].db.sessions && msg.workspaceId.Some? && Trim(msg.workspaceId.value) != ""
    ensures var h, h', k := states[i], states[i + 1], Trim(msg.workspaceId.value);
            var env := Logged(msg, Mobile, s, msg.workspaceId, None, None, io);
            && h'.appended == h.appended + [env]
            && (forall to :: Claiming(h, s, k, to) && IsOpen(h, to) ==>
                 h'.sent == h.sent + [Delivery(to, Relayed(env))])
            && ((forall to :: Claiming(h, s, k, to) ==> !IsOpen(h, to)) ==> h'.sent == h.sent)
  {
    hide Inv, Claiming, Registered, Step, Enabled, Trim, NoCollision, Logged;
    var h, k := states[i], Trim(msg.workspaceId.value);
    ReachableInv(codec, clock, states, events, i);
    assert IsStep(codec, h, events[i], states[i + 1]);
    MobileFrame(codec, h, ws, s, msg, io);
    AllReachableIff(codec, clock, states, events, i);
    forall to: SocketId ensures Addressed(h, s, msg.workspaceId, to) <==> Claiming(h, s, k, to) {
      if Registered(h, s, k, to) {
        RegisteredClaims(h, s, k, to);
      }
    }
  }
}
