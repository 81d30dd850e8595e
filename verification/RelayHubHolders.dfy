/** Who holds a workspace id in any run, collisions or not (relay/src/server.ts). */
module RelayHubHolders {
  import opened Options
  import opened Sequences
  import opened OrderedMaps
  import opened Texts
  import opened Messages
  import opened Snapshots
  import opened StoreTables
  import opened RelayHubModel
  import opened RelayHubInvariants
  import opened RelayHubSteps
  import opened RelayHubRuns
  import opened RelayHubReachability
  import AR = AgentRequests

  /** The id the event's hello names, when it is a hello of an agent of `s`. */
  function HelloIn(h: Hub, e: Event, s: string): Option<string> {
    if e.Message? && e.raw.Some? && e.ws in h.sockets && h.sockets[e.ws].claims == Some(Claims(s, Agent))
       && e.raw.value.kind == Some("agent_hello") && HelloId(e.raw.value) != ""
    then Some(HelloId(e.raw.value))
    else None
  }

  /** A live socket going by `k` closes, or says hello under another id. */
  predicate Leaves(h: Hub, e: Event, s: string, k: string) {
    || (e.CloseEvent? && Claiming(h, s, k, e.ws))
    || (e.Message? && Claiming(h, s, k, e.ws) && HelloIn(h, e, s).Some? && HelloIn(h, e, s) != Some(k))
  }

  /** An event that decides who holds `k` from now on. */
  predicate Touches(h: Hub, e: Event, s: string, k: string) {
    HelloIn(h, e, s) == Some(k) || Leaves(h, e, s, k)
  }

  function HolderOf(h: Hub, s: string, k: string): Option<SocketId> {
    if s in h.peers then h.peers[s].agents.Get(k) else None
  }

  /** What an event does to the holder of an id. */
  function HolderAfter(h: Hub, e: Event, s: string, k: string): Option<SocketId> {
    if HelloIn(h, e, s) == Some(k) then Some(e.ws)
    else if Leaves(h, e, s, k) then None
    else HolderOf(h, s, k)
  }

  lemma HelloHolder(h: Hub, ws: SocketId, o: string, id: string, name: string, path: Option<string>, now: int,
                    s: string, k: string)
    requires Inv(h) && Live(h, ws) && h.sockets[ws].claims == Some(Claims(o, Agent))
    ensures HolderOf(RegisterStep(h, ws, o, id, name, path, now).0, s, k)
         == if o == s && id == k then Some(ws)
            else if o == s && h.sockets[ws].workspaceId == Some(k) then None
            else HolderOf(h, s, k)
  {
    hide Inv, RegisterStep, Rekeyed;
    RegisterFields(h, ws, o, id, name, path, now);
    RekeyedAt(PeersOf(h, o).agents, h.sockets[ws].workspaceId, id, ws, k);
  }

  lemma LaterFrameHolder(codec: Codec, h: Hub, ws: SocketId, claims: Claims, msg: Msg, io: Io, s: string, k: string)
    requires Inv(h) && Live(h, ws) && h.sockets[ws].claims == Some(claims)
    ensures HolderOf(LaterFrame(codec, h, ws, claims, msg, io).0, s, k)
         == HolderAfter(h, Message(ws, Some(msg), io), s, k)
  {
    hide Inv, RegisterStep, ForwardStep;
    var o := claims.sessionId;
    if claims.role == Agent && msg.kind == Some("agent_hello") {
      if HelloId(msg) != "" {
        var name := msg.workspaceName.GetOr(msg.workspaceId.GetOr(""));
        HelloHolder(h, ws, o, HelloId(msg), name, msg.workspacePath, io.now, s, k);
      }
    } else {
      ForwardFields(h, ws, claims, msg, io);
      ForwardFields(SnapshotStep(codec, h, ws, o, msg, io.now).0, ws, claims, msg, io);
    }
  }

  lemma AuthHolder(h: Hub, ws: SocketId, claims: Claims, io: Io, s: string, k: string)
    requires ws in h.sockets && h.db.workspaces.Valid()
    ensures HolderOf(AuthStep(h, ws, claims, io), s, k) == HolderOf(h, s, k)
  {
    AuthFields(h, ws, claims, io);
  }

  lemma CloseHolder(h: Hub, ws: SocketId, s: string, k: string)
    requires Inv(h) && Live(h, ws)
    ensures HolderOf(OnClose(h, ws), s, k) == if Claiming(h, s, k, ws) then None else HolderOf(h, s, k)
  {
    hide OnClose, Inv, PeersAfterClose;
    CloseFields(h, ws);
    if h.sockets[ws].claims.Some? && SessionOf(h, ws) in h.peers {
      CloseAgents(h, ws, SessionOf(h, ws), k);
    }
  }

  /** The agents of the closing socket's session. */
  lemma CloseAgents(h: Hub, ws: SocketId, o: string, k: string)
    requires Inv(h) && Live(h, ws) && h.sockets[ws].claims.Some? && SessionOf(h, ws) == o && o in h.peers
    ensures var p := PeersAfterClose(h, ws, o);
            && p.agents.Get(k) == (if Claiming(h, o, k, ws) then None else h.peers[o].agents.Get(k))
            && (p.agents.order == [] ==> p.agents.Get(k) == None)
  {
    hide Filter, LastHello, Sound, LogInv, AR.Inv;
    var p := PeersAfterClose(h, ws, o);
    PeersAfterCloseOk(h, ws, o);
    assert k in p.agents.at ==> k in p.agents.order;
    if h.sockets[ws].workspaceId.Some? {
      OnlyAgentsAreNamed(h, ws);
    }
  }

  lemma OnlyAgentsAreNamed(h: Hub, ws: SocketId)
    requires Inv(h) && ws in h.sockets && h.sockets[ws].workspaceId.Some?
    ensures h.sockets[ws].claims.Some? && h.sockets[ws].claims.value.role == Agent
  {
  }

  /** One event, whatever it is. */
  lemma StepHolder(codec: Codec, h: Hub, e: Event, s: string, k: string)
    requires Inv(h) && Enabled(h, e)
    ensures HolderOf(Step(codec, h, e), s, k) == HolderAfter(h, e, s, k)
  {
    hide PeersInv, SentInv, LogInv, AR.Inv, AuthStep, LaterFrame, OnClose, Apply, HolderOf;
    match e
    case Message(ws, raw, io) =>
      if raw.Some? {
        if h.sockets[ws].claims.Some? {
          LaterFrameHolder(codec, h, ws, h.sockets[ws].claims.value, raw.value, io, s, k);
        } else if raw.value.verified.Some? && raw.value.verified.value.sessionId in h.db.sessions {
          AuthHolder(h, ws, raw.value.verified.value, io, s, k);
        } else {
          SameHolder(h, Step(codec, h, e), s, k);
        }
      } else {
        SameHolder(h, Step(codec, h, e), s, k);
      }
    case CloseEvent(ws) => CloseHolder(h, ws, s, k);
    case _ => SameHolder(h, Step(codec, h, e), s, k);
  }

  lemma SameHolder(h: Hub, h': Hub, s: string, k: string)
    requires h'.peers == h.peers
    ensures HolderOf(h', s, k) == HolderOf(h, s, k)
  {
  }

  /** Between `i` and `n` nobody said hello for `k`, and nobody going by it closed or renamed. */
  ghost predicate Untouched(states: seq<Hub>, events: seq<Event>, i: nat, n: nat, s: string, k: string)
    requires n <= |events| && |states| == |events| + 1
  {
    forall j :: i <= j < n ==> !Touches(states[j], events[j], s, k)
  }

  /** `ws` said the latest hello for `k` up to state `n`, and no socket going by `k` has left since. */
  ghost predicate SaidLast(states: seq<Hub>, events: seq<Event>, n: nat, s: string, k: string, ws: SocketId)
    requires n <= |events| && |states| == |events| + 1
  {
    exists i :: SaidAt(states, events, n, s, k, ws, i)
  }

  ghost predicate SaidAt(states: seq<Hub>, events: seq<Event>, n: nat, s: string, k: string, ws: SocketId, i: int)
    requires n <= |events| && |states| == |events| + 1
  {
    && 0 <= i < n
    && events[i].Message? && events[i].ws == ws && HelloIn(states[i], events[i], s) == Some(k)
    && Untouched(states, events, i + 1, n, s, k)
  }

  /** In any run, collisions or not: a socket is registered under an id exactly when it said the latest
      hello for it and no socket going by that id has closed or taken another id since. */
  lemma {:induction false} RegisteredIffSaidLast(codec: Codec, clock: int, states: seq<Hub>, events: seq<Event>, n: nat,
                                                s: string, k: string, ws: SocketId)
    requires Execution(codec, clock, states, events) && n <= |events|
    ensures Registered(states[n], s, k, ws) <==> SaidLast(states, events, n, s, k, ws)
  {
    hide Inv, Step, Enabled, HelloIn, Leaves;
    if n > 0 {
      var h, e := states[n - 1], events[n - 1];
      RegisteredIffSaidLast(codec, clock, states, events, n - 1, s, k, ws);
      ReachableInv(codec, clock, states, events, n - 1);
      assert IsStep(codec, h, e, states[n]);
      StepHolder(codec, h, e, s, k);
      HelloIsMessage(h, e, s);
      if HelloIn(h, e, s) == Some(k) {
        if e.ws == ws {
          assert Untouched(states, events, n, n, s, k);
          assert SaidAt(states, events, n, s, k, ws, n - 1);
        } else {
          NotSaidBefore(states, events, n, s, k, ws);
        }
      } else if Leaves(h, e, s, k) {
        NotSaidBefore(states, events, n, s, k, ws);
      } else {
        SaidLonger(states, events, n, s, k, ws);
      }
    }
  }

  lemma HelloIsMessage(h: Hub, e: Event, s: string)
    ensures HelloIn(h, e, s).Some? ==> e.Message?
  {
  }

  lemma UntouchedLonger(states: seq<Hub>, events: seq<Event>, i: nat, n: nat, s: string, k: string)
    requires 0 < n <= |events| && |states| == |events| + 1 && i < n
    ensures Untouched(states, events, i, n, s, k)
       <==> Untouched(states, events, i, n - 1, s, k) && !Touches(states[n - 1], events[n - 1], s, k)
  {
    hide Touches;
  }

  lemma NotSaidBefore(states: seq<Hub>, events: seq<Event>, n: nat, s: string, k: string, ws: SocketId)
    requires 0 < n <= |events| && |states| == |events| + 1
    requires HelloIn(states[n - 1], events[n - 1], s) == Some(k) ==> events[n - 1].Message? && events[n - 1].ws != ws
    requires Touches(states[n - 1], events[n - 1], s, k)
    ensures !SaidLast(states, events, n, s, k, ws)
  {
    hide HelloIn, Touches, Untouched;
    forall i ensures !SaidAt(states, events, n, s, k, ws, i) {
      if 0 <= i < n - 1 {
        UntouchedLonger(states, events, i + 1, n, s, k);
      }
    }
  }

  lemma SaidLonger(states: seq<Hub>, events: seq<Event>, n: nat, s: string, k: string, ws: SocketId)
    requires 0 < n <= |events| && |states| == |events| + 1
    requires !Touches(states[n - 1], events[n - 1], s, k)
    ensures SaidLast(states, events, n, s, k, ws) <==> SaidLast(states, events, n - 1, s, k, ws)
  {
    hide HelloIn, Leaves, Untouched;
    forall i ensures SaidAt(states, events, n, s, k, ws, i) <==> SaidAt(states, events, n - 1, s, k, ws, i) {
      if 0 <= i < n - 1 {
        UntouchedLonger(states, events, i + 1, n, s, k);
      }
    }
    if SaidLast(states, events, n, s, k, ws) {
      var i :| SaidAt(states, events, n, s, k, ws, i);
      assert SaidAt(states, events, n - 1, s, k, ws, i);
    }
    if SaidLast(states, events, n - 1, s, k, ws) {
      var i :| SaidAt(states, events, n - 1, s, k, ws, i);
      assert SaidAt(states, events, n, s, k, ws, i);
    }
  }
}
