/** What every reachable state of the hub satisfies. */
module RelayHubInvariants {
  import opened Options
  import opened Sequences
  import opened OrderedMaps
  import opened Messages
  import opened HistoryLog
  import opened Snapshots
  import opened StoreTables
  import opened RelayHubModel
  import AR = AgentRequests

  // ----- hellos -----

  /** The position of the latest hello for workspace `k` in session `s`, or -1. */
  function LastHello(hellos: seq<Hello>, s: string, k: string): int {
    if hellos == [] then -1
    else if Last(hellos).sessionId == s && Last(hellos).workspaceId == k then |hellos| - 1
    else LastHello(DropLast(hellos), s, k)
  }

  lemma {:induction false} LastHelloBounds(hellos: seq<Hello>, s: string, k: string)
    ensures -1 <= LastHello(hellos, s, k) < |hellos|
    ensures var i := LastHello(hellos, s, k);
            i >= 0 ==> hellos[i].sessionId == s && hellos[i].workspaceId == k
    ensures forall j :: LastHello(hellos, s, k) < j < |hellos| ==>
              !(hellos[j].sessionId == s && hellos[j].workspaceId == k)
  {
    if hellos != [] {
      LastHelloBounds(DropLast(hellos), s, k);
    }
  }

  lemma LastHelloPush(hellos: seq<Hello>, x: Hello, s: string, k: string)
    ensures LastHello(hellos + [x], s, k)
         == if x.sessionId == s && x.workspaceId == k then |hellos| else LastHello(hellos, s, k)
  {
    assert DropLast(hellos + [x]) == hellos;
  }

  function HelloBefore(hellos: seq<Hello>, s: string): (string, string) -> bool {
    (a: string, b: string) => LastHello(hellos, s, a) < LastHello(hellos, s, b)
  }

  /** `ws` said the latest hello for `k` in session `s`. */
  predicate LatestBy(hellos: seq<Hello>, s: string, k: string, ws: SocketId) {
    var i := LastHello(hellos, s, k);
    0 <= i < |hellos| && hellos[i].socket == ws
  }

  // ----- one session -----

  /** An agent under key `k` has not been closed, belongs to the session and goes by that key. */
  predicate AgentUnder(sockets: map<SocketId, Socket>, s: string, k: string, ws: SocketId) {
    && ws in sockets
    && sockets[ws].ready != Closed
    && sockets[ws].claims == Some(Claims(s, Agent))
    && sockets[ws].workspaceId == Some(k)
  }

  predicate MobileOf(sockets: map<SocketId, Socket>, s: string, ws: SocketId) {
    ws in sockets && sockets[ws].ready != Closed && sockets[ws].claims == Some(Claims(s, Mobile))
  }

  predicate Member(sockets: map<SocketId, Socket>, s: string, ws: SocketId) {
    && ws in sockets
    && sockets[ws].ready != Closed
    && sockets[ws].claims.Some?
    && sockets[ws].claims.value.sessionId == s
  }

  /** The agents map holds live agents of the session, in the order of their latest hellos. */
  ghost predicate AgentsOk(sockets: map<SocketId, Socket>, hellos: seq<Hello>, s: string,
                           agents: OMap<string, SocketId>)
  {
    && agents.Valid()
    && (forall k :: k in agents.at ==> AgentUnder(sockets, s, k, agents.at[k]))
    && (forall k :: k in agents.at ==> LatestBy(hellos, s, k, agents.at[k]))
    && Pairwise(agents.order, HelloBefore(hellos, s))
  }

  ghost predicate PeersOk(sockets: map<SocketId, Socket>, hellos: seq<Hello>, s: string, p: SessionPeers) {
    && AgentsOk(sockets, hellos, s, p.agents)
    && (p.mobile.Some? ==> MobileOf(sockets, s, p.mobile.value))
    && p.activeWorkspaceId == LastKey(p.agents)
  }

  // ----- the hub -----

  /** Only an agent has a workspace id, and never the empty one. */
  ghost predicate SocketsOk(sockets: map<SocketId, Socket>) {
    forall w :: w in sockets && sockets[w].workspaceId.Some? ==>
      sockets[w].claims.Some? && sockets[w].claims.value.role == Agent && sockets[w].workspaceId.value != ""
  }

  ghost predicate PeersInv(h: Hub) {
    && SocketsOk(h.sockets)
    && (forall s :: s in h.peers ==> PeersOk(h.sockets, h.hellos, s, h.peers[s]))
    && (forall s :: s in h.peers ==> exists ws :: Member(h.sockets, s, ws))
  }

  /** What was sent went to authenticated sockets. */
  ghost predicate SentInv(sockets: map<SocketId, Socket>, sent: seq<Delivery>) {
    forall d :: d in sent ==> d.to in sockets && sockets[d.to].claims.Some?
  }

  predicate DifferentMessages(a: Row, b: Row) {
    a.env != b.env
  }

  /** No message id is used twice; the history table holds appended messages only, each once. */
  ghost predicate LogInv(appended: seq<Envelope>, history: seq<Row>) {
    && NoDup(MessageIds(appended))
    && (forall r :: r in history ==> r.env in appended)
    && Pairwise(history, DifferentMessages)
  }

  function MessageIds(envs: seq<Envelope>): seq<string> {
    if envs == [] then [] else MessageIds(DropLast(envs)) + [Last(envs).id]
  }

  ghost predicate Inv(h: Hub) {
    PeersInv(h) && SentInv(h.sockets, h.sent) && LogInv(h.appended, h.db.history) && Sound(h.db) && AR.Inv(h.requests)
  }

  // ----- sending changes nothing but the record of what was sent -----

  /** The deliveries after the first `n` belong to session `s`: both ends and the content. */
  ghost predicate StaysIn(h: Hub, n: nat, s: string) {
    forall i :: n <= i < |h.sent| ==> Belongs(h, h.sent[i], s)
  }

  ghost predicate Belongs(h: Hub, d: Delivery, s: string) {
    && Member(h.sockets, s, d.to)
    && h.sockets[d.to].ready == Open
    && (d.frame.Relayed? ==> d.frame.env.sessionId == s)
    && (d.frame.AuthOk? ==> d.frame.sessionId == s && forall env :: env in d.frame.history ==> env.sessionId == s)
  }

  /** `h'` is `h` after sending frames to sockets of `s`. */
  ghost predicate OnlySent(h: Hub, h': Hub, s: string) {
    && h' == h.(sent := h'.sent)
    && |h.sent| <= |h'.sent|
    && h'.sent[..|h.sent|] == h.sent
    && StaysIn(h', |h.sent|, s)
  }

  predicate FrameOf(frame: Frame, s: string) {
    && (frame.Relayed? ==> frame.env.sessionId == s)
    && (frame.AuthOk? ==> frame.sessionId == s && forall env :: env in frame.history ==> env.sessionId == s)
  }

  lemma SendOnly(h: Hub, to: SocketId, frame: Frame, s: string)
    requires to in h.sockets ==> Member(h.sockets, s, to) || h.sockets[to].ready == Closed
    requires FrameOf(frame, s)
    ensures OnlySent(h, Send(h, to, frame), s)
  {
  }

  lemma OnlySentTransitive(h: Hub, h1: Hub, h2: Hub, s: string)
    requires OnlySent(h, h1, s) && OnlySent(h1, h2, s)
    ensures OnlySent(h, h2, s)
  {
    assert h2.sent[..|h.sent|] == h2.sent[..|h1.sent|][..|h.sent|];
    forall i | |h.sent| <= i < |h2.sent| ensures Belongs(h2, h2.sent[i], s) {
      if i < |h1.sent| {
        assert h2.sent[i] == h1.sent[i];
        assert Belongs(h1, h1.sent[i], s);
      }
    }
  }

  ghost predicate AllMembers(h: Hub, to: seq<SocketId>, s: string) {
    forall w :: w in to ==> Member(h.sockets, s, w)
  }

  lemma {:induction false} SendAllOnly(h: Hub, to: seq<SocketId>, frame: Frame, s: string)
    requires AllMembers(h, to, s) && FrameOf(frame, s)
    ensures OnlySent(h, SendAll(h, to, frame), s)
  {
    if to != [] {
      assert Last(to) in to;
      assert forall w :: w in DropLast(to) ==> w in to;
      var h1 := SendAll(h, DropLast(to), frame);
      SendAllOnly(h, DropLast(to), frame, s);
      SendOnly(h1, Last(to), frame, s);
      OnlySentTransitive(h, h1, Send(h1, Last(to), frame), s);
    }
  }

  lemma {:induction false} AgentsInOrderMembers(h: Hub, agents: OMap<string, SocketId>, keys: seq<string>, s: string)
    requires forall k :: k in agents.at ==> AgentUnder(h.sockets, s, k, agents.at[k])
    ensures AllMembers(h, AgentsInOrder(agents, keys), s)
  {
    if keys != [] {
      AgentsInOrderMembers(h, agents, DropLast(keys), s);
    }
  }

  lemma BroadcastOnly(h: Hub, s: string)
    requires s in h.peers ==> PeersOk(h.sockets, h.hellos, s, h.peers[s])
    ensures OnlySent(h, Broadcast(h, s), s)
  {
    if s in h.peers {
      var p := h.peers[s];
      AgentsInOrderMembers(h, p.agents, p.agents.order, s);
      SendAllOnly(h, Recipients(p), StatusOf(p), s);
    }
  }

  lemma SendMobileOnly(h: Hub, s: string, frame: Frame)
    requires s in h.peers ==> PeersOk(h.sockets, h.hellos, s, h.peers[s])
    requires FrameOf(frame, s)
    ensures OnlySent(h, SendMobile(h, s, frame), s)
  {
    if s in h.peers && h.peers[s].mobile.Some? {
      SendOnly(h, h.peers[s].mobile.value, frame, s);
    }
  }

  // ----- the agents map -----

  lemma DeleteAgentsOk(sockets: map<SocketId, Socket>, hellos: seq<Hello>, s: string,
                       agents: OMap<string, SocketId>, k: string)
    requires AgentsOk(sockets, hellos, s, agents)
    ensures AgentsOk(sockets, hellos, s, Delete(agents, k))
    ensures k !in Delete(agents, k).at
  {
    hide Filter, LastHello;
    DeleteValid(agents, k);
    PairwiseFilter(agents.order, OtherThan(k), HelloBefore(hellos, s));
  }

  /** A hello for a key that is not there puts the socket last. */
  lemma PutAgentsOk(sockets: map<SocketId, Socket>, hellos: seq<Hello>, s: string,
                    agents: OMap<string, SocketId>, k: string, ws: SocketId)
    requires AgentsOk(sockets, hellos, s, agents) && k !in agents.at
    requires AgentUnder(sockets, s, k, ws)
    ensures AgentsOk(sockets, hellos + [Hello(s, k, ws)], s, Put(agents, k, ws))
  {
    hide Filter, LastHello;
    var more := hellos + [Hello(s, k, ws)];
    assert k !in agents.order;
    NoDupPush(agents.order, k);
    forall x ensures LastHello(more, s, x) == if x == k then |hellos| else LastHello(hellos, s, x) {
      LastHelloPush(hellos, Hello(s, k, ws), s, x);
    }
    forall x ensures LastHello(hellos, s, x) < |hellos| {
      LastHelloBounds(hellos, s, x);
    }
    forall x, y | x in agents.order && y in agents.order
      ensures HelloBefore(hellos, s)(x, y) == HelloBefore(more, s)(x, y)
    {
    }
    PairwiseCongruence(agents.order, HelloBefore(hellos, s), HelloBefore(more, s));
    PairwisePush(agents.order, k, HelloBefore(more, s));
  }

  /** Entries that do not mention `ws` do not depend on what `ws` is. */
  lemma AgentsOkElsewhere(sockets: map<SocketId, Socket>, sockets': map<SocketId, Socket>, hellos: seq<Hello>,
                          s: string, agents: OMap<string, SocketId>, ws: SocketId)
    requires AgentsOk(sockets, hellos, s, agents)
    requires forall w :: w in sockets && w != ws ==> w in sockets' && sockets'[w] == sockets[w]
    requires forall k :: k in agents.at ==> agents.at[k] != ws
    ensures AgentsOk(sockets', hellos, s, agents)
  {
    hide Filter, LastHello;
  }

  /** Leaving the old key and taking the new one, as one step. */
  lemma RekeyedOk(sockets: map<SocketId, Socket>, sockets': map<SocketId, Socket>, hellos: seq<Hello>, s: string,
                  agents: OMap<string, SocketId>, id: string, ws: SocketId)
    requires AgentsOk(sockets, hellos, s, agents)
    requires ws in sockets
    requires forall w :: w in sockets && w != ws ==> w in sockets' && sockets'[w] == sockets[w]
    requires AgentUnder(sockets', s, id, ws)
    ensures AgentsOk(sockets', hellos + [Hello(s, id, ws)], s, Rekeyed(agents, sockets[ws].workspaceId, id, ws))
    ensures LastKey(Rekeyed(agents, sockets[ws].workspaceId, id, ws)) == Some(id)
  {
    hide Filter, LastHello;
    var was := sockets[ws].workspaceId;
    var left := if was.Some? && was.value != id then Delete(agents, was.value) else agents;
    if was.Some? && was.value != id {
      DeleteAgentsOk(sockets, hellos, s, agents, was.value);
    }
    DeleteAgentsOk(sockets, hellos, s, left, id);
    forall k | k in Delete(left, id).at ensures Delete(left, id).at[k] != ws {
      assert AgentUnder(sockets, s, k, Delete(left, id).at[k]);
    }
    AgentsOkElsewhere(sockets, sockets', hellos, s, Delete(left, id), ws);
    PutAgentsOk(sockets', hellos, s, Delete(left, id), id, ws);
  }

  /** The cached active id is still the last key after a delete. */
  lemma WithoutAgentActive(p: SessionPeers, k: string)
    requires p.agents.Valid() && p.activeWorkspaceId == LastKey(p.agents)
    ensures WithoutAgent(p, k).activeWorkspaceId == LastKey(WithoutAgent(p, k).agents)
  {
    if p.activeWorkspaceId != Some(k) && p.agents.order != [] {
      DeleteKeepsLast(p.agents, k);
    }
  }

  // ----- other sessions -----

  /** A step on socket `ws` of session `s` leaves the entry of another session as good as it was. */
  lemma PeersOkElsewhere(h: Hub, h': Hub, ws: SocketId, s: string, other: string)
    requires other != s && PeersOk(h.sockets, h.hellos, other, PeersOf(h, other))
    requires PeersOf(h', other) == PeersOf(h, other)
    requires forall w :: w in h.sockets && w != ws ==> w in h'.sockets && h'.sockets[w] == h.sockets[w]
    requires ws in h.sockets && h.sockets[ws].claims.Some? ==> h.sockets[ws].claims.value.sessionId == s
    requires || h'.hellos == h.hellos
             || (|h'.hellos| > 0 && DropLast(h'.hellos) == h.hellos && Last(h'.hellos).sessionId == s)
    ensures PeersOk(h'.sockets, h'.hellos, other, PeersOf(h', other))
  {
    hide Filter;
    var p := PeersOf(h, other);
    forall x ensures LastHello(h'.hellos, other, x) == LastHello(h.hellos, other, x) {}
    forall k | k in p.agents.at ensures LatestBy(h'.hellos, other, k, p.agents.at[k]) {
      LastHelloBounds(h.hellos, other, k);
    }
    PairwiseCongruence(p.agents.order, HelloBefore(h.hellos, other), HelloBefore(h'.hellos, other));
    forall k | k in p.agents.at ensures p.agents.at[k] != ws {
      assert AgentUnder(h.sockets, other, k, p.agents.at[k]);
    }
    AgentsOkElsewhere(h.sockets, h'.sockets, h'.hellos, other, p.agents, ws);
  }
}
