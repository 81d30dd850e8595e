/** The store object itself: each method runs its statements one after the other on the tables. */
module RelayStoreObject {
  import opened Options
  import opened Sequences
  import opened OrderedMaps
  import opened Messages
  import opened HistoryLog
  import opened Snapshots
  import opened StoreTables
  import SR = StoreRuns

  class RelayStore {
    const codec: Codec
    var sessions: map<string, Session>
    var workspaces: OMap<Key, Workspace>
    var snapshots: map<Key, SnapshotRow>
    var history: seq<Row>

    function Tables(): Db
      reads this
    {
      Db(sessions, workspaces, snapshots, history)
    }

    constructor (codec: Codec)
      ensures Tables() == EmptyDb() && Sound(Tables()) && this.codec == codec
    {
      this.codec := codec;
      sessions := map[];
      workspaces := Empty();
      snapshots := map[];
      history := [];
    }

    method CreateSession(session: Session)
      requires Sound(Tables())
      modifies this
      ensures Tables() == Apply(codec, old(Tables()), Create(session)) && Sound(Tables())
    {
      sessions := sessions[session.id := session];
    }

    /** Pairs exactly when the session exists, has not expired and the code is its code. */
    method PairSession(sessionId: string, code: string, mobileToken: string, now: int) returns (r: Option<Session>)
      requires Sound(Tables())
      modifies this
      ensures Tables() == Apply(codec, old(Tables()), PairMobile(sessionId, code, mobileToken, now)) && Sound(Tables())
      ensures r.Some? <==> && sessionId in old(sessions) && old(sessions)[sessionId].expiresAt > now
                           && old(sessions)[sessionId].pairingCode == code
      ensures r.Some? ==> sessionId in old(sessions)
                          && r.value == old(sessions)[sessionId].(mobileToken := Some(mobileToken), status := Paired)
                          && sessions == old(sessions)[sessionId := r.value]
      ensures r.None? ==> Tables() == old(Tables())
    {
      var changes := 0;
      if sessionId in sessions && sessions[sessionId].expiresAt > now && sessions[sessionId].pairingCode == code {
        sessions := sessions[sessionId := sessions[sessionId].(mobileToken := Some(mobileToken), status := Paired)];
        changes := 1;
      }
      if changes == 0 {
        return None;
      }
      r := Some(sessions[sessionId]);
    }

    /** Stores the envelope and trims its session, or refuses when the session is gone. */
    method AppendEnvelope(id: string, sessionId: string, source: Role, now: int, body: Body)
      returns (r: Option<Envelope>)
      requires Sound(Tables())
      modifies this
      ensures Tables() == Apply(codec, old(Tables()), Append(Envelope(id, sessionId, source, now, body)))
      ensures Sound(Tables())
      ensures r == if sessionId in old(sessions) then Some(Envelope(id, sessionId, source, now, body)) else None
    {
      if sessionId !in sessions {
        return None;
      }
      var envelope := Envelope(id, sessionId, source, now, body);
      AppendSound(Tables(), envelope);
      history := Insert(history, envelope);
      history := TrimRows(history, {sessionId});
      r := Some(envelope);
    }

    method PruneMessages(now: int, scope: Option<string>)
      requires Sound(Tables())
      modifies this
      ensures Tables() == Apply(codec, old(Tables()), PruneHistory(now, scope)) && Sound(Tables())
    {
      hide Filter, MaxRowid, Sound;
      PruneHistorySound(Tables(), now, scope);
      var cutoff := now - HISTORY_RETENTION_MS;
      if scope.Some? && scope.value != "" {
        history := Filter(history, RecentAndUntrimmed(history, cutoff, scope.value));
        return;
      }
      history := DeleteOlder(history, cutoff);
      TrimEverySession();
    }

    /** The loop over the sessions, in whatever order they come. */
    method TrimEverySession()
      modifies `history
      ensures history == TrimRows(old(history), sessions.Keys)
    {
      hide Filter, TrimRows;
      ghost var aged := history;
      var todo := sessions.Keys;
      NothingTrimmed(aged);
      assert sessions.Keys - todo == {};
      while todo != {}
        invariant todo <= sessions.Keys
        invariant history == TrimRows(aged, sessions.Keys - todo)
        decreases todo
      {
        var sessionId :| sessionId in todo;
        TrimOneMore(aged, sessions.Keys - todo, sessionId);
        assert sessions.Keys - (todo - {sessionId}) == (sessions.Keys - todo) + {sessionId};
        history := TrimRows(history, {sessionId});
        todo := todo - {sessionId};
      }
      assert sessions.Keys - todo == sessions.Keys;
    }

    /** The sessions that expire later than `now` stay as they are, with their workspaces, their snapshots
        and those of their messages that are no older than thirty days. */
    method PruneExpiredSessions(now: int)
      requires Sound(Tables())
      modifies this
      ensures Tables() == Apply(codec, old(Tables()), PruneExpired(now)) && Sound(Tables())
      ensures sessions == map s | s in old(sessions) && old(sessions)[s].expiresAt > now :: old(sessions)[s]
      ensures forall k :: k in workspaces.at <==> k in old(workspaces).at && k.0 in sessions
      ensures forall k :: k in workspaces.at ==> workspaces.at[k] == old(workspaces).at[k]
      ensures forall k :: k in snapshots <==> k in old(snapshots) && k.0 in sessions
      ensures forall k :: k in snapshots ==> snapshots[k] == old(snapshots)[k]
      ensures forall r :: r in history <==>
                r in old(history) && r.env.sessionId in sessions && r.env.ts >= now - 2_592_000_000
    {
      hide Filter, MaxRowid, DeleteSessionsDb, PruneHistoryDb, Sound;
      SR.PruneExpiredExactly(Tables(), now);
      var expired := Expired(Tables(), now);
      DeleteSessionsSound(Tables(), expired);
      var left := DeleteSessionsDb(Tables(), expired);
      sessions, workspaces, snapshots, history := left.sessions, left.workspaces, left.snapshots, left.history;
      PruneMessages(now, None);
    }

    method ListHistory(sessionId: string) returns (listing: seq<Envelope>)
      ensures IsListing(Tables(), sessionId, listing)
      ensures forall i, j :: 0 <= i < j < |listing| ==> listing[i].ts <= listing[j].ts
    {
      listing := SortBy(Envelopes(OfSession(history, sessionId)), Earlier);
      SortBySorts(Envelopes(OfSession(history, sessionId)), Earlier);
    }

    /** Fails without a trace when the session row is gone. */
    method UpsertWorkspaceRow(sessionId: string, workspace: Workspace) returns (ok: bool)
      requires Sound(Tables())
      modifies this
      ensures Tables() == Apply(codec, old(Tables()), UpsertWorkspace(sessionId, workspace)) && Sound(Tables())
      ensures ok <==> sessionId in sessions
    {
      ok := sessionId in sessions;
      if ok {
        workspaces := Put(workspaces, (sessionId, workspace.id), workspace);
        ApplySound(codec, old(Tables()), UpsertWorkspace(sessionId, workspace));
      }
    }

    method ListWorkspaces(sessionId: string) returns (listing: seq<Workspace>)
      requires Sound(Tables())
      ensures listing == ListWorkspacesOf(Tables(), sessionId)
      ensures SortedBy(listing, SeenBefore)
      ensures forall i, j :: 0 <= i < j < |listing| ==>
                || listing[i].lastSeenAt < listing[j].lastSeenAt
                || (listing[i].lastSeenAt == listing[j].lastSeenAt && !LexLess(listing[j].id, listing[i].id))
    {
      listing := SortBy(WorkspacesOf(Tables(), sessionId), SeenBefore);
      SeenBeforeOrders();
      SortBySorts(WorkspacesOf(Tables(), sessionId), SeenBefore);
    }

    method UpsertWorkspaceSnapshot(sessionId: string, workspaceId: string, update: Update) returns (ok: bool)
      requires Sound(Tables())
      modifies this
      ensures Tables() == Apply(codec, old(Tables()), UpsertSnapshot(sessionId, workspaceId, update)) && Sound(Tables())
      ensures ok <==> sessionId in sessions
    {
      var previous := GetWorkspaceSnapshot(sessionId, workspaceId);
      var next := Next(previous, update.payload, update.now);
      ok := sessionId in sessions;
      if ok {
        snapshots := snapshots[(sessionId, workspaceId) := ToRow(codec, next)];
        ApplySound(codec, old(Tables()), UpsertSnapshot(sessionId, workspaceId, update));
      }
    }

    method GetWorkspaceSnapshot(sessionId: string, workspaceId: string) returns (r: Option<Snapshot>)
      ensures r == if (sessionId, workspaceId) in snapshots
                   then Some(FromRow(codec, snapshots[(sessionId, workspaceId)])) else None
    {
      if (sessionId, workspaceId) !in snapshots {
        return None;
      }
      r := Some(FromRow(codec, snapshots[(sessionId, workspaceId)]));
    }
  }

  lemma NothingTrimmed(rows: seq<Row>)
    ensures TrimRows(rows, {}) == rows
  {
    FilterAll(rows, Untrimmed(rows, {}));
  }

  // ----- ORDER BY last_seen_at ASC, workspace_id ASC is a total order -----

  /** The two texts agree up to `n`, where the first ends or has the smaller character. */
  predicate LessAt(a: string, b: string, n: nat) {
    && n <= |a| && n < |b|
    && a[..n] == b[..n]
    && (n < |a| ==> a[n] < b[n])
  }

  lemma {:induction false} LexLessIff(a: string, b: string)
    ensures LexLess(a, b) <==> exists n: nat :: LessAt(a, b, n)
  {
    forall n: nat | LessAt(a, b, n) && n > 0 ensures a[0] == b[0] {
      assert a[0] == a[..n][0];
    }
    if a != [] && b != [] && a[0] == b[0] {
      LexLessIff(a[1..], b[1..]);
      forall n: nat ensures LessAt(a, b, n + 1) <==> LessAt(a[1..], b[1..], n) {
        if n < |a| && n + 1 <= |b| {
          assert a[..n + 1] == [a[0]] + a[1..][..n] && b[..n + 1] == [b[0]] + b[1..][..n];
        }
      }
      if n: nat :| LessAt(a, b, n) {
        assert n > 0;
        assert LessAt(a[1..], b[1..], n - 1);
      }
      if n: nat :| LessAt(a[1..], b[1..], n) {
        assert LessAt(a, b, n + 1);
      }
    } else if a != [] && b != [] {
      assert a[0] < b[0] ==> LessAt(a, b, 0);
    } else if b != [] {
      assert LessAt(a, b, 0);
    }
  }

  lemma {:induction false} LexTransitive(a: string, b: string, c: string)
    requires LexLess(a, b) && LexLess(b, c)
    ensures LexLess(a, c)
  {
    if a != [] && a[0] == b[0] == c[0] {
      LexTransitive(a[1..], b[1..], c[1..]);
    }
  }

  lemma {:induction false} LexTotal(a: string, b: string)
    ensures LexLess(a, b) || LexLess(b, a) || a == b
    ensures !(LexLess(a, b) && LexLess(b, a))
  {
    if a != [] && b != [] && a[0] == b[0] {
      LexTotal(a[1..], b[1..]);
      assert a == [a[0]] + a[1..] && b == [b[0]] + b[1..];
    }
  }

  lemma SeenBeforeOrders()
    ensures TotalPreorder(SeenBefore)
  {
    forall a: Workspace, b: Workspace ensures SeenBefore(a, b) || SeenBefore(b, a) {
      LexTotal(a.id, b.id);
    }
    forall a: Workspace, b: Workspace, c: Workspace | SeenBefore(a, b) && SeenBefore(b, c)
      ensures SeenBefore(a, c)
    {
      LexTotal(a.id, b.id);
      LexTotal(b.id, c.id);
      if LexLess(c.id, a.id) {
        if LexLess(a.id, b.id) {
          LexTransitive(c.id, a.id, b.id);
        }
      }
    }
  }
}
