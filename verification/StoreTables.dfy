/** The relay's database (relay/src/store.ts): the four tables and what each operation does to them. */
module StoreTables {
  import opened Options
  import opened Sequences
  import opened OrderedMaps
  import opened Messages
  import opened HistoryLog
  import opened Snapshots

  datatype Status = Waiting | Paired | Ended

  datatype Session = Session(
    id: string,
    workspaceId: Option<string>,
    pairingCode: string,
    status: Status,
    createdAt: int,
    expiresAt: int,
    sessionLabel: Option<string>,
    workspaceFolders: seq<string>,
    agentToken: string,
    mobileToken: Option<string>)

  datatype Workspace = Workspace(id: string, name: string, path: Option<string>, lastSeenAt: int)

  /** A session id and a workspace id: the primary key of two of the tables. */
  type Key = (string, string)

  datatype Db = Db(
    sessions: map<string, Session>,
    workspaces: OMap<Key, Workspace>,
    snapshots: map<Key, SnapshotRow>,
    history: seq<Row>)

  // ----- what each operation does -----

  function PairDb(db: Db, sessionId: string, code: string, mobileToken: string, now: int): Db {
    if CanPair(db, sessionId, code, now)
    then
      var paired := db.sessions[sessionId].(mobileToken := Some(mobileToken), status := Paired);
      db.(sessions := db.sessions[sessionId := paired])
    else db
  }

  predicate CanPair(db: Db, sessionId: string, code: string, now: int) {
    && sessionId in db.sessions
    && db.sessions[sessionId].expiresAt > now
    && db.sessions[sessionId].pairingCode == code
  }

  function AppendDb(db: Db, env: Envelope): Db {
    if env.sessionId in db.sessions
    then db.(history := TrimRows(Insert(db.history, env), {env.sessionId}))
    else db
  }

  /** `if (sessionId)`: an empty id means every session, like a missing one. */
  predicate OneSession(scope: Option<string>) {
    scope.Some? && scope.value != ""
  }

  function RecentAndUntrimmed(rows: seq<Row>, cutoff: int, sessionId: string): Row -> bool {
    (r: Row) => r.env.sessionId != sessionId || (Recent(cutoff)(r) && Untrimmed(rows, {sessionId})(r))
  }

  function PruneHistoryDb(db: Db, now: int, scope: Option<string>): Db {
    var cutoff := now - HISTORY_RETENTION_MS;
    if OneSession(scope)
    then db.(history := Filter(db.history, RecentAndUntrimmed(db.history, cutoff, scope.value)))
    else db.(history := TrimRows(DeleteOlder(db.history, cutoff), db.sessions.Keys))
  }

  function Expired(db: Db, now: int): set<string> {
    set s | s in db.sessions && db.sessions[s].expiresAt <= now
  }

  function NotOf(ids: set<string>): Key -> bool {
    (k: Key) => k.0 !in ids
  }

  /** DELETE FROM sessions, with the cascade to the three other tables. */
  function DeleteSessionsDb(db: Db, ids: set<string>): Db {
    Db(db.sessions - ids,
       OMap(Filter(db.workspaces.order, NotOf(ids)),
            map k | k in db.workspaces.at && k.0 !in ids :: db.workspaces.at[k]),
       map k | k in db.snapshots && k.0 !in ids :: db.snapshots[k],
       Cascade(db.history, ids))
  }

  function PruneExpiredDb(db: Db, now: int): Db {
    PruneHistoryDb(DeleteSessionsDb(db, Expired(db, now)), now, None)
  }

  /** Fails, changing nothing, when the foreign key has no session row to refer to. */
  function UpsertWorkspaceDb(db: Db, sessionId: string, w: Workspace): Db {
    if sessionId in db.sessions
    then db.(workspaces := Put(db.workspaces, (sessionId, w.id), w))
    else db
  }

  function UpsertSnapshotDb(codec: Codec, db: Db, sessionId: string, workspaceId: string, u: Update): Db {
    var key := (sessionId, workspaceId);
    if sessionId in db.sessions
    then
      var row := if key in db.snapshots then Some(db.snapshots[key]) else None;
      db.(snapshots := db.snapshots[key := UpsertRow(codec, row, u.payload, u.now)])
    else db
  }

  // ----- what is read back -----

  predicate Earlier(a: Envelope, b: Envelope) {
    a.ts <= b.ts
  }

  /** ORDER BY ts ASC says nothing about equal timestamps: any such order is a listing. */
  ghost predicate IsListing(db: Db, sessionId: string, listing: seq<Envelope>) {
    && multiset(listing) == multiset(Envelopes(OfSession(db.history, sessionId)))
    && SortedBy(listing, Earlier)
  }

  predicate LexLess(a: string, b: string) {
    b != [] && (a == [] || a[0] < b[0] || (a[0] == b[0] && LexLess(a[1..], b[1..])))
  }

  /** ORDER BY last_seen_at ASC, workspace_id ASC */
  predicate SeenBefore(a: Workspace, b: Workspace) {
    a.lastSeenAt < b.lastSeenAt || (a.lastSeenAt == b.lastSeenAt && !LexLess(b.id, a.id))
  }

  function WorkspacesOf(db: Db, sessionId: string): (r: seq<Workspace>)
    requires db.workspaces.Valid()
  {
    WorkspacesAt(db.workspaces, db.workspaces.order, sessionId)
  }

  function WorkspacesAt(workspaces: OMap<Key, Workspace>, keys: seq<Key>, sessionId: string): seq<Workspace>
    requires forall k :: k in keys ==> k in workspaces.at
  {
    if keys == [] then []
    else
      assert forall k :: k in DropLast(keys) ==> k in keys;
      assert Last(keys) in keys;
      WorkspacesAt(workspaces, DropLast(keys), sessionId)
      + if Last(keys).0 == sessionId then [workspaces.at[Last(keys)]] else []
  }

  function ListWorkspacesOf(db: Db, sessionId: string): seq<Workspace>
    requires db.workspaces.Valid()
  {
    SortBy(WorkspacesOf(db, sessionId), SeenBefore)
  }

  // ----- runs -----

  datatype Op =
    | Create(session: Session)
    | PairMobile(sessionId: string, code: string, mobileToken: string, pairedAt: int)
    | Append(env: Envelope)
    | PruneHistory(prunedAt: int, scope: Option<string>)
    | PruneExpired(expiredAt: int)
    | UpsertWorkspace(owner: string, workspace: Workspace)
    | UpsertSnapshot(of: string, workspaceId: string, update: Update)

  function Apply(codec: Codec, db: Db, op: Op): Db {
    match op
    case Create(session) => db.(sessions := db.sessions[session.id := session])
    case PairMobile(sessionId, code, token, now) => PairDb(db, sessionId, code, token, now)
    case Append(env) => AppendDb(db, env)
    case PruneHistory(now, scope) => PruneHistoryDb(db, now, scope)
    case PruneExpired(now) => PruneExpiredDb(db, now)
    case UpsertWorkspace(owner, workspace) => UpsertWorkspaceDb(db, owner, workspace)
    case UpsertSnapshot(s, workspaceId, update) => UpsertSnapshotDb(codec, db, s, workspaceId, update)
  }

  function EmptyDb(): Db {
    Db(map[], Empty(), map[], [])
  }

  function Run(codec: Codec, ops: seq<Op>): Db {
    if ops == [] then EmptyDb() else Apply(codec, Run(codec, DropLast(ops)), Last(ops))
  }

  // ----- invariants of every reachable database -----

  ghost predicate Sound(db: Db) {
    && db.workspaces.Valid()
    && Ascending(db.history)
    && (forall r :: r in db.history ==> r.env.sessionId in db.sessions)
    && (forall k :: k in db.workspaces.at ==> k.0 in db.sessions)
    && (forall k :: k in db.snapshots ==> k.0 in db.sessions)
    && (forall s :: |OfSession(db.history, s)| <= HISTORY_LIMIT)
  }

  lemma DeleteSessionsSound(db: Db, ids: set<string>)
    requires Sound(db)
    ensures Sound(DeleteSessionsDb(db, ids))
  {
    FilterNoDup(db.workspaces.order, NotOf(ids));
    FilterMembers(db.workspaces.order, NotOf(ids));
    FilterMembers(db.history, OutsideSessions(ids));
    PairwiseFilter(db.history, OutsideSessions(ids), RowidBefore);
    forall s ensures |OfSession(Cascade(db.history, ids), s)| <= HISTORY_LIMIT {
      OfSessionCascade(db.history, ids, s);
    }
  }

  lemma AppendSound(db: Db, env: Envelope)
    requires Sound(db)
    ensures Sound(AppendDb(db, env))
  {
    if env.sessionId in db.sessions {
      var inserted := Insert(db.history, env);
      InsertAscending(db.history, env);
      PairwiseFilter(inserted, Untrimmed(inserted, {env.sessionId}), RowidBefore);
      FilterMembers(inserted, Untrimmed(inserted, {env.sessionId}));
      forall s ensures |OfSession(TrimRows(inserted, {env.sessionId}), s)| <= HISTORY_LIMIT {
        OfSessionTrim(inserted, {env.sessionId}, s);
        OfSessionInsert(db.history, env, s);
        PairwiseFilter(inserted, InSession(s), RowidBefore);
        NewestLength(OfSession(inserted, s));
      }
    }
  }

  lemma PruneHistorySound(db: Db, now: int, scope: Option<string>)
    requires Sound(db)
    ensures Sound(PruneHistoryDb(db, now, scope))
  {
    var cutoff := now - HISTORY_RETENTION_MS;
    if OneSession(scope) {
      PairwiseFilter(db.history, RecentAndUntrimmed(db.history, cutoff, scope.value), RowidBefore);
      FilterMembers(db.history, RecentAndUntrimmed(db.history, cutoff, scope.value));
    } else {
      var aged := DeleteOlder(db.history, cutoff);
      PairwiseFilter(db.history, Recent(cutoff), RowidBefore);
      FilterMembers(db.history, Recent(cutoff));
      PairwiseFilter(aged, Untrimmed(aged, db.sessions.Keys), RowidBefore);
      FilterMembers(aged, Untrimmed(aged, db.sessions.Keys));
    }
    forall s ensures |OfSession(PruneHistoryDb(db, now, scope).history, s)| <= HISTORY_LIMIT {
      PruneOfSession(db, now, scope, s);
    }
  }

  predicate Covers(scope: Option<string>, sessionId: string) {
    !OneSession(scope) || scope.value == sessionId
  }

  /** Pruning a sound database only ages its rows: the trim that goes with it finds nothing to do. */
  lemma PruneOfSession(db: Db, now: int, scope: Option<string>, s: string)
    requires Sound(db)
    ensures OfSession(PruneHistoryDb(db, now, scope).history, s)
         == if Covers(scope, s) then DeleteOlder(OfSession(db.history, s), now - HISTORY_RETENTION_MS)
            else OfSession(db.history, s)
  {
    var cutoff := now - HISTORY_RETENTION_MS;
    var mine := OfSession(db.history, s);
    PairwiseFilter(db.history, InSession(s), RowidBefore);
    FilterMembers(db.history, InSession(s));
    PairwiseFilter(mine, Recent(cutoff), RowidBefore);
    NewestOfFew(mine);
    NewestOfFew(DeleteOlder(mine, cutoff));
    if OneSession(scope) {
      var keep := RecentAndUntrimmed(db.history, cutoff, scope.value);
      var both := (r: Row) => keep(r) && InSession(s)(r);
      FilterFilter(db.history, keep, InSession(s), both);
      FilterFilter(db.history, InSession(s), keep, both);
      if s == scope.value {
        FilterFilter(mine, Within(mine), Recent(cutoff), keep);
      } else {
        FilterAll(mine, keep);
      }
    } else {
      OfSessionTrim(DeleteOlder(db.history, cutoff), db.sessions.Keys, s);
      OfSessionDeleteOlder(db.history, cutoff, s);
    }
  }

  lemma ApplySound(codec: Codec, db: Db, op: Op)
    requires Sound(db)
    ensures Sound(Apply(codec, db, op))
  {
    match op
    case Create(session) =>
    case PairMobile(_, _, _, _) =>
    case Append(env) => AppendSound(db, env);
    case PruneHistory(now, scope) => PruneHistorySound(db, now, scope);
    case PruneExpired(now) =>
      DeleteSessionsSound(db, Expired(db, now));
      PruneHistorySound(DeleteSessionsDb(db, Expired(db, now)), now, None);
    case UpsertWorkspace(owner, workspace) =>
    case UpsertSnapshot(_, _, _) =>
  }

  lemma {:induction false} RunSound(codec: Codec, ops: seq<Op>)
    ensures Sound(Run(codec, ops))
  {
    if ops != [] {
      RunSound(codec, DropLast(ops));
      ApplySound(codec, Run(codec, DropLast(ops)), Last(ops));
    }
  }
}
