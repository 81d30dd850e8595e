/** What the tables hold after any run of operations. */
module StoreRuns {
  import opened Options
  import opened Sequences
  import opened OrderedMaps
  import opened Messages
  import opened HistoryLog
  import opened Snapshots
  import opened StoreTables

  // ----- the history table against everything ever appended -----

  /** Everything ever appended to `s` that no pruning since has aged out or deleted, in order of
      insertion and stamped with it.  Nothing here is ever trimmed. */
  function Survivors(codec: Codec, ops: seq<Op>, s: string): seq<Row> {
    if ops == [] then []
    else SurvivorsStep(Run(codec, DropLast(ops)), Last(ops), |ops|, Survivors(codec, DropLast(ops), s), s)
  }

  function SurvivorsStep(db: Db, op: Op, stamp: nat, before: seq<Row>, s: string): seq<Row> {
    match op
    case Append(env) => Joined(before, Row(stamp, env), Accepts(db, env, s))
    case PruneHistory(now, scope) =>
      if Covers(scope, s) then DeleteOlder(before, now - HISTORY_RETENTION_MS) else before
    case PruneExpired(now) => AgedOrGone(before, now, Lapsed(db, s, now))
    case _ => before
  }

  predicate Lapsed(db: Db, s: string, now: int) {
    s in db.sessions && db.sessions[s].expiresAt <= now
  }

  predicate Accepts(db: Db, env: Envelope, s: string) {
    env.sessionId == s && s in db.sessions
  }

  function Joined(rows: seq<Row>, x: Row, accepted: bool): seq<Row> {
    if accepted then rows + [x] else rows
  }

  function AgedOrGone(rows: seq<Row>, now: int, gone: bool): seq<Row> {
    if gone then [] else DeleteOlder(rows, now - HISTORY_RETENTION_MS)
  }

  lemma {:induction false} SurvivorsAscend(codec: Codec, ops: seq<Op>, s: string)
    ensures Ascending(Survivors(codec, ops, s))
    ensures Below(Survivors(codec, ops, s), |ops| + 1)
  {
    if ops != [] {
      var before := Survivors(codec, DropLast(ops), s);
      SurvivorsAscend(codec, DropLast(ops), s);
      if Last(ops).Append? {
        AscendingPush(before, Row(|ops|, Last(ops).env));
      }
      forall cutoff: int ensures Ascending(DeleteOlder(before, cutoff)) && Below(DeleteOlder(before, cutoff), |ops|)
      {
        PairwiseFilter(before, Recent(cutoff), RowidBefore);
        BelowFilter(before, Recent(cutoff), |ops|);
      }
    }
  }

  /** After any run, with any clock, the rows of a session are the 100 newest survivors by
      (ts, insertion order): trimming at every append is trimming once, at the end. */
  lemma {:induction false} HistoryIsNewestSurvivors(codec: Codec, ops: seq<Op>, s: string)
    ensures Envelopes(OfSession(Run(codec, ops).history, s)) == Envelopes(Newest(Survivors(codec, ops, s)))
  {
    if ops != [] {
      HistoryIsNewestSurvivors(codec, DropLast(ops), s);
      RunSound(codec, DropLast(ops));
      SurvivorsAscend(codec, DropLast(ops), s);
      StepKeepsNewest(codec, Run(codec, DropLast(ops)), Last(ops), |ops|, Survivors(codec, DropLast(ops), s), s);
    }
  }

  lemma StepKeepsNewest(codec: Codec, db: Db, op: Op, stamp: nat, before: seq<Row>, s: string)
    requires Sound(db) && Ascending(before) && Below(before, stamp)
    requires Envelopes(OfSession(db.history, s)) == Envelopes(Newest(before))
    ensures Envelopes(OfSession(Apply(codec, db, op).history, s))
         == Envelopes(Newest(SurvivorsStep(db, op, stamp, before, s)))
  {
    hide Filter;
    match op
    case Append(env) => AppendKeepsNewest(db, env, stamp, before, s);
    case PruneHistory(now, scope) => PruneKeepsNewest(db, now, scope, before, s);
    case PruneExpired(now) => ExpireKeepsNewest(db, now, before, s);
    case _ =>
  }

  /** An append adds to its own session only, and trims that one only. */
  lemma AppendOfSession(db: Db, env: Envelope, s: string)
    ensures OfSession(AppendDb(db, env).history, s)
         == if Accepts(db, env, s)
            then Newest(OfSession(db.history, s) + [Row(MaxRowid(db.history) + 1, env)])
            else OfSession(db.history, s)
  {
    hide Filter;
    if env.sessionId in db.sessions {
      OfSessionTrim(Insert(db.history, env), {env.sessionId}, s);
      OfSessionInsert(db.history, env, s);
    }
  }

  lemma AppendKeepsNewest(db: Db, env: Envelope, stamp: nat, before: seq<Row>, s: string)
    requires Sound(db) && Ascending(before) && Below(before, stamp)
    requires Envelopes(OfSession(db.history, s)) == Envelopes(Newest(before))
    ensures Envelopes(OfSession(AppendDb(db, env).history, s))
         == Envelopes(Newest(SurvivorsStep(db, Append(env), stamp, before, s)))
  {
    hide Filter;
    AppendOfSession(db, env, s);
    JoinedNewest(db.history, before, Row(stamp, env), s, Accepts(db, env, s));
  }

  lemma JoinedNewest(history: seq<Row>, before: seq<Row>, x: Row, s: string, accepted: bool)
    requires Ascending(history) && Ascending(before) && Below(before, x.rowid)
    requires Envelopes(OfSession(history, s)) == Envelopes(Newest(before))
    ensures Envelopes(if accepted then Newest(OfSession(history, s) + [Row(MaxRowid(history) + 1, x.env)])
                      else OfSession(history, s))
         == Envelopes(Newest(Joined(before, x, accepted)))
  {
    hide Filter;
    if accepted {
      AppendedToNewest(history, before, x, s);
    }
  }

  lemma ExpireKeepsNewest(db: Db, now: int, before: seq<Row>, s: string)
    requires Sound(db)
    requires Envelopes(OfSession(db.history, s)) == Envelopes(Newest(before))
    ensures Envelopes(OfSession(PruneExpiredDb(db, now).history, s))
         == Envelopes(Newest(SurvivorsStep(db, PruneExpired(now), 0, before, s)))
  {
    hide Filter;
    ExpireOfSession(db, now, s);
    AgedOrGoneNewest(OfSession(db.history, s), before, now, Lapsed(db, s, now));
  }

  lemma AgedOrGoneNewest(rows: seq<Row>, before: seq<Row>, now: int, gone: bool)
    requires Envelopes(rows) == Envelopes(Newest(before))
    ensures Envelopes(AgedOrGone(rows, now, gone)) == Envelopes(Newest(AgedOrGone(before, now, gone)))
  {
    if gone {
      assert Newest([]) == [];
    } else {
      AgedNewest(rows, before, now - HISTORY_RETENTION_MS);
    }
  }

  /** `pruneExpired` empties the history of the sessions it deletes and ages the others. */
  lemma ExpireOfSession(db: Db, now: int, s: string)
    requires Sound(db)
    ensures OfSession(PruneExpiredDb(db, now).history, s)
         == AgedOrGone(OfSession(db.history, s), now, Lapsed(db, s, now))
  {
    var expired := Expired(db, now);
    DeleteSessionsSound(db, expired);
    OfSessionCascade(db.history, expired, s);
    PruneOfSession(DeleteSessionsDb(db, expired), now, None, s);
  }

  /** One append, with whatever rowid SQLite picks. */
  lemma {:induction false} AppendedToNewest(history: seq<Row>, before: seq<Row>, x: Row, s: string)
    requires Ascending(history) && Ascending(before)
    requires Below(before, x.rowid)
    requires Envelopes(OfSession(history, s)) == Envelopes(Newest(before))
    ensures Envelopes(Newest(OfSession(history, s) + [Row(MaxRowid(history) + 1, x.env)]))
         == Envelopes(Newest(before + [x]))
  {
    hide Filter;
    var rows, y := OfSession(history, s), Row(MaxRowid(history) + 1, x.env);
    PairwiseFilter(history, InSession(s), RowidBefore);
    PairwiseFilter(before, Within(before), RowidBefore);
    MaxRowidBounds(history);
    BelowFilter(history, InSession(s), y.rowid);
    BelowFilter(before, Within(before), x.rowid);
    PushByOrder(rows, y, Newest(before), x);
    AscendingPush(before, x);
    NewestAbsorbs(before, x);
  }

  lemma PushByOrder(a: seq<Row>, x: Row, b: seq<Row>, y: Row)
    requires Envelopes(a) == Envelopes(b) && Ascending(a) && Ascending(b) && x.env == y.env
    requires Below(a, x.rowid) && Below(b, y.rowid)
    ensures Envelopes(Newest(a + [x])) == Envelopes(Newest(b + [y]))
  {
    hide Filter;
    AscendingPush(a, x);
    AscendingPush(b, y);
    EnvelopesPush(a, x);
    EnvelopesPush(b, y);
    NewestByOrder(a + [x], b + [y]);
  }

  lemma PruneKeepsNewest(db: Db, now: int, scope: Option<string>, before: seq<Row>, s: string)
    requires Sound(db)
    requires Envelopes(OfSession(db.history, s)) == Envelopes(Newest(before))
    ensures Envelopes(OfSession(PruneHistoryDb(db, now, scope).history, s))
         == Envelopes(Newest(SurvivorsStep(db, PruneHistory(now, scope), 0, before, s)))
  {
    hide Filter;
    PruneOfSession(db, now, scope, s);
    AgedNewest(OfSession(db.history, s), before, now - HISTORY_RETENTION_MS);
  }

  lemma AgedNewest(rows: seq<Row>, before: seq<Row>, cutoff: int)
    requires Envelopes(rows) == Envelopes(Newest(before))
    ensures Envelopes(DeleteOlder(rows, cutoff)) == Envelopes(Newest(DeleteOlder(before, cutoff)))
  {
    hide Filter;
    RecentByOrder(rows, Newest(before), cutoff);
    NewestOfRecent(before, cutoff);
  }

  // ----- what a survivor is -----

  const THIRTY_DAYS_MS := 2_592_000_000

  /** Whether `op` takes a message of `s` with timestamp `ts` away for its age, or with its session. */
  predicate Removes(db: Db, op: Op, s: string, ts: int) {
    match op
    case PruneHistory(now, scope) => (scope.GetOr("") == "" || scope == Some(s)) && ts < now - THIRTY_DAYS_MS
    case PruneExpired(now) =>
      (s in db.sessions && db.sessions[s].expiresAt <= now) || ts < now - THIRTY_DAYS_MS
    case _ => false
  }

  /** A message survives iff it was appended while its session existed and nothing after removed it. */
  ghost predicate Survives(codec: Codec, ops: seq<Op>, s: string, r: Row) {
    && 1 <= r.rowid <= |ops|
    && ops[r.rowid - 1] == Append(r.env)
    && r.env.sessionId == s
    && s in Run(codec, ops[..r.rowid - 1]).sessions
    && forall j :: r.rowid <= j < |ops| ==> !Removes(Run(codec, ops[..j]), ops[j], s, r.env.ts)
  }

  lemma SurvivesPrefix(codec: Codec, ops: seq<Op>, s: string, r: Row)
    requires ops != [] && r.rowid < |ops|
    ensures Survives(codec, ops, s, r)
        <==> Survives(codec, DropLast(ops), s, r) && !Removes(Run(codec, DropLast(ops)), Last(ops), s, r.env.ts)
  {
    var before := DropLast(ops);
    assert forall j :: 0 <= j <= |before| ==> before[..j] == ops[..j];
    assert ops[..|ops| - 1] == before;
  }

  lemma {:induction false} SurvivorsExactly(codec: Codec, ops: seq<Op>, s: string, r: Row)
    ensures r in Survivors(codec, ops, s) <==> Survives(codec, ops, s, r)
  {
    if ops != [] {
      var before, db, op := DropLast(ops), Run(codec, DropLast(ops)), Last(ops);
      SurvivorsExactly(codec, before, s, r);
      SurvivorsAscend(codec, before, s);
      FilterMembersOfStep(db, op, Survivors(codec, before, s), s, r);
      if r.rowid < |ops| {
        SurvivesPrefix(codec, ops, s, r);
      } else {
        assert ops[..|ops| - 1] == before;
      }
    }
  }

  lemma FilterMembersOfStep(db: Db, op: Op, before: seq<Row>, s: string, r: Row)
    ensures !op.Append? ==>
      (r in SurvivorsStep(db, op, 0, before, s) <==> r in before && !Removes(db, op, s, r.env.ts))
  {
    match op
    case PruneHistory(now, scope) => FilterMember(before, Recent(now - HISTORY_RETENTION_MS), r);
    case PruneExpired(now) => FilterMember(before, Recent(now - HISTORY_RETENTION_MS), r);
    case _ =>
  }

  // ----- with a clock that never goes back -----

  function Clock(op: Op): Option<int> {
    match op
    case Append(env) => Some(env.ts)
    case PruneHistory(now, _) => Some(now)
    case PruneExpired(now) => Some(now)
    case _ => None
  }

  predicate InTime(ops: seq<Op>, i: int, j: int) {
    0 <= i < j < |ops| && Clock(ops[i]).Some? && Clock(ops[j]).Some? ==> Clock(ops[i]).value <= Clock(ops[j]).value
  }

  ghost predicate MonotoneClock(ops: seq<Op>) {
    forall i, j :: InTime(ops, i, j)
  }

  /** Everything appended to `s` since its session began. */
  function Appended(codec: Codec, ops: seq<Op>, s: string): seq<Row> {
    if ops == [] then []
    else AppendedStep(Run(codec, DropLast(ops)), Last(ops), |ops|, Appended(codec, DropLast(ops), s), s)
  }

  function AppendedStep(db: Db, op: Op, stamp: nat, before: seq<Row>, s: string): seq<Row> {
    match op
    case Append(env) => if env.sessionId == s && s in db.sessions then before + [Row(stamp, env)] else before
    case PruneExpired(now) => if Lapsed(db, s, now) then [] else before
    case _ => before
  }

  ghost predicate NoPruning(ops: seq<Op>) {
    forall op :: op in ops ==> !op.PruneHistory? && !op.PruneExpired?
  }

  lemma {:induction false} UnprunedSurvive(codec: Codec, ops: seq<Op>, s: string)
    requires NoPruning(ops)
    ensures Survivors(codec, ops, s) == Appended(codec, ops, s)
  {
    if ops != [] {
      assert Last(ops) in ops && forall op :: op in DropLast(ops) ==> op in ops;
      UnprunedSurvive(codec, DropLast(ops), s);
    }
  }

  /** Between prunings, and with any clock: trimming on every append leaves the 100 newest of all that was
      ever appended, as trimming once at the end would. */
  lemma TrimmingOnceWouldDo(codec: Codec, ops: seq<Op>, s: string)
    requires NoPruning(ops)
    ensures Envelopes(OfSession(Run(codec, ops).history, s)) == Envelopes(Newest(Appended(codec, ops, s)))
  {
    UnprunedSurvive(codec, ops, s);
    HistoryIsNewestSurvivors(codec, ops, s);
  }

  /** The cutoff of the last pruning that covered `s`. */
  function LatestCutoff(ops: seq<Op>, s: string): Option<int> {
    if ops == [] then None else CutoffStep(Last(ops), LatestCutoff(DropLast(ops), s), s)
  }

  function CutoffStep(op: Op, before: Option<int>, s: string): Option<int> {
    match op
    case PruneHistory(now, scope) =>
      if scope.GetOr("") == "" || scope == Some(s) then Some(now - THIRTY_DAYS_MS) else before
    case PruneExpired(now) => Some(now - THIRTY_DAYS_MS)
    case _ => before
  }

  function NoOlderThan(rows: seq<Row>, cutoff: Option<int>): seq<Row> {
    if cutoff.Some? then DeleteOlder(rows, cutoff.value) else rows
  }

  function LastRows(rows: seq<Row>): seq<Row> {
    if |rows| <= 100 then rows else rows[|rows| - 100..]
  }

  lemma {:induction false} LatestCutoffIsPast(ops: seq<Op>, s: string) returns (j: nat)
    requires LatestCutoff(ops, s).Some?
    ensures j < |ops| && Clock(ops[j]) == Some(LatestCutoff(ops, s).value + HISTORY_RETENTION_MS)
  {
    j := |ops| - 1;
    if Clock(Last(ops)) != Some(LatestCutoff(ops, s).value + HISTORY_RETENTION_MS) {
      j := LatestCutoffIsPast(DropLast(ops), s);
    }
  }

  lemma OlderCutoff(rows: seq<Row>, a: int, b: int)
    requires a <= b
    ensures DeleteOlder(DeleteOlder(rows, a), b) == DeleteOlder(rows, b)
  {
    FilterFilter(rows, Recent(a), Recent(b), Recent(b));
  }

  lemma MonotonePrefix(ops: seq<Op>)
    requires MonotoneClock(ops) && ops != []
    ensures MonotoneClock(DropLast(ops))
  {
    forall i, j ensures InTime(DropLast(ops), i, j) {
      assert InTime(ops, i, j);
    }
  }

  /** The survivors are what was appended and is no older than the latest cutoff. */
  lemma {:induction false} SurvivorsByCutoff(codec: Codec, ops: seq<Op>, s: string)
    requires MonotoneClock(ops)
    ensures Survivors(codec, ops, s) == NoOlderThan(Appended(codec, ops, s), LatestCutoff(ops, s))
  {
    if ops != [] {
      var before := DropLast(ops);
      var cutoff := LatestCutoff(before, s);
      MonotonePrefix(ops);
      SurvivorsByCutoff(codec, before, s);
      if cutoff.Some? {
        var j := LatestCutoffIsPast(before, s);
        assert InTime(ops, j, |ops| - 1);
      }
      StepByCutoff(Run(codec, before), Last(ops), |ops|, Appended(codec, before, s), cutoff, s);
    }
  }

  lemma StepByCutoff(db: Db, op: Op, stamp: nat, rows: seq<Row>, cutoff: Option<int>, s: string)
    requires cutoff.Some? && Clock(op).Some? ==> cutoff.value + HISTORY_RETENTION_MS <= Clock(op).value
    ensures SurvivorsStep(db, op, stamp, NoOlderThan(rows, cutoff), s)
         == NoOlderThan(AppendedStep(db, op, stamp, rows, s), CutoffStep(op, cutoff, s))
  {
    hide Filter, Lapsed;
    match op
    case Append(env) =>
      if cutoff.Some? {
        FilterPush(rows, Row(stamp, env), Recent(cutoff.value));
      }
    case PruneHistory(now, scope) =>
      if cutoff.Some? {
        OlderCutoff(rows, cutoff.value, now - HISTORY_RETENTION_MS);
      }
    case PruneExpired(now) =>
      FilterNone<Row>([], Recent(now - HISTORY_RETENTION_MS));
      if cutoff.Some? {
        OlderCutoff(rows, cutoff.value, now - HISTORY_RETENTION_MS);
      }
    case _ =>
  }

  predicate NoLater(a: Row, b: Row) {
    a.env.ts <= b.env.ts
  }

  ghost predicate InClockOrder(rows: seq<Row>) {
    Pairwise(rows, NoLater)
  }

  predicate StampedBy(ops: seq<Op>, r: Row) {
    1 <= r.rowid <= |ops| && Clock(ops[r.rowid - 1]) == Some(r.env.ts)
  }

  ghost predicate AllStampedBy(ops: seq<Op>, rows: seq<Row>) {
    forall r :: r in rows ==> StampedBy(ops, r)
  }

  lemma StampedByPrefix(ops: seq<Op>, rows: seq<Row>)
    requires ops != [] && AllStampedBy(DropLast(ops), rows)
    ensures AllStampedBy(ops, rows) && Below(rows, |ops|)
  {
    forall r | r in rows ensures StampedBy(ops, r) {
      assert StampedBy(DropLast(ops), r);
    }
  }

  lemma {:induction false} AppendedStamps(codec: Codec, ops: seq<Op>, s: string)
    ensures AllStampedBy(ops, Appended(codec, ops, s))
    ensures Ascending(Appended(codec, ops, s))
  {
    if ops != [] {
      var before := Appended(codec, DropLast(ops), s);
      AppendedStamps(codec, DropLast(ops), s);
      StampedByPrefix(ops, before);
      if Last(ops).Append? {
        AscendingPush(before, Row(|ops|, Last(ops).env));
      }
    }
  }

  /** In clock order, the newest are the last. */
  lemma {:induction false} NewestAreLast(rows: seq<Row>)
    requires Ascending(rows) && InClockOrder(rows)
    ensures Newest(rows) == LastRows(rows)
    decreases |rows|
  {
    hide Filter;
    if |rows| <= HISTORY_LIMIT {
      NewestOfFew(rows);
    } else {
      NewestDropsFirst(rows);
      TailInOrder(rows);
      NewestAreLast(rows[1..]);
      LastRowsOfTail(rows);
    }
  }

  lemma NewestDropsFirst(rows: seq<Row>)
    requires Ascending(rows) && InClockOrder(rows) && |rows| > HISTORY_LIMIT
    ensures Newest(rows) == Newest(rows[1..])
  {
    FirstIsLeast(rows);
    NewestDropsLeast(rows, 0);
    assert rows[..0] + rows[1..] == rows[1..];
  }

  lemma TailInOrder(rows: seq<Row>)
    requires Ascending(rows) && InClockOrder(rows) && rows != []
    ensures Ascending(rows[1..]) && InClockOrder(rows[1..])
  {
    hide Filter;
    PairwiseWithout(rows, 0, RowidBefore);
    PairwiseWithout(rows, 0, NoLater);
    assert rows[..0] + rows[1..] == rows[1..];
  }

  lemma FirstIsLeast(rows: seq<Row>)
    requires Ascending(rows) && InClockOrder(rows) && rows != []
    ensures IsLeast(rows, 0)
  {
    forall j | 0 < j < |rows| ensures Newer(rows[j], rows[0]) {
      assert Pair(rows, RowidBefore, 0, j) && Pair(rows, NoLater, 0, j);
    }
  }

  lemma LastRowsOfTail(rows: seq<Row>)
    requires |rows| > HISTORY_LIMIT
    ensures LastRows(rows) == LastRows(rows[1..])
  {
  }

  /** With a monotone clock a session keeps the last 100 of the messages appended to it that are no
      older than the latest cutoff, under any interleaving of appends and prunings. */
  lemma HistoryIsLastHundred(codec: Codec, ops: seq<Op>, s: string)
    requires MonotoneClock(ops)
    ensures Envelopes(OfSession(Run(codec, ops).history, s))
         == Envelopes(LastRows(NoOlderThan(Appended(codec, ops, s), LatestCutoff(ops, s))))
  {
    HistoryIsNewestSurvivors(codec, ops, s);
    SurvivorsByCutoff(codec, ops, s);
    SurvivorsAscend(codec, ops, s);
    AppendedInClockOrder(codec, ops, s);
    if LatestCutoff(ops, s).Some? {
      PairwiseFilter(Appended(codec, ops, s), Recent(LatestCutoff(ops, s).value), NoLater);
    }
    NewestAreLast(Survivors(codec, ops, s));
  }

  lemma AppendedInClockOrder(codec: Codec, ops: seq<Op>, s: string)
    requires MonotoneClock(ops)
    ensures InClockOrder(Appended(codec, ops, s))
  {
    var rows := Appended(codec, ops, s);
    AppendedStamps(codec, ops, s);
    forall i, j ensures Pair(rows, NoLater, i, j) {
      assert Pair(rows, RowidBefore, i, j);
      if 0 <= i < j < |rows| {
        assert StampedBy(ops, rows[i]) && StampedBy(ops, rows[j]);
        assert InTime(ops, rows[i].rowid - 1, rows[j].rowid - 1);
      }
    }
  }

  // ----- sessions -----

  /** What pruning leaves of every table: the sessions that expire later than `now` with their workspaces and
      snapshots as they were, and of their messages those that are recent. */
  lemma PruneExpiredExactly(db: Db, now: int)
    requires Sound(db)
    ensures var db' := PruneExpiredDb(db, now);
            && db'.sessions == (map s | s in db.sessions && db.sessions[s].expiresAt > now :: db.sessions[s])
            && (forall k :: k in db'.workspaces.at <==>
                 k in db.workspaces.at && k.0 in db.sessions && db.sessions[k.0].expiresAt > now)
            && (forall k :: k in db'.workspaces.at ==> db'.workspaces.at[k] == db.workspaces.at[k])
            && (forall k :: k in db'.snapshots <==>
                 k in db.snapshots && k.0 in db.sessions && db.sessions[k.0].expiresAt > now)
            && (forall k :: k in db'.snapshots ==> db'.snapshots[k] == db.snapshots[k])
            && (forall r :: r in db'.history <==> Stays(db, now, r))
            && Sound(db')
  {
    hide Filter, MaxRowid, Stays;
    var db' := PruneExpiredDb(db, now);
    DeleteSessionsSound(db, Expired(db, now));
    PruneHistorySound(DeleteSessionsDb(db, Expired(db, now)), now, None);
    forall r ensures r in db'.history <==> Stays(db, now, r) {
      HistoryStays(db, now, r);
    }
  }

  /** A message whose session expires later than `now` and that is no older than thirty days. */
  predicate Stays(db: Db, now: int, r: Row) {
    && r in db.history
    && r.env.sessionId in db.sessions && db.sessions[r.env.sessionId].expiresAt > now
    && r.env.ts >= now - THIRTY_DAYS_MS
  }

  lemma HistoryStays(db: Db, now: int, r: Row)
    requires Sound(db)
    ensures r in PruneExpiredDb(db, now).history <==> Stays(db, now, r)
  {
    hide MaxRowid, PruneExpiredDb;
    var s := r.env.sessionId;
    ExpireOfSession(db, now, s);
    FilterMember(PruneExpiredDb(db, now).history, InSession(s), r);
    FilterMember(db.history, InSession(s), r);
    FilterMember(OfSession(db.history, s), Recent(now - HISTORY_RETENTION_MS), r);
    hide Filter;
  }

  predicate Creates(op: Op, id: string) {
    op.Create? && op.session.id == id
  }

  /** Operation `i` created the session, the last one to do so, and no pruning after it ran at or past its
      expiry. */
  ghost predicate StoredSince(ops: seq<Op>, i: int, id: string) {
    && 0 <= i < |ops| && Creates(ops[i], id)
    && forall j :: i < j < |ops| ==>
         !Creates(ops[j], id) && (ops[j].PruneExpired? ==> ops[j].expiredAt < ops[i].session.expiresAt)
  }

  lemma StoredSincePrefix(ops: seq<Op>, i: int, id: string)
    requires ops != [] && i < |ops| - 1
    ensures StoredSince(ops, i, id)
       <==> && StoredSince(DropLast(ops), i, id) && !Creates(Last(ops), id)
            && (Last(ops).PruneExpired? ==> Last(ops).expiredAt < ops[i].session.expiresAt)
  {
  }

  /** After any run a session is stored exactly when it was created and no later pruning ran at or past its
      expiry; the expiry is the one it was created with. */
  lemma {:induction false} SessionStoredIff(codec: Codec, ops: seq<Op>, id: string)
    ensures id in Run(codec, ops).sessions <==> exists i :: StoredSince(ops, i, id)
    ensures forall i :: StoredSince(ops, i, id) && id in Run(codec, ops).sessions ==>
              Run(codec, ops).sessions[id].expiresAt == ops[i].session.expiresAt
  {
    if ops != [] {
      hide StoredSince, Creates;
      var init, op := DropLast(ops), Last(ops);
      SessionStoredIff(codec, init, id);
      SessionStep(codec, Run(codec, init), op, id);
      forall i: int | i < |ops| - 1
        ensures StoredSince(ops, i, id)
           <==> && StoredSince(init, i, id) && !Creates(op, id)
                && (op.PruneExpired? ==> op.expiredAt < ops[i].session.expiresAt)
      {
        StoredSincePrefix(ops, i, id);
      }
      StoredNow(ops, id);
      if Creates(op, id) {
      } else if id in Run(codec, init).sessions {
        var i :| StoredSince(init, i, id);
        InRange(init, i, id);
      }
      forall i | StoredSince(ops, i, id) && i < |ops| - 1
        ensures StoredSince(init, i, id)
      {
        StoredSincePrefix(ops, i, id);
      }
    }
  }

  lemma InRange(ops: seq<Op>, i: int, id: string)
    requires StoredSince(ops, i, id)
    ensures 0 <= i < |ops| && Creates(ops[i], id)
  {
  }

  lemma StoredNow(ops: seq<Op>, id: string)
    requires ops != []
    ensures StoredSince(ops, |ops| - 1, id) <==> Creates(Last(ops), id)
    ensures forall i :: StoredSince(ops, i, id) ==> 0 <= i < |ops|
  {
  }

  /** What one operation does to one session row. */
  lemma SessionStep(codec: Codec, db: Db, op: Op, id: string)
    ensures var db' := Apply(codec, db, op);
            && (id in db'.sessions <==>
                  Creates(op, id)
                  || (id in db.sessions && (op.PruneExpired? ==> op.expiredAt < db.sessions[id].expiresAt)))
            && (id in db'.sessions ==>
                 db'.sessions[id].expiresAt == if Creates(op, id) then op.session.expiresAt
                                               else if id in db.sessions then db.sessions[id].expiresAt
                                               else db'.sessions[id].expiresAt)
  {
    hide Filter;
  }

  // ----- snapshots -----

  /** The payloads upserted for a key since its session began. */
  function UpdatesOf(codec: Codec, ops: seq<Op>, key: Key): seq<Update> {
    if ops == [] then []
    else UpdatesStep(Run(codec, DropLast(ops)), Last(ops), UpdatesOf(codec, DropLast(ops), key), key)
  }

  function UpdatesStep(db: Db, op: Op, before: seq<Update>, key: Key): seq<Update> {
    match op
    case UpsertSnapshot(s, workspaceId, update) =>
      if (s, workspaceId) == key && s in db.sessions then before + [update] else before
    case PruneExpired(now) => if Lapsed(db, key.0, now) then [] else before
    case _ => before
  }

  function SnapshotAt(db: Db, key: Key): Option<SnapshotRow> {
    if key in db.snapshots then Some(db.snapshots[key]) else None
  }

  /** A stored row is the fold of its payloads; there is one iff there was a payload. */
  lemma {:induction false} SnapshotIsFold(codec: Codec, ops: seq<Op>, key: Key)
    ensures SnapshotAt(Run(codec, ops), key) == UpsertAll(codec, UpdatesOf(codec, ops, key))
  {
    if ops != [] {
      SnapshotIsFold(codec, DropLast(ops), key);
      SnapshotStep(codec, Run(codec, DropLast(ops)), Last(ops), UpdatesOf(codec, DropLast(ops), key), key);
    }
  }

  lemma SnapshotStep(codec: Codec, db: Db, op: Op, before: seq<Update>, key: Key)
    requires SnapshotAt(db, key) == UpsertAll(codec, before)
    ensures SnapshotAt(Apply(codec, db, op), key) == UpsertAll(codec, UpdatesStep(db, op, before, key))
  {
    hide Filter;
    hide UpsertAll;
    hide UpsertRow;
    match op
    case UpsertSnapshot(s, workspaceId, update) => UpsertAllPush(codec, before, update);
    case PruneExpired(now) =>
      ExpiredSnapshot(db, now, key);
      UpsertAllNone(codec);
    case _ =>
  }

  lemma UpsertAllNone(codec: Codec)
    ensures UpsertAll(codec, []) == None
  {
  }

  lemma UpsertAllPush(codec: Codec, before: seq<Update>, u: Update)
    ensures UpsertAll(codec, before + [u]) == Some(UpsertRow(codec, UpsertAll(codec, before), u.payload, u.now))
  {
    assert DropLast(before + [u]) == before;
  }

  lemma ExpiredSnapshot(db: Db, now: int, key: Key)
    ensures SnapshotAt(PruneExpiredDb(db, now), key)
         == if Lapsed(db, key.0, now) then None else SnapshotAt(db, key)
  {
    hide Filter;
  }

  /** A stored snapshot means what its payloads accumulate to, after any run. */
  lemma StoredSnapshotAccumulates(codec: Codec, ops: seq<Op>, key: Key)
    requires codec.Faithful() && key in Run(codec, ops).snapshots
    ensures Accumulates(UpdatesOf(codec, ops, key), FromRow(codec, Run(codec, ops).snapshots[key]))
  {
    SnapshotIsFold(codec, ops, key);
    SnapshotAccumulates(codec, UpdatesOf(codec, ops, key));
  }
}
