/** The `message_history` table: what each statement of the store does to its rows.

    A table is its rows in rowid order.  SQLite gives a new row the largest rowid plus one, so
    the rowid of a deleted last row is used again. */
module HistoryLog {
  import opened Sequences
  import opened Messages

  const HISTORY_LIMIT: nat := 100
  const HISTORY_RETENTION_MS: int := 30 * 24 * 60 * 60 * 1000

  datatype Row = Row(rowid: nat, env: Envelope)

  predicate RowidBefore(a: Row, b: Row) {
    a.rowid < b.rowid
  }

  ghost predicate Ascending(rows: seq<Row>) {
    Pairwise(rows, RowidBefore)
  }

  function MaxRowid(rows: seq<Row>): nat {
    if rows == [] then
      0
    else
      var m := MaxRowid(DropLast(rows));
      if Last(rows).rowid > m then Last(rows).rowid else m
  }

  function Insert(rows: seq<Row>, env: Envelope): seq<Row> {
    rows + [Row(MaxRowid(rows) + 1, env)]
  }

  function InSession(sessionId: string): Row -> bool {
    (r: Row) => r.env.sessionId == sessionId
  }

  function OfSession(rows: seq<Row>, sessionId: string): seq<Row> {
    Filter(rows, InSession(sessionId))
  }

  const ENVELOPE_OF := (r: Row) => r.env

  function Envelopes(rows: seq<Row>): seq<Envelope> {
    Map(rows, ENVELOPE_OF)
  }

  /** `a` comes before `b` in ORDER BY ts DESC, rowid DESC. */
  predicate Newer(a: Row, b: Row) {
    a.env.ts > b.env.ts || (a.env.ts == b.env.ts && a.rowid > b.rowid)
  }

  /** The position of `r` in `rows` under ORDER BY ts DESC, rowid DESC. */
  function Rank(rows: seq<Row>, r: Row): (n: nat)
    ensures n <= |rows|
  {
    if rows == [] then 0
    else Rank(DropLast(rows), r) + if Newer(Last(rows), r) then 1 else 0
  }

  /** Not among LIMIT -1 OFFSET 100 of `all`. */
  function Within(all: seq<Row>): Row -> bool {
    (r: Row) => Rank(all, r) < HISTORY_LIMIT
  }

  /** The 100 newest of `rows`, in rowid order. */
  function Newest(rows: seq<Row>): seq<Row> {
    Filter(rows, Within(rows))
  }

  /** The rows of the sessions in `ids` that rank below the first 100 of their session are gone. */
  function Untrimmed(rows: seq<Row>, ids: set<string>): Row -> bool {
    (r: Row) => r.env.sessionId !in ids || Rank(OfSession(rows, r.env.sessionId), r) < HISTORY_LIMIT
  }

  function TrimRows(rows: seq<Row>, ids: set<string>): seq<Row> {
    Filter(rows, Untrimmed(rows, ids))
  }

  function Recent(cutoff: int): Row -> bool {
    (r: Row) => r.env.ts >= cutoff
  }

  function DeleteOlder(rows: seq<Row>, cutoff: int): seq<Row> {
    Filter(rows, Recent(cutoff))
  }

  function OutsideSessions(ids: set<string>): Row -> bool {
    (r: Row) => r.env.sessionId !in ids
  }

  /** The foreign key's ON DELETE CASCADE. */
  function Cascade(rows: seq<Row>, ids: set<string>): seq<Row> {
    Filter(rows, OutsideSessions(ids))
  }

  // ----- rowids -----

  lemma {:induction false} MaxRowidBounds(rows: seq<Row>)
    ensures Below(rows, MaxRowid(rows) + 1)
  {
    if rows != [] {
      assert rows == DropLast(rows) + [Last(rows)];
      MaxRowidBounds(DropLast(rows));
    }
  }

  ghost predicate Below(rows: seq<Row>, bound: nat) {
    forall r :: r in rows ==> r.rowid < bound
  }

  lemma BelowFilter(rows: seq<Row>, keep: Row -> bool, bound: nat)
    requires Below(rows, bound)
    ensures Below(Filter(rows, keep), bound)
  {
    FilterMembers(rows, keep);
  }

  lemma AscendingPush(rows: seq<Row>, x: Row)
    requires Ascending(rows) && Below(rows, x.rowid)
    ensures Ascending(rows + [x])
  {
    PairwisePush(rows, x, RowidBefore);
  }

  /** Rowids follow insertion order although the rowid of a deleted row can come back. */
  lemma InsertAscending(rows: seq<Row>, env: Envelope)
    requires Ascending(rows)
    ensures Ascending(Insert(rows, env))
  {
    MaxRowidBounds(rows);
    AscendingPush(rows, Row(MaxRowid(rows) + 1, env));
  }

  // ----- ranks -----

  lemma {:induction false} RankConcat(a: seq<Row>, b: seq<Row>, r: Row)
    ensures Rank(a + b, r) == Rank(a, r) + Rank(b, r)
  {
    if b == [] {
      assert a + b == a;
    } else {
      assert DropLast(a + b) == a + DropLast(b);
      RankConcat(a, DropLast(b), r);
    }
  }

  /** A filter that keeps everything newer than `r` does not change the rank of `r`. */
  lemma {:induction false} RankFilter(rows: seq<Row>, keep: Row -> bool, r: Row)
    requires forall x :: x in rows && Newer(x, r) ==> keep(x)
    ensures Rank(Filter(rows, keep), r) == Rank(rows, r)
  {
    if rows != [] {
      assert Last(rows) in rows;
      forall x | x in DropLast(rows) ensures x in rows {}
      RankFilter(DropLast(rows), keep, r);
      if keep(Last(rows)) {
        RankConcat(Filter(DropLast(rows), keep), [Last(rows)], r);
        RankOne(Last(rows), r);
      } else {
        assert Filter(rows, keep) == Filter(DropLast(rows), keep);
      }
    }
  }

  lemma RankOne(x: Row, r: Row)
    ensures Rank([x], r) == if Newer(x, r) then 1 else 0
  {
    assert DropLast([x]) == [];
  }

  /** Taking a row out lowers exactly the ranks of the rows it is newer than. */
  lemma RankWithout(a: seq<Row>, x: Row, b: seq<Row>, r: Row)
    ensures Rank(a + [x] + b, r) == Rank(a + b, r) + if Newer(x, r) then 1 else 0
  {
    RankConcat(a + [x], b, r);
    RankConcat(a, [x], r);
    RankConcat(a, b, r);
    RankOne(x, r);
  }

  /** Everything is newer than the least row. */
  lemma {:induction false} RankLeast(rows: seq<Row>, r: Row)
    requires forall x :: x in rows ==> Newer(x, r)
    ensures Rank(rows, r) == |rows|
  {
    if rows != [] {
      assert Last(rows) in rows;
      forall x | x in DropLast(rows) ensures Newer(x, r) {
        assert x in rows;
      }
      RankLeast(DropLast(rows), r);
    }
  }

  ghost predicate IsLeast(rows: seq<Row>, m: nat) {
    m < |rows| && forall j :: 0 <= j < |rows| && j != m ==> Newer(rows[j], rows[m])
  }

  lemma {:induction false} LeastExists(rows: seq<Row>) returns (m: nat)
    requires rows != [] && Ascending(rows)
    ensures IsLeast(rows, m)
  {
    if |rows| == 1 {
      m := 0;
    } else {
      var last := |rows| - 1;
      assert rows == DropLast(rows) + [Last(rows)];
      PairwisePrefix(DropLast(rows), Last(rows), RowidBefore);
      m := LeastExists(DropLast(rows));
      assert DropLast(rows)[m] == rows[m];
      assert Pair(rows, RowidBefore, m, last);
      if Newer(rows[m], rows[last]) {
        forall j | 0 <= j < last ensures Newer(rows[j], rows[last]) {
          assert DropLast(rows)[j] == rows[j];
        }
        m := last;
      } else {
        forall j | 0 <= j < last && j != m ensures Newer(rows[j], rows[m]) {
          assert DropLast(rows)[j] == rows[j];
        }
      }
    }
  }

  /** Dropping the least row of an overfull table does not change its 100 newest. */
  lemma NewestDropsLeast(rows: seq<Row>, m: nat)
    requires |rows| > HISTORY_LIMIT && IsLeast(rows, m)
    ensures Newest(rows) == Newest(rows[..m] + rows[m + 1..])
  {
    var a, b, least := rows[..m], rows[m + 1..], rows[m];
    assert rows == a + [least] + b;
    LeastRank(rows, m);
    forall x | x in a + b ensures Within(rows)(x) == Within(a + b)(x) {
      LeastNotNewer(rows, m, x);
      RankWithout(a, least, b, x);
    }
    FilterWithout(a, least, b, Within(rows), Within(a + b));
  }

  lemma LeastNotNewer(rows: seq<Row>, m: nat, x: Row)
    requires IsLeast(rows, m) && x in rows[..m] + rows[m + 1..]
    ensures Newer(x, rows[m]) && !Newer(rows[m], x)
  {
    var rest := rows[..m] + rows[m + 1..];
    var j :| 0 <= j < |rest| && rest[j] == x;
    assert x == rows[if j < m then j else j + 1];
  }

  /** The least of n rows has rank n - 1. */
  lemma LeastRank(rows: seq<Row>, m: nat)
    requires IsLeast(rows, m)
    ensures Rank(rows, rows[m]) == |rows| - 1
  {
    var a, b := rows[..m], rows[m + 1..];
    assert rows == a + [rows[m]] + b;
    RankWithout(a, rows[m], b, rows[m]);
    forall x | x in a + b ensures Newer(x, rows[m]) {
      LeastNotNewer(rows, m, x);
    }
    RankLeast(a + b, rows[m]);
  }

  lemma NewestOfFew(rows: seq<Row>)
    requires |rows| <= HISTORY_LIMIT && Ascending(rows)
    ensures Newest(rows) == rows
  {
    forall r | r in rows ensures Rank(rows, r) < |rows| {
      var i :| 0 <= i < |rows| && rows[i] == r;
      assert rows == rows[..i] + [r] + rows[i + 1..];
      RankWithout(rows[..i], r, rows[i + 1..], r);
      RankConcat(rows[..i], rows[i + 1..], r);
    }
    FilterAll(rows, Within(rows));
  }

  /** Trimming keeps all of a short table and exactly 100 rows of a long one. */
  lemma {:induction false} NewestLength(rows: seq<Row>)
    requires Ascending(rows)
    ensures |Newest(rows)| == if |rows| <= HISTORY_LIMIT then |rows| else HISTORY_LIMIT
    decreases |rows|
  {
    if |rows| <= HISTORY_LIMIT {
      NewestOfFew(rows);
    } else {
      var m := LeastExists(rows);
      NewestDropsLeast(rows, m);
      PairwiseWithout(rows, m, RowidBefore);
      NewestLength(rows[..m] + rows[m + 1..]);
    }
  }

  /** Trimming before an insert changes nothing: trimming at every append is trimming once at the end. */
  lemma {:induction false} NewestAbsorbs(rows: seq<Row>, x: Row)
    requires Ascending(rows + [x])
    ensures Newest(Newest(rows) + [x]) == Newest(rows + [x])
    decreases |rows|
  {
    PairwisePrefix(rows, x, RowidBefore);
    if |rows| <= HISTORY_LIMIT {
      NewestOfFew(rows);
    } else {
      var m := LeastExists(rows);
      assert Pair(rows + [x], RowidBefore, m, |rows|);
      var rest := rows[..m] + rows[m + 1..];
      PairwiseWithout(rows, m, RowidBefore);
      NewestDropsLeast(rows, m);
      if Newer(rows[m], x) {
        NewestIgnoresLeast(rows, m, x);
      } else {
        assert (rows + [x])[..m] + (rows + [x])[m + 1..] == rest + [x];
        assert Newer(x, rows[m]);
        NewestDropsLeast(rows + [x], m);
        PairwiseWithout(rows + [x], m, RowidBefore);
        NewestAbsorbs(rest, x);
      }
    }
  }

  /** An insert older than everything in a full table is dropped again at once. */
  lemma NewestIgnoresLeast(rows: seq<Row>, m: nat, x: Row)
    requires Ascending(rows + [x]) && |rows| > HISTORY_LIMIT
    requires IsLeast(rows, m) && Newer(rows[m], x)
    ensures Newest(Newest(rows) + [x]) == Newest(rows + [x])
  {
    PairwisePrefix(rows, x, RowidBefore);
    var n := |rows|;
    forall j | 0 <= j < n ensures Newer((rows + [x])[j], x) {
      assert j == m || Newer(rows[j], rows[m]);
    }
    assert IsLeast(rows + [x], n);
    NewestDropsLeast(rows + [x], n);
    assert (rows + [x])[..n] + (rows + [x])[n + 1..] == rows;
    var top := Newest(rows);
    NewestLength(rows);
    FilterMembers(rows, Within(rows));
    forall j | 0 <= j < |top| ensures Newer((top + [x])[j], x) {
      assert top[j] in rows;
      var i :| 0 <= i < n && rows[i] == top[j];
      assert i == m || Newer(rows[i], rows[m]);
    }
    assert IsLeast(top + [x], |top|);
    NewestDropsLeast(top + [x], |top|);
    assert (top + [x])[..|top|] + (top + [x])[|top| + 1..] == top;
    PairwiseFilter(rows, Within(rows), RowidBefore);
    NewestOfFew(top);
  }

  /** Age pruning commutes with trimming, whatever the clock did. */
  lemma NewestOfRecent(rows: seq<Row>, cutoff: int)
    ensures DeleteOlder(Newest(rows), cutoff) == Newest(DeleteOlder(rows, cutoff))
  {
    var both := (r: Row) => Recent(cutoff)(r) && Within(rows)(r);
    FilterFilter(rows, Within(rows), Recent(cutoff), both);
    FilterFilter(rows, Recent(cutoff), Within(rows), both);
    forall r | r in DeleteOlder(rows, cutoff)
      ensures Within(rows)(r) == Within(DeleteOlder(rows, cutoff))(r)
    {
      FilterMember(rows, Recent(cutoff), r);
      RankFilter(rows, Recent(cutoff), r);
    }
    FilterCongruence(DeleteOlder(rows, cutoff), Within(rows), Within(DeleteOlder(rows, cutoff)));
  }

  // ----- only the order of the rowids matters -----

  ghost predicate SameEnvelopes(a: seq<Row>, b: seq<Row>) {
    |a| == |b| && forall i :: 0 <= i < |a| ==> a[i].env == b[i].env
  }

  lemma {:induction false} RankByOrder(a: seq<Row>, b: seq<Row>, n: nat, i: nat)
    requires SameEnvelopes(a, b) && Ascending(a) && Ascending(b)
    requires n <= |a| && i < |a|
    ensures Rank(a[..n], a[i]) == Rank(b[..n], b[i])
  {
    if n > 0 {
      assert DropLast(a[..n]) == a[..n - 1] && DropLast(b[..n]) == b[..n - 1];
      RankByOrder(a, b, n - 1, i);
      assert Pair(a, RowidBefore, n - 1, i) && Pair(a, RowidBefore, i, n - 1);
      assert Pair(b, RowidBefore, n - 1, i) && Pair(b, RowidBefore, i, n - 1);
    }
  }

  lemma {:induction false} FilterByOrder(a: seq<Row>, b: seq<Row>, p: Row -> bool, q: Row -> bool)
    requires SameEnvelopes(a, b)
    requires forall i :: 0 <= i < |a| ==> p(a[i]) == q(b[i])
    ensures SameEnvelopes(Filter(a, p), Filter(b, q))
  {
    if a != [] {
      FilterByOrder(DropLast(a), DropLast(b), p, q);
      assert p(Last(a)) == q(Last(b));
    }
  }

  lemma SameEnvelopesIff(a: seq<Row>, b: seq<Row>)
    ensures SameEnvelopes(a, b) <==> Envelopes(a) == Envelopes(b)
  {
    forall i | 0 <= i < |a| ensures Envelopes(a)[i] == a[i].env {
      MapAt(a, ENVELOPE_OF, i);
    }
    forall i | 0 <= i < |b| ensures Envelopes(b)[i] == b[i].env {
      MapAt(b, ENVELOPE_OF, i);
    }
    if Envelopes(a) == Envelopes(b) {
      forall i | 0 <= i < |a| ensures a[i].env == b[i].env {
        assert Envelopes(a)[i] == Envelopes(b)[i];
      }
    }
  }

  lemma EnvelopesPush(a: seq<Row>, x: Row)
    ensures Envelopes(a + [x]) == Envelopes(a) + [x.env]
  {
    assert DropLast(a + [x]) == a;
  }

  lemma RecentByOrder(a: seq<Row>, b: seq<Row>, cutoff: int)
    requires Envelopes(a) == Envelopes(b)
    ensures Envelopes(DeleteOlder(a, cutoff)) == Envelopes(DeleteOlder(b, cutoff))
  {
    SameEnvelopesIff(a, b);
    FilterByOrder(a, b, Recent(cutoff), Recent(cutoff));
    SameEnvelopesIff(DeleteOlder(a, cutoff), DeleteOlder(b, cutoff));
  }

  /** Trimming by `(ts, rowid)` is trimming by `(ts, insertion order)`. */
  lemma NewestByOrder(a: seq<Row>, b: seq<Row>)
    requires Envelopes(a) == Envelopes(b) && Ascending(a) && Ascending(b)
    ensures Envelopes(Newest(a)) == Envelopes(Newest(b))
  {
    SameEnvelopesIff(a, b);
    forall i | 0 <= i < |a| ensures Within(a)(a[i]) == Within(b)(b[i]) {
      RankByOrder(a, b, |a|, i);
      assert a[..|a|] == a && b[..|a|] == b;
    }
    FilterByOrder(a, b, Within(a), Within(b));
    SameEnvelopesIff(Newest(a), Newest(b));
  }

  // ----- one session's view of the statements -----

  lemma OfSessionInsert(rows: seq<Row>, env: Envelope, sessionId: string)
    ensures OfSession(Insert(rows, env), sessionId)
         == OfSession(rows, sessionId)
          + if env.sessionId == sessionId then [Row(MaxRowid(rows) + 1, env)] else []
  {
    FilterPush(rows, Row(MaxRowid(rows) + 1, env), InSession(sessionId));
  }

  /** A trim of the sessions in `ids` keeps the 100 newest of each and touches no other session. */
  lemma OfSessionTrim(rows: seq<Row>, ids: set<string>, sessionId: string)
    ensures OfSession(TrimRows(rows, ids), sessionId)
         == if sessionId in ids then Newest(OfSession(rows, sessionId)) else OfSession(rows, sessionId)
  {
    var mine := OfSession(rows, sessionId);
    var both := (r: Row) => Untrimmed(rows, ids)(r) && InSession(sessionId)(r);
    FilterFilter(rows, Untrimmed(rows, ids), InSession(sessionId), both);
    FilterFilter(rows, InSession(sessionId), Untrimmed(rows, ids), both);
    FilterMembers(rows, InSession(sessionId));
    if sessionId in ids {
      FilterCongruence(mine, Untrimmed(rows, ids), Within(mine));
    } else {
      FilterAll(mine, Untrimmed(rows, ids));
    }
  }

  lemma OfSessionDeleteOlder(rows: seq<Row>, cutoff: int, sessionId: string)
    ensures OfSession(DeleteOlder(rows, cutoff), sessionId) == DeleteOlder(OfSession(rows, sessionId), cutoff)
  {
    var both := (r: Row) => Recent(cutoff)(r) && InSession(sessionId)(r);
    FilterFilter(rows, Recent(cutoff), InSession(sessionId), both);
    FilterFilter(rows, InSession(sessionId), Recent(cutoff), both);
  }

  lemma OfSessionCascade(rows: seq<Row>, ids: set<string>, sessionId: string)
    ensures OfSession(Cascade(rows, ids), sessionId) == if sessionId in ids then [] else OfSession(rows, sessionId)
  {
    var mine := OfSession(rows, sessionId);
    var both := (r: Row) => OutsideSessions(ids)(r) && InSession(sessionId)(r);
    FilterFilter(rows, OutsideSessions(ids), InSession(sessionId), both);
    FilterFilter(rows, InSession(sessionId), OutsideSessions(ids), both);
    FilterMembers(rows, InSession(sessionId));
    if sessionId in ids {
      FilterNone(mine, OutsideSessions(ids));
    } else {
      FilterAll(mine, OutsideSessions(ids));
    }
  }

  /** Trimming one session after others is trimming them all: the loop of `pruneHistory`. */
  lemma TrimOneMore(rows: seq<Row>, ids: set<string>, sessionId: string)
    requires sessionId !in ids
    ensures TrimRows(TrimRows(rows, ids), {sessionId}) == TrimRows(rows, ids + {sessionId})
  {
    var part := TrimRows(rows, ids);
    OfSessionTrim(rows, ids, sessionId);
    FilterFilter(rows, Untrimmed(rows, ids), Untrimmed(part, {sessionId}), Untrimmed(rows, ids + {sessionId}));
  }
}
