/** Workspace snapshots: each status frame carries some of the fields, the stored row
    accumulates them (relay/src/store.ts, `upsertWorkspaceSnapshot`). */
module Snapshots {
  import opened Options
  import opened Sequences
  import opened Messages

  /** The fields of a status payload as they arrived; None is a missing key. */
  datatype Payload = Payload(
    ideState: Option<Json>,
    previewUrl: Option<Json>,
    fileTree: Option<Json>,
    adapters: Option<Json>,
    activeAdapter: Option<Json>,
    timestamp: Option<Json>)

  datatype Snapshot = Snapshot(
    ideState: Option<Json>,
    previewUrl: Option<string>,
    fileTree: Option<Json>,
    adapters: Option<Json>,
    activeAdapter: Option<string>,
    timestamp: int)

  /** The columns of `workspace_snapshots`; None is NULL. */
  datatype SnapshotRow = SnapshotRow(
    ideStateJson: Option<string>,
    previewUrl: Option<string>,
    fileTreeJson: Option<string>,
    adaptersJson: Option<string>,
    activeAdapter: Option<string>,
    timestamp: int)

  // ----- columns -----

  function WriteColumn(codec: Codec, value: Option<Json>): Option<string> {
    if value.Some? then Some(codec.write(value.value)) else None
  }

  /** `parseJson(raw, undefined)` */
  function ReadColumn(codec: Codec, raw: Option<string>): Option<Json> {
    if raw.None? || raw.value == "" then None else codec.read(raw.value)
  }

  function ToRow(codec: Codec, s: Snapshot): SnapshotRow {
    SnapshotRow(WriteColumn(codec, s.ideState), s.previewUrl, WriteColumn(codec, s.fileTree),
                WriteColumn(codec, s.adapters), s.activeAdapter, s.timestamp)
  }

  function FromRow(codec: Codec, r: SnapshotRow): Snapshot {
    Snapshot(ReadColumn(codec, r.ideStateJson), r.previewUrl, ReadColumn(codec, r.fileTreeJson),
             ReadColumn(codec, r.adaptersJson), r.activeAdapter, r.timestamp)
  }

  lemma RowRoundTrip(codec: Codec, s: Snapshot)
    requires codec.Faithful()
    ensures FromRow(codec, ToRow(codec, s)) == s
  {
    forall value: Option<Json> ensures ReadColumn(codec, WriteColumn(codec, value)) == value {
      if value.Some? {
        assert codec.read(codec.write(value.value)) == value;
      }
    }
  }

  // ----- one upsert -----

  /** For `ideState`, `fileTree` and `adapters` a null is as good as absent. */
  predicate CarriesJson(field: Option<Json>) {
    field.Some? && !field.value.Null?
  }

  /** For `previewUrl` and `activeAdapter` a null is a value; other types are ignored. */
  predicate CarriesNullable(field: Option<Json>) {
    field.Some? && (field.value.Null? || field.value.Text?)
  }

  function NullableValue(field: Option<Json>): Option<string>
    requires CarriesNullable(field)
  {
    if field.value.Text? then Some(field.value.text) else None
  }

  function NextNullable(field: Option<Json>, previous: Option<string>): Option<string> {
    if CarriesNullable(field) then NullableValue(field) else previous
  }

  function Timestamp(p: Payload, now: int): int {
    if p.timestamp.Some? && p.timestamp.value.Number? then p.timestamp.value.number else now
  }

  const BLANK := Snapshot(None, None, None, None, None, 0)

  function Next(previous: Option<Snapshot>, p: Payload, now: int): Snapshot {
    var was := previous.GetOr(BLANK);
    Snapshot(
      if CarriesJson(p.ideState) then p.ideState else was.ideState,
      NextNullable(p.previewUrl, was.previewUrl),
      if CarriesJson(p.fileTree) then p.fileTree else was.fileTree,
      if CarriesJson(p.adapters) then p.adapters else was.adapters,
      NextNullable(p.activeAdapter, was.activeAdapter),
      Timestamp(p, now))
  }

  /** The effect of `upsertWorkspaceSnapshot` on the row of one key. */
  function UpsertRow(codec: Codec, row: Option<SnapshotRow>, p: Payload, now: int): SnapshotRow {
    var previous := if row.Some? then Some(FromRow(codec, row.value)) else None;
    ToRow(codec, Next(previous, p, now))
  }

  // ----- many upserts -----

  datatype Update = Update(payload: Payload, now: int)

  function UpsertAll(codec: Codec, updates: seq<Update>): Option<SnapshotRow> {
    if updates == [] then None
    else Some(UpsertRow(codec, UpsertAll(codec, DropLast(updates)), Last(updates).payload, Last(updates).now))
  }

  // What the updates say about a field, in terms of the payloads alone: the last that says something decides.

  ghost predicate SaysJson(field: Option<Json>) {
    field.Some? && field != Some(Null)
  }

  ghost predicate SaysNullable(field: Option<Json>) {
    field == Some(Null) || (field.Some? && field.value.Text?)
  }

  /** The payload value that stands for a column: null for NULL, a string for a string. */
  ghost function AsJson(value: Option<string>): Json {
    if value.None? then Null else Text(value.value)
  }

  ghost predicate DecidesJson(updates: seq<Update>, field: Payload -> Option<Json>, value: Option<Json>) {
    || (value.None? && forall i :: 0 <= i < |updates| ==> !SaysJson(field(updates[i].payload)))
    || (exists i :: LastJson(updates, field, i) && field(updates[i].payload) == value)
  }

  ghost predicate LastJson(updates: seq<Update>, field: Payload -> Option<Json>, i: int) {
    && 0 <= i < |updates|
    && SaysJson(field(updates[i].payload))
    && forall j :: i < j < |updates| ==> !SaysJson(field(updates[j].payload))
  }

  ghost predicate DecidesNullable(updates: seq<Update>, field: Payload -> Option<Json>, value: Option<string>) {
    || (value.None? && forall i :: 0 <= i < |updates| ==> !SaysNullable(field(updates[i].payload)))
    || (exists i :: LastNullable(updates, field, i) && field(updates[i].payload) == Some(AsJson(value)))
  }

  ghost predicate LastNullable(updates: seq<Update>, field: Payload -> Option<Json>, i: int) {
    && 0 <= i < |updates|
    && SaysNullable(field(updates[i].payload))
    && forall j :: i < j < |updates| ==> !SaysNullable(field(updates[j].payload))
  }

  /** A number is taken over from the payload; otherwise the time of the write counts. */
  ghost predicate IsTimestampOf(u: Update, timestamp: int) {
    match u.payload.timestamp
    case Some(Number(n)) => timestamp == n
    case _ => timestamp == u.now
  }

  const IDE_STATE := (p: Payload) => p.ideState
  const PREVIEW_URL := (p: Payload) => p.previewUrl
  const FILE_TREE := (p: Payload) => p.fileTree
  const ADAPTERS := (p: Payload) => p.adapters
  const ACTIVE_ADAPTER := (p: Payload) => p.activeAdapter

  /** The meaning of a stored snapshot: every field is what its latest carrier said. */
  ghost predicate Accumulates(updates: seq<Update>, s: Snapshot) {
    && updates != []
    && DecidesJson(updates, IDE_STATE, s.ideState)
    && DecidesNullable(updates, PREVIEW_URL, s.previewUrl)
    && DecidesJson(updates, FILE_TREE, s.fileTree)
    && DecidesJson(updates, ADAPTERS, s.adapters)
    && DecidesNullable(updates, ACTIVE_ADAPTER, s.activeAdapter)
    && IsTimestampOf(Last(updates), s.timestamp)
  }

  lemma DecidesJsonPush(updates: seq<Update>, u: Update, field: Payload -> Option<Json>, value: Option<Json>)
    requires DecidesJson(updates, field, value)
    ensures DecidesJson(updates + [u], field, if CarriesJson(field(u.payload)) then field(u.payload) else value)
  {
    var more := updates + [u];
    if CarriesJson(field(u.payload)) {
      assert LastJson(more, field, |updates|);
    } else if exists i :: LastJson(updates, field, i) && field(updates[i].payload) == value {
      var i :| LastJson(updates, field, i) && field(updates[i].payload) == value;
      assert more[i] == updates[i];
      assert LastJson(more, field, i);
    }
  }

  lemma DecidesNullablePush(updates: seq<Update>, u: Update, field: Payload -> Option<Json>, value: Option<string>)
    requires DecidesNullable(updates, field, value)
    ensures DecidesNullable(updates + [u], field, NextNullable(field(u.payload), value))
  {
    var more := updates + [u];
    if CarriesNullable(field(u.payload)) {
      assert LastNullable(more, field, |updates|);
    } else if exists i :: LastNullable(updates, field, i) && field(updates[i].payload) == Some(AsJson(value)) {
      var i :| LastNullable(updates, field, i) && field(updates[i].payload) == Some(AsJson(value));
      assert more[i] == updates[i];
      assert LastNullable(more, field, i);
    }
  }

  /** Through any number of encoded and decoded rows, the snapshot accumulates its payloads. */
  lemma {:induction false} SnapshotAccumulates(codec: Codec, updates: seq<Update>)
    requires codec.Faithful() && updates != []
    ensures Accumulates(updates, FromRow(codec, UpsertAll(codec, updates).value))
  {
    var before, u := DropLast(updates), Last(updates);
    assert updates == before + [u];
    var was := BLANK;
    if before != [] {
      SnapshotAccumulates(codec, before);
      was := FromRow(codec, UpsertAll(codec, before).value);
    }
    RowRoundTrip(codec, Next(if before == [] then None else Some(was), u.payload, u.now));
    DecidesJsonPush(before, u, IDE_STATE, was.ideState);
    DecidesNullablePush(before, u, PREVIEW_URL, was.previewUrl);
    DecidesJsonPush(before, u, FILE_TREE, was.fileTree);
    DecidesJsonPush(before, u, ADAPTERS, was.adapters);
    DecidesNullablePush(before, u, ACTIVE_ADAPTER, was.activeAdapter);
  }

  /** Every field has exactly one value that accumulates the updates. */
  lemma AccumulatesUnique(updates: seq<Update>, s: Snapshot, t: Snapshot)
    requires Accumulates(updates, s) && Accumulates(updates, t)
    ensures s == t
  {
    DecidesJsonUnique(updates, IDE_STATE, s.ideState, t.ideState);
    DecidesNullableUnique(updates, PREVIEW_URL, s.previewUrl, t.previewUrl);
    DecidesJsonUnique(updates, FILE_TREE, s.fileTree, t.fileTree);
    DecidesJsonUnique(updates, ADAPTERS, s.adapters, t.adapters);
    DecidesNullableUnique(updates, ACTIVE_ADAPTER, s.activeAdapter, t.activeAdapter);
  }

  lemma DecidesJsonUnique(updates: seq<Update>, field: Payload -> Option<Json>, v: Option<Json>, w: Option<Json>)
    requires DecidesJson(updates, field, v) && DecidesJson(updates, field, w)
    ensures v == w
  {
    forall i, j | LastJson(updates, field, i) && LastJson(updates, field, j) ensures i == j {}
  }

  lemma DecidesNullableUnique(updates: seq<Update>, field: Payload -> Option<Json>,
                              v: Option<string>, w: Option<string>)
    requires DecidesNullable(updates, field, v) && DecidesNullable(updates, field, w)
    ensures v == w
  {
    forall i, j | LastNullable(updates, field, i) && LastNullable(updates, field, j) ensures i == j {}
  }

  // ----- merging payloads -----

  /** One payload with the effect of `p` followed by `q`. */
  function Merge(p: Update, q: Update): Update {
    Update(
      Payload(
        if CarriesJson(q.payload.ideState) then q.payload.ideState else p.payload.ideState,
        if CarriesNullable(q.payload.previewUrl) then q.payload.previewUrl else p.payload.previewUrl,
        if CarriesJson(q.payload.fileTree) then q.payload.fileTree else p.payload.fileTree,
        if CarriesJson(q.payload.adapters) then q.payload.adapters else p.payload.adapters,
        if CarriesNullable(q.payload.activeAdapter) then q.payload.activeAdapter else p.payload.activeAdapter,
        q.payload.timestamp),
      q.now)
  }

  /** Two upserts are one upsert of the merged payload, and merging is associative. */
  lemma MergeIsOneUpsert(codec: Codec, row: Option<SnapshotRow>, p: Update, q: Update, r: Update)
    requires codec.Faithful()
    ensures UpsertRow(codec, Some(UpsertRow(codec, row, p.payload, p.now)), q.payload, q.now)
         == UpsertRow(codec, row, Merge(p, q).payload, Merge(p, q).now)
    ensures Merge(Merge(p, q), r) == Merge(p, Merge(q, r))
  {
    var previous := if row.Some? then Some(FromRow(codec, row.value)) else None;
    RowRoundTrip(codec, Next(previous, p.payload, p.now));
  }
}
