/** The local state store (src/storage/database.py): the snapshot table keyed
    by unique event id, the mapping table keyed by (unique id, calendar id),
    the append-only session log, and the two classification procedures that
    drive a sync run. The tables are maps; SQL, connections and JSON are not
    modelled. Timestamps are passed in as `now`. */
module Storage {
  import opened Common
  import opened Strings
  import opened Events
  import opened GoogleCalendar

  // ---------------------------------------------------------------------
  // Snapshots
  // ---------------------------------------------------------------------

  /** A row of `event_snapshots`, without its key. */
  datatype Snapshot = Snapshot(
    seriesUid: Option<string>,
    sequence: int,
    fingerprint: Fingerprint,
    eventData: EventData,
    createdAt: int,
    updatedAt: int)

  type Snapshots = map<string, Snapshot>

  /** The `series_uid` column: the event's series id for an event with RRULE
      or RDATE, NULL for everything else (modified instances included). */
  function SeriesUidOf(e: EventData): (r: Option<string>)
    ensures r.Some? <==> IsRecurring(e)
    ensures r.Some? ==> r.value == e.uid
  {
    if IsRecurring(e) then Some(GetSeriesId(e)) else None
  }

  /** The row `save_event_snapshot` writes. `INSERT OR REPLACE` deletes the
      old row, so `created_at` restarts too. */
  function SnapshotOf(e: EventData, now: int): Snapshot {
    Snapshot(SeriesUidOf(e), e.sequence, e.fingerprint, e, now, now)
  }

  /** `save_event_snapshot` on the table: exactly one row for the event's
      unique id, carrying its sequence and fingerprint; all other rows as
      they were. */
  function Upsert(snaps: Snapshots, e: EventData, now: int): (r: Snapshots)
    ensures r.Keys == snaps.Keys + {GetUniqueEventId(e)}
    ensures r[GetUniqueEventId(e)].sequence == e.sequence && r[GetUniqueEventId(e)].fingerprint == e.fingerprint
    ensures r[GetUniqueEventId(e)] == SnapshotOf(e, now)
    ensures forall id :: id in snaps && id != GetUniqueEventId(e) ==> r[id] == snaps[id]
  {
    snaps[GetUniqueEventId(e) := SnapshotOf(e, now)]
  }

  /** Saving a snapshot for each event in turn. */
  function SaveAll(snaps: Snapshots, events: seq<EventData>, now: int): Snapshots {
    if events == [] then snaps
    else Upsert(SaveAll(snaps, events[..|events| - 1], now), events[|events| - 1], now)
  }

  /** One more event upserts its snapshot. */
  lemma SaveAllSnoc(snaps: Snapshots, prefix: seq<EventData>, e: EventData, now: int)
    ensures SaveAll(snaps, prefix + [e], now) == Upsert(SaveAll(snaps, prefix, now), e, now)
  {
    assert (prefix + [e])[..|prefix|] == prefix;
  }

  /** The unique ids of a list of events. */
  function CurrentIds(events: seq<EventData>): set<string> {
    set e | e in events :: GetUniqueEventId(e)
  }

  /** No two events share a unique id. */
  predicate DistinctIds(events: seq<EventData>) {
    forall i, j :: 0 <= i < j < |events| ==> GetUniqueEventId(events[i]) != GetUniqueEventId(events[j])
  }

  /** One more event adds its id. */
  lemma CurrentIdsSnoc(init: seq<EventData>, last: EventData)
    ensures CurrentIds(init + [last]) == CurrentIds(init) + {GetUniqueEventId(last)}
  {
    var events := init + [last];
    forall id | id in CurrentIds(events)
      ensures id in CurrentIds(init) + {GetUniqueEventId(last)}
    {
      var e :| e in events && GetUniqueEventId(e) == id;
      if e != last {
        assert e in init;
      }
    }
    assert last in events;
    forall id | id in CurrentIds(init)
      ensures id in CurrentIds(events)
    {
      var e :| e in init && GetUniqueEventId(e) == id;
      assert e in events;
    }
  }

  /** Saving events adds exactly their ids to the table. */
  lemma {:induction false} SaveAllKeys(snaps: Snapshots, events: seq<EventData>, now: int)
    ensures SaveAll(snaps, events, now).Keys == snaps.Keys + CurrentIds(events)
  {
    if events != [] {
      var init := events[..|events| - 1];
      var last := events[|events| - 1];
      SaveAllKeys(snaps, init, now);
      CurrentIdsLast(events);
      assert SaveAll(snaps, events, now) == Upsert(SaveAll(snaps, init, now), last, now);
    }
  }

  /** The ids of a non-empty list: those before its last event and the last
      event's own. */
  lemma CurrentIdsLast(events: seq<EventData>)
    requires events != []
    ensures CurrentIds(events) == CurrentIds(events[..|events| - 1]) + {GetUniqueEventId(events[|events| - 1])}
  {
    assert events == events[..|events| - 1] + [events[|events| - 1]];
    CurrentIdsSnoc(events[..|events| - 1], events[|events| - 1]);
  }

  /** Rows of ids no saved event produces are untouched. */
  lemma {:induction false} SaveAllKeepsOthers(snaps: Snapshots, events: seq<EventData>, now: int, id: string)
    requires id in snaps && id !in CurrentIds(events)
    ensures id in SaveAll(snaps, events, now) && SaveAll(snaps, events, now)[id] == snaps[id]
  {
    if events != [] {
      var init := events[..|events| - 1];
      assert forall e :: e in init ==> e in events;
      SaveAllKeepsOthers(snaps, init, now, id);
    }
  }

  /** With distinct ids, each saved event's row is its own snapshot. */
  lemma {:induction false} SaveAllRows(snaps: Snapshots, events: seq<EventData>, now: int, k: nat)
    requires DistinctIds(events) && k < |events|
    ensures GetUniqueEventId(events[k]) in SaveAll(snaps, events, now)
    ensures SaveAll(snaps, events, now)[GetUniqueEventId(events[k])] == SnapshotOf(events[k], now)
  {
    var init := events[..|events| - 1];
    var last := events[|events| - 1];
    if k < |events| - 1 {
      assert DistinctIds(init);
      assert init[k] == events[k];
      SaveAllRows(snaps, init, now, k);
      assert GetUniqueEventId(events[k]) != GetUniqueEventId(last);
    }
  }

  /** After saving events with distinct ids, the table holds the old ids plus
      the new ones, each new id maps to its own event's snapshot, and every
      other row is untouched. */
  lemma SaveAllContents(snaps: Snapshots, events: seq<EventData>, now: int)
    requires DistinctIds(events)
    ensures SaveAll(snaps, events, now).Keys == snaps.Keys + CurrentIds(events)
    ensures forall e :: e in events ==> SaveAll(snaps, events, now)[GetUniqueEventId(e)] == SnapshotOf(e, now)
    ensures forall id :: id in snaps && id !in CurrentIds(events) ==> SaveAll(snaps, events, now)[id] == snaps[id]
  {
    SaveAllKeys(snaps, events, now);
    forall e | e in events
      ensures SaveAll(snaps, events, now)[GetUniqueEventId(e)] == SnapshotOf(e, now)
    {
      var k :| 0 <= k < |events| && events[k] == e;
      SaveAllRows(snaps, events, now, k);
    }
    forall id | id in snaps && id !in CurrentIds(events)
      ensures SaveAll(snaps, events, now)[id] == snaps[id]
    {
      SaveAllKeepsOthers(snaps, events, now, id);
    }
  }

  // ---------------------------------------------------------------------
  // detect_changes
  // ---------------------------------------------------------------------

  /** An event whose unique id has no snapshot. */
  predicate IsNew(snaps: Snapshots, e: EventData) {
    GetUniqueEventId(e) !in snaps
  }

  /** An event with a snapshot and either a higher sequence or a different
      fingerprint. */
  predicate IsChanged(snaps: Snapshots, e: EventData) {
    var id := GetUniqueEventId(e);
    id in snaps && (e.sequence > snaps[id].sequence || e.fingerprint != snaps[id].fingerprint)
  }

  function IsNewIn(snaps: Snapshots): EventData -> bool {
    (e: EventData) => IsNew(snaps, e)
  }

  function IsChangedIn(snaps: Snapshots): EventData -> bool {
    (e: EventData) => IsChanged(snaps, e)
  }

  /** The current events whose id has no snapshot, in feed order. */
  function NewEvents(snaps: Snapshots, current: seq<EventData>): (r: seq<EventData>)
    ensures |r| <= |current|
  {
    Filter(current, IsNewIn(snaps))
  }

  /** The current events whose snapshot has a lower sequence or another
      fingerprint, in feed order. */
  function UpdatedEvents(snaps: Snapshots, current: seq<EventData>): (r: seq<EventData>)
    ensures |r| <= |current|
  {
    Filter(current, IsChangedIn(snaps))
  }

  /** Snapshot ids no current event produces. */
  function RemovedIds(snaps: Snapshots, current: seq<EventData>): (r: set<string>)
    ensures r <= snaps.Keys && r !! CurrentIds(current)
  {
    snaps.Keys - CurrentIds(current)
  }

  /** What the classification means for one event: new exactly when its id
      has no snapshot, updated exactly when it has one and a higher sequence
      or another fingerprint, never both; an event at the same or a lower
      sequence with the same fingerprint is not updated. */
  lemma ClassificationIsExact(snaps: Snapshots, current: seq<EventData>, e: EventData)
    ensures e in NewEvents(snaps, current) <==> e in current && GetUniqueEventId(e) !in snaps
    ensures e in UpdatedEvents(snaps, current) <==>
              e in current && GetUniqueEventId(e) in snaps &&
              (e.sequence > snaps[GetUniqueEventId(e)].sequence || e.fingerprint != snaps[GetUniqueEventId(e)].fingerprint)
    ensures !(e in NewEvents(snaps, current) && e in UpdatedEvents(snaps, current))
    ensures (GetUniqueEventId(e) in snaps && e.sequence <= snaps[GetUniqueEventId(e)].sequence &&
             e.fingerprint == snaps[GetUniqueEventId(e)].fingerprint) ==> e !in UpdatedEvents(snaps, current)
  {
    FilterMembership(current, IsNewIn(snaps), e);
    FilterMembership(current, IsChangedIn(snaps), e);
  }

  /** No current id is ever reported deleted, and only snapshot ids are. */
  lemma RemovedAreNotCurrent(snaps: Snapshots, current: seq<EventData>)
    ensures forall e :: e in current ==> GetUniqueEventId(e) !in RemovedIds(snaps, current)
    ensures RemovedIds(snaps, current) <= snaps.Keys
  {
  }

  /** Saving every current event (distinct ids) and classifying the same
      events again finds nothing new and nothing updated; the removed ids are
      still reported, because their snapshots are never deleted. */
  lemma ResyncFindsNoChanges(snaps: Snapshots, current: seq<EventData>, now: int)
    requires DistinctIds(current)
    ensures NewEvents(SaveAll(snaps, current, now), current) == []
    ensures UpdatedEvents(SaveAll(snaps, current, now), current) == []
    ensures RemovedIds(SaveAll(snaps, current, now), current) == RemovedIds(snaps, current)
  {
    var saved := SaveAll(snaps, current, now);
    SaveAllContents(snaps, current, now);
    FilterNone(current, IsNewIn(saved));
    forall e | e in current
      ensures !IsChangedIn(saved)(e)
    {
      assert saved[GetUniqueEventId(e)] == SnapshotOf(e, now);
    }
    FilterNone(current, IsChangedIn(saved));
  }

  /** When every snapshot belongs to a current event, the re-run is entirely
      quiet. */
  lemma ResyncIsQuietWithoutRemovals(snaps: Snapshots, current: seq<EventData>, now: int)
    requires DistinctIds(current) && snaps.Keys <= CurrentIds(current)
    ensures NewEvents(SaveAll(snaps, current, now), current) == []
    ensures UpdatedEvents(SaveAll(snaps, current, now), current) == []
    ensures RemovedIds(SaveAll(snaps, current, now), current) == {}
  {
    ResyncFindsNoChanges(snaps, current, now);
  }

  // ---------------------------------------------------------------------
  // get_orphaned_series_events
  // ---------------------------------------------------------------------

  /** The series ids of the current recurring events. */
  function LiveSeries(current: seq<EventData>): set<string> {
    set e | e in current && IsRecurring(e) :: GetSeriesId(e)
  }

  /** The unique ids the current recurring events of one series produce. */
  function CurrentSeriesIds(current: seq<EventData>, series: string): set<string> {
    set e | e in current && IsRecurring(e) && GetSeriesId(e) == series :: GetUniqueEventId(e)
  }

  /** One more event adds its series, when it is recurring. */
  lemma LiveSeriesSnoc(prefix: seq<EventData>, e: EventData)
    ensures LiveSeries(prefix + [e]) == LiveSeries(prefix) + (if IsRecurring(e) then {GetSeriesId(e)} else {})
  {
    var events := prefix + [e];
    forall s | s in LiveSeries(events)
      ensures s in LiveSeries(prefix) + (if IsRecurring(e) then {GetSeriesId(e)} else {})
    {
      var x :| x in events && IsRecurring(x) && GetSeriesId(x) == s;
      if x != e {
        assert x in prefix;
      }
    }
    assert e in events;
    forall s | s in LiveSeries(prefix)
      ensures s in LiveSeries(events)
    {
      var x :| x in prefix && IsRecurring(x) && GetSeriesId(x) == s;
      assert x in events;
    }
  }

  /** One more event adds its unique id to its own series, when it is
      recurring. */
  lemma CurrentSeriesIdsSnoc(prefix: seq<EventData>, e: EventData, series: string)
    ensures CurrentSeriesIds(prefix + [e], series)
            == CurrentSeriesIds(prefix, series)
               + (if IsRecurring(e) && GetSeriesId(e) == series then {GetUniqueEventId(e)} else {})
  {
    var events := prefix + [e];
    forall u | u in CurrentSeriesIds(events, series)
      ensures u in CurrentSeriesIds(prefix, series)
                   + (if IsRecurring(e) && GetSeriesId(e) == series then {GetUniqueEventId(e)} else {})
    {
      var x :| x in events && IsRecurring(x) && GetSeriesId(x) == series && GetUniqueEventId(x) == u;
      if x != e {
        assert x in prefix;
      }
    }
    assert e in events;
    forall u | u in CurrentSeriesIds(prefix, series)
      ensures u in CurrentSeriesIds(events, series)
    {
      var x :| x in prefix && IsRecurring(x) && GetSeriesId(x) == series && GetUniqueEventId(x) == u;
      assert x in events;
    }
  }

  /** A persisted id of some series that no current recurring event of that
      series produces. */
  predicate IsOrphan(snaps: Snapshots, current: seq<EventData>, id: string) {
    id in snaps && snaps[id].seriesUid.Some? && id !in CurrentSeriesIds(current, snaps[id].seriesUid.value)
  }

  function OrphanIds(snaps: Snapshots, current: seq<EventData>): (r: set<string>)
    ensures forall id :: id in r ==> id in snaps && snaps[id].seriesUid.Some?
  {
    set id | id in snaps && IsOrphan(snaps, current, id)
  }

  /** The two cases of the source: for a series still produced now, the
      persisted ids it no longer produces; for a series gone altogether,
      every persisted id of it. */
  lemma OrphanCases(snaps: Snapshots, current: seq<EventData>, id: string)
    requires id in snaps && snaps[id].seriesUid.Some?
    ensures snaps[id].seriesUid.value !in LiveSeries(current) ==> id in OrphanIds(snaps, current)
    ensures snaps[id].seriesUid.value in LiveSeries(current) ==>
              (id in OrphanIds(snaps, current) <==> id !in CurrentSeriesIds(current, snaps[id].seriesUid.value))
  {
    var s := snaps[id].seriesUid.value;
    if s !in LiveSeries(current) {
      assert id !in CurrentSeriesIds(current, s);
    }
  }

  /** A snapshot written for an event without RRULE or RDATE (a modified
      instance among them) has no series and is never an orphan. */
  lemma NonRecurringNeverOrphan(snaps: Snapshots, e: EventData, now: int, current: seq<EventData>)
    requires !IsRecurring(e)
    ensures GetUniqueEventId(e) !in OrphanIds(Upsert(snaps, e, now), current)
  {
  }

  /** A recurring event that is still produced keeps its own snapshot out of
      the orphans. */
  lemma LiveRecurringNotOrphan(snaps: Snapshots, e: EventData, now: int, current: seq<EventData>)
    requires IsRecurring(e) && e in current
    ensures GetUniqueEventId(e) !in OrphanIds(Upsert(snaps, e, now), current)
  {
    assert GetUniqueEventId(e) in CurrentSeriesIds(current, GetSeriesId(e));
  }

  /** An event that was saved while recurring and is now produced without
      RRULE or RDATE is still current, yet its snapshot is reported as an
      orphan: the delete list can name an event that is also synced. */
  lemma StoppedRecurringIsOrphan(snaps: Snapshots, e: EventData, current: seq<EventData>)
    requires e in current && !IsRecurring(e) && !IsModifiedInstance(e)
    requires GetUniqueEventId(e) in snaps && snaps[GetUniqueEventId(e)].seriesUid == Some(e.uid)
    requires forall x :: x in current && IsRecurring(x) ==> x.uid != e.uid
    ensures GetUniqueEventId(e) in OrphanIds(snaps, current)
    ensures GetUniqueEventId(e) in CurrentIds(current)
  {
    var id := GetUniqueEventId(e);
    assert id !in CurrentSeriesIds(current, e.uid);
  }

  // ---------------------------------------------------------------------
  // Mappings and session log
  // ---------------------------------------------------------------------

  /** A row of `event_mappings`, without its key. */
  datatype Mapping = Mapping(googleEventId: RemoteId, lastSyncAt: int, syncStatus: string, errorMessage: Option<string>)

  /** (original uid, calendar id). */
  type MappingKey = (string, string)

  datatype SqlValue = Null | Int(n: int) | Text(text: string)

  /** A row of `sync_history`, column name to value. */
  type Row = map<string, SqlValue>

  /** The columns `update_sync_session` will write. */
  const SessionColumns: set<string> :=
    {"events_processed", "events_created", "events_updated", "events_deleted", "errors_count", "status", "error_message"}

  /** The row `start_sync_session` inserts: the start time, status running,
      and the table's defaults. */
  function NewSessionRow(now: int): Row {
    map["sync_started_at" := Int(now), "sync_completed_at" := Null, "events_processed" := Int(0),
        "events_created" := Int(0), "events_updated" := Int(0), "events_deleted" := Int(0),
        "errors_count" := Int(0), "status" := Text("running"), "error_message" := Null]
  }

  /** The whitelisted assignments of an update, later ones winning. */
  function SetClauses(kwargs: seq<(string, SqlValue)>): (r: map<string, SqlValue>)
    ensures r.Keys <= SessionColumns
  {
    if kwargs == [] then map[]
    else
      var last := kwargs[|kwargs| - 1];
      SetClauses(kwargs[..|kwargs| - 1]) + (if last.0 in SessionColumns then map[last.0 := last.1] else map[])
  }

  /** The update sets status to completed or failed. */
  predicate StampsCompletion(kwargs: seq<(string, SqlValue)>) {
    exists i :: 0 <= i < |kwargs| && kwargs[i].0 == "status" && kwargs[i].1 in {Text("completed"), Text("failed")}
  }

  /** One more keyword argument: its column joins the clauses when
      whitelisted, and it stamps the completion when it is a final status. */
  lemma SessionArgsSnoc(kwargs: seq<(string, SqlValue)>, i: nat, next: nat)
    requires i < |kwargs| && next == i + 1
    ensures SetClauses(kwargs[..next])
            == SetClauses(kwargs[..i]) + (if kwargs[i].0 in SessionColumns then map[kwargs[i].0 := kwargs[i].1] else map[])
    ensures StampsCompletion(kwargs[..next])
            <==> StampsCompletion(kwargs[..i]) || (kwargs[i].0 == "status" && kwargs[i].1 in {Text("completed"), Text("failed")})
  {
    assert kwargs[..next][..i] == kwargs[..i];
    assert kwargs[..next][i] == kwargs[i];
    if StampsCompletion(kwargs[..next]) && !(kwargs[i].0 == "status" && kwargs[i].1 in {Text("completed"), Text("failed")}) {
      var k :| 0 <= k < next && kwargs[..next][k].0 == "status" && kwargs[..next][k].1 in {Text("completed"), Text("failed")};
      assert k < i && kwargs[..i][k] == kwargs[..next][k];
    }
    if StampsCompletion(kwargs[..i]) {
      var k :| 0 <= k < i && kwargs[..i][k].0 == "status" && kwargs[..i][k].1 in {Text("completed"), Text("failed")};
      assert kwargs[..next][k] == kwargs[..i][k];
    }
  }

  /** `update_sync_session` on one row. */
  function SessionUpdate(row: Row, kwargs: seq<(string, SqlValue)>, now: int): (r: Row)
    ensures StampsCompletion(kwargs) ==> "sync_completed_at" in r && r["sync_completed_at"] == Int(now)
    ensures forall c :: c !in SessionColumns && c != "sync_completed_at" ==>
              (c in r <==> c in row) && (c in row ==> r[c] == row[c])
  {
    var updated := row + SetClauses(kwargs);
    if StampsCompletion(kwargs) then updated["sync_completed_at" := Int(now)] else updated
  }

  predicate DistinctKeys(kwargs: seq<(string, SqlValue)>) {
    forall i, j :: 0 <= i < j < |kwargs| ==> kwargs[i].0 != kwargs[j].0
  }

  /** Every whitelisted keyword argument lands in its column. */
  lemma {:induction false} SetClausesHold(kwargs: seq<(string, SqlValue)>, i: nat)
    requires DistinctKeys(kwargs) && i < |kwargs| && kwargs[i].0 in SessionColumns
    ensures kwargs[i].0 in SetClauses(kwargs) && SetClauses(kwargs)[kwargs[i].0] == kwargs[i].1
  {
    var init := kwargs[..|kwargs| - 1];
    if i < |kwargs| - 1 {
      assert DistinctKeys(init);
      SetClausesHold(init, i);
      assert kwargs[i].0 != kwargs[|kwargs| - 1].0;
    }
  }

  /** An update naming no whitelisted column assigns nothing. */
  lemma {:induction false} SetClausesEmpty(kwargs: seq<(string, SqlValue)>)
    requires forall i :: 0 <= i < |kwargs| ==> kwargs[i].0 !in SessionColumns
    ensures SetClauses(kwargs) == map[]
  {
    if kwargs != [] {
      SetClausesEmpty(kwargs[..|kwargs| - 1]);
    }
  }

  /** The whitelisted fields are overwritten with the given values, the
      completion time is stamped exactly for a completed or failed status,
      and an update with no whitelisted key (an empty one included) changes
      nothing. */
  lemma SessionUpdateEffect(row: Row, kwargs: seq<(string, SqlValue)>, now: int)
    requires DistinctKeys(kwargs)
    ensures forall i :: 0 <= i < |kwargs| && kwargs[i].0 in SessionColumns ==>
              kwargs[i].0 in SessionUpdate(row, kwargs, now) && SessionUpdate(row, kwargs, now)[kwargs[i].0] == kwargs[i].1
    ensures !StampsCompletion(kwargs) ==>
              ("sync_completed_at" in SessionUpdate(row, kwargs, now) <==> "sync_completed_at" in row) &&
              ("sync_completed_at" in row ==> SessionUpdate(row, kwargs, now)["sync_completed_at"] == row["sync_completed_at"])
    ensures (forall i :: 0 <= i < |kwargs| ==> kwargs[i].0 !in SessionColumns) ==> SessionUpdate(row, kwargs, now) == row
  {
    forall i | 0 <= i < |kwargs| && kwargs[i].0 in SessionColumns
      ensures kwargs[i].0 in SessionUpdate(row, kwargs, now) && SessionUpdate(row, kwargs, now)[kwargs[i].0] == kwargs[i].1
    {
      SetClausesHold(kwargs, i);
    }
    if forall i :: 0 <= i < |kwargs| ==> kwargs[i].0 !in SessionColumns {
      SetClausesEmpty(kwargs);
      assert row + map[] == row;
    }
  }

  /** Whether a session row started before the cutoff. */
  predicate StartedBefore(row: Row, cutoff: int) {
    "sync_started_at" in row && row["sync_started_at"].Int? && row["sync_started_at"].n < cutoff
  }

  /** `cleanup_old_data` on the session log: the rows started before the
      cutoff go, every other row stays as it is. */
  function Pruned(history: map<nat, Row>, cutoff: int): (r: map<nat, Row>)
    ensures forall k :: k in r <==> k in history && !StartedBefore(history[k], cutoff)
    ensures forall k :: k in r ==> r[k] == history[k]
  {
    map k | k in history && !StartedBefore(history[k], cutoff) :: history[k]
  }

  /** A completed session and its start time, where it has one. */
  predicate CompletedAt(row: Row, t: int) {
    "status" in row && row["status"] == Text("completed") &&
    "sync_started_at" in row && row["sync_started_at"] == Int(t)
  }

  /** `last` is the latest start time among the completed sessions of the
      listed rows, None when none of them is completed. */
  ghost predicate LatestOver(history: map<nat, Row>, ks: seq<nat>, last: Option<int>) {
    (last.None? <==> forall k, t :: k in ks && k in history ==> !CompletedAt(history[k], t)) &&
    (last.Some? ==>
       (exists k :: k in ks && k in history && CompletedAt(history[k], last.value)) &&
       forall k, t :: k in ks && k in history && CompletedAt(history[k], t) ==> t <= last.value)
  }

  /** Over a list naming every row, `LatestOver` speaks of the whole log. */
  lemma LatestOverAll(history: map<nat, Row>, ks: seq<nat>, last: Option<int>)
    requires (set k | k in ks) == history.Keys && LatestOver(history, ks, last)
    ensures last.None? <==> forall k, t :: k in history ==> !CompletedAt(history[k], t)
    ensures last.Some? ==>
              (exists k :: k in history && CompletedAt(history[k], last.value)) &&
              forall k, t :: k in history && CompletedAt(history[k], t) ==> t <= last.value
  {
    assert forall k :: k in history <==> k in ks;
  }

  /** One more row: a completed session later than `prev` (or the first
      completed one) replaces it. */
  lemma LatestSnoc(history: map<nat, Row>, ks: seq<nat>, k: nat, prev: Option<int>, last: Option<int>)
    requires k in history && LatestOver(history, ks, prev)
    requires var row := history[k];
             last == if "status" in row && row["status"] == Text("completed") && "sync_started_at" in row &&
                        row["sync_started_at"].Int? && (prev.None? || prev.value < row["sync_started_at"].n)
                     then Some(row["sync_started_at"].n) else prev
    ensures LatestOver(history, ks + [k], last)
  {
    var row := history[k];
    if "status" in row && row["status"] == Text("completed") && "sync_started_at" in row && row["sync_started_at"].Int? {
      assert CompletedAt(row, row["sync_started_at"].n);
    } else {
      assert forall t :: !CompletedAt(row, t);
    }
    assert forall j :: j in ks + [k] <==> j in ks || j == k;
  }

  datatype DatabaseStats = DatabaseStats(
    snapshotsCount: nat,
    mappingsCount: nat,
    historyCount: nat,
    lastSuccessfulSync: Option<int>)

  // ---------------------------------------------------------------------
  // The store
  // ---------------------------------------------------------------------

  class SyncDatabase {
    var snapshots: Snapshots
    var mappings: map<MappingKey, Mapping>
    var history: map<nat, Row>
    /** The next AUTOINCREMENT id of `sync_history`. */
    var nextSessionId: nat

    ghost predicate Valid()
      reads this
    {
      forall id :: id in history ==> id < nextSessionId
    }

    constructor ()
      ensures Valid()
      ensures snapshots == map[] && mappings == map[] && history == map[]
    {
      snapshots := map[];
      mappings := map[];
      history := map[];
      nextSessionId := 1;
    }

    /** `save_event_snapshot`. */
    method SaveEventSnapshot(e: EventData, now: int)
      modifies this`snapshots
      ensures snapshots == Upsert(old(snapshots), e, now)
    {
      var id := GetUniqueEventId(e);
      var series := if IsRecurring(e) then Some(GetSeriesId(e)) else None;
      snapshots := snapshots[id := Snapshot(series, e.sequence, e.fingerprint, e, now, now)];
    }

    /** `get_event_snapshot`. */
    function GetEventSnapshot(id: string): (r: Option<Snapshot>)
      reads this
      ensures r.Some? <==> id in snapshots
      ensures r.Some? ==> r.value == snapshots[id]
    {
      if id in snapshots then Some(snapshots[id]) else None
    }

    /** `save_event_mapping`: an upsert on (uid, calendar); other pairs, the
      same uid under another calendar included, are untouched. */
    method SaveEventMapping(uid: string, googleEventId: RemoteId, calendarId: string, syncStatus: string, now: int)
      modifies this`mappings
      ensures mappings == old(mappings)[(uid, calendarId) := Mapping(googleEventId, now, syncStatus, None)]
      ensures GetEventMapping(uid, calendarId) == Some(Mapping(googleEventId, now, syncStatus, None))
      ensures forall k :: k in old(mappings) && k != (uid, calendarId) ==> k in mappings && mappings[k] == old(mappings)[k]
    {
      mappings := mappings[(uid, calendarId) := Mapping(googleEventId, now, syncStatus, None)];
    }

    /** `get_event_mapping`. */
    function GetEventMapping(uid: string, calendarId: string): (r: Option<Mapping>)
      reads this
      ensures r.Some? <==> (uid, calendarId) in mappings
      ensures r.Some? ==> r.value == mappings[(uid, calendarId)]
    {
      if (uid, calendarId) in mappings then Some(mappings[(uid, calendarId)]) else None
    }

    /** `delete_event_mapping`: only the (uid, calendar) row goes. */
    method DeleteEventMapping(uid: string, calendarId: string)
      modifies this`mappings
      ensures mappings == old(mappings) - {(uid, calendarId)}
    {
      mappings := mappings - {(uid, calendarId)};
    }

    /** `delete_event_mapping_by_google_id`: exactly the rows of that
      calendar pointing at that remote id go. */
    method DeleteEventMappingByGoogleId(googleEventId: RemoteId, calendarId: string)
      modifies this`mappings
      ensures forall k :: k in mappings <==>
                k in old(mappings) && !(k.1 == calendarId && old(mappings)[k].googleEventId == googleEventId)
      ensures forall k :: k in mappings ==> mappings[k] == old(mappings)[k]
    {
      mappings := map k | k in mappings && !(k.1 == calendarId && mappings[k].googleEventId == googleEventId)
                        :: mappings[k];
    }

    /** `start_sync_session`: a new running row under a never used id. */
    method StartSyncSession(now: int) returns (id: nat)
      requires Valid()
      modifies this`history, this`nextSessionId
      ensures Valid()
      ensures id !in old(history) && id == old(nextSessionId) && nextSessionId == id + 1
      ensures history == old(history)[id := NewSessionRow(now)]
    {
      id := nextSessionId;
      history := history[id := NewSessionRow(now)];
      nextSessionId := nextSessionId + 1;
    }

    /** The loop of `update_sync_session` over its keyword arguments: the
      whitelisted assignments, and whether a final status asks for the
      completion stamp. */
    method CollectSessionArgs(kwargs: seq<(string, SqlValue)>) returns (clauses: map<string, SqlValue>, stamp: bool)
      ensures clauses == SetClauses(kwargs) && clauses.Keys <= SessionColumns
      ensures stamp == StampsCompletion(kwargs)
    {
      clauses := map[];
      stamp := false;
      var i := 0;
      while i < |kwargs|
        invariant 0 <= i <= |kwargs|
        invariant clauses == SetClauses(kwargs[..i])
        invariant stamp <==> StampsCompletion(kwargs[..i])
      {
        var (key, value) := kwargs[i];
        var next := i + 1;
        SessionArgsSnoc(kwargs, i, next);
        if key in SessionColumns {
          clauses := clauses[key := value];
        }
        if key == "status" && value in {Text("completed"), Text("failed")} {
          stamp := true;
        }
        i := next;
      }
      assert kwargs[..|kwargs|] == kwargs;
    }

    /** `update_sync_session`: the whitelisted assignments are collected in
      a loop, the completion stamp added for a final status, and the row
      updated if there is anything to set. */
    method UpdateSyncSession(id: nat, kwargs: seq<(string, SqlValue)>, now: int)
      modifies this`history
      ensures history == if id in old(history) then old(history)[id := SessionUpdate(old(history)[id], kwargs, now)]
                         else old(history)
      ensures history.Keys == old(history).Keys
      ensures old(Valid()) ==> Valid()
    {
      if kwargs == [] {
        assert SetClauses(kwargs) == map[];
        assert id in history ==> history[id] + map[] == history[id];
        return;
      }
      var clauses, stamp := CollectSessionArgs(kwargs);
      if id !in history {
        return;
      }
      var row := history[id] + clauses;
      if stamp {
        row := row["sync_completed_at" := Int(now)];
      }
      if clauses != map[] || stamp {
        history := history[id := row];
      } else {
        assert history[id] + map[] == history[id];
      }
    }

    /** `cleanup_old_data`: drops the session rows started more than `days`
      days before `now`. */
    method CleanupOldData(days: int, now: int)
      modifies this`history
      ensures history == Pruned(old(history), now - days * SecondsPerDay)
    {
      var cutoff := now - days * SecondsPerDay;
      history := map k | k in history && !StartedBefore(history[k], cutoff) :: history[k];
    }

    /** `get_database_stats`: the three table sizes and the start time of the
      latest completed session. */
    method GetDatabaseStats() returns (stats: DatabaseStats)
      ensures stats.snapshotsCount == |snapshots| && stats.mappingsCount == |mappings| && stats.historyCount == |history|
      ensures stats.lastSuccessfulSync.None? <==> forall k, t :: k in history ==> !CompletedAt(history[k], t)
      ensures stats.lastSuccessfulSync.Some? ==>
                (exists k :: k in history && CompletedAt(history[k], stats.lastSuccessfulSync.value)) &&
                forall k, t :: k in history && CompletedAt(history[k], t) ==> t <= stats.lastSuccessfulSync.value
    {
      var ids := SetToSeq(history.Keys);
      var last: Option<int> := None;
      var i := 0;
      while i < |ids|
        invariant 0 <= i <= |ids|
        invariant LatestOver(history, ids[..i], last)
      {
        var row := history[ids[i]];
        ghost var prev := last;
        if "status" in row && row["status"] == Text("completed") && "sync_started_at" in row && row["sync_started_at"].Int? {
          var t := row["sync_started_at"].n;
          if last.None? || last.value < t {
            last := Some(t);
          }
        }
        var next := i + 1;
        LatestSnoc(history, ids[..i], ids[i], prev, last);
        PrefixSnoc(ids, i, next);
        i := next;
      }
      assert ids[..|ids|] == ids;
      LatestOverAll(history, ids, last);
      stats := DatabaseStats(|snapshots|, |mappings|, |history|, last);
    }

    /** `detect_changes`: one pass over the current events sorting them into
      new and updated, then the snapshot ids no current event produces. */
    method DetectChanges(current: seq<EventData>)
      returns (newEvents: seq<EventData>, updatedEvents: seq<EventData>, deletedIds: seq<string>)
      ensures newEvents == NewEvents(snapshots, current)
      ensures updatedEvents == UpdatedEvents(snapshots, current)
      ensures (set id | id in deletedIds) == RemovedIds(snapshots, current) && NoDuplicates(deletedIds)
    {
      var currentIds := set e | e in current :: GetUniqueEventId(e);
      newEvents, updatedEvents := Classify(snapshots, current);
      deletedIds := SetToSeq(snapshots.Keys - currentIds);
    }

    /** `get_orphaned_series_events`: the current recurring events grouped by
      series, then, per distinct persisted series, the persisted ids the group
      does not produce (all of them when the series has no group). */
    method GetOrphanedSeriesEvents(current: seq<EventData>) returns (orphans: seq<string>)
      ensures (set id | id in orphans) == OrphanIds(snapshots, current)
      ensures NoDuplicates(orphans)
    {
      var currentSeries := GroupBySeries(current);
      var seriesSet := set id | id in snapshots && snapshots[id].seriesUid.Some? :: snapshots[id].seriesUid.value;
      var seriesList := SetToSeq(seriesSet);
      orphans := [];
      var j := 0;
      while j < |seriesList|
        invariant 0 <= j <= |seriesList|
        invariant NoDuplicates(orphans)
        invariant (set id | id in orphans) == OrphansIn(snapshots, current, set k | 0 <= k < j :: seriesList[k])
      {
        var s := seriesList[j];
        var found := OrphansOfSeries(snapshots, current, s, currentSeries);
        var done := set k | 0 <= k < j :: seriesList[k];
        forall id | id in orphans
          ensures id !in found
        {
          assert id in OrphansIn(snapshots, current, done);
          var k :| 0 <= k < j && seriesList[k] == snapshots[id].seriesUid.value;
          assert id !in SeriesOrphans(snapshots, current, s);
        }
        NoDuplicatesAppend(orphans, found);
        orphans := orphans + found;
        assert (set k | 0 <= k < j + 1 :: seriesList[k]) == done + {s};
        assert OrphansIn(snapshots, current, done + {s})
            == OrphansIn(snapshots, current, done) + SeriesOrphans(snapshots, current, s);
        j := j + 1;
      }
      assert (set k | 0 <= k < |seriesList| :: seriesList[k]) == seriesSet;
    }
  }

  /** The orphans of one persisted series. */
  function SeriesOrphans(snaps: Snapshots, current: seq<EventData>, series: string): set<string> {
    set id | id in snaps && IsOrphan(snaps, current, id) && snaps[id].seriesUid.value == series
  }

  /** The orphans among the series listed in `done`. */
  function OrphansIn(snaps: Snapshots, current: seq<EventData>, done: set<string>): set<string> {
    set id | id in snaps && IsOrphan(snaps, current, id) && snaps[id].seriesUid.value in done
  }

  /** One round of the series loop of `get_orphaned_series_events`. */
  method OrphansOfSeries(snaps: Snapshots, current: seq<EventData>, series: string, groups: map<string, seq<string>>)
    returns (found: seq<string>)
    requires groups.Keys == LiveSeries(current)
    requires forall s :: s in groups ==> (set u | u in groups[s]) == CurrentSeriesIds(current, s)
    ensures (set id | id in found) == SeriesOrphans(snaps, current, series)
    ensures NoDuplicates(found)
  {
    var existing := set id | id in snaps && snaps[id].seriesUid == Some(series);
    if series in groups {
      var currentUids := set u | u in groups[series];
      found := SetToSeq(existing - currentUids);
    } else {
      assert CurrentSeriesIds(current, series) == {};
      found := SetToSeq(existing);
    }
  }

  /** One more event extends each classification by at most that event. */
  lemma ClassifyStep(snaps: Snapshots, prefix: seq<EventData>, e: EventData)
    ensures NewEvents(snaps, prefix + [e]) == NewEvents(snaps, prefix) + (if IsNew(snaps, e) then [e] else [])
    ensures UpdatedEvents(snaps, prefix + [e]) == UpdatedEvents(snaps, prefix) + (if IsChanged(snaps, e) then [e] else [])
  {
    FilterSnoc(prefix, e, IsNewIn(snaps));
    FilterSnoc(prefix, e, IsChangedIn(snaps));
  }

  /** The loop of `detect_changes` over the current events. */
  method Classify(snaps: Snapshots, current: seq<EventData>)
    returns (newEvents: seq<EventData>, updatedEvents: seq<EventData>)
    ensures newEvents == NewEvents(snaps, current)
    ensures updatedEvents == UpdatedEvents(snaps, current)
  {
    newEvents, updatedEvents := [], [];
    var i := 0;
    while i < |current|
      invariant 0 <= i <= |current|
      invariant newEvents == NewEvents(snaps, current[..i])
      invariant updatedEvents == UpdatedEvents(snaps, current[..i])
    {
      var e := current[i];
      var next := i + 1;
      PrefixSnoc(current, i, next);
      ClassifyStep(snaps, current[..i], e);
      var id := GetUniqueEventId(e);
      if id !in snaps {
        newEvents := newEvents + [e];
      } else {
        var snapshot := snaps[id];
        if e.sequence > snapshot.sequence || e.fingerprint != snapshot.fingerprint {
          updatedEvents := updatedEvents + [e];
        }
      }
      i := next;
    }
    assert current[..|current|] == current;
  }

  /** The grouping built so far matches the prefix of events seen: one group
      per live series, holding exactly that series' unique ids. */
  ghost predicate GroupsMatch(groups: map<string, seq<string>>, seen: seq<EventData>) {
    groups.Keys == LiveSeries(seen)
    && forall s :: s in groups ==> (set u | u in groups[s]) == CurrentSeriesIds(seen, s)
  }

  /** The grouping after one more event: a recurring event's unique id is
      appended to its series' group, which is opened if needed. */
  function GroupAdd(groups: map<string, seq<string>>, e: EventData): map<string, seq<string>> {
    if !IsRecurring(e) then groups
    else
      var s := GetSeriesId(e);
      groups[s := (if s in groups then groups[s] else []) + [GetUniqueEventId(e)]]
  }

  lemma GroupAddKeepsMatch(groups: map<string, seq<string>>, seen: seq<EventData>, e: EventData)
    requires GroupsMatch(groups, seen)
    ensures GroupsMatch(GroupAdd(groups, e), seen + [e])
  {
    LiveSeriesSnoc(seen, e);
    var g := GroupAdd(groups, e);
    if !IsRecurring(e) {
      forall t | t in g
        ensures (set u | u in g[t]) == CurrentSeriesIds(seen + [e], t)
      {
        CurrentSeriesIdsSnoc(seen, e, t);
      }
    } else {
      var s := GetSeriesId(e);
      var id := GetUniqueEventId(e);
      var old_ := if s in groups then groups[s] else [];
      if s !in groups {
        assert CurrentSeriesIds(seen, s) == {} by {
          forall x | x in seen && IsRecurring(x)
            ensures GetSeriesId(x) != s
          {
            assert GetSeriesId(x) in LiveSeries(seen);
          }
        }
      }
      assert g.Keys == LiveSeries(seen) + {s};
      forall t | t in g
        ensures (set u | u in g[t]) == CurrentSeriesIds(seen + [e], t)
      {
        CurrentSeriesIdsSnoc(seen, e, t);
        if t == s {
          SeqSetSnoc(old_, id);
          assert g[t] == old_ + [id];
        } else {
          assert t in groups && g[t] == groups[t];
        }
      }
    }
  }

  /** The `current_series` dictionary: each series id of a current recurring
      event, with the unique ids its events produce, in order. */
  method GroupBySeries(current: seq<EventData>) returns (groups: map<string, seq<string>>)
    ensures groups.Keys == LiveSeries(current)
    ensures forall s :: s in groups ==> (set u | u in groups[s]) == CurrentSeriesIds(current, s)
  {
    groups := map[];
    var i := 0;
    while i < |current|
      invariant 0 <= i <= |current|
      invariant GroupsMatch(groups, current[..i])
    {
      var e := current[i];
      var next := i + 1;
      PrefixSnoc(current, i, next);
      GroupAddKeepsMatch(groups, current[..i], e);
      ghost var g0 := groups;
      if IsRecurring(e) {
        var s := GetSeriesId(e);
        if s !in groups {
          groups := groups[s := []];
        }
        groups := groups[s := groups[s] + [GetUniqueEventId(e)]];
      }
      assert groups == GroupAdd(g0, e);
      i := next;
    }
    assert current[..|current|] == current;
  }
}
