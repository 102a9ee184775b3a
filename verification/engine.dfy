/** The synchronisation engine (src/sync/engine.py): one run reads the feed,
    classifies the events against the snapshots, creates, updates and deletes
    on the target calendar, saves the snapshots and records the run in the
    session log. The calendar client and the store are the objects modelled
    in GoogleCalendar and Storage; the fetched document, the current time and
    the configuration are inputs. */
module Sync {
  import opened Common
  import opened Strings
  import opened Events
  import opened IcsParser
  import opened GoogleCalendar
  import opened Storage

  /** The counters `sync_once` reports and records. */
  datatype Stats = Stats(processed: nat, created: nat, updated: nat, deleted: nat, errors: nat)

  /** The keyword arguments of the closing `update_sync_session` call of a
      successful run: the status, then the counters. */
  function CompletedKwargs(s: Stats): seq<(string, SqlValue)> {
    [("status", Text("completed")), ("events_processed", Int(s.processed)), ("events_created", Int(s.created)),
     ("events_updated", Int(s.updated)), ("events_deleted", Int(s.deleted)), ("errors_count", Int(s.errors))]
  }

  /** The keyword arguments of the closing call of a failed run: every
      failure of the model that the run does not catch happens before any
      counter moves, so only `errors_count` is set. (The snapshot save, whose
      failure is not modelled, comes after the phases; a failure there would
      carry the counters reached so far.) */
  function FailedKwargs(message: string): seq<(string, SqlValue)> {
    [("status", Text("failed")), ("error_message", Text(message)), ("events_processed", Int(0)),
     ("events_created", Int(0)), ("events_updated", Int(0)), ("events_deleted", Int(0)), ("errors_count", Int(1))]
  }

  /** The keyword arguments of the closing call, by the run's outcome. */
  function ClosingKwargs(r: Result<Stats, string>): seq<(string, SqlValue)> {
    match r
    case Ok(s) => CompletedKwargs(s)
    case Err(message) => FailedKwargs(message)
  }

  /** The session row of a successful run records the completed status,
      its end and each counter. */
  lemma CompletedSessionRow(started: int, s: Stats, now: int)
    ensures var row := SessionUpdate(NewSessionRow(started), CompletedKwargs(s), now);
            row["status"] == Text("completed") && row["sync_completed_at"] == Int(now) &&
            row["events_processed"] == Int(s.processed) && row["events_created"] == Int(s.created) &&
            row["events_updated"] == Int(s.updated) && row["events_deleted"] == Int(s.deleted) &&
            row["errors_count"] == Int(s.errors)
  {
    var kwargs := CompletedKwargs(s);
    assert StampsCompletion(kwargs) by {
      assert kwargs[0].0 == "status" && kwargs[0].1 == Text("completed");
    }
    SessionUpdateEffect(NewSessionRow(started), kwargs, now);
    assert kwargs[0].0 in SessionColumns && kwargs[1].0 in SessionColumns && kwargs[2].0 in SessionColumns;
    assert kwargs[3].0 in SessionColumns && kwargs[4].0 in SessionColumns && kwargs[5].0 in SessionColumns;
  }

  /** A successful run leaves its start time and an empty error message in
      the row. */
  lemma CompletedSessionKeeps(started: int, s: Stats, now: int)
    ensures var row := SessionUpdate(NewSessionRow(started), CompletedKwargs(s), now);
            row["sync_started_at"] == Int(started) && row["error_message"] == Null
  {
    var kwargs := CompletedKwargs(s);
    forall c | c in {"error_message", "sync_started_at"}
      ensures c !in SetClauses(kwargs)
    {
      assert forall i :: 0 <= i < |kwargs| ==> kwargs[i].0 != c;
      SetClausesOnlyNamed(kwargs, c);
    }
  }

  /** The session row of a failed run records the failure, its message, one
      error and its end. */
  lemma FailedSessionRow(started: int, message: string, now: int)
    ensures var row := SessionUpdate(NewSessionRow(started), FailedKwargs(message), now);
            row["status"] == Text("failed") && row["error_message"] == Text(message) &&
            row["errors_count"] == Int(1) && row["sync_completed_at"] == Int(now) && row["events_created"] == Int(0)
  {
    var kwargs := FailedKwargs(message);
    assert StampsCompletion(kwargs) by {
      assert kwargs[0].0 == "status" && kwargs[0].1 == Text("failed");
    }
    SessionUpdateEffect(NewSessionRow(started), kwargs, now);
    assert kwargs[0].0 in SessionColumns && kwargs[1].0 in SessionColumns && kwargs[3].0 in SessionColumns;
    assert kwargs[6].0 in SessionColumns;
  }

  /** A failed run leaves its start time in the row. */
  lemma FailedSessionKeeps(started: int, message: string, now: int)
    ensures SessionUpdate(NewSessionRow(started), FailedKwargs(message), now)["sync_started_at"] == Int(started)
  {
    var kwargs := FailedKwargs(message);
    assert forall i :: 0 <= i < |kwargs| ==> kwargs[i].0 != "sync_started_at";
    SetClausesOnlyNamed(kwargs, "sync_started_at");
  }

  /** A column no keyword argument names gets no assignment. */
  lemma {:induction false} SetClausesOnlyNamed(kwargs: seq<(string, SqlValue)>, c: string)
    requires forall i :: 0 <= i < |kwargs| ==> kwargs[i].0 != c
    ensures c !in SetClauses(kwargs)
  {
    if kwargs != [] {
      SetClausesOnlyNamed(kwargs[..|kwargs| - 1], c);
    }
  }

  /** `_detect_modified_instance_cleanups`: nothing to clean up, whatever the
      modified instances. */
  function DetectModifiedInstanceCleanups(modifiedInstances: seq<EventData>): (r: seq<string>)
    ensures r == []
  {
    []
  }

  /** Lines 67-68 as written: the single list `parse_and_expand` returns is
      unpacked into two names and `len` is taken of the first. Unpacking a
      list needs exactly two elements, and then the first name holds one
      `EventData`, which has no length. */
  function ProcessedCountAsWritten(filtered: seq<EventData>): (r: Result<nat, string>)
    ensures r.Err?
    ensures |filtered| == 2 <==> r.error == "object of type 'EventData' has no len()"
  {
    if |filtered| < 2 then Err("not enough values to unpack")
    else if |filtered| > 2 then Err("too many values to unpack")
    else Err("object of type 'EventData' has no len()")
  }

  /** As written, a run that reaches the feed step always raises there: it
      never creates, updates or deletes anything, and its session row is
      closed as failed with one error and no event created. */
  lemma AsWrittenRunAlwaysFails(started: int, filtered: seq<EventData>, now: int)
    ensures ProcessedCountAsWritten(filtered).Err?
    ensures var row := SessionUpdate(NewSessionRow(started),
                                     ClosingKwargs(Err(ProcessedCountAsWritten(filtered).error)), now);
            row["status"] == Text("failed") && row["errors_count"] == Int(1) && row["events_created"] == Int(0)
  {
    FailedSessionRow(started, ProcessedCountAsWritten(filtered).error, now);
  }

  /** The target calendar accepts a create or update of the event: its body
      can be built and the service does not reject it. */
  predicate Accepted(rejected: set<string>, e: EventData) {
    Buildable(e) && e.uid !in rejected
  }

  function AcceptedBy(rejected: set<string>): EventData -> bool {
    (e: EventData) => Accepted(rejected, e)
  }

  function AcceptedCount(rejected: set<string>, events: seq<EventData>): nat {
    |Filter(events, AcceptedBy(rejected))|
  }

  /** Values numbered from `next` on: the i-th under `next + i`, as the
      service hands out ids to successive inserts. */
  function Numbered<B>(values: seq<B>, next: nat): (r: map<RemoteId, B>)
    ensures forall id :: id in r <==> next <= id < next + |values|
  {
    if values == [] then map[]
    else Numbered(values[..|values| - 1], next)[next + |values| - 1 := values[|values| - 1]]
  }

  /** The i-th value sits under id `next + i`. */
  lemma {:induction false} NumberedAt<B>(values: seq<B>, next: nat, i: nat, id: nat)
    requires i < |values| && id == next + i
    ensures id in Numbered(values, next) && Numbered(values, next)[id] == values[i]
  {
    var init := values[..|values| - 1];
    if i < |init| {
      NumberedAt(init, next, i, id);
      assert init[i] == values[i];
    }
  }

  lemma NumberedSnoc<B>(values: seq<B>, v: B, next: nat)
    ensures Numbered(values + [v], next) == Numbered(values, next)[next + |values| := v]
  {
    assert (values + [v])[..|values|] == values;
  }

  /** Storing one more value under the next id extends the numbered part. */
  lemma NumberedExtend<B>(stored: map<RemoteId, B>, values: seq<B>, v: B, next: nat, id: nat)
    requires id == next + |values|
    ensures (stored + Numbered(values, next))[id := v] == stored + Numbered(values + [v], next)
  {
    NumberedSnoc(values, v, next);
  }

  /** The request bodies of the accepted events, in order. */
  function BodiesOf(accepted: seq<EventData>): (r: seq<GoogleEvent>)
    requires forall e :: e in accepted ==> Buildable(e)
    ensures |r| == |accepted|
  {
    seq(|accepted|, i requires 0 <= i < |accepted| => (assert accepted[i] in accepted; GoogleEventOf(accepted[i]).value))
  }

  /** The mapping table after creating `events` in turn: each accepted
      event's key names the id its remote event got. */
  function CreatedMappings(mappings: map<MappingKey, Mapping>, events: seq<EventData>, rejected: set<string>,
                           calendarId: string, next: nat, now: int): map<MappingKey, Mapping>
  {
    if events == [] then mappings
    else
      var init, last := events[..|events| - 1], events[|events| - 1];
      var before := CreatedMappings(mappings, init, rejected, calendarId, next, now);
      if Accepted(rejected, last) then
        before[(GetUniqueEventId(last), calendarId) := Mapping(next + AcceptedCount(rejected, init), now, "synced", None)]
      else before
  }

  /** The mapping keys of the accepted events. */
  function AcceptedKeys(events: seq<EventData>, rejected: set<string>, calendarId: string): set<MappingKey> {
    set e | e in events && Accepted(rejected, e) :: (GetUniqueEventId(e), calendarId)
  }

  /** Creating adds a mapping for exactly the accepted events' keys and leaves
      every other mapping as it was. */
  lemma {:induction false} CreatedMappingsKeys(mappings: map<MappingKey, Mapping>, events: seq<EventData>,
                                               rejected: set<string>, calendarId: string, next: nat, now: int)
    ensures var r := CreatedMappings(mappings, events, rejected, calendarId, next, now);
            r.Keys == mappings.Keys + AcceptedKeys(events, rejected, calendarId) &&
            forall k :: k in mappings && k !in AcceptedKeys(events, rejected, calendarId) ==> r[k] == mappings[k]
  {
    if events != [] {
      var init, last := events[..|events| - 1], events[|events| - 1];
      CreatedMappingsKeys(mappings, init, rejected, calendarId, next, now);
      assert events == init + [last];
      assert AcceptedKeys(events, rejected, calendarId)
          == AcceptedKeys(init, rejected, calendarId)
           + (if Accepted(rejected, last) then {(GetUniqueEventId(last), calendarId)} else {});
    }
  }

  /** With distinct unique ids, the i-th accepted event's key ends up
      mapped, stamped `now` and marked synced, to the id the i-th create
      got. */
  lemma {:induction false} CreatedMappingAt(mappings: map<MappingKey, Mapping>, events: seq<EventData>,
                                            rejected: set<string>, calendarId: string, next: nat, now: int, i: nat)
    requires DistinctIds(events) && i < AcceptedCount(rejected, events)
    ensures var e := Filter(events, AcceptedBy(rejected))[i];
            var m := CreatedMappings(mappings, events, rejected, calendarId, next, now);
            (GetUniqueEventId(e), calendarId) in m && m[(GetUniqueEventId(e), calendarId)] == Mapping(next + i, now, "synced", None)
  {
    var init, last := events[..|events| - 1], events[|events| - 1];
    assert events == init + [last];
    FilterSnoc(init, last, AcceptedBy(rejected));
    var acc := Filter(init, AcceptedBy(rejected));
    var lastKey := (GetUniqueEventId(last), calendarId);
    CreatedMappingsSnoc(mappings, init, last, rejected, calendarId, next, next + |acc|, now);
    if i < |acc| {
      DistinctIdsInit(events);
      CreatedMappingAt(mappings, init, rejected, calendarId, next, now, i);
      var e := acc[i];
      assert Filter(events, AcceptedBy(rejected))[i] == e && e in init;
      assert (GetUniqueEventId(e), calendarId) != lastKey;
    } else {
      assert Accepted(rejected, last) && i == |acc|;
      assert Filter(events, AcceptedBy(rejected))[i] == last;
    }
  }

  /** With distinct unique ids, every accepted event ends up in sync: its
      mapping, stamped `now` and marked synced, names a fresh remote event
      holding its body. */
  lemma CreatedInSync(stored: map<RemoteId, GoogleEvent>, mappings: map<MappingKey, Mapping>, events: seq<EventData>,
                      rejected: set<string>, calendarId: string, next: nat, now: int)
    requires DistinctIds(events)
    ensures var m := CreatedMappings(mappings, events, rejected, calendarId, next, now);
            var r := stored + Numbered(BodiesOf(Filter(events, AcceptedBy(rejected))), next);
            forall e :: e in events && Accepted(rejected, e) ==>
              var key := (GetUniqueEventId(e), calendarId);
              key in m && m[key] == Mapping(m[key].googleEventId, now, "synced", None) &&
              next <= m[key].googleEventId && m[key].googleEventId in r && Some(r[m[key].googleEventId]) == GoogleEventOf(e)
  {
    var acc := Filter(events, AcceptedBy(rejected));
    forall e | e in events && Accepted(rejected, e)
      ensures var m := CreatedMappings(mappings, events, rejected, calendarId, next, now);
              var r := stored + Numbered(BodiesOf(acc), next);
              var key := (GetUniqueEventId(e), calendarId);
              key in m && m[key] == Mapping(m[key].googleEventId, now, "synced", None) &&
              next <= m[key].googleEventId && m[key].googleEventId in r && Some(r[m[key].googleEventId]) == GoogleEventOf(e)
    {
      FilterMembership(events, AcceptedBy(rejected), e);
      var k :| 0 <= k < |acc| && acc[k] == e;
      CreatedMappingAt(mappings, events, rejected, calendarId, next, now, k);
      var id := next + k;
      NumberedAt(BodiesOf(acc), next, k, id);
      var m := CreatedMappings(mappings, events, rejected, calendarId, next, now);
      var key := (GetUniqueEventId(e), calendarId);
      assert m[key].googleEventId == id;
      assert BodiesOf(acc)[k] == GoogleEventOf(e).value;
      assert Numbered(BodiesOf(acc), next)[id] == GoogleEventOf(e).value;
    }
  }

  /** Dropping the last event keeps the ids distinct, and no earlier event
      shares the last one's id. */
  lemma DistinctIdsInit(events: seq<EventData>)
    requires DistinctIds(events) && events != []
    ensures DistinctIds(events[..|events| - 1])
    ensures forall x :: x in events[..|events| - 1] ==> GetUniqueEventId(x) != GetUniqueEventId(events[|events| - 1])
  {
    var init := events[..|events| - 1];
    forall x | x in init
      ensures GetUniqueEventId(x) != GetUniqueEventId(events[|events| - 1])
    {
      var k :| 0 <= k < |init| && init[k] == x;
      assert events[k] == x;
    }
  }

  /** The requests `create_event` makes for each event in turn. */
  function InsertCalls(events: seq<EventData>): seq<Call> {
    if events == [] then []
    else
      var last := events[|events| - 1];
      InsertCalls(events[..|events| - 1]) + (if GoogleEventOf(last).Some? then [Insert(last.uid)] else [])
  }

  /** Creating requests nothing but inserts. */
  lemma {:induction false} InsertCallsAreInserts(events: seq<EventData>)
    ensures forall c :: c in InsertCalls(events) ==> c.Insert?
  {
    if events != [] {
      InsertCallsAreInserts(events[..|events| - 1]);
    }
  }

  /** One more event adds its insert request, when its body can be built. */
  lemma InsertCallsSnoc(prefix: seq<EventData>, e: EventData)
    ensures InsertCalls(prefix + [e]) == InsertCalls(prefix) + (if GoogleEventOf(e).Some? then [Insert(e.uid)] else [])
  {
    assert (prefix + [e])[..|prefix|] == prefix;
  }

  /** One more event adds its mapping, under the id after those of the
      accepted events before it, when it is accepted. */
  lemma CreatedMappingsSnoc(mappings: map<MappingKey, Mapping>, prefix: seq<EventData>, e: EventData,
                            rejected: set<string>, calendarId: string, next: nat, id: nat, now: int)
    requires id == next + AcceptedCount(rejected, prefix)
    ensures CreatedMappings(mappings, prefix + [e], rejected, calendarId, next, now)
            == if Accepted(rejected, e)
               then CreatedMappings(mappings, prefix, rejected, calendarId, next, now)
                      [(GetUniqueEventId(e), calendarId) := Mapping(id, now, "synced", None)]
               else CreatedMappings(mappings, prefix, rejected, calendarId, next, now)
  {
    var events := prefix + [e];
    assert events[..|events| - 1] == prefix && events[|events| - 1] == e;
    assert AcceptedCount(rejected, events[..|events| - 1]) == AcceptedCount(rejected, prefix);
  }

  /** One more buildable event adds its body. */
  lemma BodiesAppend(acc: seq<EventData>, e: EventData)
    requires forall x :: x in acc ==> Buildable(x)
    requires Buildable(e)
    ensures BodiesOf(acc + [e]) == BodiesOf(acc) + [GoogleEventOf(e).value]
  {
    var longer := BodiesOf(acc + [e]);
    forall i | 0 <= i < |longer|
      ensures longer[i] == (BodiesOf(acc) + [GoogleEventOf(e).value])[i]
    {
      if i < |acc| {
        assert (acc + [e])[i] == acc[i];
      }
    }
  }

  /** One more accepted event adds its body. */
  lemma BodiesSnoc(prefix: seq<EventData>, e: EventData, rejected: set<string>)
    requires Accepted(rejected, e)
    ensures BodiesOf(Filter(prefix + [e], AcceptedBy(rejected)))
            == BodiesOf(Filter(prefix, AcceptedBy(rejected))) + [GoogleEventOf(e).value]
  {
    FilterSnoc(prefix, e, AcceptedBy(rejected));
    BodiesAppend(Filter(prefix, AcceptedBy(rejected)), e);
  }

  /** The state after creating the first `i` events in turn, starting from
      remote events `stored`, request log `log0`, next id `next0` and
      mappings `mappings0`: `count` successes, their ids taken in order, an
      insert requested per buildable event. */
  ghost predicate CreatedState(events: seq<EventData>, i: nat, rejected: set<string>, calendarId: string, now: int,
                               stored: map<RemoteId, GoogleEvent>, log0: seq<Call>, next0: nat,
                               mappings0: map<MappingKey, Mapping>, count: nat, nextId: nat, log: seq<Call>,
                               remoteEvents: map<RemoteId, GoogleEvent>, mappings: map<MappingKey, Mapping>)
    requires i <= |events|
  {
    count == AcceptedCount(rejected, events[..i]) &&
    nextId == next0 + count &&
    log == log0 + InsertCalls(events[..i]) &&
    remoteEvents == stored + Numbered(BodiesOf(Filter(events[..i], AcceptedBy(rejected))), next0) &&
    mappings == CreatedMappings(mappings0, events[..i], rejected, calendarId, next0, now)
  }

  /** Before the first round nothing is created. */
  lemma CreatedStateInit(events: seq<EventData>, rejected: set<string>, calendarId: string, now: int,
                         stored: map<RemoteId, GoogleEvent>, log0: seq<Call>, next0: nat,
                         mappings0: map<MappingKey, Mapping>)
    ensures CreatedState(events, 0, rejected, calendarId, now, stored, log0, next0, mappings0,
                         0, next0, log0, stored, mappings0)
  {
    assert events[..0] == [];
    assert stored + Numbered([], next0) == stored;
  }

  /** One round of `_create_events` keeps `CreatedState`: an accepted event
      takes the next id and its mapping, any other event changes nothing but
      the request log. */
  lemma CreatedStateStep(events: seq<EventData>, i: nat, rejected: set<string>, calendarId: string, now: int,
                         stored: map<RemoteId, GoogleEvent>, log0: seq<Call>, next0: nat,
                         mappings0: map<MappingKey, Mapping>, count: nat, nextId: nat, log: seq<Call>,
                         remoteEvents: map<RemoteId, GoogleEvent>, mappings: map<MappingKey, Mapping>,
                         ok: bool, count': nat, nextId': nat, log': seq<Call>,
                         remoteEvents': map<RemoteId, GoogleEvent>, mappings': map<MappingKey, Mapping>)
    requires i < |events|
    requires CreatedState(events, i, rejected, calendarId, now, stored, log0, next0, mappings0,
                          count, nextId, log, remoteEvents, mappings)
    requires ok <==> Accepted(rejected, events[i])
    requires count' == count + (if ok then 1 else 0) && nextId' == nextId + (if ok then 1 else 0)
    requires log' == log + (if GoogleEventOf(events[i]).Some? then [Insert(events[i].uid)] else [])
    requires ok ==> remoteEvents' == remoteEvents[nextId := GoogleEventOf(events[i]).value]
    requires !ok ==> remoteEvents' == remoteEvents
    requires ok ==> mappings' == mappings[(GetUniqueEventId(events[i]), calendarId) := Mapping(nextId, now, "synced", None)]
    requires !ok ==> mappings' == mappings
    ensures CreatedState(events, i + 1, rejected, calendarId, now, stored, log0, next0, mappings0,
                         count', nextId', log', remoteEvents', mappings')
  {
    var e := events[i];
    PrefixSnoc(events, i, i + 1);
    InsertCallsSnoc(events[..i], e);
    CreatedMappingsSnoc(mappings0, events[..i], e, rejected, calendarId, next0, nextId, now);
    FilterSnoc(events[..i], e, AcceptedBy(rejected));
    if ok {
      BodiesSnoc(events[..i], e, rejected);
      NumberedExtend(stored, BodiesOf(Filter(events[..i], AcceptedBy(rejected))), GoogleEventOf(e).value, next0, nextId);
    }
  }

  /** The request `update_event` makes. */
  function UpdateCall(id: RemoteId, e: EventData): seq<Call> {
    if GoogleEventOf(e).Some? then [Update(id, e.uid)] else []
  }

  /** The delete requests `_delete_events` makes for the list: one for each
      uid whose mapping still exists when its turn comes, naming the mapped
      remote id; a uid without one, or listed again after its deletion,
      makes none. */
  function DeleteCalls(ids: seq<string>, mappings: map<MappingKey, Mapping>, calendarId: string,
                       refused: set<RemoteId>): seq<Call>
  {
    if ids == [] then []
    else
      var init, u := ids[..|ids| - 1], ids[|ids| - 1];
      var live := mappings - KeysOn(DeletedUids(init, mappings, calendarId, refused), calendarId);
      DeleteCalls(init, mappings, calendarId, refused)
      + (if (u, calendarId) in live then [Delete(mappings[(u, calendarId)].googleEventId)] else [])
  }

  lemma DeleteCallsSnoc(prefix: seq<string>, u: string, mappings: map<MappingKey, Mapping>, calendarId: string,
                        refused: set<RemoteId>)
    ensures var live := mappings - KeysOn(DeletedUids(prefix, mappings, calendarId, refused), calendarId);
            DeleteCalls(prefix + [u], mappings, calendarId, refused)
            == DeleteCalls(prefix, mappings, calendarId, refused)
               + (if (u, calendarId) in live then [Delete(mappings[(u, calendarId)].googleEventId)] else [])
  {
    assert (prefix + [u])[..|prefix|] == prefix;
  }

  /** The delete phase requests nothing but deletes, at most one per listed
      uid, each of a remote id some listed uid is mapped to. */
  lemma {:induction false} DeleteCallsShape(ids: seq<string>, mappings: map<MappingKey, Mapping>, calendarId: string,
                                            refused: set<RemoteId>)
    ensures var calls := DeleteCalls(ids, mappings, calendarId, refused);
            |calls| <= |ids| &&
            forall c :: c in calls ==> c.Delete? && exists u :: u in ids && (u, calendarId) in mappings &&
                                                             mappings[(u, calendarId)].googleEventId == c.id
  {
    if ids != [] {
      var init := ids[..|ids| - 1];
      DeleteCallsShape(init, mappings, calendarId, refused);
      assert forall u :: u in init ==> u in ids;
    }
  }

  /** One round of the delete loop, on the values before and after it: the
      state described by the uids deleted so far moves on to the state
      described by one more listed uid. */
  lemma DeleteStep(mappings: map<MappingKey, Mapping>, events: map<RemoteId, GoogleEvent>, log: seq<Call>,
                   prefix: seq<string>, u: string, calendarId: string, refused: set<RemoteId>,
                   m0: map<MappingKey, Mapping>, e0: map<RemoteId, GoogleEvent>, log0: seq<Call>,
                   m1: map<MappingKey, Mapping>, e1: map<RemoteId, GoogleEvent>, log1: seq<Call>, ok: bool)
    requires var deleted := DeletedUids(prefix, mappings, calendarId, refused);
             m0 == mappings - KeysOn(deleted, calendarId) && e0 == events - MappedIds(deleted, mappings, calendarId) &&
             log0 == log + DeleteCalls(prefix, mappings, calendarId, refused)
    requires ok <==> (u, calendarId) in m0 && m0[(u, calendarId)].googleEventId !in refused
    requires log1 == log0 + if (u, calendarId) in m0 then [Delete(m0[(u, calendarId)].googleEventId)] else []
    requires ok ==> m1 == m0 - {(u, calendarId)} && e1 == e0 - {m0[(u, calendarId)].googleEventId}
    requires !ok ==> m1 == m0 && e1 == e0
    ensures var deleted := DeletedUids(prefix, mappings, calendarId, refused);
            var after := DeletedUids(prefix + [u], mappings, calendarId, refused);
            |after| == |deleted| + (if ok then 1 else 0) &&
            m1 == mappings - KeysOn(after, calendarId) && e1 == events - MappedIds(after, mappings, calendarId) &&
            log1 == log + DeleteCalls(prefix + [u], mappings, calendarId, refused)
  {
    var deleted := DeletedUids(prefix, mappings, calendarId, refused);
    var after := DeletedUids(prefix + [u], mappings, calendarId, refused);
    DeletedUidsSnoc(prefix, u, mappings, calendarId, refused);
    DeleteCallsSnoc(prefix, u, mappings, calendarId, refused);
    var calls := DeleteCalls(prefix, mappings, calendarId, refused);
    var call := if (u, calendarId) in m0 then [Delete(m0[(u, calendarId)].googleEventId)] else [];
    assert (u, calendarId) in m0 ==> u !in deleted && m0[(u, calendarId)] == mappings[(u, calendarId)];
    assert log1 == (log + calls) + call == log + (calls + call);
    if ok {
      var id := mappings[(u, calendarId)].googleEventId;
      assert after == deleted + {u};
      DeletedSetsAdd(deleted, u, mappings, calendarId);
      MapRemoveOneMore(mappings, KeysOn(deleted, calendarId), (u, calendarId));
      MapRemoveOneMore(events, MappedIds(deleted, mappings, calendarId), id);
    } else {
      assert after == deleted;
    }
  }

  /** The calls made after the first `n` are no deletes. */
  ghost predicate NoDeletesAfter(log: seq<Call>, n: nat) {
    n <= |log| && forall k :: n <= k < |log| ==> !log[k].Delete?
  }

  /** The calls made after the first `n` are all deletes. */
  ghost predicate OnlyDeletesAfter(log: seq<Call>, n: nat) {
    n <= |log| && forall k :: n <= k < |log| ==> log[k].Delete?
  }

  /** Appending calls none of which is a delete. */
  lemma NoDeletesAppend(a: seq<Call>, tail: seq<Call>)
    requires forall c :: c in tail ==> !c.Delete?
    ensures a <= a + tail && NoDeletesAfter(a + tail, |a|)
  {
    forall k | |a| <= k < |a + tail|
      ensures !(a + tail)[k].Delete?
    {
      assert (a + tail)[k] == tail[k - |a|];
    }
  }
  /** The requests of an update round that found a hit: the search, then
      the update. */
  lemma SearchThenUpdate(log: seq<Call>, uid: string, id: RemoteId, e: EventData)
    ensures var l := log + ([Search(uid)] + UpdateCall(id, e));
            |l| == |log| + 1 + |UpdateCall(0, e)| && l[..|log| + 1] == log + [Search(uid)] &&
            log <= l && NoDeletesAfter(l, |log|)
  {
    var l := log + ([Search(uid)] + UpdateCall(id, e));
    assert l[..|log| + 1] == log + [Search(uid)];
    NoDeletesAppend(log, [Search(uid)] + UpdateCall(id, e));
  }

  /** The requests of an update round without a hit: the search, then the
      insert. */
  lemma SearchThenCreate(log: seq<Call>, uid: string, e: EventData)
    ensures var l := log + ([Search(uid)] + (if GoogleEventOf(e).Some? then [Insert(e.uid)] else []));
            l == log + [Search(uid)] + InsertCalls([e]) && log <= l && NoDeletesAfter(l, |log|)
  {
    assert InsertCalls([e]) == (if GoogleEventOf(e).Some? then [Insert(e.uid)] else []) by {
      assert [e][..0] == [];
    }
    NoDeletesAppend(log, [Search(uid)] + InsertCalls([e]));
  }


  /** Appending calls all of which are deletes. */
  lemma OnlyDeletesAppend(a: seq<Call>, tail: seq<Call>)
    requires forall c :: c in tail ==> c.Delete?
    ensures OnlyDeletesAfter(a + tail, |a|)
  {
    forall k | |a| <= k < |a + tail|
      ensures (a + tail)[k].Delete?
    {
      assert (a + tail)[k] == tail[k - |a|];
    }
  }

  /** Two stretches without deletes make one. */
  lemma NoDeletesExtend(a: seq<Call>, b: seq<Call>, c: seq<Call>)
    requires a <= b && NoDeletesAfter(b, |a|)
    requires b <= c && NoDeletesAfter(c, |b|)
    ensures a <= c && NoDeletesAfter(c, |a|)
  {
    forall k | |a| <= k < |c|
      ensures !c[k].Delete?
    {
      if k < |b| {
        assert c[k] == b[k];
      }
    }
  }

  /** Two stretches of deletes make one. */
  lemma OnlyDeletesExtend(a: seq<Call>, b: seq<Call>, c: seq<Call>)
    requires a <= b && OnlyDeletesAfter(b, |a|)
    requires b <= c && OnlyDeletesAfter(c, |b|)
    ensures a <= c && OnlyDeletesAfter(c, |a|)
  {
    forall k | |a| <= k < |c|
      ensures c[k].Delete?
    {
      if k < |b| {
        assert c[k] == b[k];
      }
    }
  }

  /** The uids in a delete list whose mapping exists and whose remote event
      the service lets go: the ones `_delete_events` counts. */
  function DeletedUids(ids: seq<string>, mappings: map<MappingKey, Mapping>, calendarId: string,
                       refused: set<RemoteId>): set<string>
  {
    set u | u in ids && (u, calendarId) in mappings && mappings[(u, calendarId)].googleEventId !in refused
  }

  /** The mapping keys of some uids on one calendar. */
  function KeysOn(uids: set<string>, calendarId: string): set<MappingKey> {
    set u | u in uids :: (u, calendarId)
  }

  /** The remote ids some uids are mapped to. */
  function MappedIds(uids: set<string>, mappings: map<MappingKey, Mapping>, calendarId: string): set<RemoteId> {
    set u | u in uids && (u, calendarId) in mappings :: mappings[(u, calendarId)].googleEventId
  }

  /** One more uid in the delete list adds it to the deleted ones exactly
      when its mapping exists and its deletion is let through. */
  lemma DeletedUidsSnoc(prefix: seq<string>, u: string, mappings: map<MappingKey, Mapping>, calendarId: string,
                        refused: set<RemoteId>)
    ensures DeletedUids(prefix + [u], mappings, calendarId, refused)
            == DeletedUids(prefix, mappings, calendarId, refused)
               + (if (u, calendarId) in mappings && mappings[(u, calendarId)].googleEventId !in refused then {u} else {})
  {
    var ids := prefix + [u];
    assert u in ids;
    forall x | x in prefix
      ensures x in ids
    {
    }
    forall x | x in ids
      ensures x in prefix || x == u
    {
    }
  }

  /** Adding a uid adds its key and its remote id. */
  lemma DeletedSetsAdd(uids: set<string>, u: string, mappings: map<MappingKey, Mapping>, calendarId: string)
    requires (u, calendarId) in mappings
    ensures KeysOn(uids + {u}, calendarId) == KeysOn(uids, calendarId) + {(u, calendarId)}
    ensures MappedIds(uids + {u}, mappings, calendarId)
            == MappedIds(uids, mappings, calendarId) + {mappings[(u, calendarId)].googleEventId}
  {
  }

  /** Only listed uids count as deleted, so the count is at most the number
      of distinct uids in the list. */
  lemma DeletedUidsBound(ids: seq<string>, mappings: map<MappingKey, Mapping>, calendarId: string,
                         refused: set<RemoteId>)
    ensures DeletedUids(ids, mappings, calendarId, refused) <= (set u | u in ids)
    ensures |DeletedUids(ids, mappings, calendarId, refused)| <= |set u | u in ids|
  {
    SubsetCardinality(DeletedUids(ids, mappings, calendarId, refused), set u | u in ids);
  }

  /** The engine, with its configuration fixed at construction. */
  class SyncEngine {
    const calendarId: string
    const config: ProcessingConfig
    /** `timedelta(days=lookbehind_days)` and `timedelta(days=lookahead_days)`
        of the sync configuration, in seconds. */
    const lookbehind: int
    const lookahead: int
    const enableDelete: bool
    const database: SyncDatabase
    const remote: RemoteCalendar
    var isRunning: bool
    var currentSessionId: Option<nat>

    ghost predicate Valid()
      reads database, remote
    {
      database.Valid() && remote.Valid()
    }

    constructor (calendarId: string, config: ProcessingConfig, lookbehindDays: int, lookaheadDays: int,
                 enableDelete: bool, database: SyncDatabase, remote: RemoteCalendar)
      ensures this.calendarId == calendarId && this.config == config && this.enableDelete == enableDelete
      ensures lookbehind == lookbehindDays * SecondsPerDay && lookahead == lookaheadDays * SecondsPerDay
      ensures this.database == database && this.remote == remote
      ensures !isRunning && currentSessionId.None?
    {
      this.calendarId := calendarId;
      this.config := config;
      lookbehind := lookbehindDays * SecondsPerDay;
      lookahead := lookaheadDays * SecondsPerDay;
      this.enableDelete := enableDelete;
      this.database := database;
      this.remote := remote;
      isRunning := false;
      currentSessionId := None;
    }

    /** The mapping key of an event on the target calendar. */
    function Key(e: EventData): MappingKey {
      (GetUniqueEventId(e), calendarId)
    }

    /** The event is in sync: its mapping, stamped `now` and marked synced,
        names a remote event that holds the event's current body. */
    ghost predicate MappedTo(e: EventData, now: int)
      reads database, remote
    {
      var key := Key(e);
      key in database.mappings &&
      var m := database.mappings[key];
      m.lastSyncAt == now && m.syncStatus == "synced" && m.errorMessage.None? &&
      m.googleEventId in remote.events && Some(remote.events[m.googleEventId]) == GoogleEventOf(e)
    }

    /** One round of `_create_events`: the remote event is created and, when
        that succeeds, the mapping to its new id is saved. */
    method CreateOne(e: EventData, now: int) returns (ok: bool)
      requires remote.Valid()
      modifies remote`events, remote`nextId, remote`log, database`mappings
      ensures remote.Valid()
      ensures ok <==> Accepted(remote.rejected, e)
      ensures remote.nextId == old(remote.nextId) + (if ok then 1 else 0)
      ensures remote.log == old(remote.log) + (if GoogleEventOf(e).Some? then [Insert(e.uid)] else [])
      ensures ok ==> remote.events == old(remote.events)[old(remote.nextId) := GoogleEventOf(e).value]
      ensures !ok ==> remote.events == old(remote.events)
      ensures ok ==> database.mappings == old(database.mappings)[Key(e) := Mapping(old(remote.nextId), now, "synced", None)]
      ensures !ok ==> database.mappings == old(database.mappings)
      ensures ok ==> MappedTo(e, now)
    {
      var id := remote.CreateEvent(e);
      ok := id.Some?;
      if ok {
        database.SaveEventMapping(GetUniqueEventId(e), id.value, calendarId, "synced", now);
      }
    }

    /** The state `_create_events` leaves behind puts every accepted event in
        sync, when the events have distinct unique ids. */
    lemma CreatedAreMapped(events: seq<EventData>, now: int, stored: map<RemoteId, GoogleEvent>,
                           mappings: map<MappingKey, Mapping>, next: nat)
      requires DistinctIds(events)
      requires remote.events == stored + Numbered(BodiesOf(Filter(events, AcceptedBy(remote.rejected))), next)
      requires database.mappings == CreatedMappings(mappings, events, remote.rejected, calendarId, next, now)
      ensures forall e :: e in events && Accepted(remote.rejected, e) ==> MappedTo(e, now)
    {
      CreatedInSync(stored, mappings, events, remote.rejected, calendarId, next, now);
    }

    /** `_create_events`: every accepted event gets a fresh remote event and
        a mapping to it; a failure skips the event. */
    method CreateEvents(events: seq<EventData>, now: int) returns (count: nat)
      requires remote.Valid()
      modifies remote`events, remote`nextId, remote`log, database`mappings
      ensures remote.Valid()
      ensures count == AcceptedCount(remote.rejected, events)
      ensures remote.nextId == old(remote.nextId) + count
      ensures remote.log == old(remote.log) + InsertCalls(events)
      ensures remote.events == old(remote.events) + Numbered(BodiesOf(Filter(events, AcceptedBy(remote.rejected))), old(remote.nextId))
      ensures database.mappings
              == CreatedMappings(old(database.mappings), events, remote.rejected, calendarId, old(remote.nextId), now)
    {
      count := 0;
      var i := 0;
      ghost var stored, log0, next0, mappings0 := remote.events, remote.log, remote.nextId, database.mappings;
      CreatedStateInit(events, remote.rejected, calendarId, now, stored, log0, next0, mappings0);
      while i < |events|
        invariant 0 <= i <= |events|
        invariant remote.Valid()
        invariant CreatedState(events, i, remote.rejected, calendarId, now, stored, log0, next0, mappings0,
                               count, remote.nextId, remote.log, remote.events, database.mappings)
      {
        ghost var nextId, log, remoteEvents, mappings := remote.nextId, remote.log, remote.events, database.mappings;
        var created := CreateOne(events[i], now);
        var count' := count + (if created then 1 else 0);
        CreatedStateStep(events, i, remote.rejected, calendarId, now, stored, log0, next0, mappings0,
                         count, nextId, log, remoteEvents, mappings,
                         created, count', remote.nextId, remote.log, remote.events, database.mappings);
        count := count';
        i := i + 1;
      }
      assert events[..|events|] == events;
    }

    /** One round of `_update_events`. With a stored mapping the remote event
        it names is updated; without one the service is searched by the
        event's uid and the first hit is updated; with no hit the event is
        created. A success saves the mapping to the id used. */
    method UpdateOne(e: EventData, now: int) returns (ok: bool)
      requires remote.Valid()
      modifies remote`events, remote`nextId, remote`log, database`mappings
      ensures remote.Valid()
      ensures ok <==> Accepted(remote.rejected, e) &&
                      (Key(e) in old(database.mappings) ==> old(database.mappings)[Key(e)].googleEventId in old(remote.events))
      ensures ok ==> Key(e) in database.mappings && MappedTo(e, now)
      ensures ok ==> database.mappings == old(database.mappings)[Key(e) := database.mappings[Key(e)]]
      ensures ok ==> remote.events == old(remote.events)[database.mappings[Key(e)].googleEventId := GoogleEventOf(e).value]
      ensures !ok ==> database.mappings == old(database.mappings) && remote.events == old(remote.events)
      // with a mapping: one update of the stored id, no create
      ensures Key(e) in old(database.mappings) ==>
                var id := old(database.mappings)[Key(e)].googleEventId;
                remote.log == old(remote.log) + UpdateCall(id, e) && remote.nextId == old(remote.nextId) &&
                (ok ==> database.mappings[Key(e)].googleEventId == id)
      // without one but with a search hit: one update of a hit, no create
      ensures Key(e) !in old(database.mappings) && remote.searchOk && old(remote.Matching(e.uid)) != {} ==>
                remote.nextId == old(remote.nextId) && |remote.log| == |old(remote.log)| + 1 + |UpdateCall(0, e)| &&
                remote.log[..|old(remote.log)| + 1] == old(remote.log) + [Search(e.uid)] &&
                (ok ==> database.mappings[Key(e)].googleEventId in old(remote.Matching(e.uid)))
      // with neither: one create
      ensures Key(e) !in old(database.mappings) && (!remote.searchOk || old(remote.Matching(e.uid)) == {}) ==>
                remote.log == old(remote.log) + [Search(e.uid)] + InsertCalls([e]) &&
                (ok ==> database.mappings[Key(e)].googleEventId == old(remote.nextId))
      ensures old(remote.nextId) <= remote.nextId <= old(remote.nextId) + 1
      ensures old(remote.log) <= remote.log && NoDeletesAfter(remote.log, |old(remote.log)|)
    {
      var uid := GetUniqueEventId(e);
      var mapping := database.GetEventMapping(uid, calendarId);
      if mapping.Some? {
        var id := mapping.value.googleEventId;
        ok := remote.UpdateEvent(id, e);
        if ok {
          database.SaveEventMapping(uid, id, calendarId, "synced", now);
        }
        NoDeletesAppend(old(remote.log), UpdateCall(id, e));
      } else {
        ok := UpdateUnmapped(e, now);
      }
    }

    /** Updating the remote event `id` names and, when that succeeds, saving
        the mapping to it. */
    method UpdateHit(e: EventData, id: RemoteId, now: int) returns (ok: bool)
      requires remote.Valid() && id in remote.events
      modifies remote`events, remote`log, database`mappings
      ensures remote.Valid()
      ensures ok <==> Accepted(remote.rejected, e)
      ensures remote.log == old(remote.log) + UpdateCall(id, e)
      ensures ok ==> database.mappings == old(database.mappings)[Key(e) := Mapping(id, now, "synced", None)] &&
                     remote.events == old(remote.events)[id := GoogleEventOf(e).value] && MappedTo(e, now)
      ensures !ok ==> database.mappings == old(database.mappings) && remote.events == old(remote.events)
    {
      ok := remote.UpdateEvent(id, e);
      if ok {
        database.SaveEventMapping(GetUniqueEventId(e), id, calendarId, "synced", now);
      }
    }

    /** The branch of one round of `_update_events` for an event without a
        stored mapping: the service is searched by the event's uid and the
        first hit updated, or the event created when there is none. */
    method UpdateUnmapped(e: EventData, now: int) returns (ok: bool)
      requires remote.Valid() && Key(e) !in database.mappings
      modifies remote`events, remote`nextId, remote`log, database`mappings
      ensures remote.Valid()
      ensures ok <==> Accepted(remote.rejected, e)
      ensures ok ==> Key(e) in database.mappings && MappedTo(e, now)
      ensures ok ==> database.mappings == old(database.mappings)[Key(e) := database.mappings[Key(e)]]
      ensures ok ==> remote.events == old(remote.events)[database.mappings[Key(e)].googleEventId := GoogleEventOf(e).value]
      ensures !ok ==> database.mappings == old(database.mappings) && remote.events == old(remote.events)
      // a search hit: one update of a hit, no create
      ensures remote.searchOk && old(remote.Matching(e.uid)) != {} ==>
                remote.nextId == old(remote.nextId) && |remote.log| == |old(remote.log)| + 1 + |UpdateCall(0, e)| &&
                remote.log[..|old(remote.log)| + 1] == old(remote.log) + [Search(e.uid)] &&
                (ok ==> database.mappings[Key(e)].googleEventId in old(remote.Matching(e.uid)))
      // no hit: one create
      ensures !remote.searchOk || old(remote.Matching(e.uid)) == {} ==>
                remote.log == old(remote.log) + [Search(e.uid)] + InsertCalls([e]) &&
                (ok ==> database.mappings[Key(e)].googleEventId == old(remote.nextId))
      ensures old(remote.nextId) <= remote.nextId <= old(remote.nextId) + 1
      ensures old(remote.log) <= remote.log && NoDeletesAfter(remote.log, |old(remote.log)|)
    {
      var hits := remote.FindEventsByOriginalUid(e.uid);
      if hits != [] {
        var id := hits[0];
        assert id in remote.Matching(e.uid) && remote.Matching(e.uid) == old(remote.Matching(e.uid));
        assert id in remote.events;
        ok := UpdateHit(e, id, now);
        SearchThenUpdate(old(remote.log), e.uid, id, e);
      } else {
        ok := CreateOne(e, now);
        SearchThenCreate(old(remote.log), e.uid, e);
      }
    }

    /** The frame of one round of `_update_events`, as the loop needs it:
        only the event's own key can gain or change a mapping, no mapping
        disappears, and no delete is requested. */
    method UpdateRound(e: EventData, now: int) returns (ok: bool)
      requires remote.Valid()
      modifies remote`events, remote`nextId, remote`log, database`mappings
      ensures remote.Valid()
      ensures ok ==> Accepted(remote.rejected, e)
      ensures forall k :: k in database.mappings ==> k in old(database.mappings) || k == Key(e)
      ensures forall k :: k in old(database.mappings) && k != Key(e) ==>
                k in database.mappings && database.mappings[k] == old(database.mappings)[k]
      ensures old(database.mappings).Keys <= database.mappings.Keys
      ensures old(remote.log) <= remote.log && NoDeletesAfter(remote.log, |old(remote.log)|)
    {
      ok := UpdateOne(e, now);
    }

    /** `_update_events`: each event goes through the fallback chain; a
        failure skips it. Only accepted events can count, mappings are only
        added or rewritten for the events' own keys, and nothing is removed
        from the mapping table or the calendar. */
    method UpdateEvents(events: seq<EventData>, now: int) returns (count: nat)
      requires remote.Valid()
      modifies remote`events, remote`nextId, remote`log, database`mappings
      ensures remote.Valid()
      ensures count <= AcceptedCount(remote.rejected, events) <= |events|
      ensures old(database.mappings).Keys <= database.mappings.Keys
      ensures forall k :: k in database.mappings && k !in old(database.mappings) ==>
                k.1 == calendarId && k.0 in CurrentIds(events)
      ensures forall k :: k in old(database.mappings) && !(k.1 == calendarId && k.0 in CurrentIds(events)) ==>
                database.mappings[k] == old(database.mappings)[k]
      ensures old(remote.log) <= remote.log && NoDeletesAfter(remote.log, |old(remote.log)|)
    {
      count := 0;
      var i := 0;
      while i < |events|
        invariant 0 <= i <= |events|
        invariant remote.Valid()
        invariant count <= AcceptedCount(remote.rejected, events[..i])
        invariant old(database.mappings).Keys <= database.mappings.Keys
        invariant forall k :: k in database.mappings && k !in old(database.mappings) ==>
                    k.1 == calendarId && k.0 in CurrentIds(events[..i])
        invariant forall k :: k in old(database.mappings) && !(k.1 == calendarId && k.0 in CurrentIds(events[..i])) ==>
                    database.mappings[k] == old(database.mappings)[k]
        invariant old(remote.log) <= remote.log && NoDeletesAfter(remote.log, |old(remote.log)|)
      {
        var e := events[i];
        var next := i + 1;
        PrefixSnoc(events, i, next);
        FilterSnoc(events[..i], e, AcceptedBy(remote.rejected));
        CurrentIdsSnoc(events[..i], e);
        ghost var logBefore := remote.log;
        var ok := UpdateRound(e, now);
        NoDeletesExtend(old(remote.log), logBefore, remote.log);
        if ok {
          count := count + 1;
        }
        i := next;
      }
      assert events[..|events|] == events;
    }

    /** One round of `_delete_events`: with a mapping, the remote event it
        names is deleted and, when that succeeds, the mapping too; without
        one nothing is requested. */
    method DeleteOne(u: string) returns (ok: bool)
      modifies remote`events, remote`log, database`mappings
      ensures ok <==> (u, calendarId) in old(database.mappings) &&
                      old(database.mappings)[(u, calendarId)].googleEventId !in remote.deleteRefused
      ensures remote.log == old(remote.log) + if (u, calendarId) in old(database.mappings)
                                             then [Delete(old(database.mappings)[(u, calendarId)].googleEventId)]
                                             else []
      ensures ok ==> database.mappings == old(database.mappings) - {(u, calendarId)} &&
                     remote.events == old(remote.events) - {old(database.mappings)[(u, calendarId)].googleEventId}
      ensures !ok ==> database.mappings == old(database.mappings) && remote.events == old(remote.events)
    {
      ok := false;
      var mapping := database.GetEventMapping(u, calendarId);
      if mapping.Some? {
        ok := remote.DeleteEvent(mapping.value.googleEventId);
        if ok {
          database.DeleteEventMapping(u, calendarId);
        }
      }
    }

    /** `_delete_events`: the uids whose mapping exists and whose remote
        event the service lets go are deleted, each counted once (a uid
        listed twice finds its mapping gone the second time); the requests
        are exactly `DeleteCalls`. Snapshots are not touched. */
    method DeleteEvents(ids: seq<string>) returns (count: nat)
      requires remote.Valid()
      modifies remote`events, remote`log, database`mappings
      ensures remote.Valid()
      ensures var deleted := DeletedUids(ids, old(database.mappings), calendarId, remote.deleteRefused);
              count == |deleted| &&
              database.mappings == old(database.mappings) - KeysOn(deleted, calendarId) &&
              remote.events == old(remote.events) - MappedIds(deleted, old(database.mappings), calendarId)
      ensures remote.log == old(remote.log) + DeleteCalls(ids, old(database.mappings), calendarId, remote.deleteRefused)
    {
      count := 0;
      var i := 0;
      while i < |ids|
        invariant 0 <= i <= |ids|
        invariant var deleted := DeletedUids(ids[..i], old(database.mappings), calendarId, remote.deleteRefused);
                  count == |deleted| &&
                  database.mappings == old(database.mappings) - KeysOn(deleted, calendarId) &&
                  remote.events == old(remote.events) - MappedIds(deleted, old(database.mappings), calendarId)
        invariant remote.log == old(remote.log) + DeleteCalls(ids[..i], old(database.mappings), calendarId, remote.deleteRefused)
      {
        var u := ids[i];
        var next := i + 1;
        PrefixSnoc(ids, i, next);
        ghost var m0, e0, log0 := database.mappings, remote.events, remote.log;
        var ok := DeleteOne(u);
        DeleteStep(old(database.mappings), old(remote.events), old(remote.log), ids[..i], u, calendarId,
                   remote.deleteRefused, m0, e0, log0, database.mappings, remote.events, remote.log, ok);
        if ok {
          count := count + 1;
        }
        i := next;
      }
      assert ids[..|ids|] == ids;
      assert remote.events.Keys <= old(remote.events).Keys;
    }

    /** The snapshot loop of `sync_once`: one `save_event_snapshot` per
        current event, in order. */
    method SaveSnapshots(events: seq<EventData>, now: int)
      modifies database`snapshots
      ensures database.snapshots == SaveAll(old(database.snapshots), events, now)
    {
      var i := 0;
      while i < |events|
        invariant 0 <= i <= |events|
        invariant database.snapshots == SaveAll(old(database.snapshots), events[..i], now)
      {
        var next := i + 1;
        PrefixSnoc(events, i, next);
        SaveAllSnoc(old(database.snapshots), events[..i], events[i], now);
        database.SaveEventSnapshot(events[i], now);
        i := next;
      }
      assert events[..|events|] == events;
    }

    /** The remote phase of a non-dry run: creates, then updates, then
        deletes, each skipped when its list is empty, the deletes also when
        deletion is disabled. Every create of an accepted new event counts;
        updates and deletes count at most once per accepted event and per
        listed uid; a mapping only disappears for a listed uid. */
    method ApplyChanges(newEvents: seq<EventData>, updatedEvents: seq<EventData>, deleteList: seq<string>, now: int)
      returns (created: nat, updated: nat, deleted: nat, ghost deletesFrom: nat)
      requires remote.Valid()
      modifies remote`events, remote`nextId, remote`log, database`mappings
      ensures remote.Valid()
      ensures created == AcceptedCount(remote.rejected, newEvents)
      ensures updated <= AcceptedCount(remote.rejected, updatedEvents)
      ensures deleted <= |set u | u in deleteList|
      ensures !enableDelete ==> deleted == 0
      ensures forall k :: k in old(database.mappings) && k !in database.mappings ==>
                k.1 == calendarId && k.0 in deleteList
      // the requests: the creates' inserts first, then no delete up to
      // `deletesFrom`, then only deletes (none when deletion is disabled)
      ensures old(remote.log) + InsertCalls(newEvents) <= remote.log
      ensures |old(remote.log) + InsertCalls(newEvents)| <= deletesFrom <= |remote.log|
      ensures NoDeletesAfter(remote.log[..deletesFrom], |old(remote.log)|)
      ensures OnlyDeletesAfter(remote.log, deletesFrom)
      ensures !enableDelete ==> deletesFrom == |remote.log|
    {
      created, updated, deleted := 0, 0, 0;
      if newEvents != [] {
        created := CreateEvents(newEvents, now);
        CreatedMappingsKeys(old(database.mappings), newEvents, remote.rejected, calendarId, old(remote.nextId), now);
      } else {
        assert Filter(newEvents, AcceptedBy(remote.rejected)) == [];
      }
      InsertCallsAreInserts(newEvents);
      NoDeletesAppend(old(remote.log), InsertCalls(newEvents));
      ghost var afterCreate := remote.log;
      assert old(database.mappings).Keys <= database.mappings.Keys;
      if updatedEvents != [] {
        updated := UpdateEvents(updatedEvents, now);
        NoDeletesExtend(old(remote.log), afterCreate, remote.log);
      }
      ghost var afterUpdate := database.mappings;
      ghost var logAfterUpdate := remote.log;
      assert old(database.mappings).Keys <= afterUpdate.Keys;
      deletesFrom := |remote.log|;
      if deleteList != [] && enableDelete {
        deleted := DeleteEvents(deleteList);
        DeletedUidsBound(deleteList, afterUpdate, calendarId, remote.deleteRefused);
        DeleteCallsShape(deleteList, afterUpdate, calendarId, remote.deleteRefused);
        OnlyDeletesAppend(logAfterUpdate, DeleteCalls(deleteList, afterUpdate, calendarId, remote.deleteRefused));
      }
      assert remote.log[..deletesFrom] == logAfterUpdate;
    }

    /** Steps 4 and 5 of `sync_once` on the window's events: classification,
        the delete list (removed ids, then the modified-instance cleanups,
        then the orphans), the remote phase and the snapshots, the last two
        only outside a dry run. */
    method RunPhases(current: seq<EventData>, modified: seq<EventData>, now: int, dryRun: bool)
      returns (stats: Stats, deleteList: seq<string>, ghost deletesFrom: nat)
      requires remote.Valid()
      modifies remote`events, remote`nextId, remote`log, database`mappings, database`snapshots
      ensures remote.Valid()
      ensures var snaps := old(database.snapshots);
              (set u | u in deleteList) == RemovedIds(snaps, current) + OrphanIds(snaps, current)
      ensures stats.processed == |current| && stats.errors == 0
      ensures dryRun ==> stats.created == 0 && stats.updated == 0 && stats.deleted == 0
      ensures dryRun ==> remote.events == old(remote.events) && remote.log == old(remote.log) &&
                         remote.nextId == old(remote.nextId) &&
                         database.mappings == old(database.mappings) && database.snapshots == old(database.snapshots)
      ensures !dryRun ==> stats.created == AcceptedCount(remote.rejected, NewEvents(old(database.snapshots), current))
      ensures stats.updated <= AcceptedCount(remote.rejected, UpdatedEvents(old(database.snapshots), current))
      ensures stats.deleted <= |set u | u in deleteList|
      ensures !enableDelete ==> stats.deleted == 0
      ensures forall k :: k in old(database.mappings) && k !in database.mappings ==>
                k.1 == calendarId && k.0 in deleteList
      ensures !dryRun ==> database.snapshots == SaveAll(old(database.snapshots), current, now)
      // outside a dry run: creates, then updates, then deletes
      ensures !dryRun ==>
                old(remote.log) + InsertCalls(NewEvents(old(database.snapshots), current)) <= remote.log &&
                |old(remote.log) + InsertCalls(NewEvents(old(database.snapshots), current))| <= deletesFrom <= |remote.log| &&
                NoDeletesAfter(remote.log[..deletesFrom], |old(remote.log)|) &&
                OnlyDeletesAfter(remote.log, deletesFrom) &&
                (!enableDelete ==> deletesFrom == |remote.log|)
    {
      deletesFrom := |remote.log|;
      var newEvents, updatedEvents, deletedIds := database.DetectChanges(current);
      deleteList := deletedIds;
      var cleanups := DetectModifiedInstanceCleanups(modified);
      if cleanups != [] {
        deleteList := deleteList + cleanups;
      }
      var orphans := database.GetOrphanedSeriesEvents(current);
      if orphans != [] {
        deleteList := deleteList + orphans;
      }
      assert (set u | u in deleteList) == (set u | u in deletedIds) + (set u | u in orphans);
      stats := Stats(|current|, 0, 0, 0, 0);
      if !dryRun {
        var created, updated, deleted;
        created, updated, deleted, deletesFrom := ApplyChanges(newEvents, updatedEvents, deleteList, now);
        stats := stats.(created := created, updated := updated, deleted := deleted);
        SaveSnapshots(current, now);
      }
    }

    /** The phases as `sync_once` sees them: the counters and the
        snapshots, with the request order left to `RunPhases`. */
    method RunSteps(current: seq<EventData>, modified: seq<EventData>, now: int, dryRun: bool) returns (stats: Stats)
      requires remote.Valid()
      modifies remote`events, remote`nextId, remote`log, database`mappings, database`snapshots
      ensures remote.Valid()
      ensures stats.processed == |current| && stats.errors == 0
      ensures dryRun ==> stats.created == 0 && stats.updated == 0 && stats.deleted == 0
      ensures dryRun ==> remote.events == old(remote.events) && remote.log == old(remote.log) &&
                         database.mappings == old(database.mappings) && database.snapshots == old(database.snapshots)
      ensures !dryRun ==>
                var snaps := old(database.snapshots);
                stats.created == AcceptedCount(remote.rejected, NewEvents(snaps, current)) &&
                stats.updated <= AcceptedCount(remote.rejected, UpdatedEvents(snaps, current)) &&
                stats.deleted <= |RemovedIds(snaps, current) + OrphanIds(snaps, current)| &&
                database.snapshots == SaveAll(snaps, current, now) &&
                old(remote.log) <= remote.log
      ensures !enableDelete ==> stats.deleted == 0
    {
      var deleteList;
      ghost var deletesFrom;
      stats, deleteList, deletesFrom := RunPhases(current, modified, now, dryRun);
    }

    /** The events a run works on: the window filter over the feed's
        partition, the window running from `lookbehind` before `now` to
        `lookahead` after it. The filter never raises on a parsed feed. */
    function WindowEvents(components: seq<Component>, now: int): (r: Option<seq<EventData>>)
      ensures r.Some?
    {
      ParsedFeedExpands(components, config, now - lookbehind, now + lookahead);
      Expanded(MainEvents(components, config), ModifiedInstances(components, config),
               now - lookbehind, now + lookahead)
    }

    /** Step 3 of `sync_once`: `parse_and_expand` with the window running
        from `lookbehind` before `now` to `lookahead` after it. */
    method ExpandWindow(components: seq<Component>, now: int) returns (r: Option<seq<EventData>>)
      ensures r == WindowEvents(components, now)
    {
      var windowStart := now - lookbehind;
      var windowEnd := now + lookahead;
      r := ParseAndExpand(components, config, windowStart, windowEnd);
    }

    /** Steps 1 to 3 of `sync_once`: outside a dry run the service is
        authenticated and its calendar read; then the feed's events in the
        window. The feed's components are an input (None: fetching or
        parsing the document raised). An error is what the run fails
        with. */
    method Prepare(now: int, dryRun: bool, fetched: Option<seq<Component>>) returns (r: Result<seq<EventData>, string>)
      modifies remote`log
      ensures r.Ok? <==> (dryRun || (remote.authOk && remote.calendarReachable)) &&
                         fetched.Some?
      ensures r.Ok? ==> r.value == WindowEvents(fetched.value, now).value
      ensures dryRun ==> remote.log == old(remote.log)
      ensures !dryRun ==> remote.log == old(remote.log) + [Call.Authenticate] + (if remote.authOk then [Call.GetCalendarInfo] else [])
    {
      if !dryRun {
        var authenticated := remote.Authenticate();
        if !authenticated {
          return Err("authentication failed");
        }
        var reachable := remote.GetCalendarInfo();
        if !reachable {
          return Err("calendar not found");
        }
      }
      if fetched.None? {
        return Err("Failed to fetch ICS content after all retries");
      }
      var filtered := ExpandWindow(fetched.value, now);
      r := Ok(filtered.value);
    }

    /** The `try` block of `sync_once` between opening and closing the
        session: preparation, then the phases on the window's events. An
        error is the failure the run records; it happens before anything
        but the two authentication requests is touched. */
    method SyncSteps(now: int, dryRun: bool, fetched: Option<seq<Component>>) returns (r: Result<Stats, string>)
      requires remote.Valid()
      modifies remote`events, remote`nextId, remote`log, database`mappings, database`snapshots
      ensures remote.Valid()
      ensures r.Ok? <==> (dryRun || (remote.authOk && remote.calendarReachable)) &&
                         fetched.Some?
      ensures r.Ok? ==> r.value.processed == |WindowEvents(fetched.value, now).value| && r.value.errors == 0
      ensures r.Ok? && dryRun ==> r.value.created == 0 && r.value.updated == 0 && r.value.deleted == 0
      ensures r.Ok? && !dryRun ==>
                var current := WindowEvents(fetched.value, now).value;
                r.value.created == AcceptedCount(remote.rejected, NewEvents(old(database.snapshots), current)) &&
                r.value.updated <= AcceptedCount(remote.rejected, UpdatedEvents(old(database.snapshots), current)) &&
                r.value.deleted <= |RemovedIds(old(database.snapshots), current) + OrphanIds(old(database.snapshots), current)| &&
                database.snapshots == SaveAll(old(database.snapshots), current, now)
      ensures !enableDelete && r.Ok? ==> r.value.deleted == 0
      ensures dryRun ==> remote.log == old(remote.log)
      ensures !dryRun ==> old(remote.log) + [Call.Authenticate] <= remote.log
      ensures r.Err? || dryRun ==>
                remote.events == old(remote.events) && database.mappings == old(database.mappings) &&
                database.snapshots == old(database.snapshots)
    {
      var current := Prepare(now, dryRun, fetched);
      if current.Err? {
        return Err(current.error);
      }
      var modified := ModifiedInstances(fetched.value, config);
      var stats := RunSteps(current.value, modified, now, dryRun);
      r := Ok(stats);
    }

    /** Opening the session of a run: a fresh row, named by
        `current_session_id`. */
    method OpenSession(now: int) returns (sid: nat)
      requires database.Valid()
      modifies this`currentSessionId, database`history, database`nextSessionId
      ensures database.Valid()
      ensures sid == old(database.nextSessionId) && sid !in old(database.history)
      ensures database.nextSessionId == sid + 1
      ensures database.history == old(database.history)[sid := NewSessionRow(now)]
      ensures currentSessionId == Some(sid)
    {
      sid := database.StartSyncSession(now);
      currentSessionId := Some(sid);
    }

    /** Closing the session of a run with its outcome, and clearing
        `current_session_id`. */
    method CloseSession(sid: nat, r: Result<Stats, string>, now: int)
      requires database.Valid() && sid in database.history
      modifies this`currentSessionId, database`history
      ensures database.Valid()
      ensures database.history == old(database.history)[sid := SessionUpdate(old(database.history)[sid], ClosingKwargs(r), now)]
      ensures currentSessionId.None?
    {
      database.UpdateSyncSession(sid, ClosingKwargs(r), now);
      currentSessionId := None;
    }

    /** `sync_once`. A session row is opened first and closed last: as
        completed with the counters, or as failed with the message and one
        error; `current_session_id` names the session meanwhile and is
        cleared on every path. */
    method SyncOnce(now: int, dryRun: bool, fetched: Option<seq<Component>>) returns (r: Result<Stats, string>)
      requires Valid()
      modifies this`currentSessionId, database`history, database`nextSessionId, database`snapshots, database`mappings
      modifies remote`events, remote`nextId, remote`log
      ensures Valid()
      ensures currentSessionId.None?
      ensures var id := old(database.nextSessionId);
              database.nextSessionId == id + 1 && id !in old(database.history) &&
              database.history == old(database.history)[id := SessionUpdate(NewSessionRow(now), ClosingKwargs(r), now)]
      ensures r.Ok? <==> (dryRun || (remote.authOk && remote.calendarReachable)) &&
                         fetched.Some?
      ensures r.Ok? ==> r.value.processed == |WindowEvents(fetched.value, now).value| && r.value.errors == 0
      ensures dryRun ==> remote.log == old(remote.log)
      ensures r.Err? || dryRun ==>
                remote.events == old(remote.events) && database.mappings == old(database.mappings) &&
                database.snapshots == old(database.snapshots)
    {
      ghost var before := database.history;
      var sid := OpenSession(now);
      r := SyncSteps(now, dryRun, fetched);
      CloseSession(sid, r, now);
      MapUpdateTwice(before, sid, NewSessionRow(now), SessionUpdate(NewSessionRow(now), ClosingKwargs(r), now));
    }
  }
}
