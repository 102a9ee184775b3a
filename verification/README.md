# CalendarBridge synchronisation core, modelled in Dafny

CalendarBridge copies the events of an ICS feed into a Google calendar. This
project models the core of each run and proves properties of that model.

A run does the following:

1. It opens a session row in the local SQLite store.
2. It parses the feed into `EventData` records. Each record has a unique event id, a series id and a content fingerprint.
3. It keeps the records inside a sliding time window.
4. It classifies them against the stored snapshots as new, updated or removed, and finds the orphaned members of recurring series.
5. Outside a dry run, it creates, updates and deletes events on the target calendar, keeping a table that maps each unique id to its remote event id.
6. It saves a snapshot of every current record.
7. It closes the session as completed (with its counters) or as failed (with the error).

Modules, one per source file (plus two of shared definitions):

- `Common` (common.dfy): `Option`, `Result`, an order-preserving `Filter` over sequences, and its lemmas.
- `Strings` (strings.dfy): the Python string operations the code relies on. These are `startswith`, `in`, `count`, `strip`, `upper`, `join`, `replace`, `str(int)` and zero-padded formatting.
- `Events` (events.dfy): `EventData` as a value (src/parsers/ics_parser.py). It covers the time defaults, the title and description rewriting, the fingerprint, and the id and series id derivation. An event's shape is the variant `Kind = Plain | SeriesRoot | Override(anchor)`.
- `IcsParser` (feed.dfy): the partition of the parsed VEVENTs into main events and modified instances, and the window filter of `parse_and_expand`.
- `GoogleCalendar` (google.dfy): the outgoing side (src/clients/google_calendar.py).
  - Pure parts: the status maps, the RRULE sanitiser, the vRecur-to-RRULE builder, and the request body with its tracking properties.
  - The calendar service is the class `RemoteCalendar`. It holds a map from remote id to event body and a ghost log of the requests made. Its failure behaviour is fixed when it is constructed.
- `Storage` (database.dfy): `SyncDatabase`. It holds the snapshot, mapping and session tables as maps, and the two classification procedures `detect_changes` and `get_orphaned_series_events`. Each procedure is proved against a set-level specification.
- `Sync` (engine.dfy): `SyncEngine`. It runs the create, update and delete loops, the phase order of `sync_once`, and the session bookkeeping.

Timestamps are integers (seconds), passed in as `now`. One run uses one `now`. The fetched and walked calendar is an input: a list of components, or None when fetching or parsing raised.

The model follows the code as written, including where it does something its names or comments do not suggest:

- Snapshots of removed or orphaned ids are never deleted (src/sync/engine.py:297-298). A removed id is therefore reported again on every later run (`Storage.ResyncFindsNoChanges`).
- The `series_uid` column is filled only for events with RRULE or RDATE (src/storage/database.py:103). A modified instance without a rule has no series and never takes part in orphan detection (`Storage.NonRecurringNeverOrphan`).
- The delete list is the removed ids, then the cleanups, then the orphans, with no de-duplication (src/sync/engine.py:72-83). A uid listed twice is deleted and counted only once, because its mapping is gone the second time (`Sync.SyncEngine.DeleteEvents`).
- A failure of a single create, update or delete is skipped without being counted. `errors_count` is 1 only for a run that fails as a whole (src/sync/engine.py:141).
- The sequence number is part of the fingerprint (src/parsers/ics_parser.py:134).
- An event whose DTSTART is a date is never built (src/parsers/ics_parser.py:67, 89 and 268-270). The all-day test holds for no value, and the timed branch then raises on the date's missing `tzinfo`. The parser drops such an event and the run goes on without it. The model follows this throughout. The all-day branch the code intends is stated as `Events.IntendedTimeInfo` (see Findings).
- A DURATION property that is present counts even when it is zero: the condition looks at the property object, not at the length it holds (src/parsers/ics_parser.py:82-83).
- `sync_completed_at` is stamped by every update that sets a completed or failed status, not only the first (src/storage/database.py:241-243).
- Session clean-up prunes by age only (src/storage/database.py:356-371).
- A recurring main event is kept by the window filter whenever it starts no later than the window's end. Every branch of `_recurring_event_overlaps_range` answers true (src/parsers/ics_parser.py:367-380).
- `str.replace('mailto:', '')` is a single pass. An address with the scheme nested in it keeps one copy (`GoogleCalendar.MailtoRemovalIsSinglePass`).
- With `max_description_length` below 3, the cut description is longer than the limit (`Events.TinyLimitOverflows`).
- An event that was saved while recurring and is now produced without a rule is still current. It is nevertheless reported as an orphan and put on the delete list (`Storage.StoppedRecurringIsOrphan`).

## Model

| member | source | states |
|---|---|---|
| Events.EndTime | src/parsers/ics_parser.py:71-86 | DTEND wins. Otherwise a present DURATION is added to the start, so a zero DURATION ends the event at its start. Otherwise the end is one day after a date start or one hour after a timed start, of the same kind as the start. |
| Events.SubDayDurationOnDate | src/parsers/ics_parser.py:68-75 | In the intended all-day branch, a DURATION shorter than a day leaves the event ending on its start date. |
| Events.ProcessTimeInfo | src/parsers/ics_parser.py:64-93 | As written, every start takes the timed path. Processing fails exactly for a date start, or for a start without a zone whose end is a date. A result is never all-day and starts with a zone at the same instant. A zone-aware start keeps its computed end. A start without a zone is relabelled with Asia/Taipei, and so is its end. |
| Events.IntendedTimeInfo | src/parsers/ics_parser.py:67-75 | The intended reading: the result is all-day exactly for a date start, which is kept with its computed end. A timed start is processed exactly as written. |
| Events.DateStartIsDropped | src/parsers/ics_parser.py:66-93 | For a date start the all-day test fails and processing as written fails, where the intended branch builds an all-day event. |
| Events.PrefixedSummary | src/parsers/ics_parser.py:117-118 | The title always starts with the prefix, is unchanged when it already did, and ends with the original title. |
| Events.PrefixIdempotent | src/parsers/ics_parser.py:117-118 | Prefixing an already processed title changes nothing. |
| Events.SuffixedDescription | src/parsers/ics_parser.py:121-125 | A non-empty suffix is appended to a non-empty description, and an empty description becomes the stripped suffix. An empty suffix changes nothing. |
| Events.SliceTo | src/parsers/ics_parser.py:129 | Python's `s[:k]`: a prefix of `s`, exactly `s[..k]` for an in-range `k`. |
| Events.LimitedDescription | src/parsers/ics_parser.py:128-129 | A description within the limit is kept. With a limit of at least 3, a longer one becomes exactly `limit` characters: its first `limit-3` characters, then "...". |
| Events.TinyLimitOverflows | src/parsers/ics_parser.py:128-129 | With a limit below 3 the result exceeds the limit ("abcd" with limit 0 gives "a..."). |
| Events.ProcessContent | src/parsers/ics_parser.py:114-129 | The in-place rewrite yields the prefixed title and the suffixed, then truncated, description. |
| Events.FingerprintIgnoresUnhashedFields | src/parsers/ics_parser.py:131-140 | Events agreeing on uid, sequence, summary, description, location, start, end, rule text, status and RECURRENCE-ID have the same fingerprint. |
| Events.FingerprintSeesHashedFields | src/parsers/ics_parser.py:131-140 | Equal model fingerprints imply equal hashed fields. The model's fingerprint is the field tuple, so it tells apart every pair of events the source's tells apart, and some it does not (see Left out). |
| Events.WithOccurrence | src/parsers/ics_parser.py:317-321 | Substituting an occurrence's start and end recomputes the fingerprint, so it is current, and changes nothing else. |
| Events.OccurrenceFingerprintsDiffer | src/parsers/ics_parser.py:133-134 | Two occurrences of one event at different starts or ends get different fingerprints. |
| Events.KindOf | src/parsers/ics_parser.py:142-171 | An event is an override exactly when it has a RECURRENCE-ID (`is_modified_instance`). Otherwise it is a series root exactly when it has RRULE or RDATE (`is_recurring`), and plain otherwise. |
| Events.GetUniqueEventId | src/parsers/ics_parser.py:142-156 | By kind: an override gets `uid + "_RECUR_" + anchor`, and a series root or plain event gets `uid`. The id always starts with the uid. |
| Events.GetSeriesId | src/parsers/ics_parser.py:158-163 | The series id is the uid, and equals the unique id for anything but an override. |
| Events.OverrideIdsDistinct | src/parsers/ics_parser.py:145-148 | Two overrides of one uid get the same unique id exactly when their anchors are equal. |
| Events.OverrideIdDiffersFromRoot | src/parsers/ics_parser.py:142-156 | An override never shares the unique id of a non-override with the same uid. |
| Events.AttendeesOf | src/parsers/ics_parser.py:95-112 | One attendee record per ATTENDEE, in order, each converted on its own. |
| Events.EventDataOf | src/parsers/ics_parser.py:24-62 | Construction fails exactly when DTSTART is absent or the time processing fails, so a date DTSTART never builds. A built event is timed, not all-day, and starts with a zone. It has a current fingerprint and a prefixed title. It carries the UID, SEQUENCE, STATUS, RRULE, RDATE and RECURRENCE-ID values or their defaults. |
| Events.NewEventData | src/parsers/ics_parser.py:24-62 | The field-by-field constructor produces exactly `EventDataOf`. |
| IcsParser.BuiltEventsProcessed | src/parsers/ics_parser.py:258-270 | Every parsed event has a current fingerprint and a prefixed title. |
| IcsParser.BuiltEvents | src/parsers/ics_parser.py:258-270 | At most one event per component. Every built event is timed, not all-day, and starts with a zone: date-started VEVENTs are dropped. |
| IcsParser.PartitionIsExact | src/parsers/ics_parser.py:258-270 | Main events and modified instances together are exactly the parsed events, as a multiset, and each list holds only its own kind. |
| IcsParser.ParseIcsContent | src/parsers/ics_parser.py:255-273 | The loop returns the in-order main events and modified instances of the built events. Components that fail to build, date-started VEVENTs among them, are dropped. |
| IcsParser.RecurringEventOverlapsRange | src/parsers/ics_parser.py:367-380 | For a timed start the answer is `start <= windowEnd`, whatever the rule. For a date start the comparison raises. |
| IcsParser.MainEventKept | src/parsers/ics_parser.py:344-354 | A non-recurring main event is kept exactly when its start lies in the closed window. A recurring one is kept exactly when it starts no later than the window's end. |
| IcsParser.ModifiedInstanceKept | src/parsers/ics_parser.py:357-362 | A modified instance is kept exactly when its start lies in the closed window, whatever its series' rule. |
| IcsParser.MainBeforeModified | src/parsers/ics_parser.py:344-362 | The filtered list is main events first, then modified instances. |
| IcsParser.FilterMainEvents | src/parsers/ics_parser.py:344-354 | The first loop returns the kept main events in order, or fails on a date start. |
| IcsParser.FilterModifiedInstances | src/parsers/ics_parser.py:357-362 | The second loop returns the instances starting inside the closed window, in order, or fails on a date start. |
| IcsParser.ParseAndExpand | src/parsers/ics_parser.py:333-365 | The result is the kept main events followed by the kept modified instances of the partition. On a parsed feed the filter never fails. |
| IcsParser.Expanded | src/parsers/ics_parser.py:340-365 | The filter result exists exactly when every start in both lists is timed, and it holds no more events than the two lists. |
| IcsParser.ExpandedWithinWindow | src/parsers/ics_parser.py:342-362 | Every kept event comes from one of the two lists and starts no later than the window's end. |
| IcsParser.ParsedFeedExpands | src/parsers/ics_parser.py:333-365 | On the partition parsing produces, the window filter never fails. |
| GoogleCalendar.ConvertStatus | src/clients/google_calendar.py:317-324 | TENTATIVE and CANCELLED, in any case, map to their lower-case forms. Everything else, CONFIRMED included, maps to "confirmed". Each direction is an if-and-only-if. |
| GoogleCalendar.ConvertAttendeeStatus | src/clients/google_calendar.py:326-334 | ACCEPTED, DECLINED and TENTATIVE map to accepted, declined and tentative. Everything else maps to needsAction. Each direction is an if-and-only-if. |
| GoogleCalendar.StatusMapsIgnoreCase | src/clients/google_calendar.py:317-334 | Both maps give the same answer for a status and its upper-cased form. |
| GoogleCalendar.UntilStringShape | src/clients/google_calendar.py:448 | For in-range components the UNTIL value is 16 characters `YYYYMMDDTHHMM00Z`, each field reading back as its component. |
| GoogleCalendar.UntilOf | src/clients/google_calendar.py:438-452 | UNTIL is produced exactly when there are at least five components and the first five are integers. |
| GoogleCalendar.RRuleParts | src/clients/google_calendar.py:413-449 | The parts start with `FREQ=<freq>`, number 1 to 5, and end with the UNTIL part when there is one. |
| GoogleCalendar.VRecurToRRule | src/clients/google_calendar.py:404-459 | The builder fails exactly when no FREQ is found. |
| GoogleCalendar.VRecurRuleStartsWithFreq | src/clients/google_calendar.py:413-414 | Every built rule starts with `FREQ=<freq>`. |
| GoogleCalendar.ConvertVRecurToRRule | src/clients/google_calendar.py:400-459 | The append-then-join builder returns exactly `VRecurToRRule`. |
| GoogleCalendar.FixRRuleForGoogle | src/clients/google_calendar.py:358-398 | An empty rule gives None, and a vRecur form goes to the builder. Otherwise the stripped rule is returned exactly when it has no BYSETPOS, RSCALE or SKIP (in any case), has FREQ=, and has at most 10 `;`. |
| GoogleCalendar.FixRRuleResultHasFreq | src/clients/google_calendar.py:358-394 | Every rule the sanitiser lets through contains FREQ=, on either path. |
| GoogleCalendar.FixRRuleIdempotent | src/clients/google_calendar.py:370-394 | On the plain path the result has at most 10 `;` and no unsupported part, and sanitising it again returns it unchanged. |
| GoogleCalendar.GTimeOf | src/clients/google_calendar.py:252-267 | All-day events get a date. Timed events get the instant with a zone, and fail on a date value. |
| GoogleCalendar.RecurrenceOf | src/clients/google_calendar.py:269-293 | `recurrence` exists exactly for a rule the sanitiser turns into a non-empty result. It is `RRULE:<rule>` followed by one `EXDATE:` entry per exception date. |
| GoogleCalendar.AttendeesFor | src/clients/google_calendar.py:295-304 | `attendees` exists exactly for a non-empty list: one entry per attendee, in order, with "mailto:" removed and the status converted. |
| GoogleCalendar.GoogleEventOf | src/clients/google_calendar.py:242-315 | A body is built exactly when the event is all-day or has timed start and end. |
| GoogleCalendar.GoogleEventOfFields | src/clients/google_calendar.py:244-313 | The body carries the text fields, the converted status, the date or dateTime times, the recurrence and attendee lists, and the tracking properties. |
| GoogleCalendar.TrackingIdentifiesSource | src/clients/google_calendar.py:306-313 | The tracking properties hold the uid and the fingerprint as they are. A non-negative sequence is written as decimal digits that read back as the sequence. |
| GoogleCalendar.MailtoRemovalIsSinglePass | src/clients/google_calendar.py:300 | The replacement is one pass: "mamailto:ilto:x" becomes "mailto:x". |
| Strings.RemoveAllAbsent | src/clients/google_calendar.py:300 | An address without "mailto:" is sent unchanged. |
| Strings.ZeroPadExact | src/clients/google_calendar.py:448 | Zero padding an in-range number gives exactly `w` digits that read back as the number. |
| GoogleCalendar.BuildRecurrence | src/clients/google_calendar.py:269-293 | The list built by appending is exactly `RecurrenceOf`. |
| GoogleCalendar.BuildAttendees | src/clients/google_calendar.py:295-304 | The list built by appending is exactly `AttendeesFor`. |
| GoogleCalendar.ConvertToGoogleEvent | src/clients/google_calendar.py:242-315 | The dict built step by step is exactly `GoogleEventOf`. |
| GoogleCalendar.RemoteCalendar.Authenticate | src/clients/google_calendar.py:36-108 | Succeeds exactly when the credentials are accepted, and logs one request. |
| GoogleCalendar.RemoteCalendar.GetCalendarInfo | src/clients/google_calendar.py:110-123 | Succeeds exactly when the calendar is reachable, and logs one request. |
| GoogleCalendar.RemoteCalendar.CreateEvent | src/clients/google_calendar.py:151-172 | No request when the body cannot be built, otherwise one insert. It succeeds exactly when the body is built and the service accepts it. The body is then stored under a fresh id, and nothing else changes. |
| GoogleCalendar.RemoteCalendar.UpdateEvent | src/clients/google_calendar.py:174-197 | No request when the body cannot be built, otherwise one update. It succeeds exactly for a known id and an accepted event, replacing only that body. |
| GoogleCalendar.RemoteCalendar.DeleteEvent | src/clients/google_calendar.py:199-219 | One delete request. It succeeds unless the service refuses; an unknown id (a 404) counts as success. Only that id is removed. |
| GoogleCalendar.RemoteCalendar.FindEventsByOriginalUid | src/clients/google_calendar.py:336-356 | At most 100 distinct ids, all tracked under the uid. There are all of them when at most 100, none when the search fails, and at least one when any exist. |
| Storage.SeriesUidOf | src/storage/database.py:103 | `series_uid` is set exactly for an event with RRULE or RDATE, and is then its uid. |
| Storage.Upsert | src/storage/database.py:96-117 | After saving, the table holds exactly one row for the event's unique id, carrying its sequence and fingerprint. Every other row is unchanged, and no other id is added. |
| Storage.SaveAllContents | src/storage/database.py:96-117 | Saving events with distinct ids adds exactly their ids, maps each to its own snapshot, and leaves every other row as it was. |
| Storage.ClassificationIsExact | src/storage/database.py:284-295 | An event is new exactly when its id has no snapshot. It is updated exactly when it has one and a higher sequence or a different fingerprint. It is never both, and an equal-or-lower sequence with an equal fingerprint is not updated. |
| Storage.NewEvents | src/storage/database.py:284-289 | At most one entry per current event. Which events it holds, in both directions, is stated on `Storage.ClassificationIsExact`. |
| Storage.UpdatedEvents | src/storage/database.py:284-295 | At most one entry per current event. Which events it holds, in both directions, is stated on `Storage.ClassificationIsExact`. |
| Storage.RemovedIds | src/storage/database.py:273-298 | The snapshot ids split into the removed ids and the ids of current events, with no overlap: a removed id is a snapshot id no current event produces, and every such id is removed. |
| Storage.RemovedAreNotCurrent | src/storage/database.py:273-298 | No current id is reported deleted, and only snapshot ids are. |
| Storage.ResyncFindsNoChanges | src/storage/database.py:265-302 | After saving every current event (distinct ids), the same input classifies as nothing new and nothing updated. The removed ids are still reported. |
| Storage.ResyncIsQuietWithoutRemovals | src/storage/database.py:265-302 | When every snapshot belongs to a current event, the re-run reports nothing at all. |
| Storage.OrphanIds | src/storage/database.py:317-349 | Every orphan is a persisted snapshot with a non-null series. |
| Storage.OrphanCases | src/storage/database.py:324-349 | For a series still produced, the orphans are its persisted ids not produced now. For a vanished series, every persisted id of it is an orphan. |
| Storage.NonRecurringNeverOrphan | src/storage/database.py:103 | A snapshot saved for an event without RRULE or RDATE is never an orphan. |
| Storage.LiveRecurringNotOrphan | src/storage/database.py:309-341 | A recurring event that is still produced is not an orphan. |
| Storage.StoppedRecurringIsOrphan | src/storage/database.py:309-349 | An event saved while recurring, now produced without a rule, and with no recurring event of its uid left, is both current and an orphan. |
| Storage.SetClauses | src/storage/database.py:232-239 | Only whitelisted columns are assigned. |
| Storage.SessionUpdate | src/storage/database.py:226-251 | A completed or failed status stamps `sync_completed_at` with `now`. Every column outside the whitelist and the stamp is unchanged. |
| Storage.SessionUpdateEffect | src/storage/database.py:226-251 | Each whitelisted argument lands in its column. The stamp changes exactly for a completed or failed status. An update naming no whitelisted column, an empty one included, leaves the row unchanged. |
| Storage.Pruned | src/storage/database.py:356-371 | Exactly the rows started before the cutoff go, and the rest stay unchanged. |
| Storage.SyncDatabase.constructor | src/storage/database.py:30-76 | The three tables start empty. |
| Storage.SyncDatabase.SaveEventSnapshot | src/storage/database.py:96-117 | The snapshot table becomes `Upsert` of the old one. |
| Storage.SyncDatabase.GetEventSnapshot | src/storage/database.py:119-136 | Returns the stored row exactly when the id has one. |
| Storage.SyncDatabase.SaveEventMapping | src/storage/database.py:155-170 | An upsert on (uid, calendar): reading it back gives the new row. Every other pair, the same uid under another calendar included, is untouched. |
| Storage.SyncDatabase.GetEventMapping | src/storage/database.py:172-184 | Returns the stored row exactly when the pair has one. |
| Storage.SyncDatabase.DeleteEventMapping | src/storage/database.py:198-205 | Only the (uid, calendar) row goes. |
| Storage.SyncDatabase.DeleteEventMappingByGoogleId | src/storage/database.py:207-214 | Exactly the rows of that calendar pointing at that remote id go. The others are unchanged. |
| Storage.SyncDatabase.StartSyncSession | src/storage/database.py:216-224 | A running row is added under a never-used id. The id counter moves on. |
| Storage.SyncDatabase.CollectSessionArgs | src/storage/database.py:232-243 | The loop collects exactly the whitelisted assignments, and asks for the completion stamp exactly when some argument sets the status to completed or failed. |
| Storage.SyncDatabase.UpdateSyncSession | src/storage/database.py:226-251 | The row becomes `SessionUpdate` of itself, no row is added or removed, and an unknown id changes nothing. |
| Storage.SyncDatabase.CleanupOldData | src/storage/database.py:356-371 | The log becomes `Pruned` at `now - days`. |
| Storage.SyncDatabase.GetDatabaseStats | src/storage/database.py:373-400 | It returns the three table sizes and the latest start time among completed sessions, or None when there is none. |
| Storage.SyncDatabase.DetectChanges | src/storage/database.py:265-302 | It returns the in-order new and updated events, and the removed ids (snapshot ids minus current ids), each once. |
| Storage.SyncDatabase.GetOrphanedSeriesEvents | src/storage/database.py:304-354 | It returns exactly the orphan ids, each once. |
| Storage.OrphansOfSeries | src/storage/database.py:324-349 | One series round returns exactly that series' orphans, each once. |
| Storage.Classify | src/storage/database.py:284-295 | The loop builds exactly the new and updated lists. |
| Storage.GroupBySeries | src/storage/database.py:308-315 | One group per live series, holding exactly the unique ids its current recurring events produce. |
| Sync.CompletedSessionRow | src/sync/engine.py:126-131 | A successful run's row is completed, stamped `now`, and holds each counter. |
| Sync.CompletedSessionKeeps | src/sync/engine.py:126-131 | A successful run keeps its start time and has no error message. |
| Sync.FailedSessionRow | src/sync/engine.py:136-148 | A failed run's row is failed, holds the message and one error, is stamped `now`, and created nothing. |
| Sync.FailedSessionKeeps | src/sync/engine.py:136-148 | A failed run keeps its start time. |
| Sync.DetectModifiedInstanceCleanups | src/sync/engine.py:328-340 | No cleanup is ever requested, whatever the modified instances. |
| Sync.AsWrittenRunAlwaysFails | src/sync/engine.py:67-68 | As written, step 3 raises for every filtered list, and the session is closed as failed with one error. |
| Sync.ProcessedCountAsWritten | src/sync/engine.py:67-68 | As written, taking the processed count always raises. It is a `len` error exactly when the list has two events, and an unpacking error otherwise. |
| Sync.CreatedMappingsKeys | src/sync/engine.py:178-201 | Creating adds a mapping for exactly the accepted events' keys and leaves all other mappings unchanged. |
| Sync.CreatedMappingAt | src/sync/engine.py:186-195 | The i-th accepted event is mapped, stamped and synced, to the id the i-th successful create got. |
| Sync.CreatedInSync | src/sync/engine.py:178-201 | Every accepted event ends up mapped to a fresh remote event holding its body. |
| Sync.InsertCallsAreInserts | src/sync/engine.py:178-201 | Creating sends nothing but inserts. |
| Sync.DeleteCallsShape | src/sync/engine.py:270-304 | The delete phase sends only deletes, at most one per listed uid, each of a remote id a listed uid is mapped to. |
| Sync.DeleteStep | src/sync/engine.py:274-292 | One round of the delete loop keeps the loop's description of mappings, remote events and requests. |
| Sync.DeletedUidsBound | src/sync/engine.py:270-304 | The deleted count is at most the number of distinct listed uids. |
| Sync.SyncEngine.constructor | src/sync/engine.py:23-33 | The configuration is fixed, the window is in seconds, nothing runs, and there is no current session. |
| Sync.SyncEngine.CreateOne | src/sync/engine.py:183-199 | Succeeds exactly for an accepted event, which is then stored under a fresh id with its mapping. A failure changes nothing but the request log. |
| Sync.SyncEngine.CreatedAreMapped | src/sync/engine.py:178-201 | The state the create loop leaves puts every accepted event in sync. |
| Sync.SyncEngine.CreateEvents | src/sync/engine.py:178-201 | The count is the number of accepted events. The remote events gain exactly their bodies under fresh ids, and the mappings are exactly `CreatedMappings`. The requests are the inserts, in order. |
| Sync.SyncEngine.UpdateOne | src/sync/engine.py:207-266 | With a mapping: one update of the stored id, no create. With a search hit: one update of a hit, no create. With neither: one create. A success writes exactly the event's mapping and puts the event in sync. |
| Sync.SyncEngine.UpdateHit | src/sync/engine.py:238-249 | Updating a search hit succeeds exactly for an accepted event. On success the hit holds the new body and the event's mapping names the hit, stamped and synced. A failure changes only the request log. |
| Sync.SyncEngine.UpdateUnmapped | src/sync/engine.py:232-262 | With no mapping: the search, then an update of the first hit or a create. It succeeds exactly for an accepted event. |
| Sync.SyncEngine.UpdateRound | src/sync/engine.py:207-266 | One round changes only the event's own mapping, removes no mapping, and requests no delete. |
| Sync.SyncEngine.UpdateEvents | src/sync/engine.py:203-268 | The count is at most the number of accepted events. Only the events' own mappings are added or rewritten, nothing is removed, and no delete is requested. |
| Sync.SyncEngine.DeleteOne | src/sync/engine.py:275-302 | With a mapping: one delete, then the mapping goes on success. Without one: no request and no change. |
| Sync.SyncEngine.DeleteEvents | src/sync/engine.py:270-304 | The count is the number of distinct listed uids deleted. Exactly their mappings and remote events go, and snapshots are not touched. The requests are `DeleteCalls`. |
| Sync.SyncEngine.SaveSnapshots | src/sync/engine.py:105-108 | The snapshot table becomes `SaveAll` of the current events. |
| Sync.SyncEngine.ApplyChanges | src/sync/engine.py:86-103 | Creates, then updates, then deletes (none when deletion is disabled). The counts are bounded by the list sizes, and a mapping only disappears for a listed uid. |
| Sync.SyncEngine.RunPhases | src/sync/engine.py:70-108 | The delete list covers exactly the removed ids and the orphans. Processed is the number of current events. A dry run changes nothing. Otherwise the phases run in order and the snapshots become `SaveAll`. |
| Sync.SyncEngine.RunSteps | src/sync/engine.py:70-109 | Processed is the number of current events, with no errors. A dry run counts nothing and changes nothing. Otherwise created is the number of accepted new events, updated and deleted are bounded by their lists, and the snapshots become `SaveAll`. Deleted is 0 when deletion is disabled. (with src/sync/engine.py:67-68 corrected; see Findings) |
| Sync.SyncEngine.ExpandWindow | src/sync/engine.py:58-67 | The window runs from `lookbehind` before `now` to `lookahead` after it. |
| Sync.SyncEngine.Prepare | src/sync/engine.py:51-67 | Outside a dry run, authentication then the calendar lookup. Then the window's events. It succeeds exactly when the service steps succeed (or the run is dry) and the feed was fetched. The window filter never fails it. (with src/sync/engine.py:67-68 corrected; see Findings) |
| Sync.SyncEngine.SyncSteps | src/sync/engine.py:51-134 | It succeeds exactly when preparation does. Processed is the number of window events. Created is the number of accepted new events, and updated and deleted are bounded by their lists. The snapshots become `SaveAll` of the window events. A failure or a dry run leaves the calendar, mappings and snapshots unchanged. (with src/sync/engine.py:67-68 corrected; see Findings) |
| Sync.SyncEngine.OpenSession | src/sync/engine.py:39-41 | A fresh running row is named by `current_session_id`. |
| Sync.SyncEngine.CloseSession | src/sync/engine.py:126-152 | The row is updated with the closing arguments, and `current_session_id` is cleared. |
| Sync.SyncEngine.SyncOnce | src/sync/engine.py:35-152 | Exactly one new session row, closed as completed or failed, and `current_session_id` cleared. The run succeeds exactly when preparation does. A dry run requests nothing. A failure or a dry run writes no mapping, snapshot or remote event. (with src/sync/engine.py:67-68 corrected; see Findings) |

## Left out

- The HTTP and OAuth layer of the calendar client (token files, service accounts, `list_events`, `batch_create_events`) is not modelled. `RemoteCalendar` stands for the service.
  - Which inserts and updates it rejects, which deletes it refuses with an error other than 404, and whether search and authentication work are fixed per calendar rather than per call.
  - An update of an unknown id is a 404, which the client raises.
- SQLite connections, DDL, indexes, JSON serialisation, `backup_database`, `get_all_event_snapshots`, `get_all_event_mappings` and `get_sync_history` are not modelled. The tables are maps, and a snapshot stores the event value itself. Storage errors are not modelled.
- `datetime.now()` is replaced by the `now` parameter. Ordering session start times compares integers, not ISO strings.
- MD5 is not modelled. The fingerprint is the hashed field tuple itself, a collision-free hash.
- Fetching with retries, `Calendar.from_ical` and `calendar.walk()` are not modelled. The walked components are an input, and None stands for a fetch or parse that raised.
- `expand_recurring_events` is not called by the sync path. Only its fingerprint recomputation after substituting an occurrence is modelled (`Events.WithOccurrence`); the `recurring_ical_events` expansion is not.
- Time zones are names only. Relabelling a naive start with Asia/Taipei keeps its instant, and no offset arithmetic is modelled.
- `_safe_serialize_datetime` is not modelled. A RECURRENCE-ID is carried in its serialised form.
- The regular expressions of `_convert_vrecur_to_rrule` are not modelled. The builder works on the fields they extract, with `int()` failures given as None. The `to_ical` branch is not modelled.
- `start_continuous_sync` and `stop_continuous_sync` (sleeps and an external stop flag) are not modelled. `isRunning` is only initialised.
- The dry-run preview logging, all other logging, `get_sync_status`, and the unused `force` flag are not modelled.
- The Python exception texts recorded as `error_message` are placeholders, and the re-raise after a failed session is the `Err` result.
- The feed's second list (modified instances) is taken from the parsed components. Only `_detect_modified_instance_cleanups` reads it, and that always returns an empty list.
- Sync.SyncEngine.UpdateEvents: states the count bound, the mapping frame and the absence of deletes. It does not state the remote events or the exact requests; the per-event effect is stated on `Sync.SyncEngine.UpdateOne`.
- Sync.SyncEngine.RunSteps: does not restate the order of the requests. That is stated on `Sync.SyncEngine.RunPhases`. The snapshots always become `SaveAll`: the snapshot-save failure below is not modelled.
- Storage.SyncDatabase.SaveEventSnapshot: never fails. In the source, `to_dict` calls `isoformat()` on the raw LAST-MODIFIED property (src/parsers/ics_parser.py:178), a wrapper that the same class otherwise reads through `.dt` (src/parsers/ics_parser.py:199-200). For an event carrying LAST-MODIFIED this raises. LAST-MODIFIED is not part of the model's `EventData`.
- Sync.SyncEngine.SaveSnapshots: the loop always completes. In the source it stops at the first event carrying LAST-MODIFIED, and the later snapshots are not saved, so those events are new again on the next run.
- Sync.SyncEngine.RunPhases: the snapshots always become `SaveAll` of the current events, which does not cover the snapshot-save failure above.
- Sync.SyncEngine.SyncSteps: "succeeds exactly when preparation does" does not cover the snapshot-save failure above. In the source it comes after the create, update and delete phases, so the calendar and mappings have already changed, and the failed session row records the counters reached so far.
- Sync.SyncEngine.SyncOnce: inherits the `SyncSteps` gap for the snapshot-save failure. It also does not restate the created, updated and deleted counters. Their meaning is stated on `Sync.SyncEngine.SyncSteps`, which it runs between opening and closing the session.
- GoogleCalendar.RemoteCalendar.FindEventsByOriginalUid: with more than 100 matches, which 100 come back is not stated, because the service's order is not modelled.
- Storage.SyncDatabase.UpdateSyncSession: the per-column effect is stated on `Storage.SessionUpdateEffect`, for keyword arguments with distinct names (as a Python call has).
- Events.FingerprintSeesHashedFields: the model's fingerprint tells apart more events than the source's. The source hashes a `|`-joined text of `str()` values, which is not injective. A `|` inside the title or the description can shift text from one field to the next. `str(datetime)` prints the UTC offset, not the zone name, so moving an event between two zones with the same offset leaves the source's fingerprint unchanged. The model sees such an event as updated.
- GoogleCalendar.ConvertStatus: `upper()` is modelled for ASCII letters only (`Strings.ToUpper`). A status that matches a keyword only after Unicode case mapping, such as "tentatıve" with a dotless ı, is mapped to "confirmed" here and to "tentative" by Python.
- GoogleCalendar.ConvertAttendeeStatus: the same ASCII-only `upper()` as `ConvertStatus`.
- GoogleCalendar.FixRRuleForGoogle: the keyword tests run on the ASCII-only `upper()`. A rule text containing a non-ASCII letter that Python upper-cases to ASCII, such as "ſ" (long s) in "X-ſKIP", passes here but is rejected by Python.
- Storage.NewEvents: its own contract states only the length bound. Membership is stated on `Storage.ClassificationIsExact`.
- Storage.UpdatedEvents: its own contract states only the length bound. Membership is stated on `Storage.ClassificationIsExact`.
- Events.ProcessContent: the length bound on the description is stated on `Events.LimitedDescription`.

## Findings

| source | as written | input that shows it | evidently intended | confidence | as-written member | corrected member |
|---|---|---|---|---|---|---|
| src/parsers/ics_parser.py:67 | The all-day test is `hasattr(dt, 'date') and not hasattr(dt, 'hour')`. A `date` has no `date` member and a `datetime` has an `hour`, so the test never holds and every start takes the timed branch. | A VEVENT with `DTSTART;VALUE=DATE:20240101`. Reading `tzinfo` of the `date` at line 89 raises AttributeError, and `parse_ics_content` drops the event (lines 268-270). | A date start is an all-day event, kept as a date, ending on the next day by default. | not executed | Events.DateStartIsDropped | Events.IntendedTimeInfo |
| src/sync/engine.py:67-68 | `parse_and_expand` returns one list. It is unpacked into `current_events, modified_instances`, and `len` is taken of the first. | Any window: a list of two events unpacks, but `len(EventData)` raises a TypeError. Any other length raises a ValueError on unpacking. Every non-failing run therefore fails at step 3. | The current events are the filtered list, the modified instances are the parser's second list, and `events_processed` is the number of current events. | not executed | Sync.AsWrittenRunAlwaysFails | Sync.SyncEngine.SyncSteps |
