/** One calendar event as the synchronizer sees it after parsing a VEVENT:
    its content fields after prefix/suffix processing, its start and end
    instants with the default-end rules, its identity (unique event id and
    series id) and its change-detection fingerprint.
    Models `EventData` in src/parsers/ics_parser.py. */
module Events {
  import opened Common
  import opened Strings

  const SecondsPerDay: int := 86400
  const SecondsPerHour: int := 3600
  /** The zone assumed for a timed DTSTART without zone information. */
  const DefaultTimezone: string := "Asia/Taipei"

  /** A DTSTART/DTEND/occurrence value: a calendar date (all-day) or an
      instant in seconds with the name of its zone ("" when naive). */
  datatype Time = Date(day: int) | DateTime(instant: int, tz: string)

  /** A RECURRENCE-ID value, carried in its serialised (ISO 8601) form; the
      serialisation is therefore the identity and trivially injective. */
  type Anchor = string

  /** What the RRULE converter's regular expressions extract from the text of
      a vRecur object: FREQ, INTERVAL, a single BYDAY, BYMONTHDAY, and the
      arguments of the UNTIL datetime (each the result of `int()` on one
      comma-separated argument, None where `int()` raises). */
  datatype VRecurFields = VRecurFields(
    freq: Option<string>,
    interval: Option<string>,
    byday: Option<string>,
    bymonthday: Option<string>,
    until: Option<seq<Option<int>>>)

  /** An RRULE property: the text `str(rrule)` and the fields extracted from it. */
  datatype RRule = RRule(text: string, fields: VRecurFields)

  /** An ATTENDEE property: its value and its CN, ROLE and PARTSTAT parameters. */
  datatype RawAttendee = RawAttendee(address: string, cn: Option<string>, role: Option<string>, partstat: Option<string>)

  datatype Attendee = Attendee(email: string, name: string, role: string, status: string)

  /** A VEVENT component as read through `vevent.get(...)`: None where the
      property is absent. DURATION is in seconds. */
  datatype VEvent = VEvent(
    uid: Option<string>,
    sequence: Option<int>,
    summary: Option<string>,
    description: Option<string>,
    location: Option<string>,
    status: Option<string>,
    dtstart: Option<Time>,
    dtend: Option<Time>,
    duration: Option<int>,
    rrule: Option<RRule>,
    rdate: Option<string>,
    exdate: seq<string>,
    recurrenceId: Option<Anchor>,
    attendees: seq<RawAttendee>)

  /** The `processing` section of the configuration. */
  datatype ProcessingConfig = ProcessingConfig(eventPrefix: string, descriptionSuffix: string, maxDescriptionLength: int)

  /** The change-detection fingerprint. The source hashes the text
      `uid|sequence|summary|description|location|start|end|rrule|status`
      (plus `|recurrence_id` when present) with MD5; the model keeps the field
      tuple itself, i.e. a hash without collisions. */
  datatype Fingerprint = Fingerprint(
    uid: string,
    sequence: int,
    summary: string,
    description: string,
    location: string,
    start: Time,
    end: Time,
    rrule: Option<string>,
    status: string,
    recurrenceId: Option<Anchor>)

  datatype EventData = EventData(
    uid: string,
    sequence: int,
    summary: string,
    description: string,
    location: string,
    status: string,
    start: Time,
    end: Time,
    allDay: bool,
    rrule: Option<RRule>,
    rdate: Option<string>,
    exdate: seq<string>,
    recurrenceId: Option<Anchor>,
    attendees: seq<Attendee>,
    fingerprint: Fingerprint)

  /** The three shapes an event can take. */
  datatype Kind = Plain | SeriesRoot | Override(anchor: Anchor)

  // ---------------------------------------------------------------------
  // Time information (_process_time_info)

  /** Python's `t + timedelta(seconds=s)`: a date moves by whole days only
      (the timedelta's floored `days`), a datetime by the exact seconds. */
  function Shift(t: Time, seconds: int): Time {
    match t
    case Date(d) => Date(d + seconds / SecondsPerDay)
    case DateTime(i, tz) => DateTime(i + seconds, tz)
  }

  /** `t` lies strictly after `u` (both of the same kind). */
  predicate After(t: Time, u: Time) {
    match (t, u)
    case (Date(a), Date(b)) => a > b
    case (DateTime(a, _), DateTime(b, _)) => a > b
    case _ => false
  }

  /** The end of an event: DTEND when present, else DTSTART plus DURATION
      (any DURATION property, a zero one included, since the condition looks
      at the property object, not at the length it holds), else one day after
      a date start or one hour after a timed start. */
  function EndTime(start: Time, dtend: Option<Time>, duration: Option<int>): (r: Time)
    ensures dtend.Some? ==> r == dtend.value
    ensures dtend.None? && duration.Some? ==> r == Shift(start, duration.value)
    ensures dtend.None? && duration == Some(0) ==> r == start
    ensures dtend.None? && duration.None? ==> After(r, start) && (r.Date? <==> start.Date?)
    ensures dtend.None? && duration.None? && start.Date? ==> r == Date(start.day + 1)
    ensures dtend.None? && duration.None? && start.DateTime? ==>
              r == DateTime(start.instant + SecondsPerHour, start.tz)
  {
    if dtend.Some? then dtend.value
    else if duration.Some? then Shift(start, duration.value)
    else if start.Date? then Shift(start, SecondsPerDay)
    else Shift(start, SecondsPerHour)
  }

  datatype TimeInfo = TimeInfo(allDay: bool, start: Time, end: Time)

  /** Python's `hasattr(t, 'date')`: a `datetime` has a `date` method, a
      `date` has no such member. */
  predicate HasDateMember(t: Time) {
    t.DateTime?
  }

  /** Python's `hasattr(t, 'hour')`: only a `datetime` has an hour. */
  predicate HasHourMember(t: Time) {
    t.DateTime?
  }

  /** The all-day test of `_process_time_info` as written: a value with a
      `date` member and no `hour` member. */
  predicate AllDayTest(t: Time) {
    HasDateMember(t) && !HasHourMember(t)
  }

  /** `_process_time_info` for a present DTSTART, as written. The all-day
      test holds for no value, so every start takes the timed path: the end
      default is computed, and a start without a zone is relabelled, with its
      end, to the default zone. Reading `tzinfo` of a date start raises, and
      so does relabelling a date-valued end; either makes the whole event
      fail to build: None. */
  function ProcessTimeInfo(dtstart: Time, dtend: Option<Time>, duration: Option<int>): (r: Option<TimeInfo>)
    ensures r.None? <==> dtstart.Date? || (dtstart.tz == "" && EndTime(dtstart, dtend, duration).Date?)
    ensures r.Some? ==> !r.value.allDay
    ensures r.Some? ==> r.value.start.DateTime? && r.value.start.tz != "" && r.value.start.instant == dtstart.instant
    ensures r.Some? && dtstart.DateTime? && dtstart.tz != "" ==>
              r.value.start == dtstart && r.value.end == EndTime(dtstart, dtend, duration)
    ensures r.Some? && dtstart.DateTime? && dtstart.tz == "" ==>
              r.value.end == DateTime(EndTime(dtstart, dtend, duration).instant, DefaultTimezone)
  {
    var end := EndTime(dtstart, dtend, duration);
    if AllDayTest(dtstart) then Some(TimeInfo(true, dtstart, end))
    else match dtstart
      case Date(_) => None
      case DateTime(i, tz) =>
        if tz != "" then Some(TimeInfo(false, dtstart, end))
        else match end
          case Date(_) => None
          case DateTime(j, _) => Some(TimeInfo(false, DateTime(i, DefaultTimezone), DateTime(j, DefaultTimezone)))
  }

  /** `_process_time_info` as its all-day branch intends it: a date start is
      an all-day event whose start and end are kept as dates; timed starts
      are handled as above. */
  function IntendedTimeInfo(dtstart: Time, dtend: Option<Time>, duration: Option<int>): (r: Option<TimeInfo>)
    ensures r.None? <==> dtstart.DateTime? && dtstart.tz == "" && EndTime(dtstart, dtend, duration).Date?
    ensures r.Some? ==> r.value.allDay == dtstart.Date?
    ensures r.Some? && dtstart.Date? ==> r.value.start == dtstart && r.value.end == EndTime(dtstart, dtend, duration)
    ensures dtstart.DateTime? ==> r == ProcessTimeInfo(dtstart, dtend, duration)
  {
    if dtstart.Date? then Some(TimeInfo(true, dtstart, EndTime(dtstart, dtend, duration)))
    else ProcessTimeInfo(dtstart, dtend, duration)
  }

  /** As written, an event starting on a date is lost: the all-day test
      fails for it, and the timed path raises on its missing `tzinfo`,
      where the intended all-day branch would have built it. */
  lemma DateStartIsDropped(d: int, dtend: Option<Time>, duration: Option<int>)
    ensures !AllDayTest(Date(d))
    ensures ProcessTimeInfo(Date(d), dtend, duration).None?
    ensures IntendedTimeInfo(Date(d), dtend, duration).Some?
    ensures IntendedTimeInfo(Date(d), dtend, duration).value.allDay
  {
  }

  /** In the intended all-day branch, a DURATION shorter than a day leaves
      the event ending on its start date (date arithmetic drops the sub-day
      part). */
  lemma SubDayDurationOnDate(d: int, seconds: int)
    requires 0 <= seconds < SecondsPerDay
    ensures IntendedTimeInfo(Date(d), None, Some(seconds)) == Some(TimeInfo(true, Date(d), Date(d)))
  {
  }

  // ---------------------------------------------------------------------
  // Content (_process_content)

  /** The title gets the configured prefix unless it already starts with it. */
  function PrefixedSummary(summary: string, prefix: string): (r: string)
    ensures StartsWith(r, prefix)
    ensures StartsWith(summary, prefix) ==> r == summary
    ensures |summary| <= |r| && r[|r| - |summary|..] == summary
  {
    if StartsWith(summary, prefix) then summary else prefix + summary
  }

  /** Prefixing is idempotent: processing a processed title changes nothing. */
  lemma PrefixIdempotent(summary: string, prefix: string)
    ensures PrefixedSummary(PrefixedSummary(summary, prefix), prefix) == PrefixedSummary(summary, prefix)
  {
  }

  /** A non-empty suffix is appended to a non-empty description and replaces
      an empty one, stripped; an empty suffix changes nothing. */
  function SuffixedDescription(description: string, suffix: string): (r: string)
    ensures suffix == "" ==> r == description
    ensures suffix != "" && description != "" ==> StartsWith(r, description) && r[|description|..] == suffix
    ensures suffix != "" && description == "" ==> r == Strip(suffix)
  {
    if suffix != "" then
      if description != "" then description + suffix else Strip(suffix)
    else description
  }

  /** Python's `s[:k]`: a negative bound counts from the end. */
  function SliceTo(s: string, k: int): (r: string)
    ensures 0 <= k <= |s| ==> r == s[..k]
    ensures |r| <= |s| && r == s[..|r|]
  {
    if k >= 0 then s[..if k <= |s| then k else |s|]
    else s[..if |s| + k >= 0 then |s| + k else 0]
  }

  /** A description longer than the limit is cut to `limit - 3` characters
      followed by "...". */
  function LimitedDescription(description: string, limit: int): (r: string)
    ensures |description| <= limit ==> r == description
    ensures limit >= 3 ==> |r| <= limit
    ensures limit >= 3 && |description| > limit ==>
              |r| == limit && r[..limit - 3] == description[..limit - 3] && r[limit - 3..] == "..."
  {
    if |description| > limit then SliceTo(description, limit - 3) + "..." else description
  }

  /** With a limit below 3 the cut text is longer than the limit: Python's
      negative slice bound counts from the end and "..." is still appended. */
  lemma TinyLimitOverflows()
    ensures LimitedDescription("abcd", 0) == "a..."
  {
    assert SliceTo("abcd", -3) == "a";
  }

  /** `_process_content`, which rewrites the title and the description in
      place, in the order the source does it. */
  method ProcessContent(summary: string, description: string, config: ProcessingConfig)
    returns (newSummary: string, newDescription: string)
    ensures StartsWith(newSummary, config.eventPrefix)
    ensures newSummary == PrefixedSummary(summary, config.eventPrefix)
    ensures newDescription == LimitedDescription(SuffixedDescription(description, config.descriptionSuffix), config.maxDescriptionLength)
  {
    newSummary, newDescription := summary, description;
    if !StartsWith(newSummary, config.eventPrefix) {
      newSummary := config.eventPrefix + newSummary;
    }
    if config.descriptionSuffix != "" {
      if newDescription != "" {
        newDescription := newDescription + config.descriptionSuffix;
      } else {
        newDescription := Strip(config.descriptionSuffix);
      }
    }
    if |newDescription| > config.maxDescriptionLength {
      newDescription := SliceTo(newDescription, config.maxDescriptionLength - 3) + "...";
    }
  }

  // ---------------------------------------------------------------------
  // Fingerprint

  function RRuleText(rrule: Option<RRule>): Option<string> {
    match rrule
    case Some(r) => Some(r.text)
    case None => None
  }

  /** `_calculate_fingerprint` over the event's current fields. */
  function FingerprintOf(e: EventData): Fingerprint {
    Fingerprint(e.uid, e.sequence, e.summary, e.description, e.location, e.start, e.end,
                RRuleText(e.rrule), e.status, e.recurrenceId)
  }

  /** The stored fingerprint matches the event's current fields. */
  predicate FingerprintCurrent(e: EventData) {
    e.fingerprint == FingerprintOf(e)
  }

  /** Events that agree on the hashed fields get the same fingerprint, so a
      change confined to the attendees, EXDATE, RDATE or the all-day flag is
      invisible to change detection. */
  lemma FingerprintIgnoresUnhashedFields(e1: EventData, e2: EventData)
    requires e1.uid == e2.uid && e1.sequence == e2.sequence && e1.summary == e2.summary
    requires e1.description == e2.description && e1.location == e2.location
    requires e1.start == e2.start && e1.end == e2.end && RRuleText(e1.rrule) == RRuleText(e2.rrule)
    requires e1.status == e2.status && e1.recurrenceId == e2.recurrenceId
    ensures FingerprintOf(e1) == FingerprintOf(e2)
  {
  }

  /** Any change to a hashed field changes the fingerprint (the model's hash
      has no collisions). */
  lemma FingerprintSeesHashedFields(e1: EventData, e2: EventData)
    requires FingerprintOf(e1) == FingerprintOf(e2)
    ensures e1.uid == e2.uid && e1.sequence == e2.sequence && e1.summary == e2.summary
    ensures e1.description == e2.description && e1.location == e2.location
    ensures e1.start == e2.start && e1.end == e2.end && e1.status == e2.status
    ensures e1.recurrenceId == e2.recurrenceId
  {
  }

  /** Substituting an occurrence's concrete start and end (recurring
      expansion) and recomputing the fingerprint. */
  function WithOccurrence(e: EventData, start: Time, end: Time): (r: EventData)
    ensures FingerprintCurrent(r)
    ensures r.start == start && r.end == end
    ensures r.(start := e.start, end := e.end, fingerprint := e.fingerprint) == e
  {
    var moved := e.(start := start, end := end);
    moved.(fingerprint := FingerprintOf(moved))
  }

  /** Occurrences of one series placed at different times get different
      fingerprints, since each occurrence's own start and end are hashed. */
  lemma OccurrenceFingerprintsDiffer(e: EventData, s1: Time, e1: Time, s2: Time, e2: Time)
    requires s1 != s2 || e1 != e2
    ensures WithOccurrence(e, s1, e1).fingerprint != WithOccurrence(e, s2, e2).fingerprint
  {
  }

  // ---------------------------------------------------------------------
  // Identity

  /** `is_recurring`: the event has RRULE or RDATE. */
  predicate IsRecurring(e: EventData) {
    e.rrule.Some? || e.rdate.Some?
  }

  /** `is_modified_instance`: the event carries a RECURRENCE-ID. */
  predicate IsModifiedInstance(e: EventData) {
    e.recurrenceId.Some?
  }

  /** The event's shape: an override when it carries a RECURRENCE-ID, a
      series root when it carries RRULE or RDATE, plain otherwise. */
  function KindOf(e: EventData): (k: Kind)
    ensures k.Override? <==> IsModifiedInstance(e)
    ensures k.SeriesRoot? <==> IsRecurring(e) && !IsModifiedInstance(e)
    ensures k.Plain? <==> !IsRecurring(e) && !IsModifiedInstance(e)
  {
    if e.recurrenceId.Some? then Override(e.recurrenceId.value)
    else if IsRecurring(e) then SeriesRoot
    else Plain
  }

  /** `get_unique_event_id`, following the source's tests in order; its
      contract is the same id stated over the event's kind. */
  function GetUniqueEventId(e: EventData): (r: string)
    ensures r == match KindOf(e)
                 case Override(a) => e.uid + "_RECUR_" + a
                 case SeriesRoot => e.uid
                 case Plain => e.uid
    ensures StartsWith(r, e.uid)
  {
    if IsModifiedInstance(e) && e.recurrenceId.Some? then e.uid + "_RECUR_" + e.recurrenceId.value
    else if IsRecurring(e) then e.uid
    else e.uid
  }

  /** `get_series_id`: the uid whether or not the event recurs. */
  function GetSeriesId(e: EventData): (r: string)
    ensures r == e.uid
    ensures !IsModifiedInstance(e) ==> r == GetUniqueEventId(e)
  {
    if IsRecurring(e) then e.uid else e.uid
  }

  /** Two overrides of one series have distinct ids exactly when their
      anchors differ. */
  lemma OverrideIdsDistinct(e1: EventData, e2: EventData)
    requires IsModifiedInstance(e1) && IsModifiedInstance(e2) && e1.uid == e2.uid
    ensures GetUniqueEventId(e1) == GetUniqueEventId(e2) <==> e1.recurrenceId == e2.recurrenceId
  {
    var p := e1.uid + "_RECUR_";
    if GetUniqueEventId(e1) == GetUniqueEventId(e2) {
      assert e1.recurrenceId.value == GetUniqueEventId(e1)[|p|..];
      assert e2.recurrenceId.value == GetUniqueEventId(e2)[|p|..];
    }
  }

  /** An override never takes the id of its series root. */
  lemma OverrideIdDiffersFromRoot(o: EventData, root: EventData)
    requires IsModifiedInstance(o) && !IsModifiedInstance(root) && o.uid == root.uid
    ensures GetUniqueEventId(o) != GetUniqueEventId(root)
  {
  }

  // ---------------------------------------------------------------------
  // Construction (EventData.__init__)

  function AttendeeOf(a: RawAttendee): Attendee {
    Attendee(a.address, a.cn.GetOr(""), a.role.GetOr("REQ-PARTICIPANT"), a.partstat.GetOr("NEEDS-ACTION"))
  }

  function AttendeesOf(raw: seq<RawAttendee>): (r: seq<Attendee>)
    ensures |r| == |raw| && forall i :: 0 <= i < |raw| ==> r[i] == AttendeeOf(raw[i])
  {
    seq(|raw|, i requires 0 <= i < |raw| => AttendeeOf(raw[i]))
  }

  /** The event built from a VEVENT, or None where the constructor raises:
      without DTSTART no start is ever assigned and the fingerprint step
      fails, a date start fails on its missing `tzinfo`, and a naive timed
      start with a date-valued end fails while relabelling the zone. */
  function EventDataOf(v: VEvent, config: ProcessingConfig): (r: Option<EventData>)
    ensures r.None? <==> v.dtstart.None? || ProcessTimeInfo(v.dtstart.value, v.dtend, v.duration).None?
    ensures r.Some? ==> FingerprintCurrent(r.value)
    ensures r.Some? ==> StartsWith(r.value.summary, config.eventPrefix)
    ensures r.Some? ==> r.value.uid == v.uid.GetOr("") && r.value.sequence == v.sequence.GetOr(0)
    ensures r.Some? ==> r.value.status == v.status.GetOr("CONFIRMED")
    ensures r.Some? ==> r.value.rrule == v.rrule && r.value.rdate == v.rdate && r.value.recurrenceId == v.recurrenceId
    ensures v.dtstart.Some? && v.dtstart.value.Date? ==> r.None?
    ensures r.Some? ==> !r.value.allDay && r.value.start.DateTime? && r.value.start.tz != ""
  {
    if v.dtstart.None? then None
    else match ProcessTimeInfo(v.dtstart.value, v.dtend, v.duration)
      case None => None
      case Some(ti) =>
        var summary := PrefixedSummary(v.summary.GetOr(""), config.eventPrefix);
        var description := LimitedDescription(SuffixedDescription(v.description.GetOr(""), config.descriptionSuffix),
                                              config.maxDescriptionLength);
        var e := EventData(v.uid.GetOr(""), v.sequence.GetOr(0), summary, description, v.location.GetOr(""),
                           v.status.GetOr("CONFIRMED"), ti.start, ti.end, ti.allDay, v.rrule, v.rdate, v.exdate,
                           v.recurrenceId, AttendeesOf(v.attendees),
                           Fingerprint("", 0, "", "", "", ti.start, ti.end, None, "", None));
        Some(e.(fingerprint := FingerprintOf(e)))
  }

  /** The constructor as the source runs it: fields assigned one by one, the
      content rewritten, the fingerprint computed last. */
  method NewEventData(v: VEvent, config: ProcessingConfig) returns (r: Option<EventData>)
    ensures r == EventDataOf(v, config)
  {
    if v.dtstart.None? {
      return None;
    }
    var info := ProcessTimeInfo(v.dtstart.value, v.dtend, v.duration);
    if info.None? {
      return None;
    }
    var summary, description := ProcessContent(v.summary.GetOr(""), v.description.GetOr(""), config);
    var e := EventData(v.uid.GetOr(""), v.sequence.GetOr(0), summary, description, v.location.GetOr(""),
                       v.status.GetOr("CONFIRMED"), info.value.start, info.value.end, info.value.allDay,
                       v.rrule, v.rdate, v.exdate, v.recurrenceId, AttendeesOf(v.attendees),
                       Fingerprint("", 0, "", "", "", info.value.start, info.value.end, None, "", None));
    e := e.(fingerprint := FingerprintOf(e));
    r := Some(e);
  }
}
