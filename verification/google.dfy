/** The outgoing side of the synchronizer (src/clients/google_calendar.py):
    the status maps, the RRULE sanitiser, the vRecur-to-RRULE builder, the
    shape of the event body sent to the calendar service, and the calendar
    service itself as an abstract store of events with a log of the calls
    made to it. */
module GoogleCalendar {
  import opened Common
  import opened Strings
  import opened Events

  // ---------------------------------------------------------------------
  // Status maps
  // ---------------------------------------------------------------------

  /** `_convert_status`: the three iCalendar statuses, in any letter case, to
      their lower-case forms; anything else to "confirmed". */
  function ConvertStatus(icsStatus: string): (r: string)
    ensures r == "tentative" <==> ToUpper(icsStatus) == "TENTATIVE"
    ensures r == "cancelled" <==> ToUpper(icsStatus) == "CANCELLED"
    ensures r == "confirmed" <==> ToUpper(icsStatus) != "TENTATIVE" && ToUpper(icsStatus) != "CANCELLED"
  {
    var key := ToUpper(icsStatus);
    if key == "CONFIRMED" then "confirmed"
    else if key == "TENTATIVE" then "tentative"
    else if key == "CANCELLED" then "cancelled"
    else "confirmed"
  }

  /** `_convert_attendee_status`: participation statuses to the service's
      response statuses; anything unknown means no answer yet. */
  function ConvertAttendeeStatus(icsStatus: string): (r: string)
    ensures r == "accepted" <==> ToUpper(icsStatus) == "ACCEPTED"
    ensures r == "declined" <==> ToUpper(icsStatus) == "DECLINED"
    ensures r == "tentative" <==> ToUpper(icsStatus) == "TENTATIVE"
    ensures r == "needsAction" <==>
              ToUpper(icsStatus) !in {"ACCEPTED", "DECLINED", "TENTATIVE"}
  {
    var key := ToUpper(icsStatus);
    if key == "ACCEPTED" then "accepted"
    else if key == "DECLINED" then "declined"
    else if key == "TENTATIVE" then "tentative"
    else if key == "NEEDS-ACTION" then "needsAction"
    else "needsAction"
  }

  /** Both maps look only at the upper-cased status, so feeding them an
      already upper-cased status changes nothing. */
  lemma StatusMapsIgnoreCase(s: string)
    ensures ConvertStatus(ToUpper(s)) == ConvertStatus(s)
    ensures ConvertAttendeeStatus(ToUpper(s)) == ConvertAttendeeStatus(s)
  {
    ToUpperIdempotent(s);
  }

  // ---------------------------------------------------------------------
  // vRecur to RRULE
  // ---------------------------------------------------------------------

  /** `f"{year:04d}{month:02d}{day:02d}T{hour:02d}{minute:02d}00Z"`. */
  function UntilString(year: int, month: int, day: int, hour: int, minute: int): string {
    ZeroPad(year, 4) + ZeroPad(month, 2) + ZeroPad(day, 2) + "T" + ZeroPad(hour, 2) + ZeroPad(minute, 2) + "00Z"
  }

  /** A field of digits only, reading back as `n`. */
  predicate DigitField(s: string, n: int) {
    (forall i :: 0 <= i < |s| ==> IsDigit(s[i])) && ParseDigits(s) == n
  }

  /** For in-range components the UNTIL value is the 16-character UTC form
      `YYYYMMDDTHHMM00Z`, and each component reads back from its own digits. */
  lemma UntilStringShape(year: int, month: int, day: int, hour: int, minute: int)
    requires 0 <= year < 10000 && 0 <= month < 100 && 0 <= day < 100 && 0 <= hour < 100 && 0 <= minute < 100
    ensures var s := UntilString(year, month, day, hour, minute);
            |s| == 16 && s[8] == 'T' && s[13..] == "00Z" &&
            DigitField(s[..4], year) && DigitField(s[4..6], month) && DigitField(s[6..8], day) &&
            DigitField(s[9..11], hour) && DigitField(s[11..13], minute)
  {
    assert Pow10(4) == 10000 && Pow10(2) == 100;
    ZeroPadExact(year, 4);
    ZeroPadExact(month, 2);
    ZeroPadExact(day, 2);
    ZeroPadExact(hour, 2);
    ZeroPadExact(minute, 2);
    UntilLayout(ZeroPad(year, 4), ZeroPad(month, 2), ZeroPad(day, 2), ZeroPad(hour, 2), ZeroPad(minute, 2));
  }

  /** Where each field sits in the UNTIL value. */
  lemma UntilLayout(y: string, mo: string, d: string, h: string, mi: string)
    requires |y| == 4 && |mo| == 2 && |d| == 2 && |h| == 2 && |mi| == 2
    requires forall i :: 0 <= i < 4 ==> IsDigit(y[i])
    requires forall i :: 0 <= i < 2 ==> IsDigit(mo[i]) && IsDigit(d[i]) && IsDigit(h[i]) && IsDigit(mi[i])
    ensures var s := y + mo + d + "T" + h + mi + "00Z";
            |s| == 16 && s[..4] == y && s[4..6] == mo && s[6..8] == d && s[8] == 'T' &&
            s[9..11] == h && s[11..13] == mi && s[13..] == "00Z" &&
            (forall i :: 0 <= i < 8 ==> IsDigit(s[i])) &&
            (forall i :: 9 <= i < 13 ==> IsDigit(s[i]))
  {
  }

  /** The UNTIL value, when the datetime arguments hold at least five
      components and the first five are integers; otherwise (a short list or
      an `int()` that raises) UNTIL is skipped. */
  function UntilOf(until: Option<seq<Option<int>>>): (r: Option<string>)
    ensures r.Some? <==> until.Some? && |until.value| >= 5 && forall i :: 0 <= i < 5 ==> until.value[i].Some?
  {
    if until.Some? && |until.value| >= 5 && forall i :: 0 <= i < 5 ==> until.value[i].Some? then
      var a := until.value;
      Some(UntilString(a[0].value, a[1].value, a[2].value, a[3].value, a[4].value))
    else None
  }

  /** The RRULE parts `_convert_vrecur_to_rrule` collects, in its order. */
  function RRuleParts(f: VRecurFields): (r: seq<string>)
    requires f.freq.Some?
    ensures 1 <= |r| <= 5 && r[0] == "FREQ=" + f.freq.value
    ensures UntilOf(f.until).Some? ==> r[|r| - 1] == "UNTIL=" + UntilOf(f.until).value
  {
    ["FREQ=" + f.freq.value]
    + (if f.interval.Some? then ["INTERVAL=" + f.interval.value] else [])
    + (if f.byday.Some? then ["BYDAY=" + f.byday.value] else [])
    + (if f.bymonthday.Some? then ["BYMONTHDAY=" + f.bymonthday.value] else [])
    + (if UntilOf(f.until).Some? then ["UNTIL=" + UntilOf(f.until).value] else [])
  }

  /** What `_convert_vrecur_to_rrule` returns on the string form of a vRecur:
      None without FREQ, otherwise the `;`-joined parts. */
  function VRecurToRRule(f: VRecurFields): (r: Option<string>)
    ensures r.None? <==> f.freq.None?
  {
    if f.freq.None? then None else Some(Join(RRuleParts(f), ";"))
  }

  /** A joined list starts with its first element. */
  lemma {:induction false} JoinStartsWithFirst(parts: seq<string>, sep: string)
    requires |parts| >= 1
    ensures StartsWith(Join(parts, sep), parts[0])
  {
    if |parts| > 1 {
      JoinStartsWithFirst(parts[..|parts| - 1], sep);
      var init := Join(parts[..|parts| - 1], sep);
      assert (init + sep + parts[|parts| - 1])[..|parts[0]|] == init[..|parts[0]|];
    }
  }

  /** Every built rule leads with its frequency. */
  lemma VRecurRuleStartsWithFreq(f: VRecurFields)
    requires f.freq.Some?
    ensures StartsWith(VRecurToRRule(f).value, "FREQ=" + f.freq.value)
  {
    JoinStartsWithFirst(RRuleParts(f), ";");
  }

  /** `_convert_vrecur_to_rrule` as the source builds it: a list of parts
      appended one field at a time, then joined. */
  method ConvertVRecurToRRule(f: VRecurFields) returns (r: Option<string>)
    ensures r == VRecurToRRule(f)
  {
    if f.freq.None? {
      return None;
    }
    var freq := f.freq.value;
    var parts := ["FREQ=" + freq];
    if f.interval.Some? {
      parts := parts + ["INTERVAL=" + f.interval.value];
    }
    if f.byday.Some? {
      parts := parts + ["BYDAY=" + f.byday.value];
    }
    if f.bymonthday.Some? {
      parts := parts + ["BYMONTHDAY=" + f.bymonthday.value];
    }
    var until := UntilOf(f.until);
    if until.Some? {
      parts := parts + ["UNTIL=" + until.value];
    }
    assert parts == RRuleParts(f);
    if |parts| > 1 {
      r := Some(Join(parts, ";"));
    } else {
      r := Some("FREQ=" + freq);
    }
  }

  // ---------------------------------------------------------------------
  // RRULE sanitiser
  // ---------------------------------------------------------------------

  /** `_fix_rrule_for_google`. `text` is the rule's string form and `fields`
      what the vRecur extraction finds in it. */
  function FixRRuleForGoogle(text: string, fields: VRecurFields): (r: Option<string>)
    ensures text == "" ==> r.None?
    ensures text != "" && Contains(text, "vRecur(") ==> r == VRecurToRRule(fields)
    ensures text != "" && !Contains(text, "vRecur(") ==>
              (r.Some? <==>
                 !Contains(ToUpper(Strip(text)), "BYSETPOS") && !Contains(ToUpper(Strip(text)), "RSCALE") &&
                 !Contains(ToUpper(Strip(text)), "SKIP") && Contains(ToUpper(Strip(text)), "FREQ=") &&
                 CountChar(Strip(text), ';') <= 10)
    ensures text != "" && !Contains(text, "vRecur(") && r.Some? ==> r.value == Strip(text)
  {
    if text == "" then None
    else if Contains(text, "vRecur(") then VRecurToRRule(fields)
    else
      var t := Strip(text);
      var upper := ToUpper(t);
      if Contains(upper, "BYSETPOS") || Contains(upper, "RSCALE") || Contains(upper, "SKIP") then None
      else if !Contains(upper, "FREQ=") then None
      else if CountChar(t, ';') > 10 then None
      else Some(t)
  }

  lemma ContainsOwnPrefix(s: string, p: string)
    requires StartsWith(s, p)
    ensures Contains(s, p)
  {
  }

  /** Upper-casing commutes with taking a prefix. */
  lemma ToUpperPrefix(s: string, k: nat)
    requires k <= |s|
    ensures ToUpper(s)[..k] == ToUpper(s[..k])
  {
  }

  /** Every rule the sanitiser lets through names a frequency, on either
      path. */
  lemma FixRRuleResultHasFreq(text: string, fields: VRecurFields)
    requires FixRRuleForGoogle(text, fields).Some?
    ensures Contains(ToUpper(FixRRuleForGoogle(text, fields).value), "FREQ=")
  {
    if Contains(text, "vRecur(") {
      var r := VRecurToRRule(fields).value;
      VRecurRuleStartsWithFreq(fields);
      assert r[..5] == "FREQ=";
      ToUpperPrefix(r, 5);
      assert ToUpper("FREQ=") == "FREQ=";
      assert StartsWith(ToUpper(r), "FREQ=");
      ContainsOwnPrefix(ToUpper(r), "FREQ=");
    }
  }

  /** On the plain-text path, what comes out has at most ten `;` and no
      unsupported part, and sanitising it again returns it unchanged. */
  lemma FixRRuleIdempotent(text: string, fields: VRecurFields, other: VRecurFields)
    requires !Contains(text, "vRecur(") && FixRRuleForGoogle(text, fields).Some?
    ensures var t := FixRRuleForGoogle(text, fields).value;
            CountChar(t, ';') <= 10 && !Contains(ToUpper(t), "BYSETPOS") &&
            !Contains(ToUpper(t), "RSCALE") && !Contains(ToUpper(t), "SKIP")
    ensures FixRRuleForGoogle(FixRRuleForGoogle(text, fields).value, other) == FixRRuleForGoogle(text, fields)
  {
    var t := Strip(text);
    StripIdempotent(text);
    assert Contains(ToUpper(t), "FREQ=");
    if Contains(t, "vRecur(") {
      ContainsStripped(text, "vRecur(");
      assert false;
    }
  }

  // ---------------------------------------------------------------------
  // Event body
  // ---------------------------------------------------------------------

  /** A start or end as the service receives it: a date, or an instant with
      its zone name. */
  datatype GTime = DateOnly(date: int) | DateTimeTz(dateTime: int, timeZone: string)

  datatype GAttendee = GAttendee(email: string, displayName: string, responseStatus: string)

  /** `extendedProperties.private`: what lets a later run find the event
      again. */
  datatype Tracking = Tracking(originalUid: string, originalSequence: string, syncFingerprint: Fingerprint)

  datatype GoogleEvent = GoogleEvent(
    summary: string,
    description: string,
    location: string,
    status: string,
    start: GTime,
    end: GTime,
    recurrence: Option<seq<string>>,
    attendees: Option<seq<GAttendee>>,
    tracking: Tracking)

  /** The calendar day of a time, as `strftime('%Y-%m-%d')` prints it. */
  function DayOf(t: Time): int {
    match t
    case Date(d) => d
    case DateTime(i, _) => i / SecondsPerDay
  }

  /** The service form of a start or end. A timed event whose end is a bare
      date has no `tzinfo`, which raises: None. A naive time prints its zone
      as "None". */
  function GTimeOf(t: Time, allDay: bool): (r: Option<GTime>)
    ensures allDay ==> r == Some(DateOnly(DayOf(t)))
    ensures !allDay ==> (r.Some? <==> t.DateTime?)
    ensures !allDay && t.DateTime? ==> r.value.DateTimeTz? && r.value.dateTime == t.instant
  {
    if allDay then Some(DateOnly(DayOf(t)))
    else match t
      case Date(_) => None
      case DateTime(i, tz) => Some(DateTimeTz(i, if tz == "" then "None" else tz))
  }

  function ExdateEntries(exdates: seq<string>): (r: seq<string>)
    ensures |r| == |exdates| && forall i :: 0 <= i < |exdates| ==> r[i] == "EXDATE:" + exdates[i]
  {
    seq(|exdates|, i requires 0 <= i < |exdates| => "EXDATE:" + exdates[i])
  }

  lemma ExdateEntriesSnoc(exdates: seq<string>, i: nat, next: nat)
    requires i < |exdates| && next == i + 1
    ensures ExdateEntries(exdates[..next]) == ExdateEntries(exdates[..i]) + ["EXDATE:" + exdates[i]]
  {
  }

  /** `recurrence`: present only when the event has a rule the sanitiser
      accepts; the RRULE first, then one EXDATE entry per exception date. */
  function RecurrenceOf(e: EventData): (r: Option<seq<string>>)
    ensures r.Some? <==> e.rrule.Some? && FixRRuleForGoogle(e.rrule.value.text, e.rrule.value.fields).Some?
                         && FixRRuleForGoogle(e.rrule.value.text, e.rrule.value.fields).value != ""
    ensures r.Some? ==>
              |r.value| == 1 + |e.exdate| &&
              r.value[0] == "RRULE:" + FixRRuleForGoogle(e.rrule.value.text, e.rrule.value.fields).value &&
              forall i :: 1 <= i < |r.value| ==> r.value[i] == "EXDATE:" + e.exdate[i - 1]
  {
    if e.rrule.None? then None
    else
      var rule := FixRRuleForGoogle(e.rrule.value.text, e.rrule.value.fields);
      if rule.None? || rule.value == "" then None
      else Some(["RRULE:" + rule.value] + ExdateEntries(e.exdate))
  }

  function GAttendeeOf(a: Attendee): GAttendee {
    GAttendee(RemoveAll(a.email, "mailto:"), a.name, ConvertAttendeeStatus(a.status))
  }

  /** `attendees`: present only for a non-empty attendee list, one entry per
      attendee in order. */
  function AttendeesFor(attendees: seq<Attendee>): (r: Option<seq<GAttendee>>)
    ensures r.Some? <==> attendees != []
    ensures r.Some? ==> (|r.value| == |attendees| &&
              forall i :: 0 <= i < |attendees| ==> r.value[i] == GAttendeeOf(attendees[i]))
  {
    if attendees == [] then None
    else Some(seq(|attendees|, i requires 0 <= i < |attendees| => GAttendeeOf(attendees[i])))
  }

  /** The request body can be built: an all-day event, or a timed one with
      timed start and end (a timed event with a date value raises). */
  predicate Buildable(e: EventData) {
    e.allDay || (e.start.DateTime? && e.end.DateTime?)
  }

  /** The body `_convert_to_google_event` builds, or None where it raises. */
  function GoogleEventOf(e: EventData): (r: Option<GoogleEvent>)
    ensures r.Some? <==> Buildable(e)
  {
    var start := GTimeOf(e.start, e.allDay);
    var end := GTimeOf(e.end, e.allDay);
    if start.None? || end.None? then None
    else Some(GoogleEvent(e.summary, e.description, e.location, ConvertStatus(e.status), start.value, end.value,
                          RecurrenceOf(e), AttendeesFor(e.attendees),
                          Tracking(e.uid, IntToString(e.sequence), e.fingerprint)))
  }

  /** The body carries the event's text fields, its converted status, its
      times in the right form, its recurrence and attendee lists and the
      tracking properties. */
  lemma GoogleEventOfFields(e: EventData)
    ensures GoogleEventOf(e).Some? ==> GoogleEventOf(e).value.tracking == Tracking(e.uid, IntToString(e.sequence), e.fingerprint)
    ensures GoogleEventOf(e).Some? ==>
              GoogleEventOf(e).value.summary == e.summary && GoogleEventOf(e).value.description == e.description &&
              GoogleEventOf(e).value.location == e.location && GoogleEventOf(e).value.status == ConvertStatus(e.status)
    ensures GoogleEventOf(e).Some? && e.allDay ==> GoogleEventOf(e).value.start == DateOnly(DayOf(e.start)) && GoogleEventOf(e).value.end == DateOnly(DayOf(e.end))
    ensures GoogleEventOf(e).Some? && !e.allDay ==>
              GoogleEventOf(e).value.start.DateTimeTz? && GoogleEventOf(e).value.start.dateTime == e.start.instant &&
              GoogleEventOf(e).value.end.DateTimeTz? && GoogleEventOf(e).value.end.dateTime == e.end.instant
    ensures GoogleEventOf(e).Some? ==> GoogleEventOf(e).value.recurrence == RecurrenceOf(e) && GoogleEventOf(e).value.attendees == AttendeesFor(e.attendees)
  {
  }

  /** The tracking properties identify the source event: its uid and
      fingerprint as they are, and a non-negative sequence number that reads
      back from its decimal form. */
  lemma TrackingIdentifiesSource(e: EventData)
    requires GoogleEventOf(e).Some? && e.sequence >= 0
    ensures var t := GoogleEventOf(e).value.tracking;
            t.originalUid == e.uid && t.syncFingerprint == e.fingerprint &&
            (forall i :: 0 <= i < |t.originalSequence| ==> IsDigit(t.originalSequence[i])) &&
            ParseDigits(t.originalSequence) == e.sequence
  {
    NatToStringRoundTrip(e.sequence);
  }

  /** Removing "mailto:" is one pass of `str.replace`, so an address with the
      scheme nested inside it keeps one copy. */
  lemma MailtoRemovalIsSinglePass()
    ensures RemoveAll("mamailto:ilto:x", "mailto:") == "mailto:x"
  {
    var s0 := "mamailto:ilto:x";
    assert s0[..7][2] != "mailto:"[2];
    var s1 := s0[1..];
    assert s1 == "amailto:ilto:x";
    assert s1[..7][0] != "mailto:"[0];
    var s2 := s1[1..];
    assert s2 == "mailto:ilto:x" && s2[..7] == "mailto:";
    assert s2[7..] == "ilto:x";
    assert RemoveAll(s2, "mailto:") == "ilto:x";
  }

  /** The `recurrence` list of `_convert_to_google_event`: the RRULE entry,
      then one EXDATE entry appended per exception date. */
  method BuildRecurrence(e: EventData) returns (r: Option<seq<string>>)
    ensures r == RecurrenceOf(e)
  {
    if e.rrule.None? {
      return None;
    }
    var rule := FixRRuleForGoogle(e.rrule.value.text, e.rrule.value.fields);
    if rule.None? || rule.value == "" {
      return None;
    }
    var entries := ["RRULE:" + rule.value];
    var i := 0;
    while i < |e.exdate|
      invariant 0 <= i <= |e.exdate|
      invariant entries == ["RRULE:" + rule.value] + ExdateEntries(e.exdate[..i])
    {
      var next := i + 1;
      ExdateEntriesSnoc(e.exdate, i, next);
      entries := entries + ["EXDATE:" + e.exdate[i]];
      i := next;
    }
    assert e.exdate[..|e.exdate|] == e.exdate;
    r := Some(entries);
  }

  /** The `attendees` list of `_convert_to_google_event`, one entry appended
      per attendee. */
  method BuildAttendees(attendees: seq<Attendee>) returns (r: Option<seq<GAttendee>>)
    ensures r == AttendeesFor(attendees)
  {
    if attendees == [] {
      return None;
    }
    var list: seq<GAttendee> := [];
    var j := 0;
    while j < |attendees|
      invariant 0 <= j <= |attendees|
      invariant |list| == j && forall k :: 0 <= k < j ==> list[k] == GAttendeeOf(attendees[k])
    {
      var a := attendees[j];
      list := list + [GAttendee(RemoveAll(a.email, "mailto:"), a.name, ConvertAttendeeStatus(a.status))];
      j := j + 1;
    }
    assert list == AttendeesFor(attendees).value;
    r := Some(list);
  }

  /** `_convert_to_google_event`: the dict's fixed entries, then the
      recurrence and attendee lists, then the tracking properties. */
  method ConvertToGoogleEvent(e: EventData) returns (r: Option<GoogleEvent>)
    ensures r == GoogleEventOf(e)
  {
    var start := GTimeOf(e.start, e.allDay);
    var end := GTimeOf(e.end, e.allDay);
    if start.None? || end.None? {
      return None;
    }
    var recurrence := BuildRecurrence(e);
    var attendees := BuildAttendees(e.attendees);
    r := Some(GoogleEvent(e.summary, e.description, e.location, ConvertStatus(e.status), start.value, end.value,
                          recurrence, attendees, Tracking(e.uid, IntToString(e.sequence), e.fingerprint)));
  }

  // ---------------------------------------------------------------------
  // The calendar service
  // ---------------------------------------------------------------------

  /** The service's event id. */
  type RemoteId = nat

  /** One request sent to the service. */
  datatype Call =
    | Authenticate
    | GetCalendarInfo
    | Insert(uid: string)
    | Update(id: RemoteId, uid: string)
    | Delete(id: RemoteId)
    | Search(uid: string)

  /** The target calendar as seen through `GoogleCalendarClient`: the events
      it holds, keyed by the ids the service hands out, and the list of
      requests made so far. Which requests the service refuses is fixed when
      the calendar is set up. */
  class RemoteCalendar {
    var events: map<RemoteId, GoogleEvent>
    var nextId: RemoteId
    ghost var log: seq<Call>
    /** Whether the credentials are accepted. */
    const authOk: bool
    /** Whether the calendar metadata can be read. */
    const calendarReachable: bool
    /** Event uids whose inserts and updates the service rejects. */
    const rejected: set<string>
    /** Event ids whose deletion fails with an error other than 404. */
    const deleteRefused: set<RemoteId>
    /** Whether searching by tracking property succeeds. */
    const searchOk: bool

    ghost predicate Valid()
      reads this
    {
      forall id :: id in events ==> id < nextId
    }

    constructor (authOk: bool, calendarReachable: bool, rejected: set<string>, deleteRefused: set<RemoteId>,
                 searchOk: bool)
      ensures Valid() && events == map[] && log == []
      ensures this.authOk == authOk && this.calendarReachable == calendarReachable && this.rejected == rejected
      ensures this.deleteRefused == deleteRefused && this.searchOk == searchOk
    {
      events := map[];
      nextId := 0;
      log := [];
      this.authOk := authOk;
      this.calendarReachable := calendarReachable;
      this.rejected := rejected;
      this.deleteRefused := deleteRefused;
      this.searchOk := searchOk;
    }

    /** `authenticate`: false where the source raises. */
    method Authenticate() returns (ok: bool)
      modifies this`log
      ensures ok == authOk
      ensures log == old(log) + [Call.Authenticate]
    {
      log := log + [Call.Authenticate];
      ok := authOk;
    }

    /** `get_calendar_info`: false where the source raises. */
    method GetCalendarInfo() returns (ok: bool)
      modifies this`log
      ensures ok == calendarReachable
      ensures log == old(log) + [Call.GetCalendarInfo]
    {
      log := log + [Call.GetCalendarInfo];
      ok := calendarReachable;
    }

    /** `create_event`: the body is built first (no request when that
      raises); a request the service accepts stores the body under a fresh
      id and returns it. */
    method CreateEvent(e: EventData) returns (id: Option<RemoteId>)
      requires Valid()
      modifies this`events, this`nextId, this`log
      ensures Valid()
      ensures log == old(log) + (if GoogleEventOf(e).Some? then [Insert(e.uid)] else [])
      ensures id.Some? <==> GoogleEventOf(e).Some? && e.uid !in rejected
      ensures id.Some? ==> id.value == old(nextId) && id.value !in old(events)
                           && events == old(events)[id.value := GoogleEventOf(e).value] && nextId == old(nextId) + 1
      ensures id.None? ==> events == old(events) && nextId == old(nextId)
    {
      var body := ConvertToGoogleEvent(e);
      if body.None? {
        return None;
      }
      log := log + [Insert(e.uid)];
      if e.uid in rejected {
        return None;
      }
      id := Some(nextId);
      events := events[nextId := body.value];
      nextId := nextId + 1;
    }

    /** `update_event`: replaces the body stored under `id`; an unknown id
      is a 404, which the source raises. */
    method UpdateEvent(id: RemoteId, e: EventData) returns (ok: bool)
      modifies this`events, this`log
      ensures log == old(log) + (if GoogleEventOf(e).Some? then [Update(id, e.uid)] else [])
      ensures ok <==> GoogleEventOf(e).Some? && id in old(events) && e.uid !in rejected
      ensures ok ==> events == old(events)[id := GoogleEventOf(e).value]
      ensures !ok ==> events == old(events)
    {
      var body := ConvertToGoogleEvent(e);
      if body.None? {
        return false;
      }
      log := log + [Update(id, e.uid)];
      if id !in events || e.uid in rejected {
        return false;
      }
      events := events[id := body.value];
      ok := true;
    }

    /** `delete_event`: a 404 (the id is gone already) counts as success. */
    method DeleteEvent(id: RemoteId) returns (ok: bool)
      modifies this`events, this`log
      ensures log == old(log) + [Delete(id)]
      ensures ok <==> id !in deleteRefused
      ensures ok ==> events == old(events) - {id}
      ensures !ok ==> events == old(events)
    {
      log := log + [Delete(id)];
      if id in deleteRefused {
        return false;
      }
      events := events - {id};
      ok := true;
    }

    /** The ids whose tracking property names `uid`. */
    ghost function Matching(uid: string): set<RemoteId>
      reads this
    {
      set id | id in events && events[id].tracking.originalUid == uid
    }

    /** `find_events_by_original_uid`: at most 100 of the events tracked
      under `uid`, each once; an error gives the empty list. */
    method FindEventsByOriginalUid(uid: string) returns (ids: seq<RemoteId>)
      modifies this`log
      ensures log == old(log) + [Search(uid)]
      ensures |ids| <= 100 && NoDuplicates(ids)
      ensures forall id :: id in ids ==> id in Matching(uid)
      ensures searchOk && |Matching(uid)| <= 100 ==> (set id | id in ids) == Matching(uid)
      ensures searchOk && Matching(uid) != {} ==> ids != []
      ensures !searchOk ==> ids == []
    {
      log := log + [Search(uid)];
      if !searchOk {
        return [];
      }
      var matching := set id | id in events && events[id].tracking.originalUid == uid;
      assert matching == Matching(uid);
      var all := SetToSeq<RemoteId>(matching);
      if |all| <= 100 {
        ids := all;
      } else {
        ids := all[..100];
        assert forall id :: id in ids ==> id in all;
      }
    }
  }
}
