/** Turning a parsed calendar into the event list a sync run works on:
    partition of the VEVENTs into main events and modified instances, and the
    time-window filter. Models `ICSParser.parse_ics_content`,
    `ICSParser.parse_and_expand` and `_recurring_event_overlaps_range` in
    src/parsers/ics_parser.py. Fetching the document and `Calendar.from_ical`
    are outside the model: the input is the walked component list. */
module IcsParser {
  import opened Common
  import opened Strings
  import opened Events

  /** One component of the walked calendar: its name and, for a VEVENT, its
      properties. */
  datatype Component = Component(name: string, event: VEvent)

  /** The event the constructor builds from one component, if it is a VEVENT
      and construction does not raise. */
  function BuiltFrom(c: Component, config: ProcessingConfig): Option<EventData> {
    if c.name == "VEVENT" then EventDataOf(c.event, config) else None
  }

  function AsSeq<T>(o: Option<T>): seq<T> {
    if o.Some? then [o.value] else []
  }

  /** The events the constructor builds from the VEVENT components, in order;
      components whose construction raises are dropped. What survives is
      timed and zone-aware: a date start never builds. */
  function BuiltEvents(components: seq<Component>, config: ProcessingConfig): (r: seq<EventData>)
    ensures |r| <= |components|
    ensures forall e :: e in r ==> !e.allDay && e.start.DateTime? && e.start.tz != ""
  {
    if components == [] then []
    else
      BuiltEvents(components[..|components| - 1], config) + AsSeq(BuiltFrom(components[|components| - 1], config))
  }

  /** Every built event carries a current fingerprint and the configured
      summary prefix. */
  lemma {:induction false} BuiltEventsProcessed(components: seq<Component>, config: ProcessingConfig)
    ensures forall e :: e in BuiltEvents(components, config) ==>
              FingerprintCurrent(e) && StartsWith(e.summary, config.eventPrefix)
  {
    if components != [] {
      BuiltEventsProcessed(components[..|components| - 1], config);
    }
  }

  lemma BuiltEventsSnoc(components: seq<Component>, i: nat, next: nat, config: ProcessingConfig)
    requires i < |components| && next == i + 1
    ensures BuiltEvents(components[..next], config)
            == BuiltEvents(components[..i], config) + AsSeq(BuiltFrom(components[i], config))
  {
    assert components[..next][..i] == components[..i];
  }

  predicate IsMain(e: EventData) {
    !IsModifiedInstance(e)
  }

  function MainEvents(components: seq<Component>, config: ProcessingConfig): seq<EventData> {
    Filter(BuiltEvents(components, config), IsMain)
  }

  function ModifiedInstances(components: seq<Component>, config: ProcessingConfig): seq<EventData> {
    Filter(BuiltEvents(components, config), IsModifiedInstance)
  }

  /** The partition neither loses nor invents events: main events and
      modified instances together are exactly the built events, each side
      holds only its own kind, and each keeps the document order. */
  lemma PartitionIsExact(components: seq<Component>, config: ProcessingConfig)
    ensures multiset(MainEvents(components, config)) + multiset(ModifiedInstances(components, config))
            == multiset(BuiltEvents(components, config))
    ensures forall e :: e in MainEvents(components, config) ==> !IsModifiedInstance(e)
    ensures forall e :: e in ModifiedInstances(components, config) ==> IsModifiedInstance(e)
  {
    FilterPartition(BuiltEvents(components, config), IsMain, IsModifiedInstance);
  }

  /** `parse_ics_content`: one pass over the components, appending each built
      event to the list of its kind. */
  method ParseIcsContent(components: seq<Component>, config: ProcessingConfig)
    returns (main: seq<EventData>, modified: seq<EventData>)
    ensures main == MainEvents(components, config)
    ensures modified == ModifiedInstances(components, config)
  {
    main, modified := [], [];
    var i := 0;
    while i < |components|
      invariant 0 <= i <= |components|
      invariant main == Filter(BuiltEvents(components[..i], config), IsMain)
      invariant modified == Filter(BuiltEvents(components[..i], config), IsModifiedInstance)
    {
      var c := components[i];
      var next := i + 1;
      var built: Option<EventData> := None;
      if c.name == "VEVENT" {
        built := NewEventData(c.event, config);
      }
      assert built == BuiltFrom(c, config);
      BuiltEventsSnoc(components, i, next, config);
      ghost var prefix := BuiltEvents(components[..i], config);
      ghost var grown := prefix + AsSeq(built);
      if built.Some? {
        var e := built.value;
        assert grown == prefix + [e];
        FilterSnoc(prefix, e, IsMain);
        FilterSnoc(prefix, e, IsModifiedInstance);
        if IsModifiedInstance(e) {
          modified := modified + [e];
        } else {
          main := main + [e];
        }
      } else {
        assert grown == prefix;
      }
      i := next;
    }
    assert components[..|components|] == components;
  }

  /** `_recurring_event_overlaps_range`. Every branch under `start <= end`
      answers true, and the lower bound is never consulted. Comparing a date
      with the datetime bound raises: None. */
  function RecurringEventOverlapsRange(e: EventData, windowStart: int, windowEnd: int): (r: Option<bool>)
    ensures e.start.Date? <==> r.None?
    ensures e.start.DateTime? ==> r == Some(e.start.instant <= windowEnd)
  {
    match e.start
    case Date(_) => None
    case DateTime(s, _) =>
      if s <= windowEnd then
        if e.rrule.Some? && Contains(e.rrule.value.text, "UNTIL") then Some(true)
        else if e.rrule.Some? && Contains(e.rrule.value.text, "COUNT") then Some(true)
        else Some(true)
      else Some(false)
  }

  /** Whether a main event survives the window filter. */
  function KeepMain(windowStart: int, windowEnd: int): EventData -> bool {
    (e: EventData) =>
      e.start.DateTime? &&
      if !IsRecurring(e) then windowStart <= e.start.instant <= windowEnd
      else RecurringEventOverlapsRange(e, windowStart, windowEnd) == Some(true)
  }

  /** Whether a modified instance survives the window filter. */
  function KeepInstance(windowStart: int, windowEnd: int): EventData -> bool {
    (e: EventData) => e.start.DateTime? && windowStart <= e.start.instant <= windowEnd
  }

  predicate AllTimed(events: seq<EventData>) {
    forall e :: e in events ==> e.start.DateTime?
  }

  /** What `parse_and_expand` returns for the given partition: None when some
      event has a date start (its comparison with the window bound raises),
      otherwise the kept main events followed by the kept modified instances.
      Nothing kept starts after the window's end. */
  function Expanded(main: seq<EventData>, modified: seq<EventData>, windowStart: int, windowEnd: int)
    : (r: Option<seq<EventData>>)
    ensures r.Some? <==> AllTimed(main) && AllTimed(modified)
    ensures r.Some? ==> |r.value| <= |main| + |modified|
  {
    if !AllTimed(main) || !AllTimed(modified) then None
    else Some(Filter(main, KeepMain(windowStart, windowEnd)) + Filter(modified, KeepInstance(windowStart, windowEnd)))
  }

  /** The filter only drops: whatever it keeps comes from the partition and
      starts no later than the window's end. */
  lemma ExpandedWithinWindow(main: seq<EventData>, modified: seq<EventData>, windowStart: int, windowEnd: int,
                             e: EventData)
    requires Expanded(main, modified, windowStart, windowEnd).Some?
    requires e in Expanded(main, modified, windowStart, windowEnd).value
    ensures e in main || e in modified
    ensures e.start.DateTime? && e.start.instant <= windowEnd
  {
    var a := Filter(main, KeepMain(windowStart, windowEnd));
    var b := Filter(modified, KeepInstance(windowStart, windowEnd));
    assert e in a || e in b;
  }

  /** On a partition as `parse_ics_content` builds it no comparison raises:
      every built start is zone-aware, so the window filter always answers. */
  lemma ParsedFeedExpands(components: seq<Component>, config: ProcessingConfig, windowStart: int, windowEnd: int)
    ensures Expanded(MainEvents(components, config), ModifiedInstances(components, config), windowStart, windowEnd).Some?
  {
    var built := BuiltEvents(components, config);
    assert AllTimed(Filter(built, IsMain));
    assert AllTimed(Filter(built, IsModifiedInstance));
  }

  /** The filter keeps a main event exactly when: non-recurring and starting
      inside the closed window, or recurring and starting no later than the
      window's end. */
  lemma MainEventKept(main: seq<EventData>, modified: seq<EventData>, windowStart: int, windowEnd: int, e: EventData)
    requires Expanded(main, modified, windowStart, windowEnd).Some?
    requires e in main && !IsModifiedInstance(e)
    ensures e in Expanded(main, modified, windowStart, windowEnd).value <==>
              if IsRecurring(e) then e.start.instant <= windowEnd
              else windowStart <= e.start.instant <= windowEnd
  {
    FilterMembership(main, KeepMain(windowStart, windowEnd), e);
    FilterMembership(modified, KeepInstance(windowStart, windowEnd), e);
  }

  /** The filter keeps a modified instance exactly when its start lies inside
      the closed window, whatever rule its series has. */
  lemma ModifiedInstanceKept(components: seq<Component>, config: ProcessingConfig, windowStart: int, windowEnd: int,
                             e: EventData)
    requires Expanded(MainEvents(components, config), ModifiedInstances(components, config), windowStart, windowEnd).Some?
    requires e in ModifiedInstances(components, config)
    ensures e in Expanded(MainEvents(components, config), ModifiedInstances(components, config), windowStart, windowEnd).value
            <==> windowStart <= e.start.instant <= windowEnd
  {
    var built := BuiltEvents(components, config);
    var main, modified := Filter(built, IsMain), Filter(built, IsModifiedInstance);
    FilterMembership(built, IsModifiedInstance, e);
    FilterMembership(built, IsMain, e);
    FilterMembership(main, KeepMain(windowStart, windowEnd), e);
    FilterMembership(modified, KeepInstance(windowStart, windowEnd), e);
  }

  /** Filtering a list of main events and a list of modified instances
      keeps them apart: the main events form a prefix of the result. */
  lemma KeptInOrder(main: seq<EventData>, modified: seq<EventData>, windowStart: int, windowEnd: int)
    returns (k: nat)
    requires forall e :: e in main ==> !IsModifiedInstance(e)
    requires forall e :: e in modified ==> IsModifiedInstance(e)
    requires Expanded(main, modified, windowStart, windowEnd).Some?
    ensures var r := Expanded(main, modified, windowStart, windowEnd).value;
            k <= |r| && forall i :: 0 <= i < |r| ==> (IsModifiedInstance(r[i]) <==> k <= i)
  {
    var a := Filter(main, KeepMain(windowStart, windowEnd));
    var b := Filter(modified, KeepInstance(windowStart, windowEnd));
    k := |a|;
    forall i | 0 <= i < |a + b|
      ensures IsModifiedInstance((a + b)[i]) <==> k <= i
    {
      if i < k {
        assert (a + b)[i] == a[i] && a[i] in a;
      } else {
        assert (a + b)[i] == b[i - k] && b[i - k] in b;
      }
    }
  }

  /** With a partition as produced by `parse_ics_content`, main events come
      first and modified instances after them. */
  lemma MainBeforeModified(components: seq<Component>, config: ProcessingConfig, windowStart: int, windowEnd: int)
    returns (k: nat)
    requires Expanded(MainEvents(components, config), ModifiedInstances(components, config), windowStart, windowEnd).Some?
    ensures var r := Expanded(MainEvents(components, config), ModifiedInstances(components, config), windowStart, windowEnd).value;
            k <= |r| && forall i :: 0 <= i < |r| ==> (IsModifiedInstance(r[i]) <==> k <= i)
  {
    PartitionIsExact(components, config);
    k := KeptInOrder(MainEvents(components, config), ModifiedInstances(components, config), windowStart, windowEnd);
  }

  /** The first loop of `parse_and_expand`: main events kept by the window
      test, or None as soon as a date start makes the comparison raise. */
  method FilterMainEvents(main: seq<EventData>, windowStart: int, windowEnd: int)
    returns (r: Option<seq<EventData>>)
    ensures r == if AllTimed(main) then Some(Filter(main, KeepMain(windowStart, windowEnd))) else None
  {
    var keep := KeepMain(windowStart, windowEnd);
    var filtered := [];
    var i := 0;
    while i < |main|
      invariant 0 <= i <= |main|
      invariant AllTimed(main[..i])
      invariant filtered == Filter(main[..i], keep)
    {
      var e := main[i];
      if e.start.Date? {
        return None;
      }
      var next := i + 1;
      PrefixSnoc(main, i, next);
      FilterSnoc(main[..i], e, keep);
      if !IsRecurring(e) {
        if windowStart <= e.start.instant && e.start.instant <= windowEnd {
          filtered := filtered + [e];
        }
      } else if RecurringEventOverlapsRange(e, windowStart, windowEnd) == Some(true) {
        filtered := filtered + [e];
      }
      i := next;
    }
    assert main[..|main|] == main;
    r := Some(filtered);
  }

  /** The second loop of `parse_and_expand`: modified instances starting
      inside the closed window. */
  method FilterModifiedInstances(modified: seq<EventData>, windowStart: int, windowEnd: int)
    returns (r: Option<seq<EventData>>)
    ensures r == if AllTimed(modified) then Some(Filter(modified, KeepInstance(windowStart, windowEnd))) else None
  {
    var keep := KeepInstance(windowStart, windowEnd);
    var filtered := [];
    var j := 0;
    while j < |modified|
      invariant 0 <= j <= |modified|
      invariant AllTimed(modified[..j])
      invariant filtered == Filter(modified[..j], keep)
    {
      var e := modified[j];
      if e.start.Date? {
        return None;
      }
      var next := j + 1;
      PrefixSnoc(modified, j, next);
      FilterSnoc(modified[..j], e, keep);
      if windowStart <= e.start.instant && e.start.instant <= windowEnd {
        filtered := filtered + [e];
      }
      j := next;
    }
    assert modified[..|modified|] == modified;
    r := Some(filtered);
  }

  /** `parse_and_expand` over an already walked calendar: partition, then the
      window filter over the main events and over the modified instances.
      On a parsed feed the filter never raises. */
  method ParseAndExpand(components: seq<Component>, config: ProcessingConfig, windowStart: int, windowEnd: int)
    returns (r: Option<seq<EventData>>)
    ensures r == Expanded(MainEvents(components, config), ModifiedInstances(components, config), windowStart, windowEnd)
    ensures r.Some?
  {
    ParsedFeedExpands(components, config, windowStart, windowEnd);
    var main, modified := ParseIcsContent(components, config);
    var keptMain := FilterMainEvents(main, windowStart, windowEnd);
    if keptMain.None? {
      return None;
    }
    var keptInstances := FilterModifiedInstances(modified, windowStart, windowEnd);
    if keptInstances.None? {
      return None;
    }
    r := Some(keptMain.value + keptInstances.value);
  }
}
