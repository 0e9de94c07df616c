/** Calendar events as the provider returns them, and the closed-shift
    filter `check_shifts` of the calendar service. */
module Events {
  import opened Wrappers
  import opened Text

  /** A `start` or `end` object: an all-day event carries `date`, a timed
      one `dateTime`. Other keys, such as `timeZone`, are not modelled;
      the Slack bot's rendering of the object is taken to depend on these
      two alone. */
  datatype When = When(dateTime: Option<string>, date: Option<string>)

  /** One event item; every key may be absent from the provider's JSON. */
  datatype Event = Event(id: Option<string>, summary: Option<string>, start: Option<When>, end: Option<When>)

  const ShiftMarker := "Shift"
  const ClosedMarker := "Closed"

  /** `event.get('summary', '')`. */
  function SummaryOrEmpty(e: Event): string
  {
    e.summary.GetOr("")
  }

  /** A closed shift: its summary contains both markers, case-sensitively. */
  predicate IsClosedShift(e: Event)
  {
    Contains(SummaryOrEmpty(e), ShiftMarker) && Contains(SummaryOrEmpty(e), ClosedMarker)
  }

  /** The classification in terms of where the markers occur. */
  lemma ClosedShiftIff(e: Event)
    ensures IsClosedShift(e) <==>
      && (exists i: nat :: OccursAt(SummaryOrEmpty(e), ShiftMarker, i))
      && (exists j: nat :: OccursAt(SummaryOrEmpty(e), ClosedMarker, j))
  {
    ContainsIffOccurs(SummaryOrEmpty(e), ShiftMarker);
    ContainsIffOccurs(SummaryOrEmpty(e), ClosedMarker);
  }

  /** An event without a summary is read as `''` and never selected. */
  lemma NoSummaryIsNotClosed(e: Event)
    requires e.summary.None?
    ensures SummaryOrEmpty(e) == "" && !IsClosedShift(e)
  {
  }

  /** The events of `events` that are closed shifts, in order. */
  function ClosedShifts(events: seq<Event>): (r: seq<Event>)
    ensures |r| <= |events|
    ensures forall e :: e in r <==> e in events && IsClosedShift(e)
  {
    if events == [] then []
    else if IsClosedShift(events[0]) then [events[0]] + ClosedShifts(events[1..])
    else ClosedShifts(events[1..])
  }

  /** `a` can be obtained from `b` by deleting elements. */
  ghost predicate IsSubsequence<T>(a: seq<T>, b: seq<T>)
    decreases |b|
  {
    || a == []
    || (&& b != []
        && ((a[0] == b[0] && IsSubsequence(a[1..], b[1..])) || IsSubsequence(a, b[1..])))
  }

  /** The filter keeps the input order and adds nothing. */
  lemma {:induction false} ClosedShiftsIsSubsequence(events: seq<Event>)
    ensures IsSubsequence(ClosedShifts(events), events)
  {
    if events != [] {
      ClosedShiftsIsSubsequence(events[1..]);
    }
  }

  /** Every closed shift is kept as often as it occurs and nothing else is
      kept: no event is dropped or duplicated. */
  lemma {:induction false} ClosedShiftsCounts(events: seq<Event>, e: Event)
    ensures multiset(ClosedShifts(events))[e] == if IsClosedShift(e) then multiset(events)[e] else 0
  {
    if events != [] {
      ClosedShiftsCounts(events[1..], e);
      assert events == [events[0]] + events[1..];
    }
  }

  /** Filtering commutes with concatenation. */
  lemma {:induction false} ClosedShiftsAppend(a: seq<Event>, b: seq<Event>)
    ensures ClosedShifts(a + b) == ClosedShifts(a) + ClosedShifts(b)
  {
    if a != [] {
      assert (a + b)[1..] == a[1..] + b;
      ClosedShiftsAppend(a[1..], b);
    } else {
      assert a + b == b;
    }
  }

  /** Filtering an already filtered list changes nothing. */
  lemma {:induction false} ClosedShiftsIdempotent(events: seq<Event>)
    ensures ClosedShifts(ClosedShifts(events)) == ClosedShifts(events)
  {
    if events != [] {
      ClosedShiftsIdempotent(events[1..]);
      if IsClosedShift(events[0]) {
        var r := ClosedShifts(events);
        assert r[0] == events[0] && r[1..] == ClosedShifts(events[1..]);
      }
    }
  }

  /** `check_shifts`: one pass over the events, appending each closed shift. */
  method CheckShifts(events: seq<Event>) returns (closedShifts: seq<Event>)
    ensures closedShifts == ClosedShifts(events)
  {
    closedShifts := [];
    var i := 0;
    while i < |events|
      invariant 0 <= i <= |events|
      invariant closedShifts == ClosedShifts(events[..i])
    {
      var event := events[i];
      ClosedShiftsAppend(events[..i], [event]);
      assert events[..i + 1] == events[..i] + [event];
      if Contains(SummaryOrEmpty(event), ShiftMarker) && Contains(SummaryOrEmpty(event), ClosedMarker) {
        closedShifts := closedShifts + [event];
      }
      i := i + 1;
    }
    assert events[..i] == events;
  }

  /** The start time reported for a shift: `start.dateTime` when present,
      else `start.date`, else nothing. */
  function StartTime(e: Event): (r: Option<string>)
    ensures e.start.Some? && e.start.value.dateTime.Some? ==> r == e.start.value.dateTime
    ensures e.start.Some? && e.start.value.dateTime.None? ==> r == e.start.value.date
    ensures e.start.None? ==> r.None?
  {
    match e.start
    case None => None
    case Some(w) => if w.dateTime.Some? then w.dateTime else w.date
  }
}
