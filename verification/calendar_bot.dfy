/** The calendar service's request handlers `/events` and `/check_shifts`,
    and the per-shift business-logic hook whose only effect is a printed
    line, kept here as an appended log. */
module CalendarBot {
  import opened Wrappers
  import opened Events
  import opened DayWindow
  import opened Credentials
  import opened Text

  /** The JSON bodies the handlers return. */
  datatype Reply =
    | Message(text: string)
    | EventList(events: seq<Event>)
    | ShiftReport(text: string, closedShifts: seq<Event>)

  const NoEventsText := "No events found for today."
  const AllOpenText := "All shift events are open."
  const ExecutedText := "Business logic executed for closed shifts."

  /** A reply together with the lines the handler logged, in order. */
  datatype Handled = Handled(reply: Reply, log: seq<string>)

  /** The body of `/events`: a message for an empty day, else the events
      exactly as the provider listed them. */
  function EventsReply(items: seq<Event>): (r: Reply)
    ensures r == Message(NoEventsText) <==> items == []
    ensures items != [] ==> r == EventList(items)
  {
    if items == [] then Message(NoEventsText) else EventList(items)
  }

  /** How an f-string renders an optional string: `None` prints as `None`. */
  function Render(o: Option<string>): string
  {
    match o
    case Some(s) => s
    case None => "None"
  }

  const LogSuffix := ". Executing business logic."

  /** The part of the log line before the start time. */
  function LogPrefix(shift: Event): string
  {
    "Shift still closed: '" + shift.summary.GetOr("No Title") + "' at "
  }

  /** The line `perform_business_logic` prints for one closed shift: it
      names the summary, or `No Title` when there is none, and ends with a
      fixed sentence. */
  function BusinessLogicLine(shift: Event): (line: string)
    ensures |line| >= |LogPrefix(shift)| + |LogSuffix|
    ensures line[..|LogPrefix(shift)|] == LogPrefix(shift)
    ensures line[|line| - |LogSuffix|..] == LogSuffix
    ensures |line| == |LogPrefix(shift)| + |Render(StartTime(shift))| + |LogSuffix|
  {
    var line := LogPrefix(shift) + Render(StartTime(shift)) + LogSuffix;
    assert line[..|LogPrefix(shift)|] == LogPrefix(shift);
    assert line[|line| - |LogSuffix|..] == LogSuffix;
    line
  }

  /** The time in the log line is the shift's start time: `start.dateTime`
      when present, else `start.date`, and `None` printed when neither is
      there. */
  lemma LogLineReportsStart(shift: Event)
    ensures OccursAt(BusinessLogicLine(shift), Render(StartTime(shift)), |LogPrefix(shift)|)
    ensures shift.start.Some? && shift.start.value.dateTime.Some? ==>
      OccursAt(BusinessLogicLine(shift), shift.start.value.dateTime.value, |LogPrefix(shift)|)
    ensures shift.start.Some? && shift.start.value.dateTime.None? && shift.start.value.date.Some? ==>
      OccursAt(BusinessLogicLine(shift), shift.start.value.date.value, |LogPrefix(shift)|)
    ensures shift.start.None? ==> OccursAt(BusinessLogicLine(shift), "None", |LogPrefix(shift)|)
  {
    var p := LogPrefix(shift);
    var t := Render(StartTime(shift));
    var line := BusinessLogicLine(shift);
    assert line == p + t + LogSuffix;
    assert line[|p|..|p| + |t|] == t;
  }

  /** The hook run once per shift, in order. */
  function BusinessLogicLog(shifts: seq<Event>): (log: seq<string>)
    ensures |log| == |shifts|
    ensures forall k :: 0 <= k < |log| ==> log[k] == BusinessLogicLine(shifts[k])
  {
    if shifts == [] then [] else [BusinessLogicLine(shifts[0])] + BusinessLogicLog(shifts[1..])
  }

  /** The body and log of `/check_shifts`: the all-open message and no log
      when nothing is a closed shift; otherwise one log line per closed
      shift, in order, and the closed shifts themselves. */
  function CheckShiftsReply(items: seq<Event>): (h: Handled)
    ensures h.reply == Message(AllOpenText) <==> ClosedShifts(items) == []
    ensures ClosedShifts(items) != [] ==> h.reply == ShiftReport(ExecutedText, ClosedShifts(items))
    ensures |h.log| == |ClosedShifts(items)|
    ensures forall k :: 0 <= k < |h.log| ==> h.log[k] == BusinessLogicLine(ClosedShifts(items)[k])
  {
    var closedShifts := ClosedShifts(items);
    if closedShifts != [] then Handled(ShiftReport(ExecutedText, closedShifts), BusinessLogicLog(closedShifts))
    else Handled(Message(AllOpenText), [])
  }

  /** `/check_shifts` answers "all open" exactly when no listed event is a
      closed shift. */
  lemma AllOpenIffNoClosedShift(items: seq<Event>)
    ensures CheckShiftsReply(items).reply.Message? <==> forall e :: e in items ==> !IsClosedShift(e)
  {
    var closedShifts := ClosedShifts(items);
    if closedShifts != [] {
      assert closedShifts[0] in closedShifts;
    }
  }

  /** `get_today_events`: the items the provider lists for today's window,
      or none when its answer carries no `items` key. */
  function TodayEvents(today: Date, listEvents: Window -> Option<seq<Event>>): (items: seq<Event>)
    requires ValidDate(today)
    ensures listEvents(TodayWindow(today)).Some? ==> items == listEvents(TodayWindow(today)).value
    ensures listEvents(TodayWindow(today)).None? ==> items == []
  {
    listEvents(TodayWindow(today)).GetOr([])
  }

  /** The service slot, the library actions and the outcome of one request. */
  datatype Served = Served(slot: Option<Service>, actions: seq<Action>, outcome: Result<Handled, AuthError>)

  /** `/events`: look up the client, list today's events, reply. An
      authentication failure propagates to the caller. */
  function EventsEndpoint(slot: Option<Service>, p: Provider, today: Date,
                          listEvents: Window -> Option<seq<Event>>): (s: Served)
    requires ValidDate(today)
    ensures s.outcome.Failure? <==> slot.None? && GetCredentials(p).creds.Failure?
    ensures s.outcome.Success? ==> s.outcome.value == Handled(EventsReply(TodayEvents(today, listEvents)), [])
    ensures s.slot == GetCalendarService(slot, p).slot && s.actions == GetCalendarService(slot, p).actions
    ensures slot.Some? ==> s.slot == slot && s.actions == []
    ensures s.outcome.Failure? ==>
      GetCalendarService(slot, p).service.Failure? && s.outcome.error == GetCalendarService(slot, p).service.error
  {
    var l := GetCalendarService(slot, p);
    match l.service
    case Failure(e) => Served(l.slot, l.actions, Failure(e))
    case Success(_) => Served(l.slot, l.actions, Success(Handled(EventsReply(TodayEvents(today, listEvents)), [])))
  }

  /** `/check_shifts`: look up the client, list today's events, filter,
      run the hook per closed shift, reply. */
  function CheckShiftsEndpoint(slot: Option<Service>, p: Provider, today: Date,
                               listEvents: Window -> Option<seq<Event>>): (s: Served)
    requires ValidDate(today)
    ensures s.outcome.Failure? <==> slot.None? && GetCredentials(p).creds.Failure?
    ensures s.outcome.Success? ==> s.outcome.value == CheckShiftsReply(TodayEvents(today, listEvents))
    ensures s.slot == GetCalendarService(slot, p).slot && s.actions == GetCalendarService(slot, p).actions
    ensures slot.Some? ==> s.slot == slot && s.actions == []
    ensures s.outcome.Failure? ==>
      GetCalendarService(slot, p).service.Failure? && s.outcome.error == GetCalendarService(slot, p).service.error
  {
    var l := GetCalendarService(slot, p);
    match l.service
    case Failure(e) => Served(l.slot, l.actions, Failure(e))
    case Success(_) => Served(l.slot, l.actions, Success(CheckShiftsReply(TodayEvents(today, listEvents))))
  }
}
