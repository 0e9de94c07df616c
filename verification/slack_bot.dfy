/** The notifier's background task `process_and_post_events`: fetch the
    calendar service's `/events` body, fall back to `{}` on any failure,
    and build the text posted to the chat channel. Python's `str()` of a
    `start`/`end` object is the opaque `render` parameter; it sees only the
    `dateTime` and `date` keys the model keeps. */
module SlackBot {
  import opened Wrappers
  import opened Text
  import opened Events
  import opened CalendarBot

  /** `events.get('events', [])` on the fetched body; `None` stands for the
      `{}` the task uses when the request, the status check or decoding
      raised. */
  function FetchedEvents(body: Option<Reply>): (r: seq<Event>)
    ensures body.Some? && body.value.EventList? ==> r == body.value.events
    ensures !(body.Some? && body.value.EventList?) ==> r == []
  {
    match body
    case Some(EventList(events)) => events
    case _ => []
  }

  /** Whatever `/events` replies, the notifier reads back exactly the
      events the calendar service listed. */
  lemma EventsRoundTrip(items: seq<Event>)
    ensures FetchedEvents(Some(EventsReply(items))) == items
  {
  }

  /** The four keys the formatter indexes directly. */
  predicate Formattable(e: Event)
  {
    e.id.Some? && e.summary.Some? && e.start.Some? && e.end.Some?
  }

  /** The four-line block for one event. */
  function Block(e: Event, render: When -> string): string
    requires Formattable(e)
  {
    "ID: " + e.id.value + ", \nSummary: " + e.summary.value + ", \nStart: " + render(e.start.value)
      + ", \nEnd: " + render(e.end.value) + "\n"
  }

  /** A block opens with the event's id and the summary label, and closes
      with the rendered end and a newline. */
  lemma BlockShape(e: Event, render: When -> string)
    requires Formattable(e)
    ensures var b := Block(e, render); var head := "ID: " + e.id.value + ", \nSummary: ";
      |b| >= |head| && b[..|head|] == head
    ensures var b := Block(e, render); var tail := ", \nEnd: " + render(e.end.value) + "\n";
      |b| >= |tail| && b[|b| - |tail|..] == tail
  {
    var head := "ID: " + e.id.value + ", \nSummary: ";
    var tail := ", \nEnd: " + render(e.end.value) + "\n";
    var middle := e.summary.value + ", \nStart: " + render(e.start.value);
    var b := Block(e, render);
    assert b == head + middle + tail;
    assert b[..|head|] == head;
    assert b[|b| - |tail|..] == tail;
  }

  /** The message before stripping: the blocks of all events, in order. It
      is empty exactly for no events, and otherwise starts with `ID: ` and
      ends with a newline. */
  function Blocks(events: seq<Event>, render: When -> string): (r: string)
    requires forall e :: e in events ==> Formattable(e)
    ensures r == [] <==> events == []
    ensures events != [] ==> |r| >= 4 && r[..4] == "ID: " && r[|r| - 1] == '\n'
  {
    if events == [] then []
    else
      var b := Block(events[0], render);
      var r := b + Blocks(events[1..], render);
      assert r[..4] == b[..4];
      r
  }

  /** Appending an event appends its block. */
  lemma {:induction false} BlocksSnoc(events: seq<Event>, e: Event, render: When -> string)
    requires forall x :: x in events ==> Formattable(x)
    requires Formattable(e)
    ensures Blocks(events + [e], render) == Blocks(events, render) + Block(e, render)
  {
    if events != [] {
      assert (events + [e])[1..] == events[1..] + [e];
      BlocksSnoc(events[1..], e, render);
    } else {
      assert events + [e] == [e];
    }
  }

  /** The rendering of the event's `end` does not end in a newline. */
  predicate EndsWithoutNewline(e: Event, render: When -> string)
  {
    e.end.Some? && (var t := render(e.end.value); t == [] || t[|t| - 1] != '\n')
  }

  /** A block whose `end` rendering does not end in a newline has a
      single final newline. */
  lemma BlockEndsCleanly(e: Event, render: When -> string)
    requires Formattable(e) && EndsWithoutNewline(e, render)
    ensures var b := Block(e, render); |b| >= 2 && b[|b| - 2] != '\n' && b[|b| - 1] == '\n'
  {
    var t := render(e.end.value);
    var head := "ID: " + e.id.value + ", \nSummary: " + e.summary.value + ", \nStart: " + render(e.start.value)
      + ", \nEnd: ";
    var b := Block(e, render);
    assert b == head + t + "\n";
    if t == [] {
      assert b[|b| - 2] == head[|head| - 1] == ' ';
    } else {
      assert b[|b| - 2] == t[|t| - 1];
    }
  }

  /** When the last `end` rendering does not end in a newline, stripping
      removes exactly the final newline of the last block and nothing at
      the front. */
  lemma MessageDropsFinalNewline(events: seq<Event>, render: When -> string)
    requires events != []
    requires forall e :: e in events ==> Formattable(e)
    requires EndsWithoutNewline(events[|events| - 1], render)
    ensures var raw := Blocks(events, render);
      StripNewlines(raw) == raw[..|raw| - 1]
  {
    BlocksEndCleanly(events, render);
    var raw := Blocks(events, render);
    assert raw[0] == raw[..4][0];
    StripSingleFinalNewline(raw);
  }

  /** The blocks of a non-empty list end in a single newline when the last
      `end` rendering does not end in one. */
  lemma BlocksEndCleanly(events: seq<Event>, render: When -> string)
    requires events != []
    requires forall e :: e in events ==> Formattable(e)
    requires EndsWithoutNewline(events[|events| - 1], render)
    ensures var raw := Blocks(events, render); |raw| >= 2 && raw[|raw| - 1] == '\n' && raw[|raw| - 2] != '\n'
  {
    var n := |events|;
    var e := events[n - 1];
    assert events == events[..n - 1] + [e];
    BlocksSnoc(events[..n - 1], e, render);
    BlockEndsCleanly(e, render);
    LastTwo(Blocks(events[..n - 1], render), Block(e, render));
  }

  /** No events (an empty list, a body without an `events` key, or a failed
      fetch) make an empty message. */
  lemma NoEventsEmptyMessage(body: Option<Reply>, render: When -> string)
    requires body.None? || !body.value.EventList? || body.value.events == []
    ensures StripNewlines(Blocks(FetchedEvents(body), render)) == ""
  {
  }

  /** The text posted to the channel for the fetched body: `None` when an
      event lacks one of the four keys (the task raises before posting),
      else the blocks with leading and trailing newlines stripped. The
      outcome of the post itself is not observable: its error is only
      logged. */
  method ProcessAndPostEvents(body: Option<Reply>, render: When -> string) returns (posted: Option<string>)
    ensures posted.None? <==> exists e :: e in FetchedEvents(body) && !Formattable(e)
    ensures posted.Some? ==> posted.value == StripNewlines(Blocks(FetchedEvents(body), render))
  {
    var events := FetchedEvents(body);
    var message := "";
    var i := 0;
    while i < |events|
      invariant 0 <= i <= |events|
      invariant forall e :: e in events[..i] ==> Formattable(e)
      invariant message == Blocks(events[..i], render)
    {
      var event := events[i];
      if !Formattable(event) {
        return None;
      }
      BlocksSnoc(events[..i], event, render);
      assert events[..i + 1] == events[..i] + [event];
      message := message + Block(event, render);
      i := i + 1;
    }
    assert events[..i] == events;
    message := StripNewlines(message);
    posted := Some(message);
  }
}
