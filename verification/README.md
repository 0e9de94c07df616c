# Shifty, the FabLab bot: a Dafny model

Shifty is two small HTTP services. The **calendar bot** reads the current
UTC day's events from a calendar provider. Its `/events` endpoint returns
them, and its `/check_shifts` endpoint selects the *closed shifts*: events
whose summary contains both `Shift` and `Closed`. It runs a business-logic
hook once per closed shift. The **Slack bot** fetches `/events` in a
background task, formats every event as a four-line block and posts the
text to a chat channel.

This project models the logic of both services as pure functions over
immutable values:

- `Wrappers`: `Option` (an absent JSON key, or Python's `None`) and `Result`
  (a value, or the error a library call raised).
- `Text`: Python's case-sensitive substring test `pat in s`,
  `s.strip('\n')` with a uniqueness characterisation, and code-point
  string order.
- `DayWindow`: the `timeMin`/`timeMax` strings of `get_today_events`, built
  from a date passed in as a parameter, with zero-padded digits that
  parse back.
- `Events`: the event record, the closed-shift filter `check_shifts`
  (a function as its specification and the loop as a method), and the
  start-time fallback.
- `Credentials`: the decision of `get_credentials` (use, refresh or run
  the consent flow, then persist) and the lazily built client slot of
  `get_calendar_service`, as a state machine whose library calls are
  inputs.
- `CalendarBot`: the reply bodies of `/events` and `/check_shifts`, the
  business-logic log, and both endpoints composed with the client slot.
- `SlackBot`: the fetch fallback to `{}`, the message blocks, the
  stripping, and the task as a loop.
- `WorkedExample`: a closed morning shift next to a team sync. The filter
  is checked on both events and the message on the shift alone.

Facts about the code that the model keeps:

- Each event is written as a four-line block:
  `ID: …, \nSummary: …, \nStart: …, \nEnd: …\n`.
- Only a loaded credential that is not valid, has expired and carries a
  refresh token is refreshed. Every other non-valid case runs the
  interactive flow, including a credential that is invalid but not
  expired.
- The Slack bot posts every `/events` item, unfiltered.
- The markers `"Shift"` and `"Closed"` are hard-coded.

## Model

| member | source | states |
|---|---|---|
| Text.ContainsIffOccurs | calendar_bot/app.py:81 | the left-to-right substring search succeeds exactly when the pattern occurs at some index, case-sensitively |
| Text.StripNewlines | slack_bot/app.py:44 | the result is an infix of the input, only `'\n'` characters are cut from either end, and it neither starts nor ends with `'\n'` |
| Text.StripUnique | slack_bot/app.py:44 | any infix obtained by cutting only newlines that neither starts nor ends with a newline is the strip result, so the strip is fully determined |
| DayWindow.ParsePad | calendar_bot/app.py:57-58 | a number below `10^width`, zero-padded to `width` digits as `isoformat` writes it, parses back to the same number |
| DayWindow.IsoDateRoundTrip | calendar_bot/app.py:53-58 | the `YYYY-MM-DD` prefix of the window parses back to the date it was built from |
| DayWindow.TodayWindow | calendar_bot/app.py:52-58 | both bounds are 20 characters long and share the date prefix, which reads back as today; they end in `T00:00:00Z` and `T23:59:59Z`; `timeMin` sorts strictly before `timeMax` |
| DayWindow.TodayWindowInjective | calendar_bot/app.py:53-58 | different valid dates give different windows |
| Events.ClosedShiftIff | calendar_bot/app.py:79-82 | an event is a closed shift exactly when both `Shift` and `Closed` occur in its summary, where a missing summary is read as `''` |
| Events.NoSummaryIsNotClosed | calendar_bot/app.py:80-81 | an event without a summary is read as `''` and is never a closed shift |
| Events.ClosedShifts | calendar_bot/app.py:72-83 | the result is no longer than the input and holds exactly the input's events that are closed shifts |
| Events.ClosedShiftsIsSubsequence | calendar_bot/app.py:78-83 | the filter's result is a subsequence of the input, so input order is kept and nothing is added |
| Events.ClosedShiftsCounts | calendar_bot/app.py:78-83 | each closed shift occurs in the result exactly as often as in the input, and no other event occurs, so nothing is dropped or duplicated |
| Events.ClosedShiftsAppend | calendar_bot/app.py:79-82 | filtering a concatenation gives the concatenation of the filtered parts |
| Events.ClosedShiftsIdempotent | calendar_bot/app.py:81 | filtering an already filtered list returns it unchanged |
| Events.CheckShifts | calendar_bot/app.py:72-83 | the single pass that appends each matching event computes exactly the filter |
| Events.StartTime | calendar_bot/app.py:93 | the reported start is `start.dateTime` when present, else `start.date`, and nothing when `start` is missing |
| Credentials.GetCredentials | calendar_bot/app.py:23-44 | a valid stored credential is returned with no refresh, flow or write; an expired one with a refresh token is refreshed and never goes through the flow, and succeeds exactly when the refresh does, returning its credential; every other case runs the flow and never refreshes, and succeeds exactly when the flow does, returning its credential; a non-valid case writes the token file exactly when it succeeds, and what it writes last is what it returns; a non-valid case takes exactly two actions on success (the step and the write) and exactly one on failure, so nothing is retried; a failure reports the refresh or the flow, whichever step ran |
| Credentials.SavedCredentialIsReused | calendar_bot/app.py:30-43 | a credential that was written and is still valid when the next run reloads it is returned by that run with no library call |
| Credentials.GetCalendarService | calendar_bot/app.py:101-107 | a filled slot is returned untouched with no action; from an empty slot the credential actions come first, a client is returned exactly when acquisition succeeds, and it holds the acquired credential; the slot is filled exactly when a client is returned; a client is built only from an empty slot and only on success, and from an empty slot nothing happens besides the credential actions and that one build; a failure carries the credential error |
| Credentials.BuiltAtMostOnce | calendar_bot/app.py:98-107 | over any run of requests a filled slot never changes and causes no action, and the client is built at most once |
| CalendarBot.EventsReply | calendar_bot/app.py:125-127 | `/events` returns "No events found for today." exactly when the list is empty, and otherwise the list unchanged |
| CalendarBot.BusinessLogicLog | calendar_bot/app.py:86-94 | the hook logs one line per shift, in the shifts' order |
| CalendarBot.CheckShiftsReply | calendar_bot/app.py:137-146 | `/check_shifts` returns "All shift events are open." exactly when the filter selects nothing; otherwise it returns the selected shifts and logs one business-logic line per shift, in order |
| CalendarBot.AllOpenIffNoClosedShift | calendar_bot/app.py:137-146 | the all-open message is returned exactly when no listed event is a closed shift |
| CalendarBot.EventsEndpoint | calendar_bot/app.py:118-127 | with client construction and the listing call taken as never raising, `/events` fails exactly when the slot is empty and acquiring credentials raises; on success it returns the reply for today's listed events; the slot and actions left behind are those of the client lookup, so a warm slot causes no credential action; a failure carries the lookup's error, which is the credential error |
| CalendarBot.CheckShiftsEndpoint | calendar_bot/app.py:130-146 | with client construction and the listing call taken as never raising, `/check_shifts` fails exactly when the slot is empty and acquiring credentials raises; on success it returns the closed-shift reply for today's listed events; the slot and actions left behind are those of the client lookup; a failure carries the lookup's error, which is the credential error |
| CalendarBot.TodayEvents | calendar_bot/app.py:60-69 | the events of the day are the `items` the provider lists for today's window, or none when its answer has no `items` key |
| CalendarBot.BusinessLogicLine | calendar_bot/app.py:92-94 | the printed line starts with `Shift still closed: '`, the summary (or `No Title`) and `' at `, and ends with `. Executing business logic.`; its length is exactly prefix, rendered start time and that sentence, so with `LogLineReportsStart` nothing else is printed |
| CalendarBot.LogLineReportsStart | calendar_bot/app.py:93-94 | right after the prefix the line carries the start time: `start.dateTime` when present, else `start.date`, and `None` when `start` is missing |
| SlackBot.BlockShape | slack_bot/app.py:43 | a block starts with `ID: `, the id and `, \nSummary: `, and ends with `, \nEnd: `, the rendered end and a newline |
| SlackBot.FetchedEvents | slack_bot/app.py:32-42 | the notifier reads the `events` list of a fetched body; a failed fetch, which becomes `{}`, and a body without an `events` key give no events |
| SlackBot.EventsRoundTrip | slack_bot/app.py:42 | whatever `/events` replies, including its empty-day message, the notifier reads back exactly the listed events |
| SlackBot.Blocks | slack_bot/app.py:40-43 | the unstripped message is empty exactly for no events, and otherwise starts with `ID: ` and ends with a newline |
| SlackBot.BlocksSnoc | slack_bot/app.py:42-43 | appending an event appends its four-line block, so the message is the in-order concatenation of one block per event |
| SlackBot.MessageDropsFinalNewline | slack_bot/app.py:43-44 | for a non-empty list whose last `end` rendering does not end in a newline, the posted text is the blocks minus only the final newline |
| SlackBot.NoEventsEmptyMessage | slack_bot/app.py:32-44 | a failed fetch, a body without `events` or an empty list yields the empty message |
| SlackBot.ProcessAndPostEvents | slack_bot/app.py:29-51 | the task stops without posting exactly when some fetched event lacks `id`, `summary`, `start` or `end`; otherwise it posts the stripped concatenation of the blocks |
| WorkedExample.WorkedExampleFilter | calendar_bot/app.py:72-83 | of "Morning Shift Closed" and "Team Sync" only the first is selected |
| WorkedExample.WorkedExampleMessage | slack_bot/app.py:40-44 | the shift alone is posted as four lines without a trailing newline |

## Left out

- The health checks `read_root` of both services are left out. They return constant messages.
- The `/post_events` endpoint and its `BackgroundTasks` scheduling are left out. They are framework plumbing, and the scheduled task itself is `SlackBot.ProcessAndPostEvents`.
- OAuth mechanics are left out: unpickling and pickling the token file, `Request()`, `InstalledAppFlow` and `run_local_server`. Their outcomes are the fields of `Credentials.Provider`.
- A raising load or write of the token file is not modelled: `pickle.load` on a corrupt file (calendar_bot/app.py:31-32) and `open(TOKEN_FILE, 'wb')` or `pickle.dump` failing (calendar_bot/app.py:42-43). Both propagate out of `get_credentials` and fail `/events` and `/check_shifts`; `Credentials.GetCredentials` fails only through the refresh or the consent flow, so the endpoints' "fails exactly when acquiring credentials raises" covers only those two causes.
- Credentials.SavedCredentialIsReused: validity is a stored bit of `Cred`, taken as unchanged between writing the token file and reloading it. In the library `valid` is recomputed from the stored expiry against the clock, so a credential written while valid is refreshed by a later run once it has expired; the lemma covers only a reload while it is still valid.
- A token file holding a falsy object is treated like a missing file. In both cases the code's `not creds` holds.
- Building the Google client and `events().list().execute()` are left out. The listing is the `listEvents` parameter, which receives the day window and returns the `items` list, or `None` when the key is absent.
- The calendar id, `singleEvents=True` and `orderBy='startTime'` query arguments are not modelled. They only steer the provider, whose answer is an input.
- `datetime.utcnow()` is replaced by the `today` parameter.
- `httpx`, `raise_for_status()` and `response.json()` are left out. Their only modelled effect is the choice between a parsed body and `{}`, written as `Option<Reply>`. Bodies that are not one of the calendar bot's reply shapes are not modelled.
- `chat_postMessage` and the `SlackApiError` handler are left out. The task returns the text it would post, because a posting error is only printed and never changes anything observable.
- `print` calls are left out, except two: the business-logic lines are kept as a log, and the client construction appears as the `Build` action. The error prints are dropped.
- CalendarBot.EventsEndpoint: a raising client construction (`build`) or listing call (`events().list().execute()`) is not modelled; both are library calls, taken here to return, so the endpoint fails only through credential acquisition.
- CalendarBot.CheckShiftsEndpoint: a raising client construction or listing call is not modelled, for the same reason.
- Concurrency is left out, including the unguarded race on first initialisation of the global client slot. Requests are modelled as running one after another.
- Python's `str()` of a `start`/`end` object is the opaque `render` parameter. It sees only `dateTime` and `date`, so renderings are taken to depend on those two keys alone. In the code `str()` prints every key of the object, such as the `timeZone` that comes with a `dateTime`, so two starts that differ only in such a key render alike here but not in the code.
- Event keys other than `id`, `summary`, `start`/`end` and their `date`/`dateTime` are left out. The calendar bot never reads them, and `/events` passes them through to the Slack bot; the Slack bot's block writes only `id`, `summary` and the two renderings.
- A key present with a JSON `null` value, such as `"summary": null`, is not modelled. A key is either absent or holds a string.
