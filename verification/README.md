# Conference agenda booking dialog, modelled in Dafny

This project models the dialog code hook of a slot-filling chat bot that books
one session of a one-day conference (`checkConferenceAgenda.py`). The bot sends
one turn at a time. Each turn carries three slots: the track (`SessionType`),
the day (`SessionDate`) and a `HH:MM` time (`SessionTime`). The handler answers
with one of four dialog actions:

- it re-prompts for the first slot that fails validation, and clears that slot;
- it asks for the track once the day and time are known, with a digest of what
  each track offers next and a card of at most five track buttons;
- it asks for confirmation of the session found once all three are known;
- it delegates back to the bot otherwise, and closes the conversation on the
  fulfilment turn.

Modules:

- `Wrappers`: `Option` and `Result`.
- `Text`: the Python string built-ins the handler relies on, given their Python
  meaning. These are `str.lower`, `<` on strings, `str.split`, `str.strip` and
  `int()` on a string. The lemma `ClockOrder` shows why comparing `HH:MM`
  strings compares times.
- `Agenda`: sessions, buttons and response cards. It holds the session matcher
  (`FindSession`), the track-button builder (`BuildOptions`), the card builder
  (`BuildResponseCard`) and the per-track digest (`DescribeTracks`). Each is a
  loop proved against a specification function: `SessionFor`, `OptionsFor`,
  `CardFor` or `DigestBody`. Lemmas then state what those functions promise.
- `Validation`: the slot validator, `Validate`, a pure function with an
  explicit error outcome. `Fault` names the Python exceptions the handler can
  raise.
- `Dialog`: the turn handler. The slot dictionary is a `SlotSet` object that
  `BookSession` changes in place, and `Dispatch` is the intent router. `Decide`
  is the reference decision of one turn. The decision table is stated as one
  lemma per row. These lemmas hold for any agenda; the handler itself uses the
  conference's own, `ConferenceAgenda`. The module ends with a worked example
  on that agenda: at 10:15 the next "Inspire Me" session is the one at 10:30,
  and a complete turn offers it for confirmation.

Things the handler cannot compute itself become parameters or are modelled
explicitly:

- The date parser (`dateutil`) is the parameter `parseDate`.
- The exception paths modelled as `Err` outcomes carrying a `Fault` are:
  reading a missing slot, unpacking a five-character time that does not hold
  exactly one colon, reading the fields of a session that was not found, and
  an unknown intent. The `KeyError` for a missing `message` key at line 224 is
  modelled apart, as a finding (see below).

In these places the model keeps the code's behaviour as written:

- Minutes are never range-checked, so "12:75" is a valid time (`MinutesUnchecked`).
- A five-character time with no colon or with two colons (such as "10-15" or
  "1:2:3") makes the handler raise.
- A confirmation turn whose valid slots match no session raises.
- The business-hours message speaks of 9am to 6pm, while the enforced hours are
  8 to 17.

## Model

| member | source | states |
|---|---|---|
| Text.Lower | checkConferenceAgenda.py:149 | ASCII `str.lower` keeps the length and folds each character on its own |
| Text.ClockOrder | checkConferenceAgenda.py:150 | on zero-padded `HH:MM` readings, string `<` holds exactly when the first reading is the earlier time, which is what the start comparison relies on |
| Text.SplitJoin | checkConferenceAgenda.py:174 | `split(':')` loses nothing: joining the pieces gives the string back, no piece holds a colon, and there is one piece more than there are colons |
| Text.SplitOne | checkConferenceAgenda.py:174 | a string with exactly one colon splits into the text before it and the text after it |
| Text.ParseTwoDigits | checkConferenceAgenda.py:115-119 | `int()` of two decimal digits is the two-digit number, a leading zero included |
| Text.ParseIntDecimal | checkConferenceAgenda.py:115-119 | `int(str(n)) == n` and `int("-" + str(n)) == -n` for every natural `n` |
| Text.ParseIntIgnoresSpace | checkConferenceAgenda.py:115-119 | `int()` gives the same answer, number or failure, when white space is added before or after its argument |
| Validation.BuildValidationResult | checkConferenceAgenda.py:122-133 | the flag and the slot are kept; a message is present exactly when message text was given, and it is that text as plain text |
| Validation.CheckTime | checkConferenceAgenda.py:168-183 | for a present time: it raises exactly when the time has five characters but does not split into two pieces; otherwise it is valid exactly when it is readable with an hour from 8 to 17, and a rejection names `SessionTime` |
| Validation.TimeRaisesUnlessOneColon | checkConferenceAgenda.py:174 | the time check raises exactly for a five-character time that does not hold exactly one colon |
| Validation.Validate | checkConferenceAgenda.py:154-185 | it raises only when track and date pass and the present time is five characters without exactly two pieces; it is valid exactly when all three slots are accepted; a valid result has no slot and no message; an invalid one names the first failing slot, checking track, then date, then time |
| Validation.TrackCheckWins | checkConferenceAgenda.py:155-159 | a present track that is unknown once lower-cased is reported on `SessionType`, whatever the date and time, with the message naming the track as given |
| Validation.DateMessages | checkConferenceAgenda.py:161-166 | with the track accepted, an unparsable date and a date other than 2017-11-08 are rejected on `SessionDate` with their two different messages |
| Validation.MalformedTimeHasNoMessage | checkConferenceAgenda.py:170-179 | with track and date accepted, a time that is not five characters long, or whose two parts are not integers, is rejected on `SessionTime` without a message |
| Validation.OutOfHoursMessage | checkConferenceAgenda.py:181-183 | with track and date accepted, a readable time whose hour is below 8 or above 17 is rejected on `SessionTime` with the "9am to 6pm" message |
| Validation.AllAbsentIsValid | checkConferenceAgenda.py:185 | with all three slots absent the result is valid, with no slot and no message |
| Validation.ClockIsReadable | checkConferenceAgenda.py:170-176 | every zero-padded `HH:MM` reading passes the length, split and integer checks, and its hour is its first two digits |
| Validation.BeforeEightRejected | checkConferenceAgenda.py:181-183 | "07:59" is rejected on `SessionTime` with the business-hours message |
| Validation.LastHourAccepted | checkConferenceAgenda.py:181-185 | "17:59" is valid: 17 is the last hour allowed |
| Validation.MinutesUnchecked | checkConferenceAgenda.py:174-185 | "12:75" is valid, because the minutes are parsed but never range-checked |
| Agenda.FindSession | checkConferenceAgenda.py:144-151 | the scan returns exactly `SessionFor`: nothing without a non-empty track, else the first qualifying session in agenda order |
| Agenda.FirstFromIsFirst | checkConferenceAgenda.py:148-151 | scanning from position `i` finds nothing exactly when nothing from `i` on qualifies; otherwise it finds a qualifying session at some position with nothing qualifying before it |
| Agenda.SessionForIsFirstMatch | checkConferenceAgenda.py:147-151 | with no track or an empty track nothing is found; otherwise nothing is found exactly when no session qualifies, and a found session matches the track ignoring case, has the date, starts after the time and is the first such session |
| Agenda.FirstFromSkips | checkConferenceAgenda.py:148-151 | sessions that do not qualify are passed over by the scan |
| Agenda.BeganBefore | checkConferenceAgenda.py:150 | sessions starting at or before the requested time are passed over, whatever their track and date |
| Agenda.SessionForIsEarliest | checkConferenceAgenda.py:145-151 | on an agenda ranked by start within each track and day, no qualifying session starts before the one found |
| Agenda.BuildOptions | checkConferenceAgenda.py:98-111 | the loop builds exactly `OptionsFor`: one button per listed track with a hit, in list order |
| Agenda.OptionsForAppend | checkConferenceAgenda.py:103-108 | the buttons for two consecutive track lists are the two button lists one after the other, so nothing is reordered |
| Agenda.OptionsForBound | checkConferenceAgenda.py:101-111 | there are never more buttons than tracks |
| Agenda.OptionsForSound | checkConferenceAgenda.py:103-108 | every button's value is a listed track with a hit, and its text is "<track> at <start>" of that hit |
| Agenda.OptionsForComplete | checkConferenceAgenda.py:103-108 | every listed track with a hit gets a button |
| Agenda.OptionsForDistinct | checkConferenceAgenda.py:103-108 | when no track is listed twice, no two buttons share a value |
| Agenda.CardFor | checkConferenceAgenda.py:76-95 | the envelope is the generic card type, version 1; title and subtitle are kept; buttons are absent exactly when there are no options; otherwise they are a prefix of the options, at most five long, and all of them when there are at most five |
| Agenda.BuildResponseCard | checkConferenceAgenda.py:81-85 | the copying loop builds exactly `CardFor`: the first `min(5, len(options))` options, in order |
| Agenda.DescribeTrack | checkConferenceAgenda.py:230-234 | one digest line: the track's next session with its name, start and end, or "None" |
| Agenda.DescribeTracks | checkConferenceAgenda.py:228-234 | the accumulated digest is the header followed by one line per track, in track order |
| Agenda.DigestBodyAppend | checkConferenceAgenda.py:229-234 | the digest of two consecutive track lists is the two digests one after the other |
| Dialog.Reprompt | checkConferenceAgenda.py:217-225 | the re-prompt elicits the violated slot with the validator's message, and agrees with the handler as written whenever there is a message |
| Dialog.BookSession | checkConferenceAgenda.py:191-287 | the turn's outcome and the slot dictionary afterwards are exactly those of the reference decision `Decide` on the slots as they were |
| Dialog.Dispatch | checkConferenceAgenda.py:292-305 | the booking intent is handled by `BookSession`; any other intent raises "Intent with name … not supported" and leaves the slots alone |
| Dialog.MissingSlotRaises | checkConferenceAgenda.py:203-205 | a missing slot key raises KeyError before anything else, and no slot changes |
| Dialog.FulfilmentTurnCloses | checkConferenceAgenda.py:273-287 | a turn from any source other than the dialog code hook closes as fulfilled with the rating card, without validating, and no slot changes |
| Dialog.ViolationReprompts | checkConferenceAgenda.py:216-225 | a validation failure clears the violated slot and no other, and elicits that slot with the validator's message and no card |
| Dialog.MissingTrackIsAskedFor | checkConferenceAgenda.py:227-249 | valid slots with a day and time but no track elicit `SessionType` with a card of at most five buttons, no two with the same value, with exactly one button for each known track that has a session after that time and none for any other |
| Dialog.CompleteSlotsAskForConfirmation | checkConferenceAgenda.py:251-267 | valid, complete, unconfirmed slots ask to confirm the session found, with a yes/no card; if none is found the handler raises |
| Dialog.OtherwiseDelegate | checkConferenceAgenda.py:269-271 | every other dialog-hook turn with valid slots is delegated to the bot with the slots unchanged |
| Dialog.OnlyTheElicitedSlotIsCleared | checkConferenceAgenda.py:214-225 | a turn adds and removes no slot, and the only slot it can change is cleared to null and then elicited again |
| Dialog.MalformedTimeRaisesAsWritten | checkConferenceAgenda.py:217-225 | the time "MO" fails validation without a message; the handler as written then raises KeyError('message'), and the corrected decision elicits the time with a null message |
| Dialog.InspireMeLower | checkConferenceAgenda.py:155 | "Inspire Me" lower-cases to the listed track "inspire me" |
| Dialog.FirstThreeBeganBeforeQuarterPastTen | checkConferenceAgenda.py:148-151 | at 10:15 the scan for "Inspire Me" passes over the sessions at 9:15, 9:30 and 10:00 |
| Dialog.FourthQualifiesAtQuarterPastTen | checkConferenceAgenda.py:148-151 | the 10:30 "Inspire Me" session qualifies at 10:15 |
| Dialog.NextInspireMeAfterQuarterPastTen | checkConferenceAgenda.py:144-151 | at 10:15 the matcher finds the 10:30 "Inspire Me" session |
| Dialog.QuarterPastTenIsValid | checkConferenceAgenda.py:154-185 | "Inspire Me" on the conference day at 10:15 passes every check |
| Dialog.QuarterPastTenIsOfferedForConfirmation | checkConferenceAgenda.py:251-267 | a dialog-hook turn with those slots, not yet confirmed, offers the 10:30 "Inspire Me" session for confirmation |

## Left out

- Logging: it has no effect on behaviour.
- `lambda_handler`, which sets the process time zone before dispatching, is not part of this model.
- Date parsing is the parameter `parseDate`, and the validator compares its result with 2017-11-08. The parser's grammar is not modelled, and neither are exceptions it raises other than a failure to parse.
- The agenda is a decoded sequence of sessions. Decoding its JSON text is not modelled.
- `parse_int` returns NaN on failure in the source. Here the result is an `Option`, so floating point is not modelled.
- `str.lower`, white space and digits are their ASCII parts. Unicode case folding and non-ASCII digits and spaces that Python accepts are not modelled.
- The exact wording of Python's exception messages is left out; `Fault` records only which exception is raised.
- `Dispatch` does not model the log line that reads the request's `userId`. A request without that key would raise there.
- A request is a record with every field present. The `KeyError`s raised when the request lacks `currentIntent`, its `name`, `slots` or `confirmationStatus`, or the top-level `sessionAttributes` or `invocationSource` (lines 17, 206, 207, 220, 251), are not modelled.
- Dialog.BookSession: a response carries a snapshot of the slot dictionary taken when it is built, not a reference to the shared dictionary object. The only write to the dictionary precedes the response that shows it, so the two agree.
- Agenda.DescribeTracks: the digest body is accumulated apart from its header and joined at the end, which gives the same string.
- Agenda.SessionForIsEarliest: the ranking it requires is not proved for the literal agenda. The examples on that agenda show the matcher's answers directly.
- Dialog.BookSession: uses the corrected re-prompt (see Findings). The handler as written is `Dialog.RepromptAsWritten`.

## Findings

| source | as written | input that shows it | evidently intended | confidence | as-written member | corrected member |
|---|---|---|---|---|---|---|
| checkConferenceAgenda.py:224 | the re-prompt reads `validation_result['message']`, but `build_validation_result` leaves out the `message` key when it has no message text (lines 123-127) | `SessionTime` = "MO" (any time that is not five characters long, or whose parts are not integers), sent through the dialog code hook with valid track and date | re-elicit `SessionTime` with a null message, so the bot uses its own prompt, as the comments at lines 171 and 178 say | high, not executed | Dialog.MalformedTimeRaisesAsWritten | Dialog.ViolationReprompts |
