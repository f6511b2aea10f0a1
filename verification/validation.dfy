/**
 * The slot validator: checks the track, then the date, then the time, and
 * reports the first slot that fails, with an optional message for the user.
 */
module Validation {
  import opened Wrappers
  import opened Text

  /** A calendar date, as the date parser yields it. */
  datatype Date = Date(year: int, month: int, day: int)

  /** The one day the conference runs. */
  const ConferenceDate := Date(2017, 11, 8)

  /** The three slots of the booking intent. */
  const SessionTypeSlot := "SessionType"
  const SessionDateSlot := "SessionDate"
  const SessionTimeSlot := "SessionTime"

  /** A message to show the user. */
  datatype Message = Message(contentType: string, content: string)

  const PlainText := "PlainText"

  /**
   * The validator's verdict. `message` is `None` when the result was built
   * without one: the dictionary then has no `message` key at all.
   */
  datatype ValidationResult = ValidationResult(isValid: bool, violatedSlot: Option<string>, message: Option<Message>)

  /** The Python exceptions the dialog handler can raise. */
  datatype Fault =
    | KeyError(key: string)                // a missing dictionary key
    | UnpackError(expected: nat, got: nat) // ValueError: `a, b = parts` with the wrong count
    | NoneSubscripted                      // TypeError: a field read from `None`
    | Unsupported(message: string)         // the plain Exception raised for an unknown intent

  const UnreadableDateMessage := "I did not understand that, what date would you like to check? e.g. 2017-11-08"
  const WrongDateMessage := "Sorry, we only have one day agenda for this demo. Please input the conference day 2017-11-08."
  const HoursMessage := "The conference hours are from 9am to 6pm. Can you specify a time during this range?"

  function UnknownTrackMessage(t: string): string {
    "We cannot find a track named " + t + ". The available tracks are Inspire Me, Tech Specific and Seminar"
  }

  /** Wraps the message text, if any, as plain text. */
  function BuildValidationResult(isValid: bool, violatedSlot: Option<string>, content: Option<string>): (r: ValidationResult)
    ensures r.isValid == isValid && r.violatedSlot == violatedSlot
    ensures r.message.Some? <==> content.Some?
    ensures r.message.Some? ==> r.message.value.contentType == PlainText && r.message.value.content == content.value
  {
    match content
    case None => ValidationResult(isValid, violatedSlot, None)
    case Some(c) => ValidationResult(isValid, violatedSlot, Some(Message(PlainText, c)))
  }

  /** `hour, minute = t.split(':')`: exactly two pieces, or a ValueError. */
  function UnpackTime(t: string): Result<(string, string), Fault> {
    var parts := Split(t, ':');
    if |parts| == 2 then Ok((parts[0], parts[1])) else Err(UnpackError(2, |parts|))
  }

  /** Five characters around one colon, with an integer on each side. */
  predicate TimeReadable(t: string) {
    |t| == 5 && |Split(t, ':')| == 2 && ParseInt(Split(t, ':')[0]).Some? && ParseInt(Split(t, ':')[1]).Some?
  }

  /** The hour of a readable time. */
  function Hour(t: string): int
    requires TimeReadable(t)
  {
    ParseInt(Split(t, ':')[0]).value
  }

  /** A present time must be readable with an hour from 8 to 17; the minutes are not bounded. */
  predicate TimeAccepted(t: Option<string>) {
    t.None? || (TimeReadable(t.value) && 8 <= Hour(t.value) <= 17)
  }

  /**
   * The time check, for a time that is present: it raises exactly when the
   * time has five characters but not one colon, and accepts exactly the
   * times `TimeAccepted` describes.
   */
  function CheckTime(t: string): (r: Result<ValidationResult, Fault>)
    ensures r.Err? <==> |t| == 5 && |Split(t, ':')| != 2
    ensures r.Err? ==> r.error == UnpackError(2, |Split(t, ':')|)
    ensures r.Ok? ==> (r.value.isValid <==> TimeAccepted(Some(t)))
    ensures r.Ok? ==> r.value.violatedSlot == if r.value.isValid then None else Some(SessionTimeSlot)
    ensures r.Ok? && r.value.isValid ==> r.value.message.None?
  {
    if |t| != 5 then
      Ok(BuildValidationResult(false, Some(SessionTimeSlot), None))
    else
      match UnpackTime(t)
      case Err(e) => Err(e)
      case Ok((h, m)) =>
        var hour, minute := ParseInt(h), ParseInt(m);
        if hour.None? || minute.None? then
          Ok(BuildValidationResult(false, Some(SessionTimeSlot), None))
        else if hour.value < 8 || hour.value > 17 then
          Ok(BuildValidationResult(false, Some(SessionTimeSlot), Some(HoursMessage)))
        else
          Ok(BuildValidationResult(true, None, None))
  }

  /** Unpacking raises exactly for a five-character time without exactly one colon. */
  lemma TimeRaisesUnlessOneColon(t: string)
    ensures CheckTime(t).Err? <==> |t| == 5 && Count(t, ':') != 1
  {
    SplitJoin(t, ':');
  }

  // Reference definitions of what the other two slots must satisfy.

  /** An absent track passes; a present one must be listed once lower-cased. */
  predicate TrackAccepted(t: Option<string>, types: seq<string>) {
    t.None? || Lower(t.value) in types
  }

  /** An absent date passes; a present one must parse to the conference day. */
  predicate DateAccepted(d: Option<string>, parseDate: string -> Option<Date>) {
    d.None? || parseDate(d.value) == Some(ConferenceDate)
  }

  /**
   * Checks the track, the date and the time in that order and reports the
   * first violation. A five-character time without exactly one colon makes
   * the unpacking of its two parts raise.
   */
  function Validate(sessionType: Option<string>, sessionDate: Option<string>, sessionTime: Option<string>,
                    types: seq<string>, parseDate: string -> Option<Date>): (r: Result<ValidationResult, Fault>)
    ensures r.Err? <==>
              && TrackAccepted(sessionType, types) && DateAccepted(sessionDate, parseDate)
              && sessionTime.Some? && |sessionTime.value| == 5 && |Split(sessionTime.value, ':')| != 2
    ensures r.Err? ==> r.error == UnpackError(2, |Split(sessionTime.value, ':')|)
    ensures r.Ok? ==>
              (r.value.isValid <==>
                 TrackAccepted(sessionType, types) && DateAccepted(sessionDate, parseDate) && TimeAccepted(sessionTime))
    ensures r.Ok? && r.value.isValid ==> r.value.violatedSlot.None? && r.value.message.None?
    ensures r.Ok? && !r.value.isValid ==>
              r.value.violatedSlot == Some(if !TrackAccepted(sessionType, types) then SessionTypeSlot
                                           else if !DateAccepted(sessionDate, parseDate) then SessionDateSlot
                                           else SessionTimeSlot)
  {
    if sessionType.Some? && Lower(sessionType.value) !in types then
      Ok(BuildValidationResult(false, Some(SessionTypeSlot), Some(UnknownTrackMessage(sessionType.value))))
    else if sessionDate.Some? && parseDate(sessionDate.value).None? then
      Ok(BuildValidationResult(false, Some(SessionDateSlot), Some(UnreadableDateMessage)))
    else if sessionDate.Some? && parseDate(sessionDate.value).value != ConferenceDate then
      Ok(BuildValidationResult(false, Some(SessionDateSlot), Some(WrongDateMessage)))
    else if sessionTime.Some? then
      CheckTime(sessionTime.value)
    else
      Ok(BuildValidationResult(true, None, None))
  }

  /**
   * An unknown track is reported first, whatever the date and time, with a
   * message naming the track as given.
   */
  lemma TrackCheckWins(sessionType: Option<string>, sessionDate: Option<string>, sessionTime: Option<string>,
                       types: seq<string>, parseDate: string -> Option<Date>)
    requires sessionType.Some? && Lower(sessionType.value) !in types
    ensures Validate(sessionType, sessionDate, sessionTime, types, parseDate)
            == Ok(ValidationResult(false, Some(SessionTypeSlot), Some(Message(PlainText, UnknownTrackMessage(sessionType.value)))))
  {
  }

  /**
   * With an accepted track, an unreadable date and a date other than the
   * conference day are told apart by their messages.
   */
  lemma DateMessages(sessionType: Option<string>, d: string, sessionTime: Option<string>,
                     types: seq<string>, parseDate: string -> Option<Date>)
    requires TrackAccepted(sessionType, types) && parseDate(d) != Some(ConferenceDate)
    ensures Validate(sessionType, Some(d), sessionTime, types, parseDate)
            == Ok(ValidationResult(false, Some(SessionDateSlot),
                    Some(Message(PlainText, if parseDate(d).None? then UnreadableDateMessage else WrongDateMessage))))
  {
  }

  /**
   * With the track and date accepted, a time that is not five characters
   * long, or whose parts are not integers, is rejected without a message.
   */
  lemma MalformedTimeHasNoMessage(sessionType: Option<string>, sessionDate: Option<string>, t: string,
                                  types: seq<string>, parseDate: string -> Option<Date>)
    requires TrackAccepted(sessionType, types) && DateAccepted(sessionDate, parseDate)
    requires |t| != 5 || (|Split(t, ':')| == 2 && !TimeReadable(t))
    ensures Validate(sessionType, sessionDate, Some(t), types, parseDate)
            == Ok(ValidationResult(false, Some(SessionTimeSlot), None))
  {
  }

  /**
   * With the track and date accepted, a readable time whose hour is before 8
   * or after 17 is rejected with the business-hours message, which speaks of
   * 9am to 6pm.
   */
  lemma OutOfHoursMessage(sessionType: Option<string>, sessionDate: Option<string>, t: string,
                          types: seq<string>, parseDate: string -> Option<Date>)
    requires TrackAccepted(sessionType, types) && DateAccepted(sessionDate, parseDate)
    requires TimeReadable(t) && !(8 <= Hour(t) <= 17)
    ensures Validate(sessionType, sessionDate, Some(t), types, parseDate)
            == Ok(ValidationResult(false, Some(SessionTimeSlot), Some(Message(PlainText, HoursMessage))))
  {
  }

  /** Nothing supplied yet is valid, with no slot and no message. */
  lemma AllAbsentIsValid(types: seq<string>, parseDate: string -> Option<Date>)
    ensures Validate(None, None, None, types, parseDate) == Ok(ValidationResult(true, None, None))
  {
  }

  /** A zero-padded `HH:MM` reading is split at its colon into two two-digit numbers. */
  lemma ClockIsReadable(t: string)
    requires IsClock(t)
    ensures TimeReadable(t)
    ensures Hour(t) == 10 * DigitValue(t[0]) + DigitValue(t[1])
  {
    assert t == t[..2] + [':'] + t[3..];
    SplitOne(t[..2], t[3..], ':');
    ParseTwoDigits(t[..2]);
    ParseTwoDigits(t[3..]);
  }

  /** "07:59" is rejected for its hour. */
  lemma BeforeEightRejected(types: seq<string>, parseDate: string -> Option<Date>)
    ensures Validate(None, None, Some("07:59"), types, parseDate)
            == Ok(ValidationResult(false, Some(SessionTimeSlot), Some(Message(PlainText, HoursMessage))))
  {
    ClockIsReadable("07:59");
  }

  /** "17:59" is accepted: the hour 17 is the last one allowed. */
  lemma LastHourAccepted(types: seq<string>, parseDate: string -> Option<Date>)
    ensures Validate(None, None, Some("17:59"), types, parseDate) == Ok(ValidationResult(true, None, None))
  {
    ClockIsReadable("17:59");
  }

  /** "12:75" is accepted, as minutes are never range-checked. */
  lemma MinutesUnchecked(types: seq<string>, parseDate: string -> Option<Date>)
    ensures Validate(None, None, Some("12:75"), types, parseDate) == Ok(ValidationResult(true, None, None))
  {
    var t := "12:75";
    assert t == t[..2] + [':'] + t[3..];
    SplitOne(t[..2], t[3..], ':');
    ParseTwoDigits(t[..2]);
    ParseTwoDigits(t[3..]);
  }
}
