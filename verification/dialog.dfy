/**
 * The dialog manager of the booking intent: one turn in, one dialog action
 * out. It validates the slots, re-prompts for the first bad one (clearing it
 * in the intent's slot dictionary), asks for the track when only the date
 * and time are known, asks for confirmation once everything is known, and
 * otherwise hands control back to the bot; on the fulfilment turn it closes.
 */
module Dialog {
  import opened Wrappers
  import opened Text
  import opened Agenda
  import opened Validation

  type SlotMap = map<string, Option<string>>
  type Attributes = map<string, string>

  /** The intent's slot dictionary, shared with the request and changed in place. */
  class SlotSet {
    var values: SlotMap

    constructor (values: SlotMap)
      ensures this.values == values
    {
      this.values := values;
    }
  }

  /** One turn's request; `sessionAttributes` is `None` when the bot sends null. */
  datatype IntentRequest = IntentRequest(
    intentName: string,
    slots: SlotSet,
    confirmationStatus: string,
    sessionAttributes: Option<Attributes>,
    invocationSource: string)

  /** The four dialog actions the handler can answer with. */
  datatype DialogAction =
    | ElicitSlot(intentName: string, slots: SlotMap, slotToElicit: string,
                 message: Option<Message>, responseCard: Option<ResponseCard>)
    | ConfirmIntent(intentName: string, slots: SlotMap, message: Option<Message>, responseCard: Option<ResponseCard>)
    | Delegate(slots: SlotMap)
    | Close(fulfillmentState: string, message: Option<Message>, responseCard: Option<ResponseCard>)

  datatype Response = Response(sessionAttributes: Option<Attributes>, dialogAction: DialogAction)

  /** What a turn produces: the response or the exception raised, and the slot dictionary afterwards. */
  datatype Turn = Turn(outcome: Result<Response, Fault>, slots: SlotMap)

  const IntentName := "CheckConferenceAgenda"
  const DialogCodeHook := "DialogCodeHook"
  const Fulfilled := "Fulfilled"

  /** The known tracks, lower-cased, in the order they are offered. */
  const Tracks: seq<string> := ["inspire me", "tech specific", "seminar"]

  /** The conference's one-day agenda, grouped by track and ordered by start. */
  const ConferenceAgenda: seq<Session> := [
      Session("Opening Remarks", "Inspire Me", "2017-11-08", "09:15", "09:30"),
      Session("How Technology Lets You Be YOU", "Inspire Me", "2017-11-08", "09:30", "10:00"),
      Session("The Invisible Made Visible", "Inspire Me", "2017-11-08", "10:00", "10:30"),
      Session("Business and Cultural Transformation in a Digital World", "Inspire Me", "2017-11-08", "10:30", "11:00"),
      Session("How Agile Tribes support WiT", "Inspire Me", "2017-11-08", "11:00", "11:30"),
      Session("The Road Ahead", "Inspire Me", "2017-11-08", "11:30", "12:00"),
      Session("Quantifying the Effect of D&I Policy", "Inspire Me", "2017-11-08", "12:00", "12:30"),
      Session("How We Try to Make a Lion Bulletproof", "Inspire Me", "2017-11-08", "12:30", "13:00"),
      Session("Leading Teams in Tech", "Inspire Me", "2017-11-08", "14:00", "14:30"),
      Session("Using Situational Awareness to Make Decisions", "Inspire Me", "2017-11-08", "14:30", "15:00"),
      Session("How to Take Charge of your Life-Work Balance and Succeed in Ever-Changing Technology World", "Inspire Me", "2017-11-08", "15:00", "15:30"),
      Session("The Road Less Traveled By: Engineering a Career in Cybersecurity", "Inspire Me", "2017-11-08", "16:00", "16:30"),
      Session("An Engineering Managers Toolkit", "Inspire Me", "2017-11-08", "16:30", "17:00"),
      Session("The Path for Women to Rule the Technology World", "Inspire Me", "2017-11-08", "17:00", "17:30"),
      Session("Big Data: Myths vs Realities", "Tech Specific", "2017-11-08", "11:30", "12:00"),
      Session("Browser Peer to Peer Connections for Fun and Profit", "Tech Specific", "2017-11-08", "12:00", "12:30"),
      Session("Building an AI that Respects your Privacy", "Tech Specific", "2017-11-08", "12:30", "13:00"),
      Session("Geek + E.I. = Success in AI", "Tech Specific", "2017-11-08", "14:00", "14:30"),
      Session("Machine Learning Around Us", "Tech Specific", "2017-11-08", "14:30", "15:00"),
      Session("Metabolic Modelling Software", "Tech Specific", "2017-11-08", "15:00", "15:30"),
      Session("Project Liftoff", "Tech Specific", "2017-11-08", "16:00", "16:30"),
      Session("New Kid on the Block(Chain)", "Tech Specific", "2017-11-08", "16:30", "17:00"),
      Session("Optimizing Scrolling Performance of UITableView&UICollectionView", "Tech Specific", "2017-11-08", "17:00", "17:30"),
      Session("Augmented Reality: Past, Present & Future", "Seminar", "2017-11-08", "12:30", "13:00"),
      Session("Afraid of being Found Out: Kicking Imposter Syndrome in its Stupid Face!", "Seminar", "2017-11-08", "14:00", "15:00"),
      Session("Developing for the Human Experience", "Seminar", "2017-11-08", "15:00", "15:30"),
      Session("How to Build a Team; Diversity & Gender Inclusivity", "Seminar", "2017-11-08", "17:00", "17:30")
    ]

  const TrackQuestion := "What track would you like to attend?"
  const SpecifyTrackTitle := "Specify Track"
  const ConfirmTitle := "Confirm attendence"
  const ConfirmSubTitle := "Do you want to book the session?"
  const YesNo: seq<Button> := [Button("yes", "yes"), Button("no", "no")]
  const BookedMessage := "Thank you. We have booked the session for you."
  const RateTitle := "Rate the session"
  const RateSubTitle := "What do you think about this session?"
  const Ratings: seq<Button> := [Button("Great!", "1"), Button("Fine.", "0"), Button("Boring :(", "-1")]

  function ConfirmText(s: Session): string {
    "Session " + s.name + " in the " + s.track + " track at " + s.start + " on " + s.date
  }

  /** The closing answer of the fulfilment turn, with the rating card. */
  function Fulfil(attributes: Option<Attributes>): Response {
    Response(attributes, Close(Fulfilled, Some(Message(PlainText, BookedMessage)),
                               Some(CardFor(RateTitle, RateSubTitle, Some(Ratings)))))
  }

  /** The request for the track: the digest of every track, then one button per track with a session. */
  function AskForTrack(attributes: Option<Attributes>, intentName: string, slots: SlotMap, date: string, time: string,
                       agenda: seq<Session>): Response {
    Response(attributes, ElicitSlot(intentName, slots, SessionTypeSlot,
      Some(Message(PlainText, DigestHeader + DigestBody(date, time, agenda, Tracks) + "\n" + TrackQuestion)),
      Some(CardFor(SpecifyTrackTitle, TrackQuestion, Some(OptionsFor(date, time, agenda, Tracks))))))
  }

  /** The request for confirmation of one session, with a yes/no card. */
  function AskToConfirm(attributes: Option<Attributes>, intentName: string, slots: SlotMap, s: Session): Response {
    Response(attributes, ConfirmIntent(intentName, slots, Some(Message(PlainText, ConfirmText(s))),
                                       Some(CardFor(ConfirmTitle, ConfirmSubTitle, Some(YesNo)))))
  }

  /**
   * The re-prompt for a violated slot as the handler is written: it reads the
   * result's `message` key, which a result built without a message lacks.
   */
  function RepromptAsWritten(attributes: Option<Attributes>, intentName: string, slots: SlotMap,
                             v: ValidationResult): Result<Response, Fault>
    requires v.violatedSlot.Some?
  {
    match v.message
    case None => Err(KeyError("message"))
    case Some(m) => Ok(Response(attributes, ElicitSlot(intentName, slots, v.violatedSlot.value, Some(m), None)))
  }

  /**
   * The re-prompt for a violated slot: elicit that slot again with the
   * validator's message, a missing message letting the bot use its own prompt.
   */
  function Reprompt(attributes: Option<Attributes>, intentName: string, slots: SlotMap, v: ValidationResult): (r: Response)
    requires v.violatedSlot.Some?
    ensures r.sessionAttributes == attributes && r.dialogAction.ElicitSlot?
    ensures r.dialogAction.slotToElicit == v.violatedSlot.value && r.dialogAction.message == v.message
    ensures RepromptAsWritten(attributes, intentName, slots, v) == if v.message.Some? then Ok(r) else Err(KeyError("message"))
  {
    Response(attributes, ElicitSlot(intentName, slots, v.violatedSlot.value, v.message, None))
  }

  /**
   * The decision of one turn, first match wins: reading the three slots
   * (each must be present), the fulfilment turn, a validation failure, date
   * and time without a track, everything known and not yet confirmed, and
   * otherwise delegation. Sessions are looked up in `agenda`; the handler's
   * own is `ConferenceAgenda`.
   */
  function Decide(req: IntentRequest, slots: SlotMap, agenda: seq<Session>, parseDate: string -> Option<Date>): Turn {
    if SessionTypeSlot !in slots then Turn(Err(KeyError(SessionTypeSlot)), slots)
    else if SessionDateSlot !in slots then Turn(Err(KeyError(SessionDateSlot)), slots)
    else if SessionTimeSlot !in slots then Turn(Err(KeyError(SessionTimeSlot)), slots)
    else if req.invocationSource != DialogCodeHook then Turn(Ok(Fulfil(req.sessionAttributes)), slots)
    else
      var sessionType, sessionDate, sessionTime := slots[SessionTypeSlot], slots[SessionDateSlot], slots[SessionTimeSlot];
      match Validate(sessionType, sessionDate, sessionTime, Tracks, parseDate)
      case Err(e) => Turn(Err(e), slots)
      case Ok(v) =>
        if !v.isValid then
          var cleared := slots[v.violatedSlot.value := None];
          Turn(Ok(Reprompt(req.sessionAttributes, req.intentName, cleared, v)), cleared)
        else Proceed(req, slots, sessionType, sessionDate, sessionTime, agenda)
  }

  /** The decision once the slots have passed validation. */
  function Proceed(req: IntentRequest, slots: SlotMap, sessionType: Option<string>, sessionDate: Option<string>,
                   sessionTime: Option<string>, agenda: seq<Session>): Turn {
    var output := Some(req.sessionAttributes.GetOr(map[]));
    if Truthy(sessionDate) && Truthy(sessionTime) && !Truthy(sessionType) then
      Turn(Ok(AskForTrack(output, req.intentName, slots, sessionDate.value, sessionTime.value, agenda)), slots)
    else if Truthy(sessionDate) && Truthy(sessionTime) && Truthy(sessionType) && req.confirmationStatus == "None" then
      match SessionFor(sessionType, sessionDate.value, sessionTime.value, agenda)
      case None => Turn(Err(NoneSubscripted), slots)
      case Some(s) => Turn(Ok(AskToConfirm(output, req.intentName, slots, s)), slots)
    else
      Turn(Ok(Response(output, Delegate(slots))), slots)
  }

  /** Handles one turn of the booking intent, clearing a violated slot in place. */
  method BookSession(req: IntentRequest, parseDate: string -> Option<Date>) returns (outcome: Result<Response, Fault>)
    modifies req.slots
    ensures Turn(outcome, req.slots.values) == Decide(req, old(req.slots.values), ConferenceAgenda, parseDate)
  {
    var slots := req.slots.values;
    if SessionTypeSlot !in slots {
      return Err(KeyError(SessionTypeSlot));
    }
    if SessionDateSlot !in slots {
      return Err(KeyError(SessionDateSlot));
    }
    if SessionTimeSlot !in slots {
      return Err(KeyError(SessionTimeSlot));
    }
    var sessionType, sessionDate, sessionTime := slots[SessionTypeSlot], slots[SessionDateSlot], slots[SessionTimeSlot];
    var output := if req.sessionAttributes.Some? then req.sessionAttributes else Some(map[]);

    if req.invocationSource == DialogCodeHook {
      var validation := Validate(sessionType, sessionDate, sessionTime, Tracks, parseDate);
      if validation.Err? {
        return Err(validation.error);
      }
      var v := validation.value;
      if !v.isValid {
        req.slots.values := req.slots.values[v.violatedSlot.value := None];
        return Ok(Response(req.sessionAttributes,
                           ElicitSlot(req.intentName, req.slots.values, v.violatedSlot.value, v.message, None)));
      }

      if Truthy(sessionDate) && Truthy(sessionTime) && !Truthy(sessionType) {
        var content := DescribeTracks(sessionDate.value, sessionTime.value, ConferenceAgenda, Tracks);
        var options := BuildOptions(sessionDate.value, sessionTime.value, ConferenceAgenda, Tracks);
        var card := BuildResponseCard(SpecifyTrackTitle, TrackQuestion, Some(options));
        return Ok(Response(output, ElicitSlot(req.intentName, slots, SessionTypeSlot,
                                              Some(Message(PlainText, content + "\n" + TrackQuestion)), Some(card))));
      }

      if Truthy(sessionDate) && Truthy(sessionTime) && Truthy(sessionType) && req.confirmationStatus == "None" {
        var session := FindSession(sessionType, sessionDate.value, sessionTime.value, ConferenceAgenda);
        if session.None? {
          return Err(NoneSubscripted);
        }
        var card := BuildResponseCard(ConfirmTitle, ConfirmSubTitle, Some(YesNo));
        return Ok(Response(output, ConfirmIntent(req.intentName, slots,
                                                 Some(Message(PlainText, ConfirmText(session.value))), Some(card))));
      }

      return Ok(Response(output, Delegate(slots)));
    }

    var card := BuildResponseCard(RateTitle, RateSubTitle, Some(Ratings));
    return Ok(Response(req.sessionAttributes, Close(Fulfilled, Some(Message(PlainText, BookedMessage)), Some(card))));
  }

  /** Routes a request by intent name; any intent but the booking one raises. */
  method Dispatch(req: IntentRequest, parseDate: string -> Option<Date>) returns (outcome: Result<Response, Fault>)
    modifies req.slots
    ensures req.intentName == IntentName ==>
              Turn(outcome, req.slots.values) == Decide(req, old(req.slots.values), ConferenceAgenda, parseDate)
    ensures req.intentName != IntentName ==>
              && outcome == Err(Unsupported("Intent with name " + req.intentName + " not supported"))
              && req.slots.values == old(req.slots.values)
  {
    if req.intentName == IntentName {
      outcome := BookSession(req, parseDate);
      return;
    }
    return Err(Unsupported("Intent with name " + req.intentName + " not supported"));
  }

  // ---------------------------------------------------------------------------
  // The decision table

  /** The three slots the handler reads are all present. */
  predicate SlotsPresent(slots: SlotMap) {
    SessionTypeSlot in slots && SessionDateSlot in slots && SessionTimeSlot in slots
  }

  /** Reading a missing slot raises before anything else happens, and changes nothing. */
  lemma MissingSlotRaises(req: IntentRequest, slots: SlotMap, agenda: seq<Session>, parseDate: string -> Option<Date>)
    requires !SlotsPresent(slots)
    ensures Decide(req, slots, agenda, parseDate).outcome.Err?
    ensures Decide(req, slots, agenda, parseDate).outcome.error.KeyError?
    ensures Decide(req, slots, agenda, parseDate).slots == slots
  {
  }

  /**
   * 1. A turn from any source other than the dialog code hook closes the
   * conversation as fulfilled, without validating, and leaves the slots alone.
   */
  lemma FulfilmentTurnCloses(req: IntentRequest, slots: SlotMap, agenda: seq<Session>, parseDate: string -> Option<Date>)
    requires SlotsPresent(slots) && req.invocationSource != DialogCodeHook
    ensures Decide(req, slots, agenda, parseDate).slots == slots
    ensures Decide(req, slots, agenda, parseDate).outcome.Ok?
    ensures var r := Decide(req, slots, agenda, parseDate).outcome.value;
            && r.sessionAttributes == req.sessionAttributes
            && r.dialogAction.Close? && r.dialogAction.fulfillmentState == Fulfilled
            && r.dialogAction.responseCard.Some? && r.dialogAction.responseCard.value.buttons == Some(Ratings)
  {
  }

  /**
   * 2. A validation failure clears the violated slot, and only it, and
   * elicits that slot again with the validator's message.
   */
  lemma ViolationReprompts(req: IntentRequest, slots: SlotMap, agenda: seq<Session>, parseDate: string -> Option<Date>)
    requires SlotsPresent(slots) && req.invocationSource == DialogCodeHook
    requires var v := Validate(slots[SessionTypeSlot], slots[SessionDateSlot], slots[SessionTimeSlot], Tracks, parseDate);
             v.Ok? && !v.value.isValid
    ensures var v := Validate(slots[SessionTypeSlot], slots[SessionDateSlot], slots[SessionTimeSlot], Tracks, parseDate).value;
            var t := Decide(req, slots, agenda, parseDate);
            && v.violatedSlot.Some?
            && t.slots.Keys == slots.Keys
            && t.slots[v.violatedSlot.value] == None
            && (forall k :: k in slots && k != v.violatedSlot.value ==> t.slots[k] == slots[k])
            && t.outcome == Ok(Response(req.sessionAttributes,
                                        ElicitSlot(req.intentName, t.slots, v.violatedSlot.value, v.message, None)))
  {
  }

  /**
   * 3. With valid slots, a date and a time but no track, the track is asked
   * for with a card of at most five buttons: exactly one for each known
   * track that has a session after that time, and no other.
   */
  lemma MissingTrackIsAskedFor(req: IntentRequest, slots: SlotMap, agenda: seq<Session>, parseDate: string -> Option<Date>)
    requires SlotsPresent(slots) && req.invocationSource == DialogCodeHook
    requires var v := Validate(slots[SessionTypeSlot], slots[SessionDateSlot], slots[SessionTimeSlot], Tracks, parseDate);
             v.Ok? && v.value.isValid
    requires Truthy(slots[SessionDateSlot]) && Truthy(slots[SessionTimeSlot]) && !Truthy(slots[SessionTypeSlot])
    ensures Decide(req, slots, agenda, parseDate).slots == slots
    ensures Decide(req, slots, agenda, parseDate).outcome.Ok?
    ensures var a := Decide(req, slots, agenda, parseDate).outcome.value.dialogAction;
            && a.ElicitSlot? && a.slotToElicit == SessionTypeSlot && a.slots == slots
            && a.responseCard.Some? && a.responseCard.value.buttons.Some?
            && var buttons := a.responseCard.value.buttons.value;
               var date, time := slots[SessionDateSlot].value, slots[SessionTimeSlot].value;
               && |buttons| <= MaxButtons && |buttons| <= |Tracks|
               && (forall k :: 0 <= k < |buttons| ==>
                     buttons[k].value in Tracks && SessionFor(Some(buttons[k].value), date, time, agenda).Some?)
               && (forall i, j :: 0 <= i < j < |buttons| ==> buttons[i].value != buttons[j].value)
               && (forall t :: t in Tracks && SessionFor(Some(t), date, time, agenda).Some? ==>
                     exists k :: 0 <= k < |buttons| && buttons[k].value == t)
  {
    var date, time := slots[SessionDateSlot].value, slots[SessionTimeSlot].value;
    OptionsForBound(date, time, agenda, Tracks);
    OptionsForSound(date, time, agenda, Tracks);
    OptionsForDistinct(date, time, agenda, Tracks);
    var options := OptionsFor(date, time, agenda, Tracks);
    var buttons := CardFor(SpecifyTrackTitle, TrackQuestion, Some(options)).buttons.value;
    assert buttons == options;
    forall t | t in Tracks && SessionFor(Some(t), date, time, agenda).Some?
      ensures exists k :: 0 <= k < |buttons| && buttons[k].value == t
    {
      OptionsForComplete(date, time, agenda, Tracks, t);
    }
  }

  /**
   * 4. With valid slots all given and no confirmation yet, the session found
   * for them is offered for confirmation; if none is found the handler
   * raises, as it reads the fields of the missing session.
   */
  lemma CompleteSlotsAskForConfirmation(req: IntentRequest, slots: SlotMap, agenda: seq<Session>, parseDate: string -> Option<Date>)
    requires SlotsPresent(slots) && req.invocationSource == DialogCodeHook
    requires var v := Validate(slots[SessionTypeSlot], slots[SessionDateSlot], slots[SessionTimeSlot], Tracks, parseDate);
             v.Ok? && v.value.isValid
    requires Truthy(slots[SessionDateSlot]) && Truthy(slots[SessionTimeSlot]) && Truthy(slots[SessionTypeSlot])
    requires req.confirmationStatus == "None"
    ensures Decide(req, slots, agenda, parseDate).slots == slots
    ensures var found := SessionFor(slots[SessionTypeSlot], slots[SessionDateSlot].value, slots[SessionTimeSlot].value,
                                    agenda);
            Decide(req, slots, agenda, parseDate).outcome ==
              if found.None? then Err(NoneSubscripted)
              else Ok(Response(Some(req.sessionAttributes.GetOr(map[])),
                               ConfirmIntent(req.intentName, slots, Some(Message(PlainText, ConfirmText(found.value))),
                                             Some(ResponseCard(CardContentType, CardVersion, ConfirmTitle, ConfirmSubTitle, Some(YesNo))))))
  {
  }

  /** 5. Every other dialog-hook turn with valid slots is delegated back to the bot unchanged. */
  lemma OtherwiseDelegate(req: IntentRequest, slots: SlotMap, agenda: seq<Session>, parseDate: string -> Option<Date>)
    requires SlotsPresent(slots) && req.invocationSource == DialogCodeHook
    requires var v := Validate(slots[SessionTypeSlot], slots[SessionDateSlot], slots[SessionTimeSlot], Tracks, parseDate);
             v.Ok? && v.value.isValid
    requires !(Truthy(slots[SessionDateSlot]) && Truthy(slots[SessionTimeSlot]))
             || (Truthy(slots[SessionTypeSlot]) && req.confirmationStatus != "None")
    ensures Decide(req, slots, agenda, parseDate) ==
            Turn(Ok(Response(Some(req.sessionAttributes.GetOr(map[])), Delegate(slots))), slots)
  {
  }

  /**
   * The only change a turn makes to the slots is clearing the one slot it
   * then elicits again; no slot is added or removed.
   */
  lemma OnlyTheElicitedSlotIsCleared(req: IntentRequest, slots: SlotMap, agenda: seq<Session>, parseDate: string -> Option<Date>)
    ensures var t := Decide(req, slots, agenda, parseDate);
            && t.slots.Keys == slots.Keys
            && forall k :: k in slots && t.slots[k] != slots[k] ==>
                 && t.slots[k] == None
                 && t.outcome.Ok? && t.outcome.value.dialogAction.ElicitSlot?
                 && t.outcome.value.dialogAction.slotToElicit == k
  {
    if SlotsPresent(slots) && req.invocationSource == DialogCodeHook {
      var v := Validate(slots[SessionTypeSlot], slots[SessionDateSlot], slots[SessionTimeSlot], Tracks, parseDate);
      if v.Ok? && !v.value.isValid {
        ViolationReprompts(req, slots, agenda, parseDate);
      }
    }
  }

  // ---------------------------------------------------------------------------
  // The missing-message re-prompt

  /**
   * A time such as "MO" (the bot's reading of "morning") fails validation
   * without a message. As written, the handler then clears the slot and
   * raises KeyError('message'); the corrected re-prompt elicits the time
   * again and lets the bot use its own prompt.
   */
  lemma MalformedTimeRaisesAsWritten(req: IntentRequest, agenda: seq<Session>, parseDate: string -> Option<Date>)
    requires req.invocationSource == DialogCodeHook
    ensures var slots := map[SessionTypeSlot := None, SessionDateSlot := None, SessionTimeSlot := Some("MO")];
            var cleared := slots[SessionTimeSlot := None];
            var v := Validate(None, None, Some("MO"), Tracks, parseDate);
            && v == Ok(ValidationResult(false, Some(SessionTimeSlot), None))
            && RepromptAsWritten(req.sessionAttributes, req.intentName, cleared, v.value) == Err(KeyError("message"))
            && Decide(req, slots, agenda, parseDate) ==
                 Turn(Ok(Response(req.sessionAttributes, ElicitSlot(req.intentName, cleared, SessionTimeSlot, None, None))),
                      cleared)
  {
  }

  // ---------------------------------------------------------------------------
  // Examples on the conference agenda

  /** "Inspire Me" is a known track once lower-cased. */
  lemma InspireMeLower()
    ensures Lower("Inspire Me") == "inspire me"
  {
    var r := Lower("Inspire Me");
    forall i | 0 <= i < 10 ensures r[i] == "inspire me"[i] {
      assert r[i] == LowerChar("Inspire Me"[i]);
    }
  }

  /** At 10:15 the first three sessions, at 9:15, 9:30 and 10:00, have begun. */
  lemma FirstThreeBeganBeforeQuarterPastTen()
    ensures FirstFrom("Inspire Me", "2017-11-08", "10:15", ConferenceAgenda, 0)
            == FirstFrom("Inspire Me", "2017-11-08", "10:15", ConferenceAgenda, 3)
  {
    var a := ConferenceAgenda;
    assert a[0].start == "09:15" && a[1].start == "09:30" && a[2].start == "10:00";
    BeganBefore(a, 3, "10:15");
  }

  /** The session at 10:30 is still to come at 10:15. */
  lemma FourthQualifiesAtQuarterPastTen()
    ensures FirstFrom("Inspire Me", "2017-11-08", "10:15", ConferenceAgenda, 3) == Some(ConferenceAgenda[3])
    ensures ConferenceAgenda[3] == Session("Business and Cultural Transformation in a Digital World", "Inspire Me",
                                           "2017-11-08", "10:30", "11:00")
  {
    var s := ConferenceAgenda[3];
    assert s == Session("Business and Cultural Transformation in a Digital World", "Inspire Me", "2017-11-08", "10:30", "11:00");
    ClockOrder("10:15", "10:30");
    assert Qualifies(s, "Inspire Me", "2017-11-08", "10:15");
  }

  /** After 10:15 the next "Inspire Me" session is the one at 10:30. */
  lemma NextInspireMeAfterQuarterPastTen()
    ensures SessionFor(Some("Inspire Me"), "2017-11-08", "10:15", ConferenceAgenda) == Some(ConferenceAgenda[3])
    ensures ConferenceAgenda[3].name == "Business and Cultural Transformation in a Digital World"
  {
    FirstThreeBeganBeforeQuarterPastTen();
    FourthQualifiesAtQuarterPastTen();
  }

  /** "Inspire Me" on the conference day at 10:15 passes every check. */
  lemma QuarterPastTenIsValid(parseDate: string -> Option<Date>)
    requires parseDate("2017-11-08") == Some(ConferenceDate)
    ensures Validate(Some("Inspire Me"), Some("2017-11-08"), Some("10:15"), Tracks, parseDate) == Ok(ValidationResult(true, None, None))
  {
    InspireMeLower();
    ClockIsReadable("10:15");
  }

  /**
   * A dialog-hook turn naming the track, the conference day and 10:15, not
   * yet confirmed, offers the 10:30 "Inspire Me" session for confirmation.
   */
  lemma QuarterPastTenIsOfferedForConfirmation(req: IntentRequest, slots: SlotMap, parseDate: string -> Option<Date>)
    requires req.invocationSource == DialogCodeHook && req.confirmationStatus == "None"
    requires parseDate("2017-11-08") == Some(ConferenceDate)
    requires SlotsPresent(slots)
    requires slots[SessionTypeSlot] == Some("Inspire Me") && slots[SessionDateSlot] == Some("2017-11-08")
    requires slots[SessionTimeSlot] == Some("10:15")
    ensures Decide(req, slots, ConferenceAgenda, parseDate) ==
              Turn(Ok(AskToConfirm(Some(req.sessionAttributes.GetOr(map[])), req.intentName, slots, ConferenceAgenda[3])),
                   slots)
  {
    QuarterPastTenIsValid(parseDate);
    NextInspireMeAfterQuarterPastTen();
    CompleteSlotsAskForConfirmation(req, slots, ConferenceAgenda, parseDate);
    assert CardFor(ConfirmTitle, ConfirmSubTitle, Some(YesNo)) == ResponseCard(CardContentType, CardVersion, ConfirmTitle, ConfirmSubTitle, Some(YesNo));
  }
}
