/**
 The home page component: its handlers step through the component's state
 (the two PIN buffers and their errors, whether a conversation is active, the
 recorded responses) and the session effect keeps the avatar session of the
 `useUneeq` hook in line with the conversation.
 */
module Homepage {
  import opened Wrappers
  import opened UseUneeq
  import opened Assessment
  import opened Pin

  /** What the session effect asks of the hook. */
  datatype Request = RequestStart | RequestEnd | NoRequest

  /** The session effect's rule: start when in conversation, ready and not
      live; end when out of conversation and live; otherwise nothing. */
  function Reconciliation(inConversation: bool, readyToStart: bool, avatarLive: bool): (request: Request)
    ensures request == RequestStart ==> inConversation && !avatarLive
    ensures request == RequestEnd ==> !inConversation && avatarLive
    ensures request == NoRequest ==> (inConversation == avatarLive || (inConversation && !readyToStart))
  {
    if inConversation && readyToStart && !avatarLive then RequestStart
    else if !inConversation && avatarLive then RequestEnd
    else NoRequest
  }

  /** The hook after it served `request`. */
  function Served(h: HookState, request: Request): HookState
  {
    match request
    case RequestStart => Started(h)
    case RequestEnd => Ended(h)
    case NoRequest => h
  }

  /** Requests each of the three kinds exactly in their cases. */
  lemma ReconciliationCases(inConversation: bool, readyToStart: bool, avatarLive: bool)
    ensures Reconciliation(inConversation, readyToStart, avatarLive) == RequestStart <==>
      inConversation && readyToStart && !avatarLive
    ensures Reconciliation(inConversation, readyToStart, avatarLive) == RequestEnd <==>
      !inConversation && avatarLive
    ensures Reconciliation(inConversation, readyToStart, avatarLive) == NoRequest <==>
      (inConversation && (avatarLive || !readyToStart)) || (!inConversation && !avatarLive)
  {
  }

  /** One run of the effect settles the hook: afterwards the avatar is live
      exactly when in conversation with the SDK ready, and a second run
      requests nothing. */
  lemma ReconcileSettles(h: HookState, inConversation: bool)
    requires Consistent(h)
    ensures var h' := Served(h, Reconciliation(inConversation, h.readyToStart, h.avatarLive));
      && h'.avatarLive == (inConversation && h.readyToStart)
      && h'.readyToStart == h.readyToStart
      && Reconciliation(inConversation, h'.readyToStart, h'.avatarLive) == NoRequest
  {
    if h.avatarLive {
      LiveImpliesReady(h);
    }
  }

  /** A live avatar implies an instance that is ready. */
  lemma LiveImpliesReady(h: HookState)
    requires Consistent(h) && h.avatarLive
    ensures h.hasInstance && h.readyToStart
  {
    assert h.calls != [];
  }

  class Homepage {
    const hook: UneeqHook
    var isInConversation: bool
    var pin: seq<string>
    var endPin: seq<string>
    var pinError: string
    var endPinError: string
    var responses: seq<Response>
    /** The assessment-scale flag the answer handler hides. */
    var showAssessmentScale: bool
    var showLoadingScreen: bool

    ghost predicate Valid()
      reads this, hook
    {
      && hook.Valid()
      && WellShaped(pin)
      && WellShaped(endPin)
      && forall k :: 0 <= k < |responses| ==> WellFormed(responses[k])
    }

    constructor ()
      ensures Valid() && fresh(hook)
      ensures hook.State() == Mounted
      ensures !isInConversation && pin == EmptyPin && endPin == EmptyPin
      ensures pinError == "" && endPinError == "" && responses == []
    {
      hook := new UneeqHook();
      isInConversation := false;
      pin, endPin := EmptyPin, EmptyPin;
      pinError, endPinError := "", "";
      responses := [];
      showAssessmentScale := false;
      showLoadingScreen := false;
    }

    // -------------------------------------------------------------------------
    // PIN entry

    /** `handlePinChange(index, value)` */
    method PinChange(index: nat, value: string)
      requires Valid() && index < 4
      modifies this`pin
      ensures Valid()
      ensures pin == PinChanged(old(pin), index, value)
      ensures |value| > 1 ==> pin == old(pin)
      ensures |pin| == 4 && forall k :: 0 <= k < 4 && k != index ==> pin[k] == old(pin)[k]
    {
      PinChangeKeepsShape(pin, index, value);
      if |value| > 1 {
        return;
      }
      pin := pin[index := value];
    }

    /** The start PIN field's `onChange`: non-digits are removed before the
        change handler runs. */
    method PinInput(index: nat, raw: string)
      requires Valid() && index < 4
      modifies this`pin
      ensures Valid()
      ensures pin == PinChanged(old(pin), index, DigitsOnly(raw))
    {
      PinChange(index, DigitsOnly(raw));
    }

    /** The end PIN field's `onChange`: non-digits are removed before the
        change handler runs. */
    method EndPinInput(index: nat, raw: string)
      requires Valid() && index < 4
      modifies this`endPin
      ensures Valid()
      ensures endPin == PinChanged(old(endPin), index, DigitsOnly(raw))
    {
      EndPinChange(index, DigitsOnly(raw));
    }

    /** `handleEndPinChange(index, value)` */
    method EndPinChange(index: nat, value: string)
      requires Valid() && index < 4
      modifies this`endPin
      ensures Valid()
      ensures endPin == PinChanged(old(endPin), index, value)
      ensures |value| > 1 ==> endPin == old(endPin)
      ensures |endPin| == 4 && forall k :: 0 <= k < 4 && k != index ==> endPin[k] == old(endPin)[k]
    {
      PinChangeKeepsShape(endPin, index, value);
      if |value| > 1 {
        return;
      }
      endPin := endPin[index := value];
    }

    /** `handlePinSubmit`, with its delayed transition taken as one step. */
    method PinSubmit()
      requires Valid()
      modifies this`responses, this`isInConversation, this`pin, this`pinError
      ensures Valid()
      ensures pin == EmptyPin
      ensures old(Join(pin)) == CorrectPin ==> responses == [] && isInConversation && pinError == ""
      ensures old(Join(pin)) != CorrectPin ==>
        pinError == IncorrectPinMessage && responses == old(responses) && isInConversation == old(isInConversation)
    {
      if Join(pin) == CorrectPin {
        responses := [];
        isInConversation := true;
        pin := EmptyPin;
        pinError := "";
      } else {
        pinError := IncorrectPinMessage;
        pin := EmptyPin;
      }
    }

    /** `handleEndPinSubmit`, with its delayed transitions taken as one step. */
    method EndPinSubmit()
      requires Valid()
      modifies this`isInConversation, this`endPin, this`endPinError
      ensures Valid()
      ensures endPin == EmptyPin
      ensures old(Join(endPin)) == CorrectPin ==> !isInConversation && endPinError == ""
      ensures old(Join(endPin)) != CorrectPin ==>
        endPinError == IncorrectPinMessage && isInConversation == old(isInConversation)
    {
      if Join(endPin) == CorrectPin {
        isInConversation := false;
        endPin := EmptyPin;
        endPinError := "";
      } else {
        endPinError := IncorrectPinMessage;
        endPin := EmptyPin;
      }
    }

    /** `handlePinKeyDown`: Enter submits a filled buffer; the focus moves of
        Backspace change no state. */
    method PinKeyDown(key: string)
      requires Valid()
      modifies this`responses, this`isInConversation, this`pin, this`pinError
      ensures Valid()
      ensures !(key == "Enter" && old(Filled(pin))) ==> unchanged(this)
      ensures key == "Enter" && old(Filled(pin)) ==> pin == EmptyPin
      ensures key == "Enter" && old(Join(pin)) == CorrectPin ==>
        isInConversation && responses == [] && pinError == ""
      ensures key == "Enter" && old(Filled(pin)) && old(Join(pin)) != CorrectPin ==>
        pinError == IncorrectPinMessage && responses == old(responses) && isInConversation == old(isInConversation)
    {
      if Join(pin) == CorrectPin {
        AcceptedIsFilled(pin);
      }
      if key == "Enter" && Filled(pin) {
        PinSubmit();
      }
    }

    /** `handleEndPinKeyDown` */
    method EndPinKeyDown(key: string)
      requires Valid()
      modifies this`isInConversation, this`endPin, this`endPinError
      ensures Valid()
      ensures !(key == "Enter" && old(Filled(endPin))) ==> unchanged(this)
      ensures key == "Enter" && old(Filled(endPin)) ==> endPin == EmptyPin
      ensures key == "Enter" && old(Join(endPin)) == CorrectPin ==> !isInConversation && endPinError == ""
      ensures key == "Enter" && old(Filled(endPin)) && old(Join(endPin)) != CorrectPin ==>
        endPinError == IncorrectPinMessage && isInConversation == old(isInConversation)
    {
      if Join(endPin) == CorrectPin {
        AcceptedIsFilled(endPin);
      }
      if key == "Enter" && Filled(endPin) {
        EndPinSubmit();
      }
    }

    /** `handlePinCancel` */
    method PinCancel()
      requires Valid()
      modifies this`pin, this`pinError
      ensures Valid() && pin == EmptyPin && pinError == ""
    {
      pin := EmptyPin;
      pinError := "";
    }

    /** `handleEndPinCancel` */
    method EndPinCancel()
      requires Valid()
      modifies this`endPin, this`endPinError
      ensures Valid() && endPin == EmptyPin && endPinError == ""
    {
      endPin := EmptyPin;
      endPinError := "";
    }

    // -------------------------------------------------------------------------
    // Assessment

    /** `handleAssessmentResponse(score)` for the question `currentQuestionNumber`,
        at an opaque `timestamp`: append one record, say the answer to the
        avatar if it is live, hide the scale. */
    method RecordResponse(score: Score, currentQuestionNumber: int, timestamp: string)
      requires Valid()
      modifies this`responses, this`showAssessmentScale, hook
      ensures Valid()
      ensures responses == old(responses) + [NewResponse(currentQuestionNumber, score, timestamp)]
      ensures responses[|responses| - 1].question == QuestionText(currentQuestionNumber)
      ensures responses[|responses| - 1].isCritical <==> score == Points(3)
      ensures hook.State() == if old(hook.avatarLive) then Sent(old(hook.State()), Phrase(score).speech) else old(hook.State())
      ensures hook.calls == if old(hook.avatarLive) then old(hook.calls) + [ChatPrompt(Phrase(score).speech)] else old(hook.calls)
      ensures hook.avatarLive == old(hook.avatarLive) && hook.readyToStart == old(hook.readyToStart)
      ensures !showAssessmentScale
    {
      var phrasing := Phrase(score);
      responses := responses + [NewResponse(currentQuestionNumber, score, timestamp)];
      if hook.avatarLive {
        LiveImpliesReady(hook.State());
        hook.SendMessage(phrasing.speech);
      }
      showAssessmentScale := false;
    }

    /** A click on answer button `option` of the overlay, with the Skip button
        passing "skip". */
    method PressOption(option: nat, currentQuestionNumber: int, timestamp: string)
      requires Valid() && option < |Options|
      modifies this`responses, this`showAssessmentScale, hook
      ensures Valid()
      ensures responses == old(responses) + [NewResponse(currentQuestionNumber, OptionValue(option), timestamp)]
      ensures SessionAnalytics(responses).responses[|responses| - 1].selected == Some(option)
      ensures responses[|responses| - 1].scoreText == Options[option]
      ensures hook.State() == if old(hook.avatarLive) then Sent(old(hook.State()), Phrase(OptionValue(option)).speech) else old(hook.State())
      ensures !showAssessmentScale
    {
      OptionRoundTrip(option, responses, currentQuestionNumber, timestamp);
      RecordResponse(OptionValue(option), currentQuestionNumber, timestamp);
    }

    // -------------------------------------------------------------------------
    // Session management

    /** The session effect, run once after a render. */
    method Reconcile()
      requires Valid()
      modifies this`showLoadingScreen, hook
      ensures Valid()
      ensures var request := Reconciliation(old(isInConversation), old(hook.readyToStart), old(hook.avatarLive));
        && hook.State() == Served(old(hook.State()), request)
        && (request == RequestStart ==> showLoadingScreen)
        && (request == RequestEnd ==> !showLoadingScreen)
        && (request == NoRequest ==> showLoadingScreen == old(showLoadingScreen))
      ensures hook.avatarLive == (isInConversation && hook.readyToStart)
    {
      ReconcileSettles(hook.State(), isInConversation);
      if isInConversation && hook.readyToStart && !hook.avatarLive {
        showLoadingScreen := true;
        hook.StartSession();
      } else if !isInConversation && hook.avatarLive {
        hook.EndSession();
        showLoadingScreen := false;
      }
    }
  }
}
