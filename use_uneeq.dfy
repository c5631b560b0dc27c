/**
 The `useUneeq` hook: the session guard around the vendor avatar SDK.

 The SDK instance is opaque, so every call the hook makes on it is recorded
 in a log of `SdkCall`s. The hook's state is `HookState`; each of its
 operations is a pure step function here (`Initialised`, `Started`, `Ended`,
 `Stopped`, `Sent`, `Dispatched`), and the class `UneeqHook` holds the same
 state in fields and updates it in place through methods that are proved to
 perform those steps.
 */
module UseUneeq {
  import opened Wrappers

  /** A call on the vendor SDK instance. */
  datatype SdkCall = Init | StartSession | EndSession | StopSpeaking | ChatPrompt(message: string)

  /** The `detail` of an `UneeqMessage` window event, by its `uneeqMessageType`.
      `Other` stands for every type the handler does not name, so its
      `messageType` is never "SpeechEvent", "AvatarStoppedSpeaking" or "Error". */
  datatype Message =
    | SpeechEvent(paramValue: string)
    | AvatarStoppedSpeaking
    | ErrorMessage
    | Other(messageType: string)

  /** The hook's state: whether an SDK instance exists, its two flags, the last
      speech-event value (`undefined` at first) and the SDK call log. */
  datatype HookState = HookState(
    hasInstance: bool,
    readyToStart: bool,
    avatarLive: bool,
    lastResponse: Option<string>,
    calls: seq<SdkCall>)

  /** The state on mount: no instance, both flags false, no response, no calls. */
  const Mounted := HookState(false, false, false, None, [])

  // ---------------------------------------------------------------------------
  // What the call log means

  /** Whether the SDK session is open after `log`: the last start or end call decides. */
  function LiveAfter(log: seq<SdkCall>): bool
  {
    if log == [] then false
    else match log[|log| - 1]
      case StartSession => true
      case EndSession => false
      case _ => LiveAfter(log[..|log| - 1])
  }

  /** Whether the SDK may receive `c` after the calls in `before`: `init` first
      and only once, a start only when no session is open, an end and a chat
      prompt only when one is, and every call after `init`. */
  predicate Permitted(before: seq<SdkCall>, c: SdkCall)
  {
    match c
    case Init => before == []
    case StartSession => before != [] && !LiveAfter(before)
    case EndSession => LiveAfter(before)
    case ChatPrompt(_) => LiveAfter(before)
    case StopSpeaking => before != []
  }

  /** Every call in `log` was permitted when it was made. */
  predicate Disciplined(log: seq<SdkCall>)
  {
    log == [] || (Disciplined(log[..|log| - 1]) && Permitted(log[..|log| - 1], log[|log| - 1]))
  }

  /** The hook's invariant: the instance and `readyToStart` appear together with
      the `init` call, `avatarLive` says whether the SDK session is open, and
      the SDK has only been called as permitted. */
  predicate Consistent(h: HookState)
  {
    && (h.readyToStart <==> h.hasInstance)
    && (h.hasInstance <==> h.calls != [])
    && h.avatarLive == LiveAfter(h.calls)
    && Disciplined(h.calls)
  }

  /** How many times `c` occurs in `log`. */
  function Occurrences(log: seq<SdkCall>, c: SdkCall): nat
  {
    if log == [] then 0
    else Occurrences(log[..|log| - 1], c) + (if log[|log| - 1] == c then 1 else 0)
  }

  // ---------------------------------------------------------------------------
  // The hook's operations as steps on its state

  /** The script-ready branch of the initialisation effect: construct the
      instance, call `init` and set `readyToStart`. The effect's dependencies
      stop changing once the script status is 'ready', so it runs once. */
  function Initialised(h: HookState): (r: HookState)
    requires !h.hasInstance
    ensures r.hasInstance && r.readyToStart && |r.calls| == |h.calls| + 1
    ensures r.avatarLive == h.avatarLive && r.lastResponse == h.lastResponse
  {
    h.(hasInstance := true, readyToStart := true, calls := h.calls + [Init])
  }

  /** `startSession`: forwards and marks the avatar live only with an instance,
      `readyToStart` and no live avatar. */
  function Started(h: HookState): (r: HookState)
    ensures r.hasInstance == h.hasInstance && r.readyToStart == h.readyToStart
    ensures r.lastResponse == h.lastResponse
    ensures r.calls == h.calls || r.calls == h.calls + [StartSession]
    ensures r.calls != h.calls <==> r.avatarLive != h.avatarLive
  {
    if h.hasInstance && h.readyToStart && !h.avatarLive
    then h.(avatarLive := true, calls := h.calls + [StartSession])
    else h
  }

  /** `endSession`: forwards and marks the avatar not live only with an instance
      and a live avatar. */
  function Ended(h: HookState): (r: HookState)
    ensures r.hasInstance == h.hasInstance && r.readyToStart == h.readyToStart
    ensures r.lastResponse == h.lastResponse
    ensures r.calls == h.calls || r.calls == h.calls + [EndSession]
    ensures r.calls != h.calls <==> r.avatarLive != h.avatarLive
  {
    if h.hasInstance && h.avatarLive
    then h.(avatarLive := false, calls := h.calls + [EndSession])
    else h
  }

  /** `stopSpeaking`: forwards whenever an instance exists. */
  function Stopped(h: HookState): (r: HookState)
    ensures r.(calls := h.calls) == h
    ensures r.calls == h.calls || r.calls == h.calls + [StopSpeaking]
  {
    if h.hasInstance then h.(calls := h.calls + [StopSpeaking]) else h
  }

  /** `sendMessage(message)`: forwards the message only with an instance and a
      live avatar. */
  function Sent(h: HookState, message: string): (r: HookState)
    ensures r.(calls := h.calls) == h
    ensures r.calls == h.calls || r.calls == h.calls + [ChatPrompt(message)]
  {
    if h.hasInstance && h.avatarLive then h.(calls := h.calls + [ChatPrompt(message)]) else h
  }

  /** `handleUneeqMessage`: the listener exists only once there is an instance;
      a speech event records its parameter value, every other type is ignored. */
  function Dispatched(h: HookState, msg: Message): (r: HookState)
    ensures r.(lastResponse := h.lastResponse) == h
  {
    if !h.hasInstance then h
    else match msg
      case SpeechEvent(value) => h.(lastResponse := Some(value))
      case _ => h
  }

  /** Something that can happen to the hook. */
  datatype Op =
    | ScriptReady
    | CallStart
    | CallEnd
    | CallStop
    | CallSend(message: string)
    | Deliver(msg: Message)

  function Step(h: HookState, op: Op): HookState
  {
    match op
    case ScriptReady => if h.hasInstance then h else Initialised(h)
    case CallStart => Started(h)
    case CallEnd => Ended(h)
    case CallStop => Stopped(h)
    case CallSend(m) => Sent(h, m)
    case Deliver(msg) => Dispatched(h, msg)
  }

  /** The state after the operations `ops`, in order, starting from `h`. */
  function Run(h: HookState, ops: seq<Op>): HookState
    decreases |ops|
  {
    if ops == [] then h else Run(Step(h, ops[0]), ops[1..])
  }

  // ---------------------------------------------------------------------------
  // Properties

  /** Appending a permitted call keeps a log disciplined, and the session is
      open afterwards exactly when a start was appended or it was already open
      and no end was appended. */
  lemma {:induction false} Append(log: seq<SdkCall>, c: SdkCall)
    requires Disciplined(log) && Permitted(log, c)
    ensures Disciplined(log + [c])
    ensures LiveAfter(log + [c]) == (c == StartSession || (LiveAfter(log) && c != EndSession))
  {
    assert (log + [c])[..|log|] == log;
  }

  /** Every step keeps the hook consistent. */
  lemma {:induction false} StepKeepsConsistent(h: HookState, op: Op)
    requires Consistent(h)
    ensures Consistent(Step(h, op))
  {
    match op
    case ScriptReady =>
      if !h.hasInstance { Append(h.calls, Init); }
    case CallStart =>
      if h.hasInstance && h.readyToStart && !h.avatarLive { Append(h.calls, StartSession); }
    case CallEnd =>
      if h.hasInstance && h.avatarLive { Append(h.calls, EndSession); }
    case CallStop =>
      if h.hasInstance { Append(h.calls, StopSpeaking); }
    case CallSend(m) =>
      if h.hasInstance && h.avatarLive { Append(h.calls, ChatPrompt(m)); }
    case Deliver(msg) =>
  }

  /** Whatever happens after mount, the hook stays consistent. */
  lemma {:induction false} RunKeepsConsistent(h: HookState, ops: seq<Op>)
    requires Consistent(h)
    ensures Consistent(Run(h, ops))
    decreases |ops|
  {
    if ops != [] {
      StepKeepsConsistent(h, ops[0]);
      RunKeepsConsistent(Step(h, ops[0]), ops[1..]);
    }
  }

  lemma MountedIsConsistent()
    ensures Consistent(Mounted)
  {
  }

  /** `readyToStart` is never set back to false. */
  lemma {:induction false} ReadyIsNeverReset(h: HookState, ops: seq<Op>)
    requires h.readyToStart
    ensures Run(h, ops).readyToStart
    decreases |ops|
  {
    if ops != [] {
      ReadyIsNeverReset(Step(h, ops[0]), ops[1..]);
    }
  }

  /** `readyToStart` holds only once the instance was constructed and its
      `init` was the first SDK call. */
  lemma ReadyOnlyAfterInit(h: HookState)
    requires Consistent(h) && h.readyToStart
    ensures h.hasInstance && h.calls[0] == Init
  {
    FirstCallIsInit(h.calls);
  }

  /** A disciplined, non-empty log begins with `init`. */
  lemma {:induction false} FirstCallIsInit(log: seq<SdkCall>)
    requires Disciplined(log) && log != []
    ensures log[0] == Init
    decreases |log|
  {
    var before := log[..|log| - 1];
    if before == [] {
      assert log[|log| - 1] == Init;
    } else {
      FirstCallIsInit(before);
      assert log[0] == before[0];
    }
  }

  /** A second `startSession` right after a first one calls nothing: two
      consecutive starts make at most one SDK start call. This holds when the
      second call sees the state the first one left, that is, when a render
      comes between them; two calls of the same stale callback in one tick
      would both see `avatarLive` false and both call the SDK. */
  lemma StartIsIdempotent(h: HookState)
    ensures Started(Started(h)) == Started(h)
    ensures Occurrences(Started(Started(h)).calls, StartSession) <= Occurrences(h.calls, StartSession) + 1
  {
    var s := Started(h);
    if s != h {
      assert s.calls[..|s.calls| - 1] == h.calls;
    }
  }

  /** `endSession` is idempotent the same way. */
  lemma EndIsIdempotent(h: HookState)
    ensures Ended(Ended(h)) == Ended(h)
  {
  }

  /** Every chat prompt in a disciplined log was sent while the session was open. */
  lemma {:induction false} PromptsOnlyWhileLive(log: seq<SdkCall>, i: nat)
    requires Disciplined(log) && i < |log| && log[i].ChatPrompt?
    ensures LiveAfter(log[..i])
    decreases |log|
  {
    var before := log[..|log| - 1];
    if i == |log| - 1 {
      assert before == log[..i];
    } else {
      assert before[i] == log[i];
      PromptsOnlyWhileLive(before, i);
      assert before[..i] == log[..i];
    }
  }

  /** In a disciplined log starts and ends alternate: there is one more start
      than ends exactly while the session is open, and as many otherwise. */
  lemma {:induction false} SessionsBalance(log: seq<SdkCall>)
    requires Disciplined(log)
    ensures Occurrences(log, StartSession) == Occurrences(log, EndSession) + (if LiveAfter(log) then 1 else 0)
    decreases |log|
  {
    if log != [] {
      SessionsBalance(log[..|log| - 1]);
    }
  }

  /** A speech event is the only message that changes the hook, and it changes
      only `lastResponse`; no message ever reaches the SDK. */
  lemma DispatchTouchesOnlyLastResponse(h: HookState, msg: Message)
    ensures Dispatched(h, msg).calls == h.calls
    ensures Dispatched(h, msg).(lastResponse := h.lastResponse) == h
    ensures Dispatched(h, msg) != h ==> h.hasInstance && msg.SpeechEvent?
    ensures h.hasInstance && msg.SpeechEvent? ==> Dispatched(h, msg).lastResponse == Some(msg.paramValue)
  {
  }

  // ---------------------------------------------------------------------------
  // The hook as an object whose fields its callbacks update

  class UneeqHook {
    var hasInstance: bool
    var readyToStart: bool
    var avatarLive: bool
    var lastResponse: Option<string>
    var calls: seq<SdkCall>

    /** The fields, as one value. */
    function State(): HookState
      reads this
    {
      HookState(hasInstance, readyToStart, avatarLive, lastResponse, calls)
    }

    ghost predicate Valid()
      reads this
    {
      Consistent(State())
    }

    constructor ()
      ensures State() == Mounted && Valid()
    {
      hasInstance, readyToStart, avatarLive := false, false, false;
      lastResponse := None;
      calls := [];
    }

    /** The initialisation effect once the script is ready and the container exists. */
    method InitInstance()
      requires Valid() && !hasInstance
      modifies this
      ensures Valid() && State() == Initialised(old(State()))
      ensures hasInstance && readyToStart && calls == old(calls) + [Init]
      ensures avatarLive == old(avatarLive) && lastResponse == old(lastResponse)
    {
      var h := State();
      StepKeepsConsistent(h, ScriptReady);
      hasInstance, readyToStart, calls := true, true, calls + [Init];
      assert State() == Initialised(h);
    }

    method StartSession()
      requires Valid()
      modifies this
      ensures Valid() && State() == Started(old(State()))
      ensures old(hasInstance && readyToStart && !avatarLive) ==>
        avatarLive && calls == old(calls) + [SdkCall.StartSession]
      ensures !old(hasInstance && readyToStart && !avatarLive) ==> State() == old(State())
      ensures hasInstance == old(hasInstance) && readyToStart == old(readyToStart)
      ensures lastResponse == old(lastResponse)
    {
      StepKeepsConsistent(State(), CallStart);
      if hasInstance && readyToStart && !avatarLive {
        calls := calls + [SdkCall.StartSession];
        avatarLive := true;
      }
    }

    method EndSession()
      requires Valid()
      modifies this
      ensures Valid() && State() == Ended(old(State()))
      ensures old(hasInstance && avatarLive) ==> !avatarLive && calls == old(calls) + [SdkCall.EndSession]
      ensures !old(hasInstance && avatarLive) ==> State() == old(State())
      ensures hasInstance == old(hasInstance) && readyToStart == old(readyToStart)
      ensures lastResponse == old(lastResponse)
    {
      StepKeepsConsistent(State(), CallEnd);
      if hasInstance && avatarLive {
        calls := calls + [SdkCall.EndSession];
        avatarLive := false;
      }
    }

    method StopSpeaking()
      requires Valid()
      modifies this
      ensures Valid() && State() == Stopped(old(State()))
      ensures calls == if old(hasInstance) then old(calls) + [SdkCall.StopSpeaking] else old(calls)
      ensures State().(calls := old(calls)) == old(State())
    {
      StepKeepsConsistent(State(), CallStop);
      if hasInstance {
        calls := calls + [SdkCall.StopSpeaking];
      }
    }

    method SendMessage(message: string)
      requires Valid()
      modifies this
      ensures Valid() && State() == Sent(old(State()), message)
      ensures calls == if old(hasInstance && avatarLive) then old(calls) + [ChatPrompt(message)] else old(calls)
      ensures State().(calls := old(calls)) == old(State())
    {
      StepKeepsConsistent(State(), CallSend(message));
      if hasInstance && avatarLive {
        calls := calls + [ChatPrompt(message)];
      }
    }

    /** The `UneeqMessage` listener. */
    method HandleUneeqMessage(msg: Message)
      requires Valid()
      modifies this
      ensures Valid() && State() == Dispatched(old(State()), msg)
      ensures lastResponse == if old(hasInstance) && msg.SpeechEvent? then Some(msg.paramValue) else old(lastResponse)
      ensures State().(lastResponse := old(lastResponse)) == old(State())
    {
      StepKeepsConsistent(State(), Deliver(msg));
      if hasInstance {
        match msg {
          case SpeechEvent(value) =>
            lastResponse := Some(value);
          case AvatarStoppedSpeaking =>
          case ErrorMessage =>
          case Other(_) =>
        }
      }
    }
  }
}
