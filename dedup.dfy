/** The duplicate test and one step of the deduplication gate, as pure functions.
    `Gate` is the specification the handler's `CheckMessageRepeat` is proved against. */
module Dedup {
  import opened Messages

  /** The handler state the gate reads and writes, also the view the special hook receives. */
  datatype HandlerState = HandlerState(
    CancelExcute: bool,
    MessageIsRepeated: bool,
    OmitRepeatedMessage: bool)

  /** The two optional hooks. The dynamic switch returns false to skip deduplication for a
      message; the special action returns true to mark a message repeated. */
  datatype Hooks = Hooks(
    OmitRepeatedMessageFunc: Option<RequestMessage -> bool>,
    SpecialDeduplicationAction: Option<(RequestMessage, HandlerState) -> bool>)

  /** The state after one gate step: the handler flags and this conversation's request history. */
  datatype GateOutcome = GateOutcome(state: HandlerState, history: seq<RequestMessage>)

  /** The built-in rule: the incoming request repeats the last stored one. */
  predicate IsRepeatOf(last: RequestMessage, incoming: RequestMessage): (repeated: bool)
    // A repeat always carries the last record's identifier.
    ensures repeated ==> last.MsgId == incoming.MsgId
    // A shared non-zero identifier is enough, whatever the time and type.
    ensures last.MsgId != 0 && last.MsgId == incoming.MsgId ==> repeated
  {
    (last.MsgId != 0 && last.MsgId == incoming.MsgId) ||
    (last.MsgId == incoming.MsgId &&
     last.CreateTime == incoming.CreateTime &&
     last.MsgType == incoming.MsgType)
  }

  /** The rule read the other way round: the identifiers must agree, and a zero identifier
      needs the creation time and the type to agree as well. */
  lemma RepeatRule(last: RequestMessage, incoming: RequestMessage)
    ensures IsRepeatOf(last, incoming) <==>
      last.MsgId == incoming.MsgId &&
      (last.MsgId == 0 ==> last.CreateTime == incoming.CreateTime && last.MsgType == incoming.MsgType)
  {
  }

  /** Every request repeats itself, whatever its identifier. */
  lemma RepeatOfItself(m: RequestMessage)
    ensures IsRepeatOf(m, m)
  {
  }

  /** The marking step: execution cancelled and the message flagged repeated. */
  function Marked(s: HandlerState): (t: HandlerState)
    ensures t.CancelExcute && t.MessageIsRepeated
    ensures t.OmitRepeatedMessage == s.OmitRepeatedMessage
  {
    s.(CancelExcute := true, MessageIsRepeated := true)
  }

  /** Both switches let the comparison run: the dynamic switch is absent or approves the
      message, and the handler's own switch is on. */
  predicate DedupActive(hooks: Hooks, omitRepeatedMessage: bool, request: RequestMessage): (active: bool)
    // The handler's own switch can only turn the comparison off.
    ensures active ==> omitRepeatedMessage
    // Without the dynamic switch, the handler's switch alone decides.
    ensures hooks.OmitRepeatedMessageFunc.None? ==> (active <==> omitRepeatedMessage)
    // A dynamic switch that rejects the message turns the comparison off.
    ensures hooks.OmitRepeatedMessageFunc.Some? && !hooks.OmitRepeatedMessageFunc.value(request) ==> !active
    // A dynamic switch that approves the message leaves the decision to the handler's switch.
    ensures hooks.OmitRepeatedMessageFunc.Some? && hooks.OmitRepeatedMessageFunc.value(request)
            ==> (active <==> omitRepeatedMessage)
  {
    (hooks.OmitRepeatedMessageFunc.None? || hooks.OmitRepeatedMessageFunc.value(request)) &&
    omitRepeatedMessage
  }

  function Last(history: seq<RequestMessage>): RequestMessage
    requires |history| > 0
  {
    history[|history| - 1]
  }

  /** The comparison against the last stored request and the special hook. */
  function Judge(hooks: Hooks, s: HandlerState, history: seq<RequestMessage>, request: RequestMessage): (t: HandlerState)
    ensures t == s || t == Marked(s)
    ensures |history| == 0 || !DedupActive(hooks, s.OmitRepeatedMessage, request) ==> t == s
    ensures DedupActive(hooks, s.OmitRepeatedMessage, request) && |history| > 0 &&
            IsRepeatOf(Last(history), request)
            ==> t == Marked(s)
    // An unflagged handler whose request fails the rule is marked exactly when the hook says so.
    ensures DedupActive(hooks, s.OmitRepeatedMessage, request) && |history| > 0 &&
            !IsRepeatOf(Last(history), request) && !s.MessageIsRepeated
            ==> (t.MessageIsRepeated <==>
                 hooks.SpecialDeduplicationAction.Some? && hooks.SpecialDeduplicationAction.value(request, s))
    // A handler flagged already, whose request fails the rule, is left alone: the hook is not consulted.
    ensures s.MessageIsRepeated &&
            !(DedupActive(hooks, s.OmitRepeatedMessage, request) && |history| > 0 && IsRepeatOf(Last(history), request))
            ==> t == s
  {
    if DedupActive(hooks, s.OmitRepeatedMessage, request) && |history| > 0 then
      var ruled := if IsRepeatOf(Last(history), request) then Marked(s) else s;
      if !ruled.MessageIsRepeated && hooks.SpecialDeduplicationAction.Some? &&
         hooks.SpecialDeduplicationAction.value(request, ruled)
      then Marked(ruled)
      else ruled
    else s
  }

  /** One call of the gate with the global context switch `useMessageContext`. */
  function Gate(useMessageContext: bool, hooks: Hooks, s: HandlerState,
                history: seq<RequestMessage>, request: RequestMessage): (r: GateOutcome)
    // With the context switch off, nothing changes.
    ensures !useMessageContext ==> r == GateOutcome(s, history)
    // The only change to the flags is marking; nothing is ever un-marked.
    ensures r.state == s || r.state == Marked(s)
    // An empty history never marks a message.
    ensures |history| == 0 ==> r.state == s
    // A switched-off comparison leaves the flags alone.
    ensures !DedupActive(hooks, s.OmitRepeatedMessage, request) ==> r.state == s
    // A repeat of the last record is marked and not stored.
    ensures useMessageContext && DedupActive(hooks, s.OmitRepeatedMessage, request) && |history| > 0 &&
            IsRepeatOf(Last(history), request)
            ==> r.state == Marked(s) && r.history == history
    // Failing the rule, the special hook alone decides, and only for a not yet flagged message.
    ensures useMessageContext && DedupActive(hooks, s.OmitRepeatedMessage, request) && |history| > 0 &&
            !IsRepeatOf(Last(history), request) && !s.MessageIsRepeated
            ==> (r.state.MessageIsRepeated <==>
                 hooks.SpecialDeduplicationAction.Some? && hooks.SpecialDeduplicationAction.value(request, s))
    // A handler flagged on entry whose request fails the rule keeps its flags: the hook is not consulted.
    ensures s.MessageIsRepeated &&
            !(DedupActive(hooks, s.OmitRepeatedMessage, request) && |history| > 0 && IsRepeatOf(Last(history), request))
            ==> r.state == s
    // The history grows by the incoming request exactly when it was not flagged and is not Unknown.
    ensures r.history == history + [request] <==>
            useMessageContext && !r.state.MessageIsRepeated && request.MsgType != Unknown
    ensures r.history == history || r.history == history + [request]
  {
    if !useMessageContext then GateOutcome(s, history)
    else
      var t := Judge(hooks, s, history, request);
      if !t.MessageIsRepeated && request.MsgType != Unknown
      then GateOutcome(t, history + [request])
      else GateOutcome(t, history)
  }

  /** The flags of a handler just built for one request (from a request document). */
  function Fresh(omitRepeatedMessage: bool): HandlerState
  {
    HandlerState(false, false, omitRepeatedMessage)
  }

  /** The first request of a conversation always passes, and is stored unless it is Unknown. */
  lemma FirstMessagePasses(useMessageContext: bool, hooks: Hooks, omitRepeatedMessage: bool, request: RequestMessage)
    ensures var r := Gate(useMessageContext, hooks, Fresh(omitRepeatedMessage), [], request);
      !r.state.MessageIsRepeated && !r.state.CancelExcute &&
      r.history == (if useMessageContext && request.MsgType != Unknown then [request] else [])
  {
  }

  /** A non-zero identifier equal to the last one marks the message, whatever its time and type. */
  lemma SameNonZeroIdIsRepeated(hooks: Hooks, s: HandlerState, history: seq<RequestMessage>, request: RequestMessage)
    requires DedupActive(hooks, s.OmitRepeatedMessage, request)
    requires |history| > 0 && Last(history).MsgId != 0 && Last(history).MsgId == request.MsgId
    ensures var r := Gate(true, hooks, s, history, request);
      r.state.CancelExcute && r.state.MessageIsRepeated && r.history == history
  {
  }

  /** With both identifiers zero and no special hook, a fresh handler marks the message exactly
      when time and type match the last record. */
  lemma ZeroIdRepeatedIffSameTimeAndType(omitFunc: Option<RequestMessage -> bool>, omitRepeatedMessage: bool,
                                         history: seq<RequestMessage>, request: RequestMessage)
    requires DedupActive(Hooks(omitFunc, None), omitRepeatedMessage, request)
    requires |history| > 0 && Last(history).MsgId == 0 && request.MsgId == 0
    ensures Gate(true, Hooks(omitFunc, None), Fresh(omitRepeatedMessage), history, request).state.MessageIsRepeated
            <==> Last(history).CreateTime == request.CreateTime && Last(history).MsgType == request.MsgType
  {
  }
}
