/** The message handler's state and the operations that change it. */
module Handlers {
  import opened Messages
  import opened Dedup
  import opened InsertKey
  import opened TextResponse

  /** The stored context of the handler's conversation, as the cache holds it: its request
      history. `InsertMessage` appends; the bounded-history eviction of the real store is not
      part of this model. */
  class GlobalMessageContext {
    var RequestMessages: seq<RequestMessage>

    constructor (requestMessages: seq<RequestMessage>)
      ensures RequestMessages == requestMessages
    {
      RequestMessages := requestMessages;
    }

    method InsertMessage(request: RequestMessage)
      modifies this`RequestMessages
      ensures RequestMessages == old(RequestMessages) + [request]
    {
      RequestMessages := RequestMessages + [request];
    }
  }

  class MessageHandler {
    var CancelExcute: bool
    var MessageIsRepeated: bool
    var OmitRepeatedMessage: bool
    var RequestMessage: Option<RequestMessage>
    var ResponseMessage: Option<ResponseMessage>
    var textResponseMessage: Option<string>
    /** The lazily loaded context: a snapshot of the stored history, or null before the first load. */
    var unsafeMessageContext: Option<seq<RequestMessage>>
    const GlobalContext: GlobalMessageContext

    /** The part of the handler the gate reads and writes. */
    function State(): HandlerState
      reads this
    {
      HandlerState(CancelExcute, MessageIsRepeated, OmitRepeatedMessage)
    }

    /** A handler built from a request document: initialisation switches deduplication on, and
        the abstract `Init` supplies the request and may already cancel execution (`cancelled`). */
    constructor (globalContext: GlobalMessageContext, request: Option<RequestMessage>, cancelled: bool)
      ensures GlobalContext == globalContext && RequestMessage == request
      ensures State() == HandlerState(cancelled, false, true)
      ensures ResponseMessage.None? && textResponseMessage.None? && unsafeMessageContext.None?
    {
      GlobalContext := globalContext;
      RequestMessage := request;
      CancelExcute, MessageIsRepeated := cancelled, false;
      OmitRepeatedMessage := true;
      ResponseMessage, textResponseMessage, unsafeMessageContext := None, None, None;
    }

    /** The test-only constructor from a request entity: it assigns no request and leaves
        deduplication switched off. */
    constructor FromRequestEntity(globalContext: GlobalMessageContext)
      ensures GlobalContext == globalContext && RequestMessage.None?
      ensures State() == Fresh(false)
      ensures ResponseMessage.None? && textResponseMessage.None? && unsafeMessageContext.None?
    {
      GlobalContext := globalContext;
      RequestMessage := None;
      CancelExcute, MessageIsRepeated, OmitRepeatedMessage := false, false, false;
      ResponseMessage, textResponseMessage, unsafeMessageContext := None, None, None;
    }

    /** Always reads the stored context afresh. */
    method GetCurrentMessageContext() returns (context: seq<RequestMessage>)
      ensures context == GlobalContext.RequestMessages
    {
      context := GlobalContext.RequestMessages;
    }

    /** Returns the cached snapshot, reloading it when there is none yet or when the cache is
        process-local; with a distributed cache a loaded snapshot is kept however stale. */
    method GetUnsafeMessageContext(cacheIsLocal: bool) returns (context: seq<RequestMessage>)
      modifies this`unsafeMessageContext
      ensures unsafeMessageContext == Some(context)
      ensures old(unsafeMessageContext).None? || cacheIsLocal ==> context == GlobalContext.RequestMessages
      ensures old(unsafeMessageContext).Some? && !cacheIsLocal ==> context == old(unsafeMessageContext).value
    {
      if unsafeMessageContext.None? || cacheIsLocal {
        var current := GetCurrentMessageContext();
        unsafeMessageContext := Some(current);
      }
      context := unsafeMessageContext.value;
    }

    method MarkRepeatedMessage()
      modifies this`CancelExcute, this`MessageIsRepeated
      ensures State() == Marked(old(State()))
    {
      CancelExcute := true;
      MessageIsRepeated := true;
    }

    /** The lock name for this handler's conversation; the clock readings the source falls back
        on are passed in. */
    method GetInsertMessageKey(contextType: string, platformType: string,
                               toUserNameFallback: string, openIdFallback: string) returns (key: string)
      ensures key == InsertMessageKey(contextType, platformType, RequestMessage, toUserNameFallback, openIdFallback)
    {
      key := InsertMessageKey(contextType, platformType, RequestMessage, toUserNameFallback, openIdFallback);
    }

    /** The deduplication gate, run as one atomic step: the lock around it is not modelled.
        With the context switch on, the new flags and the new history are those of `Gate`. */
    method CheckMessageRepeat(useMessageContext: bool, hooks: Hooks)
      requires useMessageContext ==> RequestMessage.Some?
      modifies this`CancelExcute, this`MessageIsRepeated, GlobalContext`RequestMessages
      ensures useMessageContext ==>
        var outcome := Gate(true, hooks, old(State()), old(GlobalContext.RequestMessages), RequestMessage.value);
        State() == outcome.state && GlobalContext.RequestMessages == outcome.history
      ensures !useMessageContext ==>
        State() == old(State()) && GlobalContext.RequestMessages == old(GlobalContext.RequestMessages)
    {
      if useMessageContext {
        var request := RequestMessage.value;
        var omit := hooks.OmitRepeatedMessageFunc.None? || hooks.OmitRepeatedMessageFunc.value(request);
        var messageContext := GetCurrentMessageContext();
        if omit && OmitRepeatedMessage && |messageContext| > 0 {
          var lastMessage := messageContext[|messageContext| - 1];
          if IsRepeatOf(lastMessage, request) {
            MarkRepeatedMessage();
          }
          if !MessageIsRepeated && hooks.SpecialDeduplicationAction.Some? &&
             hooks.SpecialDeduplicationAction.value(request, State()) {
            MarkRepeatedMessage();
          }
        }
        if !MessageIsRepeated && request.MsgType != Unknown {
          GlobalContext.InsertMessage(request);
        }
      }
    }

    /** The getter of `TextResponseMessage`. */
    method GetTextResponseMessage(finalResponseDocument: Option<string>) returns (text: string)
      modifies this`textResponseMessage
      ensures textResponseMessage == StoredText(ResponseMessage, old(textResponseMessage))
      ensures text == ResponseText(ResponseMessage, old(textResponseMessage), finalResponseDocument)
    {
      if ResponseMessage.Some? && ResponseMessage.value.SuccessResponse? {
        textResponseMessage := ResponseMessage.value.ReturnText;
      }
      if textResponseMessage.None? && (ResponseMessage.None? || ResponseMessage.value.NoResponse) {
        return "";
      }
      if textResponseMessage.None? {
        text := if finalResponseDocument.Some? then finalResponseDocument.value else "";
      } else {
        text := textResponseMessage.value;
      }
    }

    /** The setter of `TextResponseMessage`. */
    method SetTextResponseMessage(value: Option<string>)
      modifies this`textResponseMessage
      ensures textResponseMessage == value
    {
      textResponseMessage := value;
    }
  }

  /** Two deliveries of one text message to a fresh conversation, each with its own handler:
      the first is admitted and stored, the second is cancelled and stores nothing. */
  method RedeliveryScenario()
  {
    var store := new GlobalMessageContext([]);
    var m := RequestMessage(7, 1000, Text, Some("gh_account"), Some("user"));
    var first := new MessageHandler(store, Some(m), false);
    first.CheckMessageRepeat(true, Hooks(None, None));
    assert !first.CancelExcute && store.RequestMessages == [m];
    var second := new MessageHandler(store, Some(m), false);
    second.CheckMessageRepeat(true, Hooks(None, None));
    assert second.CancelExcute && second.MessageIsRepeated && store.RequestMessages == [m];
  }
}
