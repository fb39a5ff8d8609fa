# NeuChar message deduplication gate

This project models the deduplication gate of the NeuChar `MessageHandler`. The platform delivers
each inbound message at least once: it resends when it gets no reply in time. Before a handler
runs its business logic, `CheckMessageRepeat` compares the incoming request with the last request
stored in the conversation's context. A repeat is marked with `MarkRepeatedMessage`, which sets
`CancelExcute` and `MessageIsRepeated`. A request that is not a repeat and not of type `Unknown`
is appended to the context.

The project also models three smaller pieces of the handler:

- the `TextResponseMessage` getter and setter;
- the refresh-or-reuse rule of `GetUnsafeMessageContext`;
- the lock-name formatting of `GetInsertMessageKey`.

Layout:

- `messages.dfy` (module `Messages`): request records, message types, `OpenId`.
- `dedup.dfy` (module `Dedup`): the built-in repeat rule `IsRepeatOf` and the pure gate step
  `Gate`. `Gate` maps the flags, the history and the request to the new flags and history.
- `deliveries.dfy` (module `Deliveries`): `Replay` and `Admitted` compose `Gate` over successive
  deliveries, each to a freshly built handler. They carry the lemmas about redelivery.
- `insert_key.dfy` (module `InsertKey`): the lock name and when it identifies a conversation.
- `text_response.dfy` (module `TextResponse`): which text the handler answers with.
- `handlers.dfy` (module `Handlers`): the class `MessageHandler` and the class
  `GlobalMessageContext`. `GlobalMessageContext` holds the conversation's stored request
  history. `CheckMessageRepeat` is proved to leave exactly the state `Gate` describes.

Environment inputs are parameters:

- the global `UseMessageContext` switch;
- the two hooks `OmitRepeatedMessageFunc` and `SpecialDeduplicationAction`, as pure functions;
- whether the object cache is process-local;
- the text of `FinalResponseDocument`;
- the context type name and platform type used in the lock name;
- the clock readings the lock name falls back on.

Behaviours of the code that the model keeps as written:

- A request with no recipient or sender still gets a lock name. The code substitutes the clock
  ticks; it does not skip the gate.
- `MessageIsRepeated` is read from the handler's field both before the special hook and before
  the insert. A handler already flagged on entry therefore neither consults the hook nor stores
  the request.
- A request of type `Unknown` is never stored. Each redelivery of it is therefore judged against
  the same last record and gets the same verdict as the first copy. With an empty history or the
  comparison switched off, every copy is admitted and none is stored.

## Model

| member | source | states |
|---|---|---|
| `Messages.OpenId` | src/Senparc.NeuChar/MessageHandlers/MessageHandler.cs:260 | a sender name is reported exactly when there is a request that names one, and it is that request's FromUserName |
| `Dedup.IsRepeatOf` | src/Senparc.NeuChar/MessageHandlers/MessageHandler.cs:564-571 | a repeat always shares the last record's MsgId; a shared non-zero MsgId is a repeat whatever the CreateTime and MsgType |
| `Dedup.DedupActive` | src/Senparc.NeuChar/MessageHandlers/MessageHandler.cs:545-556 | the comparison runs only with the handler's switch on; a dynamic switch that rejects the message turns it off; when the dynamic switch is absent or approves the message, the handler's switch alone decides |
| `Dedup.Judge` | src/Senparc.NeuChar/MessageHandlers/MessageHandler.cs:555-581 | the flags stay or get marked; an empty history or a switched-off comparison leaves them alone; a repeat of the last record is marked; a non-repeat on an unflagged handler is marked iff the special hook says so; a handler flagged already whose request is not a repeat keeps its flags and the hook is not consulted |
| `Dedup.RepeatRule` | src/Senparc.NeuChar/MessageHandlers/MessageHandler.cs:564-571 | a repeat needs equal MsgIds; when the MsgId is zero, CreateTime and MsgType must match as well |
| `Dedup.RepeatOfItself` | src/Senparc.NeuChar/MessageHandlers/MessageHandler.cs:564-571 | every request counts as a repeat of itself, whether its MsgId is zero or not |
| `Dedup.Marked` | src/Senparc.NeuChar/MessageHandlers/MessageHandler.cs:420-424 | marking sets both CancelExcute and MessageIsRepeated and leaves OmitRepeatedMessage as it was |
| `Dedup.Gate` | src/Senparc.NeuChar/MessageHandlers/MessageHandler.cs:541-593 | context switch off: nothing changes; the flags only ever get marked; an empty history never marks; a switched-off comparison leaves the flags alone; a repeat of the last record is marked and not stored; otherwise the special hook alone decides, and only for an unflagged handler; the history grows by exactly the incoming request iff it is not flagged and not Unknown, and otherwise stays as it was |
| `Dedup.FirstMessagePasses` | src/Senparc.NeuChar/MessageHandlers/MessageHandler.cs:555-590 | with an empty history a fresh handler is never cancelled; the request is stored once unless it is Unknown or the context switch is off |
| `Dedup.SameNonZeroIdIsRepeated` | src/Senparc.NeuChar/MessageHandlers/MessageHandler.cs:564-574 | with the context switch on and both deduplication switches letting the comparison run, a non-zero MsgId equal to the last one marks the message whatever its CreateTime and MsgType, and nothing is stored |
| `Dedup.ZeroIdRepeatedIffSameTimeAndType` | src/Senparc.NeuChar/MessageHandlers/MessageHandler.cs:566-573 | with the context switch on and both deduplication switches letting the comparison run, when both MsgIds are zero and there is no special hook, a fresh handler marks the message iff CreateTime and MsgType match the last record |
| `Deliveries.ReplayKeepsNoAdjacentRepeats` | src/Senparc.NeuChar/MessageHandlers/MessageHandler.cs:555-590 | while every delivery has the comparison switched on, no stored record repeats the one stored before it, over any sequence of deliveries |
| `Deliveries.ReplayOnlyAppends` | src/Senparc.NeuChar/MessageHandlers/MessageHandler.cs:586-590 | across any deliveries the old history is a prefix of the new one; the new part is no longer than the deliveries and holds only delivered requests |
| `Deliveries.RedeliveryIsIdempotent` | src/Senparc.NeuChar/MessageHandlers/MessageHandler.cs:541-593 | with the context switch on and both deduplication switches letting the comparison run, delivering a non-Unknown request k >= 1 times leaves the same history and the same admissions (at most one) as delivering it once; for a fresh conversation exactly one copy is admitted and stored |
| `Deliveries.UnknownRedeliveryIsNeverStored` | src/Senparc.NeuChar/MessageHandlers/MessageHandler.cs:586-590 | redelivering an Unknown request k times leaves the history unchanged and admits k times as many copies as a single delivery does; with an empty history or the comparison off, all k are admitted |
| `InsertKey.ToUserNameOr` | src/Senparc.NeuChar/MessageHandlers/MessageHandler.cs:432 | the request's recipient when there is a request naming one, the fallback otherwise |
| `InsertKey.OpenIdOr` | src/Senparc.NeuChar/MessageHandlers/MessageHandler.cs:433 | the request's sender when there is a request naming one, the fallback otherwise |
| `InsertKey.InsertMessageKey` | src/Senparc.NeuChar/MessageHandlers/MessageHandler.cs:430-436 | the lock name starts with the context type, and its length is the parts' lengths plus three separators; a missing name falls back to the given clock reading |
| `InsertKey.KeyIdentifiesConversation` | src/Senparc.NeuChar/MessageHandlers/MessageHandler.cs:432-434 | with no '-' in the recipients, two lock names are equal iff the recipients and the senders are equal |
| `InsertKey.DashInNameCollides` | src/Senparc.NeuChar/MessageHandlers/MessageHandler.cs:434 | two different recipient/sender pairs with a '-' inside a name produce the same lock name |
| `TextResponse.StoredText` | src/Senparc.NeuChar/MessageHandlers/MessageHandler.cs:348-351 | a success response replaces the stored text with its return text, even a null one; any other response, or none, leaves it as it was |
| `TextResponse.ResponseText` | src/Senparc.NeuChar/MessageHandlers/MessageHandler.cs:344-371 | a stored text, after a success response has replaced it, is returned as it is; a success response with a return text answers with that text; with nothing stored, no response or a "no response" message gives ""; otherwise the answer is the final document's text, or "" when that document is null |
| `TextResponse.ResponseTextIsStable` | src/Senparc.NeuChar/MessageHandlers/MessageHandler.cs:348-370 | a second read of the text returns the same answer and stores nothing new |
| `TextResponse.ResponseTextSources` | src/Senparc.NeuChar/MessageHandlers/MessageHandler.cs:353-370 | the answer is always "", the stored text or the final document's text |
| `Handlers.GlobalMessageContext.InsertMessage` | src/Senparc.NeuChar/MessageHandlers/MessageHandler.cs:589 | inserting appends exactly the request to the end of the history |
| `Handlers.MessageHandler.constructor` | src/Senparc.NeuChar/MessageHandlers/MessageHandler.cs:505-524 | a handler built from a document starts with MessageIsRepeated false and deduplication switched on; CancelExcute is whatever `Init` left it (the `cancelled` parameter) |
| `Handlers.MessageHandler.FromRequestEntity` | src/Senparc.NeuChar/MessageHandlers/MessageHandler.cs:479-494 | the test constructor assigns no request and leaves OmitRepeatedMessage false |
| `Handlers.MessageHandler.GetCurrentMessageContext` | src/Senparc.NeuChar/MessageHandlers/MessageHandler.cs:135 | always returns the history as it is stored now |
| `Handlers.MessageHandler.GetUnsafeMessageContext` | src/Senparc.NeuChar/MessageHandlers/MessageHandler.cs:141-150 | reloads from the store when nothing is cached or the cache is process-local; otherwise returns the cached snapshot unchanged, however stale; the result is cached afterwards |
| `Handlers.MessageHandler.MarkRepeatedMessage` | src/Senparc.NeuChar/MessageHandlers/MessageHandler.cs:420-424 | the handler's flags become `Marked` of the old flags |
| `Handlers.MessageHandler.GetInsertMessageKey` | src/Senparc.NeuChar/MessageHandlers/MessageHandler.cs:430-436 | computes `InsertMessageKey` of the handler's request and the given fallbacks |
| `Handlers.MessageHandler.CheckMessageRepeat` | src/Senparc.NeuChar/MessageHandlers/MessageHandler.cs:541-593 | context switch on: the new flags and the new stored history are exactly `Gate`'s outcome from the old ones; switch off: the flags and the history are unchanged |
| `Handlers.MessageHandler.GetTextResponseMessage` | src/Senparc.NeuChar/MessageHandlers/MessageHandler.cs:344-371 | a success response's return text replaces the stored text, and the answer is `ResponseText` of the stored text the getter found |
| `Handlers.MessageHandler.SetTextResponseMessage` | src/Senparc.NeuChar/MessageHandlers/MessageHandler.cs:372 | the stored text becomes the given value |

## Left out

- The distributed lock `BeginCacheLock` around the check and insert. `CheckMessageRepeat` is one sequential, atomic method; concurrent handlers are not modelled.
- Conversation selection inside `GlobalMessageContext`: `GetMessageContextAsync` and the store's own key are not part of this model. The handler is given the context of its own conversation, so isolation between conversations is not stated.
- The bounded-history eviction inside `GlobalMessageContext.InsertMessage` (`MaxRecordCount`). Its code is not part of this model; `InsertMessage` is modelled as a plain append. The constructors' assignment of `MaxRecordCount` is dropped with it.
- Cache backend faults and lock timeouts. The model has no error path for them.
- `CacheStrategyFactory` and the async/sync bridging. The backend kind a cache read depends on is the parameter `cacheIsLocal`.
- The hooks are modelled as pure functions of the request and a snapshot of the flags. A hook in the source receives the handler itself and could change it; that is not modelled.
- Handlers.MessageHandler.CheckMessageRepeat: requires a request when the context switch is on. `Init` must assign the request (line 527). Without one, the source dereferences null at line 566 or line 586, unless the handler is already flagged and the comparison is skipped.
- XML handling (`XmlUtility.Convert`, `Init` apart from its possible cancellation, which the constructor takes as a parameter, `RequestDocument`, `ResponseDocument`, `FinalResponseDocument`), encryption flags, `NeuralSystem` node lookups, `ServiceProvider`, and the obsolete `Execute`/`OnExecuting`/`OnExecuted` wrappers. `FinalResponseDocument`'s text is a parameter.
- `SystemTime.NowTicks` in `GetInsertMessageKey`. The clock is nondeterministic, so the two readings are parameters.
- `RequestMsgType` lists a representative subset of the real enumeration. The gate uses only equality and the `Unknown` case.
- `CreateResponseMessage` and `CurrentMessageHandlerNode`/`CurrentAppDataNode`. These are not part of the gate.
