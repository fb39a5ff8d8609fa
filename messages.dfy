/** Request records as the deduplication gate sees them. */
module Messages {

  datatype Option<+T> = None | Some(value: T)

  /** The request message types. Only `Unknown` is treated specially by the gate;
      every other tag matters only through equality. */
  datatype RequestMsgType =
    | Text | Location | Image | Voice | Video | ShortVideo | Link | Event | File | NeuChar
    | Unknown

  /** The fields of a request message the gate and the lock key read. `MsgId` is zero for
      message kinds that carry no identifier; `CreateTime` is compared only for equality.
      The two user names may be null in the source, hence `Option`. */
  datatype RequestMessage = RequestMessage(
    MsgId: int,
    CreateTime: int,
    MsgType: RequestMsgType,
    ToUserName: Option<string>,
    FromUserName: Option<string>)

  /** The sender of the handler's request, or null when there is no request (`OpenId`). */
  function OpenId(request: Option<RequestMessage>): (id: Option<string>)
    // A sender name is reported only when there is a request that names one.
    ensures id.Some? <==> request.Some? && request.value.FromUserName.Some?
    ensures id.Some? ==> id == request.value.FromUserName
  {
    match request
    case None => None
    case Some(r) => r.FromUserName
  }
}
