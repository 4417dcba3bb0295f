/** The records of model/thread.go, model/message.go and model/model.go.
    Timestamps (`time.Time`) are integers; `interface{}` payloads arriving
    from a client are kept as their undecoded JSON text. */
module Entities {
  import opened DataKind

  /** An undecoded JSON value (a Go `interface{}` filled by `encoding/json`). */
  datatype Raw = Raw(json: string)

  const RawNull := Raw("null")

  datatype Message = Message(
    threadId: string,
    senderId: string,
    receiverId: string,
    messageType: string,
    messageBody: Raw,
    createdAt: int)

  datatype Thread = Thread(
    threadId: string,
    userId1: string,
    userId2: string,
    messages: seq<Message>,
    updatedAt: int)

  datatype GetMessagesInThreadRequest = GetMessagesInThreadRequest(threadId: string, limit: int, skip: int)

  /** The payload of an `InitData` envelope. */
  datatype Auth = Auth(token: string, userId: string)

  datatype Inbox = Inbox(threads: seq<Thread>)

  /** What the `Data` field of an envelope holds. */
  datatype Payload =
    | RawPayload(raw: Raw)
    | ErrorPayload(code: string, details: string)
    | InboxPayload(inbox: Inbox)
    | MessagePayload(message: Message)
    | ThreadPayload(messages: seq<Message>)

  /** `model.Data`: the envelope. `userId` is the recipient; it is never
      read from or written to the wire (`json:"-"`). */
  datatype Data = Data(dataType: DataType, data: Payload, userId: string)

  /** Every error envelope of the dispatcher: kind ErrorData, no recipient. */
  function ErrorEnvelope(code: string, details: string): (e: Data)
    ensures e.dataType == ErrorData && e.userId == ""
  {
    Data(ErrorData, ErrorPayload(code, details), "")
  }
}
