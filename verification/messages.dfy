/** The JSON shapes returned by the two endpoints, as already-decoded values.
    Field names follow the JSON keys in Dafny spelling. */
module Messages {

  /** .NET `long`. */
  newtype Int64 = x: int | -0x8000_0000_0000_0000 <= x < 0x8000_0000_0000_0000

  /** .NET `int`. */
  newtype Int32 = x: int | -0x8000_0000 <= x < 0x8000_0000

  /** One entry of the inbox listing (`PublicMsg`). */
  datatype PublicMsg = PublicMsg(
    fromFull: string,
    subject: string,
    from: string,
    origFrom: string,
    to: string,
    id: string,
    time: Int64,
    secondsAgo: Int32)

  /** The inbox-status payload (`MailinatorStatus`). */
  datatype MailinatorStatus = MailinatorStatus(
    publicMsgs: seq<PublicMsg>,
    encPublicTo: string,
    publicTo: string)

  /** The fixed set of named header strings of a message or of a part. */
  datatype Headers = Headers(
    date: string,
    xPriority: string,
    subject: string,
    importance: string,
    messageId: string,
    received: string,
    from: string,
    contentType: string,
    to: string,
    errorsTo: string,
    replyTo: string)

  /** One MIME part of a message. */
  datatype Part = Part(headers: Headers, body: string)

  /** The body of a message-detail payload (`Data`). */
  datatype Data = Data(
    fromFull: string,
    headers: Headers,
    subject: string,
    requestId: string,
    parts: seq<Part>,
    from: string,
    origFrom: string,
    to: string,
    id: string,
    time: Int64,
    secondsAgo: Int32)

  /** The message-detail payload (`MailinatorMessage`). */
  datatype MailinatorMessage = MailinatorMessage(data: Data)
}
