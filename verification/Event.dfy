/** The unified internal events. */
module Event {
  import opened Wrappers
  import opened JsonTree
  import opened Message

  /** The seconds the date library can hold. */
  predicate InTimeRange(t: int) {
    -8_334_601_228_800 <= t <= 8_210_266_876_799
  }

  /** Whole Unix seconds. */
  type Time = t: int | InTimeRange(t)

  type I32 = i: int | -0x8000_0000 <= i < 0x8000_0000

  datatype MessageType = Private | Group

  datatype Sender = Sender(
    userId: I64, nickname: string,
    card: Option<string>, sex: Option<string>, age: Option<I32>, area: Option<string>,
    level: Option<string>, role: Option<string>, title: Option<string>)

  datatype MessageEvent = MessageEvent(
    time: Time, selfId: I64, messageType: MessageType, subType: string, messageId: I64, userId: I64,
    groupId: Option<I64>, message: seq<Segment>, rawMessage: string, sender: Sender, font: I32)

  /** Notice, request and meta events: `kind` is the notice, request or meta event type. */
  datatype OtherEvent = OtherEvent(time: Time, selfId: I64, kind: string, subType: string, extra: Json)

  datatype Event =
    | MessageOf(msg: MessageEvent)
    | Notice(other: OtherEvent)
    | Request(other: OtherEvent)
    | Meta(other: OtherEvent)
}
