/** OneBot v11 events: JSON in, unified events, JSON out. */
module OneBotV11 {
  import opened Wrappers
  import opened JsonTree
  import opened Event
  import M = Message

  /** How the JSON library prints the doubles it kept. */
  type FloatText = U64 -> string

  // ----- Parsing -----

  function ParseTime(raw: Json, now: Time): Time {
    match GetI64(raw, "time")
    case Some(i) => if InTimeRange(i) then i else now
    case None => now
  }

  /** `as i32`: the low 32 bits, read as signed. */
  function AsI32(i: int): (r: I32)
    ensures -0x8000_0000 <= i < 0x8000_0000 ==> r == i
    ensures (i - r) % 0x1_0000_0000 == 0
  {
    (i + 0x8000_0000) % 0x1_0000_0000 - 0x8000_0000
  }

  function NumberText(n: Number, show: FloatText): string {
    match n
    case PosInt(u) => Decimal(u)
    case NegInt(i) => var k: int := i; "-" + Decimal(-k)
    case Float(bits) => show(bits)
  }

  /** An id may come as a string or as a number; anything else reads as zero, and a missing one as empty. */
  function IdText(data: Json, key: string, show: FloatText): string {
    match data.Get(key)
    case None => ""
    case Some(Str(s)) => s
    case Some(Num(n)) => NumberText(n, show)
    case Some(_) => "0"
  }

  function StrOr(v: Json, key: string): string {
    GetStr(v, key).GetOr("")
  }

  function I64Or(v: Json, key: string): I64 {
    GetI64(v, key).GetOr(0)
  }

  function ParseSegment(kind: string, data: Json, show: FloatText): (r: Option<M.Segment>)
    ensures r.Some? ==> !r.value.Unknown?
  {
    match kind
    case "text" => (match GetStr(data, "text") case Some(t) => Some(M.Text(t)) case None => None)
    case "image" => Some(M.Image(StrOr(data, "file"), GetStr(data, "url")))
    case "at" => Some(M.At(IdText(data, "qq", show)))
    case "face" => Some(M.Face(IdText(data, "id", show)))
    case "reply" => Some(M.Reply(IdText(data, "id", show)))
    case "record" => Some(M.Record(StrOr(data, "file"), GetStr(data, "url")))
    case "video" => Some(M.Video(StrOr(data, "file"), GetStr(data, "url")))
    case "forward" => Some(M.Forward(StrOr(data, "id")))
    case "json" => Some(M.Json(StrOr(data, "data")))
    case "xml" => Some(M.Xml(StrOr(data, "data")))
    case "poke" => Some(M.Poke(StrOr(data, "type"), StrOr(data, "id")))
    case _ => None
  }

  function ParseItem(item: Json, show: FloatText): (r: Option<M.Segment>)
    ensures r.Some? ==> !r.value.Unknown?
  {
    match GetStr(item, "type")
    case None => None
    case Some(kind) => ParseSegment(kind, item.Get("data").GetOr(Null), show)
  }

  function ParseItems(items: seq<Json>, show: FloatText): (r: seq<M.Segment>)
    ensures M.Unknown !in r && |r| <= |items|
  {
    if items == [] then []
    else
      (match ParseItem(items[0], show) case Some(s) => [s] case None => []) + ParseItems(items[1..], show)
  }

  function ParseMessage(raw: Json, show: FloatText): (r: seq<M.Segment>)
    ensures M.Unknown !in r
  {
    match raw.Get("message")
    case Some(Arr(items)) => ParseItems(items, show)
    case Some(Str(text)) => [M.Text(text)]
    case _ => []
  }

  function ParseSender(raw: Json): Sender {
    var s := raw.Get("sender").GetOr(Null);
    var age := match GetI64(s, "age") case Some(i) => Some(AsI32(i)) case None => None;
    Sender(I64Or(s, "user_id"), StrOr(s, "nickname"), GetStr(s, "card"), GetStr(s, "sex"), age,
      GetStr(s, "area"), GetStr(s, "level"), GetStr(s, "role"), GetStr(s, "title"))
  }

  function ParseMessageEvent(raw: Json, time: Time, show: FloatText): MessageEvent {
    MessageEvent(time, I64Or(raw, "self_id"),
      if GetStr(raw, "message_type") == Some("group") then Group else Private,
      StrOr(raw, "sub_type"), I64Or(raw, "message_id"), I64Or(raw, "user_id"), GetI64(raw, "group_id"),
      ParseMessage(raw, show), StrOr(raw, "raw_message"), ParseSender(raw), AsI32(I64Or(raw, "font")))
  }

  function ParseOther(raw: Json, kindKey: string, time: Time): OtherEvent {
    OtherEvent(time, I64Or(raw, "self_id"), StrOr(raw, kindKey), StrOr(raw, "sub_type"), raw)
  }

  /** `parse_event`; `now` is the clock, read when the event has no usable time. */
  function Parse(raw: Json, now: Time, show: FloatText): Result<Event> {
    match GetStr(raw, "post_type")
    case None => Err("missing post_type")
    case Some(kind) =>
      var time := ParseTime(raw, now);
      match kind
      case "message" => Ok(MessageOf(ParseMessageEvent(raw, time, show)))
      case "message_sent" => Ok(MessageOf(ParseMessageEvent(raw, time, show)))
      case "notice" => Ok(Notice(ParseOther(raw, "notice_type", time)))
      case "request" => Ok(Request(ParseOther(raw, "request_type", time)))
      case "meta_event" => Ok(Meta(ParseOther(raw, "meta_event_type", time)))
      case _ => Err("unknown post_type: " + kind)
  }

  // ----- Printing -----

  function I64Json(i: I64): (r: Json)
    ensures r.AsI64() == Some(i)
  {
    Num(FromI64(i))
  }

  function Tagged(kind: string, data: map<string, Json>): Json {
    Obj(map["type" := Str(kind), "data" := Obj(data)])
  }

  function SegmentToJson(s: M.Segment): Json {
    match s
    case Text(t) => Tagged("text", map["text" := Str(t)])
    case Image(file, url) => Tagged("image", Put(map["file" := Str(file)], "url", StrJson(url)))
    case At(qq) => Tagged("at", map["qq" := Str(qq)])
    case Face(id) => Tagged("face", map["id" := Str(id)])
    case Reply(id) => Tagged("reply", map["id" := Str(id)])
    case Record(file, url) => Tagged("record", Put(map["file" := Str(file)], "url", StrJson(url)))
    case Video(file, url) => Tagged("video", Put(map["file" := Str(file)], "url", StrJson(url)))
    case Forward(id) => Tagged("forward", map["id" := Str(id)])
    case Json(data) => Tagged("json", map["data" := Str(data)])
    case Xml(data) => Tagged("xml", map["data" := Str(data)])
    case Poke(pokeType, id) => Tagged("poke", map["type" := Str(pokeType), "id" := Str(id)])
    case Unknown => Obj(map["type" := Str("Unknown")])
  }

  function ItemsToJson(ss: seq<M.Segment>): (r: seq<Json>)
    ensures |r| == |ss|
  {
    if ss == [] then [] else [SegmentToJson(ss[0])] + ItemsToJson(ss[1..])
  }

  function StrJson(v: Option<string>): Option<Json> {
    match v
    case Some(s) => Some(Str(s))
    case None => None
  }

  /** A field skipped when there is no value. */
  function Put(fields: map<string, Json>, key: string, v: Option<Json>): map<string, Json> {
    match v
    case Some(x) => fields[key := x]
    case None => fields
  }

  function SenderFields(s: Sender): map<string, Json> {
    var fields := map["user_id" := I64Json(s.userId), "nickname" := Str(s.nickname)];
    var fields := Put(fields, "card", StrJson(s.card));
    var fields := Put(fields, "sex", StrJson(s.sex));
    var fields := Put(fields, "age", if s.age.Some? then Some(I64Json(s.age.value)) else None);
    var fields := Put(fields, "area", StrJson(s.area));
    var fields := Put(fields, "level", StrJson(s.level));
    var fields := Put(fields, "role", StrJson(s.role));
    Put(fields, "title", StrJson(s.title))
  }

  function SenderToJson(s: Sender): Json {
    Obj(SenderFields(s))
  }

  function MessageTypeText(t: MessageType): string {
    match t
    case Private => "private"
    case Group => "group"
  }

  function MessageFields(m: MessageEvent): map<string, Json> {
    map[
      "post_type" := Str("message"),
      "message_type" := Str(MessageTypeText(m.messageType)),
      "sub_type" := Str(m.subType),
      "time" := I64Json(m.time),
      "self_id" := I64Json(m.selfId),
      "message_id" := I64Json(m.messageId),
      "user_id" := I64Json(m.userId),
      "message" := Arr(ItemsToJson(m.message)),
      "raw_message" := Str(m.rawMessage),
      "font" := I64Json(m.font),
      "sender" := SenderToJson(m.sender)]
    + (if m.groupId.Some? then map["group_id" := I64Json(m.groupId.value)] else map[])
  }

  /** The object without its three rewritten fields is passed through as it came. */
  function OtherToJson(postType: string, e: OtherEvent): Json {
    if e.extra.Obj? then
      Obj(e.extra.fields + map["post_type" := Str(postType), "time" := I64Json(e.time), "self_id" := I64Json(e.selfId)])
    else e.extra
  }

  function ToJson(e: Event): Json {
    match e
    case MessageOf(m) => Obj(MessageFields(m))
    case Notice(o) => OtherToJson("notice", o)
    case Request(o) => OtherToJson("request", o)
    case Meta(o) => OtherToJson("meta_event", o)
  }

  /** `event_to_json`: keys are inserted one by one into a local object. */
  method EventToJson(e: Event) returns (obj: Json)
    ensures obj == ToJson(e)
  {
    hide ItemsToJson, SenderToJson, MessageTypeText, I64Json;
    match e
    case MessageOf(m) =>
      var fields := map["post_type" := Str("message"),
        "message_type" := Str(MessageTypeText(m.messageType)), "sub_type" := Str(m.subType),
        "time" := I64Json(m.time), "self_id" := I64Json(m.selfId), "message_id" := I64Json(m.messageId),
        "user_id" := I64Json(m.userId), "message" := Arr(ItemsToJson(m.message)),
        "raw_message" := Str(m.rawMessage), "font" := I64Json(m.font), "sender" := SenderToJson(m.sender)];
      if m.groupId.Some? { fields := fields["group_id" := I64Json(m.groupId.value)]; }
      assert fields == MessageFields(m);
      obj := Obj(fields);
    case Notice(o) => obj := Insert("notice", o);
    case Request(o) => obj := Insert("request", o);
    case Meta(o) => obj := Insert("meta_event", o);
  }

  method Insert(postType: string, o: OtherEvent) returns (obj: Json)
    ensures obj == OtherToJson(postType, o)
  {
    obj := o.extra;
    if obj.Obj? {
      var fields := obj.fields;
      fields := fields["post_type" := Str(postType)];
      fields := fields["time" := I64Json(o.time)];
      fields := fields["self_id" := I64Json(o.selfId)];
      assert fields == OtherToJson(postType, o).fields;
      obj := Obj(fields);
    }
  }

  // ----- Messages: parsing inverts printing -----

  lemma {:induction false} SegmentReparsed(s: M.Segment, show: FloatText)
    ensures ParseItem(SegmentToJson(s), show) == if s.Unknown? then None else Some(s)
  {
  }

  function WithoutUnknown(ss: seq<M.Segment>): (r: seq<M.Segment>)
    ensures M.Unknown !in ss ==> r == ss
  {
    if ss == [] then []
    else (if ss[0].Unknown? then [] else [ss[0]]) + WithoutUnknown(ss[1..])
  }

  lemma {:induction false} ItemsReparsed(ss: seq<M.Segment>, show: FloatText)
    ensures ParseItems(ItemsToJson(ss), show) == WithoutUnknown(ss)
  {
    if ss == [] {
    } else {
      hide SegmentToJson, ParseItem;
      SegmentReparsed(ss[0], show);
      ItemsReparsed(ss[1..], show);
      assert ItemsToJson(ss)[1..] == ItemsToJson(ss[1..]);
    }
  }

  /** What each key of a printed sender holds. */
  function SenderField(s: Sender, k: string): Option<Json> {
    match k
    case "user_id" => Some(I64Json(s.userId))
    case "nickname" => Some(Str(s.nickname))
    case "card" => StrJson(s.card)
    case "sex" => StrJson(s.sex)
    case "age" => if s.age.Some? then Some(I64Json(s.age.value)) else None
    case "area" => StrJson(s.area)
    case "level" => StrJson(s.level)
    case "role" => StrJson(s.role)
    case "title" => StrJson(s.title)
    case _ => None
  }

  lemma PutLookup(fields: map<string, Json>, key: string, v: Option<Json>, k: string)
    ensures Obj(Put(fields, key, v)).Get(k) == if k == key && v.Some? then v else Obj(fields).Get(k)
  {
  }

  lemma SenderLookup(s: Sender, k: string)
    ensures SenderToJson(s).Get(k) == SenderField(s, k)
  {
    hide Put, I64Json, StrJson;
    var f0 := map["user_id" := I64Json(s.userId), "nickname" := Str(s.nickname)];
    var f1 := Put(f0, "card", StrJson(s.card));
    var f2 := Put(f1, "sex", StrJson(s.sex));
    var f3 := Put(f2, "age", if s.age.Some? then Some(I64Json(s.age.value)) else None);
    var f4 := Put(f3, "area", StrJson(s.area));
    var f5 := Put(f4, "level", StrJson(s.level));
    var f6 := Put(f5, "role", StrJson(s.role));
    PutLookup(f0, "card", StrJson(s.card), k);
    PutLookup(f1, "sex", StrJson(s.sex), k);
    PutLookup(f2, "age", if s.age.Some? then Some(I64Json(s.age.value)) else None, k);
    PutLookup(f3, "area", StrJson(s.area), k);
    PutLookup(f4, "level", StrJson(s.level), k);
    PutLookup(f5, "role", StrJson(s.role), k);
    PutLookup(f6, "title", StrJson(s.title), k);
  }

  lemma SenderReparsed(raw: Json, s: Sender)
    requires raw.Get("sender") == Some(SenderToJson(s))
    ensures ParseSender(raw) == s
  {
    hide SenderToJson;
    SenderLookup(s, "user_id");
    SenderLookup(s, "nickname");
    SenderLookup(s, "card");
    SenderLookup(s, "sex");
    SenderLookup(s, "age");
    SenderLookup(s, "area");
    SenderLookup(s, "level");
    SenderLookup(s, "role");
    SenderLookup(s, "title");
  }

  /** What each key of a printed message holds. */
  function MessageField(m: MessageEvent, k: string): Option<Json> {
    match k
    case "post_type" => Some(Str("message"))
    case "message_type" => Some(Str(MessageTypeText(m.messageType)))
    case "sub_type" => Some(Str(m.subType))
    case "time" => Some(I64Json(m.time))
    case "self_id" => Some(I64Json(m.selfId))
    case "message_id" => Some(I64Json(m.messageId))
    case "user_id" => Some(I64Json(m.userId))
    case "group_id" => if m.groupId.Some? then Some(I64Json(m.groupId.value)) else None
    case "message" => Some(Arr(ItemsToJson(m.message)))
    case "raw_message" => Some(Str(m.rawMessage))
    case "font" => Some(I64Json(m.font))
    case "sender" => Some(SenderToJson(m.sender))
    case _ => None
  }

  lemma MessageLookup(m: MessageEvent, k: string)
    ensures ToJson(MessageOf(m)).Get(k) == MessageField(m, k)
  {
    hide ItemsToJson, SenderToJson, MessageTypeText, I64Json;
  }

  /** Reading back a printed message gives the message, without its unknown segments, whatever the clock. */
  lemma MessageReparsed(m: MessageEvent, now: Time, show: FloatText)
    ensures Parse(ToJson(MessageOf(m)), now, show) == Ok(MessageOf(m.(message := WithoutUnknown(m.message))))
  {
    var raw := ToJson(MessageOf(m));
    hide ToJson, ItemsToJson, ParseItems, SenderToJson, ParseSender, WithoutUnknown;
    MessageLookup(m, "post_type");
    MessageLookup(m, "message_type");
    MessageLookup(m, "sub_type");
    MessageLookup(m, "time");
    MessageLookup(m, "self_id");
    MessageLookup(m, "message_id");
    MessageLookup(m, "user_id");
    MessageLookup(m, "group_id");
    MessageLookup(m, "message");
    MessageLookup(m, "raw_message");
    MessageLookup(m, "font");
    MessageLookup(m, "sender");
    assert ParseMessage(raw, show) == WithoutUnknown(m.message) by { ItemsReparsed(m.message, show); }
    assert ParseSender(raw) == m.sender by { SenderReparsed(raw, m.sender); }
  }

  // ----- Inputs that mean the same -----

  /** An id sent as a number reads as the same id sent as its decimal text. */
  lemma NumberIdsReadAsText(kind: string, key: string, n: Number, show: FloatText)
    requires (kind == "at" && key == "qq") || ((kind == "face" || kind == "reply") && key == "id")
    requires !n.Float?
    ensures var text := if n.PosInt? then Decimal(n.u) else "-" + Decimal(-(n.i as int));
            ParseItem(Tagged(kind, map[key := Num(n)]), show) == ParseItem(Tagged(kind, map[key := Str(text)]), show)
            && ParseItem(Tagged(kind, map[key := Num(n)]), show).Some?
  {
  }

  /** The message sent by the account itself reads like one it received, and a plain string like one text segment. */
  lemma OtherSpellings(fields: map<string, Json>, text: string, now: Time, show: FloatText)
    ensures Parse(Obj(fields["post_type" := Str("message_sent")]), now, show)
            == Parse(Obj(fields["post_type" := Str("message")]), now, show)
    ensures ParseMessage(Obj(fields["message" := Str(text)]), show)
            == ParseMessage(Obj(fields["message" := Arr([Tagged("text", map["text" := Str(text)])])]), show)
            == [M.Text(text)]
  {
    hide Parse, ParseItems, Tagged;
    TextItem(text, show);
    SentIsMessage(fields, now, show);
  }

  lemma TextItem(text: string, show: FloatText)
    ensures ParseItems([Tagged("text", map["text" := Str(text)])], show) == [M.Text(text)]
  {
    var seg := Tagged("text", map["text" := Str(text)]);
    SegmentReparsed(M.Text(text), show);
    assert seg == SegmentToJson(M.Text(text));
    assert [seg][1..] == [];
    hide ParseItem, SegmentToJson;
  }

  lemma SentIsMessage(fields: map<string, Json>, now: Time, show: FloatText)
    ensures Parse(Obj(fields["post_type" := Str("message_sent")]), now, show)
            == Parse(Obj(fields["post_type" := Str("message")]), now, show)
  {
    hide ParseMessageEvent;
    var sent, plain := Obj(fields["post_type" := Str("message_sent")]), Obj(fields["post_type" := Str("message")]);
    SameGet(sent, plain, "self_id");
    SameGet(sent, plain, "time");
    SameMessage(sent, plain, ParseTime(plain, now), show);
  }

  /** The two objects agree on every other key. */
  ghost predicate SameBut(a: Json, b: Json) {
    forall k :: k != "post_type" ==> a.Get(k) == b.Get(k)
  }

  lemma SameGet(a: Json, b: Json, k: string)
    requires SameBut(a, b) && k != "post_type"
    ensures a.Get(k) == b.Get(k) && GetStr(a, k) == GetStr(b, k) && GetI64(a, k) == GetI64(b, k)
  {
  }

  lemma SameMessage(a: Json, b: Json, time: Time, show: FloatText)
    requires SameBut(a, b)
    ensures ParseMessageEvent(a, time, show) == ParseMessageEvent(b, time, show)
  {
    hide SameBut, ParseItems, GetStr, GetI64;
    SameGet(a, b, "self_id");
    SameGet(a, b, "message_type");
    SameGet(a, b, "sub_type");
    SameGet(a, b, "message_id");
    SameGet(a, b, "user_id");
    SameGet(a, b, "group_id");
    SameGet(a, b, "message");
    SameGet(a, b, "raw_message");
    SameGet(a, b, "sender");
    SameGet(a, b, "font");
  }

  // ----- What each field is read from -----

  predicate HoldsStr(v: Json, key: string, s: string) {
    v.Obj? && key in v.fields && v.fields[key] == Str(s)
  }

  /** Nothing there, or something that is no string. */
  predicate NoStr(v: Json, key: string) {
    v.Obj? && key in v.fields ==> !v.fields[key].Str?
  }

  predicate HoldsInt(v: Json, key: string, i: int) {
    v.Obj? && key in v.fields && v.fields[key].Num? && v.fields[key].n.AsI64() == Some(i)
  }

  /** Nothing there, or something that is no 64-bit signed integer. */
  predicate NoInt(v: Json, key: string) {
    v.Obj? && key in v.fields && v.fields[key].Num? ==> v.fields[key].n.AsI64() == None
  }

  /** The post types the parser accepts. */
  lemma AcceptedIff(raw: Json, now: Time, show: FloatText)
    ensures Parse(raw, now, show).Ok? <==>
            HoldsStr(raw, "post_type", "message") || HoldsStr(raw, "post_type", "message_sent")
            || HoldsStr(raw, "post_type", "notice") || HoldsStr(raw, "post_type", "request")
            || HoldsStr(raw, "post_type", "meta_event")
    ensures NoStr(raw, "post_type") ==> Parse(raw, now, show) == Err("missing post_type")
  {
    hide ParseMessageEvent, ParseOther;
  }

  predicate IsOther(kind: string) {
    kind == "notice" || kind == "request" || kind == "meta_event"
  }

  /** The key that names what kind of notice, request or meta event it is. */
  function KindKey(postType: string): string {
    if postType == "notice" then "notice_type" else if postType == "request" then "request_type" else "meta_event_type"
  }

  predicate OfType(e: Event, postType: string) {
    match postType
    case "notice" => e.Notice?
    case "request" => e.Request?
    case _ => e.Meta?
  }

  /** A notice, request or meta event carries its own type and sub type; what is missing or no string is empty. */
  lemma OtherFields(raw: Json, postType: string, now: Time, show: FloatText)
    requires HoldsStr(raw, "post_type", postType) && IsOther(postType)
    ensures Parse(raw, now, show).Ok? && OfType(Parse(raw, now, show).value, postType)
    ensures var o := Parse(raw, now, show).value.other;
            (forall t :: HoldsStr(raw, KindKey(postType), t) ==> o.kind == t)
            && (NoStr(raw, KindKey(postType)) ==> o.kind == "")
            && (forall t :: HoldsStr(raw, "sub_type", t) ==> o.subType == t)
            && (NoStr(raw, "sub_type") ==> o.subType == "")
            && (forall i :: HoldsInt(raw, "self_id", i) ==> o.selfId == i)
            && (NoInt(raw, "self_id") ==> o.selfId == 0)
            && o.extra == raw
    ensures TimeRead(raw, now, Parse(raw, now, show).value.other.time)
  {
    hide ParseMessageEvent;
    OtherParsed(raw, postType, now, show);
    hide Parse;
    StrRead(raw, KindKey(postType));
    StrRead(raw, "sub_type");
    IntRead(raw, "self_id");
    TimeIsRead(raw, now);
  }

  lemma OtherParsed(raw: Json, postType: string, now: Time, show: FloatText)
    requires HoldsStr(raw, "post_type", postType) && IsOther(postType)
    ensures var p := Parse(raw, now, show);
            p.Ok? && OfType(p.value, postType) && !p.value.MessageOf?
            && p.value.other == ParseOther(raw, KindKey(postType), ParseTime(raw, now))
  {
    hide ParseMessageEvent, ParseOther;
  }

  lemma StrRead(raw: Json, key: string)
    ensures forall t :: HoldsStr(raw, key, t) ==> StrOr(raw, key) == t && GetStr(raw, key) == Some(t)
    ensures NoStr(raw, key) ==> StrOr(raw, key) == "" && GetStr(raw, key) == None
  {
  }

  lemma IntRead(raw: Json, key: string)
    ensures forall i :: HoldsInt(raw, key, i) ==> I64Or(raw, key) == i && GetI64(raw, key) == Some(i)
    ensures NoInt(raw, key) ==> I64Or(raw, key) == 0 && GetI64(raw, key) == None
  {
  }

  /** The event's own time when it is usable, else the clock's. */
  ghost predicate TimeRead(raw: Json, now: Time, time: Time) {
    (forall i :: HoldsInt(raw, "time", i) && InTimeRange(i) ==> time == i)
    && (forall i :: HoldsInt(raw, "time", i) && !InTimeRange(i) ==> time == now)
    && (NoInt(raw, "time") ==> time == now)
  }

  lemma TimeIsRead(raw: Json, now: Time)
    ensures TimeRead(raw, now, ParseTime(raw, now))
  {
  }

  /** A message's own fields, and what stands for those that are missing or of the wrong type. */
  lemma MessageFieldsRead(raw: Json, now: Time, show: FloatText)
    requires HoldsStr(raw, "post_type", "message") || HoldsStr(raw, "post_type", "message_sent")
    ensures Parse(raw, now, show).Ok? && Parse(raw, now, show).value.MessageOf?
    ensures var m := Parse(raw, now, show).value.msg;
            (m.messageType == Group <==> HoldsStr(raw, "message_type", "group"))
            && (forall t :: HoldsStr(raw, "sub_type", t) ==> m.subType == t)
            && (NoStr(raw, "sub_type") ==> m.subType == "")
            && (forall t :: HoldsStr(raw, "raw_message", t) ==> m.rawMessage == t)
            && (NoStr(raw, "raw_message") ==> m.rawMessage == "")
            && (forall i :: HoldsInt(raw, "group_id", i) ==> m.groupId == Some(i))
            && (NoInt(raw, "group_id") ==> m.groupId == None)
    ensures var m := Parse(raw, now, show).value.msg;
            (forall i :: HoldsInt(raw, "self_id", i) ==> m.selfId == i) && (NoInt(raw, "self_id") ==> m.selfId == 0)
            && (forall i :: HoldsInt(raw, "user_id", i) ==> m.userId == i) && (NoInt(raw, "user_id") ==> m.userId == 0)
            && (forall i :: HoldsInt(raw, "message_id", i) ==> m.messageId == i)
            && (NoInt(raw, "message_id") ==> m.messageId == 0)
            && (forall i :: HoldsInt(raw, "font", i) ==> (i - m.font) % 0x1_0000_0000 == 0)
            && (NoInt(raw, "font") ==> m.font == 0)
    ensures TimeRead(raw, now, Parse(raw, now, show).value.msg.time)
  {
    MessageParsed(raw, now, show);
    hide Parse, ParseMessage, ParseSender, HoldsStr, NoStr, HoldsInt, NoInt, StrOr, I64Or, GetI64, TimeRead;
    StrRead(raw, "message_type");
    StrRead(raw, "sub_type");
    StrRead(raw, "raw_message");
    IntRead(raw, "group_id");
    IntRead(raw, "self_id");
    IntRead(raw, "user_id");
    IntRead(raw, "message_id");
    IntRead(raw, "font");
    TimeIsRead(raw, now);
    GroupIsRead(raw);
  }

  lemma GroupIsRead(raw: Json)
    ensures GetStr(raw, "message_type") == Some("group") <==> HoldsStr(raw, "message_type", "group")
  {
  }

  lemma MessageParsed(raw: Json, now: Time, show: FloatText)
    requires HoldsStr(raw, "post_type", "message") || HoldsStr(raw, "post_type", "message_sent")
    ensures Parse(raw, now, show) == Ok(MessageOf(ParseMessageEvent(raw, ParseTime(raw, now), show)))
  {
    hide ParseMessageEvent;
  }

  /** With no sender, or none that is an object, everything about it is empty. */
  lemma NoSender(raw: Json)
    requires raw.Get("sender") == None || !raw.Get("sender").value.Obj?
    ensures ParseSender(raw) == Sender(0, "", None, None, None, None, None, None, None)
  {
  }

  /** A sender's own fields; the optional ones are there exactly when they have the right type. */
  lemma SenderFieldsRead(raw: Json, s: Json)
    requires raw.Get("sender") == Some(s)
    ensures var r := ParseSender(raw);
            (forall i :: HoldsInt(s, "user_id", i) ==> r.userId == i) && (NoInt(s, "user_id") ==> r.userId == 0)
            && (forall t :: HoldsStr(s, "nickname", t) ==> r.nickname == t)
                && (NoStr(s, "nickname") ==> r.nickname == "")
            && (forall i :: HoldsInt(s, "age", i) ==> r.age.Some? && (i - r.age.value) % 0x1_0000_0000 == 0)
            && (NoInt(s, "age") ==> r.age == None)
    ensures var r := ParseSender(raw);
            r.card == GetStr(s, "card") && r.sex == GetStr(s, "sex") && r.area == GetStr(s, "area")
            && r.level == GetStr(s, "level") && r.role == GetStr(s, "role") && r.title == GetStr(s, "title")
  {
    IntRead(s, "user_id");
    StrRead(s, "nickname");
    IntRead(s, "age");
    hide HoldsStr, NoStr, HoldsInt, NoInt, GetStr, GetI64, StrOr, I64Or;
  }

  /** A segment whose data are missing or no object: empty fields, and no text segment at all. */
  lemma BareSegments(data: Json, show: FloatText)
    requires !data.Obj?
    ensures ParseSegment("text", data, show) == None
    ensures ParseSegment("image", data, show) == Some(M.Image("", None))
    ensures ParseSegment("record", data, show) == Some(M.Record("", None))
    ensures ParseSegment("video", data, show) == Some(M.Video("", None))
    ensures ParseSegment("at", data, show) == Some(M.At(""))
    ensures ParseSegment("face", data, show) == Some(M.Face(""))
    ensures ParseSegment("reply", data, show) == Some(M.Reply(""))
    ensures ParseSegment("forward", data, show) == Some(M.Forward(""))
    ensures ParseSegment("json", data, show) == Some(M.Json(""))
    ensures ParseSegment("xml", data, show) == Some(M.Xml(""))
    ensures ParseSegment("poke", data, show) == Some(M.Poke("", ""))
  {
    NothingInside(data, "text", show);
    NothingInside(data, "file", show);
    NothingInside(data, "url", show);
    NothingInside(data, "qq", show);
    NothingInside(data, "id", show);
    NothingInside(data, "data", show);
    NothingInside(data, "type", show);
    hide GetStr, StrOr, IdText;
  }

  lemma NothingInside(data: Json, key: string, show: FloatText)
    requires !data.Obj?
    ensures GetStr(data, key) == None && StrOr(data, key) == "" && IdText(data, key, show) == ""
  {
  }

  /** An id that is neither a string nor a number reads as zero. */
  lemma OddIds(v: Json, show: FloatText)
    requires !v.Str? && !v.Num?
    ensures ParseItem(Tagged("at", map["qq" := v]), show) == Some(M.At("0"))
    ensures ParseItem(Tagged("face", map["id" := v]), show) == Some(M.Face("0"))
    ensures ParseItem(Tagged("reply", map["id" := v]), show) == Some(M.Reply("0"))
  {
  }

  predicate KnownKind(kind: string) {
    kind in {"text", "image", "at", "face", "reply", "record", "video", "forward", "json", "xml", "poke"}
  }

  /** Which items make no segment: those without a known type, and texts without a text. */
  lemma DroppedItems(item: Json, show: FloatText)
    ensures NoStr(item, "type") ==> ParseItem(item, show) == None
    ensures forall kind :: HoldsStr(item, "type", kind) && !KnownKind(kind) ==> ParseItem(item, show) == None
    ensures forall kind :: HoldsStr(item, "type", kind) && KnownKind(kind) && kind != "text" ==>
        ParseItem(item, show).Some?
    ensures HoldsStr(item, "type", "text") ==>
              (ParseItem(item, show).Some? <==> GetStr(item.Get("data").GetOr(Null), "text").Some?)
  {
    StrRead(item, "type");
    KnownKinds(item.Get("data").GetOr(Null), show);
    hide ParseSegment, KnownKind;
  }

  lemma KnownKinds(data: Json, show: FloatText)
    ensures forall kind :: !KnownKind(kind) ==> ParseSegment(kind, data, show) == None
    ensures forall kind :: KnownKind(kind) && kind != "text" ==> ParseSegment(kind, data, show).Some?
    ensures ParseSegment("text", data, show).Some? <==> GetStr(data, "text").Some?
  {
    hide StrOr, IdText, GetStr;
  }

  /** A message field that is neither a list nor a string is no message. */
  lemma NoMessage(raw: Json, show: FloatText)
    requires raw.Get("message") == None || (!raw.Get("message").value.Arr? && !raw.Get("message").value.Str?)
    ensures ParseMessage(raw, show) == []
  {
  }

  /** An event kept without an object is printed as it was kept. */
  lemma OddContent(postType: string, e: OtherEvent)
    requires !e.extra.Obj?
    ensures OtherToJson(postType, e) == e.extra
  {
  }

  // ----- The normaliser: print after parse -----

  /** A number field that reads as an integer is that integer's own printing. */
  lemma IntegerField(v: Json)
    ensures v.AsI64().Some? ==> v == I64Json(v.AsI64().value)
  {
  }

  /** What a notice, request or meta object prints back as. */
  lemma OtherPrinted(raw: Json, kind: string, now: Time, show: FloatText)
    requires GetStr(raw, "post_type") == Some(kind) && IsOther(kind)
    ensures var p := Parse(raw, now, show);
            p.Ok? && !p.value.MessageOf? && ToJson(p.value) == OtherToJson(kind, p.value.other)
            && p.value.other.extra == raw && p.value.other.time == ParseTime(raw, now)
            && p.value.other.selfId == I64Or(raw, "self_id")
  {
  }

  /** Parsed events of different kinds differ in their content, which is what tells their fingerprints apart. */
  lemma ParsedKindsDiffer(a: Json, b: Json, now: Time, later: Time, show: FloatText)
    requires Parse(a, now, show).Ok? && Parse(b, later, show).Ok?
    requires !Parse(a, now, show).value.MessageOf? && !Parse(b, later, show).value.MessageOf?
    requires GetStr(a, "post_type") != GetStr(b, "post_type")
    ensures Parse(a, now, show).value.other.extra != Parse(b, later, show).value.other.extra
  {
    hide ParseMessageEvent;
    OtherPrinted(a, GetStr(a, "post_type").value, now, show);
    OtherPrinted(b, GetStr(b, "post_type").value, later, show);
  }

  /** A notice, request or meta object comes back unchanged exactly when its time and account id are usable. */
  lemma IdentityIff(raw: Json, now: Time, show: FloatText)
    requires GetStr(raw, "post_type").Some? && IsOther(GetStr(raw, "post_type").value)
    ensures Parse(raw, now, show).Ok?
    ensures ToJson(Parse(raw, now, show).value) == raw
      <==> GetI64(raw, "self_id").Some? && GetI64(raw, "time").Some? && InTimeRange(GetI64(raw, "time").value)
  {
    var kind := GetStr(raw, "post_type").value;
    OtherPrinted(raw, kind, now, show);
    var e := Parse(raw, now, show).value;
    hide Parse, ToJson;
    var fields := raw.fields;
    var printed := OtherToJson(kind, e.other).fields;
    assert printed["time"] == I64Json(e.other.time) && printed["self_id"] == I64Json(e.other.selfId);
    if "time" in fields { IntegerField(fields["time"]); }
    if "self_id" in fields { IntegerField(fields["self_id"]); }
    if GetI64(raw, "self_id").Some? && GetI64(raw, "time").Some? && InTimeRange(GetI64(raw, "time").value) {
      assert printed == fields;
    }
  }

  /**
   Printing what was parsed is a normal form: parsing that and printing again changes nothing, and the second reading
   does not look at the clock.
   */
  lemma NormalisesOnce(raw: Json, now: Time, later: Time, show: FloatText)
    requires Parse(raw, now, show).Ok?
    ensures var once := ToJson(Parse(raw, now, show).value);
            Parse(once, later, show).Ok? && ToJson(Parse(once, later, show).value) == once
  {
    hide Parse, ToJson;
    var e := Parse(raw, now, show).value;
    if e.MessageOf? {
      MessageReparsed(e.msg, later, show);
      ParsedIsKnown(raw, now, show);
    } else {
      OtherNormalises(raw, now, later, show);
    }
  }

  /** A parsed message holds no unknown segment. */
  lemma ParsedIsKnown(raw: Json, now: Time, show: FloatText)
    requires Parse(raw, now, show).Ok? && Parse(raw, now, show).value.MessageOf?
    ensures var m := Parse(raw, now, show).value.msg; WithoutUnknown(m.message) == m.message
  {
    hide ParseMessage, ParseSender, WithoutUnknown;
  }

  lemma OtherNormalises(raw: Json, now: Time, later: Time, show: FloatText)
    requires Parse(raw, now, show).Ok? && !Parse(raw, now, show).value.MessageOf?
    ensures var once := ToJson(Parse(raw, now, show).value);
            Parse(once, later, show).Ok? && ToJson(Parse(once, later, show).value) == once
  {
    hide Parse, ToJson, OtherToJson, IsOther;
    OtherKind(raw, now, show);
    var kind := GetStr(raw, "post_type").value;
    OtherPrinted(raw, kind, now, show);
    var e := Parse(raw, now, show).value;
    RewrittenFields(kind, e.other);
    IdentityIff(ToJson(e), later, show);
  }

  lemma OtherKind(raw: Json, now: Time, show: FloatText)
    requires Parse(raw, now, show).Ok? && !Parse(raw, now, show).value.MessageOf?
    ensures raw.Obj? && GetStr(raw, "post_type").Some? && IsOther(GetStr(raw, "post_type").value)
  {
    hide ParseMessageEvent, ParseOther;
  }

  lemma RewrittenFields(kind: string, e: OtherEvent)
    requires e.extra.Obj?
    ensures var v := OtherToJson(kind, e);
            GetStr(v, "post_type") == Some(kind) && GetI64(v, "self_id") == Some(e.selfId)
            && GetI64(v, "time") == Some(e.time)
  {
  }
}
