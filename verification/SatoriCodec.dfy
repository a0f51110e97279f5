/** Message segments to Satori elements and back. */
module SatoriCodec {
  import opened Wrappers
  import opened Text
  import opened SatoriEscape
  import opened SatoriScan
  import opened Message

  const FORWARD := "forward"

  // ----- Printing -----

  function Source(file: string, url: Option<string>): string {
    url.GetOr(file)
  }

  /** `<name attrs />` */
  function Element(name: string, attrs: string): string {
    Tagged(name + " " + attrs + " /")
  }

  function Tagged(body: string): string {
    "<" + body + ">"
  }

  /** `key="value"`, the value escaped. */
  function Attr(key: string, value: string): string {
    key + "=\"" + EscapeAttr(value) + "\""
  }

  function PrintOne(seg: Segment): string {
    match seg
    case Text(text) => EscapeText(text)
    case At(qq) => if qq == "all" then Element("at", "type=\"all\"") else Element("at", Attr("id", qq))
    case Image(file, url) => Element("img", Attr("src", Source(file, url)))
    case Face(id) => Element("emoji", Attr("id", id))
    case Reply(id) => Tagged("quote") + Element("message", Attr("id", id)) + Tagged("/quote")
    case Record(file, url) => Element("audio", Attr("src", Source(file, url)))
    case Video(file, url) => Element("video", Attr("src", Source(file, url)))
    case Forward(id) => Element("message", Attr("id", id) + " forward")
    case Json(data) => EscapeText(data)
    case Xml(data) => EscapeText(data)
    case Poke(pokeType, id) => Element("qq:poke", Attr("type", pokeType) + " " + Attr("id", id))
    case Unknown => ""
  }

  function Print(segs: seq<Segment>): string {
    if segs == [] then "" else PrintOne(segs[0]) + Print(segs[1..])
  }

  // ----- Parsing -----

  /** The tag text without surrounding space and without its closing slashes. */
  function TagCore(tag: string): string {
    Trim(TrimEndMatches(Trim(tag), '/'))
  }

  function ParseTag(tag: string): Option<Segment> {
    ParseCore(TagCore(tag))
  }

  function ParseCore(t: string): Option<Segment> {
    if "at" <= t then AtMeaning(ParseAttrsSpec(t[2..]))
    else if "img" <= t then
      var attrs := ParseAttrsSpec(t[3..]);
      if "src" in attrs then Some(Image(attrs["src"], Some(attrs["src"]))) else None
    else if "audio" <= t then
      var attrs := ParseAttrsSpec(t[5..]);
      if "src" in attrs then Some(Record(attrs["src"], Some(attrs["src"]))) else None
    else if "video" <= t then
      var attrs := ParseAttrsSpec(t[5..]);
      if "src" in attrs then Some(Video(attrs["src"], Some(attrs["src"]))) else None
    else if "emoji" <= t then
      var attrs := ParseAttrsSpec(t[5..]);
      if "id" in attrs then Some(Face(attrs["id"])) else None
    else if "message" <= t then MessageMeaning(t, ParseAttrsSpec(t[7..]))
    else None
  }

  function AtMeaning(attrs: Attrs): Option<Segment> {
    if "type" in attrs && (attrs["type"] == "all" || attrs["type"] == "here") then Some(At(attrs["type"]))
    else if "id" in attrs then Some(At(attrs["id"]))
    else None
  }

  /** The forward test looks at the whole tag text, not only at the attribute names. */
  function MessageMeaning(t: string, attrs: Attrs): Option<Segment> {
    if (FORWARD in attrs || Contains(t, FORWARD)) && "id" in attrs then Some(Forward(attrs["id"]))
    else if "id" in attrs then Some(Reply(attrs["id"]))
    else None
  }

  function Meaning(ps: seq<Piece>): seq<Segment> {
    if ps == [] then []
    else MeaningOne(ps[0]) + Meaning(ps[1..])
  }

  function MeaningOne(p: Piece): seq<Segment> {
    match p
    case Raw(text) => [Text(Unescape(text))]
    case Tag(body, _) => ToSeq(ParseTag(body))
  }

  function ToSeq(o: Option<Segment>): seq<Segment> {
    match o case Some(seg) => [seg] case None => []
  }

  /** The text segment of a pending buffer. */
  function Buffered(buf: string): seq<Segment> {
    if buf == "" then [] else [Text(Unescape(buf))]
  }

  /** What the rest of the input means when `buf` is still pending. */
  function MeaningFrom(s: string, buf: string): seq<Segment> {
    Meaning(Scan(s, buf))
  }

  /** What a Satori element string means. */
  function Parse(content: string): seq<Segment> {
    MeaningFrom(content, "")
  }

  // ----- The loops -----

  method SegmentsToElements(segs: seq<Segment>) returns (out: string)
    ensures out == Print(segs)
  {
    hide PrintOne;
    out := "";
    for i := 0 to |segs|
      invariant out + Print(segs[i..]) == Print(segs)
    {
      assert segs[i..][1..] == segs[i + 1..];
      Reassociate(out, PrintOne(segs[i]), Print(segs[i + 1..]));
      out := out + PrintOne(segs[i]);
    }
  }

  lemma {:induction false} MeaningAppend(a: seq<Piece>, b: seq<Piece>)
    ensures Meaning(a + b) == Meaning(a) + Meaning(b)
  {
    if a == [] {
      assert a + b == b;
    } else {
      assert (a + b)[1..] == a[1..] + b;
      MeaningAppend(a[1..], b);
    }
  }

  lemma MeaningUnit(p: Piece)
    ensures Meaning([p]) == MeaningOne(p)
  {
    hide MeaningOne;
    assert [p][1..] == [];
  }

  lemma MeaningStep(buf: string, body: string, closed: bool, ps: seq<Piece>)
    ensures Meaning(Flush(buf) + [Tag(body, closed)] + ps) ==
            Buffered(buf) + ToSeq(ParseTag(body)) + Meaning(ps)
  {
    hide ParseTag, Unescape;
    MeaningAppend(Flush(buf) + [Tag(body, closed)], ps);
    MeaningAppend(Flush(buf), [Tag(body, closed)]);
    MeaningUnit(Tag(body, closed));
    if buf != "" { MeaningUnit(Raw(buf)); }
  }

  /** One turn of the parsing loop: a tag, an entity, or a plain character. */
  lemma MeaningTurn(s: string, buf: string)
    requires s != ""
    ensures s[0] == '<' ==>
              var (tag, rest) := TagSplit(s);
              MeaningFrom(s, buf) == Buffered(buf) + ToSeq(ParseTag(tag)) + MeaningFrom(rest, "")
    ensures s[0] == '&' ==> var (entity, rest) := EntitySplit(s); MeaningFrom(s, buf) == MeaningFrom(rest, buf + entity)
    ensures s[0] != '<' && s[0] != '&' ==> MeaningFrom(s, buf) == MeaningFrom(s[1..], buf + [s[0]])
  {
    hide ParseTag, TagSplit, EntitySplit, Buffered;
    if s[0] == '<' {
      var (tag, rest) := TagSplit(s);
      MeaningStep(buf, tag, |tag| + 1 < |s|, Scan(rest, ""));
    }
  }

  lemma MeaningEnd(buf: string)
    ensures MeaningFrom("", buf) == Buffered(buf)
  {
    hide Unescape;
    if buf != "" { MeaningUnit(Raw(buf)); }
  }

  method ParseElements(content: string) returns (segments: seq<Segment>)
    ensures segments == Parse(content)
  {
    hide ParseTag, Unescape, TagSplit, EntitySplit, MeaningFrom;
    segments := [];
    var chars := new CharStream(content);
    var textBuf := "";
    while chars.Peek().Some?
      invariant fresh(chars) && chars.Valid()
      invariant segments + MeaningFrom(chars.Rest(), textBuf) == MeaningFrom(content, "")
      decreases |chars.Rest()|
    {
      ghost var s := chars.Rest();
      MeaningTurn(s, textBuf);
      TagShrinks(s);
      EntityShrinks(s);
      var ch := chars.Peek().value;
      if ch == '<' {
        if textBuf != "" {
          segments := segments + [Text(Unescape(textBuf))];
          textBuf := "";
        }
        var tag := ReadTag(chars);
        var seg := ParseTag(tag);
        if seg.Some? {
          segments := segments + [seg.value];
        }
      } else if ch == '&' {
        var entity := ReadEntity(chars);
        textBuf := textBuf + entity;
      } else {
        textBuf := textBuf + [ch];
        var _ := chars.Next();
      }
    }
    MeaningEnd(textBuf);
    if textBuf != "" {
      segments := segments + [Text(Unescape(textBuf))];
    }
  }

  lemma TagShrinks(s: string)
    requires s != ""
    ensures |TagSplit(s).1| < |s|
  {
  }

  lemma EntityShrinks(s: string)
    requires s != ""
    ensures |EntitySplit(s).1| < |s|
  {
  }

  // ----- The normal form a round trip computes -----

  function FlushText(acc: string): seq<Segment> {
    if acc == "" then [] else [Text(acc)]
  }

  /** The segment a printed tag comes back as; a poke comes back as nothing. */
  function Returned(seg: Segment): seq<Segment>
  {
    match seg
    case Image(file, url) => [Image(Source(file, url), Some(Source(file, url)))]
    case Record(file, url) => [Record(Source(file, url), Some(Source(file, url)))]
    case Video(file, url) => [Video(Source(file, url), Some(Source(file, url)))]
    case Reply(id) => if Contains(id, FORWARD) then [Forward(id)] else [Reply(id)]
    case Poke(_, _) => []
    case _ => [seg]
  }

  predicate PrintsText(seg: Segment) {
    seg.Text? || seg.Json? || seg.Xml? || seg.Unknown?
  }

  function PrintedText(seg: Segment): string
    requires PrintsText(seg)
  {
    match seg
    case Text(text) => text
    case Json(data) => data
    case Xml(data) => data
    case Unknown => ""
  }

  /** Texts, JSON and XML run together in `acc`; every tag, a poke included, ends the run. */
  function NormalFrom(segs: seq<Segment>, acc: string): seq<Segment> {
    if segs == [] then FlushText(acc)
    else if PrintsText(segs[0]) then NormalFrom(segs[1..], acc + PrintedText(segs[0]))
    else FlushText(acc) + Returned(segs[0]) + NormalFrom(segs[1..], "")
  }

  function Normal(segs: seq<Segment>): seq<Segment> {
    NormalFrom(segs, "")
  }

  // ----- Reading one printed tag back -----

  /** Neither end is white space, and nothing in it closes a tag. */
  predicate Tight(attrs: string) {
    attrs != "" && !IsWhitespace(attrs[0]) && !IsWhitespace(attrs[|attrs| - 1]) && '>' !in attrs
  }

  /** Trimming a printed tag body leaves its name and attributes. */
  lemma PrintedCore(name: string, attrs: string)
    requires name != "" && !IsWhitespace(name[0]) && Tight(attrs)
    ensures TagCore(name + " " + attrs + " /") == name + " " + attrs
  {
    var core := name + " " + attrs;
    var full := core + " /";
    assert full[|full| - 1] == '/' && full[0] == name[0];
    assert TrimStart(full) == full && TrimEnd(full) == full;
    assert full[..|full| - 1] == core + " ";
    var spaced := core + " ";
    assert spaced[|spaced| - 1] == ' ' && spaced[0] == name[0];
    assert TrimEndMatches(full, '/') == spaced;
    assert spaced[..|core|] == core;
    assert core[|core| - 1] == attrs[|attrs| - 1];
    assert TrimEnd(spaced) == TrimEnd(core) == core;
  }

  lemma AttrsAfterName(attrs: string)
    requires Tight(attrs)
    ensures ParseAttrsSpec(" " + attrs) == ParseFrom(attrs, map[])
  {
    assert (" " + attrs)[1..] == attrs;
    assert TrimStart(" " + attrs) == TrimStart(attrs) == attrs;
  }

  lemma AttrIsTight(key: string, value: string)
    requires key != "" && !IsWhitespace(key[0]) && '>' !in key
    ensures Tight(Attr(key, value))
  {
    EscapesAreMaps(value);
    EscapeEachAvoids(value, ATTR_SPECIALS);
    var s := Attr(key, value);
    assert s[0] == key[0] && s[|s| - 1] == '"';
  }

  lemma AttrValue(key: string, value: string, rest: string, attrs: Attrs)
    requires key != "" && forall i :: 0 <= i < |key| ==> NameChar(key[i])
    ensures ParseFrom(Attr(key, value) + rest, attrs) == ParseFrom(rest, attrs[key := value])
  {
    hide EscapeAttr, EscapeEach, Unescape, ParseFrom;
    EscapesAreMaps(value);
    EscapeEachAvoids(value, ATTR_SPECIALS);
    UnescapeInverts(value);
    ParseQuoted(key, '"', EscapeAttr(value), rest, attrs);
    assert Attr(key, value) == key + "=" + ['"'] + EscapeAttr(value) + ['"'];
  }

  /** The one attribute after a printed name. */
  lemma OneAttr(key: string, value: string)
    requires key != "" && forall i :: 0 <= i < |key| ==> NameChar(key[i]) && key[i] != '>'
    ensures Tight(Attr(key, value))
    ensures ParseAttrsSpec(" " + Attr(key, value)) == map[key := value]
  {
    hide Attr, ParseAttrsSpec;
    AttrIsTight(key, value);
    AttrsAfterName(Attr(key, value));
    AttrValue(key, value, "", map[]);
    assert Attr(key, value) + "" == Attr(key, value);
  }

  lemma SplitName(name: string, attrs: string)
    ensures (name + " " + attrs)[|name|..] == " " + attrs
    ensures name <= name + " " + attrs
    ensures forall i :: 0 <= i < |name| ==> (name + " " + attrs)[i] == name[i]
  {
  }

  lemma AtCore(attrs: string)
    ensures ParseCore("at" + " " + attrs) == AtMeaning(ParseAttrsSpec(" " + attrs))
  {
    hide ParseAttrsSpec;
    SplitName("at", attrs);
  }

  lemma MediaCore(name: string, attrs: string)
    requires name in {"img", "audio", "video", "emoji"}
    ensures ParseCore(name + " " + attrs) ==
            (var m := ParseAttrsSpec(" " + attrs);
             var key := if name == "emoji" then "id" else "src";
             if key !in m then None
             else if name == "img" then Some(Image(m[key], Some(m[key])))
             else if name == "audio" then Some(Record(m[key], Some(m[key])))
             else if name == "video" then Some(Video(m[key], Some(m[key])))
             else Some(Face(m[key])))
  {
    hide ParseAttrsSpec;
    SplitName(name, attrs);
    var t := name + " " + attrs;
    assert t[0] == name[0] && t[1] == name[1];
  }

  lemma MessageCore(attrs: string)
    ensures ParseCore("message" + " " + attrs) == MessageMeaning("message" + " " + attrs, ParseAttrsSpec(" " + attrs))
  {
    hide ParseAttrsSpec, MessageMeaning;
    SplitName("message", attrs);
    assert ("message" + " " + attrs)[0] == 'm';
  }

  lemma {:induction false} ContainsAfter(p: string, x: string)
    requires 'f' !in p
    ensures Contains(p + x, FORWARD) <==> Contains(x, FORWARD)
  {
    if p == "" {
      assert p + x == x;
    } else {
      assert (p + x)[0] == p[0] != FORWARD[0];
      assert (p + x)[1..] == p[1..] + x;
      ContainsAfter(p[1..], x);
    }
  }

  lemma ContainsBefore(x: string)
    ensures Contains(x + "\"", FORWARD) <==> Contains(x, FORWARD)
  {
    if Contains(x + "\"", FORWARD) {
      var p := ContainsAt(x + "\"", FORWARD);
      assert (x + "\"")[p..p + 7][6] == 'd';
      assert (x + "\"")[p..p + 7] == x[p..p + 7];
      ContainsSlice(x, p, p + 7, FORWARD);
    }
    if Contains(x, FORWARD) {
      assert (x + "\"")[0..|x|] == x;
      ContainsSlice(x + "\"", 0, |x|, FORWARD);
    }
  }

  /** The printed quote holds the forward marker exactly when its id does. */
  lemma MarkerInReply(id: string)
    ensures Contains("message" + " " + Attr("id", id), FORWARD) <==> Contains(id, FORWARD)
  {
    hide EscapeAttr, EscapeEach, Contains;
    EscapesAreMaps(id);
    var e := EscapeAttr(id);
    assert "message" + " " + Attr("id", id) == "message id=\"" + (e + "\"");
    ContainsAfter("message id=\"", e + "\"");
    ContainsBefore(e);
    EscapeKeepsWords(id, FORWARD);
  }

  /** The bare flag at the end of a printed forward. */
  lemma ForwardFlag(attrs: Attrs)
    ensures ParseFrom(" forward", attrs) == attrs[FORWARD := ""]
  {
    hide FieldSplit, SkipSpace;
    assert " forward" == " " + FORWARD;
    ParseSpace(FORWARD, attrs);
    FlagField();
    assert ParseFrom("", attrs[FORWARD := ""]) == attrs[FORWARD := ""];
  }

  lemma FlagField()
    ensures SkipSpace(FORWARD) == FORWARD && FieldSplit(FORWARD) == (Field(FORWARD, ""), "")
  {
    hide ValueSplit;
    SpanLenUnique(FORWARD, IsWhitespace, 0);
    SpanLenUnique(FORWARD, NameChar, 7);
    assert FORWARD[..7] == FORWARD && FORWARD[7..] == "";
  }

  lemma FlagIsTight(attrs: string)
    requires Tight(attrs)
    ensures Tight(attrs + " forward")
  {
    var a := attrs + " forward";
    assert a[0] == attrs[0] && a[|a| - 1] == 'd';
  }

  lemma ForwardAttrs(id: string)
    ensures Tight(Attr("id", id) + " forward")
    ensures ParseAttrsSpec(" " + (Attr("id", id) + " forward")) == map["id" := id, FORWARD := ""]
  {
    hide ParseAttrsSpec, ParseFrom, Attr;
    AttrIsTight("id", id);
    FlagIsTight(Attr("id", id));
    var a := Attr("id", id) + " forward";
    AttrsAfterName(a);
    AttrValue("id", id, " forward", map[]);
    ForwardFlag(map["id" := id]);
  }

  lemma AllAttrs()
    ensures Tight("type=\"all\"")
    ensures ParseAttrsSpec(" " + "type=\"all\"") == map["type" := "all"]
  {
    hide ParseAttrsSpec, Unescape, FieldSplit, SkipSpace, Decode;
    AttrsAfterName("type=\"all\"");
    ParseQuoted("type", '"', "all", "", map[]);
    assert "type" + "=" + ['"'] + "all" + ['"'] + "" == "type=\"all\"";
    assert map[][("type") := "all"] == map["type" := "all"];
    UnescapeAll();
    ParseEmpty(map["type" := "all"]);
  }

  lemma ParseEmpty(attrs: Attrs)
    ensures ParseFrom("", attrs) == attrs
  {
  }

  lemma UnescapeAll()
    ensures Unescape("all") == "all"
  {
    hide Unescape;
    UnescapeIsDecode("all");
    DecodeCopies("all", "", 5);
    assert "all" + "" == "all" && Decode("", 5) == "";
  }

  // Name and attributes of a printed single-tag segment.

  function NameOf(seg: Segment): string
    requires !PrintsText(seg) && !seg.Reply?
  {
    match seg
    case At(_) => "at"
    case Image(_, _) => "img"
    case Face(_) => "emoji"
    case Record(_, _) => "audio"
    case Video(_, _) => "video"
    case Forward(_) => "message"
    case Poke(_, _) => "qq:poke"
  }

  function AttrsOf(seg: Segment): string
    requires !PrintsText(seg) && !seg.Reply?
  {
    match seg
    case At(qq) => if qq == "all" then "type=\"all\"" else Attr("id", qq)
    case Image(file, url) => Attr("src", Source(file, url))
    case Face(id) => Attr("id", id)
    case Record(file, url) => Attr("src", Source(file, url))
    case Video(file, url) => Attr("src", Source(file, url))
    case Forward(id) => Attr("id", id) + " forward"
    case Poke(pokeType, id) => Attr("type", pokeType) + " " + Attr("id", id)
  }

  /** The core of a printed tag means the segment it came from. */
  lemma CoreMeaning(seg: Segment)
    requires !PrintsText(seg) && !seg.Reply?
    ensures Tight(AttrsOf(seg))
    ensures ToSeq(ParseCore(NameOf(seg) + " " + AttrsOf(seg))) == Returned(seg)
  {
    hide ParseCore, ParseAttrsSpec, Attr, Tight, Contains;
    match seg
    case At(qq) =>
      AtCore(AttrsOf(seg));
      if qq == "all" { AllAttrs(); } else { OneAttr("id", qq); }
    case Image(file, url) =>
      OneAttr("src", Source(file, url));
      MediaCore("img", AttrsOf(seg));
    case Face(id) =>
      OneAttr("id", id);
      MediaCore("emoji", AttrsOf(seg));
    case Record(file, url) =>
      OneAttr("src", Source(file, url));
      MediaCore("audio", AttrsOf(seg));
    case Video(file, url) =>
      OneAttr("src", Source(file, url));
      MediaCore("video", AttrsOf(seg));
    case Forward(id) =>
      ForwardAttrs(id);
      MessageCore(AttrsOf(seg));
    case Poke(pokeType, id) =>
      AttrIsTight("type", pokeType);
      AttrIsTight("id", id);
      TightPair(Attr("type", pokeType), Attr("id", id));
      PokeCore(AttrsOf(seg));
  }

  lemma TightPair(a: string, b: string)
    requires Tight(a) && Tight(b)
    ensures Tight(a + " " + b)
  {
    var s := a + " " + b;
    assert s[0] == a[0] && s[|s| - 1] == b[|b| - 1];
  }

  lemma PokeCore(attrs: string)
    ensures ParseCore("qq:poke" + " " + attrs) == None
  {
    assert ("qq:poke" + " " + attrs)[0] == 'q';
  }

  lemma PrintedTag(seg: Segment)
    requires !PrintsText(seg) && !seg.Reply?
    ensures PrintOne(seg) == Tagged(NameOf(seg) + " " + AttrsOf(seg) + " /")
    ensures '>' !in NameOf(seg) + " " + AttrsOf(seg) + " /"
    ensures ToSeq(ParseTag(NameOf(seg) + " " + AttrsOf(seg) + " /")) == Returned(seg)
  {
    hide ParseCore, TagCore, Attr, EscapeText;
    CoreMeaning(seg);
    assert '>' !in NameOf(seg) && !IsWhitespace(NameOf(seg)[0]);
    PrintedCore(NameOf(seg), AttrsOf(seg));
  }

  /** A printed quote is read back as a reply unless its id contains the word that marks a forward. */
  lemma ReplyTag(id: string)
    ensures var body := "message" + " " + Attr("id", id) + " /";
            '>' !in body && ToSeq(ParseTag(body)) == Returned(Reply(id))
  {
    hide ParseCore, ParseAttrsSpec, Attr, Contains, TagCore;
    OneAttr("id", id);
    MessageCore(Attr("id", id));
    MarkerInReply(id);
    PrintedCore("message", Attr("id", id));
    assert '>' !in "message" + " " + Attr("id", id) + " /";
  }

  lemma QuoteTags()
    ensures ParseTag("quote") == None && ParseTag("/quote") == None
  {
    UnknownTag("quote");
    UnknownTag("/quote");
  }

  /** A word without slashes or spaces at its ends is its own core. */
  lemma UnknownTag(tag: string)
    requires |tag| > 2 && !IsWhitespace(tag[0]) && !IsWhitespace(tag[|tag| - 1]) && tag[|tag| - 1] != '/'
    requires tag[0] == 'q' || tag[0] == '/'
    ensures ParseTag(tag) == None
  {
    assert TagCore(tag) == tag;
    hide TagCore;
  }

  // ----- Round trips -----

  lemma TagRound(body: string, rest: string, buf: string)
    requires '>' !in body
    ensures MeaningFrom(Tagged(body) + rest, buf)
        == FlushText(Unescape(buf)) + ToSeq(ParseTag(body)) + MeaningFrom(rest, "")
  {
    ScanTag(body, rest, buf);
    MeaningStep(buf, body, true, Scan(rest, ""));
    if buf != "" { UnescapeNonEmpty(buf); } else { UnescapeEmpty(); }
  }

  lemma UnescapeEmpty()
    ensures Unescape("") == ""
  {
    UnescapeIsDecode("");
  }

  /** One printed tag segment in front of the rest. */
  lemma SegmentRound(seg: Segment, rest: string, buf: string)
    requires !PrintsText(seg)
    ensures MeaningFrom(PrintOne(seg) + rest, buf) == FlushText(Unescape(buf)) + Returned(seg) + MeaningFrom(rest, "")
  {
    if seg.Reply? {
      ReplyRound(seg.id, rest, buf);
    } else {
      PrintedTag(seg);
      TagRound(NameOf(seg) + " " + AttrsOf(seg) + " /", rest, buf);
    }
  }

  lemma ReplyRound(id: string, rest: string, buf: string)
    ensures MeaningFrom(PrintOne(Reply(id)) + rest, buf) ==
            FlushText(Unescape(buf)) + Returned(Reply(id)) + MeaningFrom(rest, "")
  {
    hide ParseTag, Attr, Unescape, MeaningFrom;
    QuoteTags();
    ReplyTag(id);
    UnescapeEmpty();
    var body := "message" + " " + Attr("id", id) + " /";
    var r2 := Tagged("/quote") + rest;
    var r1 := Tagged(body) + r2;
    assert PrintOne(Reply(id)) + rest == Tagged("quote") + r1;
    TagRound("quote", r1, buf);
    TagRound(body, r2, "");
    TagRound("/quote", rest, "");
  }

  lemma PrintedTextEscaped(seg: Segment)
    requires PrintsText(seg)
    ensures PrintOne(seg) == EscapeEach(PrintedText(seg), TEXT_SPECIALS)
  {
    hide EscapeText;
    EscapesAreMaps(PrintedText(seg));
  }

  lemma {:induction false} RoundTripFrom(segs: seq<Segment>, acc: string)
    ensures MeaningFrom(Print(segs), EscapeEach(acc, TEXT_SPECIALS)) == NormalFrom(segs, acc)
  {
    hide Unescape, EscapeText, Returned, PrintOne, PrintedText, PrintsText;
    var buf := EscapeEach(acc, TEXT_SPECIALS);
    EscapesAreMaps(acc);
    UnescapeInverts(acc);
    if segs == [] {
      if buf != "" {
        UnescapeNonEmpty(buf);
        MeaningUnit(Raw(buf));
      } else {
        UnescapeEmpty();
      }
    } else if PrintsText(segs[0]) {
      var t := PrintedText(segs[0]);
      PrintedTextEscaped(segs[0]);
      ScanEscaped(t, Print(segs[1..]), buf);
      EscapeEachAppend(acc, t, TEXT_SPECIALS);
      RoundTripFrom(segs[1..], acc + t);
    } else {
      SegmentRound(segs[0], Print(segs[1..]), buf);
      RoundTripFrom(segs[1..], "");
    }
  }

  /** Printing any segment list and parsing it back gives its normal form. */
  lemma RoundTrip(segs: seq<Segment>)
    ensures Parse(Print(segs)) == Normal(segs)
  {
    RoundTripFrom(segs, "");
  }

  // ----- What the parser can produce -----

  /** A segment the parser can produce: no empty text, media with one source, no reply id that marks a forward. */
  predicate Canonical(seg: Segment) {
    match seg
    case Text(text) => text != ""
    case Image(file, url) => url == Some(file)
    case Record(file, url) => url == Some(file)
    case Video(file, url) => url == Some(file)
    case Reply(id) => !Contains(id, FORWARD)
    case At(_) => true
    case Face(_) => true
    case Forward(_) => true
    case _ => false
  }

  /** No reply the parser produces has an id that contains the forward marker. */
  lemma ParsedReply(tag: string, id: string)
    requires ParseTag(tag) == Some(Reply(id))
    ensures !Contains(id, FORWARD)
  {
    hide ParseCore, TagCore, ParseAttrsSpec, Contains;
    var t := TagCore(tag);
    CoreReply(t, id);
    if Contains(id, FORWARD) {
      AttrWordInText(t, 7, "id", FORWARD);
      assert false;
    }
  }

  lemma AttrWordInText(t: string, n: nat, key: string, w: string)
    requires n <= |t| && w != "" && forall i :: 0 <= i < |w| ==> Plain(w[i])
    requires key in ParseAttrsSpec(t[n..]) && Contains(ParseAttrsSpec(t[n..])[key], w)
    ensures Contains(t, w)
  {
    hide ParseFrom, Trim, Contains, Plain;
    var i, j := TrimIsSlice(t[n..]);
    AttrWords(Trim(t[n..]), map[], key, w);
    assert t[n..][i..j] == t[n + i..n + j];
    ContainsSlice(t, n + i, n + j, w);
  }

  lemma CoreReply(t: string, id: string)
    requires ParseCore(t) == Some(Reply(id))
    ensures "message" <= t && !Contains(t, FORWARD)
    ensures "id" in ParseAttrsSpec(t[7..]) && ParseAttrsSpec(t[7..])["id"] == id
  {
    hide ParseAttrsSpec, Contains;
  }

  lemma TagIsCanonical(tag: string)
    ensures ParseTag(tag).Some? ==> Canonical(ParseTag(tag).value)
  {
    hide ParseAttrsSpec, TagCore, Contains;
    var seg := ParseTag(tag);
    if seg.Some? && seg.value.Reply? { ParsedReply(tag, seg.value.id); }
  }

  predicate NoEmptyText(ps: seq<Piece>) {
    Raw("") !in ps
  }

  lemma {:induction false} MeaningIsCanonical(ps: seq<Piece>)
    requires NoEmptyText(ps)
    ensures forall seg :: seg in Meaning(ps) ==> Canonical(seg)
  {
    hide ParseTag, Unescape, Contains;
    if ps == [] {
    } else {
      MeaningIsCanonical(ps[1..]);
      match ps[0]
      case Raw(text) => UnescapeNonEmpty(text);
      case Tag(body, _) => TagIsCanonical(body);
    }
  }

  /** The first pieces of a scan that meets a tag. */
  lemma FlushIsNotEmpty(buf: string, body: string, closed: bool, rest: seq<Piece>)
    requires NoEmptyText(rest)
    ensures NoEmptyText(Flush(buf) + [Tag(body, closed)] + rest)
  {
  }

  lemma {:induction false} ScanHasNoEmptyText(s: string, buf: string)
    ensures NoEmptyText(Scan(s, buf))
    decreases |s|
  {
    hide TagSplit, EntitySplit, NoEmptyText;
    if s == "" {
      LastIsNotEmpty(buf);
    } else if s[0] == '<' {
      TagShrinks(s);
      var (body, rest) := TagSplit(s);
      ScanHasNoEmptyText(rest, "");
      FlushIsNotEmpty(buf, body, |body| + 1 < |s|, Scan(rest, ""));
    } else if s[0] == '&' {
      EntityShrinks(s);
      ScanHasNoEmptyText(EntitySplit(s).1, buf + EntitySplit(s).0);
    } else {
      ScanHasNoEmptyText(s[1..], buf + [s[0]]);
    }
  }

  lemma LastIsNotEmpty(buf: string)
    ensures NoEmptyText(Flush(buf))
  {
  }

  lemma ParsedIsCanonical(s: string)
    ensures forall i :: 0 <= i < |Parse(s)| ==> Canonical(Parse(s)[i])
  {
    hide NoEmptyText, Canonical;
    ScanHasNoEmptyText(s, "");
    MeaningIsCanonical(Scan(s, ""));
  }

  // ----- Joining adjacent texts -----

  function JoinTexts(segs: seq<Segment>): seq<Segment>
    decreases |segs|
  {
    if |segs| < 2 then segs
    else if segs[0].Text? && segs[1].Text? then JoinTexts([Text(segs[0].text + segs[1].text)] + segs[2..])
    else [segs[0]] + JoinTexts(segs[1..])
  }

  predicate NoAdjacentTexts(segs: seq<Segment>) {
    forall i :: 0 <= i < |segs| - 1 ==> !(segs[i].Text? && segs[i + 1].Text?)
  }

  lemma JoinAtTag(front: seq<Segment>, seg: Segment, rest: seq<Segment>)
    requires |front| <= 1 && !seg.Text?
    ensures JoinTexts(front + ([seg] + rest)) == front + [seg] + JoinTexts(rest)
  {
    hide JoinTexts;
    JoinCons(seg, rest);
    if front == [] {
      assert front + ([seg] + rest) == [seg] + rest;
      assert front + [seg] + JoinTexts(rest) == [seg] + JoinTexts(rest);
    } else {
      JoinBefore(front[0], seg, rest);
      assert front == [front[0]];
      assert [front[0]] + ([seg] + JoinTexts(rest)) == front + [seg] + JoinTexts(rest);
    }
  }

  lemma JoinCons(seg: Segment, rest: seq<Segment>)
    requires !seg.Text?
    ensures JoinTexts([seg] + rest) == [seg] + JoinTexts(rest)
  {
    assert ([seg] + rest)[1..] == rest;
    if rest == [] { assert [seg] + rest == [seg]; }
  }

  lemma JoinBefore(first: Segment, seg: Segment, rest: seq<Segment>)
    requires !seg.Text?
    ensures JoinTexts([first] + ([seg] + rest)) == [first] + JoinTexts([seg] + rest)
  {
    var all := [first] + ([seg] + rest);
    assert all[1..] == [seg] + rest && |all| >= 2 && all[0] == first && all[1] == seg;
  }

  lemma CanonicalReturns(seg: Segment)
    requires Canonical(seg) && !seg.Text?
    ensures Returned(seg) == [seg] && !PrintsText(seg)
  {
    hide Contains;
  }

  lemma {:induction false} NormalIsJoin(segs: seq<Segment>, acc: string)
    requires forall i :: 0 <= i < |segs| ==> Canonical(segs[i])
    ensures NormalFrom(segs, acc) == JoinTexts(FlushText(acc) + segs)
    decreases |segs|
  {
    hide Contains, Returned;
    if segs == [] {
      assert FlushText(acc) + segs == FlushText(acc);
    } else if segs[0].Text? {
      NormalIsJoin(segs[1..], acc + segs[0].text);
      if acc == "" {
        assert acc + segs[0].text == segs[0].text;
        assert FlushText(acc) + segs == segs;
        assert segs == [Text(segs[0].text)] + segs[1..];
      } else {
        var all := FlushText(acc) + segs;
        assert all[0] == Text(acc) && all[1] == segs[0] && all[2..] == segs[1..];
      }
    } else {
      NormalIsJoin(segs[1..], "");
      assert FlushText("") + segs[1..] == segs[1..];
      CanonicalReturns(segs[0]);
      assert segs == [segs[0]] + segs[1..];
      JoinAtTag(FlushText(acc), segs[0], segs[1..]);
    }
  }

  /** For every input, well formed or not: printing and parsing again only joins adjacent texts. */
  lemma ReparseJoins(s: string)
    ensures Parse(Print(Parse(s))) == JoinTexts(Parse(s))
  {
    RoundTrip(Parse(s));
    ParsedIsCanonical(s);
    NormalIsJoin(Parse(s), "");
    assert FlushText("") + Parse(s) == Parse(s);
  }

  lemma {:induction false} JoinLength(segs: seq<Segment>)
    ensures |JoinTexts(segs)| <= |segs|
    ensures JoinTexts(segs) == segs <==> NoAdjacentTexts(segs)
    ensures NoAdjacentTexts(JoinTexts(segs))
    ensures segs != [] ==> JoinTexts(segs) != [] && (JoinTexts(segs)[0].Text? <==> segs[0].Text?)
    decreases |segs|
  {
    if |segs| >= 2 {
      if segs[0].Text? && segs[1].Text? {
        JoinLength([Text(segs[0].text + segs[1].text)] + segs[2..]);
      } else {
        JoinLength(segs[1..]);
        assert segs == [segs[0]] + segs[1..];
        var j := JoinTexts(segs[1..]);
        if NoAdjacentTexts(segs) {
          forall i | 0 <= i < |segs[1..]| - 1
            ensures !(segs[1..][i].Text? && segs[1..][i + 1].Text?)
          {
            assert segs[1..][i] == segs[i + 1] && segs[1..][i + 1] == segs[(i + 1) + 1];
          }
        }
        if NoAdjacentTexts(segs[1..]) {
          forall i | 0 <= i < |segs| - 1
            ensures !(segs[i].Text? && segs[i + 1].Text?)
          {
            if i > 0 { assert segs[1..][i - 1] == segs[i] && segs[1..][i] == segs[i + 1]; }
          }
        }
        forall i | 0 <= i < |[segs[0]] + j| - 1
          ensures !(([segs[0]] + j)[i].Text? && ([segs[0]] + j)[i + 1].Text?)
        {
          if i > 0 { assert ([segs[0]] + j)[i] == j[i - 1] && ([segs[0]] + j)[i + 1] == j[i]; }
        }
      }
    }
  }

  /** From the second round on nothing changes. */
  lemma SecondRoundSettles(s: string)
    ensures var second := Parse(Print(Parse(s))); Parse(Print(second)) == second
  {
    ReparseJoins(s);
    var second := Parse(Print(Parse(s)));
    ReparseJoins(Print(Parse(s)));
    JoinLength(Parse(s));
    JoinLength(second);
  }

  /** A round trip is the identity on exactly the lists the parser could have produced with no two texts in a row. */
  lemma RoundTripIdentity(segs: seq<Segment>)
    ensures Parse(Print(segs)) == segs <==>
            (forall i :: 0 <= i < |segs| ==> Canonical(segs[i])) && NoAdjacentTexts(segs)
  {
    RoundTrip(segs);
    JoinLength(segs);
    assert FlushText("") + segs == segs;
    if forall i :: 0 <= i < |segs| ==> Canonical(segs[i]) {
      NormalIsJoin(segs, "");
    } else {
      ParsedIsCanonical(Print(segs));
    }
  }

  /** A poke between two texts vanishes but still keeps them apart for one round. */
  lemma PokeSplitsOnce(a: string, pokeType: string, id: string, b: string)
    requires a != "" && b != ""
    ensures var segs := [Text(a), Poke(pokeType, id), Text(b)];
            Parse(Print(segs)) == [Text(a), Text(b)] && Parse(Print(Parse(Print(segs)))) == [Text(a + b)]
  {
    hide Print, Parse;
    var segs := [Text(a), Poke(pokeType, id), Text(b)];
    RoundTrip(segs);
    NormalAroundPoke(a, pokeType, id, b);
    ReparseJoins(Print(segs));
    assert [Text(a + b)] + [Text(a), Text(b)][2..] == [Text(a + b)];
  }

  lemma NormalAroundPoke(a: string, pokeType: string, id: string, b: string)
    requires a != "" && b != ""
    ensures Normal([Text(a), Poke(pokeType, id), Text(b)]) == [Text(a), Text(b)]
  {
    var segs := [Text(a), Poke(pokeType, id), Text(b)];
    assert segs[1..] == [Poke(pokeType, id), Text(b)] && segs[1..][1..] == [Text(b)] && [Text(b)][1..] == [];
    assert "" + b == b && "" + a == a;
    assert NormalFrom([Text(b)], "") == NormalFrom([], "" + b) == [Text(b)];
    assert segs[1..][0] == Poke(pokeType, id) && Returned(Poke(pokeType, id)) == [];
    assert NormalFrom(segs[1..], a) == [Text(a)] + [] + NormalFrom([Text(b)], "");
  }
}
