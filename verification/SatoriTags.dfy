/** What Satori tags mean and how segments are spelt, as laws over strings. */
module SatoriTags {
  import opened Wrappers
  import opened Text
  import opened SatoriEscape
  import opened SatoriScan
  import opened SatoriCodec
  import opened Message

  // ----- Printed forms -----

  /** A value as it stands in an attribute, escaped character by character. */
  function Escaped(v: string): string {
    EscapeEach(v, ATTR_SPECIALS)
  }

  /** `<name key="value" />` */
  function OneAttrElement(name: string, key: string, v: string): string {
    "<" + name + " " + key + "=\"" + Escaped(v) + "\" />"
  }

  lemma ElementForm(name: string, key: string, v: string)
    ensures Element(name, Attr(key, v)) == OneAttrElement(name, key, v)
  {
    hide EscapeAttr, EscapeEach;
    EscapesAreMaps(v);
    var e := EscapeAttr(v);
    assert "\"" + " /" + ">" == "\" />";
    assert Element(name, Attr(key, v)) == "<" + name + " " + key + "=\"" + e + ("\"" + " /" + ">");
  }

  /** Texts are escaped; images, voice and video are elements with one source, the url before the file. */
  lemma PrintedMedia(v: string, w: string)
    ensures PrintOne(Text(v)) == PrintOne(Json(v)) == PrintOne(Xml(v)) == EscapeEach(v, TEXT_SPECIALS)
    ensures PrintOne(Image(v, Some(w))) == PrintOne(Image(w, None)) == OneAttrElement("img", "src", w)
    ensures PrintOne(Record(v, Some(w))) == PrintOne(Record(w, None)) == OneAttrElement("audio", "src", w)
    ensures PrintOne(Video(v, Some(w))) == PrintOne(Video(w, None)) == OneAttrElement("video", "src", w)
    ensures PrintOne(Unknown) == ""
  {
    hide EscapeText, EscapeEach, Attr, OneAttrElement, Element;
    EscapesAreMaps(v);
    ElementForm("img", "src", w);
    ElementForm("audio", "src", w);
    ElementForm("video", "src", w);
  }

  /** Mentions, faces, replies and forwards carry their id; a mention of everyone is a type instead. */
  lemma PrintedIds(v: string)
    ensures v != "all" ==> PrintOne(At(v)) == OneAttrElement("at", "id", v)
    ensures PrintOne(At("all")) == "<at type=\"all\" />"
    ensures PrintOne(Face(v)) == OneAttrElement("emoji", "id", v)
    ensures PrintOne(Reply(v)) == "<quote>" + OneAttrElement("message", "id", v) + "</quote>"
    ensures PrintOne(Forward(v)) == "<message " + Attr("id", v) + " forward />"
  {
    hide Attr, OneAttrElement, Element, Tagged;
    ElementForm("at", "id", v);
    ElementForm("emoji", "id", v);
    ElementForm("message", "id", v);
    FixedForms();
    ForwardForm(Attr("id", v));
  }

  lemma FixedForms()
    ensures Element("at", "type=\"all\"") == "<at type=\"all\" />"
    ensures Tagged("quote") == "<quote>" && Tagged("/quote") == "</quote>"
  {
  }

  lemma ForwardForm(attr: string)
    ensures Element("message", attr + " forward") == "<message " + attr + " forward />"
  {
    var a, b := Element("message", attr + " forward"), "<message " + attr + " forward />";
    assert a == "<" + ("message" + " " + (attr + " forward") + " /") + ">";
    assert "<" + "message" + " " == "<message " && " forward" + " /" + ">" == " forward />";
    assert a == ("<" + "message" + " ") + attr + (" forward" + " /" + ">");
  }

  /** A poke carries its type, then its id. */
  lemma PrintedPoke(v: string, w: string)
    ensures PrintOne(Poke(v, w)) == "<qq:poke " + (Attr("type", v) + " " + Attr("id", w)) + " />"
  {
    hide Attr;
    PokeForm(Attr("type", v) + " " + Attr("id", w));
  }

  lemma PokeForm(attrs: string)
    ensures Element("qq:poke", attrs) == "<qq:poke " + attrs + " />"
  {
    assert "<" + "qq:poke" + " " == "<qq:poke " && " /" + ">" == " />";
    assert Element("qq:poke", attrs) == ("<" + "qq:poke" + " ") + attrs + (" /" + ">");
  }

  /** `key="value"` with the value escaped character by character. */
  lemma AttrForm(key: string, v: string)
    ensures Attr(key, v) == key + "=\"" + Escaped(v) + "\""
  {
    hide EscapeAttr, EscapeEach;
    EscapesAreMaps(v);
  }

  // ----- Attribute lists, well formed in any of the accepted ways -----

  datatype Item = Quoted(name: string, q: char, raw: string) | Unquoted(name: string, raw: string) | Bare(name: string)

  predicate Legal(item: Item) {
    IsName(item.name)
    && match item
       case Quoted(_, q, raw) => (q == '"' || q == '\'') && q !in raw
       case Unquoted(_, raw) =>
         (forall i :: 0 <= i < |raw| ==> UnquotedChar(raw[i])) && (raw != "" ==> raw[0] != '"' && raw[0] != '\'')
       case Bare(_) => true
  }

  function Spell(item: Item): string {
    match item
    case Quoted(name, q, raw) => name + "=" + [q] + raw + [q]
    case Unquoted(name, raw) => name + "=" + raw
    case Bare(name) => name
  }

  /** Quoted values are entity-decoded, unquoted ones taken as they are, bare names are empty. */
  function ValueOf(item: Item): string {
    match item
    case Quoted(_, _, raw) => Decode(raw, 5)
    case Unquoted(_, raw) => raw
    case Bare(_) => ""
  }

  function SpellAll(items: seq<Item>): string {
    if items == [] then "" else " " + Spell(items[0]) + SpellAll(items[1..])
  }

  /** The value of the last item of that name. */
  function Last(items: seq<Item>, key: string): Option<string> {
    if items == [] then None
    else if items[|items| - 1].name == key then Some(ValueOf(items[|items| - 1]))
    else Last(items[..|items| - 1], key)
  }

  function Lookup(attrs: Attrs, key: string): Option<string> {
    if key in attrs then Some(attrs[key]) else None
  }

  predicate AllLegal(items: seq<Item>) {
    forall i :: 0 <= i < |items| ==> Legal(items[i])
  }

  lemma ItemRead(item: Item, rest: string, attrs: Attrs)
    requires Legal(item) && (rest == "" || rest[0] == ' ')
    ensures ParseFrom(" " + Spell(item) + rest, attrs) == ParseFrom(rest, attrs[item.name := ValueOf(item)])
  {
    hide Unescape, Decode, ParseFrom, IsWhitespace;
    var s := Spell(item) + rest;
    assert " " + Spell(item) + rest == " " + s;
    assert s[0] == item.name[0];
    ParseSpace(s, attrs);
    match item
    case Quoted(name, q, raw) =>
      UnescapeIsDecode(raw);
      ParseQuoted(name, q, raw, rest, attrs);
    case Unquoted(name, raw) =>
      SpaceEnds();
      ParseUnquoted(name, raw, rest, attrs);
    case Bare(name) =>
      SpaceEnds();
      ParseBare(name, rest, attrs);
  }

  lemma SpaceEnds()
    ensures !UnquotedChar(' ') && !NameChar(' ')
  {
  }

  lemma LastOfCons(item: Item, items: seq<Item>, key: string)
    ensures Last([item] + items, key) ==
            if Last(items, key).Some? then Last(items, key)
            else if item.name == key then Some(ValueOf(item)) else None
  {
    hide ValueOf;
    var all := [item] + items;
    if items == [] {
      assert all == [item] && all[..|all| - 1] == [];
    } else {
      assert all[..|all| - 1] == [item] + items[..|items| - 1];
      LastOfCons(item, items[..|items| - 1], key);
    }
  }

  /** A list of attributes is read item by item, the last one of a name winning. */
  lemma {:induction false} ItemsRead(items: seq<Item>, attrs: Attrs, key: string)
    requires AllLegal(items)
    ensures Lookup(ParseFrom(SpellAll(items), attrs), key) ==
            if Last(items, key).Some? then Last(items, key) else Lookup(attrs, key)
  {
    hide Legal, Spell, ValueOf, ParseFrom;
    if items == [] {
      NothingToRead(attrs);
    } else {
      var rest := SpellAll(items[1..]);
      ItemRead(items[0], rest, attrs);
      ItemsRead(items[1..], attrs[items[0].name := ValueOf(items[0])], key);
      assert items == [items[0]] + items[1..];
      LastOfCons(items[0], items[1..], key);
    }
  }

  lemma NothingToRead(attrs: Attrs)
    ensures ParseFrom("", attrs) == attrs
  {
  }

  // ----- Where a tag's text begins and ends -----

  /** White space around the text, and any slashes before the end, are no part of it. */
  lemma CoreIs(lead: string, core: string, mid: string, slashes: string, trail: string)
    requires AllSpace(lead) && AllSpace(mid) && AllSpace(trail)
    requires forall i :: 0 <= i < |slashes| ==> slashes[i] == '/'
    requires core != "" && Trimmed(core) && core[|core| - 1] != '/'
    ensures TagCore(lead + core + mid + slashes + trail) == core
  {
    if slashes == "" {
      assert lead + core + mid + slashes + trail == lead + core + (mid + trail);
      TrimIs(lead, core, mid + trail);
      assert core + "" == core;
      TrimEndMatchesIs(core, "", '/');
    } else {
      var inner := core + mid + slashes;
      assert lead + core + mid + slashes + trail == lead + inner + trail;
      assert inner[0] == core[0] && inner[|inner| - 1] == '/';
      TrimIs(lead, inner, trail);
      assert mid != "" ==> (core + mid)[|core + mid| - 1] == mid[|mid| - 1];
      assert mid == "" ==> core + mid == core;
      TrimEndMatchesIs(core + mid, slashes, '/');
    }
    assert "" + core + mid == core + mid && "" + core + "" == core;
    TrimIs("", core, mid);
    TrimIs("", core, "");
  }

  lemma ParsedTag(body: string)
    requires '>' !in body
    ensures Parse("<" + body + ">") == ToSeq(ParseTag(body))
  {
    hide ParseTag, Unescape, MeaningFrom;
    TagRound(body, "", "");
    assert Tagged(body) + "" == "<" + body + ">";
    UnescapeEmpty();
    MeaningEnd("");
  }

  /** A tag that is never closed means what it would mean closed. */
  lemma UnclosedTag(body: string)
    requires '>' !in body
    ensures Parse("<" + body) == Parse("<" + body + ">")
  {
    hide ParseTag, Unescape, Scan, MeaningFrom;
    ParsedTag(body);
    var s := "<" + body;
    assert s[1..] == body;
    SpanLenUnique(body, Not('>'), |body|);
    assert body[..|body|] == body;
    assert TagSplit(s) == (body, "");
    MeaningTurn(s, "");
    MeaningEnd("");
  }

  // ----- What each tag means -----

  predicate KnownPrefix(core: string) {
    "at" <= core || "img" <= core || "audio" <= core || "video" <= core || "emoji" <= core || "message" <= core
  }

  /** Every other tag means nothing. */
  lemma OtherTag(body: string)
    requires '>' !in body && !KnownPrefix(TagCore(body))
    ensures Parse("<" + body + ">") == []
  {
    hide TagCore;
    ParsedTag(body);
  }

  /** What follows a known name is read as attributes, whether or not a space comes first. */
  lemma CoreReads(name: string, tail: string, kind: Option<string>, id: Option<string>, src: Option<string>)
    requires name in {"at", "img", "audio", "video", "emoji", "message"}
    requires Lookup(ParseAttrsSpec(tail), "type") == kind
    requires Lookup(ParseAttrsSpec(tail), "id") == id && Lookup(ParseAttrsSpec(tail), "src") == src
    ensures ToSeq(ParseCore(name + tail)) == Expected(name, name + tail, kind, id, src)
  {
    hide ParseAttrsSpec, Contains;
    var t := name + tail;
    assert t[|name|..] == tail && t[0] == name[0] && t[1] == name[1];
    if name == "message" { FlagIsInText(tail); }
  }

  /** A bare forward flag is part of the tag's text. */
  lemma FlagIsInText(tail: string)
    ensures FORWARD in ParseAttrsSpec(tail) ==> Contains("message" + tail, FORWARD)
  {
    if FORWARD in ParseAttrsSpec(tail) {
      KeyInText(tail);
      assert ("message" + tail)[7..|"message" + tail|] == tail;
      ContainsSlice("message" + tail, 7, |"message" + tail|, FORWARD);
    }
  }

  lemma KeyInText(tail: string)
    requires FORWARD in ParseAttrsSpec(tail)
    ensures Contains(tail, FORWARD)
  {
    var i, j := TrimIsSlice(tail);
    KeyInFields(Trim(tail), map[], FORWARD);
    ContainsSlice(tail, i, j, FORWARD);
  }

  lemma {:induction false} KeyInFields(s: string, attrs: Attrs, key: string)
    requires key in ParseFrom(s, attrs) && key !in attrs
    ensures Contains(s, key)
    decreases |s|
  {
    hide FieldSplit, Contains, SpanLen;
    if s == "" {
    } else {
      var k := SpanLen(s, IsWhitespace);
      var (f, rest) := FieldSplit(s[k..]);
      assert s[k..|s|] == s[k..];
      if f.Field? && f.name == key {
        NameInText(s[k..]);
      } else {
        KeyInFields(rest, Put(attrs, f), key);
        RestInText(s[k..], key);
      }
      ContainsSlice(s, k, |s|, key);
    }
  }

  lemma RestInText(s: string, key: string)
    requires Contains(FieldSplit(s).1, key)
    ensures Contains(s, key)
  {
    hide FieldSplit, Contains;
    FieldRest(s);
    var rest := FieldSplit(s).1;
    assert s[|s| - |rest|..|s|] == rest;
    ContainsSlice(s, |s| - |rest|, |s|, key);
  }

  lemma NameInText(s: string)
    requires FieldSplit(s).0.Field?
    ensures Contains(s, FieldSplit(s).0.name)
  {
    hide ValueSplit;
    var n := SpanLen(s, NameChar);
    assert FieldSplit(s).0.name == s[..n];
  }

  /** The one place that says which attribute decides, element by element. */
  function Expected(name: string, text: string, kind: Option<string>, id: Option<string>,
      src: Option<string>): seq<Segment> {
    match name
    case "at" =>
      if kind == Some("all") then [At("all")]
      else if kind == Some("here") then [At("here")]
      else if id.Some? then [At(id.value)] else []
    case "img" => if src.Some? then [Image(src.value, src)] else []
    case "audio" => if src.Some? then [Record(src.value, src)] else []
    case "video" => if src.Some? then [Video(src.value, src)] else []
    case "emoji" => if id.Some? then [Face(id.value)] else []
    case "message" =>
      if id.None? then [] else if Contains(text, FORWARD) then [Forward(id.value)] else [Reply(id.value)]
    case _ => []
  }

  /** A name, perhaps run together with more letters, and its attributes. */
  predicate LegalTag(suffix: string, items: seq<Item>) {
    (suffix == "" || IsName(suffix)) && AllLegal(items) && '>' !in suffix + SpellAll(items)
  }

  /** Letters run together with a known name count as a bare attribute. */
  function AllItems(suffix: string, items: seq<Item>): seq<Item> {
    (if suffix == "" then [] else [Bare(suffix)]) + items
  }

  /** No item ends in white space or a slash. */
  lemma SpellEnds(item: Item)
    requires Legal(item)
    ensures Spell(item) != "" && NameChar(Spell(item)[0])
    ensures var s := Spell(item); !IsWhitespace(s[|s| - 1]) && s[|s| - 1] != '/'
  {
    hide IsWhitespace;
    QuotesAreNoSpace();
    match item
    case Quoted(name, q, raw) =>
    case Unquoted(name, raw) =>
      if raw == "" { assert Spell(item)[|Spell(item)| - 1] == '='; }
    case Bare(name) =>
  }

  lemma QuotesAreNoSpace()
    ensures !IsWhitespace('"') && !IsWhitespace('\'') && !IsWhitespace('=')
  {
  }

  lemma {:induction false} TextEnds(text: string, items: seq<Item>)
    requires AllLegal(items) && text != "" && !IsWhitespace(text[|text| - 1]) && text[|text| - 1] != '/'
    ensures var s := text + SpellAll(items); !IsWhitespace(s[|s| - 1]) && s[|s| - 1] != '/' && s[0] == text[0]
    decreases |items|
  {
    hide IsWhitespace, Legal, Spell;
    if items == [] {
      assert text + SpellAll(items) == text;
    } else {
      SpellEnds(items[0]);
      hide SpellAll;
      var one, rest := Spell(items[0]), SpellAll(items[1..]);
      var more := text + " " + one;
      EndsWith(text, one);
      TextEnds(more, items[1..]);
      SpellCons(text, items);
    }
  }

  lemma EndsWith(text: string, one: string)
    requires text != "" && one != ""
    ensures var more := text + " " + one; more[0] == text[0] && more[|more| - 1] == one[|one| - 1]
  {
  }

  lemma SpellCons(text: string, items: seq<Item>)
    requires items != []
    ensures text + SpellAll(items) == text + " " + Spell(items[0]) + SpellAll(items[1..])
  {
    hide Spell;
    var one, rest := Spell(items[0]), SpellAll(items[1..]);
    assert SpellAll(items) == " " + one + rest;
    assert text + (" " + one + rest) == text + " " + one + rest;
  }

  /** Reading what follows the name gives the items, the run-together letters first. */
  lemma TailRead(suffix: string, items: seq<Item>, key: string)
    requires (suffix == "" || IsName(suffix)) && AllLegal(items)
    ensures Lookup(ParseAttrsSpec(suffix + SpellAll(items)), key) == Last(AllItems(suffix, items), key)
  {
    hide Legal, ParseFrom, IsWhitespace, Spell, ValueOf, NameChar;
    var tail := suffix + SpellAll(items);
    TailTrim(suffix, items);
    if suffix == "" {
      assert tail == SpellAll(items) && AllItems(suffix, items) == items;
      ItemsRead(items, map[], key);
    } else {
      var rest := SpellAll(items);
      SpaceEnds();
      ParseBare(suffix, rest, map[]);
      ItemsRead(items, map[suffix := ""], key);
      LastOfCons(Bare(suffix), items, key);
      BareIsEmpty(suffix);
    }
  }

  lemma BareIsEmpty(name: string)
    ensures ValueOf(Bare(name)) == ""
  {
  }

  lemma TailTrim(suffix: string, items: seq<Item>)
    requires (suffix == "" || IsName(suffix)) && AllLegal(items)
    ensures ParseAttrsSpec(suffix + SpellAll(items)) == ParseFrom(suffix + SpellAll(items), map[])
  {
    hide Legal, ParseFrom, IsWhitespace, Spell, NameChar, IsName, SpellAll, Trim;
    OneSpace();
    var tail := suffix + SpellAll(items);
    if suffix != "" {
      NameEnds(suffix);
      TextEnds(suffix, items);
      assert "" + tail + "" == tail;
      TrimIs("", tail, "");
    } else if items == [] {
      SpellNone(items);
      assert tail == "" && "" + "" + "" == "";
      TrimIs("", "", "");
    } else {
      SpacedTrim(items);
    }
  }

  lemma SpacedTrim(items: seq<Item>)
    requires AllLegal(items) && items != []
    ensures ParseAttrsSpec("" + SpellAll(items)) == ParseFrom("" + SpellAll(items), map[])
  {
    hide Legal, ParseFrom, IsWhitespace, Spell, NameChar, Trim;
    SpellEnds(items[0]);
    NameEndsChar(Spell(items[0])[0]);
    TextEnds(Spell(items[0]), items[1..]);
    var s := Spell(items[0]) + SpellAll(items[1..]);
    assert "" + SpellAll(items) == " " + s == " " + s + "";
    OneSpace();
    TrimIs(" ", s, "");
    ParseSpace(s, map[]);
  }

  lemma OneSpace()
    ensures AllSpace(" ") && AllSpace("")
  {
  }

  lemma NameEndsChar(c: char)
    requires NameChar(c)
    ensures !IsWhitespace(c) && c != '/'
  {
  }

  lemma NameEnds(s: string)
    requires IsName(s)
    ensures !IsWhitespace(s[0]) && !IsWhitespace(s[|s| - 1]) && s[|s| - 1] != '/'
  {
  }

  /**
   What any tag with a known name means, however its attributes are quoted and ordered and however it is closed:
   only the last item of each name counts, and letters run together with the name change nothing else.
   */
  lemma TagMeaning(lead: string, name: string, suffix: string, items: seq<Item>,
                   mid: string, slashes: string, trail: string)
    requires name in {"at", "img", "audio", "video", "emoji", "message"} && LegalTag(suffix, items)
    requires AllSpace(lead) && AllSpace(mid) && AllSpace(trail)
    requires forall i :: 0 <= i < |slashes| ==> slashes[i] == '/'
    ensures var core, all := name + (suffix + SpellAll(items)), AllItems(suffix, items);
            Parse("<" + (lead + core + mid + slashes + trail) + ">")
            == Expected(name, core, Last(all, "type"), Last(all, "id"), Last(all, "src"))
  {
    hide ParseCore, TagCore, Parse, Legal, Last, AllItems, Expected, IsWhitespace, Contains, ParseAttrsSpec;
    var tail := suffix + SpellAll(items);
    CoreEnds(name, suffix, items);
    CoreIs(lead, name + tail, mid, slashes, trail);
    SpacesCloseNothing(lead, mid, trail);
    ParsedTag(lead + (name + tail) + mid + slashes + trail);
    var all := AllItems(suffix, items);
    TailRead(suffix, items, "type");
    TailRead(suffix, items, "id");
    TailRead(suffix, items, "src");
    CoreReads(name, tail, Last(all, "type"), Last(all, "id"), Last(all, "src"));
  }

  lemma SpacesCloseNothing(lead: string, mid: string, trail: string)
    requires AllSpace(lead) && AllSpace(mid) && AllSpace(trail)
    ensures '>' !in lead && '>' !in mid && '>' !in trail
  {
  }

  lemma CoreEnds(name: string, suffix: string, items: seq<Item>)
    requires name in {"at", "img", "audio", "video", "emoji", "message"} && LegalTag(suffix, items)
    ensures var core := name + (suffix + SpellAll(items));
            Trimmed(core) && core[|core| - 1] != '/' && '>' !in core
  {
    hide Legal, SpellAll, IsWhitespace;
    assert name + (suffix + SpellAll(items)) == (name + suffix) + SpellAll(items);
    LettersEnd(name);
    if suffix != "" {
      NameEnds(suffix);
      assert (name + suffix)[|name + suffix| - 1] == suffix[|suffix| - 1];
    } else {
      assert name + suffix == name;
    }
    TextEnds(name + suffix, items);
  }

  lemma LettersEnd(name: string)
    requires name in {"at", "img", "audio", "video", "emoji", "message"}
    ensures !IsWhitespace(name[0]) && !IsWhitespace(name[|name| - 1]) && name[|name| - 1] != '/' && '>' !in name
  {
  }

  /** Mentions: a type of "all" or "here" decides before the id, any other type is ignored. */
  lemma AtForms(v: string, x: string)
    ensures Parse("<at " + Attr("type", v) + " " + Attr("id", x) + " />")
            == [At(if v == "all" || v == "here" then v else x)]
    ensures Parse("<at " + Attr("type", v) + " />") == if v == "all" || v == "here" then [At(v)] else []
    ensures Parse("<at />") == []
  {
    hide Parse, Attr, TagCore, AttrItem, Legal, ValueOf, Spell, SpellAll, Last, AllItems;
    var t, i := AttrItem("type", v), AttrItem("id", x);
    AttrItemIs("type", v);
    AttrItemIs("id", x);
    LastTwo(t, i);
    var (a, b) := (Attr("type", v), Attr("id", x));
    SpellTwo(t, i);
    assert " " + a + " " + b == " " + (a + " " + b);
    assert "<at " + a + " " + b + " />" == "<at " + (a + " " + b) + " />";
    AtItems([t, i], a + " " + b);
    AtItems([t], Attr("type", v)) by { SpellOne(t); }
    AtNothing();
  }

  lemma AtItems(items: seq<Item>, attrs: string)
    requires AllLegal(items) && SpellAll(items) == " " + attrs && '>' !in attrs
    ensures Parse("<at " + attrs + " />") ==
            Expected("at", "at " + attrs, Last(items, "type"), Last(items, "id"), Last(items, "src"))
  {
    hide Parse, Legal, Last, SpellAll;
    OneSpace();
    NoLetters(items);
    TagMeaning("", "at", "", items, " ", "/", "");
    AtText(attrs);
  }

  lemma AtNothing()
    ensures Parse("<at />") == []
  {
    hide Parse;
    OneSpace();
    TagMeaning("", "at", "", [], " ", "/", "");
    var none: seq<Item> := [];
    NoLetters(none);
    assert SpellAll(none) == "" && Last(none, "type") == Last(none, "id") == None;
    assert "" + ("at" + ("" + "")) + " " + "/" + "" == "at /";
    assert "<" + "at /" + ">" == "<at />";
  }

  lemma NoLetters(items: seq<Item>)
    ensures AllItems("", items) == items
  {
  }

  /** The item a printed attribute is. */
  function AttrItem(key: string, v: string): Item {
    Quoted(key, '"', EscapeAttr(v))
  }

  lemma AttrItemIs(key: string, v: string)
    requires key == "type" || key == "id"
    ensures var item := AttrItem(key, v);
            Legal(item) && Spell(item) == Attr(key, v) && ValueOf(item) == v && item.name == key && '>' !in Spell(item)
  {
    hide EscapeAttr, EscapeEach, Unescape, Decode;
    EscapesAreMaps(v);
    EscapeEachAvoids(v, ATTR_SPECIALS);
    UnescapeInverts(v);
    UnescapeIsDecode(EscapeAttr(v));
    KeysAreNames();
  }

  lemma KeysAreNames()
    ensures IsName("type") && IsName("id")
  {
  }

  lemma SpellNone(items: seq<Item>)
    requires items == []
    ensures SpellAll(items) == ""
  {
  }

  lemma SpellOne(t: Item)
    ensures SpellAll([t]) == " " + Spell(t)
  {
    hide Spell;
    assert [t][1..] == [];
  }

  lemma SpellTwo(t: Item, i: Item)
    ensures SpellAll([t, i]) == " " + Spell(t) + " " + Spell(i)
  {
    hide Spell;
    SpellOne(i);
    assert [t, i][1..] == [i];
    assert " " + Spell(t) + (" " + Spell(i)) == " " + Spell(t) + " " + Spell(i);
  }

  lemma LastTwo(t: Item, i: Item)
    requires t.name == "type" && i.name == "id"
    ensures Last([t, i], "type") == Last([t], "type") == Some(ValueOf(t))
    ensures Last([t, i], "id") == Some(ValueOf(i)) && Last([t], "id") == None
  {
    hide ValueOf;
    assert [t, i][..1] == [t] && [t][..0] == [];
  }

  lemma AtText(attrs: string)
    ensures "<" + ("" + ("at" + ("" + (" " + attrs))) + " " + "/" + "") + ">" == "<at " + attrs + " />"
  {
    assert "<" + "at" + " " == "<at " && " " + "/" + ">" == " />";
    assert "<" + ("" + ("at" + ("" + (" " + attrs))) + " " + "/" + "") + ">"
        == ("<" + "at" + " ") + attrs + (" " + "/" + ">");
  }

  // ----- Text -----

  /** An ampersand takes everything up to the next semicolon as text, tags included. */
  lemma EntityRun(t: string, rest: string)
    requires ';' !in t
    ensures Parse("&" + t) == [Text(Decode("&" + t, 5))]
    ensures MeaningFrom("&" + t + ";" + rest, "") == MeaningFrom(rest, "&" + t + ";")
  {
    hide MeaningFrom, Unescape, Decode, EntitySplit, TagSplit, ParseTag;
    var s, u := "&" + t, "&" + t + ";" + rest;
    Swallowed(t);
    MeaningTurn(s, "");
    MeaningEnd("&" + t);
    UnescapeIsDecode("&" + t);
    Terminated(t, rest);
    MeaningTurn(u, "");
    assert "" + ("&" + t) == "&" + t && "" + ("&" + t + ";") == "&" + t + ";";
  }

  lemma Swallowed(t: string)
    requires ';' !in t
    ensures EntitySplit("&" + t) == ("&" + t, "")
  {
    assert Drop("&" + t, 1) == t;
    EntityFound("&" + t, t, t, "");
    assert t + "" == t;
  }

  lemma Terminated(t: string, rest: string)
    requires ';' !in t
    ensures EntitySplit("&" + t + ";" + rest) == ("&" + t + ";", rest)
  {
    var s, u := "&" + t + ";" + rest, t + (";" + rest);
    assert s == "&" + u && s[1..] == u;
    assert Drop(s, 1) == u && Drop(";" + rest, 1) == rest;
    EntityFound(s, u, t, ";" + rest);
    assert "&" + (t + [';']) == "&" + t + ";";
  }
}
