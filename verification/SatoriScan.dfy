/** The peek/next scanners of the Satori element parser. */
module SatoriScan {
  import opened Wrappers
  import opened Text
  import opened SatoriEscape

  /** The predicate "differs from `q`", the stop test of most scanning loops. */
  function Not(q: char): char -> bool {
    c => c != q
  }

  predicate NameChar(c: char) {
    c != '=' && !IsWhitespace(c) && c != '/'
  }

  predicate UnquotedChar(c: char) {
    !IsWhitespace(c) && c != '/'
  }

  function Drop(s: string, n: nat): string {
    if n <= |s| then s[n..] else ""
  }

  // ----- What one tag and one entity are -----

  /** Tag body after the opening character, and the input after the closing '>' (or the end). */
  function TagSplit(s: string): (r: (string, string)) {
    var t := Drop(s, 1);
    var n := SpanLen(t, Not('>'));
    (t[..n], Drop(t, n + 1))
  }

  /** The raw entity, through ';' or to the end, and the input after it. */
  function EntitySplit(s: string): (r: (string, string)) {
    var t := Drop(s, 1);
    var n := SpanLen(t, Not(';'));
    var m := if n < |t| then n + 1 else n;
    ("&" + t[..m], t[m..])
  }

  // ----- Splitting a whole input -----

  /** A run of raw text, or a tag body with whether its '>' was present. */
  datatype Piece = Raw(text: string) | Tag(body: string, closed: bool)

  function Flush(buf: string): seq<Piece> {
    if buf == "" then [] else [Raw(buf)]
  }

  function Scan(s: string, buf: string): seq<Piece>
    decreases |s|
  {
    if s == "" then Flush(buf)
    else if s[0] == '<' then
      var (body, rest) := TagSplit(s);
      Flush(buf) + [Tag(body, |body| + 1 < |s|)] + Scan(rest, "")
    else if s[0] == '&' then
      var (entity, rest) := EntitySplit(s);
      Scan(rest, buf + entity)
    else Scan(s[1..], buf + [s[0]])
  }

  function Unscan(ps: seq<Piece>): string {
    if ps == [] then ""
    else (match ps[0]
          case Raw(t) => t
          case Tag(b, closed) => "<" + b + (if closed then ">" else "")) + Unscan(ps[1..])
  }

  lemma UnscanCons(p: Piece, ps: seq<Piece>)
    ensures Unscan([p] + ps) == Unscan([p]) + Unscan(ps)
  {
    assert ([p] + ps)[1..] == ps && [p][1..] == [];
  }

  lemma UnscanFlush(buf: string, p: Piece, ps: seq<Piece>)
    ensures Unscan(Flush(buf) + [p] + ps) == buf + Unscan([p]) + Unscan(ps)
  {
    UnscanCons(p, ps);
    assert Flush(buf) + [p] + ps == Flush(buf) + ([p] + ps);
    if buf == "" {
      assert Flush(buf) + ([p] + ps) == [p] + ps;
    } else {
      UnscanCons(Raw(buf), [p] + ps);
    }
  }

  lemma TagSpells(s: string)
    requires s != "" && s[0] == '<'
    ensures var (body, rest) := TagSplit(s); Unscan([Tag(body, |body| + 1 < |s|)]) + rest == s
  {
    var (body, rest) := TagSplit(s);
    var closed := |body| + 1 < |s|;
    TagParts(s);
    hide TagSplit;
    assert Unscan([]) == "";
    assert [Tag(body, closed)][1..] == [];
    assert Unscan([Tag(body, closed)]) == "<" + body + (if closed then ">" else "");
  }

  lemma TagParts(s: string)
    requires s != "" && s[0] == '<'
    ensures var (body, rest) := TagSplit(s);
            "<" + body + (if |body| + 1 < |s| then ">" else "") + rest == s
  {
    hide SpanLen;
    var t := s[1..];
    var n := SpanLen(t, Not('>'));
    assert s == "<" + t;
    if n < |t| {
      CutAt(t, n);
      Reassociate("<", t[..n], ">");
      Reassociate("<", t[..n] + ">", t[n + 1..]);
    } else {
      assert "<" + t[..n] + "" + "" == "<" + t;
    }
  }

  lemma CutAt(t: string, n: nat)
    requires n < |t|
    ensures t == t[..n] + [t[n]] + t[n + 1..]
  {
  }

  /** The scanner loses nothing: the pieces spell the input, well formed or not. */
  lemma {:induction false} ScanIsLossless(s: string, buf: string)
    ensures Unscan(Scan(s, buf)) == buf + s
    decreases |s|
  {
    if s == "" {
      assert buf + s == buf;
    } else if s[0] == '<' {
      var (body, rest) := TagSplit(s);
      ScanIsLossless(rest, "");
      assert "" + rest == rest;
      TagSpells(s);
      UnscanFlush(buf, Tag(body, |body| + 1 < |s|), Scan(rest, ""));
      Reassociate(buf, Unscan([Tag(body, |body| + 1 < |s|)]), rest);
    } else if s[0] == '&' {
      var (entity, rest) := EntitySplit(s);
      ScanIsLossless(rest, buf + entity);
      EntitySpells(s);
      Reassociate(buf, entity, rest);
    } else {
      ScanIsLossless(s[1..], buf + [s[0]]);
      Reassociate(buf, [s[0]], s[1..]);
      assert [s[0]] + s[1..] == s;
    }
  }

  lemma EntitySpells(s: string)
    requires s != "" && s[0] == '&'
    ensures EntitySplit(s).0 + EntitySplit(s).1 == s
  {
  }

  /** A complete tag in front of the rest is read as one piece. */
  lemma ScanTag(body: string, rest: string, buf: string)
    requires '>' !in body
    ensures Scan("<" + body + ">" + rest, buf) == Flush(buf) + [Tag(body, true)] + Scan(rest, "")
  {
    var s := "<" + body + ">" + rest;
    assert s[1..] == body + (">" + rest);
    SpanLenUnique(s[1..], Not('>'), |body|);
    assert Drop(s[1..], |body| + 1) == rest;
    assert TagSplit(s) == (body, rest);
  }

  /** Escaped text in front of the rest goes to the text buffer unchanged. */
  lemma {:induction false} ScanEscaped(t: string, rest: string, buf: string)
    ensures Scan(EscapeEach(t, TEXT_SPECIALS) + rest, buf) == Scan(rest, buf + EscapeEach(t, TEXT_SPECIALS))
  {
    if t == "" {
      assert EscapeEach(t, TEXT_SPECIALS) + rest == rest;
      assert buf + EscapeEach(t, TEXT_SPECIALS) == buf;
    } else {
      var e := EscapeChar(t[0], TEXT_SPECIALS);
      var tail := EscapeEach(t[1..], TEXT_SPECIALS);
      var s := e + tail + rest;
      assert s == e + (tail + rest);
      if t[0] in TEXT_SPECIALS {
        ScanEntity(t[0], tail + rest, buf);
      } else {
        assert s[1..] == tail + rest;
      }
      ScanEscaped(t[1..], rest, buf + e);
      assert (buf + e) + tail == buf + (e + tail);
    }
  }

  lemma ScanEntity(c: char, rest: string, buf: string)
    requires c in TEXT_SPECIALS
    ensures Scan(CodeOf(c) + rest, buf) == Scan(rest, buf + CodeOf(c))
  {
    var e := CodeOf(c);
    var s := e + rest;
    assert s[1..] == e[1..] + rest;
    SpanLenUnique(s[1..], Not(';'), |e| - 2);
    assert s[1..][..|e| - 1] == e[1..] && "&" + e[1..] == e;
    assert s[1..][|e| - 1..] == rest;
  }

  // ----- Attributes -----

  type Attrs = map<string, string>

  /** What one turn of the attribute loop finds: nothing (an unexpected character), or a name and value. */
  datatype Field = NoField | Field(name: string, value: string)

  function Put(attrs: Attrs, f: Field): Attrs {
    if f.NoField? then attrs else attrs[f.name := f.value]
  }

  function SkipSpace(s: string): string {
    s[SpanLen(s, IsWhitespace)..]
  }

  /** The field that starts at a non-space character, and the input after it. */
  function FieldSplit(s: string): (r: (Field, string))
    ensures |r.1| <= |s| && (s != "" ==> |r.1| < |s|)
  {
    var n := SpanLen(s, NameChar);
    var name, t := s[..n], s[n..];
    if name == "" then (NoField, Drop(t, 1))
    else if t != "" && t[0] == '=' then
      var (value, rest) := ValueSplit(t[1..]);
      (Field(name, value), rest)
    else (Field(name, ""), t)
  }

  /** All attributes read from `s`, later names overriding earlier ones. */
  function ParseFrom(s: string, attrs: Attrs): Attrs
    decreases |s|
  {
    if s == "" then attrs
    else
      var (f, rest) := FieldSplit(SkipSpace(s));
      ParseFrom(rest, Put(attrs, f))
  }

  /** A quoted value is unescaped, an unquoted one is not. */
  function ValueSplit(s: string): (r: (string, string))
    ensures |r.1| <= |s|
  {
    if s != "" && (s[0] == '"' || s[0] == '\'') then
      var n := SpanLen(s[1..], Not(s[0]));
      (Unescape(s[1..][..n]), Drop(s[1..], n + 1))
    else
      var n := SpanLen(s, UnquotedChar);
      (s[..n], s[n..])
  }

  function ParseAttrsSpec(s: string): Attrs {
    ParseFrom(Trim(s), map[])
  }

  /** A plain word in an attribute value was in the tag text. */
  lemma {:induction false} AttrWords(s: string, attrs: Attrs, key: string, w: string)
    requires w != "" && forall i :: 0 <= i < |w| ==> Plain(w[i])
    requires key in ParseFrom(s, attrs) && Contains(ParseFrom(s, attrs)[key], w)
    ensures Contains(s, w) || (key in attrs && Contains(attrs[key], w))
    decreases |s|
  {
    if s == "" {
    } else {
      var k := SpanLen(s, IsWhitespace);
      var (f, rest) := FieldSplit(s[k..]);
      AttrWords(rest, Put(attrs, f), key, w);
      if Contains(rest, w) || (f.Field? && Contains(f.value, w)) {
        FieldWords(s[k..], w);
        assert s[k..|s|] == s[k..];
        ContainsSlice(s, k, |s|, w);
      }
    }
  }

  lemma EmptyHasNoWord(w: string)
    requires w != ""
    ensures !Contains("", w)
  {
  }

  lemma FieldWords(s: string, w: string)
    requires w != "" && forall i :: 0 <= i < |w| ==> Plain(w[i])
    requires var (f, rest) := FieldSplit(s); Contains(rest, w) || (f.Field? && Contains(f.value, w))
    ensures Contains(s, w)
  {
    hide ValueSplit, Contains, SpanLen, Drop, Plain;
    var (f, rest) := FieldSplit(s);
    if Contains(rest, w) {
      FieldRest(s);
      assert s[|s| - |rest|..|s|] == rest;
      ContainsSlice(s, |s| - |rest|, |s|, w);
    } else {
      var n := SpanLen(s, NameChar);
      EmptyHasNoWord(w);
      assert s[n + 1..|s|] == s[n..][1..];
      ValueWords(s[n..][1..], w);
      ContainsSlice(s, n + 1, |s|, w);
    }
  }

  /** The input left after a field is a suffix of the input. */
  lemma FieldRest(s: string)
    ensures var rest := FieldSplit(s).1; s[|s| - |rest|..] == rest
  {
    var n := SpanLen(s, NameChar);
    var t := s[n..];
    if n > 0 && t != "" && t[0] == '=' {
      assert t[1..] == s[n + 1..];
    }
  }

  lemma ValueWords(s: string, w: string)
    requires w != "" && forall i :: 0 <= i < |w| ==> Plain(w[i])
    requires Contains(ValueSplit(s).0, w)
    ensures Contains(s, w)
  {
    hide Unescape, Contains, SpanLen, Plain;
    if s != "" && (s[0] == '"' || s[0] == '\'') {
      var n := SpanLen(s[1..], Not(s[0]));
      UnescapeKeepsWords(s[1..][..n], w);
      assert s[1..][..n] == s[1..n + 1];
      ContainsSlice(s, 1, n + 1, w);
    } else {
      var n := SpanLen(s, UnquotedChar);
      assert s[..n] == s[0..n];
      ContainsSlice(s, 0, n, w);
    }
  }

  predicate IsName(s: string) {
    s != "" && forall i :: 0 <= i < |s| ==> NameChar(s[i])
  }

  /** A quoted attribute in front of the rest, in either kind of quotes: its value is unescaped. */
  lemma ParseQuoted(name: string, q: char, value: string, rest: string, attrs: Attrs)
    requires IsName(name) && (q == '"' || q == '\'') && q !in value
    ensures ParseFrom(name + "=" + [q] + value + [q] + rest, attrs) == ParseFrom(rest, attrs[name := Unescape(value)])
  {
    hide ValueSplit, Unescape, NameChar, IsName, FieldSplit, ParseFrom;
    var v := [q] + (value + ([q] + rest));
    assert name + "=" + [q] + value + [q] + rest == name + ("=" + v);
    QuotedValue(q, value, rest);
    FieldIs(name, v);
    ParseNamed(name + ("=" + v), attrs);
  }

  /** An unquoted attribute runs to the next space or slash, and is not unescaped. */
  lemma ParseUnquoted(name: string, value: string, rest: string, attrs: Attrs)
    requires IsName(name) && forall i :: 0 <= i < |value| ==> UnquotedChar(value[i])
    requires rest == "" || !UnquotedChar(rest[0])
    requires value == "" || (value[0] != '"' && value[0] != '\'')
    ensures ParseFrom(name + "=" + value + rest, attrs) == ParseFrom(rest, attrs[name := value])
  {
    hide ValueSplit, UnquotedChar, NameChar, IsName, FieldSplit, ParseFrom;
    var v := value + rest;
    assert name + "=" + value + rest == name + ("=" + v);
    UnquotedValue(value, rest);
    FieldIs(name, v);
    ParseNamed(name + ("=" + v), attrs);
  }

  lemma UnquotedValue(value: string, rest: string)
    requires forall i :: 0 <= i < |value| ==> UnquotedChar(value[i])
    requires rest == "" || !UnquotedChar(rest[0])
    requires value == "" || (value[0] != '"' && value[0] != '\'')
    ensures ValueSplit(value + rest) == (value, rest)
  {
    var v := value + rest;
    assert v != "" ==> v[0] == if value != "" then value[0] else rest[0];
    SpanLenUnique(v, UnquotedChar, |value|);
    assert v[..|value|] == value && v[|value|..] == rest;
  }

  /** A bare name is an attribute with an empty value. */
  lemma ParseBare(name: string, rest: string, attrs: Attrs)
    requires IsName(name) && (rest == "" || (!NameChar(rest[0]) && rest[0] != '='))
    ensures ParseFrom(name + rest, attrs) == ParseFrom(rest, attrs[name := ""])
  {
    var s := name + rest;
    SpanLenUnique(s, NameChar, |name|);
    assert s[..|name|] == name && s[|name|..] == rest;
    hide ValueSplit;
    assert s[0] == name[0];
    ParseNamed(s, attrs);
  }

  /** A character that can start no name is skipped. */
  lemma ParseStray(c: char, rest: string, attrs: Attrs)
    requires c == '=' || c == '/'
    ensures ParseFrom([c] + rest, attrs) == ParseFrom(rest, attrs)
  {
    var s := [c] + rest;
    SpanLenUnique(s, IsWhitespace, 0);
    SpanLenUnique(s, NameChar, 0);
    assert s[0..] == s && s[1..] == rest;
  }

  /** Without leading space, one turn of the loop reads one field. */
  lemma ParseNamed(s: string, attrs: Attrs)
    requires s != "" && NameChar(s[0])
    ensures ParseFrom(s, attrs) == ParseFrom(FieldSplit(s).1, Put(attrs, FieldSplit(s).0))
  {
    hide FieldSplit;
    SpanLenUnique(s, IsWhitespace, 0);
    assert s[0..] == s;
  }

  lemma FieldIs(name: string, v: string)
    requires IsName(name)
    ensures var s := name + ("=" + v);
            NameChar(s[0]) && FieldSplit(s) == (Field(name, ValueSplit(v).0), ValueSplit(v).1)
  {
    hide ValueSplit;
    var s := name + ("=" + v);
    assert s[0] == name[0] && s[|name|] == '=';
    SpanLenUnique(s, NameChar, |name|);
    assert s[..|name|] == name && s[|name|..] == "=" + v && ("=" + v)[1..] == v;
  }

  lemma QuotedValue(q: char, value: string, rest: string)
    requires (q == '"' || q == '\'') && q !in value
    ensures ValueSplit([q] + (value + ([q] + rest))) == (Unescape(value), rest)
  {
    hide Unescape;
    var t := value + ([q] + rest);
    assert ([q] + t)[1..] == t;
    SpanLenUnique(t, Not(q), |value|);
    assert t[..|value|] == value && Drop(t, |value| + 1) == rest;
  }

  /** A space in front changes nothing. */
  lemma ParseSpace(s: string, attrs: Attrs)
    requires s != "" && NameChar(s[0])
    ensures ParseFrom(" " + s, attrs) == ParseFrom(s, attrs)
  {
    SpanLenUnique(" " + s, IsWhitespace, 1);
    SpanLenUnique(s, IsWhitespace, 0);
    assert (" " + s)[1..] == s == s[0..];
    assert SpanLen(s, NameChar) > 0;
  }

  // ----- The loops over the iterator -----

  /** `Peekable<Chars>`. */
  class CharStream {
    const input: string
    var pos: nat

    ghost predicate Valid() reads this { pos <= |input| }

    ghost function Rest(): string
      reads this
      requires Valid()
    {
      input[pos..]
    }

    constructor (s: string)
      ensures Valid() && Rest() == s
    {
      input, pos := s, 0;
    }

    function Peek(): (c: Option<char>)
      reads this
      requires Valid()
      ensures c == if Rest() == "" then None else Some(Rest()[0])
    {
      if pos < |input| then Some(input[pos]) else None
    }

    method Next() returns (c: Option<char>)
      requires Valid()
      modifies this
      ensures Valid() && c == old(Peek()) && Rest() == Drop(old(Rest()), 1)
    {
      c := Peek();
      if pos < |input| { pos := pos + 1; }
    }

    /** The loop "while the peeked character satisfies `p`, take it". */
    method TakeWhile(p: char -> bool) returns (taken: string)
      requires Valid()
      modifies this
      ensures Valid() && |taken| == SpanLen(old(Rest()), p)
      ensures old(Rest()) == taken + Rest()
    {
      hide SpanLen, Drop;
      ghost var start := Rest();
      taken := "";
      while Peek().Some? && p(Peek().value)
        invariant Valid() && start == taken + Rest()
        invariant forall i :: 0 <= i < |taken| ==> p(taken[i])
        decreases |Rest()|
      {
        ghost var rest := Rest();
        var c := Peek().value;
        var _ := Next();
        FirstDropped(rest);
        Reassociate(taken, [c], Rest());
        taken := taken + [c];
      }
      SpanFound(start, taken, Rest(), p);
    }
  }

  /** Everything before the first closing character is the span, and reading goes on after it. */
  lemma TagFound(s: string, t: string, tag: string, rest: string)
    requires t == Drop(s, 1) == tag + rest && '>' !in tag && (rest != "" ==> rest[0] == '>')
    ensures TagSplit(s) == (tag, Drop(rest, 1))
  {
    SpanFound(t, tag, rest, Not('>'));
    hide SpanLen;
    assert t[..|tag|] == tag;
    assert rest != "" ==> t[|tag| + 1..] == rest[1..];
  }

  method ReadTag(chars: CharStream) returns (tag: string)
    requires chars.Valid()
    modifies chars
    ensures chars.Valid() && (tag, chars.Rest()) == TagSplit(old(chars.Rest()))
  {
    hide Drop, TagSplit;
    ghost var s := chars.Rest();
    var _ := chars.Next();
    ghost var t, rest, closed := chars.Rest(), chars.Rest(), false;
    tag := "";
    while chars.Peek().Some?
      invariant chars.Valid() && !closed && rest == chars.Rest()
      invariant t == tag + rest && '>' !in tag
      decreases |chars.Rest()|
    {
      var ch := chars.Peek().value;
      var _ := chars.Next();
      FirstDropped(rest);
      if ch == '>' {
        closed := true;
        break;
      }
      Reassociate(tag, [ch], chars.Rest());
      tag := tag + [ch];
      rest := chars.Rest();
    }
    TagFound(s, t, tag, rest);
    if !closed { NothingDropped(); }
  }

  lemma FirstDropped(s: string)
    requires s != ""
    ensures s == [s[0]] + Drop(s, 1) && |Drop(s, 1)| < |s|
  {
  }

  lemma NothingDropped()
    ensures Drop("", 1) == ""
  {
  }

  method ReadEntity(chars: CharStream) returns (entity: string)
    requires chars.Valid()
    modifies chars
    ensures chars.Valid() && (entity, chars.Rest()) == EntitySplit(old(chars.Rest()))
  {
    hide Drop, EntitySplit;
    ghost var s := chars.Rest();
    entity := "&";
    var _ := chars.Next();
    ghost var t, name, rest, closed := chars.Rest(), "", chars.Rest(), false;
    while chars.Peek().Some?
      invariant chars.Valid() && !closed && rest == chars.Rest()
      invariant t == name + rest && ';' !in name && entity == "&" + name
      decreases |chars.Rest()|
    {
      var ch := chars.Peek().value;
      entity := entity + [ch];
      var _ := chars.Next();
      FirstDropped(rest);
      Reassociate("&", name, [ch]);
      if ch == ';' {
        closed := true;
        break;
      }
      Reassociate(name, [ch], chars.Rest());
      name := name + [ch];
      rest := chars.Rest();
    }
    EntityFound(s, t, name, rest);
    if !closed { NothingDropped(); }
  }

  lemma EntityFound(s: string, t: string, name: string, rest: string)
    requires t == Drop(s, 1) == name + rest && ';' !in name && (rest != "" ==> rest[0] == ';')
    ensures EntitySplit(s) == ("&" + (if rest == "" then name else name + [';']), Drop(rest, 1))
  {
    SpanFound(t, name, rest, Not(';'));
    hide SpanLen;
    assert rest == "" ==> t[..|name|] == name && t[|name|..] == "";
    assert rest != "" ==> t[..|name| + 1] == name + [';'] && t[|name| + 1..] == rest[1..];
  }

  method ReadValue(chars: CharStream) returns (value: string)
    requires chars.Valid()
    modifies chars
    ensures chars.Valid() && (value, chars.Rest()) == ValueSplit(old(chars.Rest()))
  {
    hide Unescape, SpanLen;
    ghost var s := chars.Rest();
    var quote := chars.Peek();
    if quote == Some('"') || quote == Some('\'') {
      var _ := chars.Next();
      value := chars.TakeWhile(Not(quote.value));
      assert s[1..] == value + chars.Rest();
      assert s[1..][..|value|] == value;
      value := Unescape(value);
      var _ := chars.Next();
    } else {
      value := chars.TakeWhile(UnquotedChar);
      assert s[..|value|] == value;
    }
  }

  method ReadField(chars: CharStream) returns (f: Field)
    requires chars.Valid()
    modifies chars
    ensures chars.Valid() && (f, chars.Rest()) == FieldSplit(old(chars.Rest()))
  {
    hide ValueSplit, SpanLen;
    ghost var s := chars.Rest();
    var name := chars.TakeWhile(NameChar);
    assert s[..|name|] == name && s[|name|..] == chars.Rest();
    if name == "" {
      var _ := chars.Next();
      return NoField;
    }
    if chars.Peek() == Some('=') {
      var _ := chars.Next();
      var value := ReadValue(chars);
      f := Field(name, value);
    } else {
      f := Field(name, "");
    }
  }

  method ParseAttrs(s: string) returns (attrs: Attrs)
    ensures attrs == ParseAttrsSpec(s)
  {
    hide FieldSplit, SpanLen;
    attrs := map[];
    var chars := new CharStream(Trim(s));
    while chars.Peek().Some?
      invariant fresh(chars) && chars.Valid()
      invariant ParseFrom(chars.Rest(), attrs) == ParseAttrsSpec(s)
      decreases |chars.Rest()|
    {
      ghost var s0 := chars.Rest();
      var space := chars.TakeWhile(IsWhitespace);
      assert SkipSpace(s0) == chars.Rest();
      var f := ReadField(chars);
      if f.Field? {
        attrs := attrs[f.name := f.value];
      }
    }
  }
}
