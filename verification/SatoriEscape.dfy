/** The multi-pass escape and unescape helpers of the Satori element encoding. */
module SatoriEscape {
  import opened Text

  /** Three sequential passes; the ampersand goes first. */
  function EscapeText(s: string): string {
    Replace(Replace(Replace(s, "&", "&amp;"), "<", "&lt;"), ">", "&gt;")
  }

  /** Four sequential passes. */
  function EscapeAttr(s: string): string {
    Replace(Replace(Replace(Replace(s, "&", "&amp;"), "\"", "&quot;"), "<", "&lt;"), ">", "&gt;")
  }

  /** Five sequential passes; the ampersand goes last. */
  function Unescape(s: string): string {
    Replace(Replace(Replace(Replace(Replace(s, "&lt;", "<"), "&gt;", ">"), "&quot;", "\""), "&#39;", "'"), "&amp;", "&")
  }

  // ----- One left-to-right decoder -----

  datatype Entity = Entity(code: string, ch: char)

  const ENTITIES: seq<Entity> :=
    [Entity("&lt;", '<'), Entity("&gt;", '>'), Entity("&quot;", '"'), Entity("&#39;", '\''), Entity("&amp;", '&')]

  /** Index of the entity (among the first `k`) that `s` starts with, or -1. */
  function EntityAt(s: string, k: nat): (i: int)
    requires k <= |ENTITIES|
    ensures -1 <= i < k
    ensures i >= 0 ==> ENTITIES[i].code <= s
    ensures i < 0 ==> forall j :: 0 <= j < k ==> !(ENTITIES[j].code <= s)
  {
    if k == 0 then -1 else if ENTITIES[k - 1].code <= s then k - 1 else EntityAt(s, k - 1)
  }

  /** Reads the string once, turning each entity (of the first `k`) into its character. */
  function Decode(s: string, k: nat): string
    requires k <= |ENTITIES|
    decreases |s|
  {
    if s == "" then ""
    else
      var i := EntityAt(s, k);
      if i >= 0 then
        assert |ENTITIES[i].code| > 0;
        [ENTITIES[i].ch] + Decode(s[|ENTITIES[i].code|..], k)
      else [s[0]] + Decode(s[1..], k)
  }

  /** A character that neither starts an entity nor comes out of one. */
  predicate Plain(c: char) {
    c != '&' && c != '<' && c != '>' && c != '"' && c != '\''
  }

  lemma EntityShape(i: nat)
    requires i < |ENTITIES|
    ensures |ENTITIES[i].code| >= 4 && ENTITIES[i].code[0] == '&'
    ensures forall j :: 1 <= j < |ENTITIES[i].code| ==> Plain(ENTITIES[i].code[j])
    ensures !Plain(ENTITIES[i].ch)
    ensures i < 4 ==> ENTITIES[i].ch != '&'
  {
  }

  /** No entity code is a prefix of another. */
  lemma EntitiesDistinct(s: string, i: nat, j: nat)
    requires i < |ENTITIES| && j < |ENTITIES|
    requires ENTITIES[i].code <= s && ENTITIES[j].code <= s
    ensures i == j
  {
    EntityShape(i);
    EntityShape(j);
    assert ENTITIES[i].code[1] == s[1] && ENTITIES[i].code[2] == s[2];
    assert ENTITIES[j].code[1] == s[1] && ENTITIES[j].code[2] == s[2];
  }

  /** A plain word at the front of the decoded string was at the front of the input. */
  lemma {:induction false} DecodeFront(q: string, s: string, k: nat)
    requires k <= |ENTITIES|
    requires forall i :: 0 <= i < |q| ==> Plain(q[i])
    requires q <= Decode(s, k)
    ensures q <= s
  {
    if q == "" {
    } else {
      assert q[0] == Decode(s, k)[0];
      var i := EntityAt(s, k);
      if i >= 0 {
        EntityShape(i);
        assert false;
      } else {
        assert q[1..] <= Decode(s, k)[1..];
        assert Decode(s, k)[1..] == Decode(s[1..], k);
        DecodeFront(q[1..], s[1..], k);
        assert q == [q[0]] + q[1..] && s == [s[0]] + s[1..];
      }
    }
  }

  /** Only an ampersand starts an entity. */
  lemma DecodeHead(s: string, k: nat)
    requires k <= |ENTITIES| && s != "" && s[0] != '&'
    ensures Decode(s, k) == [s[0]] + Decode(s[1..], k)
  {
    var i := EntityAt(s, k);
    if i >= 0 {
      EntityShape(i);
      assert false;
    }
  }

  /** A plain word at the front of the input is copied. */
  lemma {:induction false} DecodeCopies(q: string, s: string, k: nat)
    requires k <= |ENTITIES|
    requires forall i :: 0 <= i < |q| ==> Plain(q[i])
    ensures Decode(q + s, k) == q + Decode(s, k)
  {
    if q == "" {
      assert q + s == s;
    } else {
      hide Decode;
      assert (q + s)[0] == q[0];
      DecodeHead(q + s, k);
      assert (q + s)[1..] == q[1..] + s;
      DecodeCopies(q[1..], s, k);
      assert q == [q[0]] + q[1..];
    }
  }

  /** One more replace pass over the first `k` decoded is the decoder for `k + 1`. */
  lemma {:induction false} PassExtends(s: string, k: nat)
    requires k < |ENTITIES|
    ensures Replace(Decode(s, k), ENTITIES[k].code, [ENTITIES[k].ch]) == Decode(s, k + 1)
    decreases |s|
  {
    if s == "" {
    } else {
      var code := ENTITIES[k].code;
      EntityShape(k);
      var i := EntityAt(s, k);
      if i >= 0 {
        PassSkipsDecoded(s, k, i);
        EntityShape(i);
        PassExtends(s[|ENTITIES[i].code|..], k);
      } else if code <= s {
        PassTakesCode(s, k);
        PassExtends(s[|code|..], k);
      } else {
        PassSkipsCopied(s, k);
        PassExtends(s[1..], k);
      }
    }
  }

  /** An already decoded character starts no entity. */
  lemma PassSkipsDecoded(s: string, k: nat, i: nat)
    requires k < |ENTITIES| && s != "" && i == EntityAt(s, k)
    ensures EntityAt(s, k + 1) == i
    ensures |ENTITIES[i].code| <= |s|
    ensures Replace(Decode(s, k), ENTITIES[k].code, [ENTITIES[k].ch]) ==
            [ENTITIES[i].ch] + Replace(Decode(s[|ENTITIES[i].code|..], k), ENTITIES[k].code, [ENTITIES[k].ch])
  {
    EntityShape(i);
    EntityShape(k);
    if ENTITIES[k].code <= s { EntitiesDistinct(s, i, k); assert false; }
    var d := Decode(s, k);
    assert d[0] == ENTITIES[i].ch && d[1..] == Decode(s[|ENTITIES[i].code|..], k);
  }

  /** The pass rewrites an occurrence of its own entity. */
  lemma PassTakesCode(s: string, k: nat)
    requires k < |ENTITIES| && EntityAt(s, k) < 0 && ENTITIES[k].code <= s
    ensures EntityAt(s, k + 1) == k
    ensures Replace(Decode(s, k), ENTITIES[k].code, [ENTITIES[k].ch]) ==
      [ENTITIES[k].ch] + Replace(Decode(s[|ENTITIES[k].code|..], k), ENTITIES[k].code, [ENTITIES[k].ch])
  {
    EntityShape(k);
    DecodeCode(s, k, ENTITIES[k].code);
    ReplaceFront(ENTITIES[k].code, Decode(s[|ENTITIES[k].code|..], k), [ENTITIES[k].ch]);
  }

  /** The earlier passes copy an entity that is not theirs. */
  lemma DecodeCode(s: string, k: nat, code: string)
    requires k <= |ENTITIES| && s != "" && EntityAt(s, k) < 0
    requires code != "" && code <= s && forall i :: 1 <= i < |code| ==> Plain(code[i])
    ensures Decode(s, k) == code + Decode(s[|code|..], k)
  {
    hide Plain, EntityAt, Decode;
    var tail, body := s[|code|..], code[1..];
    DecodePlainStep(s, k);
    assert s[1..] == body + tail;
    DecodeCopies(body, tail, k);
    assert [s[0]] + body == code;
    Reassociate([s[0]], body, Decode(tail, k));
  }

  lemma DecodePlainStep(s: string, k: nat)
    requires k <= |ENTITIES| && s != "" && EntityAt(s, k) < 0
    ensures Decode(s, k) == [s[0]] + Decode(s[1..], k)
  {
    hide EntityAt;
  }

  lemma ReplaceFront(pat: string, s: string, rep: string)
    requires pat != ""
    ensures Replace(pat + s, pat, rep) == rep + Replace(s, pat, rep)
  {
    assert (pat + s)[|pat|..] == s;
  }

  /** Nothing the earlier passes wrote completes an entity. */
  lemma PassSkipsCopied(s: string, k: nat)
    requires k < |ENTITIES| && s != "" && EntityAt(s, k) < 0 && !(ENTITIES[k].code <= s)
    ensures EntityAt(s, k + 1) == -1
    ensures Replace(Decode(s, k), ENTITIES[k].code, [ENTITIES[k].ch]) ==
      [s[0]] + Replace(Decode(s[1..], k), ENTITIES[k].code, [ENTITIES[k].ch])
  {
    var code, d := ENTITIES[k].code, Decode(s, k);
    EntityShape(k);
    assert d[0] == s[0] && d[1..] == Decode(s[1..], k);
    assert s == [s[0]] + s[1..] && code == [code[0]] + code[1..] && d == [d[0]] + d[1..];
    if code <= d {
      PrefixTail(code, d);
      DecodeFront(code[1..], s[1..], k);
      assert false;
    }
  }

  lemma PrefixTail(a: string, b: string)
    requires a != "" && a <= b
    ensures a[0] == b[0] && a[1..] <= b[1..]
  {
  }

  lemma {:induction false} DecodeNone(s: string)
    ensures Decode(s, 0) == s
  {
    if s == "" {
    } else {
      DecodeNone(s[1..]);
    }
  }

  /** The five passes, in their order, read every string as one entity decoder does. */
  lemma UnescapeIsDecode(s: string)
    ensures Unescape(s) == Decode(s, 5)
  {
    hide Replace, Decode;
    DecodeNone(s);
    PassExtends(s, 0);
    PassExtends(s, 1);
    PassExtends(s, 2);
    PassExtends(s, 3);
    PassExtends(s, 4);
  }

  /** Unescaping never builds a plain word that was not already there. */
  lemma {:induction false} UnescapeKeepsWords(s: string, w: string)
    requires w != "" && forall i :: 0 <= i < |w| ==> Plain(w[i])
    requires Contains(Unescape(s), w)
    ensures Contains(s, w)
  {
    UnescapeIsDecode(s);
    DecodeKeepsWords(s, w);
  }

  lemma {:induction false} DecodeKeepsWords(s: string, w: string)
    requires w != "" && forall i :: 0 <= i < |w| ==> Plain(w[i])
    requires Contains(Decode(s, 5), w)
    ensures Contains(s, w)
    decreases |s|
  {
    var d := Decode(s, 5);
    if w <= d {
      DecodeFront(w, s, 5);
    } else {
      var i := EntityAt(s, 5);
      var n := if i >= 0 then |ENTITIES[i].code| else 1;
      assert d[1..] == Decode(s[n..], 5);
      DecodeKeepsWords(s[n..], w);
      assert s[n..|s|] == s[n..];
      ContainsSlice(s, n, |s|, w);
    }
  }

  /** Decoding a non-empty string leaves something. */
  lemma UnescapeNonEmpty(s: string)
    requires s != ""
    ensures Unescape(s) != ""
  {
    UnescapeIsDecode(s);
  }

  // ----- The escapes character by character -----

  /** The entity an escape writes for one of its special characters. */
  function CodeOf(c: char): string {
    if c == '&' then "&amp;" else if c == '<' then "&lt;" else if c == '>' then "&gt;" else "&quot;"
  }

  const TEXT_SPECIALS := "&<>"
  const ATTR_SPECIALS := "&\"<>"

  function EscapeChar(c: char, specials: string): string {
    if c in specials then CodeOf(c) else [c]
  }

  function EscapeEach(s: string, specials: string): string {
    if s == "" then "" else EscapeChar(s[0], specials) + EscapeEach(s[1..], specials)
  }

  lemma ReplaceHead(s: string, c: char, rep: string)
    requires s != ""
    ensures Replace(s, [c], rep) == (if s[0] == c then rep else [s[0]]) + Replace(s[1..], [c], rep)
  {
    assert [c] <= s <==> s[0] == c;
  }

  lemma {:induction false} ReplaceAppend(a: string, b: string, c: char, rep: string)
    ensures Replace(a + b, [c], rep) == Replace(a, [c], rep) + Replace(b, [c], rep)
  {
    if a == "" {
      assert a + b == b;
    } else {
      assert (a + b)[1..] == a[1..] + b;
      ReplaceHead(a, c, rep);
      ReplaceHead(a + b, c, rep);
      ReplaceAppend(a[1..], b, c, rep);
      var h := if a[0] == c then rep else [a[0]];
      assert (h + Replace(a[1..], [c], rep)) + Replace(b, [c], rep)
          == h + (Replace(a[1..], [c], rep) + Replace(b, [c], rep));
    }
  }

  lemma {:induction false} ReplaceAbsent(s: string, c: char, rep: string)
    requires c !in s
    ensures Replace(s, [c], rep) == s
  {
    if s == "" {
    } else {
      ReplaceHead(s, c, rep);
      ReplaceAbsent(s[1..], c, rep);
    }
  }

  lemma ReplaceOne(c: char, rep: string)
    ensures Replace([c], [c], rep) == rep
  {
    ReplaceHead([c], c, rep);
  }

  /** One more replace pass adds one more special character to the per-character map. */
  lemma {:induction false} PassEscapes(s: string, specials: string, c: char)
    requires c in ATTR_SPECIALS && c !in specials
    requires forall d :: d in specials ==> c !in CodeOf(d)
    ensures Replace(EscapeEach(s, specials), [c], CodeOf(c)) == EscapeEach(s, specials + [c])
  {
    if s == "" {
    } else {
      var e, rest := EscapeChar(s[0], specials), EscapeEach(s[1..], specials);
      PassEscapes(s[1..], specials, c);
      ReplaceAppend(e, rest, c, CodeOf(c));
      if s[0] == c {
        ReplaceOne(c, CodeOf(c));
      } else {
        ReplaceAbsent(e, c, CodeOf(c));
      }
    }
  }

  lemma {:induction false} EscapeNone(s: string)
    ensures EscapeEach(s, "") == s
  {
    if s == "" {
    } else {
      EscapeNone(s[1..]);
    }
  }

  /** The multi-pass escapes are per-character maps. */
  lemma EscapesAreMaps(s: string)
    ensures EscapeText(s) == EscapeEach(s, TEXT_SPECIALS)
    ensures EscapeAttr(s) == EscapeEach(s, ATTR_SPECIALS)
  {
    hide Replace, EscapeEach;
    EscapeNone(s);
    PassEscapes(s, "", '&');
    assert "" + ['&'] == "&";
    EscapeTextTail(s);
    EscapeAttrTail(s);
  }

  lemma EscapeTextTail(s: string)
    ensures Replace(Replace(EscapeEach(s, "&"), "<", "&lt;"), ">", "&gt;") == EscapeEach(s, TEXT_SPECIALS)
  {
    hide Replace, EscapeEach;
    PassEscapes(s, "&", '<');
    PassEscapes(s, "&<", '>');
    assert "&" + ['<'] == "&<" && "&<" + ['>'] == TEXT_SPECIALS;
  }

  lemma EscapeAttrTail(s: string)
    ensures Replace(Replace(Replace(EscapeEach(s, "&"), "\"", "&quot;"), "<", "&lt;"), ">", "&gt;")
        == EscapeEach(s, ATTR_SPECIALS)
  {
    hide Replace, EscapeEach;
    PassEscapes(s, "&", '"');
    PassEscapes(s, "&\"", '<');
    PassEscapes(s, "&\"<", '>');
    assert "&" + ['"'] == "&\"" && "&\"" + ['<'] == "&\"<" && "&\"<" + ['>'] == ATTR_SPECIALS;
  }

  lemma {:induction false} EscapeEachAppend(a: string, b: string, specials: string)
    ensures EscapeEach(a + b, specials) == EscapeEach(a, specials) + EscapeEach(b, specials)
  {
    if a == "" {
      assert a + b == b;
    } else {
      assert (a + b)[1..] == a[1..] + b;
      EscapeEachAppend(a[1..], b, specials);
    }
  }

  predicate EscapeSet(specials: string) {
    specials == TEXT_SPECIALS || specials == ATTR_SPECIALS
  }

  lemma CodeIsEntity(c: char) returns (j: nat)
    requires c in ATTR_SPECIALS
    ensures j < |ENTITIES| && ENTITIES[j] == Entity(CodeOf(c), c)
  {
    j := if c == '<' then 0 else if c == '>' then 1 else if c == '"' then 2 else 4;
  }

  lemma {:induction false} DecodeEscapeEach(s: string, specials: string)
    requires EscapeSet(specials)
    ensures Decode(EscapeEach(s, specials), 5) == s
  {
    hide Decode, CodeOf;
    if s == "" {
      DecodeEmpty();
    } else {
      DecodeEscapeEach(s[1..], specials);
      if s[0] in specials {
        DecodeOne(s[0], EscapeEach(s[1..], specials));
      } else {
        var e := [s[0]] + EscapeEach(s[1..], specials);
        assert s[0] != '&';
        assert e[1..] == EscapeEach(s[1..], specials);
        DecodeHead(e, 5);
      }
    }
  }

  lemma DecodeEmpty()
    ensures Decode("", 5) == ""
  {
  }

  lemma DecodeOne(c: char, rest: string)
    requires c in ATTR_SPECIALS
    ensures Decode(CodeOf(c) + rest, 5) == [c] + Decode(rest, 5)
  {
    var e := CodeOf(c) + rest;
    var i := EntityAt(e, 5);
    var j := CodeIsEntity(c);
    assert e[|CodeOf(c)|..] == rest;
    hide CodeOf;
    EntitiesDistinct(e, i, j);
  }

  /** Unescaping undoes both escapes, for every string. */
  lemma UnescapeInverts(s: string)
    ensures Unescape(EscapeText(s)) == s
    ensures Unescape(EscapeAttr(s)) == s
  {
    EscapesAreMaps(s);
    UnescapeIsDecode(EscapeText(s));
    UnescapeIsDecode(EscapeAttr(s));
    DecodeEscapeEach(s, TEXT_SPECIALS);
    DecodeEscapeEach(s, ATTR_SPECIALS);
  }

  /** Escaped output holds no tag delimiter, and an escaped attribute no double quote. */
  lemma {:induction false} EscapeEachAvoids(s: string, specials: string)
    requires EscapeSet(specials)
    ensures '<' !in EscapeEach(s, specials) && '>' !in EscapeEach(s, specials)
    ensures specials == ATTR_SPECIALS ==> '"' !in EscapeEach(s, specials)
  {
    if s == "" {
    } else {
      EscapeEachAvoids(s[1..], specials);
    }
  }

  /** A word that can neither be split by an escape nor sit inside an entity. */
  predicate Word(w: string) {
    |w| > 5 && (forall i :: 0 <= i < |w| ==> Plain(w[i]) && w[i] != ';')
  }

  lemma {:induction false} EscapeFront(w: string, s: string)
    requires forall i :: 0 <= i < |w| ==> Plain(w[i])
    ensures w <= EscapeEach(s, ATTR_SPECIALS) <==> w <= s
  {
    if w != "" && s != "" {
      var e := EscapeEach(s, ATTR_SPECIALS);
      if s[0] in ATTR_SPECIALS {
        assert e[0] == '&' && !Plain(s[0]);
      } else {
        assert e[0] == s[0] && e[1..] == EscapeEach(s[1..], ATTR_SPECIALS);
        EscapeFront(w[1..], s[1..]);
        assert w == [w[0]] + w[1..] && s == [s[0]] + s[1..] && e == [e[0]] + e[1..];
        if w <= e { assert w[1..] <= e[1..]; }
        if w <= s { assert w[1..] <= s[1..]; }
      }
    }
  }

  /** Escaping an attribute neither hides nor invents an occurrence of a word. */
  lemma {:induction false} EscapeKeepsWords(s: string, w: string)
    requires Word(w)
    ensures Contains(EscapeEach(s, ATTR_SPECIALS), w) <==> Contains(s, w)
  {
    if s == "" {
    } else {
      EscapeKeepsWords(s[1..], w);
      EscapeFront(w, s);
      var c, rest := EscapeChar(s[0], ATTR_SPECIALS), EscapeEach(s[1..], ATTR_SPECIALS);
      if s[0] in ATTR_SPECIALS {
        assert !Plain(s[0]);
        SkipEntity(c, rest, w);
      } else {
        assert (c + rest)[1..] == rest;
      }
    }
  }

  /** No occurrence of a word starts inside (a suffix of) an entity. */
  lemma {:induction false} SkipEntity(c: string, rest: string, w: string)
    requires Word(w)
    requires |c| <= 6 && (c == "" || c[|c| - 1] == ';')
    ensures Contains(c + rest, w) <==> Contains(rest, w)
  {
    if c == "" {
      assert c + rest == rest;
    } else {
      assert (c + rest)[|c| - 1] == ';';
      assert (c + rest)[1..] == c[1..] + rest;
      SkipEntity(c[1..], rest, w);
    }
  }
}
