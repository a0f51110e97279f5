/** Character scanning and the handful of Rust `str` operations the gateway uses. */
module Text {

  /** `char::is_whitespace`: the Unicode White_Space property. */
  predicate IsWhitespace(c: char) {
    var n := c as int;
    9 <= n <= 13 || n == 0x20 || n == 0x85 || n == 0xA0 || n == 0x1680
    || 0x2000 <= n <= 0x200A || n == 0x2028 || n == 0x2029 || n == 0x202F || n == 0x205F || n == 0x3000
  }

  /** The property's whole table, code point by code point. */
  lemma WhitespaceTable(c: char)
    ensures IsWhitespace(c) <==>
            c as int in {0x9, 0xA, 0xB, 0xC, 0xD, 0x20, 0x85, 0xA0, 0x1680,
                         0x2000, 0x2001, 0x2002, 0x2003, 0x2004, 0x2005, 0x2006, 0x2007, 0x2008, 0x2009, 0x200A,
                         0x2028, 0x2029, 0x202F, 0x205F, 0x3000}
  {
  }

  /** Length of the longest prefix whose characters all satisfy `p`: what a peek/next loop consumes. */
  function SpanLen(s: string, p: char -> bool): (n: nat)
    ensures n <= |s|
    ensures forall i :: 0 <= i < n ==> p(s[i])
    ensures n < |s| ==> !p(s[n])
  {
    if s != "" && p(s[0]) then 1 + SpanLen(s[1..], p) else 0
  }

  /** The span is the only length with the two properties of its contract. */
  lemma SpanLenUnique(s: string, p: char -> bool, n: nat)
    requires n <= |s|
    requires forall i :: 0 <= i < n ==> p(s[i])
    requires n < |s| ==> !p(s[n])
    ensures SpanLen(s, p) == n
  {
    var m := SpanLen(s, p);
    assert m < |s| ==> !p(s[m]);
    assert n < |s| ==> !p(s[n]);
  }

  /** So what a loop has taken is the span, if it took only such characters and could not take the next. */
  lemma SpanFound(s: string, taken: string, rest: string, p: char -> bool)
    requires s == taken + rest && forall i :: 0 <= i < |taken| ==> p(taken[i])
    requires rest != "" ==> !p(rest[0])
    ensures SpanLen(s, p) == |taken|
  {
    assert forall i :: 0 <= i < |taken| ==> s[i] == taken[i];
    assert rest != "" ==> s[|taken|] == rest[0];
    hide SpanLen;
    SpanLenUnique(s, p, |taken|);
  }

  lemma Reassociate(a: string, b: string, c: string)
    ensures a + b + c == a + (b + c)
  {
  }

  function TrimStart(s: string): string {
    if s != "" && IsWhitespace(s[0]) then TrimStart(s[1..]) else s
  }

  function TrimEnd(s: string): string {
    if s != "" && IsWhitespace(s[|s| - 1]) then TrimEnd(s[..|s| - 1]) else s
  }

  function Trim(s: string): string {
    TrimEnd(TrimStart(s))
  }

  /** `str::trim_end_matches(c)`. */
  function TrimEndMatches(s: string, c: char): string {
    if s != "" && s[|s| - 1] == c then TrimEndMatches(s[..|s| - 1], c) else s
  }

  /** `str::replace`: leftmost, non-overlapping occurrences of `pat`. */
  function Replace(s: string, pat: string, rep: string): string
    requires pat != ""
  {
    if s == "" then ""
    else if pat <= s then rep + Replace(s[|pat|..], pat, rep)
    else [s[0]] + Replace(s[1..], pat, rep)
  }

  /** `str::contains`. */
  predicate Contains(s: string, w: string) {
    w <= s || (s != "" && Contains(s[1..], w))
  }

  /** A word found in a slice is found in the whole string. */
  lemma {:induction false} ContainsSlice(s: string, i: nat, j: nat, w: string)
    requires i <= j <= |s|
    requires Contains(s[i..j], w)
    ensures Contains(s, w)
    decreases |s|
  {
    if i > 0 {
      assert s[1..][i - 1..j - 1] == s[i..j];
      ContainsSlice(s[1..], i - 1, j - 1, w);
    } else if !(w <= s[i..j]) {
      assert s[1..][0..j - 1] == s[0..j][1..];
      ContainsSlice(s[1..], 0, j - 1, w);
    }
  }

  /** Where an occurrence starts. */
  lemma {:induction false} ContainsAt(s: string, w: string) returns (p: nat)
    requires Contains(s, w)
    ensures p + |w| <= |s| && s[p..p + |w|] == w
  {
    if w <= s {
      p := 0;
    } else {
      var q := ContainsAt(s[1..], w);
      assert s[1..][q..q + |w|] == s[q + 1..q + 1 + |w|];
      p := q + 1;
    }
  }

  /** Trimming only drops characters at the two ends. */
  lemma {:induction false} TrimIsSlice(s: string) returns (i: nat, j: nat)
    ensures i <= j <= |s| && Trim(s) == s[i..j]
  {
    i := TrimStartIsSuffix(s);
    var k := TrimEndIsPrefix(s[i..]);
    j := i + k;
    assert s[i..][..k] == s[i..j];
  }

  lemma {:induction false} TrimStartIsSuffix(s: string) returns (i: nat)
    ensures i <= |s| && TrimStart(s) == s[i..]
  {
    if s != "" && IsWhitespace(s[0]) {
      var k := TrimStartIsSuffix(s[1..]);
      i := k + 1;
    } else {
      i := 0;
    }
  }

  lemma {:induction false} TrimEndIsPrefix(s: string) returns (j: nat)
    ensures j <= |s| && TrimEnd(s) == s[..j]
  {
    if s != "" && IsWhitespace(s[|s| - 1]) {
      j := TrimEndIsPrefix(s[..|s| - 1]);
      assert s[..|s| - 1][..j] == s[..j];
    } else {
      j := |s|;
    }
  }

  predicate AllSpace(s: string) {
    forall i :: 0 <= i < |s| ==> IsWhitespace(s[i])
  }

  /** Neither end is white space. */
  predicate Trimmed(s: string) {
    s != "" ==> !IsWhitespace(s[0]) && !IsWhitespace(s[|s| - 1])
  }

  lemma {:induction false} TrimStartIs(lead: string, s: string)
    requires AllSpace(lead) && (s != "" ==> !IsWhitespace(s[0]))
    ensures TrimStart(lead + s) == s
  {
    if lead == "" {
      assert lead + s == s;
    } else {
      assert (lead + s)[1..] == lead[1..] + s;
      TrimStartIs(lead[1..], s);
    }
  }

  lemma {:induction false} TrimEndIs(s: string, trail: string)
    requires AllSpace(trail) && (s != "" ==> !IsWhitespace(s[|s| - 1]))
    ensures TrimEnd(s + trail) == s
  {
    if trail == "" {
      assert s + trail == s;
    } else {
      var shorter := trail[..|trail| - 1];
      assert (s + trail)[..|s + trail| - 1] == s + shorter;
      TrimEndIs(s, shorter);
    }
  }

  /** Trimming takes all white space at both ends, and nothing else. */
  lemma TrimIs(lead: string, s: string, trail: string)
    requires AllSpace(lead) && AllSpace(trail) && Trimmed(s)
    ensures Trim(lead + s + trail) == s
  {
    hide IsWhitespace;
    if s == "" {
      assert lead + s + trail == lead + trail == (lead + trail) + "";
      TrimStartIs(lead + trail, "");
      TrimEndIs("", "");
    } else {
      assert lead + s + trail == lead + (s + trail);
      assert (s + trail)[0] == s[0];
      TrimStartIs(lead, s + trail);
      TrimEndIs(s, trail);
    }
  }

  /** All closing characters go, and nothing else. */
  lemma {:induction false} TrimEndMatchesIs(s: string, tail: string, c: char)
    requires (forall i :: 0 <= i < |tail| ==> tail[i] == c) && (s != "" ==> s[|s| - 1] != c)
    ensures TrimEndMatches(s + tail, c) == s
  {
    if tail == "" {
      assert s + tail == s;
    } else {
      var shorter := tail[..|tail| - 1];
      assert (s + tail)[..|s + tail| - 1] == s + shorter;
      TrimEndMatchesIs(s, shorter, c);
    }
  }
}
