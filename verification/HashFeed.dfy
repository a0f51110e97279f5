/** The bytes an event's fingerprint is computed from. */
module HashFeed {
  import opened Wrappers
  import opened JsonTree
  import opened Event

  type Byte = n: nat | n < 256

  // ----- Fixed-width integers -----

  /** `k` bytes, least significant first. */
  function LE(n: nat, k: nat): (r: seq<Byte>)
    ensures |r| == k
  {
    if k == 0 then [] else [n % 256] + LE(n / 256, k - 1)
  }

  function Pow256(k: nat): nat {
    if k == 0 then 1 else 256 * Pow256(k - 1)
  }

  lemma {:induction false} LEInjective(a: nat, b: nat, k: nat)
    requires a < Pow256(k) && b < Pow256(k)
    requires LE(a, k) == LE(b, k)
    ensures a == b
  {
    if k == 0 {
    } else {
      assert LE(a, k)[0] == LE(b, k)[0];
      assert LE(a, k)[1..] == LE(a / 256, k - 1) && LE(b, k)[1..] == LE(b / 256, k - 1);
      LEInjective(a / 256, b / 256, k - 1);
    }
  }

  function LE8(n: U64): (r: seq<Byte>)
    ensures |r| == 8
  {
    LE(n, 8)
  }

  lemma LE8PrefixFree(a: U64, b: U64, x: seq<Byte>, y: seq<Byte>)
    requires LE8(a) + x == LE8(b) + y
    ensures a == b && x == y
  {
    assert (LE8(a) + x)[..8] == LE8(a) && (LE8(b) + y)[..8] == LE8(b);
    assert (LE8(a) + x)[8..] == x && (LE8(b) + y)[8..] == y;
    assert Pow256(8) == 0x1_0000_0000_0000_0000 by {
      assert Pow256(4) == 0x1_0000_0000;
    }
    LEInjective(a, b, 8);
  }

  /** Two's complement. */
  function AsUnsigned(i: I64): U64 {
    if i < 0 then i + 0x1_0000_0000_0000_0000 else i
  }

  // ----- Strings: UTF-8 and a terminator that UTF-8 never uses (section 1 of RFC 3629) -----

  function Utf8Char(c: char): (r: seq<Byte>)
    ensures r != [] && r[0] < 0xF8
  {
    var n := c as int;
    if n < 0x80 then [n]
    else if n < 0x800 then [0xC0 + n / 64, 0x80 + n % 64]
    else if n < 0x10000 then [0xE0 + n / 64 / 64, 0x80 + n / 64 % 64, 0x80 + n % 64]
    else [0xF0 + n / 64 / 64 / 64, 0x80 + n / 64 / 64 % 64, 0x80 + n / 64 % 64, 0x80 + n % 64]
  }

  /** The code point of an encoded character. */
  function CodePoint(b: seq<Byte>): int {
    if |b| == 1 then b[0]
    else if |b| == 2 then (b[0] as int - 0xC0) * 64 + (b[1] as int - 0x80)
    else if |b| == 3 then ((b[0] as int - 0xE0) * 64 + (b[1] as int - 0x80)) * 64 + (b[2] as int - 0x80)
    else if |b| == 4 then
      (((b[0] as int - 0xF0) * 64 + (b[1] as int - 0x80)) * 64 + (b[2] as int - 0x80)) * 64 + (b[3] as int - 0x80)
    else 0
  }

  /** The first byte says how long the encoding is, and the encoding says which character it is. */
  lemma Utf8CharDecodes(c: char)
    ensures CodePoint(Utf8Char(c)) == c as int
    ensures var r := Utf8Char(c);
            |r| == if r[0] < 0x80 then 1 else if r[0] < 0xE0 then 2 else if r[0] < 0xF0 then 3 else 4
  {
  }

  function Utf8(s: string): seq<Byte> {
    if s == "" then [] else Utf8Char(s[0]) + Utf8(s[1..])
  }

  function StrFeed(s: string): seq<Byte> {
    Utf8(s) + [0xFF]
  }

  /** Two streams that start with pieces of one length split the same way. */
  lemma Cut(a: seq<Byte>, b: seq<Byte>, x: seq<Byte>, y: seq<Byte>)
    requires |a| == |b| && a + x == b + y
    ensures a == b && x == y
  {
    assert a == (a + x)[..|a|] && b == (b + y)[..|b|];
    assert x == (a + x)[|a|..] && y == (b + y)[|b|..];
  }

  lemma Utf8CharPrefixFree(c: char, d: char, x: seq<Byte>, y: seq<Byte>)
    requires Utf8Char(c) + x == Utf8Char(d) + y
    ensures c == d && x == y
  {
    hide Utf8Char, CodePoint;
    var a, b := Utf8Char(c), Utf8Char(d);
    Utf8CharDecodes(c);
    Utf8CharDecodes(d);
    assert a[0] == (a + x)[0] == (b + y)[0] == b[0];
    Cut(a, b, x, y);
    assert c as int == d as int;
  }

  lemma StrFeedHead(s: string, x: seq<Byte>)
    ensures (StrFeed(s) + x)[0] == 0xFF <==> s == ""
    ensures s == "" ==> (StrFeed(s) + x)[1..] == x
    ensures s != "" ==> StrFeed(s) + x == Utf8Char(s[0]) + (StrFeed(s[1..]) + x)
  {
    hide Utf8Char;
    if s != "" {
      assert (StrFeed(s) + x)[0] == Utf8Char(s[0])[0];
    }
  }

  lemma {:induction false} StrPrefixFree(s: string, t: string, x: seq<Byte>, y: seq<Byte>)
    requires StrFeed(s) + x == StrFeed(t) + y
    ensures s == t && x == y
  {
    hide StrFeed, Utf8Char;
    StrFeedHead(s, x);
    StrFeedHead(t, y);
    if s != "" && t != "" {
      Utf8CharPrefixFree(s[0], t[0], StrFeed(s[1..]) + x, StrFeed(t[1..]) + y);
      StrPrefixFree(s[1..], t[1..], x, y);
      assert s == [s[0]] + s[1..] && t == [t[0]] + t[1..];
    }
  }

  // ----- JSON trees -----

  /** Every array and object has fewer than 2^64 members, as memory guarantees. */
  predicate Fits(v: Json) {
    match v
    case Arr(items) => |items| < 0x1_0000_0000_0000_0000 && forall i :: 0 <= i < |items| ==> Fits(items[i])
    case Obj(fields) => |fields| < 0x1_0000_0000_0000_0000 && forall k :: k in fields ==> Fits(fields[k])
    case _ => true
  }

  /** Signed first, then unsigned, then the bits of a double. */
  function NumberFeed(n: Number): seq<Byte> {
    if n.AsI64().Some? then [0] + LE8(AsUnsigned(n.AsI64().value))
    else if n.AsU64().Some? then [1] + LE8(n.AsU64().value)
    else [2] + LE8(n.bits)
  }

  function TypeByte(v: Json): Byte {
    match v
    case Null => 0
    case Bool(_) => 1
    case Num(_) => 2
    case Str(_) => 3
    case Arr(_) => 4
    case Obj(_) => 5
  }

  /** A type byte, then the contents; arrays and objects start with their length. */
  function Feed(v: Json): seq<Byte>
    requires Fits(v)
    decreases v, 2, 0
  {
    [TypeByte(v)] + Contents(v)
  }

  function Contents(v: Json): seq<Byte>
    requires Fits(v)
    decreases v, 1, 0
  {
    match v
    case Null => []
    case Bool(b) => [if b then 1 else 0]
    case Num(n) => NumberFeed(n)
    case Str(s) => StrFeed(s)
    case Arr(items) => LE8(|items|) + FeedItems(items)
    case Obj(fields) => LE8(|fields|) + FeedFields(v, Keys(fields.Keys))
  }

  function FeedItems(items: seq<Json>): seq<Byte>
    requires forall i :: 0 <= i < |items| ==> Fits(items[i])
    decreases items, 0, |items|
  {
    if items == [] then [] else Feed(items[0]) + FeedItems(items[1..])
  }

  function FeedFields(v: Json, keys: seq<string>): seq<Byte>
    requires Fits(v) && v.Obj? && forall k :: k in keys ==> k in v.fields
    decreases v, 0, |keys|
  {
    if keys == [] then []
    else StrFeed(keys[0]) + (Feed(v.fields[keys[0]]) + FeedFields(v, keys[1..]))
  }

  lemma Join3(a: seq<Byte>, b: seq<Byte>, c: seq<Byte>)
    ensures a + b + c == a + (b + c)
  {
  }

  lemma NumberPrefixFree(a: Number, b: Number, x: seq<Byte>, y: seq<Byte>)
    requires NumberFeed(a) + x == NumberFeed(b) + y
    ensures a == b && x == y
  {
    hide NumberFeed, LE8;
    var p := NumberWord(a);
    var q := NumberWord(b);
    Cut(NumberFeed(a), NumberFeed(b), x, y);
    assert NumberFeed(a)[1..] == NumberFeed(b)[1..];
    LE8PrefixFree(p, q, [], []);
  }

  lemma NumberWord(n: Number) returns (w: U64)
    ensures |NumberFeed(n)| == 9 && NumberFeed(n)[1..] == LE8(w)
    ensures w == if n.PosInt? then n.u else if n.Float? then n.bits else AsUnsigned(n.i)
    ensures NumberFeed(n)[0] == if n.Float? then 2 else if n.PosInt? && n.u >= 0x8000_0000_0000_0000 then 1 else 0
  {
    hide LE8;
    w := if n.PosInt? then n.u else if n.Float? then n.bits else AsUnsigned(n.i);
  }

  /** The feed is a prefix-free code on JSON trees: from a stream that starts with a feed, the tree can be read back. */
  lemma {:induction false} FeedPrefixFree(a: Json, b: Json, x: seq<Byte>, y: seq<Byte>)
    requires Fits(a) && Fits(b)
    requires Feed(a) + x == Feed(b) + y
    ensures a == b && x == y
    decreases a, 2, 0
  {
    hide Contents, Fits;
    Join3([TypeByte(a)], Contents(a), x);
    Join3([TypeByte(b)], Contents(b), y);
    Cut([TypeByte(a)], [TypeByte(b)], Contents(a) + x, Contents(b) + y);
    assert TypeByte(a) == [TypeByte(a)][0] == [TypeByte(b)][0] == TypeByte(b);
    ContentsPrefixFree(a, b, x, y);
  }

  lemma {:induction false} ContentsPrefixFree(a: Json, b: Json, x: seq<Byte>, y: seq<Byte>)
    requires Fits(a) && Fits(b) && TypeByte(a) == TypeByte(b)
    requires Contents(a) + x == Contents(b) + y
    ensures a == b && x == y
    decreases a, 1, 0
  {
    hide StrFeed, NumberFeed, LE8, FeedItems, FeedFields;
    match a
    case Null => Cut([], [], x, y);
    case Bool(_) => Cut(Contents(a), Contents(b), x, y);
    case Num(n) => NumberPrefixFree(n, b.n, x, y);
    case Str(s) => StrPrefixFree(s, b.s, x, y);
    case Arr(items) =>
      Join3(LE8(|items|), FeedItems(items), x);
      Join3(LE8(|b.items|), FeedItems(b.items), y);
      LE8PrefixFree(|items|, |b.items|, FeedItems(items) + x, FeedItems(b.items) + y);
      ItemsPrefixFree(items, b.items, x, y);
    case Obj(fields) =>
      var fs, gs := FeedFields(a, Keys(fields.Keys)), FeedFields(b, Keys(b.fields.Keys));
      Join3(LE8(|fields|), fs, x);
      Join3(LE8(|b.fields|), gs, y);
      LE8PrefixFree(|fields|, |b.fields|, fs + x, gs + y);
      FieldsPrefixFree(a, b, Keys(fields.Keys), Keys(b.fields.Keys), x, y);
      SameFields(a, b);
  }

  lemma SameFields(a: Json, b: Json)
    requires a.Obj? && b.Obj? && Keys(a.fields.Keys) == Keys(b.fields.Keys)
    requires forall k :: k in Keys(a.fields.Keys) ==> a.fields[k] == b.fields[k]
    ensures a == b
  {
    hide Keys;
    assert forall k :: k in a.fields <==> k in Keys(a.fields.Keys);
    assert forall k :: k in b.fields <==> k in Keys(b.fields.Keys);
    assert a.fields == b.fields;
  }

  lemma {:induction false} ItemsPrefixFree(us: seq<Json>, vs: seq<Json>, x: seq<Byte>, y: seq<Byte>)
    requires |us| == |vs|
    requires forall i :: 0 <= i < |us| ==> Fits(us[i]) && Fits(vs[i])
    requires FeedItems(us) + x == FeedItems(vs) + y
    ensures us == vs && x == y
    decreases us, 0, |us|
  {
    hide Feed, Fits;
    if us == [] {
      Cut([], [], x, y);
    } else {
      var fs, gs := FeedItems(us[1..]), FeedItems(vs[1..]);
      Join3(Feed(us[0]), fs, x);
      Join3(Feed(vs[0]), gs, y);
      FeedPrefixFree(us[0], vs[0], fs + x, gs + y);
      ItemsPrefixFree(us[1..], vs[1..], x, y);
      assert us == [us[0]] + us[1..] && vs == [vs[0]] + vs[1..];
    }
  }

  lemma {:induction false} FieldsPrefixFree(a: Json, b: Json, ks: seq<string>, ls: seq<string>,
                                            x: seq<Byte>, y: seq<Byte>)
    requires Fits(a) && Fits(b) && a.Obj? && b.Obj? && |ks| == |ls|
    requires (forall k :: k in ks ==> k in a.fields) && (forall k :: k in ls ==> k in b.fields)
    requires FeedFields(a, ks) + x == FeedFields(b, ls) + y
    ensures ks == ls && x == y && forall k :: k in ks ==> a.fields[k] == b.fields[k]
    decreases a, 0, |ks|
  {
    hide Feed, StrFeed;
    if ks == [] {
      Cut([], [], x, y);
    } else {
      var k, l := ks[0], ls[0];
      var fs, gs := FeedFields(a, ks[1..]), FeedFields(b, ls[1..]);
      var f, g := Feed(a.fields[k]), Feed(b.fields[l]);
      Join3(StrFeed(k), f + fs, x);
      Join3(StrFeed(l), g + gs, y);
      Join3(f, fs, x);
      Join3(g, gs, y);
      StrPrefixFree(k, l, f + (fs + x), g + (gs + y));
      FeedPrefixFree(a.fields[k], b.fields[l], fs + x, gs + y);
      FieldsPrefixFree(a, b, ks[1..], ls[1..], x, y);
      assert ks == [k] + ks[1..] && ls == [l] + ls[1..];
    }
  }

  // ----- Events -----

  /** What the first hashing pass is fed for a notice, request or meta event. */
  function FirstPass(e: OtherEvent): seq<Byte>
    requires Fits(e.extra)
  {
    LE8(AsUnsigned(e.selfId)) + (StrFeed(e.kind) + (StrFeed(e.subType) + (LE8(AsUnsigned(e.time)) + Feed(e.extra))))
  }

  /** The second pass starts from the first pass's result. */
  function SecondPass(lo: U64, e: OtherEvent): seq<Byte>
    requires Fits(e.extra)
  {
    LE8(lo) + (LE8(AsUnsigned(e.selfId)) + (LE8(AsUnsigned(e.time)) + Feed(e.extra)))
  }

  /** Two events feed the first pass the same bytes only if they agree on every field that identifies them. */
  lemma FirstPassInjective(d: OtherEvent, e: OtherEvent)
    requires Fits(d.extra) && Fits(e.extra)
    requires FirstPass(d) == FirstPass(e)
    ensures d == e
  {
    var d3, e3 := LE8(AsUnsigned(d.time)) + Feed(d.extra), LE8(AsUnsigned(e.time)) + Feed(e.extra);
    var d2, e2 := StrFeed(d.subType) + d3, StrFeed(e.subType) + e3;
    var d1, e1 := StrFeed(d.kind) + d2, StrFeed(e.kind) + e2;
    LE8PrefixFree(AsUnsigned(d.selfId), AsUnsigned(e.selfId), d1, e1);
    StrPrefixFree(d.kind, e.kind, d2, e2);
    StrPrefixFree(d.subType, e.subType, d3, e3);
    LE8PrefixFree(AsUnsigned(d.time), AsUnsigned(e.time), Feed(d.extra), Feed(e.extra));
    assert Feed(d.extra) + [] == Feed(d.extra) && Feed(e.extra) + [] == Feed(e.extra);
    FeedPrefixFree(d.extra, e.extra, [], []);
  }

  /** The number a run of bytes stands for, least significant first. */
  function LEValue(b: seq<Byte>): nat {
    if b == [] then 0 else b[0] + 256 * LEValue(b[1..])
  }

  lemma {:induction false} LEMeans(n: nat, k: nat)
    requires n < Pow256(k)
    ensures LEValue(LE(n, k)) == n
  {
    if k == 0 {
    } else {
      LEMeans(n / 256, k - 1);
      assert LE(n, k)[1..] == LE(n / 256, k - 1);
    }
  }

  /** What each kind of tree is fed as: its own type byte, lengths before contents, numbers by their form. */
  lemma FeedForms(b: bool, s: string)
    ensures Feed(Null) == [0] && Feed(Bool(b)) == [1, if b then 1 else 0]
    ensures Feed(Str(s)) == [3] + Utf8(s) + [0xFF]
    ensures Feed(Arr([])) == [4] + LE8(0) && Feed(Obj(map[])) == [5] + LE8(0)
  {
    hide LE8, Utf8, Keys;
    EmptyKeys();
  }

  lemma NumberForms(i: I64, u: U64)
    ensures Feed(Num(FromI64(i))) == [2, 0] + LE8(if i < 0 then i + 0x1_0000_0000_0000_0000 else i)
    ensures u >= 0x8000_0000_0000_0000 ==> Feed(Num(PosInt(u))) == [2, 1] + LE8(u)
    ensures Feed(Num(Float(u))) == [2, 2] + LE8(u)
  {
    hide LE8;
  }

  /** An array is fed element by element, after its length. */
  lemma FeedArray(x: Json, items: seq<Json>)
    requires |items| + 1 < 0x1_0000_0000_0000_0000 && Fits(x) && forall k :: 0 <= k < |items| ==> Fits(items[k])
    ensures Fits(Arr([x] + items)) && Feed(Arr([x] + items)) == [4] + LE8(|items| + 1) + (Feed(x) + FeedItems(items))
  {
    assert ([x] + items)[1..] == items && ([x] + items)[0] == x;
    assert Fits(Arr([x] + items));
    assert FeedItems([x] + items) == Feed(x) + FeedItems(items);
    hide LE8, FeedItems;
    Join3([4], LE8(|items| + 1), Feed(x) + FeedItems(items));
  }

  lemma EmptyKeys()
    ensures Keys({}) == []
  {
  }

  /** An object is fed entry by entry in dictionary order of the keys, each key before its value. */
  lemma FeedEntry(v: Json, keys: seq<string>)
    requires Fits(v) && v.Obj? && keys != [] && forall k :: k in keys ==> k in v.fields
    ensures FeedFields(v, keys) == Utf8(keys[0]) + [0xFF] + Feed(v.fields[keys[0]]) + FeedFields(v, keys[1..])
  {
    hide Feed, Utf8;
  }

  /** The first pass is fed the account, the type, the sub type, the time and the content, in this order. */
  lemma FirstPassForm(e: OtherEvent)
    requires Fits(e.extra)
    ensures FirstPass(e) == LE8(AsUnsigned(e.selfId)) + Utf8(e.kind) + [0xFF] + Utf8(e.subType) + [0xFF]
                            + LE8(AsUnsigned(e.time)) + Feed(e.extra)
    ensures forall lo :: SecondPass(lo, e) ==
                         LE8(lo) + LE8(AsUnsigned(e.selfId)) + LE8(AsUnsigned(e.time)) + Feed(e.extra)
  {
    hide Feed, Utf8, LE8;
    var (k, t, f) := (Utf8(e.kind) + [0xFF], LE8(AsUnsigned(e.time)), Feed(e.extra));
    var sub := Utf8(e.subType) + [0xFF];
    var id := LE8(AsUnsigned(e.selfId));
    assert id + (k + (sub + (t + f))) == id + Utf8(e.kind) + [0xFF] + Utf8(e.subType) + [0xFF] + t + f;
  }

  /** A 128-bit fingerprint: two 64-bit words side by side. */
  function Pair(hi: U64, lo: U64): nat {
    hi * 0x1_0000_0000_0000_0000 + lo
  }

  lemma PairInjective(a: U64, b: U64, c: U64, d: U64)
    requires Pair(a, b) == Pair(c, d)
    ensures a == c && b == d
  {
  }

  function FitsEvent(e: Event): bool {
    e.MessageOf? || Fits(e.other.extra)
  }

  /** The fingerprint, for a given 64-bit hash of byte streams. */
  function Fingerprint(hash: seq<Byte> -> U64, e: Event): nat
    requires FitsEvent(e)
  {
    match e
    case MessageOf(msg) => Pair(AsUnsigned(msg.selfId), AsUnsigned(msg.messageId))
    case _ =>
      var lo := hash(FirstPass(e.other));
      Pair(hash(SecondPass(lo, e.other)), lo)
  }

  /** For messages, whatever the hash, equal fingerprints mean the same account and message id. */
  lemma MessageFingerprint(hash: seq<Byte> -> U64, d: MessageEvent, e: MessageEvent)
    ensures Fingerprint(hash, MessageOf(d)) == Fingerprint(hash, MessageOf(e)) <==>
            d.selfId == e.selfId && d.messageId == e.messageId
  {
    if Fingerprint(hash, MessageOf(d)) == Fingerprint(hash, MessageOf(e)) {
      PairInjective(AsUnsigned(d.selfId), AsUnsigned(d.messageId), AsUnsigned(e.selfId), AsUnsigned(e.messageId));
    }
  }

  /** Equal second-pass inputs, for one first result, mean the same account, time and content. */
  lemma SecondPassInjective(lo: U64, d: OtherEvent, e: OtherEvent)
    requires Fits(d.extra) && Fits(e.extra)
    ensures SecondPass(lo, d) == SecondPass(lo, e) <==> d.selfId == e.selfId && d.time == e.time && d.extra == e.extra
  {
    hide Feed, LE8, Fits;
    if SecondPass(lo, d) == SecondPass(lo, e) {
      var d2, e2 := LE8(AsUnsigned(d.time)) + Feed(d.extra), LE8(AsUnsigned(e.time)) + Feed(e.extra);
      LE8PrefixFree(lo, lo, LE8(AsUnsigned(d.selfId)) + d2, LE8(AsUnsigned(e.selfId)) + e2);
      LE8PrefixFree(AsUnsigned(d.selfId), AsUnsigned(e.selfId), d2, e2);
      LE8PrefixFree(AsUnsigned(d.time), AsUnsigned(e.time), Feed(d.extra), Feed(e.extra));
      assert Feed(d.extra) + [] == Feed(d.extra) && Feed(e.extra) + [] == Feed(e.extra);
      FeedPrefixFree(d.extra, e.extra, [], []);
    }
  }

  /**
   Equal fingerprints of two different events that are no messages are a collision of the hash in the first pass and,
   unless the events differ in nothing but type and sub type, in the second pass too.
   */
  lemma OtherFingerprint(hash: seq<Byte> -> U64, x: Event, y: Event)
    requires !x.MessageOf? && !y.MessageOf? && FitsEvent(x) && FitsEvent(y)
    requires Fingerprint(hash, x) == Fingerprint(hash, y) && x.other != y.other
    ensures FirstPass(x.other) != FirstPass(y.other) && hash(FirstPass(x.other)) == hash(FirstPass(y.other))
    ensures var (lo, d, e) := (hash(FirstPass(x.other)), x.other, y.other);
            (d.selfId, d.time, d.extra) != (e.selfId, e.time, e.extra) ==>
              SecondPass(lo, d) != SecondPass(lo, e) && hash(SecondPass(lo, d)) == hash(SecondPass(lo, e))
  {
    hide FirstPass, SecondPass, Fits;
    var d, e := x.other, y.other;
    if FirstPass(d) == FirstPass(e) { FirstPassInjective(d, e); assert false; }
    var p, q := hash(FirstPass(d)), hash(FirstPass(e));
    PairInjective(hash(SecondPass(p, d)), p, hash(SecondPass(q, e)), q);
    SecondPassInjective(p, d, e);
  }

  /** A message meets another event's fingerprint exactly when its ids happen to be that event's two hashes. */
  lemma MessageMeetsOther(hash: seq<Byte> -> U64, m: MessageEvent, y: Event)
    requires !y.MessageOf? && FitsEvent(y)
    ensures var lo := hash(FirstPass(y.other));
            Fingerprint(hash, MessageOf(m)) == Fingerprint(hash, y) <==>
              AsUnsigned(m.messageId) == lo && AsUnsigned(m.selfId) == hash(SecondPass(lo, y.other))
  {
    hide FirstPass, SecondPass, Fits;
    var lo := hash(FirstPass(y.other));
    if Fingerprint(hash, MessageOf(m)) == Fingerprint(hash, y) {
      PairInjective(AsUnsigned(m.selfId), AsUnsigned(m.messageId), hash(SecondPass(lo, y.other)), lo);
    }
  }

  // ----- Feeding a hasher -----

  class Hasher {
    var fed: seq<Byte>

    constructor ()
      ensures fed == []
    {
      fed := [];
    }

    method Write(bytes: seq<Byte>)
      modifies this
      ensures fed == old(fed) + bytes
    {
      fed := fed + bytes;
    }
  }

  method HashJsonValue(value: Json, hasher: Hasher)
    requires Fits(value)
    modifies hasher
    ensures hasher.fed == old(hasher.fed) + Feed(value)
    decreases value, 1, 0
  {
    hide StrFeed, NumberFeed, LE8, FeedItems, FeedFields;
    ghost var start := hasher.fed;
    match value
    case Null =>
      hasher.Write([0]);
      assert Feed(value) == [0];
    case Bool(b) =>
      hasher.Write([1]);
      hasher.Write([if b then 1 else 0]);
      Join3(start, [1], Contents(value));
    case Num(n) =>
      hasher.Write([2]);
      hasher.Write(NumberFeed(n));
      Join3(start, [2], Contents(value));
    case Str(s) =>
      hasher.Write([3]);
      hasher.Write(StrFeed(s));
      Join3(start, [3], Contents(value));
    case Arr(items) =>
      hasher.Write([4]);
      hasher.Write(LE8(|items|));
      HashItems(items, hasher);
      Join3(start + [4], LE8(|items|), FeedItems(items));
      Join3(start, [4], Contents(value));
    case Obj(fields) =>
      hasher.Write([5]);
      hasher.Write(LE8(|fields|));
      HashFields(value, hasher);
      Join3(start + [5], LE8(|fields|), FeedFields(value, Keys(fields.Keys)));
      Join3(start, [5], Contents(value));
  }

  method HashItems(items: seq<Json>, hasher: Hasher)
    requires forall i :: 0 <= i < |items| ==> Fits(items[i])
    modifies hasher
    ensures hasher.fed == old(hasher.fed) + FeedItems(items)
    decreases items, 0, 0
  {
    hide Feed, Fits;
    for i := 0 to |items|
      invariant hasher.fed + FeedItems(items[i..]) == old(hasher.fed) + FeedItems(items)
    {
      assert items[i..][0] == items[i] && items[i..][1..] == items[i + 1..];
      Join3(hasher.fed, Feed(items[i]), FeedItems(items[i + 1..]));
      HashJsonValue(items[i], hasher);
    }
  }

  lemma FieldsStep(value: Json, keys: seq<string>, i: nat)
    requires Fits(value) && value.Obj? && (forall k :: k in keys ==> k in value.fields) && i < |keys|
    ensures Fits(value.fields[keys[i]])
    ensures FeedFields(value, keys[i..]) ==
            StrFeed(keys[i]) + (Feed(value.fields[keys[i]]) + FeedFields(value, keys[i + 1..]))
  {
    hide Feed, StrFeed;
    assert keys[i..][0] == keys[i] && keys[i..][1..] == keys[i + 1..];
  }

  method HashFields(value: Json, hasher: Hasher)
    requires Fits(value) && value.Obj?
    modifies hasher
    ensures hasher.fed == old(hasher.fed) + FeedFields(value, Keys(value.fields.Keys))
    decreases value, 0, 0
  {
    hide Feed, StrFeed, Keys, FeedFields, Fits;
    var keys := Keys(value.fields.Keys);
    assert keys[0..] == keys;
    for i := 0 to |keys|
      invariant hasher.fed + FeedFields(value, keys[i..]) == old(hasher.fed) + FeedFields(value, keys)
    {
      FieldsStep(value, keys, i);
      var v, rest := value.fields[keys[i]], FeedFields(value, keys[i + 1..]);
      Join3(hasher.fed, StrFeed(keys[i]), Feed(v) + rest);
      Join3(hasher.fed + StrFeed(keys[i]), Feed(v), rest);
      hasher.Write(StrFeed(keys[i]));
      HashJsonValue(v, hasher);
    }
    NoFields(value, keys[|keys|..]);
  }

  lemma NoFields(value: Json, keys: seq<string>)
    requires Fits(value) && value.Obj? && keys == []
    ensures FeedFields(value, keys) == []
  {
  }
}
