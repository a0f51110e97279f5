/** JSON trees as the gateway's JSON library keeps them. */
module JsonTree {
  import opened Wrappers

  type U64 = n: nat | n < 0x1_0000_0000_0000_0000
  type I64 = i: int | -0x8000_0000_0000_0000 <= i < 0x8000_0000_0000_0000
  type NegI64 = i: int | -0x8000_0000_0000_0000 <= i < 0 witness -1

  /** A number is kept as an unsigned or a negative integer, or as the bits of a double. */
  datatype Number = PosInt(u: U64) | NegInt(i: NegI64) | Float(bits: U64) {
    function AsI64(): (r: Option<I64>) {
      match this
      case PosInt(u) => if u < 0x8000_0000_0000_0000 then Some(u) else None
      case NegInt(i) => Some(i)
      case Float(_) => None
    }

    function AsU64(): (r: Option<U64>) {
      match this
      case PosInt(u) => Some(u)
      case _ => None
    }
  }

  function FromI64(i: I64): (n: Number)
    ensures n.AsI64() == Some(i)
  {
    if i < 0 then NegInt(i) else PosInt(i)
  }

  datatype Json =
    | Null
    | Bool(b: bool)
    | Num(n: Number)
    | Str(s: string)
    | Arr(items: seq<Json>)
    | Obj(fields: map<string, Json>)
  {
    /** `Value::get(key)`: nothing unless this is an object with the key. */
    function Get(key: string): Option<Json> {
      if Obj? && key in fields then Some(fields[key]) else None
    }

    function AsStr(): Option<string> {
      if Str? then Some(s) else None
    }

    function AsI64(): Option<I64> {
      if Num? then n.AsI64() else None
    }
  }

  function GetStr(v: Json, key: string): Option<string> {
    match v.Get(key) case Some(x) => x.AsStr() case None => None
  }

  function GetI64(v: Json, key: string): Option<I64> {
    match v.Get(key) case Some(x) => x.AsI64() case None => None
  }

  // ----- Decimal rendering -----

  function Digit(d: nat): (c: char)
    requires d < 10
    ensures c as int == '0' as int + d
  {
    '0' + d as char
  }

  /** `to_string` of an unsigned integer. */
  function Decimal(n: nat): (s: string)
    ensures s != ""
  {
    (if n < 10 then "" else Decimal(n / 10)) + [Digit(n % 10)]
  }

  /** The number a string of digits stands for. */
  function DecimalValue(s: string): int {
    if s == "" then 0 else 10 * DecimalValue(s[..|s| - 1]) + (s[|s| - 1] as int - '0' as int)
  }

  /** The rendering stands for the number, has only digits, and starts with zero only when it is "0". */
  lemma {:induction false} DecimalMeans(n: nat)
    ensures DecimalValue(Decimal(n)) == n
    ensures forall i :: 0 <= i < |Decimal(n)| ==> '0' <= Decimal(n)[i] <= '9'
    ensures n > 0 ==> Decimal(n)[0] != '0'
  {
    if n < 10 {
      OneMoreDigit("", n);
      assert DecimalValue("") == 0;
      assert Decimal(n) == "" + [Digit(n)];
    } else {
      DecimalMeans(n / 10);
      var front := Decimal(n / 10);
      assert Decimal(n) == front + [Digit(n % 10)];
      hide Decimal;
      OneMoreDigit(front, n % 10);
      assert n == 10 * (n / 10) + n % 10;
    }
  }

  lemma OneMoreDigit(front: string, d: nat)
    requires d < 10
    ensures var s := front + [Digit(d)];
            DecimalValue(s) == 10 * DecimalValue(front) + d && '0' <= s[|s| - 1] <= '9'
  {
    var s := front + [Digit(d)];
    assert s[..|s| - 1] == front && s[|s| - 1] == Digit(d);
  }

  lemma {:induction false} DecimalInjective(m: nat, n: nat)
    requires Decimal(m) == Decimal(n)
    ensures m == n
  {
    var s, t := Decimal(m), Decimal(n);
    assert s[|s| - 1] == Digit(m % 10) && t[|t| - 1] == Digit(n % 10);
    assert Digit(m % 10) as int == Digit(n % 10) as int;
    var a, b := s[..|s| - 1], t[..|t| - 1];
    assert a == if m < 10 then "" else Decimal(m / 10);
    assert b == if n < 10 then "" else Decimal(n / 10);
    if m >= 10 && n >= 10 { DecimalInjective(m / 10, n / 10); }
  }

  // ----- Objects iterate in key order -----

  predicate StrLe(a: string, b: string) {
    a == "" || (b != "" && (a[0] < b[0] || (a[0] == b[0] && StrLe(a[1..], b[1..]))))
  }

  lemma {:induction false} StrLeTotal(a: string, b: string)
    ensures StrLe(a, b) || StrLe(b, a)
    ensures StrLe(a, b) && StrLe(b, a) ==> a == b
  {
    if a != "" && b != "" && a[0] == b[0] {
      StrLeTotal(a[1..], b[1..]);
      assert a == [a[0]] + a[1..] && b == [b[0]] + b[1..];
    }
  }

  lemma {:induction false} StrLeTransitive(a: string, b: string, c: string)
    requires StrLe(a, b) && StrLe(b, c)
    ensures StrLe(a, c)
  {
    if a != "" && a[0] == b[0] == c[0] { StrLeTransitive(a[1..], b[1..], c[1..]); }
  }

  /** The order is that of a dictionary: a prefix comes first, otherwise the first difference decides. */
  lemma {:induction false} DictionaryOrder(p: string, c: char, d: char, x: string, y: string)
    ensures StrLe(p, p + x)
    ensures StrLe(p + [c] + x, p + [d] + y) <==> c < d || (c == d && StrLe(x, y))
  {
    if p == "" {
      assert ([c] + x)[1..] == x && ([d] + y)[1..] == y;
      assert "" + [c] + x == [c] + x && "" + [d] + y == [d] + y;
    } else {
      var a, b := p + [c] + x, p + [d] + y;
      assert a[1..] == p[1..] + [c] + x && b[1..] == p[1..] + [d] + y && (p + x)[1..] == p[1..] + x;
      DictionaryOrder(p[1..], c, d, x, y);
    }
  }

  predicate IsLeast(k: string, ks: set<string>) {
    k in ks && forall x :: x in ks ==> StrLe(k, x)
  }

  lemma {:induction false} LeastExists(ks: set<string>) returns (k: string)
    requires ks != {}
    ensures IsLeast(k, ks)
  {
    var x :| x in ks;
    if ks == {x} {
      StrLeTotal(x, x);
      k := x;
    } else {
      var y := LeastExists(ks - {x});
      StrLeTotal(x, y);
      StrLeTotal(x, x);
      if StrLe(x, y) {
        forall z | z in ks ensures StrLe(x, z) {
          if z != x { StrLeTransitive(x, y, z); }
        }
        k := x;
      } else {
        k := y;
      }
    }
  }

  lemma LeastUnique(a: string, b: string, ks: set<string>)
    requires IsLeast(a, ks) && IsLeast(b, ks)
    ensures a == b
  {
    StrLeTotal(a, b);
  }

  function Least(ks: set<string>): (k: string)
    requires ks != {}
    ensures IsLeast(k, ks)
  {
    assert exists k :: IsLeast(k, ks) by { var _ := LeastExists(ks); }
    assert forall a, b :: IsLeast(a, ks) && IsLeast(b, ks) ==> a == b by {
      forall a, b | IsLeast(a, ks) && IsLeast(b, ks) ensures a == b { LeastUnique(a, b, ks); }
    }
    var k :| IsLeast(k, ks);
    k
  }

  /** The keys in iteration order. */
  function Keys(ks: set<string>): (r: seq<string>)
    ensures |r| == |ks| && forall k :: k in r <==> k in ks
    ensures forall i, j :: 0 <= i < j < |r| ==> r[i] != r[j] && StrLe(r[i], r[j])
  {
    if ks == {} then [] else [Least(ks)] + Keys(ks - {Least(ks)})
  }
}
