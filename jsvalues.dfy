/**
  * The JavaScript values that the document store, the record cache and the
  * REST helpers move around, with the coercions the code relies on:
  * `String(v)`, `Number(v)`, truthiness, `??`, `toLowerCase`, `includes`
  * and the relational operators on strings.
  *
  * Numbers are integers (the code only ever stores integer ids, minutes and
  * counters); `NaN` is kept because `Number(...)` produces it.
  */
module JsValues {
  import opened Wrappers

  datatype Value =
    | Undef
    | Null
    | Bool(b: bool)
    | Num(n: int)
    | NaN
    | Str(s: string)
    | List(items: seq<Value>)
    | Rec(fields: map<string, Value>)

  /** A stored document, or any plain object: an open mapping of fields. */
  type Doc = map<string, Value>

  /** `obj[k]`: a missing property reads as `undefined`. */
  function Field(d: Doc, k: string): Value
  {
    if k in d then d[k] else Undef
  }

  /** `v == null` in JavaScript: true of both `null` and `undefined`. */
  predicate IsNullish(v: Value)
  {
    v.Undef? || v.Null?
  }

  /** Nullish coalescing: `v` unless it is null or undefined, then `d`. */
  function Coalesce(v: Value, d: Value): (r: Value)
    ensures !IsNullish(d) ==> !IsNullish(r)
    ensures !IsNullish(v) ==> r == v
  {
    if IsNullish(v) then d else v
  }

  /** JavaScript truthiness. */
  predicate Truthy(v: Value)
  {
    match v
    case Undef => false
    case Null => false
    case NaN => false
    case Bool(b) => b
    case Num(n) => n != 0
    case Str(s) => s != ""
    case List(_) => true
    case Rec(_) => true
  }

  // ---------------------------------------------------------------------------
  // Decimal digits
  // ---------------------------------------------------------------------------

  predicate IsDigit(c: char)
  {
    '0' <= c <= '9'
  }

  predicate AllDigits(s: string)
  {
    forall i :: 0 <= i < |s| ==> IsDigit(s[i])
  }

  function DigitChar(d: nat): (c: char)
    requires d < 10
    ensures IsDigit(c)
  {
    ('0' as int + d) as char
  }

  function DigitValue(c: char): (d: nat)
    requires IsDigit(c)
    ensures d < 10
  {
    c as int - '0' as int
  }

  /** The value of a string of decimal digits, most significant first. */
  function DigitsValue(s: string): nat
    requires AllDigits(s)
  {
    if s == [] then 0 else DigitsValue(s[..|s| - 1]) * 10 + DigitValue(s[|s| - 1])
  }

  /** `String(n)` for a non-negative integer. */
  function NatToString(n: nat): (s: string)
    ensures |s| >= 1 && AllDigits(s)
    ensures n < 10 <==> |s| == 1
  {
    if n < 10 then [DigitChar(n)] else NatToString(n / 10) + [DigitChar(n % 10)]
  }

  /** `String(n)` for an integer. */
  function IntToString(n: int): (s: string)
    ensures |s| >= 1 && (s[0] == '-' || IsDigit(s[0]))
  {
    if n < 0 then "-" + NatToString(-n) else NatToString(n)
  }

  /**
    * `Number(s)` on the string forms the model covers: the empty string is 0,
    * an optional sign followed by decimal digits is that integer, anything
    * else is `NaN` (`None`).
    */
  function ParseNumber(s: string): Option<int>
  {
    if s == "" then Some(0)
    else if (s[0] == '-' || s[0] == '+') && |s| > 1 && AllDigits(s[1..]) then
      Some(if s[0] == '-' then 0 - DigitsValue(s[1..]) else DigitsValue(s[1..]) as int)
    else if AllDigits(s) then Some(DigitsValue(s))
    else None
  }

  lemma {:induction false} NatToStringRoundTrip(n: nat)
    ensures DigitsValue(NatToString(n)) == n
  {
    if n >= 10 {
      var s := NatToString(n);
      assert s[..|s| - 1] == NatToString(n / 10);
      NatToStringRoundTrip(n / 10);
    }
  }

  /** Printing an integer and parsing it back gives the integer. */
  lemma ParseIntToString(n: int)
    ensures ParseNumber(IntToString(n)) == Some(n)
  {
    var s := IntToString(n);
    if n < 0 {
      var t := NatToString(-n);
      assert s == "-" + t && s[1..] == t;
      NatToStringRoundTrip(-n);
      assert ParseNumber(s) == Some(0 - DigitsValue(t));
    } else {
      assert s[0] != '-' && s[0] != '+';
      NatToStringRoundTrip(n);
    }
  }

  /** Distinct integers print differently. */
  lemma IntToStringInjective(m: int, n: int)
    requires IntToString(m) == IntToString(n)
    ensures m == n
  {
    ParseIntToString(m);
    ParseIntToString(n);
  }

  // ---------------------------------------------------------------------------
  // String(v) and Number(v)
  // ---------------------------------------------------------------------------

  /** Joins the parts, putting `sep` between neighbours. */
  function Join(parts: seq<string>, sep: string): string
  {
    if parts == [] then ""
    else if |parts| == 1 then parts[0]
    else parts[0] + sep + Join(parts[1..], sep)
  }

  /** `String(v)`; an array joins its elements with ",", printing null and undefined as "". */
  function Stringify(v: Value): string
  {
    match v
    case Undef => "undefined"
    case Null => "null"
    case Bool(b) => if b then "true" else "false"
    case Num(n) => IntToString(n)
    case NaN => "NaN"
    case Str(s) => s
    case List(items) =>
      Join(seq(|items|, i requires 0 <= i < |items| =>
                 if IsNullish(items[i]) then "" else Stringify(items[i])), ",")
    case Rec(_) => "[object Object]"
  }

  /** `Number(v)`; `None` stands for `NaN`. An array converts through its string form. */
  function ToNumber(v: Value): Option<int>
  {
    match v
    case Undef => None
    case Null => Some(0)
    case Bool(b) => Some(if b then 1 else 0)
    case Num(n) => Some(n)
    case NaN => None
    case Str(s) => ParseNumber(s)
    case List(_) => ParseNumber(Stringify(v))
    case Rec(_) => None
  }

  /** `Number(v)` as a value: an integer or `NaN`. */
  function NumberValue(v: Value): (r: Value)
    ensures r.Num? || r.NaN?
  {
    match ToNumber(v)
    case Some(n) => Num(n)
    case None => NaN
  }

  /**
    * Any value whose string form is the decimal form of `n` converts back to
    * `n`: no other kind of value prints like a number.
    */
  lemma NumberOfNumericString(v: Value, n: int)
    requires Stringify(v) == IntToString(n)
    ensures ToNumber(v) == Some(n)
  {
    ParseIntToString(n);
    match v
    case Num(m) =>
      IntToStringInjective(m, n);
    case _ =>
  }

  // ---------------------------------------------------------------------------
  // Text helpers
  // ---------------------------------------------------------------------------

  function LowerChar(c: char): char
  {
    if 'A' <= c <= 'Z' then (c as int + 32) as char else c
  }

  /** `s.toLowerCase()` on the ASCII letters. */
  function Lower(s: string): (r: string)
    ensures |r| == |s|
    ensures forall i :: 0 <= i < |s| ==> r[i] == LowerChar(s[i])
  {
    seq(|s|, i requires 0 <= i < |s| => LowerChar(s[i]))
  }

  predicate IsPrefix(p: string, s: string)
  {
    |p| <= |s| && s[..|p|] == p
  }

  /** `t` occurs somewhere in `s`. */
  predicate Contains(s: string, t: string)
  {
    exists i :: 0 <= i <= |s| && IsPrefix(t, s[i..])
  }

  /** `t` is a suffix of `s`. */
  predicate EndsWith(s: string, t: string)
  {
    |t| <= |s| && s[|s| - |t|..] == t
  }

  /** Every occurrence of `c` removed, the other characters kept in order. */
  function RemoveAll(s: string, c: char): (r: string)
    ensures c !in r
    ensures |r| <= |s|
    ensures c !in s ==> r == s
  {
    if s == [] then []
    else (if s[0] == c then [] else [s[0]]) + RemoveAll(s[1..], c)
  }

  lemma {:induction false} RemoveAllConcat(s: string, t: string, c: char)
    ensures RemoveAll(s + t, c) == RemoveAll(s, c) + RemoveAll(t, c)
  {
    if s == [] {
      assert s + t == t;
    } else {
      var st := s + t;
      assert st[0] == s[0] && st[1..] == s[1..] + t;
      RemoveAllConcat(s[1..], t, c);
      var head := if s[0] == c then [] else [s[0]];
      calc {
        RemoveAll(st, c);
        head + RemoveAll(s[1..] + t, c);
        head + (RemoveAll(s[1..], c) + RemoveAll(t, c));
        (head + RemoveAll(s[1..], c)) + RemoveAll(t, c);
      }
    }
  }

  /** `a < b` on two strings: lexicographic order of the characters. */
  predicate LexLess(a: string, b: string)
  {
    if b == [] then false
    else if a == [] then true
    else if a[0] != b[0] then a[0] < b[0]
    else LexLess(a[1..], b[1..])
  }

  lemma {:induction false} LexLessTrichotomy(a: string, b: string)
    ensures a == b || LexLess(a, b) || LexLess(b, a)
    ensures !(LexLess(a, b) && LexLess(b, a))
    ensures !LexLess(a, a)
  {
    if a != [] && b != [] && a[0] == b[0] {
      LexLessTrichotomy(a[1..], b[1..]);
      if a[1..] == b[1..] {
        assert a == [a[0]] + a[1..] && b == [b[0]] + b[1..];
      }
    }
    if a != [] {
      LexLessTrichotomy(a[1..], a[1..]);
    }
  }

  /** `cmp(a, b)` of the store on two strings: 0 when equal, 1 when `a > b`, -1 otherwise. */
  function StrCmp(a: string, b: string): (r: int)
    ensures r == 0 <==> a == b
    ensures r < 0 <==> LexLess(a, b)
    ensures r > 0 <==> LexLess(b, a)
  {
    LexLessTrichotomy(a, b);
    if a == b then 0 else if LexLess(b, a) then 1 else -1
  }
}
