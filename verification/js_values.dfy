/**
 * The JavaScript values the application stores in Firestore and passes around, and the few
 * language operations it relies on: truthiness, `||`, `String(v)`, `Number(v)`, `trim()`,
 * `toLowerCase()`, `split(",")` and `join(",")`.
 *
 * Numbers are exact reals: NaN, the infinities and negative zero are not values of this
 * model; where JavaScript would produce NaN the model yields `None`.
 */
module JsValues {
  import opened Wrappers

  /** A Firestore timestamp: whole seconds since the epoch and the nanoseconds within that second. */
  datatype Timestamp = Timestamp(seconds: int, nanos: int)

  /** A field value of a Firestore document or of a JavaScript object. */
  datatype Value =
    | Undefined
    | Null
    | Bool(b: bool)
    | Num(n: real)
    | Str(s: string)
    | Time(ts: Timestamp)

  /** A Firestore document (or a plain object): field name to value. */
  type Doc = map<string, Value>

  /** `d.k`: a missing field reads as `undefined`. */
  function Field(d: Doc, k: string): Value
  {
    if k in d then d[k] else Undefined
  }

  /** JavaScript truthiness. */
  predicate Truthy(v: Value)
  {
    match v
    case Undefined => false
    case Null => false
    case Bool(b) => b
    case Num(n) => n != 0.0
    case Str(s) => s != ""
    case Time(_) => true
  }

  /** `a || b`: the first operand when it is truthy, else the second. */
  function Or(a: Value, b: Value): (r: Value)
    ensures Truthy(a) ==> r == a
    ensures !Truthy(a) ==> r == b
  {
    if Truthy(a) then a else b
  }

  /** An optional string as a value: `None` stands for `null`. */
  function OptStr(s: Option<string>): Value
  {
    match s
    case None => Null
    case Some(t) => Str(t)
  }

  /** `Timestamp.toMillis()`: milliseconds since the epoch. */
  function Millis(ts: Timestamp): real
  {
    ts.seconds as real * 1000.0 + ts.nanos as real / 1000000.0
  }

  // ---------------------------------------------------------------- whitespace and trim

  /** The characters `String.prototype.trim` removes: white space and line terminators. */
  predicate IsWhitespace(c: char)
  {
    || c == '\U{9}' || c == '\U{A}' || c == '\U{B}' || c == '\U{C}' || c == '\U{D}'
    || c == ' ' || c == '\U{A0}' || c == '\U{1680}'
    || ('\U{2000}' <= c <= '\U{200A}')
    || c == '\U{2028}' || c == '\U{2029}' || c == '\U{202F}' || c == '\U{205F}' || c == '\U{3000}'
    || c == '\U{FEFF}'
  }

  predicate AllWhitespace(s: string)
  {
    forall i :: 0 <= i < |s| ==> IsWhitespace(s[i])
  }

  /** Drops leading white space. */
  function TrimStart(s: string): (r: string)
    ensures |r| <= |s| && r == s[|s| - |r|..]
    ensures r == [] || !IsWhitespace(r[0])
  {
    if s != [] && IsWhitespace(s[0]) then TrimStart(s[1..]) else s
  }

  /** Drops trailing white space. */
  function TrimEnd(s: string): (r: string)
    ensures |r| <= |s| && r == s[..|r|]
    ensures r == [] || !IsWhitespace(r[|r| - 1])
  {
    if s != [] && IsWhitespace(s[|s| - 1]) then TrimEnd(s[..|s| - 1]) else s
  }

  /** What `TrimStart` drops is white space. */
  lemma {:induction false} TrimStartSkips(s: string)
    ensures AllWhitespace(s[..|s| - |TrimStart(s)|])
  {
    if s != [] && IsWhitespace(s[0]) {
      TrimStartSkips(s[1..]);
      var k := |s| - |TrimStart(s)|;
      assert s[..k] == [s[0]] + s[1..][..k - 1];
    }
  }

  /** What `TrimEnd` drops is white space. */
  lemma {:induction false} TrimEndSkips(s: string)
    ensures AllWhitespace(s[|TrimEnd(s)|..])
  {
    if s != [] && IsWhitespace(s[|s| - 1]) {
      var p := s[..|s| - 1];
      TrimEndSkips(p);
      var n := |TrimEnd(s)|;
      assert s[n..] == p[n..] + [s[|s| - 1]];
    }
  }

  /** `s.trim()`: the text between the leading and the trailing white space. */
  function Trim(s: string): (r: string)
    ensures |r| <= |s|
  {
    TrimEnd(TrimStart(s))
  }

  /** The trimmed text neither starts nor ends with white space. */
  lemma TrimEnds(s: string)
    ensures var r := Trim(s); r == [] || (!IsWhitespace(r[0]) && !IsWhitespace(r[|r| - 1]))
  {
    var t := TrimStart(s);
    var r := TrimEnd(t);
    assert r != [] ==> r[0] == t[0];
  }

  /** The trimmed text is a slice of `s` with only white space before and after it. */
  lemma TrimSurrounding(s: string) returns (k: nat)
    ensures var r := Trim(s);
      && k + |r| <= |s|
      && r == s[k..k + |r|]
      && AllWhitespace(s[..k])
      && AllWhitespace(s[k + |r|..])
  {
    var t := TrimStart(s);
    TrimStartSkips(s);
    TrimEndSkips(t);
    SliceBetween(s, t, TrimEnd(t));
    k := |s| - |t|;
  }

  /** A prefix `r` of a suffix `t` of `s`, both cut at white space, sits between white space in `s`. */
  lemma SliceBetween(s: string, t: string, r: string)
    requires |t| <= |s| && t == s[|s| - |t|..] && AllWhitespace(s[..|s| - |t|])
    requires |r| <= |t| && r == t[..|r|] && AllWhitespace(t[|r|..])
    ensures var k := |s| - |t|;
      && k + |r| <= |s|
      && r == s[k..k + |r|]
      && AllWhitespace(s[..k])
      && AllWhitespace(s[k + |r|..])
  {
    var k := |s| - |t|;
    assert t[|r|..] == s[k + |r|..];
  }

  /** Trimming twice is trimming once. */
  lemma TrimIdempotent(s: string)
    ensures Trim(Trim(s)) == Trim(s)
  {
    TrimEnds(s);
    TrimUnchanged(Trim(s));
  }

  /** Trimming text that neither starts nor ends with white space changes nothing. */
  lemma {:induction false} TrimUnchanged(s: string)
    requires s == [] || (!IsWhitespace(s[0]) && !IsWhitespace(s[|s| - 1]))
    ensures Trim(s) == s
  {
  }

  // ---------------------------------------------------------------- numbers as text

  predicate IsDigit(c: char)
  {
    '0' <= c <= '9'
  }

  predicate AllDigits(s: string)
  {
    forall i :: 0 <= i < |s| ==> IsDigit(s[i])
  }

  function DigitChar(d: int): (c: char)
    requires 0 <= d < 10
    ensures IsDigit(c)
  {
    (('0' as int) + d) as char
  }

  function DigitValue(c: char): (d: nat)
    requires IsDigit(c)
    ensures d < 10
  {
    (c as int) - ('0' as int)
  }

  /** The decimal digits of a natural number, without leading zeros. */
  function NatText(n: nat): (r: string)
    ensures |r| > 0 && AllDigits(r)
  {
    if n < 10 then [DigitChar(n)] else NatText(n / 10) + [DigitChar(n % 10)]
  }

  /** The number a string of decimal digits denotes. */
  function DigitsValue(s: string): nat
    requires AllDigits(s)
  {
    if s == [] then 0 else DigitsValue(s[..|s| - 1]) * 10 + DigitValue(s[|s| - 1])
  }

  /** `String(i)` for an integer. */
  function IntText(i: int): string
  {
    if i < 0 then "-" + NatText(-i) else NatText(i)
  }

  /** The fraction digits of `f`, at most `fuel` of them. */
  function FractionDigits(f: real, fuel: nat): string
    requires 0.0 <= f < 1.0
    decreases fuel
  {
    if f == 0.0 || fuel == 0 then ""
    else
      var d := (f * 10.0).Floor;
      [DigitChar(d)] + FractionDigits(f * 10.0 - d as real, fuel - 1)
  }

  /** Maximum number of fraction digits `NumberText` writes. */
  const MaxFractionDigits: nat := 20

  function UnsignedText(x: real): string
    requires x >= 0.0
  {
    var whole := x.Floor;
    var frac := x - whole as real;
    NatText(whole) + (if frac == 0.0 then "" else "." + FractionDigits(frac, MaxFractionDigits))
  }

  /** `String(x)` for a number written in plain decimal notation. */
  function NumberText(x: real): string
  {
    if x < 0.0 then "-" + UnsignedText(-x) else UnsignedText(x)
  }

  /** On integers, `NumberText` is `IntText`. */
  lemma NumberTextOfInt(i: int)
    ensures NumberText(i as real) == IntText(i)
  {
    var n := if i < 0 then -i else i;
    assert (n as real).Floor == n;
    assert UnsignedText(n as real) == NatText(n);
    if i < 0 {
      assert -(i as real) == n as real;
    }
  }

  /** `String(v)`. */
  function ValueText(v: Value): string
  {
    match v
    case Undefined => "undefined"
    case Null => "null"
    case Bool(b) => if b then "true" else "false"
    case Num(n) => NumberText(n)
    case Str(s) => s
    case Time(ts) => "Timestamp(seconds=" + IntText(ts.seconds) + ", nanoseconds=" + IntText(ts.nanos) + ")"
  }

  // ---------------------------------------------------------------- text as numbers

  function IndexOf(s: string, c: char): (k: nat)
    requires c in s
    ensures k < |s| && s[k] == c && c !in s[..k]
  {
    if s[0] == c then 0 else 1 + IndexOf(s[1..], c)
  }

  function Pow10(n: nat): (p: nat)
    ensures p >= 1
  {
    if n == 0 then 1 else 10 * Pow10(n - 1)
  }

  /** An unsigned decimal literal: digits, optionally a point and more digits, at least one digit. */
  function ParseUnsigned(t: string): Option<real>
  {
    if t != [] && AllDigits(t) then Some(DigitsValue(t) as real)
    else if '.' in t then
      var k := IndexOf(t, '.');
      var whole := t[..k];
      var frac := t[k + 1..];
      if AllDigits(whole) && AllDigits(frac) && |whole| + |frac| > 0 then
        Some(DigitsValue(whole) as real + (DigitsValue(frac) as real) / (Pow10(|frac|) as real))
      else None
    else None
  }

  /** `Number(s)` for a string; `None` stands for NaN. */
  function ParseNumber(s: string): Option<real>
  {
    var t := Trim(s);
    if t == [] then Some(0.0)
    else if t[0] == '-' then
      match ParseUnsigned(t[1..])
      case Some(x) => Some(-x)
      case None => None
    else if t[0] == '+' then ParseUnsigned(t[1..])
    else ParseUnsigned(t)
  }

  /** `Number(v)`; `None` stands for NaN. */
  function ToNumber(v: Value): Option<real>
  {
    match v
    case Undefined => None
    case Null => Some(0.0)
    case Bool(b) => Some(if b then 1.0 else 0.0)
    case Num(n) => Some(n)
    case Str(s) => ParseNumber(s)
    case Time(_) => None
  }

  lemma {:induction false} NatTextValue(n: nat)
    ensures DigitsValue(NatText(n)) == n
  {
    if n >= 10 {
      var t := NatText(n / 10);
      var u := t + [DigitChar(n % 10)];
      assert u[..|u| - 1] == t;
      NatTextValue(n / 10);
    }
  }

  lemma {:induction false} ParseDigits(d: string)
    requires d != [] && AllDigits(d)
    ensures ParseUnsigned(d) == Some(DigitsValue(d) as real)
  {
  }

  /** Text with no surrounding white space and no sign is read as an unsigned number. */
  lemma {:induction false} ParseUnsignedText(t: string)
    requires t != [] && !IsWhitespace(t[0]) && !IsWhitespace(t[|t| - 1])
    requires t[0] != '-' && t[0] != '+'
    ensures ParseNumber(t) == ParseUnsigned(t)
  {
    TrimUnchanged(t);
  }

  /** Text `-` followed by digits is read as the negated digits. */
  lemma {:induction false} ParseNegativeText(d: string, x: real)
    requires d != [] && AllDigits(d) && x == -(DigitsValue(d) as real)
    ensures ParseNumber("-" + d) == Some(x)
  {
    var t := "-" + d;
    assert t[1..] == d;
    assert t[|t| - 1] == d[|d| - 1];
    TrimUnchanged(t);
    ParseDigits(d);
  }

  /** `Number(String(i)) === i` for every integer. */
  lemma {:induction false} NumberOfIntText(i: int)
    ensures ParseNumber(IntText(i)) == Some(i as real)
  {
    if i < 0 {
      NumberOfNegativeText(i);
    } else {
      NumberOfNatText(i);
    }
  }

  lemma NumberOfNegativeText(i: int)
    requires i < 0
    ensures ParseNumber("-" + NatText(-i)) == Some(i as real)
  {
    NatTextValue(-i);
    ParseNegativeText(NatText(-i), i as real);
  }

  lemma NumberOfNatText(n: nat)
    ensures ParseNumber(NatText(n)) == Some(n as real)
  {
    var d := NatText(n);
    NatTextValue(n);
    ParseDigits(d);
    ParseUnsignedText(d);
  }

  // ---------------------------------------------------------------- case and separators

  function LowerChar(c: char): char
  {
    if 'A' <= c <= 'Z' then ((c as int) + 32) as char else c
  }

  /** `s.toLowerCase()` on the ASCII letters. */
  function Lower(s: string): (r: string)
    ensures |r| == |s|
    ensures forall i :: 0 <= i < |s| ==> r[i] == LowerChar(s[i])
  {
    seq(|s|, i requires 0 <= i < |s| => LowerChar(s[i]))
  }

  /** `s.split(sep)` for a one-character separator. */
  function Split(s: string, sep: char): (parts: seq<string>)
    ensures |parts| > 0
    decreases |s|
  {
    if sep in s then
      var k := IndexOf(s, sep);
      [s[..k]] + Split(s[k + 1..], sep)
    else [s]
  }

  /** `parts.join(sep)` for a one-character separator. */
  function Join(parts: seq<string>, sep: char): string
  {
    if parts == [] then ""
    else if |parts| == 1 then parts[0]
    else parts[0] + [sep] + Join(parts[1..], sep)
  }

  /** The first separator of `a + [sep] + b` is the one after `a` when `a` holds none. */
  lemma {:induction false} IndexOfAfter(a: string, sep: char, b: string)
    requires sep !in a
    ensures IndexOf(a + [sep] + b, sep) == |a|
  {
    if a != [] {
      assert (a + [sep] + b)[1..] == a[1..] + [sep] + b;
      IndexOfAfter(a[1..], sep, b);
    }
  }

  /** A separator at the end of the text adds an empty last part. */
  lemma {:induction false} SplitSeparatorLast(s: string, sep: char)
    ensures Split(s + [sep], sep) == Split(s, sep) + [""]
    decreases |s|
  {
    if sep in s {
      var k := IndexOf(s, sep);
      var rest := s[k + 1..];
      SplitStep(s, sep, k);
      SplitSeparatorAfter(s, sep, k);
      SplitSeparatorLast(rest, sep);
      ConsSnoc(s[..k], Split(rest, sep), "");
    } else {
      SplitSeparatorOnly(s, sep);
    }
  }

  /** Appending a separator does not move the first one. */
  lemma SplitSeparatorAfter(s: string, sep: char, k: nat)
    requires k < |s| && s[k] == sep && sep !in s[..k]
    ensures Split(s + [sep], sep) == [s[..k]] + Split(s[k + 1..] + [sep], sep)
  {
    var t := s + [sep];
    assert t[..k] == s[..k] && t[k] == sep;
    SplitStep(t, sep, k);
    assert t[k + 1..] == s[k + 1..] + [sep];
  }

  lemma ConsSnoc<T>(x: T, b: seq<T>, y: T)
    ensures [x] + (b + [y]) == ([x] + b) + [y]
  {
  }

  /** Text without a separator, then one: the text and an empty part. */
  lemma SplitSeparatorOnly(s: string, sep: char)
    requires sep !in s
    ensures Split(s + [sep], sep) == [s, ""]
  {
    var t := s + [sep];
    assert t[..|s|] == s && t[|s|] == sep;
    SplitStep(t, sep, |s|);
    assert t[|s| + 1..] == [];
  }

  /** One step of `Split`: the part before the first separator, then the split of the rest. */
  lemma SplitStep(s: string, sep: char, k: nat)
    requires k < |s| && s[k] == sep && sep !in s[..k]
    ensures Split(s, sep) == [s[..k]] + Split(s[k + 1..], sep)
  {
    IndexOfFirst(s, sep, k);
  }

  /** The first occurrence of `c` is where it occurs with none before it. */
  lemma {:induction false} IndexOfFirst(s: string, c: char, k: nat)
    requires k < |s| && s[k] == c && c !in s[..k]
    ensures IndexOf(s, c) == k
  {
    if k > 0 {
      assert s[0] == s[..k][0];
      assert s[1..][..k - 1] == s[..k][1..];
      IndexOfFirst(s[1..], c, k - 1);
    }
  }

  /** Splitting a joined list gives the parts back, when no part holds the separator. */
  lemma {:induction false} SplitJoin(parts: seq<string>, sep: char)
    requires |parts| > 0
    requires forall p :: p in parts ==> sep !in p
    ensures Split(Join(parts, sep), sep) == parts
  {
    if |parts| > 1 {
      var s := Join(parts, sep);
      var rest := Join(parts[1..], sep);
      assert s == parts[0] + [sep] + rest;
      assert sep in s by { assert s[|parts[0]|] == sep; }
      IndexOfAfter(parts[0], sep, rest);
      var k := IndexOf(s, sep);
      assert s[..k] == parts[0];
      assert s[k + 1..] == rest;
      SplitJoin(parts[1..], sep);
    }
  }

  /** Joining the parts of a split gives the text back. */
  lemma {:induction false} JoinSplit(s: string, sep: char)
    ensures Join(Split(s, sep), sep) == s
    decreases |s|
  {
    if sep in s {
      var k := IndexOf(s, sep);
      var rest := Split(s[k + 1..], sep);
      var parts := [s[..k]] + rest;
      assert Split(s, sep) == parts;
      assert parts[0] == s[..k] && parts[1..] == rest;
      JoinSplit(s[k + 1..], sep);
      assert Join(parts, sep) == s[..k] + [sep] + s[k + 1..];
      assert s == s[..k] + [sep] + s[k + 1..];
    }
  }
}
