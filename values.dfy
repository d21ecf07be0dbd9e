/** The Python values that the VM of VM/VirtualMachine.py puts on its stack and in
    its globals, and the Python operators it applies to them. Numbers are exact:
    floats are `real`, so IEEE rounding is not modelled. */
module Values {
  import opened Common

  /** `int`, `float`, `bool`, `str` and `None`. */
  datatype Value = Int(i: int) | Float(r: real) | Bool(b: bool) | Str(s: string) | NoneV

  /** `isinstance(v, (int, float))`; `bool` is a subclass of `int`. */
  predicate IsNumber(v: Value) { v.Int? || v.Float? || v.Bool? }

  /** `isinstance(v, int)`, which is true of booleans too. */
  predicate IsIntLike(v: Value) { v.Int? || v.Bool? }

  function AsInt(v: Value): int
    requires IsIntLike(v)
  {
    if v.Int? then v.i else if v.b then 1 else 0
  }

  function AsReal(v: Value): real
    requires IsNumber(v)
  {
    if v.Float? then v.r else AsInt(v) as real
  }

  /** Python truthiness: `0`, `0.0`, `False`, `""` and `None` are false. */
  predicate Truthy(v: Value)
  {
    match v
    case Int(i) => i != 0
    case Float(r) => r != 0.0
    case Bool(b) => b
    case Str(s) => s != ""
    case NoneV => false
  }

  /** `b == 0`, the guard of DIV and MOD. */
  predicate IsZero(v: Value) { IsNumber(v) && AsReal(v) == 0.0 }

  // ---------------------------------------------------------------------------
  // Arithmetic; `None` stands for the TypeError Python raises on other operand types.

  /** Mixed arithmetic: an int result when both operands are int-like, else a float. */
  function Arith(a: Value, b: Value, intOp: (int, int) -> int, realOp: (real, real) -> real): Value
    requires IsNumber(a) && IsNumber(b)
  {
    if IsIntLike(a) && IsIntLike(b) then Int(intOp(AsInt(a), AsInt(b)))
    else Float(realOp(AsReal(a), AsReal(b)))
  }

  function Repeat(s: string, n: int): (r: string)
    ensures |r| == if n <= 0 then 0 else |s| * n
    decreases n
  {
    if n <= 0 then [] else s + Repeat(s, n - 1)
  }

  /** `a + b`: numeric sum or string concatenation. */
  function Add(a: Value, b: Value): Option<Value>
  {
    if IsNumber(a) && IsNumber(b) then Some(Arith(a, b, (x, y) => x + y, (x, y) => x + y))
    else if a.Str? && b.Str? then Some(Str(a.s + b.s))
    else None
  }

  function Sub(a: Value, b: Value): Option<Value>
  {
    if IsNumber(a) && IsNumber(b) then Some(Arith(a, b, (x, y) => x - y, (x, y) => x - y)) else None
  }

  /** `a * b`: numeric product, or a string repeated an int-like number of times. */
  function Mul(a: Value, b: Value): Option<Value>
  {
    if IsNumber(a) && IsNumber(b) then Some(Arith(a, b, (x, y) => x * y, (x, y) => x * y))
    else if a.Str? && IsIntLike(b) then Some(Str(Repeat(a.s, AsInt(b))))
    else if IsIntLike(a) && b.Str? then Some(Str(Repeat(b.s, AsInt(a))))
    else None
  }

  /** DIV: `a / b if b != 0 else 0`, with Python 3 true division. */
  function Div(a: Value, b: Value): Option<Value>
  {
    if IsZero(b) then Some(Int(0))
    else if IsNumber(a) && IsNumber(b) then Some(Float(AsReal(a) / AsReal(b)))
    else None
  }

  /** Python's `%` on ints: the remainder takes the sign of the divisor. */
  function FloorMod(a: int, b: int): int
    requires b != 0
  {
    if b > 0 || a % b == 0 then a % b else a % b + b
  }

  /** Python's `%` on floats, `a - b * floor(a / b)`, exactly. */
  function RealFloorMod(a: real, b: real): real
    requires b != 0.0
  {
    a - b * (a / b).Floor as real
  }

  /** MOD: `a % b if b != 0 else 0`. */
  function Mod(a: Value, b: Value): Option<Value>
  {
    if IsZero(b) then Some(Int(0))
    else if IsNumber(a) && IsNumber(b) then
      if IsIntLike(a) && IsIntLike(b) then Some(Int(FloorMod(AsInt(a), AsInt(b))))
      else Some(Float(RealFloorMod(AsReal(a), AsReal(b))))
    else None
  }

  /** NEG: `-v`; booleans negate as ints. */
  function Neg(v: Value): Option<Value>
  {
    match v
    case Int(i) => Some(Int(-i))
    case Bool(_) => Some(Int(-AsInt(v)))
    case Float(r) => Some(Float(-r))
    case _ => None
  }

  // ---------------------------------------------------------------------------
  // Comparison

  /** `a == b`: numbers by value across int, float and bool; strings by content;
      `None` only with itself; values of different kinds are unequal. */
  predicate Equal(a: Value, b: Value)
  {
    if IsNumber(a) && IsNumber(b) then AsReal(a) == AsReal(b)
    else if a.Str? && b.Str? then a.s == b.s
    else a.NoneV? && b.NoneV?
  }

  /** Lexicographic order of strings by code point. */
  predicate StrLess(a: string, b: string)
  {
    if a == [] then b != []
    else if b == [] then false
    else if a[0] != b[0] then a[0] < b[0]
    else StrLess(a[1..], b[1..])
  }

  /** `a < b`: numbers or two strings; anything else is a TypeError. */
  function Less(a: Value, b: Value): Option<bool>
  {
    if IsNumber(a) && IsNumber(b) then Some(AsReal(a) < AsReal(b))
    else if a.Str? && b.Str? then Some(StrLess(a.s, b.s))
    else None
  }

  /** `a <= b`. */
  function LessEq(a: Value, b: Value): Option<bool>
  {
    if IsNumber(a) && IsNumber(b) then Some(AsReal(a) <= AsReal(b))
    else if a.Str? && b.Str? then Some(StrLess(a.s, b.s) || a.s == b.s)
    else None
  }

  // ---------------------------------------------------------------------------
  // int() and dictionary keys

  /** `int(v)`: truncation toward zero for floats, 0 or 1 for booleans; for strings,
      surrounding whitespace, then an optional sign, then decimal digits in which a
      single `_` may separate two digits. `Err` is the ValueError or TypeError. */
  function IntOf(v: Value): Result<int, string>
  {
    match v
    case Int(i) => Ok(i)
    case Bool(_) => Ok(AsInt(v))
    case Float(r) => Ok(if r >= 0.0 then r.Floor else -((-r).Floor))
    case Str(s) => DecimalLiteral(Strip(s))
    case NoneV => Err("TypeError")
  }

  /** `int()` of a string once its surrounding whitespace is gone. */
  function DecimalLiteral(t: string): Result<int, string>
  {
    var signed := |t| > 0 && t[0] in "+-";
    var body := if signed then t[1..] else t;
    if Grouped(body) then
      var magnitude: int := DecimalValue(body);
      Ok(if signed && t[0] == '-' then -magnitude else magnitude)
    else Err("ValueError")
  }

  predicate AllDecimal(s: string) { forall k :: 0 <= k < |s| ==> '0' <= s[k] <= '9' }

  /** Digits, where each `_` stands between two digits. */
  predicate Grouped(s: string)
  {
    |s| > 0 && '0' <= s[0] <= '9' && '0' <= s[|s| - 1] <= '9' &&
    (forall k :: 0 <= k < |s| ==> '0' <= s[k] <= '9' || s[k] == '_') &&
    (forall k :: 0 < k < |s| ==> !(s[k - 1] == '_' && s[k] == '_'))
  }

  predicate DigitsOrSeparators(s: string) { forall k :: 0 <= k < |s| ==> '0' <= s[k] <= '9' || s[k] == '_' }

  /** The value of a run of decimal digits, skipping `_` separators. */
  function DecimalValue(s: string): nat
    requires DigitsOrSeparators(s)
  {
    if s == [] then 0
    else if s[|s| - 1] == '_' then DecimalValue(s[..|s| - 1])
    else DecimalValue(s[..|s| - 1]) * 10 + (s[|s| - 1] as int - '0' as int)
  }

  /** Dictionary keys: `1`, `1.0` and `True` hash and compare equal, so they are one key. */
  datatype Key = KNum(n: real) | KStr(s: string) | KNone

  function KeyOf(v: Value): Key
  {
    if IsNumber(v) then KNum(AsReal(v)) else if v.Str? then KStr(v.s) else KNone
  }

  // ---------------------------------------------------------------------------
  // Properties

  /** Two values are the same dictionary key exactly when `==` holds between them. */
  lemma KeyOfMatchesEqual(a: Value, b: Value)
    ensures KeyOf(a) == KeyOf(b) <==> Equal(a, b)
  {
  }

  /** `FloorMod` is Python's `%`: it completes floor division, and its result lies
      between zero and the divisor. */
  lemma FloorModSpec(a: int, b: int)
    requires b != 0
    ensures exists q :: a == b * q + FloorMod(a, b)
    ensures b > 0 ==> 0 <= FloorMod(a, b) < b
    ensures b < 0 ==> b < FloorMod(a, b) <= 0
  {
    if b > 0 || a % b == 0 {
      assert a == b * (a / b) + a % b;
    } else {
      assert a == b * (a / b - 1) + (a % b + b);
    }
  }

  /** The same for floats. */
  lemma RealFloorModSpec(a: real, b: real)
    requires b != 0.0
    ensures exists q: int :: a == Multiple(b, q) + RealFloorMod(a, b)
    ensures b > 0.0 ==> 0.0 <= RealFloorMod(a, b) < b
    ensures b < 0.0 ==> b < RealFloorMod(a, b) <= 0.0
  {
    var q := (a / b).Floor;
    var d := FloorModIsScaledFraction(a, b);
    ScaledFractionBounds(b, d);
    assert a == Multiple(b, q) + RealFloorMod(a, b);
  }

  /** The remainder is the divisor times the fractional part of the quotient. */
  lemma FloorModIsScaledFraction(a: real, b: real) returns (d: real)
    requires b != 0.0
    ensures d == a / b - (a / b).Floor as real && 0.0 <= d < 1.0
    ensures RealFloorMod(a, b) == b * d
  {
    var f := a / b;
    var q := f.Floor as real;
    d := f - q;
    assert b * f == a;
    assert b * (f - q) == b * f - b * q;
  }

  lemma ScaledFractionBounds(b: real, d: real)
    requires 0.0 <= d < 1.0
    ensures b > 0.0 ==> 0.0 <= b * d < b
    ensures b < 0.0 ==> b < b * d <= 0.0
  {
  }

  /** `b * q` for an integer `q`. */
  function Multiple(b: real, q: int): real { b * q as real }

  /** `int()` of a float truncates toward zero. */
  lemma IntOfFloatTruncates(r: real)
    ensures IntOf(Float(r)).Ok?
    ensures var n := IntOf(Float(r)).value;
      (r >= 0.0 ==> 0 <= n && n as real <= r < n as real + 1.0) &&
      (r < 0.0 ==> n <= 0 && n as real - 1.0 < r <= n as real)
  {
  }

  /** `int()` of a string ignores whitespace around it. */
  lemma IntOfIgnoresBlanks(w1: string, s: string, w2: string)
    requires AllSpace(w1) && AllSpace(w2)
    ensures IntOf(Str(w1 + s + w2)) == IntOf(Str(s))
  {
    StripIgnoresBlanks(w1, s, w2);
  }

  /** So `btn(" 1")` reads button 1. */
  lemma BlankPaddedButton()
    ensures IntOf(Str(" 1")) == Ok(1)
  {
    var padded: string := " 1";
    assert padded == [' '] + "1" + [];
    IntOfIgnoresBlanks([' '], "1", []);
    OneDigit();
  }

  lemma OneDigit()
    ensures IntOf(Str("1")) == Ok(1)
  {
    IntOfDigitEnds("1");
    UnsignedLiteral("1");
  }

  /** One `_` between two digit runs is skipped. */
  lemma IntOfSeparator(d1: string, d2: string)
    requires |d1| > 0 && |d2| > 0 && AllDecimal(d1) && AllDecimal(d2)
    ensures IntOf(Str(d1 + "_" + d2)) == IntOf(Str(d1 + d2)) == Ok(DecimalValue(d1 + d2))
  {
    SeparatedEnds(d1, "_", d2);
    IntOfDigitEnds(d1 + "_" + d2);
    JoinedEnds(d1, d2);
    IntOfDigitEnds(d1 + d2);
    SeparatedLiteral(d1, d2);
  }

  /** Two `_` in a row are a ValueError. */
  lemma IntOfDoubleSeparator(d1: string, d2: string)
    requires |d1| > 0 && |d2| > 0 && AllDecimal(d1) && AllDecimal(d2)
    ensures IntOf(Str(d1 + "__" + d2)) == Err("ValueError")
  {
    SeparatedEnds(d1, "__", d2);
    IntOfDigitEnds(d1 + "__" + d2);
    DoubleSeparatorRejected(d1, d2);
  }

  lemma SeparatedEnds(d1: string, sep: string, d2: string)
    requires |d1| > 0 && |d2| > 0
    ensures (d1 + sep + d2)[0] == d1[0] && (d1 + sep + d2)[|d1 + sep + d2| - 1] == d2[|d2| - 1]
  {
  }

  lemma JoinedEnds(d1: string, d2: string)
    requires |d1| > 0 && |d2| > 0
    ensures (d1 + d2)[0] == d1[0] && (d1 + d2)[|d1 + d2| - 1] == d2[|d2| - 1]
  {
  }

  /** Text that starts and ends with a digit is read without stripping anything. */
  lemma IntOfDigitEnds(t: string)
    requires |t| > 0 && '0' <= t[0] <= '9' && '0' <= t[|t| - 1] <= '9'
    ensures IntOf(Str(t)) == DecimalLiteral(t)
  {
    StripTrimmed(t);
  }

  lemma DoubleSeparatorRejected(d1: string, d2: string)
    requires |d1| > 0 && AllDecimal(d1)
    ensures DecimalLiteral(d1 + "__" + d2) == Err("ValueError")
  {
    var two := d1 + "__" + d2;
    assert two[0] == d1[0];
    assert two[|d1|] == two[|d1| + 1] == '_';
  }

  lemma SeparatedLiteral(d1: string, d2: string)
    requires |d1| > 0 && |d2| > 0 && AllDecimal(d1) && AllDecimal(d2)
    ensures DecimalLiteral(d1 + "_" + d2) == DecimalLiteral(d1 + d2) == Ok(DecimalValue(d1 + d2))
  {
    SeparatedGrouped(d1, d2);
    SkipSeparator(d1, d2);
    UnsignedLiteral(d1 + "_" + d2);
    UnsignedLiteral(d1 + d2);
  }

  lemma SeparatedGrouped(d1: string, d2: string)
    requires |d1| > 0 && |d2| > 0 && AllDecimal(d1) && AllDecimal(d2)
    ensures Grouped(d1 + "_" + d2) && Grouped(d1 + d2)
  {
    var one, none := d1 + "_" + d2, d1 + d2;
    assert one[0] == d1[0] && one[|one| - 1] == d2[|d2| - 1];
    assert none[0] == d1[0] && none[|none| - 1] == d2[|d2| - 1];
    assert forall k :: 0 <= k < |one| ==> one[k] == '_' || '0' <= one[k] <= '9' by {
      forall k | 0 <= k < |one| ensures one[k] == '_' || '0' <= one[k] <= '9' {
        if k < |d1| { assert one[k] == d1[k]; } else if k > |d1| { assert one[k] == d2[k - |d1| - 1]; }
      }
    }
    assert forall k :: 0 < k < |one| ==> !(one[k - 1] == '_' && one[k] == '_') by {
      forall k | 0 < k < |one| ensures !(one[k - 1] == '_' && one[k] == '_') {
        if k <= |d1| { assert one[k - 1] == d1[k - 1]; } else { assert one[k] == d2[k - |d1| - 1]; }
      }
    }
  }

  /** A grouped literal has no sign, so it reads as its digits. */
  lemma UnsignedLiteral(t: string)
    requires Grouped(t)
    ensures DecimalLiteral(t) == Ok(DecimalValue(t))
  {
    assert t[0] != '+' && t[0] != '-';
  }

  /** A `_` inside a digit run does not change its value. */
  lemma {:induction false} SkipSeparator(a: string, d: string)
    requires DigitsOrSeparators(a) && DigitsOrSeparators(d)
    ensures DigitsOrSeparators(a + "_" + d) && DigitsOrSeparators(a + d)
    ensures DecimalValue(a + "_" + d) == DecimalValue(a + d)
    decreases |d|
  {
    var one, none := a + "_" + d, a + d;
    if d == [] {
      assert one[..|one| - 1] == a == none;
    } else {
      var d' := d[..|d| - 1];
      assert one[..|one| - 1] == a + "_" + d';
      assert none[..|none| - 1] == a + d';
      assert one[|one| - 1] == none[|none| - 1] == d[|d| - 1];
      SkipSeparator(a, d');
    }
  }

  /** String order is a strict total order. */
  lemma {:induction false} StrLessTrichotomy(a: string, b: string)
    ensures StrLess(a, b) || a == b || StrLess(b, a)
    ensures !(StrLess(a, b) && StrLess(b, a))
    ensures !StrLess(a, a)
    decreases |a|
  {
    if a != [] && b != [] && a[0] == b[0] {
      StrLessTrichotomy(a[1..], b[1..]);
      if a[1..] == b[1..] {
        assert a == [a[0]] + a[1..] && b == [b[0]] + b[1..];
      }
    }
    if a != [] {
      StrLessTrichotomy(a[1..], a[1..]);
    }
  }

  lemma {:induction false} StrLessTransitive(a: string, b: string, c: string)
    requires StrLess(a, b) && StrLess(b, c)
    ensures StrLess(a, c)
    decreases |a|
  {
    if a != [] && b != [] && c != [] && a[0] == b[0] && b[0] == c[0] {
      StrLessTransitive(a[1..], b[1..], c[1..]);
    }
  }

  /** Exactly one of `<`, `==`, `>` holds for two numbers or two strings. */
  lemma ComparisonTrichotomy(a: Value, b: Value)
    requires (IsNumber(a) && IsNumber(b)) || (a.Str? && b.Str?)
    ensures Less(a, b).Some? && Less(b, a).Some?
    ensures LessEq(a, b) == Some(Less(a, b).value || Equal(a, b))
    ensures (if Less(a, b).value then 1 else 0) + (if Equal(a, b) then 1 else 0) +
            (if Less(b, a).value then 1 else 0) == 1
  {
    if a.Str? && b.Str? {
      StrLessTrichotomy(a.s, b.s);
    }
  }
}
