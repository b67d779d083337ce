/**
 * How JavaScript reads text as a number, in the forms the backend relies on:
 * `Number(s)` (behind `isNaN(id)` and the arithmetic on a counted total) and
 * the string-to-number conversion that Joi's `number()` applies before its rules.
 */
module Numeric {
  import opened Wrappers
  import opened Text
  import opened JsValue

  function Pow10(n: nat): (p: nat)
    ensures p >= 1
  {
    if n == 0 then 1 else 10 * Pow10(n - 1)
  }

  /** `x * 10^e` for a signed exponent. */
  function Scale(x: real, e: int): real
  {
    if e >= 0 then x * Pow10(e) as real else x / Pow10(-e) as real
  }

  /** An optional leading sign: whether it is a minus, and the text after it. */
  function SignSplit(t: string): (bool, string)
  {
    if t != [] && (t[0] == '-' || t[0] == '+') then (t[0] == '-', t[1..]) else (false, t)
  }

  /** A run of one or more decimal digits and nothing else. */
  predicate AllDigits(w: string)
  {
    w != [] && DigitPrefix(w) == w
  }

  /** The exponent part `e[+-]digits` ending the text; `Some(0)` when there is none. */
  function Exponent(r: string): Option<int>
  {
    if r == [] then Some(0)
    else if r[0] != 'e' && r[0] != 'E' then None
    else
      var w := SignSplit(r[1..]);
      if AllDigits(w.1) then
        var n := DigitsValue(w.1) as int;
        Some(if w.0 then -n else n)
      else None
  }

  /**
   * A decimal literal standing alone, `[+-] (digits [. digits] | . digits) [e [+-] digits]`
   * with every part but one digit optional, and its value.
   */
  function DecimalValue(t: string): Option<real>
  {
    var s := SignSplit(t);
    match Unsigned(s.1)
    case None => None
    case Some(m) => Some(if s.0 then -m else m)
  }

  /** The literal after its sign: the integer digits, then the rest. */
  function Unsigned(u: string): Option<real>
  {
    var a := DigitPrefix(u);
    Fraction(a, u[|a|..])
  }

  /** After the integer digits: an optional dot with its own digits, then the exponent. */
  function Fraction(a: string, r: string): Option<real>
    requires forall i :: 0 <= i < |a| ==> IsDigit(a[i])
  {
    if r != [] && r[0] == '.' then
      var b := DigitPrefix(r[1..]);
      Mantissa(a, b, r[1 + |b|..])
    else Mantissa(a, "", r)
  }

  /** Integer digits `a` and fraction digits `b`, at least one of them, scaled by the exponent `rest`. */
  function Mantissa(a: string, b: string, rest: string): Option<real>
    requires forall i :: 0 <= i < |a| ==> IsDigit(a[i])
    requires forall i :: 0 <= i < |b| ==> IsDigit(b[i])
  {
    if a == [] && b == [] then None
    else
      match Exponent(rest)
      case None => None
      case Some(e) => Some(Scale(DigitsValue(a) as real + DigitsValue(b) as real / Pow10(|b|) as real, e))
  }

  /** A `0x`, `0o` or `0b` integer literal, which `Number` accepts without a sign. */
  predicate NonDecimal(t: string)
  {
    |t| >= 3 && t[0] == '0' &&
    ((t[1] in "xX" && forall i :: 2 <= i < |t| ==> IsHexDigit(t[i])) ||
     (t[1] in "oO" && forall i :: 2 <= i < |t| ==> '0' <= t[i] <= '7') ||
     (t[1] in "bB" && forall i :: 2 <= i < |t| ==> t[i] in "01"))
  }

  /**
   * `!isNaN(s)` for a string: after trimming it is empty, a decimal literal,
   * `Infinity` with an optional sign, or a non-decimal integer literal.
   */
  predicate IsNumericText(s: string)
  {
    var t := Trim(s);
    t == "" || DecimalValue(t).Some? || SignSplit(t).1 == "Infinity" || NonDecimal(t)
  }

  /** `Number(s)` for decimal text, blank text being 0; `None` is NaN (and the forms `Number` reads as infinite or non-decimal). */
  function TextNumber(s: string): Option<real>
  {
    var t := Trim(s);
    if t == "" then Some(0.0) else DecimalValue(t)
  }

  /**
   * `isNaN(s)` is false exactly where `Number(s)` reads decimal text, blank
   * text, `Infinity` or a non-decimal integer literal; of these the model's
   * `Number` gives a value for the blank and the decimal ones.
   */
  lemma NumericIffDecimal(s: string)
    ensures TextNumber(s).Some? ==> IsNumericText(s)
    ensures IsNumericText(s) && SignSplit(Trim(s)).1 != "Infinity" && !NonDecimal(Trim(s)) ==> TextNumber(s).Some?
    ensures TextNumber(s).Some? && Trim(s) != "" ==> TextNumber(s) == DecimalValue(Trim(s))
  {
  }

  /** The empty text is not a decimal literal: `Number` reads it as 0 only because it is blank. */
  lemma NoEmptyDecimal()
    ensures DecimalValue("") == None
  {
    assert SignSplit("") == (false, "");
    assert DigitPrefix("") == "";
    assert Mantissa("", "", "") == None;
  }

  /** `isNaN` is false of an untrimmed-free non-decimal integer literal such as `0x10`. */
  lemma NonDecimalIsNumeric(t: string)
    requires Trim(t) == t && NonDecimal(t)
    ensures IsNumericText(t)
  {
  }

  /** `isNaN("0x10")` is false: `Number` reads hexadecimal text. */
  lemma HexIsNumeric()
    ensures IsNumericText("0x10")
  {
    HexUntrimmed();
    HexLiteral();
    NonDecimalIsNumeric("0x10");
  }

  lemma HexUntrimmed()
    ensures TrimStart("0x10") == "0x10" && TrimEnd("0x10") == "0x10"
  {
    assert !IsSpace('0');
  }

  lemma HexLiteral()
    ensures NonDecimal("0x10")
  {
    var t := "0x10";
    assert t[1] in "xX" && IsHexDigit(t[2]) && IsHexDigit(t[3]);
  }

  /** `Number(v)`, the conversion arithmetic applies to a value. */
  function ToNumber(v: Value): (r: Option<real>)
    ensures v.Num? ==> r == Some(v.x)
    ensures v.Str? && r.Some? ==> IsNumericText(v.s)
  {
    match v
    case Undefined => None
    case Null => Some(0.0)
    case NaN => None
    case Bool(b) => Some(if b then 1.0 else 0.0)
    case Num(x) => Some(x)
    case Str(s) => TextNumber(s)
    case List(items) => TextNumber(Join(",", items))
  }

  /** Joi's `number()` conversion: a number is kept; a string is read when it is a decimal literal between white space. */
  function JoiNumber(v: Value): (r: Option<real>)
    ensures v.Num? ==> r == Some(v.x)
    // Joi reads a string only where `Number` reads it, and to the same value
    ensures r.Some? && !v.Num? ==> v.Str? && IsNumericText(v.s) && ToNumber(v) == r
  {
    match v
    case Num(x) => Some(x)
    case Str(s) => NoEmptyDecimal(); DecimalValue(Trim(s))
    case _ => None
  }

  /** The decimal text of an integer reads back as that integer. */
  lemma DecimalOfInt(i: int)
    ensures DecimalValue(IntToString(i)) == Some(i as real)
  {
    var n: nat := if i < 0 then -i else i;
    var ds := NatToString(n);
    DigitsValueOfNat(n);
    DigitsUnsigned(ds);
    if i < 0 {
      var t := "-" + ds;
      assert t[0] == '-' && t[1..] == ds;
      assert SignSplit(t) == (true, ds);
    } else {
      assert IsDigit(ds[0]);
      assert SignSplit(ds) == (false, ds);
    }
  }

  /** A digit run with nothing after it has no fraction and no exponent. */
  lemma DigitsUnsigned(ds: string)
    requires ds != [] && forall i :: 0 <= i < |ds| ==> IsDigit(ds[i])
    ensures Unsigned(ds) == Some(DigitsValue(ds) as real)
  {
    DigitPrefixAllDigits(ds);
    assert ds[|ds|..] == [];
    assert Unsigned(ds) == Fraction(ds, []);
    assert Fraction(ds, []) == Mantissa(ds, "", []);
    WholeMantissa(ds);
  }

  /** Integer digits alone, without fraction digits or exponent, denote their own value. */
  lemma WholeMantissa(a: string)
    requires a != [] && forall i :: 0 <= i < |a| ==> IsDigit(a[i])
    ensures Mantissa(a, "", []) == Some(DigitsValue(a) as real)
  {
    assert Exponent([]) == Some(0);
    assert DigitsValue("") == 0 && Pow10(0) == 1;
    ScaleNone(DigitsValue(a) as real);
  }

  lemma ScaleNone(x: real)
    ensures Scale(x + 0 as real / 1 as real, 0) == x
  {
  }

  /** The printed form of an integer is numeric text, read as that integer. */
  lemma NumberOfIntText(i: int)
    ensures IsNumericText(IntToString(i))
    ensures TextNumber(IntToString(i)) == Some(i as real)
    ensures JoiNumber(Str(IntToString(i))) == Some(i as real)
  {
    var s := IntToString(i);
    DecimalOfInt(i);
    var n: nat := if i < 0 then -i else i;
    assert s[0] == '-' || IsDigit(s[0]);
    assert IsDigit(s[|s| - 1]);
    TrimOfSolid(s);
  }

  /** Text that neither starts nor ends with white space is its own trim. */
  lemma TrimOfSolid(s: string)
    requires s != [] && !IsSpace(s[0]) && !IsSpace(s[|s| - 1])
    ensures Trim(s) == s
  {
    TrimStartNoSpace(s);
  }

  /** Text ending in a letter from `g` to `x`, none of them a hexadecimal digit or the `y` of `Infinity`, is NaN. */
  lemma TrailingLetterIsNaN(s: string, c: char)
    requires 'g' <= c <= 'x'
    ensures !IsNumericText(s + [c])
  {
    var x := s + [c];
    TrimKeepsLast(x);
    LetterEnd(Trim(x), c);
  }

  lemma LetterEnd(t: string, c: char)
    requires 'g' <= c <= 'x' && t != [] && t[|t| - 1] == c
    ensures DecimalValue(t).None? && SignSplit(t).1 != "Infinity" && !NonDecimal(t)
  {
    var u := SignSplit(t).1;
    assert t[|t| - |u|..] == u;
    if Unsigned(u).Some? {
      UnsignedEnd(u);
    }
    LetterNotInfinity(u);
    LetterNotNonDecimal(t, c);
  }

  lemma LetterNotInfinity(u: string)
    requires u != [] && 'g' <= u[|u| - 1] <= 'x'
    ensures u != "Infinity"
  {
  }

  lemma LetterNotNonDecimal(t: string, c: char)
    requires 'g' <= c <= 'x' && t != [] && t[|t| - 1] == c
    ensures !NonDecimal(t)
  {
    if |t| >= 3 {
      assert !IsHexDigit(t[|t| - 1]);
      assert t[|t| - 1] !in "01";
    }
  }

  /** Trimming keeps a last character that is not white space. */
  lemma TrimKeepsLast(x: string)
    requires x != [] && !IsSpace(x[|x| - 1])
    ensures Trim(x) != [] && Trim(x)[|Trim(x)| - 1] == x[|x| - 1]
  {
    var r := TrimStart(x);
    assert r[|r| - 1] == x[|x| - 1];
  }

  /** A literal ends in a digit or in its dot. */
  lemma UnsignedEnd(u: string)
    requires Unsigned(u).Some?
    ensures u != [] && (IsDigit(u[|u| - 1]) || u[|u| - 1] == '.')
  {
    var a := DigitPrefix(u);
    var r := u[|a|..];
    assert u == a + r;
    if r != [] && r[0] == '.' {
      DotEnd(a, r);
    } else {
      NoDotEnd(a, r);
    }
  }

  lemma NoDotEnd(a: string, r: string)
    requires forall i :: 0 <= i < |a| ==> IsDigit(a[i])
    requires !(r != [] && r[0] == '.') && Fraction(a, r).Some?
    ensures a + r != [] && IsDigit((a + r)[|a + r| - 1])
  {
    assert Mantissa(a, "", r).Some?;
    ExponentEnd(r);
    if r == [] {
      assert a != [] && a + r == a;
    } else {
      LastOfAppend(a, r);
    }
  }

  lemma DotEnd(a: string, r: string)
    requires forall i :: 0 <= i < |a| ==> IsDigit(a[i])
    requires r != [] && r[0] == '.' && Fraction(a, r).Some?
    ensures IsDigit((a + r)[|a + r| - 1]) || (a + r)[|a + r| - 1] == '.'
  {
    var b := DigitPrefix(r[1..]);
    var rest := r[1 + |b|..];
    assert Mantissa(a, b, rest).Some?;
    ExponentEnd(rest);
    if rest == [] {
      LastOfAppend(a, r);
      if b != [] {
        assert r == "." + b;
        LastOfAppend(".", b);
      }
    } else {
      LastOfAppend(a, r);
      assert r == r[..|r| - |rest|] + rest;
      LastOfAppend(r[..|r| - |rest|], rest);
    }
  }

  lemma LastOfAppend(x: string, y: string)
    requires y != []
    ensures (x + y)[|x + y| - 1] == y[|y| - 1]
  {
  }

  lemma ExponentEnd(rest: string)
    requires Exponent(rest).Some?
    ensures rest != [] ==> IsDigit(rest[|rest| - 1])
  {
    if rest != [] {
      var w := SignSplit(rest[1..]);
      assert rest[|rest| - |w.1|..] == w.1;
      assert IsDigit(w.1[|w.1| - 1]);
    }
  }
}
