/**
 * The string primitives of the JavaScript runtime that the catalogue relies
 * on: `?` counting for SQL placeholders, `join`, `split`, `trim`,
 * `startsWith`, `includes`, case mapping, `String(n)` and `parseInt`.
 */
module Text {
  import opened Wrappers

  // ---------------------------------------------------------------------
  // Placeholders

  /** Number of `?` placeholders in an SQL text. */
  function Placeholders(s: string): nat
  {
    if s == [] then 0 else Placeholders(s[..|s| - 1]) + (if s[|s| - 1] == '?' then 1 else 0)
  }

  lemma {:induction false} PlaceholdersConcat(a: string, b: string)
    ensures Placeholders(a + b) == Placeholders(a) + Placeholders(b)
    decreases |b|
  {
    if b == [] {
      assert a + b == a;
    } else {
      assert (a + b)[..|a + b| - 1] == a + b[..|b| - 1];
      PlaceholdersConcat(a, b[..|b| - 1]);
    }
  }

  /** A text without `?` has no placeholder. */
  lemma {:induction false} NoPlaceholders(s: string)
    requires '?' !in s
    ensures Placeholders(s) == 0
  {
    if s != [] {
      assert s == s[..|s| - 1] + [s[|s| - 1]];
      NoPlaceholders(s[..|s| - 1]);
    }
  }

  lemma OnePlaceholder()
    ensures Placeholders("?") == 1
  {
    assert "?"[..0] == [];
  }

  /** The concatenation of a list of text chunks. */
  function Concat(chunks: seq<string>): string
  {
    if chunks == [] then "" else chunks[0] + Concat(chunks[1..])
  }

  /** How many of the chunks are a lone `?`. */
  function Marks(chunks: seq<string>): nat
  {
    if chunks == [] then 0 else (if chunks[0] == "?" then 1 else 0) + Marks(chunks[1..])
  }

  /** Counting placeholders chunk by chunk, for a text cut into lone `?` and `?`-free pieces. */
  lemma {:induction false} ChunksPlaceholders(chunks: seq<string>)
    requires forall i :: 0 <= i < |chunks| ==> chunks[i] == "?" || '?' !in chunks[i]
    ensures Placeholders(Concat(chunks)) == Marks(chunks)
  {
    if chunks != [] {
      ChunksPlaceholders(chunks[1..]);
      if chunks[0] == "?" {
        OnePlaceholder();
      } else {
        NoPlaceholders(chunks[0]);
      }
      PlaceholdersConcat(chunks[0], Concat(chunks[1..]));
    }
  }

  /** `xs.join(sep)`. */
  function Join(sep: string, xs: seq<string>): string
  {
    if xs == [] then "" else if |xs| == 1 then xs[0] else xs[0] + sep + Join(sep, xs[1..])
  }

  /** Joining one more text puts it after one more separator. */
  lemma {:induction false} JoinSnoc(sep: string, xs: seq<string>, x: string)
    requires xs != []
    ensures Join(sep, xs + [x]) == Join(sep, xs) + sep + x
  {
    assert (xs + [x])[0] == xs[0];
    if |xs| == 1 {
      assert (xs + [x])[1..] == [x];
    } else {
      assert (xs + [x])[1..] == xs[1..] + [x];
      JoinSnoc(sep, xs[1..], x);
    }
  }

  /** Sum of the placeholders of a list of texts. */
  function PlaceholdersAll(xs: seq<string>): nat
  {
    if xs == [] then 0 else Placeholders(xs[0]) + PlaceholdersAll(xs[1..])
  }

  lemma {:induction false} PlaceholdersAllAppend(xs: seq<string>, ys: seq<string>)
    ensures PlaceholdersAll(xs + ys) == PlaceholdersAll(xs) + PlaceholdersAll(ys)
  {
    if xs == [] {
      assert xs + ys == ys;
    } else {
      assert (xs + ys)[1..] == xs[1..] + ys;
      PlaceholdersAllAppend(xs[1..], ys);
    }
  }

  /** Joining with a separator free of `?` adds no placeholder. */
  lemma {:induction false} PlaceholdersJoin(sep: string, xs: seq<string>)
    requires Placeholders(sep) == 0
    ensures Placeholders(Join(sep, xs)) == PlaceholdersAll(xs)
  {
    if |xs| > 1 {
      PlaceholdersJoin(sep, xs[1..]);
      PlaceholdersConcat(xs[0], sep);
      PlaceholdersConcat(xs[0] + sep, Join(sep, xs[1..]));
    }
  }

  // ---------------------------------------------------------------------
  // split

  /** `s.split(sep)` for a one-character separator: the pieces between separators. */
  function Split(s: string, sep: char): (pieces: seq<string>)
    ensures |pieces| >= 1
    ensures forall i :: 0 <= i < |pieces| ==> sep !in pieces[i]
  {
    if s == [] then [""]
    else
      var rest := Split(s[1..], sep);
      if s[0] == sep then [""] + rest else [[s[0]] + rest[0]] + rest[1..]
  }

  /** Joining the pieces with the separator gives back the text. */
  lemma {:induction false} SplitJoin(s: string, sep: char)
    ensures Join([sep], Split(s, sep)) == s
  {
    if s != [] {
      var rest := Split(s[1..], sep);
      SplitJoin(s[1..], sep);
      if s[0] == sep {
        assert Split(s, sep) == [""] + rest;
        assert s == [sep] + s[1..];
      } else {
        var ps := Split(s, sep);
        assert ps == [[s[0]] + rest[0]] + rest[1..];
        if |rest| == 1 {
          assert Join([sep], rest) == rest[0];
        } else {
          assert Join([sep], rest) == rest[0] + [sep] + Join([sep], rest[1..]);
          assert ps[1..] == rest[1..];
        }
      }
    }
  }

  /** Text without the separator is a single piece. */
  lemma {:induction false} SplitWhole(s: string, sep: char)
    requires sep !in s
    ensures Split(s, sep) == [s]
  {
    if s != [] {
      SplitWhole(s[1..], sep);
      assert [s[0]] + s[1..] == s;
    }
  }

  // ---------------------------------------------------------------------
  // Whitespace and trim

  /** The characters `String.prototype.trim` removes (white space and line terminators). */
  predicate IsSpace(c: char)
  {
    c == ' ' || c == '\t' || c == '\n' || c == '\r' || c == '\U{000B}' || c == '\U{000C}'
    || c == '\U{00A0}' || c == '\U{1680}' || ('\U{2000}' <= c <= '\U{200A}')
    || c == '\U{2028}' || c == '\U{2029}' || c == '\U{202F}' || c == '\U{205F}'
    || c == '\U{3000}' || c == '\U{FEFF}'
  }

  /** `s.trimStart()`: drop the leading white space. */
  function TrimStart(s: string): (r: string)
    ensures |r| <= |s| && r == s[|s| - |r|..]
    ensures forall i :: 0 <= i < |s| - |r| ==> IsSpace(s[i])
    ensures r != [] ==> !IsSpace(r[0])
  {
    if s != [] && IsSpace(s[0]) then
      var r := TrimStart(s[1..]);
      assert forall i :: 1 <= i < |s| - |r| ==> s[i] == s[1..][i - 1];
      r
    else s
  }

  /** `s.trimEnd()`: drop the trailing white space. */
  function TrimEnd(s: string): (r: string)
    ensures |r| <= |s| && r == s[..|r|]
    ensures forall i :: |r| <= i < |s| ==> IsSpace(s[i])
    ensures r != [] ==> !IsSpace(r[|r| - 1])
  {
    if s != [] && IsSpace(s[|s| - 1]) then TrimEnd(s[..|s| - 1]) else s
  }

  /** `s.trim()`. */
  function Trim(s: string): string
  {
    TrimEnd(TrimStart(s))
  }

  /** A text is blank, i.e. `s.trim().length === 0`, iff every character is white space. */
  lemma TrimEmptyIffBlank(s: string)
    ensures Trim(s) == [] <==> forall i :: 0 <= i < |s| ==> IsSpace(s[i])
  {
  }

  /** `s.startsWith(p)`. */
  predicate StartsWith(s: string, p: string)
  {
    |p| <= |s| && s[..|p|] == p
  }

  /** `s.includes(sub)`. */
  lemma StartsWithAppend(a: string, b: string, p: string)
    requires StartsWith(a, p)
    ensures StartsWith(a + b, p)
  {
    assert (a + b)[..|p|] == a[..|p|];
  }

  predicate Contains(s: string, sub: string)
  {
    exists i | 0 <= i <= |s| - |sub| :: OccursAt(s, sub, i)
  }

  /** `sub` occurs in `s` starting at position `i`. */
  predicate OccursAt(s: string, sub: string, i: nat)
    requires i + |sub| <= |s|
  {
    s[i..i + |sub|] == sub
  }

  lemma ContainsEmpty(s: string)
    ensures Contains(s, "")
  {
    assert OccursAt(s, "", 0);
  }

  // ---------------------------------------------------------------------
  // Case mapping (Basic Latin and Latin-1 Supplement)

  /** Upper-case mapping of one character, for the letters of Basic Latin and Latin-1. */
  function UpperChar(c: char): char
  {
    if 'a' <= c <= 'z' || ('\U{00E0}' <= c <= '\U{00FE}' && c != '\U{00F7}') then (c as int - 32) as char
    else if c == '\U{00FF}' then '\U{0178}'
    else if c == '\U{00B5}' then '\U{039C}'
    else c
  }

  /** Lower-case mapping of one character, for the letters of Basic Latin and Latin-1. */
  function LowerChar(c: char): char
  {
    if 'A' <= c <= 'Z' || ('\U{00C0}' <= c <= '\U{00DE}' && c != '\U{00D7}') then (c as int + 32) as char
    else c
  }

  /** `s.toUpperCase()`, character by character. */
  function Upper(s: string): (r: string)
    ensures |r| == |s| && forall i :: 0 <= i < |s| ==> r[i] == UpperChar(s[i])
  {
    if s == [] then [] else [UpperChar(s[0])] + Upper(s[1..])
  }

  /** `s.toLowerCase()`, character by character. */
  function Lower(s: string): (r: string)
    ensures |r| == |s| && forall i :: 0 <= i < |s| ==> r[i] == LowerChar(s[i])
  {
    if s == [] then [] else [LowerChar(s[0])] + Lower(s[1..])
  }

  // ---------------------------------------------------------------------
  // Numbers as text

  predicate IsDigit(c: char)
  {
    '0' <= c <= '9'
  }

  function DigitChar(d: nat): char
    requires d < 10
  {
    ('0' as int + d) as char
  }

  /** `String(n)` for a natural number: its decimal digits, no leading zero. */
  function NatToString(n: nat): (r: string)
    ensures |r| >= 1 && forall i :: 0 <= i < |r| ==> IsDigit(r[i])
    ensures '-' !in r && '?' !in r
  {
    if n < 10 then [DigitChar(n)] else NatToString(n / 10) + [DigitChar(n % 10)]
  }

  /** `String(i)` for an integer. */
  function IntToString(i: int): string
  {
    if i < 0 then "-" + NatToString(-i) else NatToString(i)
  }

  /** Value of a run of decimal digits. */
  function DigitsValue(ds: string): nat
    requires forall i :: 0 <= i < |ds| ==> IsDigit(ds[i])
  {
    if ds == [] then 0
    else
      assert IsDigit(ds[|ds| - 1]);
      DigitsValue(ds[..|ds| - 1]) * 10 + (ds[|ds| - 1] as int - '0' as int)
  }

  /** The longest prefix of `s` made of decimal digits. */
  function DigitPrefix(s: string): (ds: string)
    ensures StartsWith(s, ds) && forall i :: 0 <= i < |ds| ==> IsDigit(ds[i])
    ensures |ds| < |s| ==> !IsDigit(s[|ds|])
  {
    if s != [] && IsDigit(s[0]) then [s[0]] + DigitPrefix(s[1..]) else ""
  }

  /**
   * `parseInt(s)` with no radix: leading white space, an optional sign, then
   * the longest run of hexadecimal digits after a `0x`/`0X` prefix, or else
   * the longest run of decimal digits; `None` stands for NaN.
   */
  function ParseIntText(s: string): Option<int>
  {
    SignedDigits(TrimStart(s))
  }

  /** An optional sign, then the digit run; `-` negates it. */
  function SignedDigits(t: string): Option<int>
  {
    if t != [] && t[0] == '-' then Negated(RadixRun(t[1..]))
    else if t != [] && t[0] == '+' then RadixRun(t[1..])
    else RadixRun(t)
  }

  /** With no radix given, a `0x` or `0X` prefix selects base 16 and any other text base 10. */
  predicate HexPrefixed(b: string)
  {
    |b| >= 2 && b[0] == '0' && (b[1] == 'x' || b[1] == 'X')
  }

  /** The digits after the sign, read in the base the prefix selects. */
  function RadixRun(b: string): Option<int>
  {
    if HexPrefixed(b) then HexRun(b[2..]) else DigitRun(b)
  }

  predicate IsHexDigit(c: char)
  {
    IsDigit(c) || 'a' <= c <= 'f' || 'A' <= c <= 'F'
  }

  function HexDigitValue(c: char): (d: nat)
    requires IsHexDigit(c)
    ensures d < 16
  {
    if IsDigit(c) then c as int - '0' as int
    else if 'a' <= c <= 'f' then c as int - 'a' as int + 10
    else c as int - 'A' as int + 10
  }

  /** Value of a run of hexadecimal digits. */
  function HexValue(ds: string): nat
    requires forall i :: 0 <= i < |ds| ==> IsHexDigit(ds[i])
  {
    if ds == [] then 0
    else
      assert IsHexDigit(ds[|ds| - 1]);
      HexValue(ds[..|ds| - 1]) * 16 + HexDigitValue(ds[|ds| - 1])
  }

  /** The longest prefix of `s` made of hexadecimal digits. */
  function HexPrefix(s: string): (ds: string)
    ensures StartsWith(s, ds) && forall i :: 0 <= i < |ds| ==> IsHexDigit(ds[i])
    ensures |ds| < |s| ==> !IsHexDigit(s[|ds|])
  {
    if s != [] && IsHexDigit(s[0]) then [s[0]] + HexPrefix(s[1..]) else ""
  }

  /** The value of the leading hexadecimal digits; `None` when there are none. */
  function HexRun(b: string): Option<int>
  {
    var ds := HexPrefix(b);
    if ds == [] then None else Some(HexValue(ds) as int)
  }

  function Negated(n: Option<int>): Option<int>
  {
    if n.Some? then Some(-n.value) else None
  }

  /** The value of the leading digits; `None` when there are none. */
  function DigitRun(b: string): Option<int>
  {
    var ds := DigitPrefix(b);
    if ds == [] then None else Some(DigitsValue(ds) as int)
  }

  lemma {:induction false} DigitsValueOfNat(n: nat)
    ensures DigitsValue(NatToString(n)) == n
  {
    var r := NatToString(n);
    if n >= 10 {
      DigitsValueOfNat(n / 10);
      assert r[..|r| - 1] == NatToString(n / 10);
    }
  }

  lemma {:induction false} DigitPrefixAllDigits(s: string)
    requires forall i :: 0 <= i < |s| ==> IsDigit(s[i])
    ensures DigitPrefix(s) == s
  {
    if s != [] {
      DigitPrefixAllDigits(s[1..]);
    }
  }

  /** Concatenation regroups freely; stated once so that long literals need not be compared character by character. */
  lemma AppendAssoc<T>(a: seq<T>, b: seq<T>, c: seq<T>)
    ensures a + b + c == a + (b + c)
  {
  }

  /** `n` spaces, as in the indentation of a multi-line statement. */
  function Indent(n: nat): string
  {
    if n == 0 then "" else " " + Indent(n - 1)
  }

  lemma {:induction false} IndentSpaces(n: nat)
    ensures |Indent(n)| == n && Placeholders(Indent(n)) == 0
    ensures forall i :: 0 <= i < |Indent(n)| ==> IsSpace(Indent(n)[i])
  {
    if n > 0 {
      IndentSpaces(n - 1);
      NoPlaceholders(" ");
      PlaceholdersConcat(" ", Indent(n - 1));
    }
  }

  /** Leading white space is exactly what `trimStart` removes. */
  lemma {:induction false} TrimStartSpaces(ws: string, s: string)
    requires forall i :: 0 <= i < |ws| ==> IsSpace(ws[i])
    ensures TrimStart(ws + s) == TrimStart(s)
  {
    if ws != [] {
      assert (ws + s)[1..] == ws[1..] + s;
      TrimStartSpaces(ws[1..], s);
    } else {
      assert ws + s == s;
    }
  }

  lemma TrimEndNoSpace(s: string)
    requires s != [] && !IsSpace(s[|s| - 1])
    ensures TrimEnd(s) == s
  {
  }

  /** A trimmed text closed with a `;` is its own trim. */
  lemma TrimmedClosed(s: string)
    ensures Trim(Trim(s) + ";") == Trim(s) + ";"
  {
    var core := Trim(s);
    var t := core + ";";
    if core != [] {
      assert core == TrimStart(s)[..|core|];
      assert t[0] == core[0];
    }
    assert !IsSpace(';');
    TrimStartNoSpace(t);
    TrimEndNoSpace(t);
  }

  lemma TrimStartNoSpace(s: string)
    requires s != [] && !IsSpace(s[0])
    ensures TrimStart(s) == s
  {
  }

  /** `parseInt(String(i)) === i`: printing then parsing an integer gives it back. */
  lemma ParseIntOfIntToString(i: int)
    ensures ParseIntText(IntToString(i)) == Some(i)
  {
    var n: nat := if i < 0 then -i else i;
    DigitsValueOfNat(n);
    if i < 0 {
      NegativeRun(NatToString(n));
      DigitRunOfDigits(NatToString(n));
    } else {
      ParseDigits(NatToString(n));
    }
  }

  /** A run of digits parses as its value. */
  lemma ParseDigits(r: string)
    requires r != [] && forall i :: 0 <= i < |r| ==> IsDigit(r[i])
    ensures ParseIntText(r) == Some(DigitsValue(r) as int)
  {
    assert IsDigit(r[0]);
    ParseUnindented(r);
    DigitRunOfDigits(r);
  }

  /** Text that does not start with white space is parsed as it stands. */
  lemma ParseUnindented(t: string)
    requires t != [] && !IsSpace(t[0])
    ensures ParseIntText(t) == SignedDigits(t)
  {
    TrimStartNoSpace(t);
  }

  /** A minus sign in front negates the digit run. */
  lemma NegativeRun(r: string)
    ensures ParseIntText("-" + r) == Negated(RadixRun(r))
  {
    var t := "-" + r;
    assert t[0] == '-' && t[1..] == r;
    ParseUnindented(t);
  }

  /** A run of decimal digits is read in base 10: its second character is never an `x`. */
  lemma DigitRunOfDigits(r: string)
    requires r != [] && forall i :: 0 <= i < |r| ==> IsDigit(r[i])
    ensures RadixRun(r) == Some(DigitsValue(r) as int)
  {
    if |r| >= 2 {
      assert IsDigit(r[1]);
    }
    DigitPrefixAllDigits(r);
  }

  /**
   * `parseInt` reads the leading digits and ignores whatever follows them,
   * as long as what follows does not turn a lone `0` into a `0x` prefix.
   */
  lemma ParseIntLeadingDigits(ds: string, rest: string)
    requires ds != [] && forall i :: 0 <= i < |ds| ==> IsDigit(ds[i])
    requires rest != [] ==> !IsDigit(rest[0]) && rest[0] != 'x' && rest[0] != 'X'
    ensures ParseIntText(ds + rest) == Some(DigitsValue(ds) as int)
  {
    var t := ds + rest;
    assert t[0] == ds[0] && IsDigit(t[0]);
    ParseUnindented(t);
    if |t| >= 2 {
      assert t[1] == if |ds| >= 2 then ds[1] else rest[0];
    }
    DigitPrefixOfRun(ds, rest);
  }

  lemma {:induction false} DigitPrefixOfRun(ds: string, rest: string)
    requires forall i :: 0 <= i < |ds| ==> IsDigit(ds[i])
    requires rest != [] ==> !IsDigit(rest[0])
    ensures DigitPrefix(ds + rest) == ds
  {
    if ds != [] {
      assert (ds + rest)[0] == ds[0];
      assert (ds + rest)[1..] == ds[1..] + rest;
      DigitPrefixOfRun(ds[1..], rest);
    } else {
      assert ds + rest == rest;
    }
  }

  /** `parseInt("0x10")` is 16, and the prefix alone is NaN. */
  lemma HexText()
    ensures ParseIntText("0x10") == Some(16)
    ensures ParseIntText("0x") == None
  {
    HexParsed("0x10");
    assert "0x10"[2..] == "10";
    HexSixteen();
    HexParsed("0x");
    assert "0x"[2..] == [];
  }

  /** Unsigned text with the prefix is read as the hexadecimal run after it. */
  lemma HexParsed(t: string)
    requires HexPrefixed(t)
    ensures ParseIntText(t) == HexRun(t[2..])
  {
    assert !IsSpace(t[0]);
    ParseUnindented(t);
  }

  lemma HexSixteen()
    ensures HexRun("10") == Some(16)
  {
    assert HexPrefix("10") == "10";
    assert "10"[..1] == "1" && "1"[..0] == "";
    assert HexValue("1") == 1;
  }

}
