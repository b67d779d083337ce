/**
 * The `fotos` column codec: a photo list is stored as the JSON text of an
 * array of strings (`JSON.stringify`) and read back with `JSON.parse`.
 * The encoder writes the compact form `["a","b"]`, escaping `"` and `\`;
 * the decoder accepts exactly that form.
 */
module PhotoCodec {
  import opened Wrappers

  /** One character of a JSON string body. */
  function EscapeChar(c: char): string
  {
    if c == '"' || c == '\\' then ['\\', c] else [c]
  }

  /** A JSON string body: every `"` and `\` preceded by a backslash. */
  function Escape(s: string): string
  {
    if s == [] then "" else EscapeChar(s[0]) + Escape(s[1..])
  }

  /** `JSON.stringify` of one string. */
  function Quote(s: string): string
  {
    "\"" + Escape(s) + "\""
  }

  /** The elements after the first one, each preceded by a comma, then the closing bracket. */
  function EncodeTail(ys: seq<string>): string
  {
    if ys == [] then "]" else "," + Quote(ys[0]) + EncodeTail(ys[1..])
  }

  /** `JSON.stringify(xs)` for an array of strings. */
  function Encode(xs: seq<string>): string
  {
    if xs == [] then "[]" else "[" + Quote(xs[0]) + EncodeTail(xs[1..])
  }

  /** A string body read off the front of a text, and what follows its closing quote. */
  datatype Parsed = Parsed(value: string, rest: string)

  /**
   * Reads a string body up to its closing quote. Reading is exact: whatever
   * it accepts is the escaped form of the value, then the quote, then the rest.
   */
  function ParseString(s: string): (r: Option<Parsed>)
    ensures r.Some? ==> s == Escape(r.value.value) + "\"" + r.value.rest
    ensures r.Some? ==> |r.value.rest| < |s|
  {
    if s == [] then None
    else if s[0] == '"' then Some(Parsed("", s[1..]))
    else if s[0] == '\\' then
      if |s| >= 2 && (s[1] == '"' || s[1] == '\\') then
        match ParseString(s[2..])
        case None => None
        case Some(p) =>
          EscapedFront(s, 2, p.value, p.rest);
          Some(Parsed([s[1]] + p.value, p.rest))
      else None
    else
      match ParseString(s[1..])
      case None => None
      case Some(p) =>
        EscapedFront(s, 1, p.value, p.rest);
        Some(Parsed([s[0]] + p.value, p.rest))
  }

  /** One more character in front of an escaped body: its escape, then the rest. */
  lemma EscapeCons(c: char, v: string)
    ensures Escape([c] + v) == EscapeChar(c) + Escape(v)
  {
    assert ([c] + v)[1..] == v;
  }

  /** A text starting with the escaped form of its `n`-th character, then a parsed body. */
  lemma EscapedFront(s: string, n: nat, v: string, rest: string)
    requires 1 <= n <= 2 && n <= |s|
    requires n == 2 ==> s[0] == '\\' && (s[1] == '"' || s[1] == '\\')
    requires n == 1 ==> s[0] != '"' && s[0] != '\\'
    requires s[n..] == Escape(v) + "\"" + rest
    ensures s == Escape([s[n - 1]] + v) + "\"" + rest
  {
    EscapeCons(s[n - 1], v);
    assert s[..n] == EscapeChar(s[n - 1]);
    assert s == s[..n] + s[n..];
  }

  /** Reads `"x1","x2",...,"xn"]`; the text is exactly the encoding of what it returns. */
  function ParseElements(s: string): (r: Option<seq<string>>)
    ensures r.Some? ==> |r.value| >= 1 && s == Quote(r.value[0]) + EncodeTail(r.value[1..])
    decreases |s|
  {
    if s == [] || s[0] != '"' then None
    else
      match ParseString(s[1..])
      case None => None
      case Some(p) =>
        QuotedFront(s, p.value, p.rest);
        if p.rest == "]" then
          Some([p.value])
        else if p.rest != [] && p.rest[0] == ',' then
          match ParseElements(p.rest[1..])
          case None => None
          case Some(vs) =>
            TailFront(p.rest, vs);
            assert ([p.value] + vs)[1..] == vs;
            Some([p.value] + vs)
        else None
  }

  lemma QuotedFront(s: string, v: string, rest: string)
    requires s != [] && s[0] == '"' && s[1..] == Escape(v) + "\"" + rest
    ensures s == Quote(v) + rest
  {
    assert s == [s[0]] + s[1..];
  }

  lemma TailFront(t: string, vs: seq<string>)
    requires |vs| >= 1 && t != [] && t[0] == ',' && t[1..] == Quote(vs[0]) + EncodeTail(vs[1..])
    ensures t == EncodeTail(vs)
  {
    assert t == [t[0]] + t[1..];
  }

  /** `JSON.parse(s)` where the result must be an array of strings; `None` is a thrown SyntaxError. */
  function Decode(s: string): (r: Option<seq<string>>)
    ensures r.Some? ==> Encode(r.value) == s
  {
    if s == "[]" then Some([])
    else if s != [] && s[0] == '[' then
      match ParseElements(s[1..])
      case None => None
      case Some(vs) =>
        assert s == "[" + s[1..];
        Some(vs)
    else None
  }

  lemma {:induction false} EscapeAppend(a: string, b: string)
    ensures Escape(a + b) == Escape(a) + Escape(b)
  {
    if a != [] {
      assert (a + b)[1..] == a[1..] + b;
      EscapeAppend(a[1..], b);
    } else {
      assert a + b == b;
    }
  }

  /** Reading an escaped body stops at the first unescaped quote and returns the original string. */
  lemma {:induction false} ParseStringEscape(x: string, rest: string)
    ensures ParseString(Escape(x) + "\"" + rest) == Some(Parsed(x, rest))
  {
    var s := Escape(x) + "\"" + rest;
    if x == [] {
      assert s == "\"" + rest;
      assert s[1..] == rest;
    } else {
      var c := x[0];
      var tail := Escape(x[1..]) + "\"" + rest;
      assert s == EscapeChar(c) + tail;
      ParseStringEscape(x[1..], rest);
      if c == '"' || c == '\\' {
        assert s[2..] == tail;
      } else {
        assert s[1..] == tail;
      }
      assert [c] + x[1..] == x;
    }
  }

  lemma QuoteRest(x: string, t: string)
    ensures (Quote(x) + t)[0] == '"' && (Quote(x) + t)[1..] == Escape(x) + "\"" + t
  {
  }

  lemma TailRest(ys: seq<string>)
    requires ys != []
    ensures EncodeTail(ys) != "]" && EncodeTail(ys)[0] == ','
    ensures EncodeTail(ys)[1..] == Quote(ys[0]) + EncodeTail(ys[1..])
  {
    var rest := Quote(ys[0]) + EncodeTail(ys[1..]);
    assert EncodeTail(ys) == "," + rest;
    assert |rest| >= 2;
  }

  lemma {:induction false} ParseElementsEncode(x: string, ys: seq<string>)
    ensures ParseElements(Quote(x) + EncodeTail(ys)) == Some([x] + ys)
    decreases |ys|
  {
    var s := Quote(x) + EncodeTail(ys);
    QuoteRest(x, EncodeTail(ys));
    ParseStringEscape(x, EncodeTail(ys));
    if ys != [] {
      var t := EncodeTail(ys);
      TailRest(ys);
      ParseElementsEncode(ys[0], ys[1..]);
      assert ParseString(s[1..]) == Some(Parsed(x, t));
      assert ParseElements(t[1..]) == Some([ys[0]] + ys[1..]);
      assert [ys[0]] + ys[1..] == ys;
      assert s != [] && s[0] == '"';
      assert ParseElements(s) == Some([x] + ys);
    } else {
      assert ParseString(s[1..]) == Some(Parsed(x, "]"));
      assert [x] + ys == [x];
    }
  }

  /** Round trip: `JSON.parse(JSON.stringify(xs))` gives `xs` back, for every photo list. */
  lemma DecodeEncode(xs: seq<string>)
    ensures Decode(Encode(xs)) == Some(xs)
  {
    if xs == [] {
      assert Encode(xs) == "[]";
    } else {
      DecodeEncodeElements(xs);
    }
  }

  lemma DecodeEncodeElements(xs: seq<string>)
    requires xs != []
    ensures Decode(Encode(xs)) == Some(xs)
  {
    var body := Quote(xs[0]) + EncodeTail(xs[1..]);
    var s := "[" + body;
    assert s[1..] == body;
    ParseElementsEncode(xs[0], xs[1..]);
    assert [xs[0]] + xs[1..] == xs;
    DecodeList(s);
  }

  /** A text that opens a bracket and is not `[]` decodes as the elements after the bracket. */
  lemma DecodeList(s: string)
    requires |s| >= 3 && s[0] == '['
    ensures Decode(s) == ParseElements(s[1..])
  {
    assert s != "[]";
  }

  /** The other direction: a text the decoder accepts is the encoding of what it decodes to. */
  lemma EncodeDecode(s: string, xs: seq<string>)
    requires Decode(s) == Some(xs)
    ensures s == Encode(xs)
  {
  }
}
