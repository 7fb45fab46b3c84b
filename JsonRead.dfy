/** Reading back the text `Json.Stringify` writes: a reader for string
    literals, keyed objects and arrays, and the round trip that shows no
    code path or feature text is lost or confused when the tool's answer is
    serialised. */
module JsonRead {
  import opened Wrappers
  import opened Text
  import opened Schemas
  import opened Json

  function HexValue(ch: char): (r: Option<nat>)
    ensures r.Some? ==> r.value < 16
  {
    if '0' <= ch <= '9' then Some(ch as int - '0' as int)
    else if 'a' <= ch <= 'f' then Some(ch as int - 'a' as int + 10)
    else if 'A' <= ch <= 'F' then Some(ch as int - 'A' as int + 10)
    else None
  }

  /** The character a two-character escape `\e` stands for. */
  function ShortEscape(e: char): Option<char>
  {
    if e == '"' then Some('"')
    else if e == '\\' then Some('\\')
    else if e == '/' then Some('/')
    else if e == 'b' then Some('\U{8}')
    else if e == 'f' then Some('\U{C}')
    else if e == 'n' then Some('\n')
    else if e == 'r' then Some('\r')
    else if e == 't' then Some('\t')
    else None
  }

  /** The character four hex digits after `\u` stand for (below the surrogates). */
  function HexQuad(h: string): Option<char>
    requires |h| == 4
  {
    match (HexValue(h[0]), HexValue(h[1]), HexValue(h[2]), HexValue(h[3]))
    case (Some(a), Some(b), Some(c), Some(d)) =>
      var v := ((a * 16 + b) * 16 + c) * 16 + d;
      if v < 0xD800 then Some(v as char) else None
    case _ => None
  }

  function ConsFirst(c: char, r: Option<(string, string)>): Option<(string, string)>
  {
    match r
    case None => None
    case Some((v, rest)) => Some(([c] + v, rest))
  }

  /** The characters of a string literal up to its closing quote, unescaped,
      and the text after that quote; `None` when the literal is malformed. */
  function ReadString(s: string): (r: Option<(string, string)>)
    ensures r.Some? ==> |r.value.1| < |s|
    decreases |s|
  {
    if s == [] then None
    else if s[0] == '"' then Some(([], s[1..]))
    else if (s[0] as int) < 0x20 then None
    else if s[0] != '\\' then ConsFirst(s[0], ReadString(s[1..]))
    else if |s| >= 2 && ShortEscape(s[1]).Some? then
      ConsFirst(ShortEscape(s[1]).value, ReadString(s[2..]))
    else if |s| >= 6 && s[1] == 'u' && HexQuad(s[2..6]).Some? then
      ConsFirst(HexQuad(s[2..6]).value, ReadString(s[6..]))
    else None
  }

  lemma HexValueDigit(d: nat)
    requires d < 16
    ensures HexValue(HexDigit(d)) == Some(d)
  {
  }

  lemma ReadShortEscape(e: char, c: char, t: string)
    requires ShortEscape(e) == Some(c)
    ensures ReadString(['\\', e] + t) == ConsFirst(c, ReadString(t))
  {
    assert (['\\', e] + t)[2..] == t;
  }

  lemma ReadControlEscape(c: char, t: string)
    requires (c as int) < 0x20
    ensures ReadString("\\u00" + [HexDigit(c as int / 16), HexDigit(c as int % 16)] + t)
         == ConsFirst(c, ReadString(t))
  {
    var s := "\\u00" + [HexDigit(c as int / 16), HexDigit(c as int % 16)] + t;
    HexValueDigit(c as int / 16);
    HexValueDigit(c as int % 16);
    assert s[2..6] == ['0', '0', HexDigit(c as int / 16), HexDigit(c as int % 16)];
    assert HexQuad(s[2..6]) == Some(c);
    assert s[6..] == t;
  }

  /** Each character's escape reads back as that character, whatever follows. */
  lemma ReadEscapeChar(c: char, t: string)
    ensures ReadString(EscapeChar(c) + t) == ConsFirst(c, ReadString(t))
  {
    if c == '"' {
      ReadShortEscape('"', c, t);
    } else if c == '\\' {
      ReadShortEscape('\\', c, t);
    } else if c == '\U{8}' {
      ReadShortEscape('b', c, t);
    } else if c == '\U{C}' {
      ReadShortEscape('f', c, t);
    } else if c == '\n' {
      ReadShortEscape('n', c, t);
    } else if c == '\r' {
      ReadShortEscape('r', c, t);
    } else if c == '\t' {
      ReadShortEscape('t', c, t);
    } else if (c as int) < 0x20 {
      ReadControlEscape(c, t);
    } else {
      assert ([c] + t)[1..] == t;
    }
  }

  /** An escaped string followed by a quote reads back as that string, and the
      reader stops exactly after the quote. */
  lemma {:induction false} ReadEscape(s: string, t: string)
    ensures ReadString(Escape(s) + "\"" + t) == Some((s, t))
    decreases |s|
  {
    if s == [] {
      assert Escape(s) + "\"" + t == "\"" + t;
      assert ("\"" + t)[1..] == t;
    } else {
      ReadEscape(s[1..], t);
      ReadEscapeChar(s[0], Escape(s[1..]) + "\"" + t);
      assert Escape(s) + "\"" + t == EscapeChar(s[0]) + (Escape(s[1..]) + "\"" + t);
      assert [s[0]] + s[1..] == s;
    }
  }

  /** A string literal: its value and the text after it. */
  function ReadQuoted(s: string): (r: Option<(string, string)>)
    ensures r.Some? ==> |r.value.1| < |s|
  {
    if |s| > 0 && s[0] == '"' then ReadString(s[1..]) else None
  }

  lemma ReadQuote(s: string, t: string)
    ensures ReadQuoted(Quote(s) + t) == Some((s, t))
  {
    assert (Quote(s) + t)[1..] == Escape(s) + "\"" + t;
    ReadEscape(s, t);
  }

  /** The text after the fixed text `lit`, when `s` starts with it. */
  function Lit(lit: string, s: string): (r: Option<string>)
    ensures r.Some? <==> lit <= s
    ensures r.Some? ==> s == lit + r.value
  {
    if |lit| <= |s| && s[..|lit|] == lit then Some(s[|lit|..]) else None
  }

  lemma Assoc(a: string, b: string, c: string)
    ensures a + b + c == a + (b + c)
  {
  }

  /** A key (with the punctuation before it) followed by a string literal. */
  function Field(key: string, s: string): (r: Option<(string, string)>)
    ensures r.Some? ==> |r.value.1| < |s|
  {
    match Lit(key, s)
    case None => None
    case Some(s1) => ReadQuoted(s1)
  }

  lemma FieldJson(key: string, v: string, t: string)
    ensures Field(key, key + Quote(v) + t) == Some((v, t))
  {
    assert key + Quote(v) + t == key + (Quote(v) + t);
    assert Lit(key, key + (Quote(v) + t)) == Some(Quote(v) + t);
    ReadQuote(v, t);
  }

  /** A reader that, when it succeeds, consumes at least one character. */
  ghost predicate Shrinks<T>(read: string -> Option<(T, string)>)
  {
    forall s :: read(s).Some? ==> |read(s).value.1| < |s|
  }

  /** The elements of a non-empty array after its `[`, up to and past its `]`. */
  function ReadElements<T>(read: string -> Option<(T, string)>, s: string): (r: Option<(seq<T>, string)>)
    requires Shrinks(read)
    ensures r.Some? ==> |r.value.1| < |s|
    decreases |s|
  {
    match read(s)
    case None => None
    case Some((x, s1)) =>
      if |s1| > 0 && s1[0] == ',' then
        match ReadElements(read, s1[1..])
        case None => None
        case Some((xs, rest)) => Some(([x] + xs, rest))
      else if |s1| > 0 && s1[0] == ']' then Some(([x], s1[1..]))
      else None
  }

  /** An array, each element read by `read`. */
  function ReadArray<T>(read: string -> Option<(T, string)>, s: string): (r: Option<(seq<T>, string)>)
    requires Shrinks(read)
    ensures r.Some? ==> |r.value.1| < |s|
  {
    if |s| >= 2 && s[0] == '[' && s[1] == ']' then Some(([], s[2..]))
    else if |s| >= 1 && s[0] == '[' then ReadElements(read, s[1..])
    else None
  }

  /** The last element: it is followed by the closing `]`. */
  lemma ReadElementsLast<T>(read: string -> Option<(T, string)>, x: T, e: string, t: string)
    requires Shrinks(read)
    requires read(e + ("]" + t)) == Some((x, "]" + t))
    ensures ReadElements(read, e + ("]" + t)) == Some(([x], t))
  {
    assert ("]" + t)[1..] == t;
  }

  /** An element followed by a comma and the rest of the array. */
  lemma ReadElementsComma<T>(read: string -> Option<(T, string)>, x: T, e: string, tail: string, xs: seq<T>, t: string)
    requires Shrinks(read)
    requires read(e + ("," + tail)) == Some((x, "," + tail))
    requires ReadElements(read, tail) == Some((xs, t))
    ensures ReadElements(read, e + ("," + tail)) == Some(([x] + xs, t))
  {
    assert ("," + tail)[1..] == tail;
  }

  /** How the text of a non-empty array after its `[` begins: with the first
      element and then the closing `]` or a comma and the rest. */
  lemma ElementsShape<T>(enc: T -> string, xs: seq<T>, t: string)
    requires |xs| >= 1
    ensures |xs| == 1 ==> Join(Encode(enc, xs), ",") + "]" + t == enc(xs[0]) + ("]" + t)
    ensures |xs| >= 2 ==> Join(Encode(enc, xs), ",") + "]" + t
                          == enc(xs[0]) + ("," + (Join(Encode(enc, xs[1..]), ",") + "]" + t))
  {
    var e := Encode(enc, xs);
    assert e[0] == enc(xs[0]) && e[1..] == Encode(enc, xs[1..]);
    if |xs| == 1 {
      Assoc(e[0], "]", t);
    } else {
      var j := Join(e[1..], ",");
      calc {
        Join(e, ",") + "]" + t;
        (e[0] + "," + j) + "]" + t;
        { Assoc(e[0] + "," + j, "]", t); }
        (e[0] + "," + j) + ("]" + t);
        { Assoc(e[0] + ",", j, "]" + t); }
        (e[0] + ",") + (j + ("]" + t));
        { Assoc(e[0], ",", j + ("]" + t)); }
        e[0] + ("," + (j + ("]" + t)));
        { Assoc(j, "]", t); }
        e[0] + ("," + (j + "]" + t));
      }
    }
  }

  lemma {:induction false} ReadElementsJoin<T>(read: string -> Option<(T, string)>, enc: T -> string, xs: seq<T>, t: string)
    requires Shrinks(read)
    requires forall x, u :: read(enc(x) + u) == Some((x, u))
    requires |xs| >= 1
    ensures ReadElements(read, Join(Encode(enc, xs), ",") + "]" + t) == Some((xs, t))
    decreases |xs|
  {
    ElementsShape(enc, xs, t);
    if |xs| == 1 {
      ReadElementsLast(read, xs[0], enc(xs[0]), t);
      assert xs == [xs[0]];
    } else {
      var tail := Join(Encode(enc, xs[1..]), ",") + "]" + t;
      ReadElementsJoin(read, enc, xs[1..], t);
      ReadElementsComma(read, xs[0], enc(xs[0]), tail, xs[1..], t);
      assert [xs[0]] + xs[1..] == xs;
    }
  }

  /** An array written by `Array(Encode(enc, xs))` reads back as `xs`, provided
      each element reads back and no element starts with `]`. */
  lemma ReadArrayJson<T>(read: string -> Option<(T, string)>, enc: T -> string, xs: seq<T>, t: string)
    requires Shrinks(read)
    requires forall x, u :: read(enc(x) + u) == Some((x, u))
    requires forall x :: |enc(x)| > 0 && enc(x)[0] != ']'
    ensures ReadArray(read, Array(Encode(enc, xs)) + t) == Some((xs, t))
  {
    if xs == [] {
      assert Array(Encode(enc, xs)) + t == "[]" + t;
      assert ("[]" + t)[2..] == t;
    } else {
      var e := Encode(enc, xs);
      var body := Join(e, ",") + "]" + t;
      assert Array(e) + t == "[" + body;
      assert ("[" + body)[1..] == body;
      assert e[0] == enc(xs[0]);
      assert Join(e, ",")[0] == e[0][0];
      assert body[1] != ']' || body[0] != ']';
      ReadElementsJoin(read, enc, xs, t);
    }
  }

  /** One element of `feature_analysis`, its keys in the order they are written. */
  function ReadLocation(s: string): (r: Option<(FeatureLocation, string)>)
    ensures r.Some? ==> |r.value.1| < |s|
  {
    match Field(DescriptionKey, s)
    case None => None
    case Some((d, s1)) =>
      match Field(FunctionKey, s1)
      case None => None
      case Some((f, s2)) =>
        match Field(LinesKey, s2)
        case None => None
        case Some((ln, s3)) =>
          match Lit("}", s3)
          case None => None
          case Some(s4) => Some((FeatureLocation(d, f, ln), s4))
  }

  lemma LocationShrinks()
    ensures Shrinks(ReadLocation)
  {
    forall s | ReadLocation(s).Some?
      ensures |ReadLocation(s).value.1| < |s|
    {
    }
  }

  /** `ReadLocation` takes the three fields and the closing brace in turn. */
  lemma ReadLocationSteps(s: string, d: string, s1: string, f: string, s2: string, ln: string, s3: string, t: string)
    requires Field(DescriptionKey, s) == Some((d, s1))
    requires Field(FunctionKey, s1) == Some((f, s2))
    requires Field(LinesKey, s2) == Some((ln, s3))
    requires Lit("}", s3) == Some(t)
    ensures ReadLocation(s) == Some((FeatureLocation(d, f, ln), t))
  {
  }

  /** The text of a location, split after its first field. */
  lemma LocationLayout(l: FeatureLocation, t: string)
    ensures FeatureLocationJson(l) + t
         == DescriptionKey + Quote(l.featureDescription) +
            (FunctionKey + Quote(l.functionName) + (LinesKey + Quote(l.lines) + ("}" + t)))
  {
    var a, b := DescriptionKey + Quote(l.featureDescription), FunctionKey + Quote(l.functionName);
    var c := LinesKey + Quote(l.lines);
    calc {
      FeatureLocationJson(l) + t;
      a + FunctionKey + Quote(l.functionName) + LinesKey + Quote(l.lines) + "}" + t;
      { Assoc(a, FunctionKey, Quote(l.functionName)); }
      (a + b) + LinesKey + Quote(l.lines) + "}" + t;
      { Assoc(a + b, LinesKey, Quote(l.lines)); }
      (a + b) + c + "}" + t;
      { Assoc((a + b) + c, "}", t); }
      (a + b) + c + ("}" + t);
      { Assoc(a + b, c, "}" + t); }
      (a + b) + (c + ("}" + t));
      { Assoc(a, b, c + ("}" + t)); }
      a + (b + (c + ("}" + t)));
    }
  }

  lemma ReadLocationJson(l: FeatureLocation, t: string)
    ensures ReadLocation(FeatureLocationJson(l) + t) == Some((l, t))
  {
    var s3 := "}" + t;
    var s2 := LinesKey + Quote(l.lines) + s3;
    var s1 := FunctionKey + Quote(l.functionName) + s2;
    LocationLayout(l, t);
    FieldJson(DescriptionKey, l.featureDescription, s1);
    FieldJson(FunctionKey, l.functionName, s2);
    FieldJson(LinesKey, l.lines, s3);
    assert Lit("}", s3) == Some(t);
    ReadLocationSteps(FeatureLocationJson(l) + t, l.featureDescription, s1, l.functionName, s2, l.lines, s3, t);
  }

  /** One `{code_path, feature_analysis}` object. */
  function ReadToolResult(s: string): (r: Option<(ToolResult, string)>)
    ensures r.Some? ==> |r.value.1| < |s|
  {
    LocationShrinks();
    match Field(CodePathKey, s)
    case None => None
    case Some((p, s1)) =>
      match Lit(FeatureAnalysisKey, s1)
      case None => None
      case Some(s2) =>
        match ReadArray(ReadLocation, s2)
        case None => None
        case Some((ls, s3)) =>
          match Lit("}", s3)
          case None => None
          case Some(s4) => Some((ToolResult(p, ls), s4))
  }

  lemma ToolResultShrinks()
    ensures Shrinks(ReadToolResult)
  {
    forall s | ReadToolResult(s).Some?
      ensures |ReadToolResult(s).value.1| < |s|
    {
    }
  }

  /** `ReadToolResult` takes the path, the key, the array and the closing brace in turn. */
  lemma ReadToolResultSteps(s: string, p: string, s1: string, s2: string, ls: seq<FeatureLocation>, s3: string, t: string)
    requires Field(CodePathKey, s) == Some((p, s1))
    requires Lit(FeatureAnalysisKey, s1) == Some(s2)
    requires Shrinks(ReadLocation)
    requires ReadArray(ReadLocation, s2) == Some((ls, s3))
    requires Lit("}", s3) == Some(t)
    ensures ReadToolResult(s) == Some((ToolResult(p, ls), t))
  {
  }

  /** The text of a tool result, split after its path. */
  lemma ToolResultLayout(r: ToolResult, t: string)
    ensures ToolResultJson(r) + t
         == CodePathKey + Quote(r.codePath) +
            (FeatureAnalysisKey + (Array(Encode(FeatureLocationJson, r.featureAnalysis)) + ("}" + t)))
  {
    var a := CodePathKey + Quote(r.codePath);
    var arr := Array(Encode(FeatureLocationJson, r.featureAnalysis));
    calc {
      ToolResultJson(r) + t;
      a + FeatureAnalysisKey + arr + "}" + t;
      { Assoc(a + FeatureAnalysisKey + arr, "}", t); }
      a + FeatureAnalysisKey + arr + ("}" + t);
      { Assoc(a + FeatureAnalysisKey, arr, "}" + t); }
      a + FeatureAnalysisKey + (arr + ("}" + t));
      { Assoc(a, FeatureAnalysisKey, arr + ("}" + t)); }
      a + (FeatureAnalysisKey + (arr + ("}" + t)));
    }
  }

  /** Every location reads back from its text, and none starts with `]`. */
  lemma LocationsReadBack()
    ensures forall x, u :: ReadLocation(FeatureLocationJson(x) + u) == Some((x, u))
    ensures forall x :: |FeatureLocationJson(x)| > 0 && FeatureLocationJson(x)[0] != ']'
  {
    forall x, u ensures ReadLocation(FeatureLocationJson(x) + u) == Some((x, u)) {
      ReadLocationJson(x, u);
    }
    forall x ensures |FeatureLocationJson(x)| > 0 && FeatureLocationJson(x)[0] != ']' {
      assert FeatureLocationJson(x)[0] == DescriptionKey[0];
    }
  }

  lemma ReadToolResultJson(r: ToolResult, t: string)
    ensures ReadToolResult(ToolResultJson(r) + t) == Some((r, t))
  {
    var s3 := "}" + t;
    var s2 := Array(Encode(FeatureLocationJson, r.featureAnalysis)) + s3;
    var s1 := FeatureAnalysisKey + s2;
    ToolResultLayout(r, t);
    FieldJson(CodePathKey, r.codePath, s1);
    assert Lit(FeatureAnalysisKey, s1) == Some(s2);
    LocationShrinks();
    LocationsReadBack();
    ReadArrayJson(ReadLocation, FeatureLocationJson, r.featureAnalysis, s3);
    assert Lit("}", s3) == Some(t);
    ReadToolResultSteps(ToolResultJson(r) + t, r.codePath, s1, s2, r.featureAnalysis, s3, t);
  }

  /** `JSON.parse` restricted to the shape `Stringify` writes: an array of
      tool results and nothing after it. */
  function Parse(s: string): Option<seq<ToolResult>>
  {
    ToolResultShrinks();
    match ReadArray(ReadToolResult, s)
    case Some((rs, rest)) => if rest == "" then Some(rs) else None
    case None => None
  }

  /** The tool's answer parses back to exactly the results it serialised. */
  lemma ParseStringify(results: seq<ToolResult>)
    ensures Parse(Stringify(results)) == Some(results)
  {
    ToolResultShrinks();
    forall x, u ensures ReadToolResult(ToolResultJson(x) + u) == Some((x, u)) {
      ReadToolResultJson(x, u);
    }
    forall x ensures |ToolResultJson(x)| > 0 && ToolResultJson(x)[0] != ']' {
      assert ToolResultJson(x)[0] == CodePathKey[0];
    }
    ReadArrayJson(ReadToolResult, ToolResultJson, results, "");
    assert Stringify(results) + "" == Stringify(results);
  }

  /** Different result lists are never serialised to the same text. */
  lemma StringifyInjective(a: seq<ToolResult>, b: seq<ToolResult>)
    ensures Stringify(a) == Stringify(b) <==> a == b
  {
    ParseStringify(a);
    ParseStringify(b);
  }
}
