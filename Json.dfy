/** `JSON.stringify` of the list the `code_file_analysis` tool returns. */
module Json {
  import opened Wrappers
  import opened Text
  import opened Schemas

  function HexDigit(d: nat): (ch: char)
    requires d < 16
  {
    "0123456789abcdef"[d]
  }

  /** How `JSON.stringify` writes one character inside a string literal: the
      quote and the backslash escaped, control characters by their short escape
      or as \u00xx in lower-case hex, every other character as itself. */
  function EscapeChar(c: char): string
  {
    if c == '"' then "\\\""
    else if c == '\\' then "\\\\"
    else if c == '\U{8}' then "\\b"
    else if c == '\U{C}' then "\\f"
    else if c == '\n' then "\\n"
    else if c == '\r' then "\\r"
    else if c == '\t' then "\\t"
    else if (c as int) < 0x20 then "\\u00" + [HexDigit(c as int / 16), HexDigit(c as int % 16)]
    else [c]
  }

  function Escape(s: string): string
  {
    if s == [] then "" else EscapeChar(s[0]) + Escape(s[1..])
  }

  /** A string literal. */
  function Quote(s: string): string
  {
    "\"" + Escape(s) + "\""
  }

  /** `[` + the elements separated by commas + `]`. */
  function Array(elements: seq<string>): string
  {
    "[" + Join(elements, ",") + "]"
  }

  /** The elements of a list, each written by `enc`. */
  function Encode<T>(enc: T -> string, xs: seq<T>): seq<string>
  {
    if xs == [] then [] else [enc(xs[0])] + Encode(enc, xs[1..])
  }

  const DescriptionKey := "{\"feature_description\":"
  const FunctionKey := ",\"function\":"
  const LinesKey := ",\"lines\":"
  const CodePathKey := "{\"code_path\":"
  const FeatureAnalysisKey := ",\"feature_analysis\":"

  /** One element of a sub-analysis's `feature_analysis`, its keys in schema order. */
  function FeatureLocationJson(l: FeatureLocation): string
  {
    DescriptionKey + Quote(l.featureDescription) + FunctionKey + Quote(l.functionName) +
    LinesKey + Quote(l.lines) + "}"
  }

  /** `{code_path, feature_analysis}`, the object `func` returns. */
  function ToolResultJson(t: ToolResult): string
  {
    CodePathKey + Quote(t.codePath) + FeatureAnalysisKey + Array(Encode(FeatureLocationJson, t.featureAnalysis)) + "}"
  }

  /** `JSON.stringify(validResults)`. */
  function Stringify(results: seq<ToolResult>): string
  {
    Array(Encode(ToolResultJson, results))
  }

  /** An empty list is written "[]". */
  lemma StringifyEmpty()
    ensures Stringify([]) == "[]"
  {
  }
}
