/** `readFileWithLineNumbers` (utils.js): split a file's text on '\n', put
    "<n>:  " before line n (counting from 1) and join the lines again. */
module LineNumbers {
  import opened Wrappers
  import opened Text

  /** The readable files: full path to decoded text. */
  type Files = map<string, string>

  /** The text placed before line `n`: its number, a colon and two spaces. */
  function Prefix(n: nat): (r: string)
    ensures '\n' !in r
  {
    NatToString(n) + ":  "
  }

  /** Numbers `lines`, the first one with `first`. */
  function NumberLines(lines: seq<string>, first: nat): (r: seq<string>)
    ensures |r| == |lines|
    ensures forall i :: 0 <= i < |lines| ==> r[i] == Prefix(first + i) + lines[i]
  {
    if lines == [] then [] else [Prefix(first) + lines[0]] + NumberLines(lines[1..], first + 1)
  }

  /** The numbered text of `content`. */
  function WithLineNumbers(content: string): string
  {
    Join(NumberLines(Split(content, '\n'), 1), "\n")
  }

  /** Undoes `NumberLines`: each line must carry the expected number. */
  function Unnumber(lines: seq<string>, first: nat): (r: Option<seq<string>>)
    ensures r.Some? ==> |r.value| == |lines|
  {
    if lines == [] then Some([])
    else if Prefix(first) <= lines[0] then
      match Unnumber(lines[1..], first + 1)
      case None => None
      case Some(rest) => Some([lines[0][|Prefix(first)|..]] + rest)
    else None
  }

  /** Removes the line numbers from a numbered text; `None` when a line lacks its number. */
  function StripLineNumbers(text: string): Option<string>
  {
    match Unnumber(Split(text, '\n'), 1)
    case None => None
    case Some(lines) => Some(Join(lines, "\n"))
  }

  lemma {:induction false} UnnumberNumberLines(lines: seq<string>, first: nat)
    ensures Unnumber(NumberLines(lines, first), first) == Some(lines)
  {
    if lines != [] {
      var numbered := NumberLines(lines, first);
      UnnumberNumberLines(lines[1..], first + 1);
      assert numbered[1..] == NumberLines(lines[1..], first + 1);
      assert numbered[0][|Prefix(first)|..] == lines[0];
      assert [lines[0]] + lines[1..] == lines;
    }
  }

  /** The numbered text has one line per line of `content.split('\n')`, and line i
      is i + 1, a colon, two spaces and the original line i. */
  lemma NumberedLines(content: string)
    ensures Split(WithLineNumbers(content), '\n') == NumberLines(Split(content, '\n'), 1)
    ensures |Split(WithLineNumbers(content), '\n')| == |Split(content, '\n')|
  {
    var numbered := NumberLines(Split(content, '\n'), 1);
    forall i | 0 <= i < |numbered| ensures '\n' !in numbered[i] {
      assert numbered[i] == Prefix(1 + i) + Split(content, '\n')[i];
    }
    SplitJoin(numbered, '\n');
  }

  /** Stripping the numbers and rejoining gives back the original text. */
  lemma StripWithLineNumbers(content: string)
    ensures StripLineNumbers(WithLineNumbers(content)) == Some(content)
  {
    NumberedLines(content);
    UnnumberNumberLines(Split(content, '\n'), 1);
    JoinSplit(content, '\n');
  }

  /** Empty content becomes the single numbered empty line "1:  ". */
  lemma EmptyContent()
    ensures WithLineNumbers("") == "1:  "
  {
    assert Split("", '\n') == [""];
    assert NumberLines([""], 1)[0] == Prefix(1) + "" == Prefix(1);
    assert NatToString(1) == "1";
  }

  lemma {:induction false} SplitLastEmpty(s: string, c: char)
    requires |s| > 0 && s[|s| - 1] == c
    ensures Split(s, c)[|Split(s, c)| - 1] == ""
  {
    if |s| == 1 {
      assert Split(s, c) == [""] + Split("", c);
    } else {
      assert s[1..][|s| - 2] == c;
      SplitLastEmpty(s[1..], c);
    }
  }

  /** Content ending in '\n' ends with a numbered empty line "<k>:  ", k being
      the number of lines. */
  lemma TrailingNewline(content: string)
    requires |content| > 0 && content[|content| - 1] == '\n'
    ensures |Split(WithLineNumbers(content), '\n')| == |Split(content, '\n')|
    ensures var k := |Split(content, '\n')|;
      Split(WithLineNumbers(content), '\n')[k - 1] == Prefix(k)
  {
    NumberedLines(content);
    SplitLastEmpty(content, '\n');
    var lines := Split(content, '\n');
    var k := |lines|;
    assert NumberLines(lines, 1)[k - 1] == Prefix(1 + (k - 1)) + lines[k - 1];
  }

  /** `readFileWithLineNumbers(filePath)`: a path outside `files` is an error
      raised before anything is read; otherwise the numbered text, which gives back the
      file's text once the numbers are stripped. */
  function ReadFileWithLineNumbers(files: Files, filePath: string): (r: Result<string, Error>)
    ensures filePath !in files <==> r == Failure(FileNotFound(filePath))
    ensures r.Success? ==> filePath in files && StripLineNumbers(r.value) == Some(files[filePath])
    ensures r.Success? ==> |Split(r.value, '\n')| == |Split(files[filePath], '\n')|
  {
    if filePath !in files then Failure(FileNotFound(filePath))
    else
      StripWithLineNumbers(files[filePath]);
      NumberedLines(files[filePath]);
      Success(WithLineNumbers(files[filePath]))
  }
}
