# Code-analysis service: directory manifest, line numbering and sub-analysis fan-out

This project is a Dafny model of the deterministic core of a small Node.js service. The service takes a zipped code repository and a problem description. It extracts the archive and asks a language model where in the code the problem should be addressed.

The model covers two parts.

- **Manifest and line numbering** (`utils.js`):
  - `getDirectoryTree`/`buildTree` walks the extracted directory into `{path, type, children}` records. `DirectoryTree` models them as the datatype `Entry`, over a file system given as an input tree `FsNode` whose entries are in `readdirSync` order.
  - `convertDirectoryTreeToMarkdown`/`collectFilePaths` flattens the records into a Markdown file list (`FileListing`). `collectFilePaths` pushes into a shared array, so it is modelled as the class `PathCollector`.
  - `readFileWithLineNumbers` prefixes every line with `"<n>:  "` (`LineNumbers`). The file system it reads is a map from path to text.
  - `unzipAndGetDirectoryTree` is in `Unzip`: the existence check, the derivation of the extraction directory from the archive path, and the tree and listing of what was extracted.
  - `parallelLimit` is in `Fanout`. It is a sequential, index-preserving map, which is the order in which `async.parallelLimit` hands back results.
- **Analysis** (`services/analysis.js`, module `Analysis`):
  - `analysisSubCode` reads one file, numbers its lines and asks the model about it.
  - The `run` handler of the `code_file_analysis` tool sends every focus item to a sub-analysis. It turns a throwing sub-analysis into `null`, drops the nulls and serialises the survivors with `JSON.stringify` (`Json`). `JsonRead` reads that text back, which shows the answer carries the surviving results exactly.
  - `analysisCode` unzips, lists the files and asks the model with the tool attached.
  - The language model is an oracle. The sub-analysis oracle maps the five template variables to `Some` parsed answer, or to `None` when rendering, the call or `JSON.parse` throws. The top-level oracle gets the two template variables and the tool handler, which it may call any number of times.
  - `Scenario` walks one concrete request end to end: an archive `code.zip` holding `a.js` and `b/b.js`, and a model that asks about `a.js` once.

Paths are sequences of segments joined with `/`. A file's relative path is `Join(segs, "/")`, and the root's is `"."`.

Two behaviours of the code are worth stating outright:

- The manifest is not sorted. The code keeps `readdirSync` order, and so does the model.
- Only a root whose `statSync` throws is an error (`RootUnreadable`). A root directory whose `readdirSync` throws gives a record with no children and an empty listing.

## Model

| member | source | states |
|---|---|---|
| DirectoryTree.RelPath | utils.js:62-65 | the relative path of a segment sequence, `"."` for the root; stated by `RelPathNotDot`, `RelPathInjective` and `RelativePaths`. |
| DirectoryTree.Children | utils.js:76-92 | the children of a listable directory; stated by `ChildrenInReadOrder`. |
| DirectoryTree.Tree | utils.js:59-71 | what `buildTree` returns for any entry it can stat is a directory record. Its path is the relative path of that entry, and `"."` for the root. |
| DirectoryTree.DirectoryTreeOf | utils.js:54-103 | `getDirectoryTree` fails with `RootUnreadable` exactly when the root cannot be stat'ed. Otherwise it returns a directory record with path `"."`. |
| DirectoryTree.BuildTree | utils.js:59-99 | the loop that pushes children one by one, recursing into directories, builds exactly the record `Tree` specifies, including the stop at the first entry whose `statSync` throws. |
| DirectoryTree.ChildrenStep | utils.js:76-92 | one turn of the loop: the record pushed for entry i comes first among the children still to be pushed. |
| DirectoryTree.GetDirectoryTree | utils.js:54-103 | the method returns what `DirectoryTreeOf` specifies. |
| DirectoryTree.ChildrenInReadOrder | utils.js:74-92 | a directory has one child per entry read before the first failing `statSync`, in read order. Child k has path `segs + [name_k]`. It is a leaf exactly when the entry is a file, and it is that subdirectory's own tree when the entry is a directory. |
| DirectoryTree.DirectoryRecord | utils.js:73-98 | a swallowed error keeps the record. A listable directory keeps the children pushed before the failing entry, and one whose `readdirSync` throws has no children. |
| DirectoryTree.TreePaths | utils.js:62-86 | every record in the pre-order walk of a tree has the relative path of the segment sequence that reaches it. |
| DirectoryTree.ChildrenPaths | utils.js:76-92 | the same correspondence for the records under a directory's children. |
| DirectoryTree.SegmentPathsDistinct | utils.js:59-99 | in a file system whose names are valid and unique per directory, the segment sequences reaching the records all lie below the start and are pairwise distinct. |
| DirectoryTree.ChildSegmentPathsDistinct | utils.js:76-92 | the same for the records under a directory's children. Each of them starts with its own child's name. |
| DirectoryTree.HeadPathsDistinct | utils.js:76-92 | the records under one child all start with that child's name and are pairwise distinct. |
| DirectoryTree.RelPathNotDot | utils.js:62-65 | a non-root path made of valid names is never `"."`. |
| DirectoryTree.RelPathInjective | utils.js:62-86 | two segment sequences of valid names have equal relative paths if and only if they are equal. |
| DirectoryTree.RelativePaths | utils.js:62-86 | the root record's path is `"."`. Every other record's path is its segments joined with `/` and is not `"."`. No two records share a path. |
| FileListing.PathCollector.constructor | utils.js:112 | the collector starts with no paths. |
| FileListing.PathCollector.Collect | utils.js:115-125 | collecting a record appends the paths of its file records, depth first, to what was already collected. |
| FileListing.ConvertDirectoryTreeToMarkdown | utils.js:110-134 | the Markdown is the fixed header, the collected file paths one per line, and the closing fence. |
| FileListing.ListLines | utils.js:131 | there is one line per path, and line i is `"- "` followed by path i. |
| FileListing.FilePaths | utils.js:115-125 | what `collectFilePaths` collects from one record; stated by `FilePathsAreFileRecords`. |
| FileListing.FilePathsAll | utils.js:119-124 | the same for a list of children; stated by `FilePathsAllAreFileRecords`. |
| FileListing.FileListMarkdown | utils.js:131-133 | the Markdown around the listed paths; stated by `ListingIsJoin`, `MarkdownLines` and `ParseFileListMarkdown`. |
| FileListing.FileRecordPathsConcat | utils.js:115-124 | filtering for file records distributes over concatenation of record lists. |
| FileListing.FilePathsAreFileRecords | utils.js:115-128 | the listed paths are exactly the paths of the `file` records in depth-first pre-order. Directories, empty or not, add nothing. |
| FileListing.FilePathsAllAreFileRecords | utils.js:119-124 | the same for a directory's children, in order. |
| FileListing.FileRecordPathsDistinct | utils.js:115-128 | if all record paths are distinct, the listed paths are distinct, and each one is the path of some `file` record. |
| FileListing.ListedPathsUnique | utils.js:110-128 | for a well-formed file system, no path is listed twice and `"."` is never listed. |
| FileListing.ListingIsJoin | utils.js:131-133 | the Markdown is header lines, body and closing fence joined with `'\n'`. The body is the listed lines joined with `'\n'`. |
| FileListing.MarkdownLines | utils.js:131-133 | when no path contains `'\n'`, splitting the Markdown on `'\n'` gives the three header lines, one `"- "` line per path (or one empty line when there are none) and the closing fence. |
| FileListing.EmptyListing | utils.js:131-133 | with no files the Markdown is the header and fence around an empty body. |
| FileListing.UnlistListLines | utils.js:131 | stripping `"- "` from the listed lines gives back the paths. |
| FileListing.ParseFileListMarkdown | utils.js:131-133 | when no path contains `'\n'`, the paths can be read back from the Markdown exactly, in order. |
| LineNumbers.Prefix | utils.js:174 | the `"<n>:  "` prefix contains no newline. |
| LineNumbers.NumberLines | utils.js:174 | there are as many numbered lines as lines, and numbered line i is the prefix for `first + i` followed by line i. |
| LineNumbers.UnnumberNumberLines | utils.js:174 | removing the prefixes in order gives back the lines. |
| LineNumbers.WithLineNumbers | utils.js:171-177 | the numbered text; stated by `NumberedLines`, `StripWithLineNumbers`, `EmptyContent` and `TrailingNewline`. |
| LineNumbers.NumberedLines | utils.js:171-177 | splitting the numbered text on `'\n'` gives exactly the numbered lines of `content.split('\n')`, as many as there are. |
| LineNumbers.StripWithLineNumbers | utils.js:171-177 | stripping the prefixes and rejoining with `'\n'` gives back the original content. |
| LineNumbers.EmptyContent | utils.js:171-174 | empty content numbers to exactly `"1:  "`. |
| LineNumbers.TrailingNewline | utils.js:171-174 | content ending in `'\n'` ends in a numbered empty line `"<k>:  "`, where k is the line count. |
| LineNumbers.ReadFileWithLineNumbers | utils.js:160-182 | a path outside `files`, and only such a path, fails with `FileNotFound`. Otherwise the text has as many lines as the file and strips back to the file's content. |
| Text.Split | utils.js:171 | `split` gives one more piece than there are separators, and no piece contains the separator. |
| Text.JoinSplit | utils.js:171-177 | joining the pieces of a split with the separator gives back the string. |
| Text.SplitAround | services/analysis.js:136 | splitting around one separator splits each side on its own. |
| Text.SplitJoin | utils.js:177 | splitting a join of separator-free pieces gives back the pieces. |
| Text.NatToString | utils.js:174 | the decimal rendering of a line number is non-empty, all digits, and has no leading zero unless it is `"0"`. |
| Text.ParseNatToString | utils.js:174 | the decimal rendering reads back as the number. |
| Unzip.LastIndexAfter | utils.js:25 | in a name that holds no dot after a given dot, that dot is the last one. |
| Unzip.ExtensionStart | utils.js:25 | when there is an extension, it starts at the last `'.'`, which is neither the first character nor past the end. There is none exactly when the name is `".."` or has no `'.'` after its first character. |
| Unzip.Stem | utils.js:25 | `path.parse(zip).name`; stated by `StemAndExtension`. |
| Unzip.Extension | utils.js:25 | `path.parse(zip).ext`; stated by `StemAndExtension`. |
| Unzip.StemAndExtension | utils.js:25 | a base name is its stem followed by its extension. The extension is empty or a single dot-led part with no further dot. A non-empty name has a non-empty stem. The extension is non-empty if and only if the name is not `".."` and has a `'.'` after its first character. |
| Unzip.ExtractionDir | utils.js:22-28 | `path.join(path.dirname(zip), path.parse(zip).name)`; stated by `ExtractionDirBesideZip`. |
| Unzip.ExtractionDirBesideZip | utils.js:22-28 | the extraction directory's segments are the archive's directory segments followed by the archive's stem. When the archive has an extension, the directory is not the archive itself. |
| Unzip.UnzipResult | utils.js:14-47 | a missing archive fails with `ZipNotFound` before anything else. Success happens exactly when the archive exists, extraction succeeds and the root can be stat'ed. On success, the tree is the one built from the extraction directory, rooted at `"."`. The directory is the derived extraction directory, and the Markdown lists the tree's files. |
| Unzip.UnzipAndGetDirectoryTree | utils.js:14-47 | the method returns what `UnzipResult` specifies. |
| Fanout.MapInOrder | utils.js:140-153 | the batch succeeds exactly when every item succeeds, and then result i is item i's. Otherwise it fails with the error of a failing item whose predecessors all succeeded. |
| Fanout.ParallelLimit | utils.js:140-153 | the loop that wraps and runs each item returns what `MapInOrder` specifies. |
| Json.EscapeChar | services/analysis.js:111 | how `JSON.stringify` writes one character of a string; stated by `JsonRead.ReadEscapeChar`. |
| Json.Stringify | services/analysis.js:111 | `JSON.stringify(validResults)`, keys in schema order; stated by `JsonRead.ParseStringify` and `JsonRead.StringifyInjective`. |
| Json.StringifyEmpty | services/analysis.js:111 | the empty result list serialises to `"[]"`. |
| JsonRead.ReadString | services/analysis.js:111 | reading a string literal, when it succeeds, consumes at least its closing quote. |
| JsonRead.ReadEscapeChar | services/analysis.js:111 | each character's escape reads back as that character, whatever follows it. |
| JsonRead.ReadEscape | services/analysis.js:111 | an escaped string followed by a quote reads back as that string, and reading stops right after the quote. |
| JsonRead.ReadQuote | services/analysis.js:111 | a string literal reads back as its string, whatever follows it. |
| JsonRead.ReadArrayJson | services/analysis.js:111 | an array reads back element by element, in order, when each element reads back and none starts with `]`. |
| JsonRead.ReadLocationJson | services/analysis.js:111 | a serialised `feature_analysis` entry reads back as the same description, function and lines. |
| JsonRead.ReadToolResultJson | services/analysis.js:111 | a serialised `{code_path, feature_analysis}` object reads back as the same path and the same locations in order. |
| JsonRead.ParseStringify | services/analysis.js:111 | the tool's answer parses back to exactly the list that was serialised. |
| JsonRead.StringifyInjective | services/analysis.js:111 | two result lists serialise to the same text if and only if they are equal, so no code path or feature text is lost or confused in the tool's answer. |
| Analysis.JoinPath | services/analysis.js:136 | `path.join(code_root_dir, code_path)`; stated by `JoinPathSegments`. |
| Analysis.JoinPathSegments | services/analysis.js:136 | the joined path's `/`-segments are the directory's followed by the relative path's. |
| Analysis.SubPrompt | services/analysis.js:135-145 | the sub-analysis template variables; stated by `SubPromptVariables`. |
| Analysis.SubPromptVariables | services/analysis.js:135-145 | four sub-prompt variables pass through unchanged. `code_content` is the file's numbered text, which strips back to the file. |
| Analysis.AnalysisSubCode | services/analysis.js:134-150 | a missing `path.join(code_root_dir, code_path)` fails with `FileNotFound` before the model is asked. Otherwise the sub-analysis succeeds exactly when the model answers, and returns that answer. |
| Analysis.ItemOutcome | services/analysis.js:83-106 | an item's outcome is non-null exactly when its sub-analysis succeeds. It then carries the item's own `code_path` and the sub-analysis's `feature_analysis` unchanged. |
| Analysis.Worker | services/analysis.js:83-106 | `func` as a task never rejects, because its `try`/`catch` turns every failure into `null`. |
| Analysis.FilterSome | services/analysis.js:109 | the filtered list is no longer than the outcomes. Every element comes from a non-null outcome, and every non-null outcome's value is kept. Order is stated by `FilterKeepsOrder`. |
| Analysis.Outcomes | services/analysis.js:108 | there is one outcome per focus item, and outcome i is focus item i's. |
| Analysis.SurvivorIndices | services/analysis.js:109 | the kept positions are at most as many as the outcomes, and each one points at a non-null outcome. |
| Analysis.SurvivorsIncrease | services/analysis.js:109 | the kept positions are strictly increasing. |
| Analysis.SurvivorsComplete | services/analysis.js:109 | every non-null outcome's position is kept. |
| Analysis.SurvivorsAll | services/analysis.js:109 | when no outcome is null, every position is kept. |
| Analysis.AlignedFilter | services/analysis.js:109 | the filtered values line up with the kept positions: value k is the outcome at kept position k. |
| Analysis.FilterKeepsOrder | services/analysis.js:109 | the filtered list's element k is the value of the outcome at kept position k. |
| Analysis.ToolResults | services/analysis.js:79-109 | the list `run` serialises; stated by `ToolResultsAreFiltered`, `ToolResultsTagged` and `ToolResultsKeepOrder`. |
| Analysis.RunSubCodeTool | services/analysis.js:79-112 | `run({focus_file_list})`; stated by `ToolAnswerParses` and `EmptyFocusList`. |
| Analysis.ToolAnswerParses | services/analysis.js:79-112 | the handler never rejects, and the text it hands back parses back to exactly the non-null outcomes in focus-item order. |
| Analysis.ToolResultsAreFiltered | services/analysis.js:83-109 | the handler's batch never rejects. Its list is the non-null outcomes in focus-item order. |
| Analysis.ToolResultsTagged | services/analysis.js:85-109 | result k comes from the focus item at kept position k. It carries that item's `code_path` and its successful sub-analysis's `feature_analysis`. |
| Analysis.ToolResultsKeepOrder | services/analysis.js:108-109 | survivors keep their focus items' relative order. An item is dropped exactly when its sub-analysis throws, and its failure aborts no other item. There are at most as many results as focus items, and exactly as many when none fails. |
| Analysis.EmptyFocusList | services/analysis.js:108-111 | an empty focus list returns `"[]"` whatever the model. |
| Analysis.AskedPromptsShareContext | services/analysis.js:86-94 | every prompt the handler sends carries the request's problem description and file listing, plus one focus item's feature and path and the numbered text of the file at `path.join(extractedDir, code_path)`. |
| Analysis.ModelAskedOnlyThosePrompts | services/analysis.js:83-109 | the tool's result depends on the model only through those prompts. An empty focus list, or one whose files are all missing, asks nothing. |
| Analysis.OutcomesAgree | services/analysis.js:83-108 | two models that agree on the prompts the handler sends produce the same per-item outcomes. |
| Analysis.SubCodeTool | services/analysis.js:75-112 | the `run` handler bound to this request's listing, description and extraction directory; stated by `Prepare`, `AnalysisCode` and `Scenario.ScenarioToolCall`. |
| Analysis.Prepare | services/analysis.js:61-94 | a missing archive fails with `ZipNotFound`, and preparation succeeds exactly when unzipping does. The top-level prompt is rendered from exactly the problem description and the file listing. The tool captures that same listing, the same description and the extraction directory. |
| Analysis.AnalysisCode | services/analysis.js:61-122 | unzip failures propagate unchanged. Otherwise the analysis succeeds exactly when the model, given the prompt and the tool bound to this request, answers, and returns that answer. |
| Scenario.ScenarioListing | utils.js:110-134 | the archive holding `a.js` and `b/b.js` lists exactly `a.js`, then `b/b.js`. |
| Scenario.ScenarioStem | utils.js:25 | the name of `code.zip` without its extension is `code`. |
| Scenario.ScenarioExtractionDir | utils.js:22-28 | `code.zip` extracts to `code`. |
| Scenario.ScenarioToolResults | services/analysis.js:79-112 | asking the tool about `a.js` returns exactly one result, tagged `a.js`. |
| Scenario.ScenarioPrepare | services/analysis.js:61-94 | unzipping `code.zip` yields the prompt built from the problem and the two-file listing, and a tool bound to that listing and to the directory `code`. |
| Scenario.ScenarioToolCall | services/analysis.js:79-112 | the tool bound to this request answers the model's call about `a.js`. |
| Scenario.HealthCheck | services/analysis.js:61-122 | the whole request succeeds and returns the model's report, whose first location is in `a.js`. |

## Left out

- `render` (nunjucks templates, `utils.js:136-138`) is not modelled. The oracles receive the template variables, not rendered text.
- `chatWithTool` and the Anthropic SDK are oracles. They may call the tool handler at will, and their transport and schema errors are the `None` answer. `services/common.js` is not part of this model.
- `JSON.parse` of the model's output and the zod schemas (`services/analysis.js:18-53`) are out of scope: the oracles return the parsed datatypes directly. The order of keys in the tool's `JSON.stringify` output follows the schema's field order; the order of the parsed object's own keys is not modelled.
- Fanout.ParallelLimit: the limit of 5 and the concurrency are not modelled. Items run one after another. When several items reject, `async.parallelLimit` reports whichever rejects first in time, while the model reports the first by position. The handler's items never reject, so the tool is unaffected.
- AdmZip extraction is not modelled. What the extraction directory holds afterwards is an input, and an extraction that throws is `None`.
- `fs.existsSync`, `statSync`, `readdirSync` and `readFileSync` are not modelled as calls. They are replaced by the input tree, by a flag for the archive's existence and by the map of file texts. That map is not tied to the tree.
- UTF-8 decoding is not modelled; file contents are already strings.
- Special files (sockets, devices) are not modelled separately; they are files in the model, as in the code.
- Symbolic-link cycles are not modelled, because the input tree is finite.
- Unzip.ExtractionDir: `path.dirname`, `path.parse` and `path.join` are modelled by splitting and joining on `/` without normalisation. Repeated or trailing slashes and `.`/`..` segments are not collapsed, so `./code.zip` gives `./code` where Node gives `code`.
- Analysis.JoinPath: `path.join(code_root_dir, code_path)` is plain concatenation with `/`, without normalisation. `code_path` comes from the model's tool call unchecked, and `path.join` resolves `..`, so a `code_path` such as `../../etc/passwd` reaches a file outside the extraction directory. The model does not capture this.
- LineNumbers.ReadFileWithLineNumbers: `files` holds only the readable files. A path that exists but cannot be read (a directory, a file without read permission) passes `existsSync` in the code and then `readFileSync` throws its own error. In the model that path is absent from `files` and fails with `FileNotFound`. The only caller turns every error into `null`, so the tool's answer is the same.
- Analysis.OutcomesAgree: the sub-analysis model is a function, so the same prompt always gets the same answer. Two identical focus items in one `focus_file_list` therefore get the same outcome, while the code asks the model twice and one call may fail where the other succeeds. `OutcomesAgree` and `ModelAskedOnlyThosePrompts` are stated under that assumption.
- JsonRead.Parse reads only the compact form `Stringify` writes: no whitespace, keys in the written order, and no `\u` escapes for surrogates. It is there to state what the tool's answer carries, not to model `JSON.parse`.
- `console` logging, `app.js`, `app.test.js`, `consts.js` and `test.js` (HTTP upload, template loading, a manual driver) are not part of this model.
