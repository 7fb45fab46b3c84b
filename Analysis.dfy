/** services/analysis.js: the top-level analysis `analysisCode`, the per-file
    `analysisSubCode`, and the `run` handler of the `code_file_analysis` tool
    that fans focus items out to sub-analyses. Rendering a template and asking
    the model are oracles: they receive the template variables and answer with
    the parsed JSON, or `None` when rendering, the model call or `JSON.parse`
    throws. */
module Analysis {
  import opened Wrappers
  import opened LineNumbers
  import opened DirectoryTree
  import opened FileListing
  import opened Unzip
  import opened Fanout
  import opened Schemas
  import opened Json
  import opened JsonRead
  import opened Text

  /** The variables of the top-level template. */
  datatype TopPromptVars = TopPromptVars(problemDescription: string, codeRepoStructure: string)

  /** The variables of the sub-analysis template. */
  datatype SubPromptVars = SubPromptVars(
    problemDescription: string, focusFeature: string, codeRepoStructure: string,
    codePath: string, codeContent: string)

  /** The `options` of `analysisSubCode`. */
  datatype SubOptions = SubOptions(
    codeRepoStructure: string, problemDescription: string, focusFeature: string,
    codeRootDir: string, codePath: string)

  /** What the tool handler captures from `analysisCode`. */
  datatype ToolContext = ToolContext(markdownTree: string, problemDescription: string, extractedDir: string)

  /** Render the sub-analysis template, `chatWithTool(prompt, [], subAnalysisOutputSchema)`, `JSON.parse`. */
  type SubModel = SubPromptVars -> Option<SubAnalysis>

  /** The `run` handler of the tool, as the model sees it. */
  type ToolHandler = seq<FocusItem> -> Result<string, Error>

  /** Render the top-level template, `chatWithTool(prompt, [subCodeTool], analysisOutputSchema)`
      (which may call the handler any number of times), `JSON.parse`. */
  type TopModel = (TopPromptVars, ToolHandler) -> Option<AnalysisReport>

  /** `path.join(dir, rel)`, without normalisation. */
  function JoinPath(dir: string, rel: string): string
  {
    dir + "/" + rel
  }

  /** The joined path's segments are the directory's followed by the relative path's. */
  lemma JoinPathSegments(dir: string, rel: string)
    ensures Split(JoinPath(dir, rel), '/') == Split(dir, '/') + Split(rel, '/')
  {
    SplitAround(dir, '/', rel);
  }

  // ---------------------------------------------------------------------------
  // analysisSubCode

  /** The file a sub-analysis reads. */
  function SubFilePath(options: SubOptions): string
  {
    JoinPath(options.codeRootDir, options.codePath)
  }

  /** The sub-analysis template variables for a file with text `text`. */
  function SubPrompt(options: SubOptions, text: string): SubPromptVars
  {
    SubPromptVars(options.problemDescription, options.focusFeature, options.codeRepoStructure,
                  options.codePath, WithLineNumbers(text))
  }

  /** Four template variables pass through unchanged; the fifth, `code_content`,
      is the file's text numbered line by line, which gives back the text once
      the numbers are stripped. */
  lemma SubPromptVariables(options: SubOptions, text: string)
    ensures SubPrompt(options, text).problemDescription == options.problemDescription
    ensures SubPrompt(options, text).focusFeature == options.focusFeature
    ensures SubPrompt(options, text).codeRepoStructure == options.codeRepoStructure
    ensures SubPrompt(options, text).codePath == options.codePath
    ensures StripLineNumbers(SubPrompt(options, text).codeContent) == Some(text)
  {
    StripWithLineNumbers(text);
  }

  /** `analysisSubCode(options)`: a missing file throws before the model is
      asked; otherwise the answer is the model's to the numbered prompt. */
  function AnalysisSubCode(options: SubOptions, files: Files, model: SubModel): (r: Result<SubAnalysis, Error>)
    ensures SubFilePath(options) !in files ==> r == Failure(FileNotFound(SubFilePath(options)))
    ensures SubFilePath(options) in files ==>
      var answer := model(SubPrompt(options, files[SubFilePath(options)]));
      (r.Success? <==> answer.Some?) && (r.Success? ==> r.value == answer.value)
  {
    match ReadFileWithLineNumbers(files, SubFilePath(options))
    case Failure(e) => Failure(e)
    case Success(codeContent) =>
      var prompt := SubPromptVars(options.problemDescription, options.focusFeature,
                                  options.codeRepoStructure, options.codePath, codeContent);
      match model(prompt)
      case None => Failure(ModelError)
      case Some(answer) => Success(answer)
  }

  // ---------------------------------------------------------------------------
  // The `run` handler of `code_file_analysis`

  /** The options `func` passes to `analysisSubCode` for one focus item. */
  function SubOptionsFor(ctx: ToolContext, item: FocusItem): SubOptions
  {
    SubOptions(ctx.markdownTree, ctx.problemDescription, item.focusFeature, ctx.extractedDir, item.codePath)
  }

  /** `func(item)`: the sub-analysis tagged with the item's `code_path`, or
      `null` (`None`) when it throws. */
  function ItemOutcome(ctx: ToolContext, files: Files, model: SubModel, item: FocusItem): (r: Option<ToolResult>)
    ensures r.Some? <==> AnalysisSubCode(SubOptionsFor(ctx, item), files, model).Success?
    ensures r.Some? ==>
      (r.value.codePath == item.codePath &&
       r.value.featureAnalysis == AnalysisSubCode(SubOptionsFor(ctx, item), files, model).value.featureAnalysis)
  {
    match AnalysisSubCode(SubOptionsFor(ctx, item), files, model)
    case Failure(_) => None
    case Success(result) => Some(ToolResult(item.codePath, result.featureAnalysis))
  }

  /** `func` as the task handed to `parallelLimit`: its `try`/`catch` means it never rejects. */
  function Worker(ctx: ToolContext, files: Files, model: SubModel): (r: FocusItem -> Result<Option<ToolResult>, Error>)
    ensures forall item :: r(item).Success?
  {
    item => Success(ItemOutcome(ctx, files, model, item))
  }

  /** `results.filter(item => !!item)`. */
  function FilterSome<R>(outcomes: seq<Option<R>>): (r: seq<R>)
    ensures |r| <= |outcomes|
    ensures forall k :: 0 <= k < |r| ==> Some(r[k]) in outcomes
    ensures forall i :: 0 <= i < |outcomes| && outcomes[i].Some? ==> outcomes[i].value in r
  {
    if outcomes == [] then []
    else
      assert forall i :: 1 <= i < |outcomes| ==> outcomes[i] == outcomes[1..][i - 1];
      (if outcomes[0].Some? then [outcomes[0].value] else []) + FilterSome(outcomes[1..])
  }

  /** The positions of the non-null outcomes, in increasing order. */
  function SurvivorIndices<R>(outcomes: seq<Option<R>>): (r: seq<nat>)
    ensures |r| <= |outcomes|
    ensures forall k :: 0 <= k < |r| ==> r[k] < |outcomes| && outcomes[r[k]].Some?
  {
    if outcomes == [] then []
    else (if outcomes[0].Some? then [0] else []) + Shift(SurvivorIndices(outcomes[1..]))
  }

  function Shift(indices: seq<nat>): (r: seq<nat>)
    ensures |r| == |indices| && forall k :: 0 <= k < |indices| ==> r[k] == indices[k] + 1
  {
    if indices == [] then [] else [indices[0] + 1] + Shift(indices[1..])
  }

  /** The positions are listed in increasing order. */
  lemma {:induction false} SurvivorsIncrease<R>(outcomes: seq<Option<R>>)
    ensures forall k, l :: 0 <= k < l < |SurvivorIndices(outcomes)| ==>
      SurvivorIndices(outcomes)[k] < SurvivorIndices(outcomes)[l]
  {
    if outcomes != [] {
      SurvivorsIncrease(outcomes[1..]);
    }
  }

  /** Every non-null outcome's position is listed. */
  lemma {:induction false} SurvivorsComplete<R>(outcomes: seq<Option<R>>)
    ensures forall i :: 0 <= i < |outcomes| && outcomes[i].Some? ==> i in SurvivorIndices(outcomes)
  {
    if outcomes != [] {
      var rest := outcomes[1..];
      var shifted := Shift(SurvivorIndices(rest));
      SurvivorsComplete(rest);
      assert SurvivorIndices(outcomes) == (if outcomes[0].Some? then [0] else []) + shifted;
      forall i | 1 <= i < |outcomes| && outcomes[i].Some? ensures i in shifted {
        assert rest[i - 1].Some?;
        assert i - 1 in SurvivorIndices(rest);
        var k :| 0 <= k < |SurvivorIndices(rest)| && SurvivorIndices(rest)[k] == i - 1;
        assert shifted[k] == i;
      }
    }
  }

  /** When no outcome is null, every position is listed. */
  lemma {:induction false} SurvivorsAll<R>(outcomes: seq<Option<R>>)
    requires forall i :: 0 <= i < |outcomes| ==> outcomes[i].Some?
    ensures |SurvivorIndices(outcomes)| == |outcomes|
  {
    if outcomes != [] {
      var rest := outcomes[1..];
      assert forall i :: 0 <= i < |rest| ==> rest[i].Some?;
      SurvivorsAll(rest);
    }
  }

  /** `vals[k]` is the value of the outcome at position `idx[k]`. */
  ghost predicate Aligned<R>(vals: seq<R>, outcomes: seq<Option<R>>, idx: seq<nat>)
  {
    |vals| == |idx| &&
    forall k :: 0 <= k < |idx| ==> idx[k] < |outcomes| && outcomes[idx[k]].Some? && vals[k] == outcomes[idx[k]].value
  }

  /** Putting an outcome in front moves every listed position up by one. */
  lemma ShiftAligned<R>(x: Option<R>, rest: seq<Option<R>>, vals: seq<R>, idx: seq<nat>)
    requires Aligned(vals, rest, idx)
    ensures Aligned(vals, [x] + rest, Shift(idx))
  {
    var all := [x] + rest;
    var shifted := Shift(idx);
    forall k | 0 <= k < |idx|
      ensures shifted[k] < |all| && all[shifted[k]].Some? && vals[k] == all[shifted[k]].value
    {
      assert shifted[k] == idx[k] + 1;
      assert all[idx[k] + 1] == rest[idx[k]];
    }
  }

  /** A non-null outcome in front is listed first, at position 0. */
  lemma HeadAligned<R>(all: seq<Option<R>>, vals: seq<R>, idx: seq<nat>)
    requires Aligned(vals, all, idx) && |all| > 0 && all[0].Some?
    ensures Aligned([all[0].value] + vals, all, [0] + idx)
  {
    var vals', idx' := [all[0].value] + vals, [0] + idx;
    forall k | 1 <= k < |idx'|
      ensures idx'[k] < |all| && all[idx'[k]].Some? && vals'[k] == all[idx'[k]].value
    {
      assert idx'[k] == idx[k - 1] && vals'[k] == vals[k - 1];
    }
  }

  /** Filtering keeps exactly the non-null outcomes, in their original order:
      survivor k is the outcome at the k-th non-null position. */
  lemma {:induction false} FilterKeepsOrder<R>(outcomes: seq<Option<R>>)
    ensures |FilterSome(outcomes)| == |SurvivorIndices(outcomes)|
    ensures forall k :: 0 <= k < |SurvivorIndices(outcomes)| ==>
      FilterSome(outcomes)[k] == outcomes[SurvivorIndices(outcomes)[k]].value
  {
    AlignedFilter(outcomes);
  }

  lemma {:induction false} AlignedFilter<R>(outcomes: seq<Option<R>>)
    ensures Aligned(FilterSome(outcomes), outcomes, SurvivorIndices(outcomes))
  {
    if outcomes != [] {
      var rest := outcomes[1..];
      AlignedFilter(rest);
      assert [outcomes[0]] + rest == outcomes;
      ShiftAligned(outcomes[0], rest, FilterSome(rest), SurvivorIndices(rest));
      if outcomes[0].Some? {
        HeadAligned(outcomes, FilterSome(rest), Shift(SurvivorIndices(rest)));
      }
    }
  }

  /** The list `run` builds before serialising it; a rejected batch would be
      the handler's error. */
  function ToolResults(ctx: ToolContext, files: Files, model: SubModel, focusFileList: seq<FocusItem>)
    : Result<seq<ToolResult>, Error>
  {
    match MapInOrder(focusFileList, Worker(ctx, files, model))
    case Failure(e) => Failure(e)
    case Success(results) => Success(FilterSome(results))
  }

  /** `run({focus_file_list})`. */
  function RunSubCodeTool(ctx: ToolContext, files: Files, model: SubModel, focusFileList: seq<FocusItem>)
    : Result<string, Error>
  {
    match ToolResults(ctx, files, model, focusFileList)
    case Failure(e) => Failure(e)
    case Success(validResults) => Success(Stringify(validResults))
  }

  /** The outcome of each focus item, by position. */
  function Outcomes(ctx: ToolContext, files: Files, model: SubModel, focusFileList: seq<FocusItem>)
    : (r: seq<Option<ToolResult>>)
    ensures |r| == |focusFileList|
    ensures forall i :: 0 <= i < |focusFileList| ==> r[i] == ItemOutcome(ctx, files, model, focusFileList[i])
  {
    if focusFileList == [] then []
    else
      var rest := Outcomes(ctx, files, model, focusFileList[1..]);
      assert forall i :: 1 <= i < |focusFileList| ==> focusFileList[1..][i - 1] == focusFileList[i];
      [ItemOutcome(ctx, files, model, focusFileList[0])] + rest
  }

  /** The handler never rejects: every failing sub-analysis is caught, and the
      list it returns is the non-null outcomes in focus-item order. */
  lemma ToolResultsAreFiltered(ctx: ToolContext, files: Files, model: SubModel, focusFileList: seq<FocusItem>)
    ensures ToolResults(ctx, files, model, focusFileList) == Success(FilterSome(Outcomes(ctx, files, model, focusFileList)))
  {
    var mapped := MapInOrder(focusFileList, Worker(ctx, files, model));
    assert forall i :: 0 <= i < |focusFileList| ==> Worker(ctx, files, model)(focusFileList[i]).Success?;
    assert mapped.value == Outcomes(ctx, files, model, focusFileList);
  }

  /** The text the handler hands back to the model parses back to exactly the
      surviving results, in focus-item order. */
  lemma ToolAnswerParses(ctx: ToolContext, files: Files, model: SubModel, focusFileList: seq<FocusItem>)
    ensures RunSubCodeTool(ctx, files, model, focusFileList).Success?
    ensures Parse(RunSubCodeTool(ctx, files, model, focusFileList).value)
         == Some(FilterSome(Outcomes(ctx, files, model, focusFileList)))
  {
    ToolResultsAreFiltered(ctx, files, model, focusFileList);
    ParseStringify(FilterSome(Outcomes(ctx, files, model, focusFileList)));
  }

  /** The positions of the focus items whose sub-analysis succeeds. */
  function Survivors(ctx: ToolContext, files: Files, model: SubModel, focusFileList: seq<FocusItem>): seq<nat>
  {
    SurvivorIndices(Outcomes(ctx, files, model, focusFileList))
  }

  /** Result k of the tool comes from focus item `Survivors[k]`: it carries that
      item's `code_path` and its sub-analysis's `feature_analysis` unchanged. */
  lemma ToolResultsTagged(ctx: ToolContext, files: Files, model: SubModel, focusFileList: seq<FocusItem>)
    ensures ToolResults(ctx, files, model, focusFileList).Success?
    ensures |ToolResults(ctx, files, model, focusFileList).value| == |Survivors(ctx, files, model, focusFileList)|
    ensures forall k :: 0 <= k < |Survivors(ctx, files, model, focusFileList)| ==>
      var item := focusFileList[Survivors(ctx, files, model, focusFileList)[k]];
      var result := ToolResults(ctx, files, model, focusFileList).value[k];
      var sub := AnalysisSubCode(SubOptionsFor(ctx, item), files, model);
      result.codePath == item.codePath && sub.Success? && result.featureAnalysis == sub.value.featureAnalysis
  {
    ToolResultsAreFiltered(ctx, files, model, focusFileList);
    FilterKeepsOrder(Outcomes(ctx, files, model, focusFileList));
  }

  /** The survivors keep the order of their focus items; an item is left out
      exactly when its sub-analysis throws; so there are at most as many
      results as focus items, and as many when none fails. */
  lemma ToolResultsKeepOrder(ctx: ToolContext, files: Files, model: SubModel, focusFileList: seq<FocusItem>)
    ensures var idx := Survivors(ctx, files, model, focusFileList);
      forall k, l :: 0 <= k < l < |idx| ==> idx[k] < idx[l]
    ensures forall i :: 0 <= i < |focusFileList| ==>
      (i in Survivors(ctx, files, model, focusFileList) <==>
       AnalysisSubCode(SubOptionsFor(ctx, focusFileList[i]), files, model).Success?)
    ensures ToolResults(ctx, files, model, focusFileList).Success?
    ensures |ToolResults(ctx, files, model, focusFileList).value| <= |focusFileList|
    ensures (forall i :: 0 <= i < |focusFileList| ==>
               AnalysisSubCode(SubOptionsFor(ctx, focusFileList[i]), files, model).Success?) ==>
      |ToolResults(ctx, files, model, focusFileList).value| == |focusFileList|
  {
    var outcomes := Outcomes(ctx, files, model, focusFileList);
    ToolResultsAreFiltered(ctx, files, model, focusFileList);
    FilterKeepsOrder(outcomes);
    SurvivorsIncrease(outcomes);
    SurvivorsComplete(outcomes);
    if forall i :: 0 <= i < |focusFileList| ==>
         AnalysisSubCode(SubOptionsFor(ctx, focusFileList[i]), files, model).Success? {
      SurvivorsAll(outcomes);
    }
  }

  /** An empty `focus_file_list` gives the empty list, serialised "[]", whatever the model. */
  lemma EmptyFocusList(ctx: ToolContext, files: Files, model: SubModel)
    ensures RunSubCodeTool(ctx, files, model, []) == Success("[]")
  {
    StringifyEmpty();
  }

  /** The prompts the sub-analyses put to the model: one per focus item whose
      file exists, in focus-item order. */
  function AskedPrompts(ctx: ToolContext, files: Files, focusFileList: seq<FocusItem>): seq<SubPromptVars>
  {
    if focusFileList == [] then []
    else
      var options := SubOptionsFor(ctx, focusFileList[0]);
      (if SubFilePath(options) in files then [SubPrompt(options, files[SubFilePath(options)])] else []) +
      AskedPrompts(ctx, files, focusFileList[1..])
  }

  /** `p` is the prompt built for `item`: the request's problem description and
      listing, the item's feature and path, and the numbered text of the file at
      `JoinPath(ctx.extractedDir, item.codePath)`. */
  ghost predicate PromptFor(ctx: ToolContext, files: Files, item: FocusItem, p: SubPromptVars)
  {
    var path := JoinPath(ctx.extractedDir, item.codePath);
    p.problemDescription == ctx.problemDescription && p.codeRepoStructure == ctx.markdownTree &&
    p.focusFeature == item.focusFeature && p.codePath == item.codePath &&
    path in files && StripLineNumbers(p.codeContent) == Some(files[path])
  }

  /** Every prompt a sub-analysis sends carries the request's problem
      description and file listing, and one focus item's feature, path and
      numbered file text. */
  lemma {:induction false} AskedPromptsShareContext(ctx: ToolContext, files: Files, focusFileList: seq<FocusItem>)
    ensures forall p :: p in AskedPrompts(ctx, files, focusFileList) ==>
      exists i :: 0 <= i < |focusFileList| && PromptFor(ctx, files, focusFileList[i], p)
  {
    if focusFileList != [] {
      var rest := focusFileList[1..];
      AskedPromptsShareContext(ctx, files, rest);
      var options := SubOptionsFor(ctx, focusFileList[0]);
      if SubFilePath(options) in files {
        SubPromptVariables(options, files[SubFilePath(options)]);
        assert PromptFor(ctx, files, focusFileList[0], SubPrompt(options, files[SubFilePath(options)]));
      }
      forall p | p in AskedPrompts(ctx, files, rest)
        ensures exists i :: 0 <= i < |focusFileList| && PromptFor(ctx, files, focusFileList[i], p)
      {
        var i :| 0 <= i < |rest| && PromptFor(ctx, files, rest[i], p);
        assert focusFileList[i + 1] == rest[i];
      }
    }
  }

  /** The handler consults the model only on `AskedPrompts`: two models that
      agree there give the same tool result. So an empty focus list, or one
      whose files are all missing, asks the model nothing. */
  lemma {:induction false} ModelAskedOnlyThosePrompts(
    ctx: ToolContext, files: Files, m1: SubModel, m2: SubModel, focusFileList: seq<FocusItem>)
    requires forall p :: p in AskedPrompts(ctx, files, focusFileList) ==> m1(p) == m2(p)
    ensures ToolResults(ctx, files, m1, focusFileList) == ToolResults(ctx, files, m2, focusFileList)
  {
    OutcomesAgree(ctx, files, m1, m2, focusFileList);
    ToolResultsAreFiltered(ctx, files, m1, focusFileList);
    ToolResultsAreFiltered(ctx, files, m2, focusFileList);
  }

  lemma {:induction false} OutcomesAgree(
    ctx: ToolContext, files: Files, m1: SubModel, m2: SubModel, focusFileList: seq<FocusItem>)
    requires forall p :: p in AskedPrompts(ctx, files, focusFileList) ==> m1(p) == m2(p)
    ensures Outcomes(ctx, files, m1, focusFileList) == Outcomes(ctx, files, m2, focusFileList)
  {
    if focusFileList != [] {
      var options := SubOptionsFor(ctx, focusFileList[0]);
      OutcomesAgree(ctx, files, m1, m2, focusFileList[1..]);
      if SubFilePath(options) in files {
        var p := SubPrompt(options, files[SubFilePath(options)]);
        assert p in AskedPrompts(ctx, files, focusFileList);
      }
      assert ItemOutcome(ctx, files, m1, focusFileList[0]) == ItemOutcome(ctx, files, m2, focusFileList[0]);
    }
  }

  // ---------------------------------------------------------------------------
  // analysisCode

  /** The handler the model is given: `run` bound to this request's context. */
  function SubCodeTool(ctx: ToolContext, files: Files, model: SubModel): ToolHandler
  {
    focusFileList => RunSubCodeTool(ctx, files, model, focusFileList)
  }

  /** What `analysisCode` prepares before asking the model: the top-level
      template variables and the context its tool captures. */
  datatype Request = Request(prompt: TopPromptVars, tool: ToolContext)

  /** The first half of `analysisCode(problem_description, zip_file_path)`:
      unzip, describe, and render from exactly the problem description and the
      file listing; the tool captures that same listing, the same description
      and the extraction directory. */
  function Prepare(problemDescription: string, zipPath: string, zipExists: bool, extracted: Option<FsNode>)
    : (r: Result<Request, Error>)
    ensures !zipExists ==> r == Failure(ZipNotFound(zipPath))
    ensures r.Success? <==> UnzipResult(zipPath, zipExists, extracted).Success?
    ensures r.Success? ==>
      var listing := FileListMarkdown(FilePaths(Tree(extracted.value, [])));
      r.value.prompt == TopPromptVars(problemDescription, listing) &&
      r.value.tool == ToolContext(listing, problemDescription, ExtractionDir(zipPath))
  {
    match UnzipResult(zipPath, zipExists, extracted)
    case Failure(e) => Failure(e)
    case Success(u) =>
      Success(Request(TopPromptVars(problemDescription, u.markdownTree),
                      ToolContext(u.markdownTree, problemDescription, u.extractedDir)))
  }

  /** `analysisCode(problem_description, zip_file_path)`. */
  function AnalysisCode(
    problemDescription: string, zipPath: string, zipExists: bool, extracted: Option<FsNode>,
    files: Files, subModel: SubModel, topModel: TopModel): (r: Result<AnalysisReport, Error>)
    ensures !zipExists ==> r == Failure(ZipNotFound(zipPath))
    ensures Prepare(problemDescription, zipPath, zipExists, extracted).Failure? ==>
      r == Failure(Prepare(problemDescription, zipPath, zipExists, extracted).error)
    ensures Prepare(problemDescription, zipPath, zipExists, extracted).Success? ==>
      var req := Prepare(problemDescription, zipPath, zipExists, extracted).value;
      var answer := topModel(req.prompt, SubCodeTool(req.tool, files, subModel));
      (r.Success? <==> answer.Some?) && (r.Success? ==> r.value == answer.value)
  {
    match Prepare(problemDescription, zipPath, zipExists, extracted)
    case Failure(e) => Failure(e)
    case Success(req) =>
      match topModel(req.prompt, SubCodeTool(req.tool, files, subModel))
      case None => Failure(ModelError)
      case Some(report) => Success(report)
  }
}
