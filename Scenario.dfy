/** An end-to-end run: an archive holding `a.js` and
    `b/b.js`, a model that asks once about `a.js` and then reports it. */
module Scenario {
  import opened Wrappers
  import opened Text
  import opened DirectoryTree
  import opened FileListing
  import opened Unzip
  import opened Schemas
  import opened Analysis

  const Root: FsNode := FsDir("code", [FsFile("a.js"), FsDir("b", [FsFile("b.js")], true)], true)
  const Item: FocusItem := FocusItem("health check", "a.js")
  const Finding: FeatureLocation := FeatureLocation("health check", "handler", "1-3")
  const Report: AnalysisReport :=
    AnalysisReport([FeatureReport("health check", [ImplementationLocation("a.js", "handler", "1-3")])], "add a route")

  function SubStub(p: SubPromptVars): Option<SubAnalysis>
  {
    if p.codePath == "a.js" then Some(SubAnalysis([Finding])) else None
  }

  /** Calls the tool once with one focus item on `a.js`, then answers `Report`. */
  function TopStub(p: TopPromptVars, tool: ToolHandler): Option<AnalysisReport>
  {
    if tool([Item]).Success? then Some(Report) else None
  }

  lemma ScenarioListing()
    ensures FilePaths(Tree(Root, [])) == ["a.js", "b/b.js"]
  {
    var bDir := FsDir("b", [FsFile("b.js")], true);
    var entries := [FsFile("a.js"), bDir];
    assert [] + ["a.js"] == ["a.js"] && RelPath(["a.js"]) == "a.js";
    assert ["b"] + ["b.js"] == ["b", "b.js"] && RelPath(["b", "b.js"]) == "b/b.js";
    var bLeaf := FileEntry("b/b.js");
    assert Children([FsFile("b.js")], ["b"]) == [bLeaf];
    var bTree := DirEntry("b", [bLeaf]);
    assert [] + ["b"] == ["b"] && RelPath(["b"]) == "b";
    assert Tree(bDir, ["b"]) == bTree;
    assert entries[1..] == [bDir];
    assert Children([bDir], []) == [bTree];
    assert Children(entries, []) == [FileEntry("a.js"), bTree];
    assert [bLeaf][1..] == [] && [bTree][1..] == [];
    assert FilePathsAll([bLeaf]) == ["b/b.js"];
    assert FilePaths(bTree) == ["b/b.js"];
    assert FilePathsAll([bTree]) == ["b/b.js"];
    assert [FileEntry("a.js"), bTree][1..] == [bTree];
    assert FilePathsAll([FileEntry("a.js"), bTree]) == ["a.js"] + FilePathsAll([bTree]);
    assert Tree(Root, []) == DirEntry(".", [FileEntry("a.js"), bTree]);
  }

  lemma ScenarioStem()
    ensures Stem("code.zip") == "code"
  {
    assert "code" + ['.'] + "zip" == "code.zip";
    LastIndexAfter("code", '.', "zip");
  }

  lemma ScenarioExtractionDir()
    ensures ExtractionDir("code.zip") == "code"
  {
    ScenarioStem();
    SplitSingle("code.zip", '/');
    assert Split("code.zip", '/')[..0] + ["code"] == ["code"];
  }

  /** The request's tool context: the listing of the two files, the problem
      description and the extraction directory "code". */
  const Ctx: ToolContext := ToolContext(FileListMarkdown(["a.js", "b/b.js"]), "add a health check", "code")

  /** The tool answers with exactly one result, tagged "a.js". */
  lemma ScenarioToolResults(files: map<string, string>)
    requires "code/a.js" in files
    ensures ToolResults(Ctx, files, SubStub, [Item]) == Success([ToolResult("a.js", [Finding])])
  {
    assert SubFilePath(SubOptionsFor(Ctx, Item)) == "code/a.js";
    assert AnalysisSubCode(SubOptionsFor(Ctx, Item), files, SubStub) == Success(SubAnalysis([Finding]));
    assert Outcomes(Ctx, files, SubStub, [Item]) == [Some(ToolResult("a.js", [Finding]))];
    ToolResultsAreFiltered(Ctx, files, SubStub, [Item]);
    assert FilterSome([Some(ToolResult("a.js", [Finding]))]) == [ToolResult("a.js", [Finding])];
  }

  /** Unzipping `code.zip` prepares the prompt from the problem and the two-file
      listing, and binds the tool to the same listing and the directory "code". */
  lemma ScenarioPrepare()
    ensures Prepare("add a health check", "code.zip", true, Some(Root)) ==
      Success(Request(TopPromptVars("add a health check", Ctx.markdownTree), Ctx))
  {
    ScenarioListing();
    ScenarioExtractionDir();
  }

  /** The tool bound to this request answers the model's one call. */
  lemma ScenarioToolCall(files: map<string, string>)
    requires "code/a.js" in files
    ensures SubCodeTool(Ctx, files, SubStub)([Item]).Success?
  {
    ScenarioToolResults(files);
    assert SubCodeTool(Ctx, files, SubStub)([Item]) == RunSubCodeTool(Ctx, files, SubStub, [Item]);
  }

  /** The analysis returns the model's report, whose first location is in `a.js`. */
  lemma HealthCheck(files: map<string, string>)
    requires "code/a.js" in files
    ensures AnalysisCode("add a health check", "code.zip", true, Some(Root), files, SubStub, TopStub) == Success(Report)
  {
    ScenarioPrepare();
    ScenarioToolCall(files);
    assert TopStub(TopPromptVars("add a health check", Ctx.markdownTree), SubCodeTool(Ctx, files, SubStub)) == Some(Report);
  }
}
