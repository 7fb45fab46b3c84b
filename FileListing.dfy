/** `convertDirectoryTreeToMarkdown` (utils.js): collect the paths of the file
    records depth first and list them, one "- <path>" line each, inside a fixed
    Markdown heading and code fence. */
module FileListing {
  import opened Wrappers
  import opened Text
  import opened Seqs
  import opened DirectoryTree

  /** The paths `collectFilePaths` pushes: a file record gives its own path, a
      directory record those of its children in order. */
  function FilePaths(e: Entry): seq<string>
    decreases e
  {
    match e
    case FileEntry(p) => [p]
    case DirEntry(_, children) => FilePathsAll(children)
  }

  function FilePathsAll(children: seq<Entry>): seq<string>
    decreases children
  {
    if children == [] then [] else FilePaths(children[0]) + FilePathsAll(children[1..])
  }

  /** The accumulator `filePaths` shared by the recursive calls of `collectFilePaths`. */
  class PathCollector {
    var filePaths: seq<string>

    constructor ()
      ensures filePaths == []
    {
      filePaths := [];
    }

    /** `collectFilePaths(item)`. */
    method Collect(item: Entry)
      modifies this
      ensures filePaths == old(filePaths) + FilePaths(item)
      decreases item
    {
      if item.FileEntry? {
        filePaths := filePaths + [item.path];
      } else if |item.children| > 0 {
        var children := item.children;
        var i := 0;
        while i < |children|
          invariant 0 <= i <= |children|
          invariant filePaths + FilePathsAll(children[i..]) == old(filePaths) + FilePaths(item)
        {
          assert children[i..][1..] == children[i + 1..];
          Collect(children[i]);
          i := i + 1;
        }
      }
    }
  }

  const Header: string := "# 项目文件列表\n\n```\n"
  const Footer: string := "\n```"
  const HeaderLines: seq<string> := ["# 项目文件列表", "", "```"]

  /** One "- <path>" line per path. */
  function ListLines(paths: seq<string>): (r: seq<string>)
    ensures |r| == |paths|
    ensures forall i :: 0 <= i < |paths| ==> r[i] == "- " + paths[i]
  {
    if paths == [] then [] else ["- " + paths[0]] + ListLines(paths[1..])
  }

  /** The Markdown that wraps the listing: heading, blank line, fence, the lines, fence. */
  function FileListMarkdown(paths: seq<string>): string
  {
    Header + Join(ListLines(paths), "\n") + Footer
  }

  /** `convertDirectoryTreeToMarkdown(tree)`. */
  method ConvertDirectoryTreeToMarkdown(tree: Entry) returns (md: string)
    ensures md == FileListMarkdown(FilePaths(tree))
  {
    var collector := new PathCollector();
    collector.Collect(tree);
    assert collector.filePaths == FilePaths(tree);
    md := Header + Join(ListLines(collector.filePaths), "\n") + Footer;
  }

  // ---------------------------------------------------------------------------
  // What the listing holds

  /** The paths of the file records among `records`, in order (a reference
      definition independent of the recursion of `collectFilePaths`). */
  function FileRecordPaths(records: seq<Entry>): seq<string>
  {
    if records == [] then []
    else (if records[0].FileEntry? then [records[0].path] else []) + FileRecordPaths(records[1..])
  }

  lemma {:induction false} FileRecordPathsConcat(a: seq<Entry>, b: seq<Entry>)
    ensures FileRecordPaths(a + b) == FileRecordPaths(a) + FileRecordPaths(b)
  {
    if a == [] {
      assert a + b == b;
    } else {
      FileRecordPathsConcat(a[1..], b);
      var head := if a[0].FileEntry? then [a[0].path] else [];
      assert (a + b)[0] == a[0];
      assert (a + b)[1..] == a[1..] + b;
      assert FileRecordPaths(a + b) == head + (FileRecordPaths(a[1..]) + FileRecordPaths(b));
      assert FileRecordPaths(a) == head + FileRecordPaths(a[1..]);
    }
  }

  /** The listing holds exactly the paths of the `type === 'file'` records, in
      depth-first pre-order; directory records, empty ones included, give none. */
  lemma {:induction false} FilePathsAreFileRecords(e: Entry)
    ensures FilePaths(e) == FileRecordPaths(Preorder(e))
    decreases e
  {
    match e
    case FileEntry(p) =>
    case DirEntry(_, children) =>
      FilePathsAllAreFileRecords(children);
      FileRecordPathsConcat([e], PreorderAll(children));
  }

  lemma {:induction false} FilePathsAllAreFileRecords(children: seq<Entry>)
    ensures FilePathsAll(children) == FileRecordPaths(PreorderAll(children))
    decreases children
  {
    if children != [] {
      FilePathsAreFileRecords(children[0]);
      FilePathsAllAreFileRecords(children[1..]);
      FileRecordPathsConcat(Preorder(children[0]), PreorderAll(children[1..]));
    }
  }

  lemma {:induction false} FileRecordPathsDistinct(records: seq<Entry>)
    requires forall i, j :: 0 <= i < j < |records| ==> records[i].path != records[j].path
    ensures Distinct(FileRecordPaths(records))
    ensures forall p :: p in FileRecordPaths(records) ==>
      exists k :: 0 <= k < |records| && records[k].FileEntry? && records[k].path == p
  {
    if records != [] {
      var rest := FileRecordPaths(records[1..]);
      FileRecordPathsDistinct(records[1..]);
      forall p | p in rest ensures exists k :: 0 <= k < |records| && records[k].FileEntry? && records[k].path == p {
        var k :| 0 <= k < |records[1..]| && records[1..][k].FileEntry? && records[1..][k].path == p;
        assert records[k + 1].FileEntry? && records[k + 1].path == p;
      }
      if records[0].FileEntry? {
        DistinctConcat([records[0].path], rest);
      }
    }
  }

  /** In a well-formed extraction directory the listing names every file once,
      and never the root ".". */
  lemma ListedPathsUnique(root: FsNode)
    requires !root.FsBroken? && WellFormed(root)
    ensures Distinct(FilePaths(Tree(root, [])))
    ensures "." !in FilePaths(Tree(root, []))
  {
    var p := Preorder(Tree(root, []));
    RelativePaths(root);
    FilePathsAreFileRecords(Tree(root, []));
    FileRecordPathsDistinct(p);
    forall q | q in FileRecordPaths(p) ensures q != "." {
      var k :| 0 <= k < |p| && p[k].FileEntry? && p[k].path == q;
      assert k != 0;
    }
  }

  // ---------------------------------------------------------------------------
  // The Markdown text and reading it back

  /** The lines between the fences: one per path, or a single empty line. */
  function BodyLines(paths: seq<string>): (r: seq<string>)
    ensures |r| >= 1
  {
    if paths == [] then [""] else ListLines(paths)
  }

  lemma ListingIsJoin(paths: seq<string>)
    ensures FileListMarkdown(paths) == Join(HeaderLines + BodyLines(paths) + ["```"], "\n")
  {
    var body := BodyLines(paths);
    assert Join(body, "\n") == Join(ListLines(paths), "\n");
    JoinConcat(body, ["```"], "\n");
    JoinConcat(HeaderLines, body + ["```"], "\n");
    assert HeaderLines + body + ["```"] == HeaderLines + (body + ["```"]);
    assert Join(HeaderLines, "\n") + "\n" == Header;
  }

  /** The lines of the listing: the three heading lines, one "- <path>" line per
      path (a single empty line when there is none), and the closing fence. */
  lemma MarkdownLines(paths: seq<string>)
    requires forall i :: 0 <= i < |paths| ==> '\n' !in paths[i]
    ensures Split(FileListMarkdown(paths), '\n') == HeaderLines + BodyLines(paths) + ["```"]
  {
    var all := HeaderLines + BodyLines(paths) + ["```"];
    ListingIsJoin(paths);
    forall i | 0 <= i < |all| ensures '\n' !in all[i] {
      if 3 <= i < |all| - 1 && paths != [] {
        assert all[i] == ListLines(paths)[i - 3] == "- " + paths[i - 3];
      }
    }
    SplitJoin(all, '\n');
  }

  /** With no files the listing is the heading and an empty fence. */
  lemma EmptyListing()
    ensures FileListMarkdown([]) == "# 项目文件列表\n\n```\n\n```"
  {
  }

  /** Reads the paths back from the lines of a listing. */
  function UnlistLines(lines: seq<string>): Option<seq<string>>
  {
    if lines == [] then Some([])
    else if |lines[0]| >= 2 && lines[0][..2] == "- " then
      match UnlistLines(lines[1..])
      case None => None
      case Some(rest) => Some([lines[0][2..]] + rest)
    else None
  }

  /** Reads the paths back from a listing; `None` when the text is not one. */
  function ParseFileList(md: string): Option<seq<string>>
  {
    var lines := Split(md, '\n');
    if |lines| < 4 || lines[..3] != HeaderLines || lines[|lines| - 1] != "```" then None
    else if lines[3..|lines| - 1] == [""] then Some([])
    else UnlistLines(lines[3..|lines| - 1])
  }

  lemma {:induction false} UnlistListLines(paths: seq<string>)
    ensures UnlistLines(ListLines(paths)) == Some(paths)
  {
    if paths != [] {
      UnlistListLines(paths[1..]);
      assert ListLines(paths)[1..] == ListLines(paths[1..]);
      assert [paths[0]] + paths[1..] == paths;
    }
  }

  /** Reading a listing gives back exactly the listed paths, in order, when no
      path contains a line break. */
  lemma ParseFileListMarkdown(paths: seq<string>)
    requires forall i :: 0 <= i < |paths| ==> '\n' !in paths[i]
    ensures ParseFileList(FileListMarkdown(paths)) == Some(paths)
  {
    MarkdownLines(paths);
    var lines := Split(FileListMarkdown(paths), '\n');
    var body := BodyLines(paths);
    assert lines[..3] == HeaderLines;
    assert lines[3..|lines| - 1] == body;
    if paths != [] {
      assert ListLines(paths)[0] == "- " + paths[0];
      UnlistListLines(paths);
    }
  }
}
