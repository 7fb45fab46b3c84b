/** `unzipAndGetDirectoryTree` (utils.js): check that the archive exists, extract
    it beside itself into a directory named after it, and describe that directory. */
module Unzip {
  import opened Wrappers
  import opened Text
  import opened DirectoryTree
  import opened FileListing

  /** Index of the last `c` in `s`. */
  function LastIndexOf(s: string, c: char): (r: Option<nat>)
    ensures r.Some? ==> r.value < |s| && s[r.value] == c && c !in s[r.value + 1..]
    ensures r.None? ==> c !in s
  {
    if s == [] then None
    else if s[|s| - 1] == c then Some(|s| - 1)
    else
      var r := LastIndexOf(s[..|s| - 1], c);
      assert s == s[..|s| - 1] + [s[|s| - 1]];
      r
  }

  /** The last `c` of `p + [c] + t`, when `t` holds no `c`, is the one after `p`. */
  lemma {:induction false} LastIndexAfter(p: string, c: char, t: string)
    requires c !in t
    ensures LastIndexOf(p + [c] + t, c) == Some(|p|)
    decreases |t|
  {
    var s := p + [c] + t;
    if t != [] {
      var t' := t[..|t| - 1];
      assert s[|s| - 1] == t[|t| - 1];
      assert s[..|s| - 1] == p + [c] + t';
      LastIndexAfter(p, c, t');
    }
  }

  /** Where `path.parse(base).ext` starts: at the last '.', unless that dot is
      the first character (".profile") or the name is "..". */
  function ExtensionStart(base: string): (r: Option<nat>)
    ensures r.Some? ==> 0 < r.value < |base| && base[r.value] == '.' && '.' !in base[r.value + 1..]
    ensures r.None? <==> base == ".." || forall i :: 0 < i < |base| ==> base[i] != '.'
  {
    match LastIndexOf(base, '.')
    case None => None
    case Some(d) =>
      if d == 0 then
        assert forall i :: 0 < i < |base| ==> base[i] == base[1..][i - 1];
        None
      else if base == ".." then None
      else Some(d)
  }

  /** `path.parse(base).name`: the base name without its extension. */
  function Stem(base: string): string
  {
    match ExtensionStart(base)
    case None => base
    case Some(d) => base[..d]
  }

  /** `path.parse(base).ext`. */
  function Extension(base: string): string
  {
    match ExtensionStart(base)
    case None => ""
    case Some(d) => base[d..]
  }

  /** A base name is its stem followed by its extension; the extension is empty
      or one '.' and no other; the stem of a non-empty name is non-empty; and
      there is an extension exactly when the name is not ".." and has a '.'
      after its first character. */
  lemma StemAndExtension(base: string)
    ensures base == Stem(base) + Extension(base)
    ensures Extension(base) == "" || (Extension(base)[0] == '.' && '.' !in Extension(base)[1..])
    ensures base != "" ==> Stem(base) != ""
    ensures Extension(base) != "" <==> base != ".." && exists i :: 0 < i < |base| && base[i] == '.'
  {
    match ExtensionStart(base)
    case None =>
    case Some(d) =>
      assert base == base[..d] + base[d..];
      assert base[d..][1..] == base[d + 1..];
  }

  /** The directory the archive is extracted to: `path.join(path.dirname(zip),
      path.parse(zip).name)`. */
  function ExtractionDir(zipPath: string): string
  {
    var segs := Split(zipPath, '/');
    Join(segs[..|segs| - 1] + [Stem(segs[|segs| - 1])], "/")
  }

  /** The extraction directory sits in the archive's directory, under the
      archive's name without its extension; when the archive name has an
      extension it is therefore not the archive itself. */
  lemma ExtractionDirBesideZip(zipPath: string)
    ensures var segs := Split(zipPath, '/');
      Split(ExtractionDir(zipPath), '/') == segs[..|segs| - 1] + [Stem(segs[|segs| - 1])]
    ensures var base := Split(zipPath, '/')[|Split(zipPath, '/')| - 1];
      Extension(base) != "" ==> ExtractionDir(zipPath) != zipPath
  {
    var segs := Split(zipPath, '/');
    var base := segs[|segs| - 1];
    var dirSegs := segs[..|segs| - 1] + [Stem(base)];
    assert '/' !in Stem(base) by {
      StemAndExtension(base);
    }
    assert forall i :: 0 <= i < |dirSegs| ==> '/' !in dirSegs[i] by {
      assert forall i :: 0 <= i < |dirSegs| - 1 ==> dirSegs[i] == segs[i];
    }
    SplitJoin(dirSegs, '/');
    if Extension(base) != "" {
      assert dirSegs != segs by {
        StemAndExtension(base);
        assert |Stem(base)| < |base|;
        assert dirSegs[|segs| - 1] != segs[|segs| - 1];
      }
    }
  }

  /** What `unzipAndGetDirectoryTree` resolves to. */
  datatype Unzipped = Unzipped(directoryTree: Entry, extractedDir: string, markdownTree: string)

  /** `unzipAndGetDirectoryTree(zipPath)`: `zipExists` is `fs.existsSync(zipPath)`;
      `extracted` is what the extraction directory holds once AdmZip has written
      it, `None` when AdmZip throws. A missing archive fails before anything
      else; otherwise the tree is the one built from the extraction directory,
      rooted at ".", and the Markdown lists its files. */
  function UnzipResult(zipPath: string, zipExists: bool, extracted: Option<FsNode>): (r: Result<Unzipped, Error>)
    ensures !zipExists ==> r == Failure(ZipNotFound(zipPath))
    ensures r.Success? <==> zipExists && extracted.Some? && !extracted.value.FsBroken?
    ensures r.Success? ==>
      r.value.directoryTree == Tree(extracted.value, []) && r.value.directoryTree.path == "." &&
      r.value.extractedDir == ExtractionDir(zipPath) &&
      r.value.markdownTree == FileListMarkdown(FilePaths(r.value.directoryTree))
  {
    if !zipExists then Failure(ZipNotFound(zipPath))
    else if extracted.None? then Failure(ExtractionFailed(zipPath))
    else
      var dir := ExtractionDir(zipPath);
      match DirectoryTreeOf(dir, extracted.value)
      case Failure(e) => Failure(e)
      case Success(tree) => Success(Unzipped(tree, dir, FileListMarkdown(FilePaths(tree))))
  }

  /** `unzipAndGetDirectoryTree(zipPath)`. */
  method UnzipAndGetDirectoryTree(zipPath: string, zipExists: bool, extracted: Option<FsNode>)
    returns (r: Result<Unzipped, Error>)
    ensures r == UnzipResult(zipPath, zipExists, extracted)
  {
    if !zipExists {
      return Failure(ZipNotFound(zipPath));
    }
    var extractedDir := ExtractionDir(zipPath);
    if extracted.None? {
      return Failure(ExtractionFailed(zipPath));
    }
    var directoryTree := GetDirectoryTree(extractedDir, extracted.value);
    if directoryTree.Failure? {
      return Failure(directoryTree.error);
    }
    var markdownTree := ConvertDirectoryTreeToMarkdown(directoryTree.value);
    return Success(Unzipped(directoryTree.value, extractedDir, markdownTree));
  }
}
