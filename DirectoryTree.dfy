/** `getDirectoryTree` and its inner `buildTree` (utils.js): walk the extracted
    directory and record every entry as `{path, type, children}`. */
module DirectoryTree {
  import opened Wrappers
  import opened Text
  import opened Seqs

  /** What the file system holds, each directory's entries in `readdirSync` order.
      `FsBroken` is an entry whose `statSync` throws (a dangling link, an entry
      removed meanwhile); `readable == false` is a directory whose `readdirSync` throws. */
  datatype FsNode =
    | FsFile(name: string)
    | FsDir(name: string, entries: seq<FsNode>, readable: bool)
    | FsBroken(name: string)

  /** One record of the tree: `type: 'file'` records have no `children` field. */
  datatype Entry =
    | FileEntry(path: string)
    | DirEntry(path: string, children: seq<Entry>)

  /** `path.relative(root, p) || '.'` for the entry reached from the root through `segs`. */
  function RelPath(segs: seq<string>): string
  {
    if segs == [] then "." else Join(segs, "/")
  }

  /** `buildTree` on an entry whose `statSync` succeeds, reached through `segs`:
      always a directory record; a file given as the root, or a directory that
      cannot be listed, has no children. */
  function Tree(node: FsNode, segs: seq<string>): (r: Entry)
    requires !node.FsBroken?
    ensures r.DirEntry? && r.path == RelPath(segs)
    decreases node
  {
    match node
    case FsDir(_, entries, readable) =>
      DirEntry(RelPath(segs), if readable then Children(entries, segs) else [])
    case FsFile(_) => DirEntry(RelPath(segs), [])
  }

  /** The loop of `buildTree` over a directory's entries: files become leaves,
      directories are recursed into, and the first entry whose `statSync` throws
      ends the loop, keeping what was pushed before it. */
  function Children(entries: seq<FsNode>, segs: seq<string>): seq<Entry>
    decreases entries
  {
    if entries == [] then []
    else
      match entries[0]
      case FsBroken(_) => []
      case FsFile(n) => [FileEntry(RelPath(segs + [n]))] + Children(entries[1..], segs)
      case FsDir(n, _, _) => [Tree(entries[0], segs + [n])] + Children(entries[1..], segs)
  }

  /** `getDirectoryTree(rootPath)`: the root's own `statSync` is outside every
      `try`, so a root that cannot be stat'ed is an error. */
  function DirectoryTreeOf(rootPath: string, root: FsNode): (r: Result<Entry, Error>)
    ensures r.Failure? <==> root.FsBroken?
    ensures r.Failure? ==> r.error == RootUnreadable(rootPath)
    ensures r.Success? ==> r.value.DirEntry? && r.value.path == "."
  {
    if root.FsBroken? then Failure(RootUnreadable(rootPath)) else Success(Tree(root, []))
  }

  /** `buildTree`, pushing each child record in turn. */
  method BuildTree(node: FsNode, segs: seq<string>) returns (item: Entry)
    requires !node.FsBroken?
    ensures item == Tree(node, segs)
    decreases node
  {
    var children: seq<Entry> := [];
    if node.FsDir? && node.readable {
      var entries := node.entries;
      var i := 0;
      while i < |entries| && !entries[i].FsBroken?
        invariant 0 <= i <= |entries|
        invariant children + Children(entries[i..], segs) == Children(entries, segs)
        decreases |entries| - i
      {
        var entry := entries[i];
        var child: Entry;
        if entry.FsFile? {
          child := FileEntry(RelPath(segs + [entry.name]));
        } else {
          child := BuildTree(entry, segs + [entry.name]);
        }
        ChildrenStep(entries, i, segs, child);
        assert (children + [child]) + Children(entries[i + 1..], segs) == children + ([child] + Children(entries[i + 1..], segs));
        children := children + [child];
        i := i + 1;
      }
      if i < |entries| {
        assert entries[i..][0].FsBroken?;
      }
      assert children == Children(entries, segs);
    }
    item := DirEntry(RelPath(segs), children);
  }

  /** One turn of the loop in `buildTree`: the record for entry `i` heads what
      is left to push. */
  lemma ChildrenStep(entries: seq<FsNode>, i: nat, segs: seq<string>, child: Entry)
    requires i < |entries| && !entries[i].FsBroken?
    requires entries[i].FsFile? ==> child == FileEntry(RelPath(segs + [entries[i].name]))
    requires entries[i].FsDir? ==> child == Tree(entries[i], segs + [entries[i].name])
    ensures Children(entries[i..], segs) == [child] + Children(entries[i + 1..], segs)
  {
    assert entries[i..][1..] == entries[i + 1..];
  }

  /** `getDirectoryTree(rootPath)`. */
  method GetDirectoryTree(rootPath: string, root: FsNode) returns (r: Result<Entry, Error>)
    ensures r == DirectoryTreeOf(rootPath, root)
  {
    if root.FsBroken? {
      return Failure(RootUnreadable(rootPath));
    }
    var tree := BuildTree(root, []);
    return Success(tree);
  }

  // ---------------------------------------------------------------------------
  // Children follow the read order

  /** Index of the first entry whose `statSync` throws, or the number of entries. */
  function FirstBroken(entries: seq<FsNode>): (n: nat)
    ensures n <= |entries|
    ensures forall k :: 0 <= k < n ==> !entries[k].FsBroken?
    ensures n < |entries| ==> entries[n].FsBroken?
  {
    if entries == [] then 0
    else if entries[0].FsBroken? then 0
    else 1 + FirstBroken(entries[1..])
  }

  /** The children are the entries read before the first failing one, in read
      order: a file becomes a leaf with its relative path, a directory the tree
      built for it. */
  lemma {:induction false} ChildrenInReadOrder(entries: seq<FsNode>, segs: seq<string>)
    ensures |Children(entries, segs)| == FirstBroken(entries)
    ensures forall k :: 0 <= k < |Children(entries, segs)| ==>
      var c := Children(entries, segs)[k];
      c.path == RelPath(segs + [entries[k].name]) &&
      (c.FileEntry? <==> entries[k].FsFile?) &&
      (entries[k].FsDir? ==> c == Tree(entries[k], segs + [entries[k].name]))
  {
    if entries != [] && !entries[0].FsBroken? {
      var rest := entries[1..];
      ChildrenInReadOrder(rest, segs);
      var head := if entries[0].FsFile? then FileEntry(RelPath(segs + [entries[0].name]))
                  else Tree(entries[0], segs + [entries[0].name]);
      assert Children(entries, segs) == [head] + Children(rest, segs);
      var all := Children(entries, segs);
      forall k | 0 <= k < |all|
        ensures all[k].path == RelPath(segs + [entries[k].name])
        ensures all[k].FileEntry? <==> entries[k].FsFile?
        ensures entries[k].FsDir? ==> all[k] == Tree(entries[k], segs + [entries[k].name])
      {
        if k > 0 {
          assert all[k] == Children(rest, segs)[k - 1] && entries[k] == rest[k - 1];
        }
      }
    }
  }

  /** The record `buildTree` returns for a listable directory carries those
      children; one that cannot be listed carries none. */
  lemma DirectoryRecord(node: FsNode, segs: seq<string>)
    requires node.FsDir?
    ensures Tree(node, segs).path == RelPath(segs)
    ensures node.readable ==> |Tree(node, segs).children| == FirstBroken(node.entries)
    ensures !node.readable ==> Tree(node, segs).children == []
  {
    ChildrenInReadOrder(node.entries, segs);
  }

  // ---------------------------------------------------------------------------
  // Relative paths

  /** Every record of a tree, depth first, each directory before its children. */
  function Preorder(e: Entry): (r: seq<Entry>)
    ensures |r| >= 1 && r[0] == e
    decreases e
  {
    [e] + match e
      case FileEntry(_) => []
      case DirEntry(_, children) => PreorderAll(children)
  }

  function PreorderAll(children: seq<Entry>): seq<Entry>
    decreases children
  {
    if children == [] then [] else Preorder(children[0]) + PreorderAll(children[1..])
  }

  /** The segments leading from the root to each record of `Tree(node, segs)`, in `Preorder`. */
  ghost function SegmentPaths(node: FsNode, segs: seq<string>): (r: seq<seq<string>>)
    requires !node.FsBroken?
    ensures |r| >= 1 && r[0] == segs
    decreases node
  {
    [segs] + match node
      case FsDir(_, entries, readable) => if readable then ChildSegmentPaths(entries, segs) else []
      case FsFile(_) => []
  }

  ghost function ChildSegmentPaths(entries: seq<FsNode>, segs: seq<string>): seq<seq<string>>
    decreases entries
  {
    if entries == [] then []
    else
      match entries[0]
      case FsBroken(_) => []
      case FsFile(n) => [segs + [n]] + ChildSegmentPaths(entries[1..], segs)
      case FsDir(n, _, _) => SegmentPaths(entries[0], segs + [n]) + ChildSegmentPaths(entries[1..], segs)
  }

  ghost predicate PathsMatch(records: seq<Entry>, paths: seq<seq<string>>)
  {
    |records| == |paths| && forall k :: 0 <= k < |records| ==> records[k].path == RelPath(paths[k])
  }

  lemma PathsMatchConcat(r1: seq<Entry>, p1: seq<seq<string>>, r2: seq<Entry>, p2: seq<seq<string>>)
    requires PathsMatch(r1, p1) && PathsMatch(r2, p2)
    ensures PathsMatch(r1 + r2, p1 + p2)
  {
    forall k | 0 <= k < |r1 + r2| ensures (r1 + r2)[k].path == RelPath((p1 + p2)[k]) {
      if k >= |r1| {
        assert (r1 + r2)[k] == r2[k - |r1|] && (p1 + p2)[k] == p2[k - |r1|];
      }
    }
  }

  /** Each record's path is `RelPath` of the segments leading to it. */
  lemma {:induction false} TreePaths(node: FsNode, segs: seq<string>)
    requires !node.FsBroken?
    ensures PathsMatch(Preorder(Tree(node, segs)), SegmentPaths(node, segs))
    decreases node
  {
    var t := Tree(node, segs);
    assert PathsMatch([t], [segs]);
    if node.FsDir? && node.readable {
      ChildrenPaths(node.entries, segs);
      PathsMatchConcat([t], [segs], PreorderAll(t.children), ChildSegmentPaths(node.entries, segs));
    }
  }

  lemma {:induction false} ChildrenPaths(entries: seq<FsNode>, segs: seq<string>)
    ensures PathsMatch(PreorderAll(Children(entries, segs)), ChildSegmentPaths(entries, segs))
    decreases entries
  {
    if entries != [] && !entries[0].FsBroken? {
      var n := entries[0].name;
      var cs := Children(entries, segs);
      assert cs[1..] == Children(entries[1..], segs);
      ChildrenPaths(entries[1..], segs);
      if entries[0].FsFile? {
        var leaf := FileEntry(RelPath(segs + [n]));
        assert Preorder(leaf) == [leaf];
        assert PathsMatch([leaf], [segs + [n]]);
        PathsMatchConcat([leaf], [segs + [n]], PreorderAll(cs[1..]), ChildSegmentPaths(entries[1..], segs));
      } else {
        TreePaths(entries[0], segs + [n]);
        PathsMatchConcat(Preorder(cs[0]), SegmentPaths(entries[0], segs + [n]),
                         PreorderAll(cs[1..]), ChildSegmentPaths(entries[1..], segs));
      }
    }
  }

  /** A name `readdirSync` can return. */
  predicate ValidName(n: string)
  {
    n != "" && '/' !in n && n != "." && n != ".."
  }

  function Names(entries: seq<FsNode>): set<string>
  {
    if entries == [] then {} else {entries[0].name} + Names(entries[1..])
  }

  /** A real directory tree: valid names, distinct among siblings. */
  ghost predicate WellFormed(node: FsNode)
    decreases node
  {
    match node
    case FsDir(_, entries, _) => WellFormedEntries(entries)
    case _ => true
  }

  ghost predicate WellFormedEntries(entries: seq<FsNode>)
    decreases entries
  {
    entries == [] ||
    (ValidName(entries[0].name) && entries[0].name !in Names(entries[1..]) &&
     WellFormed(entries[0]) && WellFormedEntries(entries[1..]))
  }

  /** `x` is `segs` followed by valid names only. */
  ghost predicate Below(x: seq<string>, segs: seq<string>)
  {
    |x| >= |segs| && x[..|segs|] == segs && forall j :: |segs| <= j < |x| ==> ValidName(x[j])
  }

  /** In a well-formed tree the segment paths extend `segs` and never repeat. */
  lemma {:induction false} SegmentPathsDistinct(node: FsNode, segs: seq<string>)
    requires !node.FsBroken? && WellFormed(node)
    ensures forall x :: x in SegmentPaths(node, segs) ==> Below(x, segs)
    ensures Distinct(SegmentPaths(node, segs))
    decreases node, 0
  {
    if node.FsDir? && node.readable {
      var rest := ChildSegmentPaths(node.entries, segs);
      ChildSegmentPathsDistinct(node.entries, segs);
      assert forall x :: x in rest ==> x != segs;
      DistinctConcat([segs], rest);
    }
  }

  /** The segment paths contributed by one entry of a directory reached through `segs`. */
  ghost function HeadPaths(entry: FsNode, segs: seq<string>): seq<seq<string>>
    requires !entry.FsBroken?
  {
    if entry.FsFile? then [segs + [entry.name]] else SegmentPaths(entry, segs + [entry.name])
  }

  lemma {:induction false} HeadPathsDistinct(entry: FsNode, segs: seq<string>)
    requires !entry.FsBroken? && WellFormed(entry) && ValidName(entry.name)
    ensures forall x :: x in HeadPaths(entry, segs) ==>
      Below(x, segs) && |x| > |segs| && x[|segs|] == entry.name
    ensures Distinct(HeadPaths(entry, segs))
    decreases entry, 1
  {
    var n := entry.name;
    if entry.FsDir? {
      SegmentPathsDistinct(entry, segs + [n]);
    }
    forall x | x in HeadPaths(entry, segs) ensures Below(x, segs) && |x| > |segs| && x[|segs|] == n {
      assert Below(x, segs + [n]);
      assert x[..|segs|] == (segs + [n])[..|segs|];
    }
  }

  lemma {:induction false} ChildSegmentPathsDistinct(entries: seq<FsNode>, segs: seq<string>)
    requires WellFormedEntries(entries)
    ensures forall x :: x in ChildSegmentPaths(entries, segs) ==>
      Below(x, segs) && |x| > |segs| && x[|segs|] in Names(entries)
    ensures Distinct(ChildSegmentPaths(entries, segs))
    decreases entries, 2
  {
    if entries != [] && !entries[0].FsBroken? {
      var head := HeadPaths(entries[0], segs);
      var rest := ChildSegmentPaths(entries[1..], segs);
      assert ChildSegmentPaths(entries, segs) == head + rest;
      ChildSegmentPathsDistinct(entries[1..], segs);
      HeadPathsDistinct(entries[0], segs);
      assert forall x :: x in head ==> x !in rest;
      DistinctConcat(head, rest);
    }
  }

  /** A non-empty segment path made of valid names is never written ".". */
  lemma RelPathNotDot(s: seq<string>)
    requires s != []
    requires forall j :: 0 <= j < |s| ==> ValidName(s[j])
    ensures RelPath(s) != "."
  {
    JoinHasSeparator(s, '/');
    if |s| == 1 {
      assert Join(s, "/") == s[0];
    } else {
      assert '/' in RelPath(s);
    }
  }

  /** `RelPath` tells apart segment paths made of valid names. */
  lemma RelPathInjective(a: seq<string>, b: seq<string>)
    requires forall j :: 0 <= j < |a| ==> ValidName(a[j])
    requires forall j :: 0 <= j < |b| ==> ValidName(b[j])
    ensures RelPath(a) == RelPath(b) <==> a == b
  {
    if a != [] && b != [] {
      if RelPath(a) == RelPath(b) {
        JoinInjective(a, b, '/');
      }
    } else if a != [] {
      RelPathNotDot(a);
    } else if b != [] {
      RelPathNotDot(b);
    }
  }

  /** The root record has path "."; every other record's path is the '/'-join
      of the names leading to it from the root, is never ".", and no two records
      share a path. */
  lemma RelativePaths(root: FsNode)
    requires !root.FsBroken? && WellFormed(root)
    ensures Preorder(Tree(root, []))[0].path == "."
    ensures |Preorder(Tree(root, []))| == |SegmentPaths(root, [])|
    ensures forall k :: 1 <= k < |Preorder(Tree(root, []))| ==>
      var segs := SegmentPaths(root, [])[k];
      segs != [] && Preorder(Tree(root, []))[k].path == Join(segs, "/") &&
      Preorder(Tree(root, []))[k].path != "."
    ensures forall i, j :: 0 <= i < j < |Preorder(Tree(root, []))| ==>
      Preorder(Tree(root, []))[i].path != Preorder(Tree(root, []))[j].path
  {
    var p := Preorder(Tree(root, []));
    var sp := SegmentPaths(root, []);
    TreePaths(root, []);
    SegmentPathsDistinct(root, []);
    forall k | 0 <= k < |sp| ensures forall j :: 0 <= j < |sp[k]| ==> ValidName(sp[k][j]) {
      assert Below(sp[k], []);
    }
    forall k | 1 <= k < |p| ensures sp[k] != [] && p[k].path != "." {
      assert sp[k] != sp[0];
      RelPathInjective(sp[k], []);
    }
    forall i, j | 0 <= i < j < |p| ensures p[i].path != p[j].path {
      RelPathInjective(sp[i], sp[j]);
    }
  }
}
