/**
 * The folder/file selection hook of the chat page: the folder tree derived
 * from the flat file list, the open-folder flags and the list of selected
 * file ids.
 */
module UseFileSelection {
  import opened Wrappers
  import opened JsString
  import MapSum

  /** One document as the file-listing endpoint reports it. */
  datatype FileItem = FileItem(file_id: string, file_name: string, folder_name: string, rag_status: bool)

  /** A node of the folder tree: the root has no path. */
  datatype FolderNode = FolderNode(
    name: string,
    path: Option<string>,
    children: map<string, FolderNode>,
    files: seq<FileItem>)

  /** `{ name: 'root', children: {}, files: [] }` */
  function EmptyRoot(): FolderNode
  {
    FolderNode("root", None, map[], [])
  }

  /** `folder_name.split('/').filter(Boolean)`: the segments the tree is built from. */
  function Segments(folderName: string): (parts: seq<string>)
    ensures forall i :: 0 <= i < |parts| ==> parts[i] != "" && '/' !in parts[i]
  {
    NonEmpty(Split(folderName, '/'))
  }

  /** A folder name has no segment exactly when it is made of slashes only (`""`, `"/"`, `"//"`, ...). */
  lemma {:induction false} SegmentsEmptyIff(s: string)
    ensures Segments(s) == [] <==> forall i :: 0 <= i < |s| ==> s[i] == '/'
    decreases |s|
  {
    if s != [] {
      SegmentsEmptyIff(s[1..]);
      var rest := Split(s[1..], '/');
      if s[0] == '/' {
        assert Split(s, '/') == [""] + rest;
        assert ([""] + rest)[1..] == rest;
        assert forall i :: 1 <= i < |s| ==> s[i] == s[1..][i - 1];
      } else {
        var parts := Split(s, '/');
        assert parts[0] == [s[0]] + rest[0] && parts[0] != "";
        assert parts[1..] == rest[1..];
        assert Segments(s) == [parts[0]] + NonEmpty(rest[1..]);
      }
    }
  }

  // ---------------------------------------------------------------------
  // Building the tree

  /**
   * The walk of one file from `current` by `parts[i..]`: an absent child is
   * created with the joined path of `parts[..i+1]`, an existing one is
   * reused, and the file is pushed onto the node reached at the end.
   */
  function InsertAt(node: FolderNode, parts: seq<string>, i: nat, file: FileItem): (r: FolderNode)
    requires i <= |parts|
    ensures r.name == node.name && r.path == node.path
    decreases |parts| - i
  {
    if i == |parts| then node.(files := node.files + [file])
    else
      var part := parts[i];
      var child := if part in node.children then node.children[part]
                   else FolderNode(part, Some(Join(parts[..i + 1], '/')), map[], []);
      node.(children := node.children[part := InsertAt(child, parts, i + 1, file)])
  }

  /** The tree after `files.forEach(...)` has visited every file, in order. */
  function BuildTree(files: seq<FileItem>): FolderNode
  {
    if files == [] then EmptyRoot()
    else
      var file := files[|files| - 1];
      InsertAt(BuildTree(files[..|files| - 1]), Segments(file.folder_name), 0, file)
  }

  /** `buildFolderTree`. */
  method BuildFolderTree(files: seq<FileItem>) returns (tree: FolderNode)
    ensures tree == BuildTree(files)
  {
    tree := EmptyRoot();
    for j := 0 to |files|
      invariant tree == BuildTree(files[..j])
    {
      var file := files[j];
      var pathParts := Segments(file.folder_name);
      tree := InsertAt(tree, pathParts, 0, file);
      assert files[..j + 1][..j] == files[..j];
    }
    assert files[..|files|] == files;
  }

  // ---------------------------------------------------------------------
  // Observing a tree

  /** The `files` of the node reached from `t` by the child names `p`, or none when there is no such node. */
  function FilesAt(t: FolderNode, p: seq<string>): seq<FileItem>
    decreases |p|
  {
    if p == [] then t.files
    else if p[0] in t.children then FilesAt(t.children[p[0]], p[1..])
    else []
  }

  /** There is a node reached from `t` by the child names `p`. */
  predicate HasNode(t: FolderNode, p: seq<string>)
    decreases |p|
  {
    p == [] || (p[0] in t.children && HasNode(t.children[p[0]], p[1..]))
  }

  /** The files whose segments are `p`, in input order. */
  function FilesIn(files: seq<FileItem>, p: seq<string>): seq<FileItem>
  {
    if files == [] then []
    else
      var file := files[|files| - 1];
      FilesIn(files[..|files| - 1], p) + (if Segments(file.folder_name) == p then [file] else [])
  }

  /** The number of files held anywhere in the tree. */
  ghost function TotalFiles(t: FolderNode): nat
    decreases t, 1
  {
    |t.files| + MapSum.Sum(ChildTotals(t))
  }

  /** The number of files under each child. */
  ghost function ChildTotals(t: FolderNode): map<string, nat>
    decreases t, 0
  {
    map k | k in t.children :: TotalFiles(t.children[k])
  }

  /**
   * The naming of the nodes: the root is `'root'` with no path; a node reached
   * by `prefix` is named by its last segment and has the `/`-join of `prefix`
   * as its path; no child key is empty or holds a `/`.
   */
  ghost predicate WellFormed(t: FolderNode, prefix: seq<string>)
    decreases t
  {
    && (prefix == [] ==> t.name == "root" && t.path == None)
    && (prefix != [] ==> t.name == prefix[|prefix| - 1] && t.path == Some(Join(prefix, '/')))
    && forall k :: k in t.children ==> k != "" && '/' !in k && WellFormed(t.children[k], prefix + [k])
  }

  // ---------------------------------------------------------------------
  // What one walk does

  /** A walk appends the file to the node at the end of its path and to no other node's files. */
  lemma {:induction false} FilesAtInsert(t: FolderNode, parts: seq<string>, i: nat, file: FileItem, p: seq<string>)
    requires i <= |parts|
    ensures FilesAt(InsertAt(t, parts, i, file), p) == FilesAt(t, p) + (if p == parts[i..] then [file] else [])
    decreases |parts| - i
  {
    var r := InsertAt(t, parts, i, file);
    if i < |parts| && p != [] {
      var part := parts[i];
      var child := if part in t.children then t.children[part]
                   else FolderNode(part, Some(Join(parts[..i + 1], '/')), map[], []);
      assert r.children == t.children[part := InsertAt(child, parts, i + 1, file)];
      if p[0] == part {
        FilesAtInsert(child, parts, i + 1, file, p[1..]);
        assert FilesAt(child, p[1..]) == FilesAt(t, p);
        assert parts[i..] == [part] + parts[i + 1..];
        assert (p == parts[i..]) == (p[1..] == parts[i + 1..]);
      } else {
        assert p != parts[i..];
      }
    } else if i < |parts| {
      assert p != parts[i..];
    }
  }

  /** A walk keeps every node and adds exactly the nodes along its own path. */
  lemma {:induction false} HasNodeInsert(t: FolderNode, parts: seq<string>, i: nat, file: FileItem, p: seq<string>)
    requires i <= |parts|
    ensures HasNode(InsertAt(t, parts, i, file), p) <==> HasNode(t, p) || p <= parts[i..]
    decreases |parts| - i
  {
    var r := InsertAt(t, parts, i, file);
    if i < |parts| && p != [] {
      var part := parts[i];
      var child := if part in t.children then t.children[part]
                   else FolderNode(part, Some(Join(parts[..i + 1], '/')), map[], []);
      assert r.children == t.children[part := InsertAt(child, parts, i + 1, file)];
      if p[0] == part {
        HasNodeInsert(child, parts, i + 1, file, p[1..]);
        assert parts[i..] == [part] + parts[i + 1..];
        assert (p <= parts[i..]) == (p[1..] <= parts[i + 1..]);
        if part !in t.children {
          assert !HasNode(t, p);
          assert HasNode(child, p[1..]) <==> p[1..] == [];
        }
      } else {
        assert !(p <= parts[i..]);
      }
    } else if i == |parts| {
      assert r.children == t.children;
      if p != [] {
        assert !(p <= parts[i..]);
      }
    }
  }

  /** A walk keeps the naming of the nodes. */
  lemma {:induction false} InsertWellFormed(t: FolderNode, parts: seq<string>, i: nat, file: FileItem)
    requires i <= |parts|
    requires forall j :: 0 <= j < |parts| ==> parts[j] != "" && '/' !in parts[j]
    requires WellFormed(t, parts[..i])
    ensures WellFormed(InsertAt(t, parts, i, file), parts[..i])
    decreases |parts| - i
  {
    if i < |parts| {
      var part := parts[i];
      var child := if part in t.children then t.children[part]
                   else FolderNode(part, Some(Join(parts[..i + 1], '/')), map[], []);
      assert parts[..i + 1] == parts[..i] + [part];
      assert WellFormed(child, parts[..i + 1]);
      InsertWellFormed(child, parts, i + 1, file);
      var r := InsertAt(t, parts, i, file);
      assert r.children == t.children[part := InsertAt(child, parts, i + 1, file)];
    }
  }

  /** A fresh node holds no file. */
  lemma FreshNodeEmpty(name: string, path: Option<string>)
    ensures TotalFiles(FolderNode(name, path, map[], [])) == 0
  {
    assert ChildTotals(FolderNode(name, path, map[], [])) == map[];
  }

  /** Replacing one child replaces its share of the total. */
  lemma SetChildTotal(t: FolderNode, part: string, c: FolderNode)
    ensures TotalFiles(t.(children := t.children[part := c]))
            + (if part in t.children then TotalFiles(t.children[part]) else 0)
            == TotalFiles(t) + TotalFiles(c)
  {
    var r := t.(children := t.children[part := c]);
    assert ChildTotals(r) == ChildTotals(t)[part := TotalFiles(c)];
    MapSum.SumUpdate(ChildTotals(t), part, TotalFiles(c));
  }

  /** A walk adds exactly one file to the tree. */
  lemma {:induction false} TotalInsert(t: FolderNode, parts: seq<string>, i: nat, file: FileItem)
    requires i <= |parts|
    ensures TotalFiles(InsertAt(t, parts, i, file)) == TotalFiles(t) + 1
    decreases |parts| - i
  {
    if i == |parts| {
      assert ChildTotals(InsertAt(t, parts, i, file)) == ChildTotals(t);
    } else {
      var part := parts[i];
      var child := if part in t.children then t.children[part]
                   else FolderNode(part, Some(Join(parts[..i + 1], '/')), map[], []);
      TotalInsert(child, parts, i + 1, file);
      SetChildTotal(t, part, InsertAt(child, parts, i + 1, file));
      if part !in t.children {
        FreshNodeEmpty(part, Some(Join(parts[..i + 1], '/')));
      }
    }
  }

  // ---------------------------------------------------------------------
  // What the whole build does

  /**
   * Every file lands in the node reached by its non-empty segments, and in no
   * other node; each node's files keep the input order.
   */
  lemma {:induction false} FilesAtBuildTree(files: seq<FileItem>, p: seq<string>)
    ensures FilesAt(BuildTree(files), p) == FilesIn(files, p)
    decreases |files|
  {
    if files != [] {
      var file := files[|files| - 1];
      FilesAtBuildTree(files[..|files| - 1], p);
      FilesAtInsert(BuildTree(files[..|files| - 1]), Segments(file.folder_name), 0, file, p);
    }
  }

  /** Some file's segments start with `p`. */
  predicate SomeSegmentsStartWith(files: seq<FileItem>, p: seq<string>)
  {
    exists i :: 0 <= i < |files| && p <= Segments(files[i].folder_name)
  }

  lemma SomeSegmentsSnoc(files: seq<FileItem>, file: FileItem, p: seq<string>)
    ensures SomeSegmentsStartWith(files + [file], p) <==>
            SomeSegmentsStartWith(files, p) || p <= Segments(file.folder_name)
  {
    var g := files + [file];
    if SomeSegmentsStartWith(g, p) {
      var i :| 0 <= i < |g| && p <= Segments(g[i].folder_name);
      if i < |files| {
        assert g[i] == files[i];
      }
    }
    if SomeSegmentsStartWith(files, p) {
      var i :| 0 <= i < |files| && p <= Segments(files[i].folder_name);
      assert g[i] == files[i];
    }
    assert g[|files|] == file;
  }

  /** The nodes of the tree are the root and the segment-prefixes of the files' folder names. */
  lemma {:induction false} HasNodeBuildTree(files: seq<FileItem>, p: seq<string>)
    ensures HasNode(BuildTree(files), p) <==> p == [] || SomeSegmentsStartWith(files, p)
    decreases |files|
  {
    if files != [] {
      var n := |files| - 1;
      var init := files[..n];
      assert init + [files[n]] == files;
      HasNodeBuildTree(init, p);
      HasNodeInsert(BuildTree(init), Segments(files[n].folder_name), 0, files[n], p);
      SomeSegmentsSnoc(init, files[n], p);
    }
  }

  /** The root is `'root'` with no path and every other node is named and pathed by its segments. */
  lemma {:induction false} BuildTreeWellFormed(files: seq<FileItem>)
    ensures WellFormed(BuildTree(files), [])
    decreases |files|
  {
    if files != [] {
      var file := files[|files| - 1];
      BuildTreeWellFormed(files[..|files| - 1]);
      var parts := Segments(file.folder_name);
      assert parts[..0] == [];
      InsertWellFormed(BuildTree(files[..|files| - 1]), parts, 0, file);
    }
  }

  /** The tree holds exactly as many files as the input list. */
  lemma {:induction false} BuildTreeTotal(files: seq<FileItem>)
    ensures TotalFiles(BuildTree(files)) == |files|
    decreases |files|
  {
    if files == [] {
      FreshNodeEmpty("root", None);
    } else {
      var file := files[|files| - 1];
      BuildTreeTotal(files[..|files| - 1]);
      TotalInsert(BuildTree(files[..|files| - 1]), Segments(file.folder_name), 0, file);
    }
  }

  /**
   * A file whose folder name has no non-empty segment is pushed onto the
   * root's own files and creates no node.
   */
  lemma SlashOnlyNameGoesToRoot(files: seq<FileItem>, file: FileItem)
    requires forall i :: 0 <= i < |file.folder_name| ==> file.folder_name[i] == '/'
    ensures BuildTree(files + [file]) == BuildTree(files).(files := BuildTree(files).files + [file])
  {
    SegmentsEmptyIff(file.folder_name);
    assert (files + [file])[..|files|] == files;
  }

  // ---------------------------------------------------------------------
  // Open-folder flags

  /** One step of the prefix walk: `path = path ? `${path}/${part}` : part`. */
  function NextPath(path: string, part: string): string
  {
    if path != "" then path + "/" + part else part
  }

  /** The value of `path` once the walk has visited `parts`. */
  function PathAfter(parts: seq<string>): string
  {
    if parts == [] then ""
    else NextPath(PathAfter(parts[..|parts| - 1]), parts[|parts| - 1])
  }

  /** The paths the inner walk has added once it has visited the first `j` parts. */
  function WalkPaths(parts: seq<string>, j: nat): set<string>
    requires j <= |parts|
  {
    set jj | 1 <= jj <= j :: PathAfter(parts[..jj])
  }

  lemma WalkPathsStep(parts: seq<string>, j: nat)
    requires j < |parts|
    ensures WalkPaths(parts, j + 1) == WalkPaths(parts, j) + {PathAfter(parts[..j + 1])}
  {
  }

  /** The paths the walk adds for one folder name, using the unfiltered split. */
  function PrefixPaths(folderName: string): set<string>
  {
    var parts := Split(folderName, '/');
    set j | 1 <= j <= |parts| :: PathAfter(parts[..j])
  }

  /** The set `folderPaths` after every file has been walked. */
  function FolderPaths(files: seq<FileItem>): set<string>
  {
    if files == [] then {}
    else FolderPaths(files[..|files| - 1]) + PrefixPaths(files[|files| - 1].folder_name)
  }

  /** `foldersState`: every collected path, closed. */
  function InitialOpenFolders(files: seq<FileItem>): (r: map<string, bool>)
    ensures r.Keys == FolderPaths(files)
    ensures forall p :: p in r ==> !r[p]
  {
    map p | p in FolderPaths(files) :: false
  }

  /** The prefix walk of `fetchFiles`, over all files. */
  method CollectFolderPaths(files: seq<FileItem>) returns (folderPaths: set<string>)
    ensures folderPaths == FolderPaths(files)
  {
    folderPaths := {};
    for i := 0 to |files|
      invariant folderPaths == FolderPaths(files[..i])
    {
      var parts := Split(files[i].folder_name, '/');
      var path := "";
      for j := 0 to |parts|
        invariant path == PathAfter(parts[..j])
        invariant folderPaths == FolderPaths(files[..i]) + WalkPaths(parts, j)
      {
        path := if path != "" then path + "/" + parts[j] else parts[j];
        assert parts[..j + 1][..j] == parts[..j];
        WalkPathsStep(parts, j);
        folderPaths := folderPaths + {path};
      }
      assert WalkPaths(parts, |parts|) == PrefixPaths(files[i].folder_name);
      assert files[..i + 1][..i] == files[..i];
    }
    assert files[..|files|] == files;
  }

  /** A path is collected exactly when it is one of the prefix paths of some file. */
  lemma {:induction false} FolderPathsMember(files: seq<FileItem>, p: string)
    ensures p in FolderPaths(files) <==> exists i :: 0 <= i < |files| && p in PrefixPaths(files[i].folder_name)
    decreases |files|
  {
    if files != [] {
      var n := |files| - 1;
      FolderPathsMember(files[..n], p);
      if exists i :: 0 <= i < |files| && p in PrefixPaths(files[i].folder_name) {
        var i :| 0 <= i < |files| && p in PrefixPaths(files[i].folder_name);
        if i < n {
          assert files[..n][i] == files[i];
        }
      }
      if exists i :: 0 <= i < n && p in PrefixPaths(files[..n][i].folder_name) {
        var i :| 0 <= i < n && p in PrefixPaths(files[..n][i].folder_name);
        assert files[i] == files[..n][i];
      }
    }
  }

  /** `parts` without its leading empty strings. */
  function DropLeadingEmpty(parts: seq<string>): (r: seq<string>)
    ensures r == [] || r[0] != ""
    ensures |r| <= |parts| && r == parts[|parts| - |r|..]
    ensures forall i :: 0 <= i < |parts| - |r| ==> parts[i] == ""
  {
    if parts != [] && parts[0] == "" then DropLeadingEmpty(parts[1..]) else parts
  }

  lemma {:induction false} DropLeadingEmptySnoc(parts: seq<string>, x: string)
    ensures DropLeadingEmpty(parts + [x]) ==
            if DropLeadingEmpty(parts) == [] then (if x == "" then [] else [x]) else DropLeadingEmpty(parts) + [x]
    decreases |parts|
  {
    if parts == [] {
    } else if parts[0] == "" {
      assert (parts + [x])[1..] == parts[1..] + [x];
      DropLeadingEmptySnoc(parts[1..], x);
    }
  }

  lemma {:induction false} JoinSnoc(parts: seq<string>, x: string, sep: char)
    requires parts != []
    ensures Join(parts + [x], sep) == Join(parts, sep) + [sep] + x
    decreases |parts|
  {
    if |parts| == 1 {
      assert (parts + [x])[1..] == [x];
    } else {
      assert (parts + [x])[1..] == parts[1..] + [x];
      JoinSnoc(parts[1..], x, sep);
    }
  }

  /**
   * The walk's `path` is the `/`-join of the parts seen so far once their
   * leading empty parts are dropped: the truthiness test makes a leading
   * empty segment vanish instead of producing a leading `/`.
   */
  lemma {:induction false} PathAfterIsJoin(parts: seq<string>)
    ensures PathAfter(parts) == Join(DropLeadingEmpty(parts), '/')
    decreases |parts|
  {
    if parts != [] {
      var init, x := parts[..|parts| - 1], parts[|parts| - 1];
      assert parts == init + [x];
      PathAfterIsJoin(init);
      DropLeadingEmptySnoc(init, x);
      var d := DropLeadingEmpty(init);
      if d != [] {
        assert Join(d, '/') != "" by {
          if |d| > 1 {
            assert Join(d, '/') == d[0] + ['/'] + Join(d[1..], '/');
          }
        }
        JoinSnoc(d, x, '/');
      }
    }
  }

  /**
   * For a folder name that does not start with `/`, the collected paths are
   * exactly the `/`-joins of the leading pieces of its unfiltered split (so
   * `"a//b"` gives `"a"`, `"a/"` and `"a//b"`).
   */
  lemma UnslashedPrefixPaths(folderName: string)
    requires folderName == "" || folderName[0] != '/'
    ensures PrefixPaths(folderName) == set j | 1 <= j <= |Split(folderName, '/')| :: Join(Split(folderName, '/')[..j], '/')
  {
    var parts := Split(folderName, '/');
    forall j | 1 <= j <= |parts|
      ensures PathAfter(parts[..j]) == Join(parts[..j], '/')
    {
      PathAfterIsJoin(parts[..j]);
      if folderName == "" {
        assert parts == [""];
      } else {
        FirstPieceOfSplit(folderName, '/');
        assert parts[0] != "";
      }
    }
  }

  /** `s` with its leading slashes removed. */
  function StripLeadingSlashes(s: string): (r: string)
    ensures r == [] || r[0] != '/'
    ensures |r| <= |s| && r == s[|s| - |r|..]
    ensures forall i :: 0 <= i < |s| - |r| ==> s[i] == '/'
  {
    if s != [] && s[0] == '/' then StripLeadingSlashes(s[1..]) else s
  }

  lemma {:induction false} DropLeadingEmptyOfSplit(s: string)
    ensures Join(DropLeadingEmpty(Split(s, '/')), '/') == StripLeadingSlashes(s)
    decreases |s|
  {
    if s == [] {
    } else if s[0] == '/' {
      assert Split(s, '/') == [""] + Split(s[1..], '/');
      assert ([""] + Split(s[1..], '/'))[1..] == Split(s[1..], '/');
      DropLeadingEmptyOfSplit(s[1..]);
    } else {
      FirstPieceOfSplit(s, '/');
      JoinSplit(s, '/');
    }
  }

  /** Each folder name, without its leading slashes, is itself one of the collected paths. */
  lemma OwnNameIsCollected(files: seq<FileItem>, i: nat)
    requires i < |files|
    ensures StripLeadingSlashes(files[i].folder_name) in FolderPaths(files)
  {
    var s := files[i].folder_name;
    var parts := Split(s, '/');
    assert parts[..|parts|] == parts;
    PathAfterIsJoin(parts);
    DropLeadingEmptyOfSplit(s);
    assert PathAfter(parts[..|parts|]) in PrefixPaths(s);
    FolderPathsMember(files, StripLeadingSlashes(s));
  }

  /** Whether a folder is open: a missing key counts as closed (`!prev[folderPath]` is `true`). */
  function IsOpen(openFolders: map<string, bool>, folderPath: string): bool
  {
    folderPath in openFolders && openFolders[folderPath]
  }

  /** `toggleFolder`'s update of the open-folder map. */
  function ToggleFolder(openFolders: map<string, bool>, folderPath: string): (r: map<string, bool>)
    ensures r.Keys == openFolders.Keys + {folderPath}
    ensures IsOpen(r, folderPath) == !IsOpen(openFolders, folderPath)
    ensures forall q :: q in openFolders && q != folderPath ==> r[q] == openFolders[q]
  {
    openFolders[folderPath := !IsOpen(openFolders, folderPath)]
  }

  /** Toggling twice restores whether every folder is open. */
  lemma ToggleFolderTwice(openFolders: map<string, bool>, folderPath: string, q: string)
    ensures IsOpen(ToggleFolder(ToggleFolder(openFolders, folderPath), folderPath), q) == IsOpen(openFolders, q)
  {
  }

  // ---------------------------------------------------------------------
  // Selected file ids

  /** `prev.filter(id => id !== fileId)`. */
  function Without(ids: seq<string>, fileId: string): (r: seq<string>)
    ensures fileId !in r
    ensures forall x :: x != fileId ==> (x in r <==> x in ids)
    ensures multiset(r) == multiset(ids)[fileId := 0]
  {
    if ids == [] then []
    else
      assert ids == [ids[0]] + ids[1..];
      (if ids[0] == fileId then [] else [ids[0]]) + Without(ids[1..], fileId)
  }

  /** Removing keeps the order of the remaining ids: it distributes over concatenation. */
  lemma {:induction false} WithoutAppend(a: seq<string>, b: seq<string>, fileId: string)
    ensures Without(a + b, fileId) == Without(a, fileId) + Without(b, fileId)
    decreases |a|
  {
    if a != [] {
      var head := if a[0] == fileId then [] else [a[0]];
      assert (a + b)[0] == a[0] && (a + b)[1..] == a[1..] + b;
      assert Without(a + b, fileId) == head + Without(a[1..] + b, fileId);
      WithoutAppend(a[1..], b, fileId);
      assert Without(a, fileId) == head + Without(a[1..], fileId);
      assert head + (Without(a[1..], fileId) + Without(b, fileId))
          == (head + Without(a[1..], fileId)) + Without(b, fileId);
    } else {
      assert a + b == b;
    }
  }

  /** Removing an id that is not there changes nothing. */
  lemma {:induction false} WithoutAbsent(ids: seq<string>, fileId: string)
    requires fileId !in ids
    ensures Without(ids, fileId) == ids
    decreases |ids|
  {
    if ids != [] {
      WithoutAbsent(ids[1..], fileId);
    }
  }

  /** `toggleFileSelection`: remove every occurrence when present, otherwise append at the end. */
  function ToggleFileSelection(selected: seq<string>, fileId: string): (r: seq<string>)
    ensures fileId in r <==> fileId !in selected
    ensures forall x :: x != fileId ==> (x in r <==> x in selected)
    ensures fileId in selected ==> multiset(r) == multiset(selected)[fileId := 0]
    ensures fileId !in selected ==> r == selected + [fileId]
  {
    if fileId in selected then Without(selected, fileId) else selected + [fileId]
  }

  predicate Distinct(ids: seq<string>)
  {
    forall i, j :: 0 <= i < j < |ids| ==> ids[i] != ids[j]
  }

  lemma {:induction false} WithoutDistinct(ids: seq<string>, fileId: string)
    requires Distinct(ids)
    ensures Distinct(Without(ids, fileId))
    decreases |ids|
  {
    if ids != [] {
      assert Distinct(ids[1..]) by {
        forall i, j | 0 <= i < j < |ids[1..]| ensures ids[1..][i] != ids[1..][j] {
          assert ids[1..][i] == ids[i + 1] && ids[1..][j] == ids[j + 1];
        }
      }
      WithoutDistinct(ids[1..], fileId);
      var rest := Without(ids[1..], fileId);
      if ids[0] != fileId {
        assert ids[0] !in ids[1..];
        assert ids[0] !in rest;
        var r := [ids[0]] + rest;
        forall i, j | 0 <= i < j < |r| ensures r[i] != r[j] {
          if i == 0 {
            assert r[j] == rest[j - 1];
          } else {
            assert r[i] == rest[i - 1] && r[j] == rest[j - 1];
          }
        }
      }
    }
  }

  /** A duplicate-free selection stays duplicate-free. */
  lemma ToggleKeepsDistinct(selected: seq<string>, fileId: string)
    requires Distinct(selected)
    ensures Distinct(ToggleFileSelection(selected, fileId))
  {
    if fileId in selected {
      WithoutDistinct(selected, fileId);
    } else {
      var r := selected + [fileId];
      forall i, j | 0 <= i < j < |r| ensures r[i] != r[j] {
        if j == |selected| {
          assert r[i] == selected[i];
        } else {
          assert r[i] == selected[i] && r[j] == selected[j];
        }
      }
    }
  }

  /**
   * Two toggles restore membership; they restore the exact list when the id
   * started absent, and move it to the end when it started present.
   */
  lemma ToggleTwice(selected: seq<string>, fileId: string)
    ensures forall x :: x in ToggleFileSelection(ToggleFileSelection(selected, fileId), fileId) <==> x in selected
    ensures fileId !in selected ==> ToggleFileSelection(ToggleFileSelection(selected, fileId), fileId) == selected
    ensures fileId in selected ==>
            ToggleFileSelection(ToggleFileSelection(selected, fileId), fileId) == Without(selected, fileId) + [fileId]
  {
    if fileId !in selected {
      WithoutAppend(selected, [fileId], fileId);
      WithoutAbsent(selected, fileId);
      assert Without([fileId], fileId) == [];
    }
  }

  // ---------------------------------------------------------------------
  // The hook's state

  datatype SelectionState = SelectionState(
    files: seq<FileItem>,
    selectedFileIds: seq<string>,
    openFolders: map<string, bool>,
    folderTree: FolderNode)

  /** The reply of the file-listing endpoint, or a failed request or decoding. */
  datatype FilesReply = FilesReply(status_code: int, data: seq<FileItem>) | FilesRequestFailed

  /** The effect on `[files]`: the tree is rebuilt only when the list is non-empty. */
  method OnFilesChanged(st: SelectionState) returns (next: SelectionState)
    ensures |st.files| > 0 ==> next == st.(folderTree := BuildTree(st.files))
    ensures |st.files| == 0 ==> next == st
  {
    next := st;
    if |st.files| > 0 {
      var tree := BuildFolderTree(st.files);
      next := next.(folderTree := tree);
    }
  }

  /**
   * `fetchFiles`: on status 200 the file list and the whole open-folder map
   * are replaced (earlier flags are discarded) and the tree effect runs; any
   * other reply changes nothing.
   */
  method FetchFiles(st: SelectionState, reply: FilesReply) returns (next: SelectionState)
    ensures reply.FilesReply? && reply.status_code == 200 ==>
      && next.files == reply.data
      && next.openFolders == InitialOpenFolders(reply.data)
      && next.selectedFileIds == st.selectedFileIds
      && next.folderTree == (if |reply.data| > 0 then BuildTree(reply.data) else st.folderTree)
    ensures !(reply.FilesReply? && reply.status_code == 200) ==> next == st
  {
    next := st;
    if reply.FilesReply? && reply.status_code == 200 {
      next := next.(files := reply.data);
      var folderPaths := CollectFolderPaths(reply.data);
      var foldersState := map p | p in folderPaths :: false;
      next := next.(openFolders := foldersState);
      next := OnFilesChanged(next);
    }
  }
}
