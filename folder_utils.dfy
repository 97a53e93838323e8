/**
 * The folder handlers of the document manager: creating a top-level folder
 * and creating a child folder under a selected parent.
 */
module FolderUtils {
  import opened Wrappers
  import opened JsString
  import opened UseDocumentManager

  /**
   * The `parentFolder` walk followed by `parentFolder[child] = {}`: the node
   * at `parts` gets an empty `child`, replacing whatever was there.
   */
  function AddChildAt(st: FolderStructure, parts: seq<string>, child: string): FolderStructure
    requires HasPath(st, parts)
    decreases parts
  {
    if parts == [] then FolderStructure(st.sub[child := EmptyStructure()])
    else FolderStructure(st.sub[parts[0] := AddChildAt(st.sub[parts[0]], parts[1..], child)])
  }

  lemma PrefixTail(p: seq<string>, q: seq<string>)
    requires p != [] && q != [] && p[0] == q[0]
    ensures (p <= q) == (p[1..] <= q[1..])
    ensures (p < q) == (p[1..] < q[1..])
  {
    assert p == [p[0]] + p[1..] && q == [q[0]] + q[1..];
  }

  /**
   * After adding `child` under `parts`, a chain exists iff it leads to the new
   * folder, or it existed before and does not go below the new folder: a
   * same-named subtree is replaced, everything else is kept.
   */
  lemma {:induction false} AddChildAtPaths(st: FolderStructure, parts: seq<string>, child: string, p: seq<string>)
    requires HasPath(st, parts)
    ensures HasPath(AddChildAt(st, parts, child), p) <==>
            p <= parts + [child] || (HasPath(st, p) && !(parts + [child] < p))
    decreases parts
  {
    var q := parts + [child];
    if p != [] {
      if parts == [] {
        if p[0] == child {
          NothingBelowEmpty(p[1..]);
          PrefixTail(p, q);
        }
      } else if p[0] == parts[0] {
        AddChildAtPaths(st.sub[parts[0]], parts[1..], child, p[1..]);
        assert q[1..] == parts[1..] + [child];
        PrefixTail(p, q);
      }
    }
  }

  /** `!parentFolderForChildFolder`: no parent, or the empty string. */
  predicate IsFalsy(parent: Option<string>)
  {
    parent.None? || parent.value == ""
  }

  /** The key a child folder is recorded under in `filesByFolder`. */
  function ChildPath(parent: string, child: string): string
  {
    parent + "/" + child
  }

  /**
   * `handleCreateFolder`: a blank name or an existing top-level key changes
   * nothing; otherwise the untrimmed name gains an empty folder and an empty
   * file list, and the input is cleared.
   */
  method HandleCreateFolder(dm: DocumentManager)
    modifies dm`folderStructure, dm`filesByFolder, dm`newFolderName
    ensures var name := old(dm.newFolderName);
      IsBlank(name) || name in old(dm.folderStructure).sub ==>
        && dm.folderStructure == old(dm.folderStructure)
        && dm.filesByFolder == old(dm.filesByFolder)
        && dm.newFolderName == name
    ensures var name := old(dm.newFolderName);
      !IsBlank(name) && name !in old(dm.folderStructure).sub ==>
        && dm.folderStructure == AddChildAt(old(dm.folderStructure), [], name)
        && dm.filesByFolder == old(dm.filesByFolder)[name := []]
        && dm.newFolderName == ""
  {
    var name := dm.newFolderName;
    if IsBlank(name) {
      return;
    }
    if name !in dm.folderStructure.sub {
      dm.folderStructure := AddChildAt(dm.folderStructure, [], name);
      dm.filesByFolder := dm.filesByFolder[name := []];
      dm.newFolderName := "";
    }
  }

  /** A new top-level folder adds exactly its own one-key chain and loses nothing. */
  lemma CreateFolderPaths(st: FolderStructure, name: string, p: seq<string>)
    requires name !in st.sub
    ensures HasPath(AddChildAt(st, [], name), p) <==> HasPath(st, p) || p == [name]
  {
    AddChildAtPaths(st, [], name, p);
    if p != [] && [name] < p {
      assert p[0] == name;
    }
    if p != [] && p <= [name] {
      assert p == [name];
    }
  }

  /**
   * `handleCreateChildFolder`: a blank child name, a falsy parent, or a path
   * already listed in `filesByFolder` changes nothing; otherwise the parent's
   * node gets an empty child, the new path an empty file list, and both
   * inputs are reset. The walk to the parent assumes each of its segments is
   * present in the structure.
   */
  method HandleCreateChildFolder(dm: DocumentManager)
    requires var child, parent := dm.newChildFolderName, dm.parentFolderForChildFolder;
      !IsBlank(child) && !IsFalsy(parent) && ChildPath(parent.value, child) !in dm.filesByFolder ==>
        HasPath(dm.folderStructure, Split(parent.value, '/'))
    modifies dm`folderStructure, dm`filesByFolder, dm`newChildFolderName, dm`parentFolderForChildFolder
    ensures var child, parent := old(dm.newChildFolderName), old(dm.parentFolderForChildFolder);
      IsBlank(child) || IsFalsy(parent) || ChildPath(parent.value, child) in old(dm.filesByFolder) ==>
        && dm.folderStructure == old(dm.folderStructure)
        && dm.filesByFolder == old(dm.filesByFolder)
        && dm.newChildFolderName == child
        && dm.parentFolderForChildFolder == parent
    ensures var child, parent := old(dm.newChildFolderName), old(dm.parentFolderForChildFolder);
      !IsBlank(child) && !IsFalsy(parent) && ChildPath(parent.value, child) !in old(dm.filesByFolder) ==>
        && HasPath(old(dm.folderStructure), Split(parent.value, '/'))
        && dm.folderStructure == AddChildAt(old(dm.folderStructure), Split(parent.value, '/'), child)
        && dm.filesByFolder == old(dm.filesByFolder)[ChildPath(parent.value, child) := []]
        && dm.newChildFolderName == ""
        && dm.parentFolderForChildFolder == None
  {
    var child := dm.newChildFolderName;
    var parent := dm.parentFolderForChildFolder;
    if IsBlank(child) || IsFalsy(parent) {
      return;
    }
    var newPath := ChildPath(parent.value, child);
    if newPath in dm.filesByFolder {
      return;
    }
    var parts := Split(parent.value, '/');
    dm.folderStructure := AddChildAt(dm.folderStructure, parts, child);
    dm.filesByFolder := dm.filesByFolder[newPath := []];
    dm.newChildFolderName := "";
    dm.parentFolderForChildFolder := None;
  }

  /**
   * The existence test reads `filesByFolder`, not the structure: with only
   * `"a/b/c"` listed, the structure is `a/b/c`, the path `"a/b"` is not a key,
   * and creating child `b` under `a` replaces the populated node `b`, so the
   * chain `a/b/c` is gone.
   */
  lemma ChildOverwriteExample()
    ensures var st := FolderStructure(map["a" := FolderStructure(map["b" := FolderStructure(map["c" := EmptyStructure()])])]);
      && HasPath(st, ["a", "b", "c"])
      && ChildPath("a", "b") !in map["a/b/c" := 0]
      && !HasPath(AddChildAt(st, ["a"], "b"), ["a", "b", "c"])
  {
    var st := FolderStructure(map["a" := FolderStructure(map["b" := FolderStructure(map["c" := EmptyStructure()])])]);
    assert ["a", "b", "c"][1..] == ["b", "c"] && ["b", "c"][1..] == ["c"] && ["c"][1..] == [];
    assert HasPath(st, ["a", "b", "c"]);
    assert ChildPath("a", "b") == "a/b";
    assert ["a"][1..] == [];
    var after := AddChildAt(st, ["a"], "b");
    assert after.sub["a"].sub["b"] == EmptyStructure();
    assert "c" !in after.sub["a"].sub["b"].sub;
    assert !HasPath(after.sub["a"].sub["b"], ["c"]);
    assert !HasPath(after.sub["a"], ["b", "c"]);
  }
}
