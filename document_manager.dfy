/**
 * The document-manager hook: the per-folder file lists and the nested folder
 * structure derived from the server's flat file list, plus the hook state the
 * folder and file handlers update.
 */
module UseDocumentManager {
  import opened Wrappers
  import opened JsString
  import MapSum

  /** A file record as the server lists it. */
  datatype DocFile = DocFile(
    folder_name: string,
    file_id: string,
    file_name: string,
    s3_file_url: Option<string>,
    rag_status: bool)

  /** A nested folder object: each key maps to the object of that sub-folder. */
  datatype FolderStructure = FolderStructure(sub: map<string, FolderStructure>)

  /** A file picked in the browser, by the two properties the handlers read. */
  datatype PickedFile = PickedFile(name: string, fileType: string)

  /** A JSON `status` value, as far as the `===` tests distinguish it. */
  datatype JsonStatus = Text(text: string) | Number(n: int) | Absent

  /** How the listing request settles. */
  datatype ListReply =
    | Listed(status: JsonStatus, data: seq<DocFile>)
    | ListRequestFailed

  function EmptyStructure(): FolderStructure
  {
    FolderStructure(map[])
  }

  // ---------------------------------------------------------------------
  // Grouping by folder

  /** The distinct `folder_name` values. */
  function FolderNames(files: seq<DocFile>): set<string>
  {
    set i | 0 <= i < |files| :: files[i].folder_name
  }

  /** The records whose `folder_name` is `name`, in input order. */
  function InFolder(files: seq<DocFile>, name: string): seq<DocFile>
  {
    if files == [] then []
    else
      var last := files[|files| - 1];
      InFolder(files[..|files| - 1], name) + (if last.folder_name == name then [last] else [])
  }

  /** The object `folderMap` is meant to hold: one list per folder name. */
  function Grouped(files: seq<DocFile>): map<string, seq<DocFile>>
  {
    map k | k in FolderNames(files) :: InFolder(files, k)
  }

  lemma {:induction false} InFolderOutside(files: seq<DocFile>, name: string)
    requires name !in FolderNames(files)
    ensures InFolder(files, name) == []
  {
    if files != [] {
      var init := files[..|files| - 1];
      assert FolderNames(init) <= FolderNames(files) by {
        forall k | k in FolderNames(init) ensures k in FolderNames(files) {
          var i :| 0 <= i < |init| && init[i].folder_name == k;
          assert files[i] == init[i];
        }
      }
      InFolderOutside(init, name);
      assert files[|files| - 1].folder_name in FolderNames(files);
    }
  }

  lemma FolderNamesSnoc(files: seq<DocFile>, f: DocFile)
    ensures FolderNames(files + [f]) == FolderNames(files) + {f.folder_name}
  {
    var g := files + [f];
    forall k | k in FolderNames(g) ensures k in FolderNames(files) + {f.folder_name} {
      var i :| 0 <= i < |g| && g[i].folder_name == k;
      if i < |files| {
        assert g[i] == files[i];
      }
    }
    forall k | k in FolderNames(files) ensures k in FolderNames(g) {
      var i :| 0 <= i < |files| && files[i].folder_name == k;
      assert g[i] == files[i];
    }
    assert g[|files|] == f;
  }

  /** One more record is pushed onto its own folder's list and nowhere else. */
  lemma GroupedSnoc(files: seq<DocFile>, f: DocFile)
    ensures var m := Grouped(files);
            Grouped(files + [f]) == m[f.folder_name := (if f.folder_name in m then m[f.folder_name] else []) + [f]]
  {
    var m := Grouped(files);
    var g := files + [f];
    var rhs := m[f.folder_name := (if f.folder_name in m then m[f.folder_name] else []) + [f]];
    assert g[..|g| - 1] == files;
    FolderNamesSnoc(files, f);
    if f.folder_name !in m {
      InFolderOutside(files, f.folder_name);
    }
    forall k | k in FolderNames(g)
      ensures InFolder(g, k) == rhs[k]
    {
      assert InFolder(g, k) == InFolder(files, k) + (if f.folder_name == k then [f] else []);
    }
    assert Grouped(g).Keys == rhs.Keys;
  }

  /** The object the `forEach` fills, one push at a time. */
  function PushAll(files: seq<DocFile>): map<string, seq<DocFile>>
  {
    if files == [] then map[]
    else
      var m := PushAll(files[..|files| - 1]);
      var f := files[|files| - 1];
      m[f.folder_name := (if f.folder_name in m then m[f.folder_name] else []) + [f]]
  }

  lemma PushAllSnoc(files: seq<DocFile>, f: DocFile)
    ensures var m := PushAll(files);
            PushAll(files + [f]) == m[f.folder_name := (if f.folder_name in m then m[f.folder_name] else []) + [f]]
  {
    assert (files + [f])[..|files|] == files;
  }

  /** Pushing record by record yields the grouping. */
  lemma {:induction false} PushAllIsGrouped(files: seq<DocFile>)
    ensures PushAll(files) == Grouped(files)
  {
    if files == [] {
      assert Grouped(files) == map[];
    } else {
      var init, f := files[..|files| - 1], files[|files| - 1];
      assert init + [f] == files;
      PushAllIsGrouped(init);
      GroupedSnoc(init, f);
    }
  }

  /** The number of records under each key. */
  ghost function Lengths(m: map<string, seq<DocFile>>): map<string, nat>
  {
    map k | k in m :: |m[k]|
  }

  lemma LengthsUpdate(m: map<string, seq<DocFile>>, k: string, v: seq<DocFile>)
    ensures Lengths(m[k := v]) == Lengths(m)[k := |v|]
  {
  }

  lemma {:induction false} PushAllTotal(files: seq<DocFile>)
    ensures MapSum.Sum(Lengths(PushAll(files))) == |files|
  {
    if files == [] {
      assert Lengths(PushAll(files)) == map[];
    } else {
      var init, f := files[..|files| - 1], files[|files| - 1];
      PushAllTotal(init);
      var m := PushAll(init);
      var old_ := if f.folder_name in m then m[f.folder_name] else [];
      LengthsUpdate(m, f.folder_name, old_ + [f]);
      MapSum.SumUpdate(Lengths(m), f.folder_name, |old_| + 1);
      assert f.folder_name in m ==> Lengths(m)[f.folder_name] == |old_|;
    }
  }

  /** Every record lands in exactly one list: the list lengths add up to the input length. */
  lemma GroupedTotal(files: seq<DocFile>)
    ensures MapSum.Sum(Lengths(Grouped(files))) == |files|
  {
    PushAllTotal(files);
    PushAllIsGrouped(files);
  }

  /** Each record is in its own folder's list, and every list holds only records of that folder. */
  lemma {:induction false} InFolderMembers(files: seq<DocFile>, name: string)
    ensures forall i :: 0 <= i < |files| && files[i].folder_name == name ==> files[i] in InFolder(files, name)
    ensures forall f :: f in InFolder(files, name) ==> f in files && f.folder_name == name
  {
    if files != [] {
      var init := files[..|files| - 1];
      InFolderMembers(init, name);
      forall i | 0 <= i < |init| ensures files[i] == init[i] { }
    }
  }

  /** The keys are exactly the folder names, and each list holds exactly that folder's records. */
  lemma GroupedKeys(files: seq<DocFile>)
    ensures Grouped(files).Keys == FolderNames(files)
    ensures forall i :: 0 <= i < |files| ==> files[i] in Grouped(files)[files[i].folder_name]
    ensures forall k, f :: k in Grouped(files) && f in Grouped(files)[k] ==> f in files && f.folder_name == k
  {
    forall k | k in FolderNames(files) {
      InFolderMembers(files, k);
    }
    forall i | 0 <= i < |files| ensures files[i] in Grouped(files)[files[i].folder_name] {
      assert files[i].folder_name in FolderNames(files);
      InFolderMembers(files, files[i].folder_name);
    }
  }

  // ---------------------------------------------------------------------
  // The nested structure

  /** Whether the chain of keys `p` can be followed from `st`. */
  predicate HasPath(st: FolderStructure, p: seq<string>)
  {
    p == [] || (p[0] in st.sub && HasPath(st.sub[p[0]], p[1..]))
  }

  /** The `currentLevel` walk: each part is reused when present and created empty otherwise. */
  function AddChain(st: FolderStructure, parts: seq<string>): FolderStructure
    decreases parts
  {
    if parts == [] then st
    else
      var child := if parts[0] in st.sub then st.sub[parts[0]] else EmptyStructure();
      FolderStructure(st.sub[parts[0] := AddChain(child, parts[1..])])
  }

  /** After the walk, a chain exists iff it existed before or is a prefix of the walked parts. */
  lemma {:induction false} AddChainPaths(st: FolderStructure, parts: seq<string>, p: seq<string>)
    ensures HasPath(AddChain(st, parts), p) <==> HasPath(st, p) || p <= parts
    decreases parts
  {
    if parts != [] && p != [] {
      var child := if parts[0] in st.sub then st.sub[parts[0]] else EmptyStructure();
      if p[0] == parts[0] {
        AddChainPaths(child, parts[1..], p[1..]);
        if parts[0] !in st.sub {
          NothingBelowEmpty(p[1..]);
        }
        assert (p <= parts) == (p[1..] <= parts[1..]);
      }
    }
  }

  lemma NothingBelowEmpty(p: seq<string>)
    ensures HasPath(EmptyStructure(), p) <==> p == []
  {
  }

  /** The structure `structureMap` ends with: every file's unfiltered segments, walked in order. */
  function BuildStructure(files: seq<DocFile>): FolderStructure
  {
    if files == [] then EmptyStructure()
    else AddChain(BuildStructure(files[..|files| - 1]), Split(files[|files| - 1].folder_name, '/'))
  }

  lemma BuildStructureSnoc(files: seq<DocFile>, f: DocFile)
    ensures BuildStructure(files + [f]) == AddChain(BuildStructure(files), Split(f.folder_name, '/'))
  {
    assert (files + [f])[..|files|] == files;
  }

  /** Some file's unfiltered segments start with `p`. */
  predicate SomeChainStartsWith(files: seq<DocFile>, p: seq<string>)
  {
    exists i :: 0 <= i < |files| && p <= Split(files[i].folder_name, '/')
  }

  lemma SomeChainSnoc(files: seq<DocFile>, f: DocFile, p: seq<string>)
    ensures SomeChainStartsWith(files + [f], p) <==> SomeChainStartsWith(files, p) || p <= Split(f.folder_name, '/')
  {
    var g := files + [f];
    if SomeChainStartsWith(g, p) {
      var i :| 0 <= i < |g| && p <= Split(g[i].folder_name, '/');
      if i < |files| {
        assert g[i] == files[i];
      }
    }
    if SomeChainStartsWith(files, p) {
      var i :| 0 <= i < |files| && p <= Split(files[i].folder_name, '/');
      assert g[i] == files[i];
    }
    assert g[|files|] == f;
  }

  /**
   * A chain exists in the built structure iff it is a segment-prefix of some
   * file's folder name: every file's chain is there, and nothing else.
   */
  lemma {:induction false} BuildStructurePaths(files: seq<DocFile>, p: seq<string>)
    ensures HasPath(BuildStructure(files), p) <==> p == [] || SomeChainStartsWith(files, p)
  {
    if files == [] {
      NothingBelowEmpty(p);
    } else {
      var init := files[..|files| - 1];
      var last := files[|files| - 1];
      assert init + [last] == files;
      BuildStructurePaths(init, p);
      AddChainPaths(BuildStructure(init), Split(last.folder_name, '/'), p);
      SomeChainSnoc(init, last, p);
    }
  }

  /** A chain built by an earlier file survives every later one. */
  lemma {:induction false} BuildStructureKeeps(files: seq<DocFile>, more: seq<DocFile>, p: seq<string>)
    requires HasPath(BuildStructure(files), p)
    ensures HasPath(BuildStructure(files + more), p)
  {
    BuildStructurePaths(files, p);
    BuildStructurePaths(files + more, p);
    if p != [] {
      var i :| 0 <= i < |files| && p <= Split(files[i].folder_name, '/');
      assert (files + more)[i] == files[i];
    }
  }

  /** An empty folder name is the top-level key `""`, since `"".split('/')` is `[""]`. */
  lemma EmptyNameIsTopLevelKey(f: DocFile)
    requires f.folder_name == ""
    ensures "" in BuildStructure([f]).sub
  {
    assert [f][..0] == [];
    assert Split("", '/') == [""];
  }

  // ---------------------------------------------------------------------
  // The hook's state

  class DocumentManager {
    var newFolderName: string
    var newChildFolderName: string
    var parentFolderForChildFolder: Option<string>
    var filesByFolder: map<string, seq<DocFile>>
    var folderStructure: FolderStructure
    var pendingUploads: map<string, seq<PickedFile>>
    var loadingUpload: map<string, bool>
    var loadingRAG: map<string, bool>
    var loadingDelete: map<string, bool>
    var loadingFiles: bool

    /** The state on mount: everything empty and the listing marked as loading. */
    constructor ()
      ensures newFolderName == "" && newChildFolderName == "" && parentFolderForChildFolder == None
      ensures filesByFolder == map[] && folderStructure == EmptyStructure()
      ensures pendingUploads == map[] && loadingUpload == map[] && loadingRAG == map[] && loadingDelete == map[]
      ensures loadingFiles
    {
      newFolderName := "";
      newChildFolderName := "";
      parentFolderForChildFolder := None;
      filesByFolder := map[];
      folderStructure := EmptyStructure();
      pendingUploads := map[];
      loadingUpload := map[];
      loadingRAG := map[];
      loadingDelete := map[];
      loadingFiles := true;
    }

    method SetNewFolderName(name: string)
      modifies this`newFolderName
      ensures newFolderName == name
    {
      newFolderName := name;
    }

    method SetNewChildFolderName(name: string)
      modifies this`newChildFolderName
      ensures newChildFolderName == name
    {
      newChildFolderName := name;
    }

    method SetParentFolderForChildFolder(parent: Option<string>)
      modifies this`parentFolderForChildFolder
      ensures parentFolderForChildFolder == parent
    {
      parentFolderForChildFolder := parent;
    }

    /**
     * `processFetchedData`: on a success status both objects are rebuilt from
     * the listed records and replaced; otherwise neither changes.
     */
    method ProcessFetchedData(status: JsonStatus, data: seq<DocFile>)
      modifies this`filesByFolder, this`folderStructure
      ensures status == Text("success") ==> filesByFolder == Grouped(data) && folderStructure == BuildStructure(data)
      ensures status != Text("success") ==> filesByFolder == old(filesByFolder) && folderStructure == old(folderStructure)
    {
      if status != Text("success") {
        return;
      }
      var folderMap: map<string, seq<DocFile>> := map[];
      var structureMap := EmptyStructure();
      var i := 0;
      while i < |data|
        invariant i <= |data|
        invariant folderMap == PushAll(data[..i])
        invariant structureMap == BuildStructure(data[..i])
      {
        var file := data[i];
        var folderPath := file.folder_name;
        ghost var before := folderMap;
        ghost var expected := before[folderPath := (if folderPath in before then before[folderPath] else []) + [file]];
        if folderPath !in folderMap {
          folderMap := folderMap[folderPath := []];
        }
        folderMap := folderMap[folderPath := folderMap[folderPath] + [file]];
        assert folderMap == expected;
        assert data[..i + 1] == data[..i] + [file];
        PushAllSnoc(data[..i], file);
        var pathParts := Split(folderPath, '/');
        structureMap := AddChain(structureMap, pathParts);
        BuildStructureSnoc(data[..i], file);
        i := i + 1;
      }
      assert data[..i] == data;
      PushAllIsGrouped(data);
      filesByFolder := folderMap;
      folderStructure := structureMap;
    }

    /** `fetchFiles` up to its request: the listing is marked as loading. */
    method StartFetchFiles()
      modifies this`loadingFiles
      ensures loadingFiles
    {
      loadingFiles := true;
    }

    /**
     * `fetchFiles` after the reply: a success status is processed, anything
     * else (including a failed request) leaves both objects unchanged, and the
     * loading flag is cleared in every outcome.
     */
    method SettleFetchFiles(reply: ListReply)
      modifies this`filesByFolder, this`folderStructure, this`loadingFiles
      ensures !loadingFiles
      ensures reply.Listed? && reply.status == Text("success") ==>
        filesByFolder == Grouped(reply.data) && folderStructure == BuildStructure(reply.data)
      ensures !(reply.Listed? && reply.status == Text("success")) ==>
        filesByFolder == old(filesByFolder) && folderStructure == old(folderStructure)
    {
      if reply.Listed? && reply.status == Text("success") {
        ProcessFetchedData(reply.status, reply.data);
      }
      loadingFiles := false;
    }
  }
}
