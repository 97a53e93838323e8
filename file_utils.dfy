/**
 * The file handlers of the document manager: queueing picked files, the
 * presigned upload, knowledge-base (RAG) creation and deletion. Each
 * asynchronous handler is split at its first `await` into a start, which
 * sets the handler's loading flag and yields the request body, and a settle,
 * which takes the server's reply and runs to the end of the `finally`.
 */
module FileUtils {
  import opened Wrappers
  import opened JsString
  import opened UseDocumentManager

  /** `prev[key] || []`. */
  function Existing<V>(m: map<string, seq<V>>, key: string): seq<V>
  {
    if key in m then m[key] else []
  }

  /** The `thread_id` of every request: the text before the first `/`. */
  function ThreadId(folderPath: string): (r: string)
    ensures '/' !in r && r <= folderPath
    ensures r == folderPath || folderPath[|r|] == '/'
  {
    FirstPiece(folderPath, '/')
  }

  /** The thread id is `folderPath.split('/')[0]`. */
  lemma ThreadIdIsFirstSegment(folderPath: string)
    ensures ThreadId(folderPath) == Split(folderPath, '/')[0]
  {
    FirstPieceOfSplit(folderPath, '/');
  }

  // ---------------------------------------------------------------------
  // Picking files

  /**
   * `handleFileSelection`: an empty pick (or none) changes nothing; otherwise
   * the picked files are appended to that folder's queue.
   */
  method HandleFileSelection(dm: DocumentManager, folderPath: string, picked: seq<PickedFile>)
    modifies dm`pendingUploads
    ensures picked == [] ==> dm.pendingUploads == old(dm.pendingUploads)
    ensures picked != [] ==>
      dm.pendingUploads == old(dm.pendingUploads)[folderPath := Existing(old(dm.pendingUploads), folderPath) + picked]
  {
    if |picked| == 0 {
      return;
    }
    dm.pendingUploads := dm.pendingUploads[folderPath := Existing(dm.pendingUploads, folderPath) + picked];
  }

  // ---------------------------------------------------------------------
  // Uploading

  datatype FilePayload = FilePayload(fileName: string, fileType: string)

  /** The body posted for presigned urls (the fixed user id is left out). */
  datatype UploadRequest = UploadRequest(files: seq<FilePayload>, folder_name: string, thread_id: string)

  /** One url object of the reply. */
  datatype UrlGrant = UrlGrant(presigned_url: string, file_url: string, file_id: string)

  /**
   * How the upload settles: the presigned-url reply together with the
   * positions of the urls whose PUT rejected (positions past the last url
   * mean nothing), or a failed request.
   */
  datatype UploadReply =
    | Presigned(status_code: JsonStatus, urls: seq<UrlGrant>, failedPuts: set<nat>)
    | UploadRequestFailed

  /** One `{fileName, fileType}` per file, in order. */
  function Payload(files: seq<PickedFile>): (r: seq<FilePayload>)
    ensures |r| == |files|
    ensures forall i :: 0 <= i < |files| ==> r[i].fileName == files[i].name && r[i].fileType == files[i].fileType
  {
    seq(|files|, i requires 0 <= i < |files| => FilePayload(files[i].name, files[i].fileType))
  }

  /** The record built for the `i`-th url from the `i`-th queued file. */
  function Uploaded(urls: seq<UrlGrant>, files: seq<PickedFile>, folderPath: string): (r: seq<DocFile>)
    requires |urls| <= |files|
    ensures |r| == |urls|
    ensures forall i :: 0 <= i < |r| ==>
      && r[i].folder_name == folderPath && !r[i].rag_status
      && r[i].file_id == urls[i].file_id && r[i].file_name == files[i].name
      && r[i].s3_file_url == Some(urls[i].file_url)
  {
    seq(|urls|, i requires 0 <= i < |urls| =>
      DocFile(folderPath, urls[i].file_id, files[i].name, Some(urls[i].file_url), false))
  }

  /**
   * Whether the `try` block runs to its state updates: status 200, no url
   * beyond the queued files (`files[index]` would be undefined and reading
   * its `type` throws), and the PUT to every url resolved (`Promise.all`
   * of no promises resolves at once).
   */
  predicate UploadSucceeds(files: seq<PickedFile>, reply: UploadReply)
  {
    && reply.Presigned?
    && reply.status_code == Number(200)
    && |reply.urls| <= |files|
    && forall i :: i in reply.failedPuts ==> i >= |reply.urls|
  }

  /** A 200 reply without urls always succeeds, whatever else is recorded about PUTs. */
  lemma UploadWithoutUrlsSucceeds(files: seq<PickedFile>, failed: set<nat>)
    ensures UploadSucceeds(files, Presigned(Number(200), [], failed))
  {
  }

  /** One rejected PUT to a returned url makes the whole upload fail. */
  lemma RejectedPutFails(files: seq<PickedFile>, status: JsonStatus, urls: seq<UrlGrant>, failed: set<nat>, i: nat)
    requires i < |urls| && i in failed
    ensures !UploadSucceeds(files, Presigned(status, urls, failed))
  {
  }

  /**
   * `handleUploadDocuments` up to its request: nothing queued for the folder
   * changes nothing; otherwise the folder is marked as uploading and the
   * request describes every queued file.
   */
  method StartUpload(dm: DocumentManager, folderPath: string) returns (request: Option<UploadRequest>)
    modifies dm`loadingUpload
    ensures Existing(old(dm.pendingUploads), folderPath) == [] ==>
      request == None && dm.loadingUpload == old(dm.loadingUpload)
    ensures Existing(old(dm.pendingUploads), folderPath) != [] ==>
      && dm.loadingUpload == old(dm.loadingUpload)[folderPath := true]
      && request == Some(UploadRequest(Payload(dm.pendingUploads[folderPath]), folderPath, ThreadId(folderPath)))
  {
    if folderPath !in dm.pendingUploads || |dm.pendingUploads[folderPath]| == 0 {
      return None;
    }
    var files := dm.pendingUploads[folderPath];
    dm.loadingUpload := dm.loadingUpload[folderPath := true];
    var payload := Payload(files);
    request := Some(UploadRequest(payload, folderPath, ThreadId(folderPath)));
  }

  /**
   * `handleUploadDocuments` after the request, for the queue `files` read
   * when it started: on success the folder's list gains one record per url
   * and its queue is emptied; any other outcome leaves both as they are. The
   * folder's loading flag is cleared in every outcome.
   */
  method SettleUpload(dm: DocumentManager, folderPath: string, files: seq<PickedFile>, reply: UploadReply)
    modifies dm`filesByFolder, dm`pendingUploads, dm`loadingUpload
    ensures dm.loadingUpload == old(dm.loadingUpload)[folderPath := false]
    ensures UploadSucceeds(files, reply) ==>
      && dm.filesByFolder == old(dm.filesByFolder)[folderPath :=
           Existing(old(dm.filesByFolder), folderPath) + Uploaded(reply.urls, files, folderPath)]
      && dm.pendingUploads == old(dm.pendingUploads)[folderPath := []]
    ensures !UploadSucceeds(files, reply) ==>
      dm.filesByFolder == old(dm.filesByFolder) && dm.pendingUploads == old(dm.pendingUploads)
  {
    if UploadSucceeds(files, reply) {
      var uploaded := Uploaded(reply.urls, files, folderPath);
      dm.filesByFolder := dm.filesByFolder[folderPath := Existing(dm.filesByFolder, folderPath) + uploaded];
      dm.pendingUploads := dm.pendingUploads[folderPath := []];
    }
    dm.loadingUpload := dm.loadingUpload[folderPath := false];
  }

  /**
   * A successful upload keeps the folder's earlier records in front, in
   * order, and every record it adds sits in that folder with no knowledge
   * base yet.
   */
  lemma UploadExtendsFolder(lists: map<string, seq<DocFile>>, folderPath: string, files: seq<PickedFile>, urls: seq<UrlGrant>)
    requires |urls| <= |files|
    ensures var after := Existing(lists, folderPath) + Uploaded(urls, files, folderPath);
      && Existing(lists, folderPath) <= after
      && |after| == |Existing(lists, folderPath)| + |urls|
      && forall r :: r in after[|Existing(lists, folderPath)|..] ==> r.folder_name == folderPath && !r.rag_status
  {
    var before := Existing(lists, folderPath);
    var after := before + Uploaded(urls, files, folderPath);
    assert after[|before|..] == Uploaded(urls, files, folderPath);
  }

  // ---------------------------------------------------------------------
  // Knowledge base and deletion

  /** The body posted to create a knowledge base (the fixed user id is left out). */
  datatype RagRequest = RagRequest(file_id_list: seq<string>, thread_id: string, upload_type: string)

  datatype DeleteRequest = DeleteRequest(file_id: string, thread_id: string)

  /** The `status` of a reply, or a request that failed. */
  datatype StatusReply = Replied(status: JsonStatus) | RequestFailed

  /** The `map` of the knowledge-base handler: matching records get `rag_status` set. */
  function MarkRag(files: seq<DocFile>, fileId: string): (r: seq<DocFile>)
    ensures |r| == |files|
    ensures forall i :: 0 <= i < |files| ==>
      r[i] == files[i].(rag_status := files[i].rag_status || files[i].file_id == fileId)
  {
    seq(|files|, i requires 0 <= i < |files| =>
      if files[i].file_id == fileId then files[i].(rag_status := true) else files[i])
  }

  /** Marking is idempotent, and afterwards every record with that id has its knowledge base. */
  lemma MarkRagIdempotent(files: seq<DocFile>, fileId: string)
    ensures MarkRag(MarkRag(files, fileId), fileId) == MarkRag(files, fileId)
    ensures forall r :: r in MarkRag(files, fileId) && r.file_id == fileId ==> r.rag_status
  {
    var once := MarkRag(files, fileId);
    assert MarkRag(once, fileId) == once;
  }

  /** The `filter` of the delete handler: the records with another id, in order. */
  function RemoveFile(files: seq<DocFile>, fileId: string): (r: seq<DocFile>)
    ensures forall f :: f in r ==> f in files && f.file_id != fileId
    ensures forall f :: f in files && f.file_id != fileId ==> f in r
  {
    if files == [] then []
    else
      var rest := RemoveFile(files[..|files| - 1], fileId);
      var last := files[|files| - 1];
      assert forall f :: f in files ==> f in files[..|files| - 1] || f == last;
      if last.file_id != fileId then rest + [last] else rest
  }

  /** The `filter` keeps the order of the kept records: it distributes over concatenation. */
  lemma {:induction false} RemoveFileAppend(a: seq<DocFile>, b: seq<DocFile>, fileId: string)
    ensures RemoveFile(a + b, fileId) == RemoveFile(a, fileId) + RemoveFile(b, fileId)
    decreases |b|
  {
    if b != [] {
      var init, last := b[..|b| - 1], b[|b| - 1];
      assert (a + b)[..|a + b| - 1] == a + init;
      RemoveFileAppend(a, init, fileId);
    } else {
      assert a + b == a;
    }
  }

  /** Each record with another id is kept as often as it occurs; those with the id are all gone. */
  lemma {:induction false} RemoveFileMultiset(files: seq<DocFile>, fileId: string)
    ensures forall f :: multiset(RemoveFile(files, fileId))[f] == if f.file_id == fileId then 0 else multiset(files)[f]
  {
    if files != [] {
      var init, last := files[..|files| - 1], files[|files| - 1];
      RemoveFileMultiset(init, fileId);
      assert files == init + [last];
    }
  }

  /** Removal changes the list iff it held a record with that id. */
  lemma {:induction false} RemoveFileUnchangedIff(files: seq<DocFile>, fileId: string)
    ensures RemoveFile(files, fileId) == files <==> forall f :: f in files ==> f.file_id != fileId
  {
    if files != [] {
      var init := files[..|files| - 1];
      RemoveFileUnchangedIff(init, fileId);
      assert files == init + [files[|files| - 1]];
      if files[|files| - 1].file_id == fileId {
        assert |RemoveFile(init, fileId)| <= |init| by { RemoveFileShorter(init, fileId); }
      }
    }
  }

  lemma {:induction false} RemoveFileShorter(files: seq<DocFile>, fileId: string)
    ensures |RemoveFile(files, fileId)| <= |files|
  {
    if files != [] {
      RemoveFileShorter(files[..|files| - 1], fileId);
    }
  }

  /** `data.status === 200 || data.status === 'success'`. */
  predicate DeleteSucceeds(reply: StatusReply)
  {
    reply.Replied? && (reply.status == Number(200) || reply.status == Text("success"))
  }

  /** `handleCreateRAG` up to its request: the file is marked as loading. */
  method StartRAG(dm: DocumentManager, fileId: string, folderPath: string) returns (request: RagRequest)
    modifies dm`loadingRAG
    ensures dm.loadingRAG == old(dm.loadingRAG)[fileId := true]
    ensures request == RagRequest([fileId], ThreadId(folderPath), "file")
  {
    dm.loadingRAG := dm.loadingRAG[fileId := true];
    request := RagRequest([fileId], ThreadId(folderPath), "file");
  }

  /**
   * `handleCreateRAG` after the request: on `status === 'success'` the
   * folder's matching records are marked (an unlisted folder throws and is
   * caught, changing nothing); otherwise nothing changes. The flag is cleared.
   */
  method SettleRAG(dm: DocumentManager, fileId: string, folderPath: string, reply: StatusReply)
    modifies dm`filesByFolder, dm`loadingRAG
    ensures dm.loadingRAG == old(dm.loadingRAG)[fileId := false]
    ensures reply == Replied(Text("success")) && folderPath in old(dm.filesByFolder) ==>
      dm.filesByFolder == old(dm.filesByFolder)[folderPath := MarkRag(old(dm.filesByFolder)[folderPath], fileId)]
    ensures !(reply == Replied(Text("success")) && folderPath in old(dm.filesByFolder)) ==>
      dm.filesByFolder == old(dm.filesByFolder)
  {
    if reply == Replied(Text("success")) && folderPath in dm.filesByFolder {
      var updated := MarkRag(dm.filesByFolder[folderPath], fileId);
      dm.filesByFolder := dm.filesByFolder[folderPath := updated];
    }
    dm.loadingRAG := dm.loadingRAG[fileId := false];
  }

  /** `handleDeleteFile` up to its request: the file is marked as deleting. */
  method StartDelete(dm: DocumentManager, fileId: string, folderPath: string) returns (request: DeleteRequest)
    modifies dm`loadingDelete
    ensures dm.loadingDelete == old(dm.loadingDelete)[fileId := true]
    ensures request == DeleteRequest(fileId, ThreadId(folderPath))
  {
    dm.loadingDelete := dm.loadingDelete[fileId := true];
    request := DeleteRequest(fileId, ThreadId(folderPath));
  }

  /**
   * `handleDeleteFile` after the request: on success the records with that id
   * leave that folder's list (an unlisted folder throws and is caught,
   * changing nothing); otherwise nothing changes. The flag is cleared.
   */
  method SettleDelete(dm: DocumentManager, fileId: string, folderPath: string, reply: StatusReply)
    modifies dm`filesByFolder, dm`loadingDelete
    ensures dm.loadingDelete == old(dm.loadingDelete)[fileId := false]
    ensures DeleteSucceeds(reply) && folderPath in old(dm.filesByFolder) ==>
      dm.filesByFolder == old(dm.filesByFolder)[folderPath := RemoveFile(old(dm.filesByFolder)[folderPath], fileId)]
    ensures !(DeleteSucceeds(reply) && folderPath in old(dm.filesByFolder)) ==>
      dm.filesByFolder == old(dm.filesByFolder)
  {
    if DeleteSucceeds(reply) && folderPath in dm.filesByFolder {
      var updated := RemoveFile(dm.filesByFolder[folderPath], fileId);
      dm.filesByFolder := dm.filesByFolder[folderPath := updated];
    }
    dm.loadingDelete := dm.loadingDelete[fileId := false];
  }
}
