# Document evaluation front-end: a verified model of its state logic

The front-end has two pages.

- **Chat page.** The user picks documents in a folder tree and asks questions about them. The answer streams back into a transcript.
- **Document manager.** Lists, uploads and deletes files, organises them into folders, and starts building a knowledge base (RAG) for a file.

This project models the state logic behind both pages in Dafny:

- the folder tree and the selection (`useFileSelection`);
- the chat transcript, the stream ingestion and the scroll flags (`useChatMessages`);
- the per-folder file lists and the nested folder structure (`useDocumentManager`);
- the folder and file handlers (`folderUtils`, `fileUtils`).

Server replies and stream fragments are inputs. Nothing is fetched.

The Dafny takes the form the source has:

- **Loops become methods proved against specification functions.** `BuildFolderTree`, `CollectFolderPaths`, `UpdateMessage`, `ReadStream` and `ProcessFetchedData` each have a loop, its invariants, and an `ensures` that ties the result to a function. What the code promises is then proved about that function as lemmas.
- **Hook state that handlers update becomes a class.** The chat controller (`UseChatMessages.ChatController`) is one. The document manager's state (`UseDocumentManager.DocumentManager`) is another. The folder and file handlers are module-level methods in `FolderUtils` and `FileUtils`. Each takes the manager as a parameter `dm`, with `modifies dm` frames naming the fields it sets.
- **Asynchronous handlers are split at their first `await`.** A start method sets the loading flag and returns the request body. A settle method takes the reply and runs to the end of the `finally` block.
- **The selection hook's state-to-state handlers map a state value to the next one.** `SelectionState` is a datatype, and its pure updaters are functions.

Files:

| file | contents |
|---|---|
| `wrappers.dfy` | `Option` |
| `js_string.dfy` | the JavaScript string operations: `split` on one character (`"".split('/')` is `[""]`), `join`, `filter(Boolean)`, `trim()` with ECMAScript's whitespace set, `split('/')[0]` |
| `map_sum.dfy` | the sum of a map's values, used to count records spread over an object |
| `file_selection.dfy` | tree build, open-folder initialisation, toggles, fetch |
| `chat_messages.dfy` | transcript, submit, re-chunked streaming, error paths, scroll state machine |
| `document_manager.dfy` | grouping by folder, nested structure, listing fetch |
| `folder_utils.dfy` | creating top-level and child folders |
| `file_utils.dfy` | picking, upload, knowledge-base creation, delete |

## Behaviour modelled as the code has it

- **Second submit.** Nothing in `handleSubmit` refuses a second submit while a reply is in flight. Only the input and button are disabled, in `src/components/ChatSection/ChatSection.tsx:74` and `:79`. The `handleSubmit` in the model accepts a second submit while loading, and `SecondSubmitWhileLoadingScenario` shows two placeholders in the transcript.
- **A successful file fetch** replaces the open-folder map wholesale, with every collected prefix set to `false` (`src/components/ChatSection/useFileSelection.tsx:45-60`, `UseFileSelection.FetchFiles`). Only the mount effect runs a fetch (`:28-30`), and the hook does not return `fetchFiles`, so within the hook this happens once, before the user can toggle a folder.
- **Prefix keys for the open-folder map** follow `path ? path + "/" + part : part`. This tests whether the text so far is non-empty, not whether it is the first step. So `"/a"` gives the keys `""` and `"a"`, not `"/a"` (`PathAfterIsJoin`, `DropLeadingEmptyOfSplit`).
- **A failed or not-ok chat reply** appends one error message and leaves the placeholder `streaming`. A read error keeps the text received so far in the still-streaming placeholder (`ReadErrorScenario`).
- **Creating a child folder** checks `filesByFolder` for `parent/child`, not the structure. A same-named node that is present in the structure but has no list of its own is replaced by an empty node, and its descendants are lost (`FolderUtils.AddChildAtPaths`, `FolderUtils.ChildOverwriteExample`).
- **Creating a top-level folder** checks the structure's top-level keys only. A name such as `"a/b"` that is already a key of `filesByFolder` gets its list overwritten with `[]` (`FolderUtils.HandleCreateFolder`).
- **Upload edge cases:**
  - If the reply has more urls than queued files, `files[index]` is undefined. Reading its `type` throws, `Promise.all` rejects, and the `catch` leaves the lists and the queue unchanged.
  - If the reply has fewer urls than files, only that many records are added, but the whole queue is cleared (`FileUtils.SettleUpload`).
- **Knowledge-base creation and delete on an unlisted folder.** `filesByFolder[folderPath]` is undefined, so `.map` or `.filter` throws inside the `try`. The `catch` block applies, and the lists are unchanged (`FileUtils.SettleRAG`, `FileUtils.SettleDelete`).

## Model

| member | source | states |
|---|---|---|
| JsString.Split | src/components/DocumentManager/useDocumentManager.ts:83 | `split('/')` yields at least one piece and no piece holds the separator |
| JsString.JoinSplit | src/components/ChatSection/useFileSelection.tsx:100 | joining the pieces of a split with the same separator gives back the string |
| JsString.SplitJoin | src/components/ChatSection/useFileSelection.tsx:100 | splitting a join of separator-free pieces gives back the pieces |
| JsString.SplitWithoutSep | src/components/DocumentManager/folderUtils.ts:62 | a string without the separator splits into itself alone |
| JsString.SplitAfterPiece | src/components/DocumentManager/folderUtils.ts:62 | `a + sep + t` with `a` free of separators splits into `a` followed by the pieces of `t` |
| JsString.NonEmpty | src/components/ChatSection/useFileSelection.tsx:93 | `filter(Boolean)` keeps exactly the non-empty strings, each from the input |
| JsString.NonEmptyAppend | src/components/ChatSection/useFileSelection.tsx:93 | the filter distributes over concatenation and keeps a one-element list iff its string is non-empty, so order and duplicates are kept |
| JsString.Join | src/components/ChatSection/useFileSelection.tsx:100 | definition of `join`; `JoinSplit` and `SplitJoin` make it the inverse of `Split` |
| JsString.TrimStart | src/components/ChatSection/useChatMessages.tsx:92 | the result is a suffix, everything dropped is whitespace, and it does not start with whitespace |
| JsString.TrimEnd | src/components/ChatSection/useChatMessages.tsx:92 | the result is a prefix, everything dropped is whitespace, and it does not end with whitespace |
| JsString.Trim | src/components/ChatSection/useChatMessages.tsx:92 | definition: `TrimEnd` after `TrimStart`, the `trim()` of ECMAScript |
| JsString.IsBlank | src/components/DocumentManager/folderUtils.ts:13 | definition of `!s.trim()`; `BlankIffAllWhitespace` states when it holds |
| JsString.BlankIffAllWhitespace | src/components/DocumentManager/folderUtils.ts:13 | `!s.trim()` holds exactly when every character is ECMAScript whitespace |
| JsString.FirstPiece | src/components/DocumentManager/fileUtils.ts:50 | the text before the first separator, a prefix followed by the separator or the end |
| JsString.FirstPieceOfSplit | src/components/DocumentManager/fileUtils.ts:50 | `FirstPiece` equals `split(sep)[0]` |
| UseFileSelection.EmptyRoot | src/components/ChatSection/useFileSelection.tsx:89 | definition of `{ name: 'root', children: {}, files: [] }`, also the initial tree at `:24`; `BuildTreeWellFormed` states the root of every built tree is this root's name without a path |
| UseFileSelection.Segments | src/components/ChatSection/useFileSelection.tsx:93 | the tree segments are non-empty and free of `/` |
| UseFileSelection.SegmentsEmptyIff | src/components/ChatSection/useFileSelection.tsx:93 | a folder name has no segment iff it consists of slashes only (`""`, `"/"`, ...) |
| UseFileSelection.BuildTree | src/components/ChatSection/useFileSelection.tsx:91-116 | definition: the walks of the files in list order from an empty root; its nodes, files and naming are stated by `HasNodeBuildTree`, `FilesAtBuildTree`, `BuildTreeWellFormed` and `BuildTreeTotal` |
| UseFileSelection.InsertAt | src/components/ChatSection/useFileSelection.tsx:98-115 | the walk keeps the name and path of the node it starts from |
| UseFileSelection.BuildFolderTree | src/components/ChatSection/useFileSelection.tsx:88-119 | the `forEach` loop computes the tree of the whole list, visiting files in order |
| UseFileSelection.FilesAtInsert | src/components/ChatSection/useFileSelection.tsx:102-115 | one walk appends the file to the node at the end of its segments and to no other node |
| UseFileSelection.HasNodeInsert | src/components/ChatSection/useFileSelection.tsx:102-111 | one walk keeps every node and adds exactly the nodes along the file's segments, reusing existing children |
| UseFileSelection.InsertWellFormed | src/components/ChatSection/useFileSelection.tsx:100-108 | a walk keeps every node named by its last segment and pathed by the joined segments |
| UseFileSelection.TotalInsert | src/components/ChatSection/useFileSelection.tsx:115 | a walk adds exactly one file to the tree |
| UseFileSelection.FilesAtBuildTree | src/components/ChatSection/useFileSelection.tsx:91-116 | each node holds exactly the files whose segments lead to it, in input order, not inherited |
| UseFileSelection.HasNodeBuildTree | src/components/ChatSection/useFileSelection.tsx:91-112 | the nodes are the root and the segment-prefixes of the files' folder names, nothing else |
| UseFileSelection.BuildTreeWellFormed | src/components/ChatSection/useFileSelection.tsx:89-108 | the root is `root` without path, and every child key is a non-empty segment with `name` and `path` from its segments |
| UseFileSelection.BuildTreeTotal | src/components/ChatSection/useFileSelection.tsx:91-116 | the tree holds exactly as many files as the list |
| UseFileSelection.SlashOnlyNameGoesToRoot | src/components/ChatSection/useFileSelection.tsx:93-115 | a file named `""` or only slashes is appended to the root's files and creates no node |
| UseFileSelection.PrefixPaths | src/components/ChatSection/useFileSelection.tsx:48-53 | definition: the `path` after each step of one name's walk over its unfiltered split; `UnslashedPrefixPaths` and `OwnNameIsCollected` state which keys these are |
| UseFileSelection.FolderPaths | src/components/ChatSection/useFileSelection.tsx:46-53 | definition: the union of every file's prefix paths, the reference `CollectFolderPaths` is proved equal to; `FolderPathsMember` states its members |
| UseFileSelection.InitialOpenFolders | src/components/ChatSection/useFileSelection.tsx:56-59 | the map's keys are the collected paths and every folder starts closed |
| UseFileSelection.CollectFolderPaths | src/components/ChatSection/useFileSelection.tsx:46-54 | the nested loops collect exactly the prefix paths of every file |
| UseFileSelection.FolderPathsMember | src/components/ChatSection/useFileSelection.tsx:47-53 | a path is collected iff it is a prefix path of some file |
| UseFileSelection.DropLeadingEmpty | src/components/ChatSection/useFileSelection.tsx:51 | a suffix not starting with `""`, and every dropped piece is `""` |
| UseFileSelection.NextPath | src/components/ChatSection/useFileSelection.tsx:51 | definition of `path ? path + '/' + part : part`; its effect over a whole walk is `PathAfterIsJoin` |
| UseFileSelection.PathAfter | src/components/ChatSection/useFileSelection.tsx:49-52 | definition: the `path` after walking the parts; equal to the join of the parts without their leading empty pieces by `PathAfterIsJoin` |
| UseFileSelection.PathAfterIsJoin | src/components/ChatSection/useFileSelection.tsx:49-52 | the `path` after a walk is the join of the parts without their leading empty pieces |
| UseFileSelection.UnslashedPrefixPaths | src/components/ChatSection/useFileSelection.tsx:48-53 | for a name not starting with `/`, the prefix paths are the joins of the split's prefixes |
| UseFileSelection.StripLeadingSlashes | src/components/ChatSection/useFileSelection.tsx:51 | a suffix of the name that does not start with `/`, and every dropped character is `/` |
| UseFileSelection.DropLeadingEmptyOfSplit | src/components/ChatSection/useFileSelection.tsx:48-53 | the full walk of a name yields the name without its leading slashes |
| UseFileSelection.OwnNameIsCollected | src/components/ChatSection/useFileSelection.tsx:47-53 | each folder name, without its leading slashes, becomes a key |
| UseFileSelection.IsOpen | src/components/ChatSection/useFileSelection.tsx:75 | definition: `prev[folderPath]` as a truth value, a missing key counting as closed; `ToggleFolder` and `ToggleFolderTwice` are stated with it |
| UseFileSelection.ToggleFolder | src/components/ChatSection/useFileSelection.tsx:72-77 | the folder's openness flips (a missing key counts as closed) and every other flag is kept |
| UseFileSelection.ToggleFolderTwice | src/components/ChatSection/useFileSelection.tsx:72-77 | toggling twice restores whether every folder is open |
| UseFileSelection.Without | src/components/ChatSection/useFileSelection.tsx:81 | every occurrence of the id is dropped and the multiset of the other ids is kept |
| UseFileSelection.WithoutAppend | src/components/ChatSection/useFileSelection.tsx:81 | the filter distributes over concatenation, so order is kept |
| UseFileSelection.WithoutAbsent | src/components/ChatSection/useFileSelection.tsx:81 | filtering an absent id changes nothing |
| UseFileSelection.ToggleFileSelection | src/components/ChatSection/useFileSelection.tsx:79-85 | the id's membership flips, other ids keep theirs, and an absent id is appended at the end |
| UseFileSelection.WithoutDistinct | src/components/ChatSection/useFileSelection.tsx:81 | filtering keeps a list duplicate-free |
| UseFileSelection.ToggleKeepsDistinct | src/components/ChatSection/useFileSelection.tsx:79-85 | toggling keeps the selection duplicate-free |
| UseFileSelection.ToggleTwice | src/components/ChatSection/useFileSelection.tsx:79-85 | two toggles restore membership; the exact list when the id started absent, the id moved last when present |
| UseFileSelection.OnFilesChanged | src/components/ChatSection/useFileSelection.tsx:32-36 | the tree is rebuilt from the list only when the list is non-empty |
| UseFileSelection.FetchFiles | src/components/ChatSection/useFileSelection.tsx:38-70 | on status 200 the list and the whole open-folder map are replaced and the tree rebuilt; otherwise nothing changes |
| UseChatMessages.Placeholder | src/components/ChatSection/useChatMessages.tsx:110 | definition: the empty, streaming system message; `SendChatMessage` appends it |
| UseChatMessages.ErrorMessage | src/components/ChatSection/useChatMessages.tsx:189 | the `catch` message is a closed system message |
| UseChatMessages.PieceCount | src/components/ChatSection/useChatMessages.tsx:139 | definition: how often the loop runs, `ceil(length / 10)`; `Pieces` has this many pieces |
| UseChatMessages.Piece | src/components/ChatSection/useChatMessages.tsx:140 | each `substring(i, i + 10)` taken by the loop has 1 to 10 characters |
| UseChatMessages.Pieces | src/components/ChatSection/useChatMessages.tsx:139-140 | the loop takes `ceil(length / 10)` pieces |
| UseChatMessages.PiecesPrefix | src/components/ChatSection/useChatMessages.tsx:139-141 | the first `k` pieces concatenate to the first `10k` characters |
| UseChatMessages.PiecesConcat | src/components/ChatSection/useChatMessages.tsx:137-141 | the pieces concatenate back to the fragment |
| UseChatMessages.Snapshots | src/components/ChatSection/useChatMessages.tsx:139-150 | one write per piece, the `k`-th holding the accumulator plus the first `k + 1` pieces |
| UseChatMessages.SnapshotsAre | src/components/ChatSection/useChatMessages.tsx:139-150 | the `k`-th write holds the first `10(k + 1)` characters of the fragment, each write strictly extends the one before, and the last holds the whole fragment |
| UseChatMessages.SnapshotsGrow | src/components/ChatSection/useChatMessages.tsx:139-150 | the writes of one fragment lie between the old and new accumulator, each a prefix of the next |
| UseChatMessages.IsNearBottom | src/components/ChatSection/useChatMessages.tsx:55-59 | definition: the distance from the bottom is at most 100; used by `OnScroll` |
| UseChatMessages.LastStreaming | src/components/ChatSection/useChatMessages.tsx:146 | definition of `last?.streaming`, also at `:167`; `UpdateMessage` writes into the transcript exactly when it holds |
| UseChatMessages.OverwriteLast | src/components/ChatSection/useChatMessages.tsx:143-150 | length and all earlier messages are kept; only a streaming last message gets the new content |
| UseChatMessages.FinalizeLast | src/components/ChatSection/useChatMessages.tsx:164-171 | a streaming last message is closed with the accumulated content; otherwise the transcript is unchanged |
| UseChatMessages.OverwriteThenFinalize | src/components/ChatSection/useChatMessages.tsx:143-171 | only the latest per-piece content survives, and finalising overrides it |
| UseChatMessages.ChatController.constructor | src/components/ChatSection/useChatMessages.tsx:14-32 | after mounting: the welcome message alone, nothing loading, auto-scroll on |
| UseChatMessages.ChatController.ScrollsToBottom | src/components/ChatSection/useChatMessages.tsx:34-36 | definition: the auto-scroll effect fires iff auto-scroll is on and the user is not scrolling; `OnScroll` ensures it is off after a scroll |
| UseChatMessages.ChatController.SetInputMessage | src/components/ChatSection/useChatMessages.tsx:15 | only the input changes |
| UseChatMessages.ChatController.SetSelectedFileIds | src/components/ChatSection/useChatMessages.tsx:17 | only the forwarded selection changes |
| UseChatMessages.ChatController.HandleSubmit | src/components/ChatSection/useChatMessages.tsx:90-103 | blank input changes nothing; otherwise the user message and placeholder are appended, the input cleared, scrolling resumed, loading on, and the request carries the untrimmed query and the selection |
| UseChatMessages.ChatController.SendChatMessage | src/components/ChatSection/useChatMessages.tsx:105-123 | loading on, one streaming placeholder appended, streaming requested with the current selection |
| UseChatMessages.ChatController.UpdateMessage | src/components/ChatSection/useChatMessages.tsx:137-154 | the accumulator grows by the fragment; only a streaming last message is rewritten; a streaming message receives exactly the `Snapshots` of the fragment, one per piece, and nothing is written otherwise; every content shown lies between the old and new accumulator, each a prefix of the next |
| UseChatMessages.ChatController.ReadStream | src/components/ChatSection/useChatMessages.tsx:156-161 | the accumulator is the concatenation of the fragments in arrival order, and every content shown is a growing prefix of it |
| UseChatMessages.ChatController.SettleChatMessage | src/components/ChatSection/useChatMessages.tsx:124-197 | a failure appends one error message and leaves the placeholder; a finished stream closes the last message with the whole text; loading is off in every outcome |
| UseChatMessages.ChatController.OnScroll | src/components/ChatSection/useChatMessages.tsx:43-64 | user scrolling on, auto-scroll iff within 100 of the bottom, a fresh timer replaces the pending one, and auto-scroll cannot fire |
| UseChatMessages.ChatController.OnScrollTimerFired | src/components/ChatSection/useChatMessages.tsx:62-64 | only the pending timer, the most recent scroll's, clears user scrolling; any other expiry changes nothing |
| UseDocumentManager.Grouped | src/components/DocumentManager/useDocumentManager.ts:77-80 | definition: each folder name of the records maps to that folder's records in order; stated by `GroupedKeys` and `GroupedTotal` |
| UseDocumentManager.PushAll | src/components/DocumentManager/useDocumentManager.ts:77-80 | definition: the `forEach`'s one push per record onto its folder's list; equal to `Grouped` by `PushAllIsGrouped` |
| UseDocumentManager.GroupedSnoc | src/components/DocumentManager/useDocumentManager.ts:77-80 | one more record is pushed onto its own folder's list only |
| UseDocumentManager.PushAllIsGrouped | src/components/DocumentManager/useDocumentManager.ts:77-80 | pushing the records one at a time onto their folder's list, as the `forEach` does, yields the grouping |
| UseDocumentManager.GroupedTotal | src/components/DocumentManager/useDocumentManager.ts:77-80 | the lengths of all lists add up to the number of records |
| UseDocumentManager.InFolderMembers | src/components/DocumentManager/useDocumentManager.ts:78-80 | each record is in its folder's list, and each list holds only records of that folder |
| UseDocumentManager.GroupedKeys | src/components/DocumentManager/useDocumentManager.ts:78-80 | the keys are exactly the folder names, and each list holds exactly its folder's records |
| UseDocumentManager.AddChain | src/components/DocumentManager/useDocumentManager.ts:83-88 | definition of the `current` walk that creates each absent key as `{}` and reuses a present one; its chains are stated by `AddChainPaths` |
| UseDocumentManager.BuildStructure | src/components/DocumentManager/useDocumentManager.ts:77-89 | definition: the walks of all records in order from `{}`; stated by `BuildStructurePaths` and `BuildStructureKeeps` |
| UseDocumentManager.AddChainPaths | src/components/DocumentManager/useDocumentManager.ts:83-88 | after one walk a chain exists iff it existed before or is a prefix of the walked segments |
| UseDocumentManager.BuildStructurePaths | src/components/DocumentManager/useDocumentManager.ts:77-89 | a chain exists iff it is a segment-prefix of some file's unfiltered folder name |
| UseDocumentManager.BuildStructureKeeps | src/components/DocumentManager/useDocumentManager.ts:86 | a chain built by earlier files survives every later file |
| UseDocumentManager.EmptyNameIsTopLevelKey | src/components/DocumentManager/useDocumentManager.ts:83-86 | an empty folder name yields the top-level key `""` |
| UseDocumentManager.DocumentManager.constructor | src/components/DocumentManager/useDocumentManager.ts:24-33 | everything empty and the listing loading |
| UseDocumentManager.DocumentManager.SetNewFolderName | src/components/DocumentManager/useDocumentManager.ts:24 | only the name input changes |
| UseDocumentManager.DocumentManager.SetNewChildFolderName | src/components/DocumentManager/useDocumentManager.ts:25 | only the child name input changes |
| UseDocumentManager.DocumentManager.SetParentFolderForChildFolder | src/components/DocumentManager/useDocumentManager.ts:26 | only the selected parent changes |
| UseDocumentManager.DocumentManager.ProcessFetchedData | src/components/DocumentManager/useDocumentManager.ts:72-94 | on `'success'` both objects are replaced by the grouping and the structure of the records; otherwise neither changes |
| UseDocumentManager.DocumentManager.StartFetchFiles | src/components/DocumentManager/useDocumentManager.ts:45 | the listing is marked as loading |
| UseDocumentManager.DocumentManager.SettleFetchFiles | src/components/DocumentManager/useDocumentManager.ts:48-69 | a success reply is processed, anything else leaves both objects; loading is off in every outcome |
| FolderUtils.AddChildAt | src/components/DocumentManager/folderUtils.ts:57-68 | definition: walk to the parent node and set the child to `{}`; its chains are stated by `AddChildAtPaths` |
| FolderUtils.AddChildAtPaths | src/components/DocumentManager/folderUtils.ts:57-71 | after adding a child, a chain exists iff it leads to the new folder or existed and does not go below it |
| FolderUtils.HandleCreateFolder | src/components/DocumentManager/folderUtils.ts:5-26 | blank or existing names change nothing; otherwise the untrimmed name gains an empty folder and an empty list and the input is cleared |
| FolderUtils.CreateFolderPaths | src/components/DocumentManager/folderUtils.ts:18-19 | a new top-level folder adds exactly its own chain and loses nothing |
| FolderUtils.IsFalsy | src/components/DocumentManager/folderUtils.ts:38 | definition of `!parentFolderForChildFolder`: `null` or the empty string; the guard of `HandleCreateChildFolder` |
| FolderUtils.ChildPath | src/components/DocumentManager/folderUtils.ts:47 | definition of `${parent}/${child}`; `HandleCreateChildFolder` keys the new list with it |
| FolderUtils.HandleCreateChildFolder | src/components/DocumentManager/folderUtils.ts:28-84 | a blank child, a falsy parent or a listed `parent/child` changes nothing; otherwise the parent node gains an empty child, the path an empty list, and both inputs reset |
| FolderUtils.ChildOverwriteExample | src/components/DocumentManager/folderUtils.ts:50-68 | with only `"a/b/c"` listed, creating `b` under `a` loses the chain `a/b/c` |
| FileUtils.Existing | src/components/DocumentManager/fileUtils.ts:19 | definition of `prev[folderPath] \|\| []`, also at `:74`; `HandleFileSelection` and `SettleUpload` append to it |
| FileUtils.ThreadId | src/components/DocumentManager/fileUtils.ts:50 | the text before the first `/`, or the whole path |
| FileUtils.ThreadIdIsFirstSegment | src/components/DocumentManager/fileUtils.ts:50 | the thread id equals `folderPath.split('/')[0]` |
| FileUtils.HandleFileSelection | src/components/DocumentManager/fileUtils.ts:8-22 | an empty pick changes nothing; otherwise the picked files are appended to that folder's queue and nothing else changes |
| FileUtils.Payload | src/components/DocumentManager/fileUtils.ts:40-43 | one `{fileName, fileType}` per queued file, in order |
| FileUtils.Uploaded | src/components/DocumentManager/fileUtils.ts:56-68 | one record per url, in that folder, without knowledge base, with the url's id and location and the matching file's name |
| FileUtils.UploadSucceeds | src/components/DocumentManager/fileUtils.ts:53-58 | definition of the success path: status 200, no more urls than files, and the PUT to every returned url resolved; used by `SettleUpload` |
| FileUtils.UploadWithoutUrlsSucceeds | src/components/DocumentManager/fileUtils.ts:53-75 | a 200 reply with no urls always succeeds, as `Promise.all([])` resolves: the key is created and the queue cleared |
| FileUtils.RejectedPutFails | src/components/DocumentManager/fileUtils.ts:55-60 | one rejected PUT to a returned url rejects `Promise.all`, so the upload fails |
| FileUtils.StartUpload | src/components/DocumentManager/fileUtils.ts:33-51 | nothing queued changes nothing; otherwise the folder is loading and the request lists the queue with the thread id |
| FileUtils.SettleUpload | src/components/DocumentManager/fileUtils.ts:53-94 | on success the folder's list gains the records and its queue empties; any other outcome leaves both; loading is off in every outcome |
| FileUtils.UploadExtendsFolder | src/components/DocumentManager/fileUtils.ts:72-75 | the earlier records stay in front, the list grows by the url count, and every new record is in that folder without knowledge base |
| FileUtils.MarkRag | src/components/DocumentManager/fileUtils.ts:118-120 | length and order kept; a record changes only in `rag_status`, set iff its id matches |
| FileUtils.MarkRagIdempotent | src/components/DocumentManager/fileUtils.ts:118-120 | marking twice equals marking once, and every matching record ends marked |
| FileUtils.RemoveFile | src/components/DocumentManager/fileUtils.ts:162 | every record with the id is gone, and every other record stays; order and multiplicity are stated by `RemoveFileAppend` and `RemoveFileMultiset` |
| FileUtils.RemoveFileAppend | src/components/DocumentManager/fileUtils.ts:162 | the filter distributes over concatenation, so the kept records keep their order |
| FileUtils.RemoveFileMultiset | src/components/DocumentManager/fileUtils.ts:162 | every record with another id is kept as many times as it occurs, and none with the id is kept |
| FileUtils.RemoveFileUnchangedIff | src/components/DocumentManager/fileUtils.ts:162 | the list is unchanged iff it held no record with the id |
| FileUtils.StartRAG | src/components/DocumentManager/fileUtils.ts:105-114 | the file is loading and the request names that file, the thread and `"file"` |
| FileUtils.SettleRAG | src/components/DocumentManager/fileUtils.ts:116-140 | on `'success'` for a listed folder its records are marked; otherwise the lists are unchanged; loading off |
| FileUtils.StartDelete | src/components/DocumentManager/fileUtils.ts:151-158 | the file is deleting and the request names the file and the thread |
| FileUtils.SettleDelete | src/components/DocumentManager/fileUtils.ts:160-181 | on status 200 or `'success'` for a listed folder the file leaves that list; otherwise the lists are unchanged; loading off |
| FileUtils.DeleteSucceeds | src/components/DocumentManager/fileUtils.ts:160 | definition: status 200 or `'success'`; used by `SettleDelete` |

## Left out

- HTTP, `fetch`, `axios` and the presigned PUTs are not modelled. Neither are `Promise.all` scheduling or `TextDecoder`'s UTF-8 decoding. The model takes the replies and the decoded fragments as inputs.
- A failed upload does not model PUTs that already went out to the store before the failure.
- Toasts, `console.error` and the DOM are not modelled. This covers `e.target.value = ''`, `scrollTo`, the scroll container's existence check and event listener registration.
- React scheduling is not modelled:
  - when effects and updater functions run, and render batching;
  - the `setTimeout(..., 0)` yield between pieces;
  - the 500 ms delay. A timer's expiry is an event (`OnScrollTimerFired`).
- Updaters run in order, against the state of the moment. Stale closures and interleavings of two handlers in flight are not modelled. Examples: two streams writing the same last message, or `handleCreateRAG` mapping over a snapshot taken at call time.
- Shallow-copy aliasing is not modelled. The nested objects shared with the previous folder structure become a functional update.
- Pointer walks are written as recursive functions: `InsertAt`, `AddChain`, `AddChildAt`. These are the `current`, `currentLevel` and `parentFolder` walks.
- The non-streaming JSON branch of the chat reply is not modelled. It is unreachable, because `isStream` is the constant `true`.
- Opaque identifiers are not modelled: `Date.now()` message ids, the fixed `user_id` and `query_id`.
- Display-only state is not modelled: `collapsedFolders`, `selectedFolder`, `isModalOpen` and their modal.
- Object keys that JavaScript resolves through the prototype are not modelled; child names such as `constructor` are treated as plain keys.
- Strings are sequences of characters, not UTF-16 code units. Lengths and the 10-character pieces therefore count characters; surrogate pairs differ.
- JSON values are modelled only by the `===` tests applied to them (`JsonStatus`, and an integer for the selection hook's `status_code`).
- Scroll metrics are integers, not floating-point pixels.
- FolderUtils.HandleCreateChildFolder: the source's walk throws when a segment of the parent is missing from the structure. The model requires that the segments exist whenever the guards pass.
- UseChatMessages.ErrorMessage: its contract states only that the message comes from the system and is closed. The content `"An error occurred: " + message` is its definition.
