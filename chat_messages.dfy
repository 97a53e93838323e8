/**
 * The chat hook: the transcript, the submit handler, the streamed reply that
 * is re-chunked into ten-character pieces, and the auto-scroll flags.
 */
module UseChatMessages {
  import opened Wrappers
  import opened JsString

  datatype Sender = User | System

  /** One transcript entry; an absent `streaming` field is `false`. */
  datatype Message = Message(content: string, sender: Sender, streaming: bool)

  /** The size of the pieces a fragment is cut into before each transcript update. */
  const ChunkSize: nat := 10

  /** The largest distance from the bottom, in pixels, at which auto-scroll stays on. */
  const ScrollThreshold: int := 100

  const WelcomeText: string :=
    "Welcome to the AI-powered document evaluation system. You can ask questions about the documents you've uploaded. Let's get started!"

  /** The message of the error thrown when the response is not ok. */
  const NotOkReason: string := "Network response was not ok"

  const ErrorPrefix: string := "An error occurred: "

  /** The body of the chat request (its fixed user and query ids are left out). */
  datatype ChatRequest = ChatRequest(query: string, file_id_list: seq<string>, stream: bool)

  /**
   * How the request settles: `fetch` rejects, the response is not ok, or the
   * body delivers its decoded fragments and then ends or fails to read.
   */
  datatype ChatReply =
    | FetchRejected(reason: string)
    | NotOk
    | Streamed(fragments: seq<string>, readError: Option<string>)

  function Placeholder(): Message
  {
    Message("", System, true)
  }

  /** The message appended by the `catch` block. */
  function ErrorMessage(reason: string): (m: Message)
    ensures m.sender == System && !m.streaming
  {
    Message(ErrorPrefix + reason, System, false)
  }

  // ---------------------------------------------------------------------
  // Re-chunking

  function Min(a: int, b: int): int
  {
    if a < b then a else b
  }

  /** How many times the loop `for (i = 0; i < text.length; i += 10)` runs. */
  function PieceCount(text: string): nat
  {
    (|text| + ChunkSize - 1) / ChunkSize
  }

  /** `text.substring(k * 10, k * 10 + 10)`, the end clamped to the length. */
  function Piece(text: string, k: nat): (r: string)
    requires k < PieceCount(text)
    ensures 1 <= |r| <= ChunkSize
  {
    text[k * ChunkSize..Min(k * ChunkSize + ChunkSize, |text|)]
  }

  /** The pieces in the order the loop takes them. */
  function Pieces(text: string): (r: seq<string>)
    ensures |r| == PieceCount(text)
  {
    seq(PieceCount(text), k requires 0 <= k < PieceCount(text) => Piece(text, k))
  }

  /** The concatenation of the strings, left to right. */
  function Concat(parts: seq<string>): string
  {
    if parts == [] then "" else Concat(parts[..|parts| - 1]) + parts[|parts| - 1]
  }

  /** The first `k` pieces make up the first `10 * k` characters. */
  lemma {:induction false} PiecesPrefix(text: string, k: nat)
    requires k <= PieceCount(text)
    ensures Concat(Pieces(text)[..k]) == text[..Min(k * ChunkSize, |text|)]
    decreases k
  {
    if k > 0 {
      var ps := Pieces(text);
      assert ps[..k][..k - 1] == ps[..k - 1];
      PiecesPrefix(text, k - 1);
      assert (k - 1) * ChunkSize < |text|;
      assert Min((k - 1) * ChunkSize, |text|) == (k - 1) * ChunkSize;
      assert text[..(k - 1) * ChunkSize] + ps[k - 1] == text[..Min(k * ChunkSize, |text|)];
    }
  }

  /** Re-chunking reproduces the fragment exactly. */
  lemma PiecesConcat(text: string)
    ensures Concat(Pieces(text)) == text
  {
    assert Pieces(text)[..PieceCount(text)] == Pieces(text);
    PiecesPrefix(text, PieceCount(text));
    assert PieceCount(text) * ChunkSize >= |text|;
  }

  /** The accumulator after each piece: what the loop writes into a streaming message. */
  function Snapshots(acc0: string, text: string): (r: seq<string>)
    ensures |r| == PieceCount(text)
  {
    seq(PieceCount(text), k requires 0 <= k < PieceCount(text) => acc0 + Concat(Pieces(text)[..k + 1]))
  }

  /**
   * The `k`-th write holds the first `10 * (k + 1)` characters of the fragment,
   * so each write extends the one before by one piece and the last write holds
   * the whole fragment.
   */
  lemma SnapshotsAre(acc0: string, text: string)
    ensures forall k :: 0 <= k < PieceCount(text) ==>
              Snapshots(acc0, text)[k] == acc0 + text[..Min((k + 1) * ChunkSize, |text|)]
    ensures forall k :: 0 <= k < PieceCount(text) - 1 ==> Snapshots(acc0, text)[k] < Snapshots(acc0, text)[k + 1]
    ensures text != "" ==> Snapshots(acc0, text)[PieceCount(text) - 1] == acc0 + text
  {
    forall k | 0 <= k < PieceCount(text)
      ensures Snapshots(acc0, text)[k] == acc0 + text[..Min((k + 1) * ChunkSize, |text|)]
    {
      SnapshotAt(acc0, text, k);
    }
  }

  lemma SnapshotAt(acc0: string, text: string, k: nat)
    requires k < PieceCount(text)
    ensures Snapshots(acc0, text)[k] == acc0 + text[..Min((k + 1) * ChunkSize, |text|)]
  {
    PiecesPrefix(text, k + 1);
  }

  lemma SnapshotStep(acc0: string, text: string, k: nat, end: nat)
    requires k * ChunkSize < |text| && end == Min(k * ChunkSize + ChunkSize, |text|)
    ensures k < PieceCount(text)
    ensures Snapshots(acc0, text)[..k + 1] == Snapshots(acc0, text)[..k] + [acc0 + text[..end]]
  {
    SnapshotAt(acc0, text, k);
  }

  /** Concatenation distributes over `+`, so the accumulator grows fragment by fragment. */
  lemma {:induction false} ConcatSnoc(parts: seq<string>, x: string)
    ensures Concat(parts + [x]) == Concat(parts) + x
  {
    assert (parts + [x])[..|parts|] == parts;
  }

  // ---------------------------------------------------------------------
  // The transcript updates

  /** The per-piece update: only the last message's content, and only while it is streaming. */
  function OverwriteLast(prev: seq<Message>, content: string): (r: seq<Message>)
    ensures |r| == |prev|
    ensures forall i :: 0 <= i < |prev| - 1 ==> r[i] == prev[i]
    ensures prev != [] && prev[|prev| - 1].streaming ==> r[|r| - 1] == prev[|prev| - 1].(content := content)
    ensures !(prev != [] && prev[|prev| - 1].streaming) ==> r == prev
  {
    if prev != [] && prev[|prev| - 1].streaming then
      prev[|prev| - 1 := prev[|prev| - 1].(content := content)]
    else prev
  }

  /** The final update: a still-streaming last message is closed with the accumulated content. */
  function FinalizeLast(prev: seq<Message>, content: string): (r: seq<Message>)
    ensures |r| == |prev|
    ensures forall i :: 0 <= i < |prev| - 1 ==> r[i] == prev[i]
    ensures prev != [] && prev[|prev| - 1].streaming ==>
            r[|r| - 1] == prev[|prev| - 1].(content := content, streaming := false)
    ensures !(prev != [] && prev[|prev| - 1].streaming) ==> r == prev
  {
    if prev != [] && prev[|prev| - 1].streaming then
      prev[|prev| - 1 := prev[|prev| - 1].(content := content, streaming := false)]
    else prev
  }

  /** Only the latest per-piece update is visible, and finalising overrides it. */
  lemma OverwriteThenFinalize(prev: seq<Message>, a: string, b: string)
    ensures OverwriteLast(OverwriteLast(prev, a), b) == OverwriteLast(prev, b)
    ensures FinalizeLast(OverwriteLast(prev, a), b) == FinalizeLast(prev, b)
  {
  }

  /**
   * The contents the streaming message took from index `from` of the trace
   * on: each lies between `lo` and `hi` in the prefix order, and each is a
   * prefix of the next.
   */
  ghost predicate Grows(t: seq<string>, from: nat, lo: string, hi: string)
  {
    && from <= |t|
    && (forall j :: from <= j < |t| ==> lo <= t[j] && t[j] <= hi)
    && (forall j :: from <= j < |t| - 1 ==> t[j] <= t[j + 1])
  }

  lemma GrowsJoin(t: seq<string>, from: nat, mid: nat, lo: string, m: string, hi: string)
    requires from <= mid <= |t|
    requires Grows(t[..mid], from, lo, m) && Grows(t, mid, m, hi) && lo <= m && m <= hi
    ensures Grows(t, from, lo, hi)
  {
    forall j | from <= j < |t|
      ensures lo <= t[j] && t[j] <= hi
    {
      if j < mid {
        assert t[..mid][j] == t[j];
      }
    }
    forall j | from <= j < |t| - 1
      ensures t[j] <= t[j + 1]
    {
      if j < mid - 1 {
        assert t[..mid][j] == t[j] && t[..mid][j + 1] == t[j + 1];
      } else if j == mid - 1 {
        assert t[..mid][j] == t[j];
      }
    }
  }

  /** Appending the writes of one fragment keeps the trace growing from `acc0` to `acc0 + text`. */
  lemma SnapshotsGrow(r0: seq<string>, acc0: string, text: string)
    ensures Grows(r0 + Snapshots(acc0, text), |r0|, acc0, acc0 + text)
  {
    var t := r0 + Snapshots(acc0, text);
    SnapshotsAre(acc0, text);
    forall j | |r0| <= j < |t|
      ensures acc0 <= t[j] && t[j] <= acc0 + text
    {
      var m := Min((j - |r0| + 1) * ChunkSize, |text|);
      assert t[j] == acc0 + text[..m];
    }
    forall j | |r0| <= j < |t| - 1
      ensures t[j] <= t[j + 1]
    {
      assert t[j] == Snapshots(acc0, text)[j - |r0|] && t[j + 1] == Snapshots(acc0, text)[j - |r0| + 1];
    }
  }

  /** The transcript after one more fragment, in terms of the whole accumulator. */
  lemma OverwriteStep(m0: seq<Message>, before: string, chunk: string)
    ensures var m1 := if before == "" then m0 else OverwriteLast(m0, before);
            (if chunk == "" then m1 else OverwriteLast(m1, before + chunk))
            == (if before + chunk == "" then m0 else OverwriteLast(m0, before + chunk))
  {
    if chunk == "" {
      assert before + chunk == before;
    } else {
      OverwriteThenFinalize(m0, before, before + chunk);
    }
  }

  /** Whether the transcript ends with a message that is still streaming. */
  predicate LastStreaming(ms: seq<Message>)
  {
    ms != [] && ms[|ms| - 1].streaming
  }

  /** Whether distance from the bottom is within the threshold. */
  function IsNearBottom(scrollHeight: int, scrollTop: int, clientHeight: int): bool
  {
    scrollHeight - scrollTop - clientHeight <= ScrollThreshold
  }

  // ---------------------------------------------------------------------
  // The hook's state

  class ChatController {
    var messages: seq<Message>
    var inputMessage: string
    var isLoading: bool
    var selectedFileIds: seq<string>
    var shouldAutoScroll: bool
    var isUserScrolling: bool
    /** The pending reset timer, if any, by the id it was started with. */
    var scrollTimer: Option<nat>
    var nextTimerId: nat
    /** Every content the streaming message has been given, in order. */
    ghost var rendered: seq<string>

    ghost predicate Valid()
      reads this
    {
      scrollTimer.Some? ==> scrollTimer.value < nextTimerId
    }

    /** The state after mounting: the welcome message, auto-scroll on. */
    constructor ()
      ensures Valid()
      ensures messages == [Message(WelcomeText, System, false)]
      ensures inputMessage == "" && !isLoading && selectedFileIds == []
      ensures shouldAutoScroll && !isUserScrolling && scrollTimer == None
      ensures rendered == []
    {
      messages := [Message(WelcomeText, System, false)];
      inputMessage := "";
      isLoading := false;
      selectedFileIds := [];
      shouldAutoScroll := true;
      isUserScrolling := false;
      scrollTimer := None;
      nextTimerId := 0;
      rendered := [];
    }

    /** The auto-scroll effect fires on new content exactly when this holds. */
    predicate ScrollsToBottom()
      reads this
    {
      shouldAutoScroll && !isUserScrolling
    }

    method SetInputMessage(text: string)
      modifies this`inputMessage
      ensures inputMessage == text
    {
      inputMessage := text;
    }

    /** The selection forwarded by the chat page. */
    method SetSelectedFileIds(ids: seq<string>)
      modifies this`selectedFileIds
      ensures selectedFileIds == ids
    {
      selectedFileIds := ids;
    }

    /**
     * `handleSubmit` up to the request: a blank input changes nothing;
     * otherwise the untrimmed input is appended as a user message, the input
     * is cleared, auto-scroll is resumed and the request is sent.
     */
    method HandleSubmit() returns (request: Option<ChatRequest>)
      modifies this`messages, this`inputMessage, this`isLoading, this`shouldAutoScroll, this`isUserScrolling
      ensures IsBlank(old(inputMessage)) ==>
        && request == None && messages == old(messages) && inputMessage == old(inputMessage)
        && isLoading == old(isLoading)
        && shouldAutoScroll == old(shouldAutoScroll) && isUserScrolling == old(isUserScrolling)
      ensures !IsBlank(old(inputMessage)) ==>
        && messages == old(messages) + [Message(old(inputMessage), User, false), Placeholder()]
        && inputMessage == ""
        && shouldAutoScroll && !isUserScrolling && ScrollsToBottom()
        && isLoading
        && request == Some(ChatRequest(old(inputMessage), selectedFileIds, true))
    {
      if IsBlank(inputMessage) {
        return None;
      }
      messages := messages + [Message(inputMessage, User, false)];
      var messageToProcess := inputMessage;
      inputMessage := "";
      shouldAutoScroll := true;
      isUserScrolling := false;
      var sent := SendChatMessage(messageToProcess);
      request := Some(sent);
    }

    /** `sendChatMessage` up to its `await fetch`: loading on, the streaming placeholder appended. */
    method SendChatMessage(query: string) returns (request: ChatRequest)
      modifies this`messages, this`isLoading
      ensures isLoading
      ensures messages == old(messages) + [Placeholder()]
      ensures request == ChatRequest(query, selectedFileIds, true)
    {
      isLoading := true;
      messages := messages + [Placeholder()];
      request := ChatRequest(query, selectedFileIds, true);
    }

    /**
     * `updateMessage`: the fragment is cut into pieces and, after each piece,
     * the accumulator is written into the last message if it is streaming.
     */
    method UpdateMessage(text: string, acc0: string) returns (acc: string)
      modifies this`messages, this`rendered
      ensures acc == acc0 + text
      ensures messages == if text == "" then old(messages) else OverwriteLast(old(messages), acc)
      ensures old(rendered) <= rendered
      ensures Grows(rendered, |old(rendered)|, acc0, acc)
      ensures rendered == old(rendered) + if LastStreaming(old(messages)) then Snapshots(acc0, text) else []
    {
      acc := acc0;
      var i := 0;
      ghost var k := 0;
      while i < |text|
        invariant i == k * ChunkSize && k <= PieceCount(text)
        invariant acc == acc0 + text[..Min(i, |text|)]
        invariant messages == if k == 0 then old(messages) else OverwriteLast(old(messages), acc)
        invariant LastStreaming(messages) == LastStreaming(old(messages))
        invariant rendered == old(rendered) + if LastStreaming(old(messages)) then Snapshots(acc0, text)[..k] else []
      {
        var end := if i + ChunkSize < |text| then i + ChunkSize else |text|;
        var chunk := text[i..end];
        ghost var accBefore := acc;
        assert text[..i] + chunk == text[..end];
        acc := acc + chunk;
        assert acc == acc0 + text[..end];
        SnapshotStep(acc0, text, k, end);
        if messages != [] && messages[|messages| - 1].streaming {
          rendered := rendered + [acc];
        }
        OverwriteThenFinalize(old(messages), accBefore, acc);
        messages := OverwriteLast(messages, acc);
        i := i + ChunkSize;
        k := k + 1;
      }
      assert Snapshots(acc0, text)[..k] == Snapshots(acc0, text);
      SnapshotsGrow(old(rendered), acc0, text);
    }

    /** The `while (true)` read loop: each fragment, in arrival order, goes through `UpdateMessage`. */
    method ReadStream(fragments: seq<string>) returns (acc: string)
      modifies this`messages, this`rendered
      ensures acc == Concat(fragments)
      ensures messages == if acc == "" then old(messages) else OverwriteLast(old(messages), acc)
      ensures old(rendered) <= rendered
      ensures Grows(rendered, |old(rendered)|, "", acc)
    {
      acc := "";
      var n := 0;
      while n < |fragments|
        invariant n <= |fragments|
        invariant acc == Concat(fragments[..n])
        invariant messages == if acc == "" then old(messages) else OverwriteLast(old(messages), acc)
        invariant old(rendered) <= rendered
        invariant Grows(rendered, |old(rendered)|, "", acc)
      {
        var chunk := fragments[n];
        ghost var before := rendered;
        ghost var accBefore := acc;
        acc := UpdateMessage(chunk, acc);
        assert fragments[..n + 1] == fragments[..n] + [chunk];
        ConcatSnoc(fragments[..n], chunk);
        OverwriteStep(old(messages), accBefore, chunk);
        assert accBefore <= acc;
        assert rendered[..|before|] == before;
        GrowsJoin(rendered, |old(rendered)|, |before|, "", accBefore, acc);
        n := n + 1;
      }
      assert fragments[..n] == fragments;
    }

    /**
     * `sendChatMessage` from the settlement of `fetch` to its `finally`: a
     * failure appends one error message and leaves the placeholder as it is;
     * a stream that ends closes the last message with the whole reply. Loading
     * is off in every outcome.
     */
    method SettleChatMessage(reply: ChatReply)
      modifies this`messages, this`isLoading, this`rendered
      ensures !isLoading
      ensures reply.FetchRejected? ==> messages == old(messages) + [ErrorMessage(reply.reason)]
      ensures reply.NotOk? ==> messages == old(messages) + [ErrorMessage(NotOkReason)]
      ensures reply.Streamed? && reply.readError.None? ==>
        messages == FinalizeLast(old(messages), Concat(reply.fragments))
      ensures reply.Streamed? && reply.readError.Some? ==>
        var text := Concat(reply.fragments);
        messages == (if text == "" then old(messages) else OverwriteLast(old(messages), text))
                    + [ErrorMessage(reply.readError.value)]
      ensures !reply.Streamed? ==> rendered == old(rendered)
      ensures reply.Streamed? ==> old(rendered) <= rendered && Grows(rendered, |old(rendered)|, "", Concat(reply.fragments))
    {
      match reply {
        case FetchRejected(reason) =>
          messages := messages + [ErrorMessage(reason)];
        case NotOk =>
          messages := messages + [ErrorMessage(NotOkReason)];
        case Streamed(fragments, readError) =>
          var currentContent := ReadStream(fragments);
          if readError.Some? {
            messages := messages + [ErrorMessage(readError.value)];
          } else {
            OverwriteThenFinalize(old(messages), currentContent, currentContent);
            messages := FinalizeLast(messages, currentContent);
          }
      }
      isLoading := false;
    }

    /**
     * The scroll handler: user scrolling on, auto-scroll recomputed from the
     * distance to the bottom, and a new reset timer replacing any pending one.
     */
    method OnScroll(scrollHeight: int, scrollTop: int, clientHeight: int)
      requires Valid()
      modifies this`isUserScrolling, this`shouldAutoScroll, this`scrollTimer, this`nextTimerId
      ensures Valid()
      ensures isUserScrolling && !ScrollsToBottom()
      ensures shouldAutoScroll == IsNearBottom(scrollHeight, scrollTop, clientHeight)
      ensures scrollTimer == Some(old(nextTimerId)) && nextTimerId == old(nextTimerId) + 1
    {
      scrollTimer := None;
      isUserScrolling := true;
      var distanceFromBottom := scrollHeight - scrollTop - clientHeight;
      shouldAutoScroll := distanceFromBottom <= ScrollThreshold;
      scrollTimer := Some(nextTimerId);
      nextTimerId := nextTimerId + 1;
    }

    /**
     * The expiry of timer `id`: only the pending one (the one of the most
     * recent scroll) clears user scrolling; a cleared timer never fires.
     */
    method OnScrollTimerFired(id: nat)
      requires Valid()
      modifies this`isUserScrolling, this`scrollTimer
      ensures Valid()
      ensures old(scrollTimer) == Some(id) ==> !isUserScrolling && scrollTimer == None
      ensures old(scrollTimer) == Some(id) ==> ScrollsToBottom() == shouldAutoScroll
      ensures old(scrollTimer) != Some(id) ==> isUserScrolling == old(isUserScrolling) && scrollTimer == old(scrollTimer)
    {
      if scrollTimer == Some(id) {
        isUserScrolling := false;
        scrollTimer := None;
      }
    }
  }

  /** A question, a two-fragment streamed answer, and the resulting transcript. */
  method StreamedAnswerScenario()
  {
    var chat := new ChatController();
    chat.SetInputMessage("What is in folder X?");
    chat.SetSelectedFileIds(["f1", "f2"]);
    VisibleNotBlank("What is in folder X?", 0);
    var request := chat.HandleSubmit();
    assert request == Some(ChatRequest("What is in folder X?", ["f1", "f2"], true));
    assert chat.isLoading && chat.inputMessage == "";
    var fragments := ["The ", "answer."];
    assert Concat(fragments) == "The answer.";
    chat.SettleChatMessage(Streamed(fragments, None));
    assert chat.messages == [
      Message(WelcomeText, System, false),
      Message("What is in folder X?", User, false),
      Message("The answer.", System, false)];
    assert !chat.isLoading;
  }

  /** The fragments `"Hello, "` and `"world!"` finalise as `"Hello, world!"`. */
  method HelloWorldScenario()
  {
    var chat := new ChatController();
    chat.SetInputMessage("Hi");
    VisibleNotBlank("Hi", 0);
    var request := chat.HandleSubmit();
    var fragments := ["Hello, ", "world!"];
    assert Concat(fragments) == "Hello, world!";
    chat.SettleChatMessage(Streamed(fragments, None));
    assert chat.messages[2] == Message("Hello, world!", System, false);
  }

  /** A whitespace-only input neither appends a message nor sends a request. */
  method BlankInputScenario()
  {
    var chat := new ChatController();
    chat.SetInputMessage(" \t\n");
    var request := chat.HandleSubmit();
    assert request == None && chat.messages == [Message(WelcomeText, System, false)];
  }

  /**
   * Nothing in the hook refuses a second submit while a reply is in flight:
   * two placeholders end up in the transcript.
   */
  method SecondSubmitWhileLoadingScenario()
  {
    var chat := new ChatController();
    chat.SetInputMessage("first");
    VisibleNotBlank("first", 0);
    var r1 := chat.HandleSubmit();
    chat.SetInputMessage("second");
    VisibleNotBlank("second", 0);
    var r2 := chat.HandleSubmit();
    assert r1.Some? && r2.Some? && chat.isLoading;
    assert |chat.messages| == 5 && chat.messages[2] == Placeholder() && chat.messages[4] == Placeholder();
  }

  /** A failed read leaves the placeholder streaming with the text so far and appends the error. */
  method ReadErrorScenario()
  {
    var chat := new ChatController();
    chat.SetInputMessage("Summarise");
    VisibleNotBlank("Summarise", 0);
    var request := chat.HandleSubmit();
    var before := chat.messages;
    assert |before| == 3 && before[2] == Placeholder();
    var fragments := ["partial"];
    assert Concat(fragments) == "partial";
    chat.SettleChatMessage(Streamed(fragments, Some("reset")));
    assert chat.messages == OverwriteLast(before, "partial") + [ErrorMessage("reset")];
    assert chat.messages[2] == Message("partial", System, true);
    assert chat.messages[3] == ErrorMessage("reset");
  }
}
