/** The shared view model: a session's messages by session id, the session
    list, the observers of each session's stored messages and the manager
    of in-flight replies. Sending a message adds the user's message and an
    empty assistant message, registers a job for the session, streams the
    reply into the assistant message and, however the stream ends, drops
    the job again. */
module CommonViewModel {
  import opened Wrappers
  import opened Ids
  import opened Text
  import opened Storage
  import opened Segmentation
  import opened StreamDecoder
  import opened Conversation
  import opened JobManager

  /** `processMessageChunk`: the segmenter's step applied to a job's
      `responseBuilder`, `thinkingStack` and `isInThinkingBlock`, with the
      updates it shows in the order it shows them. */
  method ProcessMessageChunk(chunk: string, st: JobState) returns (updates: seq<Update>)
    modifies st`responseBuilder, st`thinkingStack, st`isInThinkingBlock
    ensures Step(Segmenter(old(st.responseBuilder), old(st.thinkingStack), old(st.isInThinkingBlock)), chunk)
      == Outcome(Segmenter(st.responseBuilder, st.thinkingStack, st.isInThinkingBlock), updates)
  {
    if Contains(chunk, OpenMarker) {
      updates := ProcessOpen(chunk, st);
    } else if Contains(chunk, CloseMarker) {
      updates := ProcessClose(chunk, st);
    } else if st.isInThinkingBlock {
      st.thinkingStack := st.thinkingStack + [chunk];
      updates := [ThinkingShown(Concat(st.thinkingStack))];
    } else {
      st.responseBuilder := st.responseBuilder + chunk;
      updates := [AnswerShown(st.responseBuilder)];
    }
  }

  /** The branch of `processMessageChunk` for a chunk with `<think>`. */
  method ProcessOpen(chunk: string, st: JobState) returns (updates: seq<Update>)
    requires Contains(chunk, OpenMarker)
    modifies st`responseBuilder, st`thinkingStack, st`isInThinkingBlock
    ensures OnOpen(Segmenter(old(st.responseBuilder), old(st.thinkingStack), old(st.isInThinkingBlock)), chunk)
      == Outcome(Segmenter(st.responseBuilder, st.thinkingStack, st.isInThinkingBlock), updates)
  {
    updates := [];
    st.isInThinkingBlock := true;
    var before := SubstringBefore(chunk, OpenMarker);
    if !IsBlank(before) {
      st.responseBuilder := st.responseBuilder + before;
      updates := updates + [AnswerShown(st.responseBuilder)];
    }
    var thinking := SubstringAfter(chunk, OpenMarker);
    if !Contains(chunk, CloseMarker) {
      st.thinkingStack := st.thinkingStack + [thinking];
      updates := updates + [ThinkingShown(Concat(st.thinkingStack))];
    }
  }

  /** The branch of `processMessageChunk` for a chunk with `</think>` and
      no `<think>`. */
  method ProcessClose(chunk: string, st: JobState) returns (updates: seq<Update>)
    requires !Contains(chunk, OpenMarker) && Contains(chunk, CloseMarker)
    modifies st`responseBuilder, st`thinkingStack, st`isInThinkingBlock
    ensures OnClose(Segmenter(old(st.responseBuilder), old(st.thinkingStack), old(st.isInThinkingBlock)), chunk)
      == Outcome(Segmenter(st.responseBuilder, st.thinkingStack, st.isInThinkingBlock), updates)
  {
    var thinking := SubstringBefore(chunk, CloseMarker);
    var thoughtShown: seq<Update> := [];
    if !IsBlank(thinking) {
      st.thinkingStack := st.thinkingStack + [thinking];
      thoughtShown := [ThinkingShown(Concat(st.thinkingStack))];
    }
    st.isInThinkingBlock := false;
    st.thinkingStack := [];
    var after := SubstringAfter(chunk, CloseMarker);
    var answerShown: seq<Update> := [];
    if !IsBlank(after) {
      st.responseBuilder := st.responseBuilder + after;
      answerShown := [AnswerShown(st.responseBuilder)];
    }
    updates := thoughtShown + [ThinkingHidden] + answerShown;
  }

  /** The title `createSession` gives a new session. */
  function NewSessionTitle(content: string): (t: string)
    ensures !IsBlank(t) && |t| <= 50
    ensures !IsBlank(Take(content, 50)) ==> t == Take(content, 50)
    ensures IsBlank(Take(content, 50)) ==> t == "New Chat"
  {
    var head := Take(content, 50);
    if IsBlank(head) then
      assert !IsWhitespace("New Chat"[0]);
      "New Chat"
    else head
  }

  /** The row `updateMessage` is given: the assistant message with new
      content and status. */
  function AssistantRow(assistant: ChatMessage, content: string, status: MessageStatus): (r: MessageRow)
    ensures r.content == content && r.id == assistant.id && r.sessionId == assistant.sessionId
    ensures MessageOfRow(r) == assistant.(content := content, status := status)
  {
    MessageRoundTrip(assistant.(content := content, status := status));
    MessageToRow(assistant.(content := content, status := status))
  }

  /** What a response adds to the gathered content: its content unless
      that is blank. */
  function Piece(r: ChatResponse): string
  {
    if IsBlank(r.message.content) then "" else r.message.content
  }

  /** The non-blank contents of the responses, joined. */
  function Joined(responses: seq<ChatResponse>): string
  {
    if responses == [] then "" else Piece(responses[0]) + Joined(responses[1..])
  }

  /** Gathering a response's content is appending its piece. */
  lemma GatherPiece(current: string, r: ChatResponse)
    ensures (if IsBlank(r.message.content) then current else current + r.message.content) == current + Piece(r)
  {
    if IsBlank(r.message.content) {
      assert current + "" == current;
    }
  }

  lemma AppendAssociative(a: string, b: string, c: string)
    ensures (a + b) + c == a + (b + c)
  {
  }

  /** The rows the collector of `sendMessage` passes to `updateMessage`
      for one response, with `content` the text gathered up to and
      including it: the text as SENDING when the response has non-blank
      content and is not `done`, the text as SENT when it is `done`. */
  function RowsFor(r: ChatResponse, assistant: ChatMessage, content: string): seq<MessageRow>
  {
    (if !IsBlank(r.message.content) && !r.done then [AssistantRow(assistant, content, Sending)] else [])
      + (if r.done then [AssistantRow(assistant, content, Sent)] else [])
  }

  /** The rows of the whole collector, with `current` the content gathered
      before the first response. */
  function CollectRows(responses: seq<ChatResponse>, assistant: ChatMessage, current: string): seq<MessageRow>
  {
    if responses == [] then []
    else
      var text := responses[0].message.content;
      var next := if IsBlank(text) then current else current + text;
      RowsFor(responses[0], assistant, next) + CollectRows(responses[1..], assistant, next)
  }

  /** The message an exception carries: an `OllamaError` always has one; a
      rethrown exception's may be null. */
  function RaisedMessage(e: Raised): string
  {
    match e
    case Mapped(error) => error.message
    case Rethrown(failure) => MessageText(failure.message)
  }

  /** Every row the stream produces: the collector's rows and, when the
      stream fails, the assistant message as ERROR with the exception's
      message. */
  function ChatRows(outcome: ChatOutcome, assistant: ChatMessage): seq<MessageRow>
  {
    CollectRows(outcome.responses, assistant, "")
      + if outcome.raised.None? then [] else [AssistantRow(assistant, "Error: " + RaisedMessage(outcome.raised.value), Error)]
  }

  /** Rows that are all the assistant message as SENDING or SENT, with
      contents that extend `current` and each other in order. */
  predicate Growing(rows: seq<MessageRow>, assistant: ChatMessage, current: string)
  {
    && (forall i | 0 <= i < |rows| ::
          rows[i] == AssistantRow(assistant, rows[i].content, Sending)
          || rows[i] == AssistantRow(assistant, rows[i].content, Sent))
    && (forall i | 0 <= i < |rows| :: current <= rows[i].content)
    && (forall i, j | 0 <= i < j < |rows| :: rows[i].content <= rows[j].content)
  }

  /** Rows with one content put in front of growing rows that extend it. */
  lemma GrowingCons(head: seq<MessageRow>, rest: seq<MessageRow>, assistant: ChatMessage, current: string, next: string)
    requires current <= next && Growing(rest, assistant, next)
    requires forall i | 0 <= i < |head| ::
      head[i] == AssistantRow(assistant, next, Sending) || head[i] == AssistantRow(assistant, next, Sent)
    ensures Growing(head + rest, assistant, current)
  {
    var rows := head + rest;
    forall i | 0 <= i < |rows|
      ensures current <= rows[i].content
    {
      if i >= |head| {
        PrefixTransitive(current, next, rest[i - |head|].content);
      }
    }
  }

  /** The collector only ever shows the assistant message as SENDING or
      SENT, and each row's content extends the one before. */
  lemma {:induction false} CollectRowsShape(responses: seq<ChatResponse>, assistant: ChatMessage, current: string)
    ensures Growing(CollectRows(responses, assistant, current), assistant, current)
    decreases |responses|
  {
    if responses != [] {
      var text := responses[0].message.content;
      var next := if IsBlank(text) then current else current + text;
      CollectRowsShape(responses[1..], assistant, next);
      GrowingCons(RowsFor(responses[0], assistant, next), CollectRows(responses[1..], assistant, next), assistant, current, next);
    }
  }

  /** Rows that are all the assistant message as SENDING. */
  predicate AllSending(rows: seq<MessageRow>, assistant: ChatMessage)
  {
    forall i | 0 <= i < |rows| :: rows[i] == AssistantRow(assistant, rows[i].content, Sending)
  }

  /** Without a `done` response every row is SENDING: a stream that ends
      without one leaves the assistant message SENDING. */
  lemma {:induction false} CollectRowsWithoutDone(responses: seq<ChatResponse>, assistant: ChatMessage, current: string)
    requires forall i | 0 <= i < |responses| :: !responses[i].done
    ensures AllSending(CollectRows(responses, assistant, current), assistant)
    decreases |responses|
  {
    if responses != [] {
      var text := responses[0].message.content;
      var next := if IsBlank(text) then current else current + text;
      CollectRowsWithoutDone(responses[1..], assistant, next);
      var head := RowsFor(responses[0], assistant, next);
      var rest := CollectRows(responses[1..], assistant, next);
      var rows := head + rest;
      assert !responses[0].done;
      forall i | 0 <= i < |rows|
        ensures rows[i] == AssistantRow(assistant, rows[i].content, Sending)
      {
        if i < |head| {
          assert rows[i] == AssistantRow(assistant, next, Sending);
        } else {
          assert rows[i] == rest[i - |head|];
        }
      }
    }
  }

  /** When the last response, and only the last, is `done`, the last row is
      the assistant message as SENT with every non-blank content joined. */
  lemma {:induction false} CollectRowsEndSent(responses: seq<ChatResponse>, assistant: ChatMessage, current: string)
    requires responses != [] && responses[|responses| - 1].done
    requires forall i | 0 <= i < |responses| - 1 :: !responses[i].done
    ensures var rows := CollectRows(responses, assistant, current);
      rows != [] && rows[|rows| - 1] == AssistantRow(assistant, current + Joined(responses), Sent)
    decreases |responses|
  {
    var r := responses[0];
    var next := if IsBlank(r.message.content) then current else current + r.message.content;
    GatherPiece(current, r);
    AppendAssociative(current, Piece(r), Joined(responses[1..]));
    var head := RowsFor(r, assistant, next);
    var rest := CollectRows(responses[1..], assistant, next);
    if |responses| == 1 {
      assert r.done;
      assert head == [AssistantRow(assistant, next, Sent)];
      assert Joined(responses[1..]) == "";
      assert next + "" == next;
    } else {
      assert !r.done;
      var tail := responses[1..];
      forall i | 0 <= i < |tail| - 1
        ensures !tail[i].done
      {
        assert tail[i] == responses[i + 1];
      }
      CollectRowsEndSent(tail, assistant, next);
      assert (head + rest)[|head + rest| - 1] == rest[|rest| - 1];
    }
  }

  /** `updateMessage` as a state change: the first message with the row's
      id in the row's session becomes the row read back, when the session
      has a list and the list has such a message. */
  function Updated(bySession: map<Uuid, seq<ChatMessage>>, row: MessageRow): map<Uuid, seq<ChatMessage>>
  {
    if row.sessionId in bySession
    then bySession[row.sessionId := ReplaceFirstById(bySession[row.sessionId], MessageOfRow(row))]
    else bySession
  }

  /** `updateMessage` for each row in turn. */
  function ApplyRows(bySession: map<Uuid, seq<ChatMessage>>, rows: seq<MessageRow>): map<Uuid, seq<ChatMessage>>
  {
    if rows == [] then bySession else ApplyRows(Updated(bySession, rows[0]), rows[1..])
  }

  /** Updates of one message leave only the last one's mark: the others
      are overwritten in place. */
  lemma {:induction false} ApplySameMessage(bySession: map<Uuid, seq<ChatMessage>>, rows: seq<MessageRow>)
    requires rows != []
    requires forall i | 0 <= i < |rows| :: rows[i].id == rows[0].id && rows[i].sessionId == rows[0].sessionId
    ensures ApplyRows(bySession, rows) == Updated(bySession, rows[|rows| - 1])
    decreases |rows|
  {
    if |rows| > 1 {
      var first := Updated(bySession, rows[0]);
      ApplySameMessage(first, rows[1..]);
      var last := rows[|rows| - 1];
      var sid := last.sessionId;
      if sid in bySession {
        ReplaceTwice(bySession[sid], MessageOfRow(rows[0]), MessageOfRow(last));
      }
    }
  }

  /** A stream whose reply ends with a `done` response, when the session's
      list holds the assistant message, leaves that message SENT with the
      non-blank contents joined, and changes nothing else; the row's
      round trip through storage is the identity. */
  lemma ChatEndsSent(bySession: map<Uuid, seq<ChatMessage>>, body: Body,
                     decode: string -> Option<ChatResponse>, assistant: ChatMessage)
    requires ChatStopsEarly(body.lines, decode)
    requires assistant.sessionId in bySession
    ensures var outcome := ChatFlow(body, decode);
      ApplyRows(bySession, ChatRows(outcome, assistant))
      == bySession[assistant.sessionId := ReplaceFirstById(bySession[assistant.sessionId],
           assistant.(content := Joined(outcome.responses), status := Sent))]
  {
    var outcome := ChatFlow(body, decode);
    var responses := outcome.responses;
    ChatEmitsDecoded(body.lines, decode);
    var rows := CollectRows(responses, assistant, "");
    assert ChatRows(outcome, assistant) == rows + [];
    assert rows + [] == rows;
    CollectRowsEndSent(responses, assistant, "");
    assert "" + Joined(responses) == Joined(responses);
    CollectRowsShape(responses, assistant, "");
    SameMessageOfGrowing(rows, assistant, "");
    ApplySameMessage(bySession, rows);
  }

  /** Growing rows are all about the assistant message. */
  lemma SameMessageOfGrowing(rows: seq<MessageRow>, assistant: ChatMessage, current: string)
    requires Growing(rows, assistant, current)
    ensures forall i | 0 <= i < |rows| :: rows[i].id == assistant.id && rows[i].sessionId == assistant.sessionId
  {
    forall i | 0 <= i < |rows|
      ensures rows[i].id == assistant.id && rows[i].sessionId == assistant.sessionId
    {
      assert rows[i] == AssistantRow(assistant, rows[i].content, Sending)
        || rows[i] == AssistantRow(assistant, rows[i].content, Sent);
    }
  }

  /** A failed stream leaves the assistant message ERROR with the
      exception's message, whatever was shown before. */
  lemma ChatEndsError(bySession: map<Uuid, seq<ChatMessage>>, outcome: ChatOutcome, assistant: ChatMessage)
    requires outcome.raised.Some?
    requires assistant.sessionId in bySession
    ensures ApplyRows(bySession, ChatRows(outcome, assistant))
      == bySession[assistant.sessionId := ReplaceFirstById(bySession[assistant.sessionId],
           assistant.(content := "Error: " + RaisedMessage(outcome.raised.value), status := Error))]
  {
    var rows := ChatRows(outcome, assistant);
    var collected := CollectRows(outcome.responses, assistant, "");
    var error := AssistantRow(assistant, "Error: " + RaisedMessage(outcome.raised.value), Error);
    assert rows == collected + [error];
    CollectRowsShape(outcome.responses, assistant, "");
    SameMessageOfGrowing(collected, assistant, "");
    assert rows[|rows| - 1] == error;
    forall i | 0 <= i < |rows|
      ensures rows[i].id == rows[0].id && rows[i].sessionId == rows[0].sessionId
    {
      if i < |collected| {
        assert rows[i] == collected[i];
      }
    }
    ApplySameMessage(bySession, rows);
  }

  /** A stream that ends without a `done` response and without failing
      leaves the assistant message SENDING. */
  lemma ChatEndsSending(body: Body, decode: string -> Option<ChatResponse>, assistant: ChatMessage)
    requires !ChatStopsEarly(body.lines, decode) && body.failure.None?
    ensures AllSending(ChatRows(ChatFlow(body, decode), assistant), assistant)
  {
    var outcome := ChatFlow(body, decode);
    var responses := outcome.responses;
    ChatEmitsDecoded(body.lines, decode);
    assert responses == ChatEmits(body.lines, decode);
    assert responses == [] || !responses[|responses| - 1].done;
    forall i | 0 <= i < |responses|
      ensures !responses[i].done
    {
      if i < |responses| - 1 {
        assert NoneDoneBeforeLast(responses);
      }
    }
    assert outcome.raised.None?;
    assert ChatRows(outcome, assistant) == CollectRows(responses, assistant, "") + [];
    assert CollectRows(responses, assistant, "") + [] == CollectRows(responses, assistant, "");
    CollectRowsWithoutDone(responses, assistant, "");
  }

  class ChatViewModel {
    var messagesBySession: map<Uuid, seq<ChatMessage>>
    var sessionObservers: map<Uuid, Job>
    var sessions: Sessions
    var error: Option<string>
    /** The name of the selected model, if any. */
    var selectedModel: Option<string>
    /** The job manager, as the registry it is proved to keep. */
    var jobs: Registry<Uuid>

    /** The jobs observing stored messages. */
    ghost function ObserverJobs(): set<Job>
      reads this
    {
      set k | k in sessionObservers :: sessionObservers[k]
    }

    constructor ()
      ensures messagesBySession == map[] && sessionObservers == map[]
      ensures sessions == Sessions([], None) && error == None
      ensures selectedModel == None && jobs == Registry([], {})
    {
      messagesBySession := map[];
      sessionObservers := map[];
      sessions := Sessions([], None);
      error := None;
      selectedModel := None;
      jobs := Registry([], {});
    }

    /** `updateMessage`. */
    method UpdateMessage(row: MessageRow)
      modifies this`messagesBySession
      ensures messagesBySession == Updated(old(messagesBySession), row)
    {
      if row.sessionId !in messagesBySession {
        return;
      }
      var list := messagesBySession[row.sessionId];
      var index := IndexOfFirst(list, row.id);
      if index != -1 {
        messagesBySession := messagesBySession[row.sessionId := list[index := MessageOfRow(row)]];
      }
    }

    /** The collector of `sendMessage`: gathers the non-blank contents and
        updates the assistant message after each response. */
    method Collect(responses: seq<ChatResponse>, assistant: ChatMessage)
      modifies this`messagesBySession
      ensures messagesBySession == ApplyRows(old(messagesBySession), CollectRows(responses, assistant, ""))
    {
      var currentContent := "";
      var i := 0;
      while i < |responses|
        invariant 0 <= i <= |responses|
        invariant ApplyRows(messagesBySession, CollectRows(responses[i..], assistant, currentContent))
          == ApplyRows(old(messagesBySession), CollectRows(responses, assistant, ""))
      {
        var response := responses[i];
        assert responses[i..][0] == response && responses[i..][1..] == responses[i + 1..];
        ghost var next := if IsBlank(response.message.content) then currentContent
          else currentContent + response.message.content;
        ghost var rest := CollectRows(responses[i + 1..], assistant, next);
        ghost var whole := CollectRows(responses[i..], assistant, currentContent);
        ghost var before := messagesBySession;
        assert whole == RowsFor(response, assistant, next) + rest;
        if !IsBlank(response.message.content) {
          currentContent := currentContent + response.message.content;
          if !response.done {
            var row := AssistantRow(assistant, currentContent, Sending);
            assert RowsFor(response, assistant, next) == [row];
            ApplyCons(messagesBySession, row, rest);
            UpdateMessage(row);
          }
        }
        if response.done {
          var row := AssistantRow(assistant, currentContent, Sent);
          assert RowsFor(response, assistant, next) == [row];
          ApplyCons(messagesBySession, row, rest);
          UpdateMessage(row);
        }
        assert currentContent == next;
        if IsBlank(response.message.content) && !response.done {
          assert RowsFor(response, assistant, next) == [];
          assert whole == rest;
        }
        assert ApplyRows(messagesBySession, rest) == ApplyRows(before, whole);
        i := i + 1;
      }
    }

    /** The job `sendMessage` launches: the reply is streamed into the
        assistant message and, however the stream ends, the session's job
        is removed. */
    method RunChatJob(assistant: ChatMessage, outcome: ChatOutcome)
      modifies this`messagesBySession, this`error, this`jobs
      ensures jobs == AfterRemoveJob(old(jobs), assistant.sessionId)
      ensures messagesBySession == ApplyRows(old(messagesBySession), ChatRows(outcome, assistant))
      ensures outcome.raised.None? ==> error == old(error)
      ensures outcome.raised.Some? ==> error == Some("Failed to process message: " + RaisedMessage(outcome.raised.value))
    {
      Stream(assistant, outcome);
      jobs := AfterRemoveJob(jobs, assistant.sessionId);
    }

    /** The body of the launched job between registering and dropping it:
        the collector, then the two `catch` blocks when the stream fails. */
    method Stream(assistant: ChatMessage, outcome: ChatOutcome)
      modifies this`messagesBySession, this`error
      ensures messagesBySession == ApplyRows(old(messagesBySession), ChatRows(outcome, assistant))
      ensures outcome.raised.None? ==> error == old(error)
      ensures outcome.raised.Some? ==> error == Some("Failed to process message: " + RaisedMessage(outcome.raised.value))
    {
      var collected := CollectRows(outcome.responses, assistant, "");
      Collect(outcome.responses, assistant);
      if outcome.raised.Some? {
        var e := outcome.raised.value;
        var row := AssistantRow(assistant, "Error: " + RaisedMessage(e), Error);
        UpdateMessage(row);
        ApplyAppend(old(messagesBySession), collected, row);
        error := Some("Failed to process message: " + RaisedMessage(e));
      } else {
        assert ChatRows(outcome, assistant) == collected + [];
        assert collected + [] == collected;
      }
    }

    /** `observeSessionMessages`: cancels the session's previous observer,
        gives the session an empty list if it has none, and starts a new
        observer. */
    method ObserveSessionMessages(sessionId: Uuid) returns (observer: Job)
      modifies this`messagesBySession, this`sessionObservers
      modifies if sessionId in sessionObservers then {sessionObservers[sessionId]} else {}
      ensures fresh(observer) && !observer.cancelled
      ensures sessionId in old(sessionObservers) ==> old(sessionObservers[sessionId]).cancelled
      ensures sessionObservers == old(sessionObservers)[sessionId := observer]
      ensures messagesBySession == if sessionId in old(messagesBySession) then old(messagesBySession)
        else old(messagesBySession)[sessionId := []]
    {
      if sessionId in sessionObservers {
        sessionObservers[sessionId].Cancel();
      }
      if sessionId !in messagesBySession {
        messagesBySession := messagesBySession[sessionId := []];
      }
      observer := new Job();
      sessionObservers := sessionObservers[sessionId := observer];
    }

    /** `createSession`: a session titled after the content becomes the
        current one, and its messages are observed. */
    method CreateSession(id: Uuid, content: string, now: int) returns (session: ChatSession)
      modifies this`sessions, this`messagesBySession, this`sessionObservers
      modifies if id in sessionObservers then {sessionObservers[id]} else {}
      ensures session == ChatSession(id, NewSessionTitle(content), now, now)
      ensures sessions == old(sessions).(current := Some(session))
      ensures messagesBySession == Listing(old(messagesBySession), id)
      ensures id in sessionObservers && fresh(sessionObservers[id]) && !sessionObservers[id].cancelled
      ensures sessionObservers == old(sessionObservers)[id := sessionObservers[id]]
    {
      session := ChatSession(id, NewSessionTitle(content), now, now);
      sessions := sessions.(current := Some(session));
      var _ := ObserveSessionMessages(id);
    }

    /** The part of `sendMessage` before its job is launched: the current
        session, or a new one, gets the user's message and an empty SENDING
        assistant message, and a session still titled "New Chat" is renamed
        after the content. */
    method AddExchange(content: string, newSessionId: Uuid, userId: Uuid, assistantId: Uuid, now: int)
      returns (session: ChatSession, list: seq<ChatMessage>)
      modifies this`messagesBySession, this`sessions, this`sessionObservers
      modifies if newSessionId in sessionObservers then {sessionObservers[newSessionId]} else {}
      ensures session == SessionToSend(old(sessions.current), newSessionId, content, now)
      ensures list == Exchange(old(messagesBySession), session.id, content, userId, assistantId, now)
      ensures messagesBySession == old(messagesBySession)[session.id := list]
      ensures sessions == Titled(old(sessions).(current := Some(session)), session, content)
      ensures old(sessions.current).Some? ==> sessionObservers == old(sessionObservers)
      ensures old(sessions.current).None? ==>
        && newSessionId in sessionObservers && fresh(sessionObservers[newSessionId])
        && !sessionObservers[newSessionId].cancelled
        && sessionObservers == old(sessionObservers)[newSessionId := sessionObservers[newSessionId]]
    {
      if sessions.current.Some? {
        session := sessions.current.value;
      } else {
        session := CreateSession(newSessionId, content, now);
      }
      messagesBySession := Listing(messagesBySession, session.id);
      if session.title == "New Chat" {
        RenameSession(session.id, Take(content, 50));
      }
      var user := NewMessage(userId, session.id, content, true, now);
      list := messagesBySession[session.id] + [user, Assistant(assistantId, session.id, now)];
      messagesBySession := messagesBySession[session.id := list];
    }

    /** `sendMessage`. Without a selected model nothing is sent and the
        error is shown. Otherwise the exchange is added, a job is
        registered for the session with the corrected `addJob`, which
        drops the session's previous entry first (as written, `addJob`
        lists the session a second time and leaves the earlier entry's job
        running, see `DuplicateAddExceedsCapacity`), and the job is
        launched with the request, which carries the model and the
        session's last 20 messages, and the assistant message it is to
        fill. The ids drawn at random and the clock are parameters. */
    method SendMessage(content: string, newSessionId: Uuid, userId: Uuid, assistantId: Uuid, now: int)
      returns (launched: Option<Launched>)
      modifies this`error, this`messagesBySession, this`sessions, this`sessionObservers, this`jobs
      modifies if newSessionId in sessionObservers then {sessionObservers[newSessionId]} else {}
      ensures selectedModel.None? ==>
        && launched == None && error == Some("Failed to send message: No model selected")
        && messagesBySession == old(messagesBySession) && sessions == old(sessions)
        && sessionObservers == old(sessionObservers) && jobs == old(jobs)
      ensures selectedModel.Some? ==>
        var session := SessionToSend(old(sessions.current), newSessionId, content, now);
        var list := Exchange(old(messagesBySession), session.id, content, userId, assistantId, now);
        && launched == Some(Launched(ChatRequestOf(selectedModel.value, ToChatMessages(TakeLast(list, 20))),
                                     Assistant(assistantId, session.id, now)))
        && messagesBySession == old(messagesBySession)[session.id := list]
        && sessions == Titled(old(sessions).(current := Some(session)), session, content)
        && jobs == AfterAddJobReplacing(old(jobs), session.id)
        && error == old(error)
      ensures selectedModel.Some? && old(sessions.current).Some? ==> sessionObservers == old(sessionObservers)
      ensures selectedModel.Some? && old(sessions.current).None? ==>
        && newSessionId in sessionObservers && fresh(sessionObservers[newSessionId])
        && !sessionObservers[newSessionId].cancelled
        && sessionObservers == old(sessionObservers)[newSessionId := sessionObservers[newSessionId]]
    {
      if selectedModel.None? {
        error := Some("Failed to send message: No model selected");
        return None;
      }
      var session, list := AddExchange(content, newSessionId, userId, assistantId, now);
      jobs := AfterAddJobReplacing(jobs, session.id);
      var request := ChatRequestOf(selectedModel.value, ToChatMessages(TakeLast(list, 20)));
      launched := Some(Launched(request, Assistant(assistantId, session.id, now)));
    }

    /** `retryMessage`: an assistant message that failed sends its content
        again; any other message is ignored. */
    method RetryMessage(m: ChatMessage, newSessionId: Uuid, userId: Uuid, assistantId: Uuid, now: int)
      returns (launched: Option<Launched>)
      modifies this`error, this`messagesBySession, this`sessions, this`sessionObservers, this`jobs
      modifies if newSessionId in sessionObservers then {sessionObservers[newSessionId]} else {}
      ensures (m.isUser || m.status != Error) ==>
        && launched == None && error == old(error)
        && messagesBySession == old(messagesBySession) && sessions == old(sessions)
        && sessionObservers == old(sessionObservers) && jobs == old(jobs)
      ensures !m.isUser && m.status == Error && selectedModel.None? ==>
        launched == None && error == Some("Failed to send message: No model selected")
      ensures !m.isUser && m.status == Error && selectedModel.Some? ==>
        && launched.Some?
        && var request := launched.value.request;
        && request.model == selectedModel.value && 2 <= |request.messages|
        && request.messages[|request.messages| - 2] == Message("user", m.content)
        && request.messages[|request.messages| - 1] == Message("assistant", "")
    {
      var content := Retry(m);
      if content.None? {
        return None;
      }
      launched := SendMessage(content.value, newSessionId, userId, assistantId, now);
      if launched.Some? {
        var session := SessionToSend(old(sessions.current), newSessionId, m.content, now);
        RequestEndsWithPrompt(old(messagesBySession), session.id, userId, assistantId, m.content, now);
      }
    }

    /** `renameSession`. */
    method RenameSession(id: Uuid, title: string)
      modifies this`sessions
      ensures sessions == Rename(old(sessions), id, title)
    {
      sessions := Rename(sessions, id, title);
    }

    /** The observers of sessions without a job. */
    ghost function InactiveObservers(): set<Job>
      reads this
    {
      set k | k in sessionObservers && k !in jobs.active :: sessionObservers[k]
    }

    /** `cleanupInactiveSessions`: the observer of every observed session
        without a job is cancelled and dropped, with the session's message
        list; no other job changes. */
    method CleanupInactiveSessions()
      modifies this`sessionObservers, this`messagesBySession, InactiveObservers()
      ensures forall k | k in old(sessionObservers) && k !in jobs.active :: old(sessionObservers)[k].cancelled
      ensures forall k :: k in sessionObservers <==> k in old(sessionObservers) && k in jobs.active
      ensures forall k | k in sessionObservers :: sessionObservers[k] == old(sessionObservers)[k]
      ensures forall k :: k in messagesBySession <==>
        k in old(messagesBySession) && (k !in old(sessionObservers) || k in jobs.active)
      ensures forall k | k in messagesBySession :: messagesBySession[k] == old(messagesBySession)[k]
    {
      var active := jobs.active;
      var keys := sessionObservers.Keys;
      while keys != {}
        invariant keys <= old(sessionObservers).Keys
        invariant forall k :: k in sessionObservers <==> k in old(sessionObservers) && (k in keys || k in active)
        invariant forall k | k in sessionObservers :: sessionObservers[k] == old(sessionObservers)[k]
        invariant forall k :: k in messagesBySession <==>
          k in old(messagesBySession) && (k !in old(sessionObservers) || k in keys || k in active)
        invariant forall k | k in messagesBySession :: messagesBySession[k] == old(messagesBySession)[k]
        invariant forall k | k in old(sessionObservers) && k !in active && k !in keys ::
          old(sessionObservers)[k].cancelled
        decreases |keys|
      {
        var k :| k in keys;
        if k !in active {
          sessionObservers[k].Cancel();
          messagesBySession := messagesBySession - {k};
          sessionObservers := sessionObservers - {k};
        }
        keys := keys - {k};
      }
    }

    /** `onCleared`: cancels every job and every observer and forgets every
        message list; the observers stay registered. */
    method OnCleared()
      modifies this`messagesBySession, this`jobs, ObserverJobs()
      ensures jobs == Registry([], {})
      ensures forall k | k in sessionObservers :: sessionObservers[k].cancelled
      ensures sessionObservers == old(sessionObservers) && messagesBySession == map[]
    {
      jobs := Registry([], {});
      var keys := sessionObservers.Keys;
      while keys != {}
        invariant jobs == Registry([], {})
        invariant keys <= sessionObservers.Keys
        invariant forall k | k in sessionObservers && k !in keys :: sessionObservers[k].cancelled
        decreases |keys|
      {
        var k :| k in keys;
        sessionObservers[k].Cancel();
        keys := keys - {k};
      }
      messagesBySession := map[];
    }
  }

  /** The message list `getOrPut` leaves for a session: an empty one if it
      had none. */
  function Listing(bySession: map<Uuid, seq<ChatMessage>>, id: Uuid): (r: map<Uuid, seq<ChatMessage>>)
    ensures id in r && (id in bySession ==> r == bySession)
    ensures id !in bySession ==> r[id] == [] && r.Keys == bySession.Keys + {id}
  {
    if id in bySession then bySession else bySession[id := []]
  }

  /** What `sendMessage` launches its job with: the request to post and
      the assistant message the reply fills. */
  datatype Launched = Launched(request: ChatRequest, assistant: ChatMessage)

  /** The session `sendMessage` writes to: the current one, or the one
      `createSession` makes. */
  function SessionToSend(current: Option<ChatSession>, id: Uuid, content: string, now: int): ChatSession
  {
    if current.Some? then current.value else ChatSession(id, NewSessionTitle(content), now, now)
  }

  /** The session's messages once `sendMessage` has added the user's
      message and the empty assistant message. */
  function Exchange(bySession: map<Uuid, seq<ChatMessage>>, sessionId: Uuid, content: string,
                    userId: Uuid, assistantId: Uuid, now: int): seq<ChatMessage>
  {
    Listing(bySession, sessionId)[sessionId]
      + [NewMessage(userId, sessionId, content, true, now), Assistant(assistantId, sessionId, now)]
  }

  /** The empty assistant message `sendMessage` adds before the reply. */
  function Assistant(id: Uuid, sessionId: Uuid, now: int): ChatMessage
  {
    NewMessage(id, sessionId, "", false, now).(status := Sending)
  }

  /** The sessions after `sendMessage`'s rename of a session still titled
      "New Chat". */
  function Titled(s: Sessions, session: ChatSession, content: string): Sessions
  {
    if session.title == "New Chat" then Rename(s, session.id, Take(content, 50)) else s
  }

  /** The request `sendMessage` builds ends with the user's message and then
      the empty assistant message that is to receive the reply: the model
      is always sent an empty assistant turn last. It holds the last 20
      messages of the session, or all of them when there are fewer. */
  lemma RequestEndsWithPrompt(bySession: map<Uuid, seq<ChatMessage>>, sessionId: Uuid, userId: Uuid,
                              assistantId: Uuid, content: string, now: int)
    ensures var list := Exchange(bySession, sessionId, content, userId, assistantId, now);
      var ms := ToChatMessages(TakeLast(list, 20));
      && |ms| == (if |list| < 20 then |list| else 20)
      && ms[|ms| - 2] == Message("user", content)
      && ms[|ms| - 1] == Message("assistant", "")
  {
    var before := Listing(bySession, sessionId)[sessionId];
    var user := NewMessage(userId, sessionId, content, true, now);
    var assistant := Assistant(assistantId, sessionId, now);
    WindowEndsWith(before, user, assistant, 20);
  }

  /** A window of at least two over a sequence ending with `x, y` ends with
      `x, y`. */
  lemma WindowEndsWith<T>(before: seq<T>, x: T, y: T, n: nat)
    requires 2 <= n
    ensures var w := TakeLast(before + [x, y], n);
      && |w| == (if |before| + 2 < n then |before| + 2 else n)
      && w[|w| - 2] == x && w[|w| - 1] == y
  {
    var s := before + [x, y];
    if n < |s| {
      var w := s[|s| - n..];
      assert w[n - 2] == s[|s| - 2];
      assert w[n - 1] == s[|s| - 1];
    }
  }

  /** The first row is the first `updateMessage`. */
  lemma ApplyCons(bySession: map<Uuid, seq<ChatMessage>>, row: MessageRow, rest: seq<MessageRow>)
    ensures ApplyRows(bySession, [row] + rest) == ApplyRows(Updated(bySession, row), rest)
  {
    assert ([row] + rest)[1..] == rest;
  }

  /** One more row is one more `updateMessage`. */
  lemma {:induction false} ApplyAppend(bySession: map<Uuid, seq<ChatMessage>>, rows: seq<MessageRow>, row: MessageRow)
    ensures ApplyRows(bySession, rows + [row]) == Updated(ApplyRows(bySession, rows), row)
    decreases |rows|
  {
    if rows == [] {
      assert ([] + [row])[1..] == [];
    } else {
      assert (rows + [row])[1..] == rows[1..] + [row];
      ApplyAppend(Updated(bySession, rows[0]), rows[1..], row);
    }
  }
}
