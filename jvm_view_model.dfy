/** The desktop client's view model: one list of the current session's
    messages, a thinking indicator, the session list and the last error.
    Sending a message adds the user's message and an empty SENDING
    assistant message, runs the thinking-marker segmenter over the streamed
    text chunks (shown answers go into the assistant message, thinking text
    into the indicator), and finally marks the assistant message SENT with
    the answer, or ERROR when the stream fails. */
module JvmViewModel {
  import opened Wrappers
  import opened Ids
  import opened Text
  import opened Storage
  import opened Segmentation
  import opened Conversation
  import opened JobManager
  import StreamDecoder

  /** What the thinking indicator's content starts with. */
  const ThinkingPrefix: string := "\U{1F914} Thinking..."

  /** An exception reaching the `catch` of `sendMessage`, with its (possibly
      null) message. */
  datatype Thrown = Thrown(message: Option<string>)

  /** The call `sendMessage` makes: `chat(model, content, sessionId)`. */
  datatype ChatCall = ChatCall(model: string, content: string, sessionId: Uuid)

  /** The title `createSession` gives a new session: the first 21
      characters (`substring(0..20)` includes index 20) of a content longer
      than 20, and "New Chat" otherwise. */
  function JvmTitle(content: string): (t: string)
    ensures |content| > 20 ==> |t| == 21 && StartsWith(content, t)
    ensures |content| <= 20 ==> t == "New Chat"
  {
    if |content| > 20 then content[..21] else "New Chat"
  }

  /** Unlike the shared client's title, this one can be blank: 21 spaces
      give a title of 21 spaces. */
  lemma JvmTitleMayBeBlank()
    ensures var t := JvmTitle("                     "); |t| == 21 && IsBlank(t)
  {
    var s := "                     ";
    assert |s| == 21;
    assert forall i | 0 <= i < |s| :: IsWhitespace(s[i]);
  }

  /** The indicator after a run of segmenter updates: the last thinking text
      shown, none once a block closes, unchanged when neither happens. */
  function Indicated(t: Option<string>, us: seq<Update>): Option<string>
  {
    if us == [] then t
    else
      match us[|us| - 1]
      case ThinkingShown(thinking) => Some(ThinkingPrefix + thinking)
      case ThinkingHidden => None
      case AnswerShown(_) => Indicated(t, us[..|us| - 1])
  }

  /** The message list after a run of segmenter updates: each shown answer
      becomes the assistant message's content. */
  function Answered(ms: seq<ChatMessage>, assistant: ChatMessage, us: seq<Update>): seq<ChatMessage>
  {
    if us == [] then ms
    else
      var before := Answered(ms, assistant, us[..|us| - 1]);
      match us[|us| - 1]
      case AnswerShown(answer) => ReplaceFirstById(before, assistant.(content := answer))
      case _ => before
  }

  /** Updates applied in two runs are applied in one. */
  lemma {:induction false} IndicatedAppend(t: Option<string>, us: seq<Update>, vs: seq<Update>)
    ensures Indicated(t, us + vs) == Indicated(Indicated(t, us), vs)
    decreases |vs|
  {
    if vs == [] {
      assert us + vs == us;
    } else {
      var w := vs[..|vs| - 1];
      assert (us + vs)[..|us + vs| - 1] == us + w;
      assert (us + vs)[|us + vs| - 1] == vs[|vs| - 1];
      IndicatedAppend(t, us, w);
    }
  }

  /** Updates applied in two runs are applied in one. */
  lemma {:induction false} AnsweredAppend(ms: seq<ChatMessage>, assistant: ChatMessage, us: seq<Update>, vs: seq<Update>)
    ensures Answered(ms, assistant, us + vs) == Answered(Answered(ms, assistant, us), assistant, vs)
    decreases |vs|
  {
    if vs == [] {
      assert us + vs == us;
    } else {
      var w := vs[..|vs| - 1];
      assert (us + vs)[..|us + vs| - 1] == us + w;
      assert (us + vs)[|us + vs| - 1] == vs[|vs| - 1];
      AnsweredAppend(ms, assistant, us, w);
    }
  }

  /** Whatever answers were shown along the way, a last replacement of the
      assistant message decides it: the list is the original one with only
      that replacement. */
  lemma {:induction false} AnsweredThenReplaced(ms: seq<ChatMessage>, assistant: ChatMessage, us: seq<Update>, last: ChatMessage)
    requires last.id == assistant.id
    ensures ReplaceFirstById(Answered(ms, assistant, us), last) == ReplaceFirstById(ms, last)
    decreases |us|
  {
    if us != [] {
      var before := Answered(ms, assistant, us[..|us| - 1]);
      AnsweredThenReplaced(ms, assistant, us[..|us| - 1], last);
      match us[|us| - 1]
      case AnswerShown(answer) =>
        ReplaceTwice(before, assistant.(content := answer), last);
      case _ =>
    }
  }

  /** When the assistant message's id is new to the list, replacing it in
      the list with the exchange appended is appending the replacement. */
  lemma ReplaceNewLast(ms: seq<ChatMessage>, user: ChatMessage, assistant: ChatMessage, last: ChatMessage)
    requires last.id == assistant.id && user.id != assistant.id
    requires forall j | 0 <= j < |ms| :: ms[j].id != assistant.id
    ensures ReplaceFirstById(ms + [user, assistant], last) == ms + [user, last]
  {
    var list := ms + [user, assistant];
    assert list[|ms| + 1] == assistant;
    assert forall j | 0 <= j < |ms| + 1 :: list[j].id != last.id by {
      forall j | 0 <= j < |ms| + 1
        ensures list[j].id != last.id
      {
        if j < |ms| {
          assert list[j] == ms[j];
        }
      }
    }
    FirstIndexAt(list, last.id, |ms| + 1);
  }

  /** The session `sendMessage` sends to: the current one, or a new one
      made by `createSession`. */
  function SessionToSend(current: Option<ChatSession>, id: Uuid, content: string, now: int): ChatSession
  {
    if current.Some? then current.value else ChatSession(id, JvmTitle(content), now, now)
  }

  /** The sessions after `sendMessage` picked `session`: it is current, and
      renamed to the whole content while it is titled "New Chat". */
  function Titled(s: Sessions, session: ChatSession, content: string): Sessions
  {
    var picked := s.(current := Some(session));
    if session.title == "New Chat" then Rename(picked, session.id, content) else picked
  }

  /** The empty SENDING assistant message `sendMessage` adds. */
  function Assistant(id: Uuid, sessionId: Uuid, now: int): ChatMessage
  {
    NewMessage(id, sessionId, "", false, now).(status := Sending)
  }

  /** The last update of the assistant message: SENT with the answer after
      a stream that ends, ERROR with the original empty content after one
      that fails. */
  function Final(assistant: ChatMessage, chunks: seq<string>, failure: Option<Thrown>): (m: ChatMessage)
    ensures m.id == assistant.id
    ensures failure.Some? ==> m.content == assistant.content && m.status == Error
    ensures failure.None? ==> m.content == Run(Initial, chunks).answer && m.status == Sent
  {
    if failure.Some? then assistant.(status := Error)
    else assistant.(content := Run(Initial, chunks).answer, status := Sent)
  }

  /** After the desktop service's prelude, marker-free model text leaves no
      thinking indicator, whatever was shown before. */
  lemma {:induction false} PreludeHidesIndicator(t: Option<string>, contents: seq<string>)
    requires forall i | 0 <= i < |contents| :: MarkerFree(contents[i])
    ensures Indicated(t, RunUpdates(Initial, Prelude + contents)) == None
    decreases |contents|
  {
    if contents == [] {
      assert Prelude + contents == Prelude;
      PreludeOpens();
      PreludeCloses();
      assert Prelude[..1] == [Prelude[0]] && [Prelude[0]][..0] == [];
      assert RunUpdates(Initial, Prelude) == [ThinkingHidden];
    } else {
      var init := contents[..|contents| - 1];
      var c := contents[|contents| - 1];
      var xs := Prelude + init;
      assert (Prelude + contents)[..|Prelude + contents| - 1] == xs;
      assert (Prelude + contents)[|Prelude + contents| - 1] == c;
      PreludeThenContents(init);
      var before := RunUpdates(Initial, xs);
      var us := before + [AnswerShown(Concat(init) + c)];
      assert RunUpdates(Initial, Prelude + contents) == us;
      assert us[..|us| - 1] == before;
      PreludeHidesIndicator(t, init);
    }
  }

  /** The message `sendMessage` adds for the user. */
  function UserMessage(id: Uuid, sessionId: Uuid, content: string, now: int): ChatMessage
  {
    NewMessage(id, sessionId, content, true, now)
  }

  /** The error `sendMessage` reports when the stream fails. */
  function SendError(failure: Thrown): string
  {
    "Failed to send message: " + StreamDecoder.MessageText(failure.message)
  }

  /** Fed the desktop service's output for marker-free model text, a
      successful send leaves the whole text as the SENT answer and no
      thinking indicator. */
  lemma DesktopStreamAnswer(assistant: ChatMessage, t: Option<string>, contents: seq<string>)
    requires forall i | 0 <= i < |contents| :: MarkerFree(contents[i])
    ensures Final(assistant, Prelude + contents, None) == assistant.(content := Concat(contents), status := Sent)
    ensures Indicated(t, RunUpdates(Initial, Prelude + contents)) == None
  {
    PreludeThenContents(contents);
    PreludeHidesIndicator(t, contents);
  }

  /** The view model of the desktop client. */
  class JvmChatViewModel {
    /** `_messages`: the current session's messages. */
    var messages: seq<ChatMessage>
    /** The thinking indicator's content, if one is shown. */
    var thinkingMessage: Option<string>
    var sessions: Sessions
    var error: Option<string>
    /** The name of the selected model, if any. */
    var selectedModel: Option<string>
    /** `currentSessionObservationJob` and the session it observes. */
    var observer: Job?
    var observedSession: Option<Uuid>

    constructor ()
      ensures messages == [] && thinkingMessage == None && sessions == Sessions([], None)
      ensures error == None && selectedModel == None && observer == null && observedSession == None
    {
      messages := [];
      thinkingMessage := None;
      sessions := Sessions([], None);
      error := None;
      selectedModel := None;
      observer := null;
      observedSession := None;
    }

    /** `updateMessage`: the first message with the id is replaced, and the
        repository is written, only when there is one. */
    method UpdateMessage(m: ChatMessage) returns (written: bool)
      modifies this`messages
      ensures messages == ReplaceFirstById(old(messages), m)
      ensures written <==> exists j | 0 <= j < |old(messages)| :: old(messages)[j].id == m.id
    {
      var index := IndexOfFirst(messages, m.id);
      written := index != -1;
      if written {
        messages := messages[index := m];
      }
    }

    /** `updateThinkingState`. */
    method UpdateThinkingState(thinking: string)
      modifies this`thinkingMessage
      ensures thinkingMessage == Some(ThinkingPrefix + thinking)
    {
      thinkingMessage := Some(ThinkingPrefix + thinking);
    }

    /** A chunk with `<think>`, as `sendMessage` handles it. */
    method ChunkOpen(chunk: string, assistant: ChatMessage, answer: string, stack: seq<string>, inThinking: bool)
      returns (answer': string, stack': seq<string>, inThinking': bool)
      requires Contains(chunk, OpenMarker)
      modifies this`messages, this`thinkingMessage
      ensures var o := OnOpen(Segmenter(answer, stack, inThinking), chunk);
        && o.next == Segmenter(answer', stack', inThinking')
        && messages == Answered(old(messages), assistant, o.updates)
        && thinkingMessage == Indicated(old(thinkingMessage), o.updates)
    {
      inThinking' := true;
      answer', stack' := answer, stack;
      var before := SubstringBefore(chunk, OpenMarker);
      ghost var shown: seq<Update> := [];
      if !IsBlank(before) {
        answer' := answer + before;
        var _ := UpdateMessage(assistant.(content := answer'));
        shown := [AnswerShown(answer')];
        assert Answered(old(messages), assistant, shown) == messages;
      }
      var thinking := SubstringAfter(chunk, OpenMarker);
      if !Contains(chunk, CloseMarker) {
        stack' := stack + [thinking];
        UpdateThinkingState(Concat(stack'));
        AnsweredAppend(old(messages), assistant, shown, [ThinkingShown(Concat(stack'))]);
        IndicatedAppend(old(thinkingMessage), shown, [ThinkingShown(Concat(stack'))]);
      }
    }

    /** A chunk with `</think>` and no `<think>`, as `sendMessage` handles
        it. */
    method ChunkClose(chunk: string, assistant: ChatMessage, answer: string, stack: seq<string>)
      returns (answer': string, stack': seq<string>, inThinking': bool)
      requires !Contains(chunk, OpenMarker) && Contains(chunk, CloseMarker)
      modifies this`messages, this`thinkingMessage
      ensures var o := OnClose(Segmenter(answer, stack, true), chunk);
        && o.next == Segmenter(answer', stack', inThinking')
        && messages == Answered(old(messages), assistant, o.updates)
        && thinkingMessage == Indicated(old(thinkingMessage), o.updates)
    {
      var thinking := SubstringBefore(chunk, CloseMarker);
      ghost var shown: seq<Update> := [];
      if !IsBlank(thinking) {
        UpdateThinkingState(Concat(stack + [thinking]));
        shown := [ThinkingShown(Concat(stack + [thinking]))];
      }
      inThinking' := false;
      stack' := [];
      thinkingMessage := None;
      AnsweredAppend(old(messages), assistant, shown, [ThinkingHidden]);
      IndicatedAppend(old(thinkingMessage), shown, [ThinkingHidden]);
      shown := shown + [ThinkingHidden];
      var after := SubstringAfter(chunk, CloseMarker);
      answer' := answer;
      if !IsBlank(after) {
        answer' := answer + after;
        var _ := UpdateMessage(assistant.(content := answer'));
        AnsweredAppend(old(messages), assistant, shown, [AnswerShown(answer')]);
        IndicatedAppend(old(thinkingMessage), shown, [AnswerShown(answer')]);
      }
    }

    /** One collected chunk, as the `when` of `sendMessage` handles it. */
    method ProcessChunk(chunk: string, assistant: ChatMessage, answer: string, stack: seq<string>, inThinking: bool)
      returns (answer': string, stack': seq<string>, inThinking': bool)
      modifies this`messages, this`thinkingMessage
      ensures var o := Step(Segmenter(answer, stack, inThinking), chunk);
        && o.next == Segmenter(answer', stack', inThinking')
        && messages == Answered(old(messages), assistant, o.updates)
        && thinkingMessage == Indicated(old(thinkingMessage), o.updates)
    {
      if Contains(chunk, OpenMarker) {
        answer', stack', inThinking' := ChunkOpen(chunk, assistant, answer, stack, inThinking);
      } else if Contains(chunk, CloseMarker) {
        answer', stack', inThinking' := ChunkClose(chunk, assistant, answer, stack);
      } else if inThinking {
        answer', stack', inThinking' := answer, stack + [chunk], true;
        UpdateThinkingState(Concat(stack'));
      } else {
        answer', stack', inThinking' := answer + chunk, stack, false;
        var _ := UpdateMessage(assistant.(content := answer'));
      }
    }

    /** The `collect` of `sendMessage` over the chunks the service emits:
        the segmenter runs over them, each shown answer goes into the
        assistant message and each thinking text into the indicator. */
    method Collect(chunks: seq<string>, assistant: ChatMessage) returns (answer: string)
      modifies this`messages, this`thinkingMessage
      ensures answer == Run(Initial, chunks).answer
      ensures messages == Answered(old(messages), assistant, RunUpdates(Initial, chunks))
      ensures thinkingMessage == Indicated(old(thinkingMessage), RunUpdates(Initial, chunks))
    {
      answer := "";
      var stack: seq<string> := [];
      var inThinking := false;
      var i := 0;
      while i < |chunks|
        invariant 0 <= i <= |chunks|
        invariant Segmenter(answer, stack, inThinking) == Run(Initial, chunks[..i])
        invariant messages == Answered(old(messages), assistant, RunUpdates(Initial, chunks[..i]))
        invariant thinkingMessage == Indicated(old(thinkingMessage), RunUpdates(Initial, chunks[..i]))
      {
        ghost var us := RunUpdates(Initial, chunks[..i]);
        ghost var o := Step(Segmenter(answer, stack, inThinking), chunks[i]);
        answer, stack, inThinking := ProcessChunk(chunks[i], assistant, answer, stack, inThinking);
        assert chunks[..i + 1][..i] == chunks[..i];
        assert RunUpdates(Initial, chunks[..i + 1]) == us + o.updates;
        AnsweredAppend(old(messages), assistant, us, o.updates);
        IndicatedAppend(old(thinkingMessage), us, o.updates);
        i := i + 1;
      }
      assert chunks[..i] == chunks;
    }

    /** `observeSessionMessages`: the previous observation is cancelled and
        a new one starts for the session. */
    method ObserveSessionMessages(sessionId: Uuid)
      modifies this`observer, this`observedSession
      modifies if observer != null then {observer} else {}
      ensures old(observer) != null ==> old(observer).cancelled
      ensures observer != null && fresh(observer) && !observer.cancelled
      ensures observedSession == Some(sessionId)
    {
      if observer != null {
        observer.Cancel();
      }
      observer := new Job();
      observedSession := Some(sessionId);
    }

    /** `createSession`: a new session titled after the content becomes the
        current one, and its messages are observed. */
    method CreateSession(id: Uuid, content: string, now: int) returns (session: ChatSession)
      modifies this`sessions, this`observer, this`observedSession
      modifies if observer != null then {observer} else {}
      ensures session == ChatSession(id, JvmTitle(content), now, now)
      ensures sessions == old(sessions).(current := Some(session))
      ensures old(observer) != null ==> old(observer).cancelled
      ensures observer != null && fresh(observer) && !observer.cancelled
      ensures observedSession == Some(id)
    {
      session := ChatSession(id, JvmTitle(content), now, now);
      sessions := sessions.(current := Some(session));
      ObserveSessionMessages(id);
    }

    /** `renameSession`: the listed session with the id gets the title, and
        so does the current session when it has that id. */
    method RenameSession(id: Uuid, title: string)
      modifies this`sessions
      ensures sessions == Rename(old(sessions), id, title)
    {
      sessions := Rename(sessions, id, title);
    }

    /** The part of `sendMessage` before the service is called: the current
        session, or a new one, is picked and renamed while titled "New
        Chat", and the user's message and an empty SENDING assistant
        message are appended. */
    method AddExchange(content: string, newSessionId: Uuid, userId: Uuid, assistantId: Uuid, now: int)
      returns (session: ChatSession)
      modifies this`messages, this`sessions, this`observer, this`observedSession
      modifies if observer != null then {observer} else {}
      ensures session == SessionToSend(old(sessions.current), newSessionId, content, now)
      ensures sessions == Titled(old(sessions), session, content)
      ensures messages == old(messages) + [UserMessage(userId, session.id, content, now), Assistant(assistantId, session.id, now)]
      ensures old(sessions.current).Some? ==> observer == old(observer) && observedSession == old(observedSession)
      ensures old(sessions.current).None? ==>
        && (old(observer) != null ==> old(observer).cancelled)
        && observer != null && fresh(observer) && !observer.cancelled
        && observedSession == Some(newSessionId)
    {
      if sessions.current.Some? {
        session := sessions.current.value;
      } else {
        session := CreateSession(newSessionId, content, now);
      }
      if session.title == "New Chat" {
        RenameSession(session.id, content);
      }
      messages := messages + [UserMessage(userId, session.id, content, now)];
      messages := messages + [Assistant(assistantId, session.id, now)];
    }

    /** `sendMessage`. Without a selected model nothing but the error
        changes. Otherwise the exchange is added, the service is called
        with the model, the content and the session, its chunks are
        collected, and the assistant message ends SENT with the answer or,
        when the stream fails after its chunks, ERROR with its original
        content, the failure being reported as the error. */
    method SendMessage(content: string, newSessionId: Uuid, userId: Uuid, assistantId: Uuid, now: int,
                       chunks: seq<string>, failure: Option<Thrown>)
      returns (call: Option<ChatCall>)
      modifies this`messages, this`thinkingMessage, this`sessions, this`error, this`observer, this`observedSession
      modifies if observer != null then {observer} else {}
      ensures selectedModel.None? ==>
        && call == None && error == Some("Failed to send message: No model selected")
        && messages == old(messages) && thinkingMessage == old(thinkingMessage) && sessions == old(sessions)
        && observer == old(observer) && observedSession == old(observedSession)
      ensures selectedModel.Some? ==>
        var session := SessionToSend(old(sessions.current), newSessionId, content, now);
        var assistant := Assistant(assistantId, session.id, now);
        && call == Some(ChatCall(selectedModel.value, content, session.id))
        && sessions == Titled(old(sessions), session, content)
        && messages == ReplaceFirstById(old(messages) + [UserMessage(userId, session.id, content, now), assistant],
                                        Final(assistant, chunks, failure))
        && thinkingMessage == Indicated(old(thinkingMessage), RunUpdates(Initial, chunks))
        && error == (if failure.Some? then Some(SendError(failure.value)) else old(error))
      ensures selectedModel.Some? && old(sessions.current).Some? ==>
        observer == old(observer) && observedSession == old(observedSession)
      ensures selectedModel.Some? && old(sessions.current).None? ==>
        && (old(observer) != null ==> old(observer).cancelled)
        && observer != null && fresh(observer) && !observer.cancelled
        && observedSession == Some(newSessionId)
    {
      if selectedModel.None? {
        error := Some("Failed to send message: No model selected");
        return None;
      }
      var session := AddExchange(content, newSessionId, userId, assistantId, now);
      call := Some(ChatCall(selectedModel.value, content, session.id));
      Stream(Assistant(assistantId, session.id, now), chunks, failure);
    }

    /** The call of the service in `sendMessage`, from the collected chunks
        to the last update of the assistant message and, on a failure, the
        reported error. */
    method Stream(assistant: ChatMessage, chunks: seq<string>, failure: Option<Thrown>)
      modifies this`messages, this`thinkingMessage, this`error
      ensures messages == ReplaceFirstById(old(messages), Final(assistant, chunks, failure))
      ensures thinkingMessage == Indicated(old(thinkingMessage), RunUpdates(Initial, chunks))
      ensures error == (if failure.Some? then Some(SendError(failure.value)) else old(error))
    {
      var answer := Collect(chunks, assistant);
      AnsweredThenReplaced(old(messages), assistant, RunUpdates(Initial, chunks), Final(assistant, chunks, failure));
      if failure.Some? {
        var _ := UpdateMessage(assistant.(status := Error));
        error := Some(SendError(failure.value));
      } else {
        var _ := UpdateMessage(assistant.(content := answer, status := Sent));
      }
    }

    /** `retryMessage`: only a failed assistant message is sent again, with
        its content; anything else changes nothing. */
    method RetryMessage(m: ChatMessage, newSessionId: Uuid, userId: Uuid, assistantId: Uuid, now: int,
                        chunks: seq<string>, failure: Option<Thrown>)
      returns (call: Option<ChatCall>)
      modifies this`messages, this`thinkingMessage, this`sessions, this`error, this`observer, this`observedSession
      modifies if observer != null then {observer} else {}
      ensures (m.isUser || m.status != Error) ==>
        && call == None && messages == old(messages) && thinkingMessage == old(thinkingMessage)
        && sessions == old(sessions) && error == old(error)
        && observer == old(observer) && observedSession == old(observedSession)
      ensures !m.isUser && m.status == Error && selectedModel.None? ==>
        call == None && error == Some("Failed to send message: No model selected")
      ensures !m.isUser && m.status == Error && selectedModel.Some? ==>
        var session := SessionToSend(old(sessions.current), newSessionId, m.content, now);
        && call == Some(ChatCall(selectedModel.value, m.content, session.id))
        && messages == ReplaceFirstById(old(messages) + [UserMessage(userId, session.id, m.content, now), Assistant(assistantId, session.id, now)],
                                        Final(Assistant(assistantId, session.id, now), chunks, failure))
    {
      var resend := Retry(m);
      if resend.Some? {
        call := SendMessage(resend.value, newSessionId, userId, assistantId, now, chunks, failure);
      } else {
        call := None;
      }
    }
  }
}
