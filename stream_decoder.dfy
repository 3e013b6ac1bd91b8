/** The shared client's streaming calls to the Ollama server: the body of a
    `chat` or `generate` response arrives as newline-delimited JSON, read
    line by line; blank lines are skipped, lines that do not decode are
    dropped (`chat`) or gathered until they do (`generate`), and reading
    stops at the first response marked `done`. Transport failures are
    mapped to the client's error types. JSON decoding is a parameter: a
    total function from a line to the decoded value, or `None` where the
    decoder throws. */
module StreamDecoder {
  import opened Wrappers
  import opened Text
  import Storage

  /** `ChatMessage` of the request and response bodies; `images` and
      `toolCalls` are always null here and are not modelled. */
  datatype Message = Message(role: string, content: string)

  /** `ChatRequest`; `format`, `options` and `keepAlive` are passed through
      untouched and are not modelled. */
  datatype ChatRequest = ChatRequest(model: string, messages: seq<Message>, stream: bool)

  /** `ChatResponse`, without the timing counters. */
  datatype ChatResponse = ChatResponse(model: string, message: Message, done: bool)

  /** `GenerateResponse`, without the context and timing counters. */
  datatype GenerateResponse = GenerateResponse(model: string, response: string, done: bool)

  /** `ChatMessageDomainModel.toChatMessage()`. */
  function ToChatMessage(m: Storage.ChatMessage): (r: Message)
    ensures r.content == m.content
    ensures r.role == "user" <==> m.isUser
    ensures r.role == "assistant" <==> !m.isUser
  {
    Message(if m.isUser then "user" else "assistant", m.content)
  }

  /** The list version of `toChatMessage`. */
  function ToChatMessages(ms: seq<Storage.ChatMessage>): (rs: seq<Message>)
    ensures |rs| == |ms| && forall i | 0 <= i < |ms| :: rs[i] == ToChatMessage(ms[i])
  {
    if ms == [] then [] else [ToChatMessage(ms[0])] + ToChatMessages(ms[1..])
  }

  /** The request `chat` posts: always streaming, with the model and the
      messages as given. */
  function ChatRequestOf(model: string, messages: seq<Message>): (r: ChatRequest)
    ensures r.stream && r.model == model && r.messages == messages
  {
    ChatRequest(model, messages, true)
  }

  /** The responses of the non-blank lines that decode, in order: what `chat`
      would emit if no response were `done`. */
  function Decoded<R>(lines: seq<string>, decode: string -> Option<R>): seq<R>
  {
    if lines == [] then []
    else if IsBlank(lines[0]) then Decoded(lines[1..], decode)
    else match decode(lines[0])
      case None => Decoded(lines[1..], decode)
      case Some(r) => [r] + Decoded(lines[1..], decode)
  }

  /** What `chat` emits for a body of lines: each decoded response, in
      order, up to and including the first one that is `done`. */
  function ChatEmits(lines: seq<string>, decode: string -> Option<ChatResponse>): seq<ChatResponse>
  {
    if lines == [] then []
    else if IsBlank(lines[0]) then ChatEmits(lines[1..], decode)
    else match decode(lines[0])
      case None => ChatEmits(lines[1..], decode)
      case Some(r) => if r.done then [r] else [r] + ChatEmits(lines[1..], decode)
  }

  /** Whether `chat` stops at a `done` response rather than at the end of
      the body. */
  predicate ChatStopsEarly(lines: seq<string>, decode: string -> Option<ChatResponse>)
  {
    if lines == [] then false
    else if IsBlank(lines[0]) then ChatStopsEarly(lines[1..], decode)
    else match decode(lines[0])
      case None => ChatStopsEarly(lines[1..], decode)
      case Some(r) => r.done || ChatStopsEarly(lines[1..], decode)
  }

  /** The reading loop of `chat`: `readUTF8Line` returns the lines in turn
      and `null` after the last. */
  method Chat(lines: seq<string>, decode: string -> Option<ChatResponse>) returns (out: seq<ChatResponse>, stopped: bool)
    ensures out == ChatEmits(lines, decode)
    ensures stopped == ChatStopsEarly(lines, decode)
  {
    out := [];
    var i := 0;
    while i < |lines|
      invariant 0 <= i <= |lines|
      invariant ChatEmits(lines, decode) == out + ChatEmits(lines[i..], decode)
      invariant ChatStopsEarly(lines, decode) == ChatStopsEarly(lines[i..], decode)
    {
      var line := lines[i];
      assert lines[i..][1..] == lines[i + 1..];
      i := i + 1;
      if IsBlank(line) {
        continue;
      }
      match decode(line)
      case None =>
      case Some(response) =>
        out := out + [response];
        if response.done {
          return out, true;
        }
    }
    stopped := false;
  }

  /** No response but the last is marked `done`. */
  predicate NoneDoneBeforeLast(out: seq<ChatResponse>)
  {
    forall i | 0 <= i < |out| - 1 :: !out[i].done
  }

  /** `chat` emits only decoded responses of non-blank lines, in order: a
      prefix of them, all of them when it does not stop early, and never
      anything after a `done` response. */
  lemma {:induction false} ChatEmitsDecoded(lines: seq<string>, decode: string -> Option<ChatResponse>)
    ensures ChatEmits(lines, decode) <= Decoded(lines, decode)
    ensures !ChatStopsEarly(lines, decode) ==> ChatEmits(lines, decode) == Decoded(lines, decode)
    ensures ChatStopsEarly(lines, decode) <==> ChatEmits(lines, decode) != [] && ChatEmits(lines, decode)[|ChatEmits(lines, decode)| - 1].done
    ensures NoneDoneBeforeLast(ChatEmits(lines, decode))
    decreases |lines|
  {
    if lines != [] {
      ChatEmitsDecoded(lines[1..], decode);
      var out := ChatEmits(lines, decode);
      if !IsBlank(lines[0]) && decode(lines[0]).Some? {
        var r := decode(lines[0]).value;
        if !r.done {
          var rest := ChatEmits(lines[1..], decode);
          assert out == [r] + rest;
          forall i | 0 <= i < |out| - 1
            ensures !out[i].done
          {
            if i > 0 {
              assert out[i] == rest[i - 1];
            }
          }
        } else {
          assert out == [r];
        }
      }
    }
  }

  /** Blank lines, wherever they are, change nothing. */
  lemma BlankLinesIgnored(line: string, rest: seq<string>, decode: string -> Option<ChatResponse>)
    requires IsBlank(line)
    ensures ChatEmits([line] + rest, decode) == ChatEmits(rest, decode)
    ensures Decoded([line] + rest, decode) == Decoded(rest, decode)
  {
    assert ([line] + rest)[1..] == rest;
  }

  /** What `generate` emits for a body of lines, with `buffer` holding the
      lines gathered so far: a line that decodes on its own is emitted and
      leaves the buffer alone; any other line is added to the buffer, and
      when the buffer then decodes it is emitted and the buffer cleared.
      Reading stops at the first `done` response. */
  function GenerateEmits(lines: seq<string>, buffer: string, decode: string -> Option<GenerateResponse>): seq<GenerateResponse>
  {
    if lines == [] then []
    else if IsBlank(lines[0]) then GenerateEmits(lines[1..], buffer, decode)
    else match decode(lines[0])
      case Some(r) => if r.done then [r] else [r] + GenerateEmits(lines[1..], buffer, decode)
      case None =>
        var gathered := buffer + lines[0];
        match decode(gathered)
        case Some(r) => if r.done then [r] else [r] + GenerateEmits(lines[1..], "", decode)
        case None => GenerateEmits(lines[1..], gathered, decode)
  }

  /** The reading loop of `generate`. */
  method Generate(lines: seq<string>, decode: string -> Option<GenerateResponse>) returns (out: seq<GenerateResponse>)
    ensures out == GenerateEmits(lines, "", decode)
  {
    out := [];
    var buffer := "";
    var i := 0;
    while i < |lines|
      invariant 0 <= i <= |lines|
      invariant GenerateEmits(lines, "", decode) == out + GenerateEmits(lines[i..], buffer, decode)
    {
      var line := lines[i];
      assert lines[i..][1..] == lines[i + 1..];
      i := i + 1;
      if IsBlank(line) {
        continue;
      }
      match decode(line)
      case Some(response) =>
        out := out + [response];
        if response.done {
          return;
        }
      case None =>
        buffer := buffer + line;
        match decode(buffer)
        case Some(response) =>
          out := out + [response];
          if response.done {
            return;
          }
          buffer := "";
        case None =>
    }
  }

  /** A response split over two lines, neither of which decodes alone nor
      after what was gathered before, is put back together and emitted. */
  lemma GenerateReassembles(a: string, b: string, rest: seq<string>, decode: string -> Option<GenerateResponse>)
    requires !IsBlank(a) && !IsBlank(b)
    requires decode(a).None? && decode(b).None? && decode("" + a).None?
    requires decode(a + b).Some? && !decode(a + b).value.done
    ensures GenerateEmits([a, b] + rest, "", decode) == [decode(a + b).value] + GenerateEmits(rest, "", decode)
  {
    assert ([a, b] + rest)[1..] == [b] + rest;
    assert ([b] + rest)[1..] == rest;
    assert "" + a == a;
  }

  /** No response but the last is marked `done`. */
  predicate NoDoneBeforeLast(out: seq<GenerateResponse>)
  {
    forall i | 0 <= i < |out| - 1 :: !out[i].done
  }

  /** `generate` also emits nothing after a `done` response. */
  lemma {:induction false} GenerateStopsAtDone(lines: seq<string>, buffer: string, decode: string -> Option<GenerateResponse>)
    ensures NoDoneBeforeLast(GenerateEmits(lines, buffer, decode))
    decreases |lines|
  {
    if lines != [] {
      var out := GenerateEmits(lines, buffer, decode);
      var line := lines[0];
      if !IsBlank(line) {
        if decode(line).Some? {
          GenerateStopsAtDone(lines[1..], buffer, decode);
          if !decode(line).value.done {
            var rest := GenerateEmits(lines[1..], buffer, decode);
            assert out == [decode(line).value] + rest;
            forall i | 0 <= i < |out| - 1
              ensures !out[i].done
            {
              if i > 0 {
                assert out[i] == rest[i - 1];
              }
            }
          } else {
            assert out == [decode(line).value];
          }
        } else if decode(buffer + line).Some? {
          GenerateStopsAtDone(lines[1..], "", decode);
          if !decode(buffer + line).value.done {
            var rest := GenerateEmits(lines[1..], "", decode);
            assert out == [decode(buffer + line).value] + rest;
            forall i | 0 <= i < |out| - 1
              ensures !out[i].done
            {
              if i > 0 {
                assert out[i] == rest[i - 1];
              }
            }
          } else {
            assert out == [decode(buffer + line).value];
          }
        } else {
          GenerateStopsAtDone(lines[1..], buffer + line, decode);
        }
      } else {
        GenerateStopsAtDone(lines[1..], buffer, decode);
        assert out == GenerateEmits(lines[1..], buffer, decode);
      }
    }
  }

  /** The kinds of exception the transport can raise. */
  datatype FailureKind = WebSocket | RequestTimeout | ConnectTimeout | Cancellation | OtherFailure

  /** An exception and its (possibly null) message. */
  datatype Failure = Failure(kind: FailureKind, message: Option<string>)

  /** `OllamaError`. */
  datatype OllamaError =
    | ConnectionError(message: string)
    | ResponseError(message: string)
    | TimeoutError(message: string)
    | ContentTooLargeError(message: string)

  /** What a flow's `catch` throws: a mapped error, or the original
      exception rethrown. */
  datatype Raised = Mapped(error: OllamaError) | Rethrown(failure: Failure)

  /** A string template prints a null message as `null`. */
  function MessageText(m: Option<string>): string
  {
    match m
    case Some(s) => s
    case None => "null"
  }

  /** The `catch` of `chat`: the first matching kind wins. */
  function ChatFailure(f: Failure): (r: Raised)
  {
    match f.kind
    case WebSocket => Mapped(ConnectionError("WebSocket error"))
    case RequestTimeout => Mapped(TimeoutError("Request timeout"))
    case ConnectTimeout => Mapped(TimeoutError("Connection timeout"))
    case Cancellation => Rethrown(f)
    case OtherFailure => Mapped(ConnectionError("Network error: " + MessageText(f.message)))
  }

  /** The `catch` of `generate`, which has no WebSocket or cancellation case. */
  function GenerateFailure(f: Failure): (r: Raised)
  {
    match f.kind
    case RequestTimeout => Mapped(TimeoutError("Request timeout"))
    case ConnectTimeout => Mapped(TimeoutError("Connection timeout"))
    case _ => Mapped(ConnectionError("Network error: " + MessageText(f.message)))
  }

  /** `chat` passes a cancellation through unchanged and turns every other
      failure into an `OllamaError`: timeouts into `TimeoutError`, the rest
      into `ConnectionError`. */
  lemma ChatFailureClassified(f: Failure)
    ensures ChatFailure(f).Rethrown? <==> f.kind == Cancellation
    ensures ChatFailure(f).Rethrown? ==> ChatFailure(f).failure == f
    ensures ChatFailure(f).Mapped? ==>
      (ChatFailure(f).error.TimeoutError? <==> f.kind in {RequestTimeout, ConnectTimeout})
    ensures ChatFailure(f).Mapped? ==> !ChatFailure(f).error.ResponseError? && !ChatFailure(f).error.ContentTooLargeError?
  {
  }

  /** `generate` never rethrows: a cancellation, like a WebSocket failure,
      is reported as a network error; the two calls agree on everything
      else. */
  lemma GenerateFailureClassified(f: Failure)
    ensures GenerateFailure(f).Mapped?
    ensures f.kind in {Cancellation, WebSocket} ==>
      GenerateFailure(f) == Mapped(ConnectionError("Network error: " + MessageText(f.message)))
    ensures f.kind !in {Cancellation, WebSocket} ==> GenerateFailure(f) == ChatFailure(f)
  {
  }

  /** A response body: its lines, and the failure that ends reading early,
      if any. */
  datatype Body = Body(lines: seq<string>, failure: Option<Failure>)

  /** What the flow of `chat` gives its collector: the responses, then
      either a normal end or what its `catch` throws. */
  datatype ChatOutcome = ChatOutcome(responses: seq<ChatResponse>, raised: Option<Raised>)

  /** The whole `chat` flow over a body. A failure after the last line only
      surfaces if reading had not already stopped at a `done` response;
      the end of the body without a failure ends the flow normally. */
  function ChatFlow(body: Body, decode: string -> Option<ChatResponse>): (o: ChatOutcome)
  {
    var raised := if ChatStopsEarly(body.lines, decode) || body.failure.None? then None
      else Some(ChatFailure(body.failure.value));
    ChatOutcome(ChatEmits(body.lines, decode), raised)
  }

  /** The flow ends normally exactly when the body has no failure or a
      `done` response came first. */
  lemma ChatFlowEnds(body: Body, decode: string -> Option<ChatResponse>)
    ensures ChatFlow(body, decode).raised.None? <==> body.failure.None? || ChatStopsEarly(body.lines, decode)
    ensures body.failure.None? ==> ChatFlow(body, decode).raised.None?
  {
  }
}
