/** The chat bookkeeping of the desktop client's `OllamaService`: one
    connection per chat session, holding the socket's reader and the
    session's message history, `closeConnection`, and one run of the block
    that `chat` hands to `executeWithRetry`. The socket is its reader over
    what the server sends; whether a socket can be opened and what the
    server replies are parameters. */
module DesktopService {
  import opened Wrappers
  import opened Text
  import opened Transport
  import opened HttpMessage
  import opened ChunkedReader
  import opened Retry
  import Segmentation

  /** `OllamaConfig.host`'s default. */
  const Host: string := "localhost"

  /** `Message(role, content)` of the desktop data model. */
  datatype Message = Message(role: string, content: string)

  /** `ChatRequest(model, messages, stream, context)`. */
  datatype ChatRequest = ChatRequest(model: string, messages: seq<Message>, stream: bool, context: Option<seq<int>>)

  /** The headers `chat` hands to `buildHttpRequest`, in map order. */
  const ChatHeaders: seq<Header> := [Header("Accept", "application/x-ndjson"), Header("Content-Type", "application/json")]

  /** What a run of the block throws: the `IOException` of a socket that
      cannot be opened, or the `NumberFormatException` of a chunk size
      beyond `Int`. */
  datatype AttemptFailure = SocketFailure | ChunkSizeFailure

  /** The request `chat` prints for a history and a context. */
  function ChatRequestText(model: string, history: seq<Message>, context: Option<seq<int>>,
                           encode: ChatRequest -> string): string
  {
    BuildHttpRequest("POST", "/api/chat", Host, Some(encode(ChatRequest(model, history, true, context))), ChatHeaders)
  }

  /** What `processResponse` hands on, and whether it throws, for what the
      reader has still to read. */
  function Answer(input: string, decode: string -> Option<ChatResponse>): Streamed
  {
    Body(AfterHead(input), true, decode)
  }

  /** A session as a run of `chat`'s block finds it: its messages, its
      context, whether it has a socket and what that socket's reader still
      holds (nothing when there is no socket). */
  datatype SessionView = SessionView(history: seq<Message>, context: Option<seq<int>>, open: bool, pending: string)

  /** A session without a connection: `closeConnection` forgot it, or it
      was never seen. */
  const Forgotten: SessionView := SessionView([], None, false, [])

  /** What a run of the block prints, emits, and throws. */
  datatype AttemptRun = AttemptRun(sent: string, emitted: seq<string>, failure: Option<AttemptFailure>)

  /** A run of the block on a session seen as `view`, `answer` being
      what `processResponse` makes of what the reader holds: without a
      socket that cannot be opened it throws at once; otherwise it prints
      the request with the prompt added to the history, emits the thinking
      placeholder and what `processResponse` hands on, and throws when that
      does. */
  function Run(model: string, prompt: string, view: SessionView, connects: bool, answer: Streamed,
               encode: ChatRequest -> string): AttemptRun
  {
    if !view.open && !connects then AttemptRun([], [], Some(SocketFailure))
    else
      AttemptRun(ChatRequestText(model, view.history + [Message("user", prompt)], view.context, encode),
                 [Segmentation.Prelude[0]] + answer.emitted,
                 if answer.failed then Some(ChunkSizeFailure) else None)
  }

  /** The session after a run that did not throw: the prompt and the
      answer joined the history, the context is unchanged, the socket is
      open and its reader has nothing left. */
  function Answered(prompt: string, view: SessionView, answer: Streamed): SessionView
  {
    SessionView(view.history + [Message("user", prompt), Message("assistant", Concat(answer.emitted))],
                view.context, true, [])
  }

  /** The session as run number `k` of the block finds it: the first run
      sees it as `chat` was called, every later one follows a run that
      threw, after which the session was forgotten. */
  function ViewAt(start: SessionView, k: nat): SessionView
  {
    if k == 0 then start else Forgotten
  }

  /** What `processResponse` makes of run number `k`'s reader: what it
      still held, then the server's reply `replies(k)`. */
  function Answers(start: SessionView, replies: nat -> string, decode: string -> Option<ChatResponse>): nat -> Streamed
  {
    (k: nat) => Answer(ViewAt(start, k).pending + replies(k), decode)
  }

  /** The runs of the block under `executeWithRetry`, run number `k` being
      given whether its socket opens and what `processResponse` makes of
      its reader. */
  function RunsFrom(model: string, prompt: string, start: SessionView, connects: nat -> bool, answers: nat -> Streamed,
                    encode: ChatRequest -> string): nat -> AttemptRun
  {
    (k: nat) => Run(model, prompt, ViewAt(start, k), connects(k), answers(k), encode)
  }

  /** `answers` are what `processResponse` makes of each run's reader, as
      `Answers` gives them; the link is used one run at a time. */
  ghost predicate AnswersOf(answers: nat -> Streamed, start: SessionView, replies: nat -> string,
                            decode: string -> Option<ChatResponse>)
  {
    forall k: nat {:trigger replies(k)} :: answers(k) == Answer(ViewAt(start, k).pending + replies(k), decode)
  }

  /** `runs` are the runs `RunsFrom` gives; the link is used one run at a
      time. */
  ghost predicate RunsOf(runs: nat -> AttemptRun, model: string, prompt: string, start: SessionView,
                         connects: nat -> bool, answers: nat -> Streamed, encode: ChatRequest -> string)
  {
    forall k: nat {:trigger connects(k)} :: runs(k) == Run(model, prompt, ViewAt(start, k), connects(k), answers(k), encode)
  }

  /** The runs as `executeWithRetry` sees them: returned or thrown. */
  function Statuses(runs: nat -> AttemptRun): nat -> Result<(), AttemptFailure>
  {
    (k: nat) => if runs(k).failure.None? then Ok(()) else Err(runs(k).failure.value)
  }

  /** The requests the first `n` runs print. */
  function Sents(runs: nat -> AttemptRun, n: nat): (r: seq<string>)
    ensures |r| == n
  {
    if n == 0 then [] else Sents(runs, n - 1) + [runs(n - 1).sent]
  }

  /** What the first `n` runs emit into the flow, in order. */
  function Emissions(runs: nat -> AttemptRun, n: nat): seq<string>
  {
    if n == 0 then [] else Emissions(runs, n - 1) + runs(n - 1).emitted
  }

  /** `SocketConnection`: the socket's reader (null together with the
      socket and the writer) and the session's messages and context. */
  class Connection {
    var reader: LineReader?
    var messages: seq<Message>
    var context: Option<seq<int>>

    constructor ()
      ensures reader == null && messages == [] && context == None
    {
      reader := null;
      messages := [];
      context := None;
    }
  }

  /** The desktop `OllamaService`'s chat state. */
  class DesktopOllamaService {
    /** `chatSessions`: the connection of each session id. */
    var chatSessions: map<string, Connection>

    constructor ()
      ensures chatSessions == map[] && Valid()
    {
      chatSessions := map[];
    }

    /** Distinct sessions hold distinct connections with distinct readers. */
    ghost predicate Valid()
      reads this, chatSessions.Values
    {
      forall a, b | a in chatSessions && b in chatSessions && a != b ::
        && chatSessions[a] != chatSessions[b]
        && (chatSessions[a].reader == null || chatSessions[a].reader != chatSessions[b].reader)
    }

    /** The connection of a session and its reader. */
    ghost function Owned(id: string): set<object?>
      reads this, chatSessions.Values
    {
      if id in chatSessions then {chatSessions[id] as object?, chatSessions[id].reader as object?} else {}
    }

    /** The session's messages; none for a session without a connection. */
    ghost function History(id: string): seq<Message>
      reads this, chatSessions.Values
    {
      if id in chatSessions then chatSessions[id].messages else []
    }

    ghost function Context(id: string): Option<seq<int>>
      reads this, chatSessions.Values
    {
      if id in chatSessions then chatSessions[id].context else None
    }

    /** The session as a run of `chat`'s block finds it. */
    ghost function View(id: string): SessionView
      reads this, chatSessions.Values, Owned(id)
    {
      SessionView(History(id), Context(id), IsOpen(id), Pending(id))
    }

    /** The session has a socket. */
    ghost predicate IsOpen(id: string)
      reads this, chatSessions.Values
    {
      id in chatSessions && chatSessions[id].reader != null
    }

    /** What the session's reader has not read yet. */
    ghost function Pending(id: string): string
      reads this, chatSessions.Values, Owned(id)
    {
      if IsOpen(id) then chatSessions[id].reader.rest else []
    }

    /** `closeConnection(sessionId, clearHistory)`: what the reader still
        holds is consumed and the socket closed; the session is then
        forgotten, or, without `clearHistory`, kept with its history and
        no socket. An unknown id changes nothing. */
    method CloseConnection(sessionId: string, clearHistory: bool)
      requires Valid()
      modifies this, Owned(sessionId)
      ensures Valid()
      ensures sessionId !in old(chatSessions) ==> chatSessions == old(chatSessions)
      ensures sessionId in old(chatSessions) && clearHistory ==> chatSessions == old(chatSessions) - {sessionId}
      ensures sessionId in old(chatSessions) && !clearHistory ==>
        && chatSessions == old(chatSessions)
        && !IsOpen(sessionId)
        && History(sessionId) == old(History(sessionId))
        && Context(sessionId) == old(Context(sessionId))
    {
      if sessionId in chatSessions {
        var connection := chatSessions[sessionId];
        if connection.reader != null {
          connection.reader.Drain();
        }
        if clearHistory {
          chatSessions := chatSessions - {sessionId};
        } else {
          connection.reader := null;
        }
      }
    }

    /** The first half of a run of `chat`'s block: the session's
        connection is found, or made and entered, and given a socket when it
        has none (`connects` says whether that succeeds); when it had one,
        the server's `reply` follows what its reader still holds. When no
        socket can be opened the session is forgotten. */
    method Connect(sessionId: string, connects: bool, reply: string) returns (connection: Connection?)
      requires Valid()
      modifies this, Owned(sessionId)
      ensures Valid()
      ensures connection == null <==> !old(IsOpen(sessionId)) && !connects
      ensures connection == null ==> chatSessions == old(chatSessions) - {sessionId}
      ensures connection != null ==>
        && chatSessions == old(chatSessions)[sessionId := connection]
        && connection.reader != null
        && connection.reader.rest == old(Pending(sessionId)) + reply
        && connection.messages == old(History(sessionId))
        && connection.context == old(Context(sessionId))
        && (sessionId in old(chatSessions) ==> connection == old(chatSessions[sessionId]))
        && (sessionId !in old(chatSessions) ==> fresh(connection))
        && (old(IsOpen(sessionId)) ==> connection.reader == old(chatSessions[sessionId].reader))
        && (!old(IsOpen(sessionId)) ==> fresh(connection.reader))
    {
      if sessionId in chatSessions {
        connection := chatSessions[sessionId];
      } else {
        connection := new Connection();
        chatSessions := chatSessions[sessionId := connection];
      }
      if connection.reader == null {
        CloseConnection(sessionId, false);
        if !connects {
          CloseConnection(sessionId, true);
          return null;
        }
        connection.reader := new LineReader(reply);
      } else {
        connection.reader.Receive(reply);
      }
    }

    /** One run of `chat`'s block. After `Connect`, the prompt joins the
        history, the request carrying the whole history is printed, the
        thinking placeholder is emitted and then whatever `processResponse`
        hands on. On success the answer, including the `</think>` that
        opens it, joins the history and the context stays what it was; on
        failure the session is forgotten. */
    method ChatAttempt(model: string, prompt: string, sessionId: string, connects: bool, reply: string,
                       encode: ChatRequest -> string, decode: string -> Option<ChatResponse>)
      returns (sent: string, emitted: seq<string>, failure: Option<AttemptFailure>)
      requires Valid()
      modifies this, Owned(sessionId)
      ensures Valid()
      ensures !old(IsOpen(sessionId)) && !connects ==>
        && sent == [] && emitted == [] && failure == Some(SocketFailure)
        && chatSessions == old(chatSessions) - {sessionId}
      ensures old(IsOpen(sessionId)) || connects ==>
        var history := old(History(sessionId)) + [Message("user", prompt)];
        var answer := Answer(old(Pending(sessionId)) + reply, decode);
        && sent == ChatRequestText(model, history, old(Context(sessionId)), encode)
        && emitted == [Segmentation.Prelude[0]] + answer.emitted
        && (answer.failed ==> failure == Some(ChunkSizeFailure) && chatSessions == old(chatSessions) - {sessionId})
        && (!answer.failed ==>
          && failure == None
          && sessionId in chatSessions
          && chatSessions == old(chatSessions)[sessionId := chatSessions[sessionId]]
          && History(sessionId) == history + [Message("assistant", Concat(answer.emitted))]
          && Context(sessionId) == old(Context(sessionId))
          && IsOpen(sessionId) && Pending(sessionId) == [])
    {
      var connection := Connect(sessionId, connects, reply);
      if connection == null {
        return [], [], Some(SocketFailure);
      }
      sent, emitted, failure := Exchange(model, prompt, sessionId, connection, encode, decode);
    }

    /** `chat`: the block runs under `executeWithRetry`, at most
        `maxRetries` times, and what each run emitted stays in the flow.
        When every run throws, the flow's `catch` closes the connection once
        more and rethrows the `ConnectionError`, which is not an
        `IOException`. Run number `k` is given whether its socket opens and
        what the server replies; the pauses are returned rather than waited
        for. */
    method Chat(model: string, prompt: string, sessionId: string, maxRetries: int,
                connects: nat -> bool, replies: nat -> string,
                encode: ChatRequest -> string, decode: string -> Option<ChatResponse>)
      returns (sent: seq<string>, emitted: seq<string>, r: Result<(), RetryError<AttemptFailure>>,
               delays: seq<int>, calls: nat)
      requires Valid()
      modifies this, Owned(sessionId)
      ensures Valid()
      ensures var answers := Answers(old(View(sessionId)), replies, decode);
        var runs := RunsFrom(model, prompt, old(View(sessionId)), connects, answers, encode);
        && Outcome(r, delays, calls) == Attempts(FailureMessage("chat", maxRetries), maxRetries, Statuses(runs), 0, None)
        && sent == Sents(runs, calls) && emitted == Emissions(runs, calls)
        && (r.Err? ==> chatSessions == old(chatSessions) - {sessionId})
        && (r.Ok? ==>
          && 0 < calls && sessionId in chatSessions
          && chatSessions == old(chatSessions)[sessionId := chatSessions[sessionId]]
          && View(sessionId) == Answered(prompt, ViewAt(old(View(sessionId)), calls - 1), answers(calls - 1)))
    {
      var message := FailureMessage("chat", maxRetries);
      if maxRetries <= 0 {
        r := Err(ConnectionError(message, None));
        CloseConnection(sessionId, true);
        return [], [], r, [], 0;
      }
      ghost var start := View(sessionId);
      ghost var answers := Answers(start, replies, decode);
      ghost var runs := RunsFrom(model, prompt, start, connects, answers, encode);
      sent, emitted, r, delays, calls :=
        ChatRetries(message, model, prompt, sessionId, maxRetries, connects, replies, encode, decode, start, answers, runs);
      if r.Err? {
        CloseConnection(sessionId, true);
      }
    }

    /** Run `k` of `chat`'s block as `executeWithRetry` sees it: what it
        printed, emitted and threw, and the session it leaves. `start` is
        the session before the first run, `answers` what each run's reader
        yields. */
    method RunBlock(model: string, prompt: string, sessionId: string, connects: nat -> bool, replies: nat -> string,
                    k: nat, encode: ChatRequest -> string, decode: string -> Option<ChatResponse>,
                    ghost start: SessionView, ghost answers: nat -> Streamed, ghost runs: nat -> AttemptRun)
      returns (run: AttemptRun)
      requires Valid() && View(sessionId) == ViewAt(start, k)
      requires AnswersOf(answers, start, replies, decode)
      requires RunsOf(runs, model, prompt, start, connects, answers, encode)
      modifies this, Owned(sessionId)
      ensures Valid()
      ensures run == runs(k)
      ensures run.failure.Some? ==> chatSessions == old(chatSessions) - {sessionId}
      ensures run.failure.None? ==>
        && sessionId in chatSessions && chatSessions == old(chatSessions)[sessionId := chatSessions[sessionId]]
        && View(sessionId) == Answered(prompt, ViewAt(start, k), answers(k))
    {
      var sent, emitted, failure := ChatAttempt(model, prompt, sessionId, connects(k), replies(k), encode, decode);
      run := AttemptRun(sent, emitted, failure);
    }

    /** The `executeWithRetry` loop of `chat` for a positive `maxRetries`,
        `message` being the text of the error thrown when every run fails.
        The first run is taken before the loop: it finds the session as it
        was, and every later run finds it forgotten. */
    method ChatRetries(message: string, model: string, prompt: string, sessionId: string, maxRetries: int,
                       connects: nat -> bool, replies: nat -> string,
                       encode: ChatRequest -> string, decode: string -> Option<ChatResponse>,
                       ghost start: SessionView, ghost answers: nat -> Streamed, ghost runs: nat -> AttemptRun)
      returns (sent: seq<string>, emitted: seq<string>, r: Result<(), RetryError<AttemptFailure>>,
               delays: seq<int>, calls: nat)
      requires Valid() && 0 < maxRetries && start == View(sessionId)
      requires AnswersOf(answers, start, replies, decode)
      requires RunsOf(runs, model, prompt, start, connects, answers, encode)
      modifies this, Owned(sessionId)
      ensures Valid()
      ensures
        && Outcome(r, delays, calls) == Attempts(message, maxRetries, Statuses(runs), 0, None)
        && sent == Sents(runs, calls) && emitted == Emissions(runs, calls)
        && (r.Err? ==> chatSessions == old(chatSessions) - {sessionId})
        && (r.Ok? ==>
          && 0 < calls && sessionId in chatSessions
          && chatSessions == old(chatSessions)[sessionId := chatSessions[sessionId]]
          && View(sessionId) == Answered(prompt, ViewAt(start, calls - 1), answers(calls - 1)))
    {
      var first := RunBlock(model, prompt, sessionId, connects, replies, 0, encode, decode, start, answers, runs);
      sent, emitted, calls := [first.sent], first.emitted, 1;
      assert Sents(runs, 1) == [] + [runs(0).sent];
      assert Emissions(runs, 1) == [] + runs(0).emitted;
      if first.failure.None? {
        assert ViewAt(start, 0) == start;
        assert Statuses(runs)(0) == Ok(());
        assert Attempts(message, maxRetries, Statuses(runs), 0, None) == Outcome(Ok(()), [], 1);
        return sent, emitted, Ok(()), [], calls;
      }
      assert Statuses(runs)(0) == Err(first.failure.value);
      AttemptsStep(message, maxRetries, Statuses(runs), 0, None, [], 0);
      ghost var total := Attempts(message, maxRetries, Statuses(runs), 0, None);
      assert Retry.Then([], 0, total) == total by {
        assert [] + total.delays == total.delays;
      }
      var retryCount := 1;
      delays := [];
      if retryCount < maxRetries {
        delays := [BackoffDelay(retryCount)];
      }
      sent, emitted, r, delays, calls :=
        RetryForgotten(message, model, prompt, sessionId, maxRetries, connects, replies, encode, decode,
                       start, answers, runs, retryCount, sent, emitted, delays, Some(first.failure.value));
      if r.Ok? {
        assert ViewAt(start, calls - 1) == Forgotten;
      }
    }

    /** The retries of `chat`'s block after its first run threw, the session
        being forgotten by then: `sent`, `emitted`, `delays` and `calls`
        hold what the runs so far printed, emitted, waited and counted. */
    method RetryForgotten(message: string, model: string, prompt: string, sessionId: string, maxRetries: int,
                          connects: nat -> bool, replies: nat -> string,
                          encode: ChatRequest -> string, decode: string -> Option<ChatResponse>,
                          ghost start: SessionView, ghost answers: nat -> Streamed, ghost runs: nat -> AttemptRun,
                          k0: nat, sent0: seq<string>, emitted0: seq<string>, delays0: seq<int>,
                          lastException0: Option<AttemptFailure>)
      returns (sent: seq<string>, emitted: seq<string>, r: Result<(), RetryError<AttemptFailure>>,
               delays: seq<int>, calls: nat)
      requires Valid() && sessionId !in chatSessions && 1 <= k0 <= maxRetries
      requires AnswersOf(answers, start, replies, decode)
      requires RunsOf(runs, model, prompt, start, connects, answers, encode)
      requires Attempts(message, maxRetries, Statuses(runs), 0, None)
        == Retry.Then(delays0, k0, Attempts(message, maxRetries, Statuses(runs), k0, lastException0))
      requires sent0 == Sents(runs, k0) && emitted0 == Emissions(runs, k0)
      modifies this, Owned(sessionId)
      ensures Valid()
      ensures
        && Outcome(r, delays, calls) == Attempts(message, maxRetries, Statuses(runs), 0, None)
        && sent == Sents(runs, calls) && emitted == Emissions(runs, calls)
        && (r.Err? ==> chatSessions == old(chatSessions))
        && (r.Ok? ==>
          && 1 < calls && sessionId in chatSessions
          && chatSessions == old(chatSessions)[sessionId := chatSessions[sessionId]]
          && View(sessionId) == Answered(prompt, Forgotten, answers(calls - 1)))
    {
      sent, emitted, delays, calls := sent0, emitted0, delays0, k0;
      var retryCount: nat := k0;
      var lastException := lastException0;
      while retryCount < maxRetries
        invariant Valid() && sessionId !in chatSessions && chatSessions == old(chatSessions)
        invariant calls == retryCount <= maxRetries
        invariant Attempts(message, maxRetries, Statuses(runs), 0, None)
          == Retry.Then(delays, calls, Attempts(message, maxRetries, Statuses(runs), retryCount, lastException))
        invariant sent == Sents(runs, calls) && emitted == Emissions(runs, calls)
        decreases maxRetries - retryCount
      {
        var run;
        run, sent, emitted, delays := RetryStep(message, model, prompt, sessionId, maxRetries, connects, replies,
                                                encode, decode, start, answers, runs, retryCount, sent, emitted,
                                                delays, lastException);
        calls := calls + 1;
        if run.failure.None? {
          return sent, emitted, Ok(()), delays, calls;
        }
        lastException := Some(run.failure.value);
        retryCount := retryCount + 1;
      }
      r := Err(ConnectionError(message, lastException));
      assert Attempts(message, maxRetries, Statuses(runs), retryCount, lastException) == Outcome(r, [], 0);
    }

    /** One pass of `executeWithRetry`'s loop for `chat`, at retry count
        `k`, the session being forgotten: the block runs, and when it
        throws the pause before the next run, if any, is added to `delays`.
        `last` is the last failure so far. */
    method RetryStep(message: string, model: string, prompt: string, sessionId: string, maxRetries: int,
                     connects: nat -> bool, replies: nat -> string,
                     encode: ChatRequest -> string, decode: string -> Option<ChatResponse>,
                     ghost start: SessionView, ghost answers: nat -> Streamed, ghost runs: nat -> AttemptRun,
                     k: nat, sent0: seq<string>, emitted0: seq<string>, delays0: seq<int>,
                     ghost last: Option<AttemptFailure>)
      returns (run: AttemptRun, sent: seq<string>, emitted: seq<string>, delays: seq<int>)
      requires Valid() && sessionId !in chatSessions && 1 <= k < maxRetries
      requires AnswersOf(answers, start, replies, decode)
      requires RunsOf(runs, model, prompt, start, connects, answers, encode)
      requires sent0 == Sents(runs, k) && emitted0 == Emissions(runs, k)
      modifies this
      ensures Valid() && run == runs(k)
      ensures sent == Sents(runs, k + 1) && emitted == Emissions(runs, k + 1)
      ensures run.failure.Some? ==>
        && chatSessions == old(chatSessions)
        && Retry.Then(delays0, k, Attempts(message, maxRetries, Statuses(runs), k, last))
          == Retry.Then(delays, k + 1, Attempts(message, maxRetries, Statuses(runs), k + 1, Some(run.failure.value)))
      ensures run.failure.None? ==>
        && Retry.Then(delays0, k, Attempts(message, maxRetries, Statuses(runs), k, last)) == Outcome(Ok(()), delays, k + 1)
        && sessionId in chatSessions && chatSessions == old(chatSessions)[sessionId := chatSessions[sessionId]]
        && View(sessionId) == Answered(prompt, Forgotten, answers(k))
    {
      assert chatSessions - {sessionId} == chatSessions;
      run := RunBlock(model, prompt, sessionId, connects, replies, k, encode, decode, start, answers, runs);
      sent := sent0 + [run.sent];
      emitted := emitted0 + run.emitted;
      delays := delays0;
      if run.failure.None? {
        assert Statuses(runs)(k) == Ok(());
        assert delays0 + [] == delays0;
        return;
      }
      assert Statuses(runs)(k) == Err(run.failure.value);
      AttemptsStep(message, maxRetries, Statuses(runs), k, last, delays0, k);
      if k + 1 < maxRetries {
        delays := delays + [BackoffDelay(k + 1)];
      }
    }

    /** The second half of a run of `chat`'s block, on the session's
        connection. */
    method Exchange(model: string, prompt: string, sessionId: string, connection: Connection,
                    encode: ChatRequest -> string, decode: string -> Option<ChatResponse>)
      returns (sent: string, emitted: seq<string>, failure: Option<AttemptFailure>)
      requires Valid()
      requires sessionId in chatSessions && chatSessions[sessionId] == connection && connection.reader != null
      modifies this, connection, connection.reader
      ensures Valid()
      ensures var history := old(connection.messages) + [Message("user", prompt)];
        var answer := Answer(old(connection.reader.rest), decode);
        && sent == ChatRequestText(model, history, old(connection.context), encode)
        && emitted == [Segmentation.Prelude[0]] + answer.emitted
        && (answer.failed ==> failure == Some(ChunkSizeFailure) && chatSessions == old(chatSessions) - {sessionId})
        && (!answer.failed ==>
          && failure == None
          && chatSessions == old(chatSessions)
          && connection.messages == history + [Message("assistant", Concat(answer.emitted))]
          && connection.context == old(connection.context)
          && connection.reader == old(connection.reader)
          && connection.reader.rest == [])
    {
      var reader := connection.reader;
      connection.messages := connection.messages + [Message("user", prompt)];
      var request := ChatRequest(model, connection.messages, true, connection.context);
      sent := ChatRequestText(model, connection.messages, connection.context, encode);
      emitted := [Segmentation.Prelude[0]];
      var handed, failed := ProcessResponse(reader, decode);
      emitted := emitted + handed;
      if failed {
        CloseConnection(sessionId, true);
        return sent, emitted, Some(ChunkSizeFailure);
      }
      connection.messages := connection.messages + [Message("assistant", Concat(handed))];
      connection.context := request.context;
      failure := None;
    }
  }

  /** Status and header lines a reader passes over to reach the body: none
      empty and none holding a line break. */
  predicate PlainHead(head: seq<string>)
  {
    forall k | 0 <= k < |head| :: head[k] != [] && NoBreak(head[k])
  }

  /** A reply with a chunked body: its head, the empty line, the chunks
      of `frames` and whatever follows them. */
  function ChunkedReply(head: seq<string>, frames: seq<string>, tail: string): string
  {
    Terminated(head) + (Crlf + (Chunked(frames) + tail))
  }

  /** For a chunked reply `processResponse` succeeds and hands on `</think>`
      before the first response, then every non-blank content of the
      responses up to the first `done`. */
  lemma ChunkedReplyAnswered(head: seq<string>, frames: seq<string>, tail: string, decode: string -> Option<ChatResponse>)
    requires PlainHead(head) && Sendable(frames)
    ensures var rs := Responses(frames, decode);
      var answer := Answer(ChunkedReply(head, frames, tail), decode);
      && answer.emitted == Opening(rs, true) + Contents(rs)
      && !answer.failed
  {
    HeadSkipped(head, Chunked(frames) + tail);
    ChunkedBodyHanded(frames, tail, decode);
  }

  /** The assistant message kept in the history, and sent back with the
      next request, opens with `</think>` whenever the server sent a
      response; it is empty otherwise. */
  lemma StoredAnswer(head: seq<string>, frames: seq<string>, tail: string, decode: string -> Option<ChatResponse>)
    requires PlainHead(head) && Sendable(frames)
    ensures var rs := Responses(frames, decode);
      var stored := Concat(Answer(ChunkedReply(head, frames, tail), decode).emitted);
      && (rs != [] ==> stored == Segmentation.CloseMarker + Concat(Contents(rs)))
      && (rs == [] ==> stored == "")
  {
    var rs := Responses(frames, decode);
    ChunkedReplyAnswered(head, frames, tail, decode);
    if rs != [] {
      ConcatCons(Segmentation.CloseMarker, Contents(rs));
    } else {
      assert Opening(rs, true) + Contents(rs) == [];
    }
  }

  /** What a run emitted stays at the front of what later runs add. */
  lemma {:induction false} EmissionsGrow(runs: nat -> AttemptRun, n: nat, m: nat)
    requires n <= m
    ensures Emissions(runs, n) <= Emissions(runs, m)
    decreases m
  {
    if n < m {
      EmissionsGrow(runs, n, m - 1);
    }
  }

  /** When the first run reached the server and then threw on a chunk
      size, and the socket of the retry opens, `chat`'s flow carries all
      the first run emitted followed by the thinking placeholder a second
      time. */
  lemma RetryRepeatsPlaceholder(message: string, model: string, prompt: string, start: SessionView, maxRetries: int,
                                connects: nat -> bool, answers: nat -> Streamed, encode: ChatRequest -> string)
    requires 2 <= maxRetries
    requires (start.open || connects(0)) && answers(0).failed
    requires connects(1)
    ensures var runs := RunsFrom(model, prompt, start, connects, answers, encode);
      var o := Attempts(message, maxRetries, Statuses(runs), 0, None);
      && 2 <= o.calls
      && runs(0).emitted + [Segmentation.Prelude[0]] <= Emissions(runs, o.calls)
  {
    var runs := RunsFrom(model, prompt, start, connects, answers, encode);
    var block := Statuses(runs);
    assert block(0).Err?;
    var rest := Attempts(message, maxRetries, block, 1, Some(block(0).error));
    assert 1 <= rest.calls;
    var o := Attempts(message, maxRetries, block, 0, None);
    assert o.calls == rest.calls + 1;
    EmissionsGrow(runs, 2, o.calls);
    assert Emissions(runs, 2) == runs(0).emitted + runs(1).emitted;
    assert runs(1).emitted[0] == Segmentation.Prelude[0];
  }

  /** A retry follows a run that threw, so the session was forgotten: the
      request it prints carries the prompt alone and no context, its reader
      holds the server's reply alone, and when it succeeds the history holds
      this exchange alone. */
  lemma RetryForgetsHistory(model: string, prompt: string, start: SessionView, connects: nat -> bool,
                            replies: nat -> string, encode: ChatRequest -> string,
                            decode: string -> Option<ChatResponse>, k: nat)
    requires 1 <= k && connects(k)
    ensures var answers := Answers(start, replies, decode);
      && answers(k) == Answer(replies(k), decode)
      && RunsFrom(model, prompt, start, connects, answers, encode)(k).sent
        == ChatRequestText(model, [Message("user", prompt)], None, encode)
      && Answered(prompt, ViewAt(start, k), answers(k)).history
        == [Message("user", prompt), Message("assistant", Concat(answers(k).emitted))]
  {
    var answers := Answers(start, replies, decode);
    assert [] + replies(k) == replies(k);
    var runs := RunsFrom(model, prompt, start, connects, answers, encode);
    assert runs(k) == Run(model, prompt, Forgotten, connects(k), answers(k), encode);
    assert Forgotten.history + [Message("user", prompt)] == [Message("user", prompt)];
  }
}
