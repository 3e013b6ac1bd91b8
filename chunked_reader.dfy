/** The desktop client's reader for a streamed chat reply
    (`processResponse`): the head is passed over, then the body is read as
    chunks laid out as in section 7.1 of RFC 9112 (a hexadecimal size line,
    that many characters, a line end, and a last chunk of size 0), without
    chunk extensions or trailers and counting characters rather than
    octets. Each chunk is decoded as one JSON response, and what the
    responses carry is handed on, after a lone `</think>` that closes the
    thinking block the caller opened. Decoding is a parameter: a total
    function from a chunk to the response, or `None` where the decoder
    throws. */
module ChunkedReader {
  import opened Wrappers
  import opened Text
  import opened Transport
  import opened HttpMessage
  import Segmentation

  /** The desktop `ChatResponse` as far as the reader looks at it: the
      content of its message (`None` when the message is null) and `done`. */
  datatype ChatResponse = ChatResponse(content: Option<string>, done: bool)

  /** What is handed on, whether a size line was beyond `toInt(16)`'s
      range (the exception that leaves `processResponse`), and the input
      not read. */
  datatype Streamed = Streamed(emitted: seq<string>, failed: bool, rest: string)

  /** `line.matches(Regex("[0-9a-fA-F]+"))`. */
  predicate IsSizeLine(line: string)
  {
    line != [] && forall i | 0 <= i < |line| :: IsHexDigit(line[i])
  }

  /** A `readLine()` whose line is dropped. */
  function SkipLine(s: string): (r: string)
    ensures |r| <= |s|
  {
    match SplitLine(s)
    case None => s
    case Some((_, rest)) => rest
  }

  /** The head loop: the input after the first empty line, or the end of
      the input. */
  function AfterHead(s: string): (r: string)
    ensures |r| <= |s|
    decreases |s|
  {
    match SplitLine(s)
    case None => s
    case Some((line, rest)) => if line == [] then rest else AfterHead(rest)
  }

  /** A chunk is decoded only when it starts with `{`. */
  function Decoded(chunk: string, decode: string -> Option<ChatResponse>): Option<ChatResponse>
  {
    if StartsWith(chunk, "{") then decode(chunk) else None
  }

  /** The content a response hands on: none when it is null or blank. */
  function Visible(r: ChatResponse): (v: seq<string>)
    ensures |v| <= 1 && forall i | 0 <= i < |v| :: !IsBlank(v[i])
  {
    if r.content.Some? && !IsBlank(r.content.value) then [r.content.value] else []
  }

  /** What one decoded response hands on: `</think>` first when it is the
      first response, then its content. */
  function Handed(r: ChatResponse, first: bool): seq<string>
  {
    (if first then [Segmentation.CloseMarker] else []) + Visible(r)
  }

  /** How a pass of the body loop ends: on to the next line, or out of the
      loop after a `done` response, at the end of the body, or with the
      exception of a size out of range. */
  datatype Exit = Continue | Done | End | Failed

  /** One pass of the body loop of `processResponse` on the unread input,
      `first` standing for `isFirstResponse`: what it hands on, how it
      ends, the input left and the new `isFirstResponse`. Blank lines are
      skipped; a size line other than `0` gives a chunk, whose following
      line is dropped, unless the size is beyond the 32-bit range; a size
      of 0 (written `00`, say) gives none; the line `0` ends the body, and
      so does the end of the input; any other line is passed over. */
  datatype Pass = Pass(handed: seq<string>, exit: Exit, rest: string, first: bool)

  function BodyPass(s: string, first: bool, decode: string -> Option<ChatResponse>): (p: Pass)
    ensures p.exit == Continue ==> |p.rest| < |s|
  {
    match SplitLine(s)
    case None => Pass([], End, s, first)
    case Some((line, rest)) =>
      if IsBlank(line) then Pass([], Continue, rest, first)
      else if IsSizeLine(line) && line != "0" then
        match ParseHex(line)
        case None => Pass([], Failed, rest, first)
        case Some(size) =>
          if size == 0 then Pass([], Continue, rest, first)
          else ChunkPass(Padded(rest, size), SkipLine(Unread(rest, size)), first, decode)
      else if line == "0" then Pass([], End, rest, first)
      else Pass([], Continue, rest, first)
  }

  /** A chunk read, with `after` the input after the line that follows it:
      a response that decodes is handed on, and ends the loop when it is
      `done`; one that does not is passed over. */
  function ChunkPass(chunk: string, after: string, first: bool, decode: string -> Option<ChatResponse>): (p: Pass)
    ensures p.rest == after && p.exit in {Continue, Done}
  {
    match Decoded(chunk, decode)
    case None => Pass([], Continue, after, first)
    case Some(r) => Pass(Handed(r, first), if r.done then Done else Continue, after, false)
  }

  /** The body loop of `processResponse` on the unread input. */
  function Body(s: string, first: bool, decode: string -> Option<ChatResponse>): Streamed
    decreases |s|
  {
    var p := BodyPass(s, first, decode);
    if p.exit == Continue then Then(p.handed, Body(p.rest, p.first, decode))
    else Streamed(p.handed, p.exit == Failed, p.rest)
  }

  /** Some strings handed on before the outcome of the rest. */
  function Then(emitted: seq<string>, r: Streamed): Streamed
  {
    Streamed(emitted + r.emitted, r.failed, r.rest)
  }

  /** The body is its first pass, then, when the pass goes on, the body
      after it. */
  lemma BodyUnfold(s: string, first: bool, decode: string -> Option<ChatResponse>)
    ensures var p := BodyPass(s, first, decode);
      && Body(s, first, decode) == (if p.exit == Continue then Then(p.handed, Body(p.rest, p.first, decode))
        else Streamed(p.handed, p.exit == Failed, p.rest))
      && (p.exit == Continue ==> |p.rest| < |s|)
  {
  }

  lemma ThenThen(a: seq<string>, b: seq<string>, r: Streamed)
    ensures Then(a, Then(b, r)) == Then(a + b, r)
  {
    assert a + (b + r.emitted) == a + b + r.emitted;
  }

  /** The chunk part of a pass: `size` characters are read, the line after
      them is dropped, and the chunk is decoded when it starts with `{`. */
  method ReadChunk(reader: LineReader, size: nat, isFirstResponse: bool, decode: string -> Option<ChatResponse>)
    returns (handed: seq<string>, isDone: bool, nowFirst: bool)
    modifies reader
    ensures var p := ChunkPass(Padded(old(reader.rest), size), SkipLine(Unread(old(reader.rest), size)), isFirstResponse, decode);
      handed == p.handed && isDone == (p.exit == Done) && reader.rest == p.rest && nowFirst == p.first
  {
    var chunk := ReadExactly(reader, size);
    var _ := reader.ReadLine();
    handed, isDone, nowFirst := [], false, isFirstResponse;
    if StartsWith(chunk, "{") {
      var response := decode(chunk);
      if response.Some? {
        if isFirstResponse {
          handed := handed + [Segmentation.CloseMarker];
          nowFirst := false;
        }
        var content := response.value.content;
        if content.Some? && !IsBlank(content.value) {
          handed := handed + [content.value];
        }
        isDone := response.value.done;
      }
    }
  }

  /** One pass of the body loop. */
  method ReadPass(reader: LineReader, isFirstResponse: bool, decode: string -> Option<ChatResponse>)
    returns (handed: seq<string>, exit: Exit, nowFirst: bool)
    modifies reader
    ensures BodyPass(old(reader.rest), isFirstResponse, decode) == Pass(handed, exit, reader.rest, nowFirst)
  {
    handed, exit, nowFirst := [], Continue, isFirstResponse;
    var line := reader.ReadLine();
    if line.None? {
      exit := End;
      return;
    }
    if IsBlank(line.value) {
      return;
    }
    if IsSizeLine(line.value) && line.value != "0" {
      var chunkSize := ParseHex(line.value);
      if chunkSize.None? {
        exit := Failed;
        return;
      }
      if chunkSize.value > 0 {
        var isDone;
        handed, isDone, nowFirst := ReadChunk(reader, chunkSize.value, isFirstResponse, decode);
        exit := if isDone then Done else Continue;
      }
    } else if line.value == "0" {
      exit := End;
    }
  }

  /** `processResponse`: `onResponse` is the returned sequence, in order,
      and `failed` is the exception it ends with. When it ends normally the
      rest of the input has been consumed. */
  method ProcessResponse(reader: LineReader, decode: string -> Option<ChatResponse>) returns (emitted: seq<string>, failed: bool)
    modifies reader
    ensures emitted == Body(AfterHead(old(reader.rest)), true, decode).emitted
    ensures failed == Body(AfterHead(old(reader.rest)), true, decode).failed
    ensures !failed ==> reader.rest == []
  {
    var isFirstResponse := true;
    var isDone := false;
    while true
      invariant AfterHead(old(reader.rest)) == AfterHead(reader.rest)
      decreases |reader.rest|
    {
      var line := reader.ReadLine();
      if line.None? || line.value == [] {
        break;
      }
    }
    assert reader.rest == AfterHead(old(reader.rest));
    ghost var whole := Body(reader.rest, true, decode);
    emitted, failed := [], false;
    while !isDone
      invariant whole == Then(emitted, Body(reader.rest, isFirstResponse, decode))
      decreases |reader.rest|
    {
      ghost var before, wasFirst, sofar := reader.rest, isFirstResponse, emitted;
      var handed, exit, nowFirst := ReadPass(reader, isFirstResponse, decode);
      BodyUnfold(before, wasFirst, decode);
      ThenThen(sofar, handed, Body(reader.rest, nowFirst, decode));
      emitted := emitted + handed;
      if exit == Failed {
        failed := true;
        return;
      } else if exit == End || exit == Done {
        assert whole.emitted == emitted && !whole.failed;
        isDone := exit == Done;
        break;
      }
      isFirstResponse := nowFirst;
    }
    assert whole.emitted == emitted && !whole.failed;
    reader.Drain();
  }

  /* The reader in two layers: the chunks the transport gives, and what the
     decoded responses among them hand on. */

  /** What the body loop reads, decoding aside: the chunks, in order, up to
      the line `0` or the end of the input, and whether a size was out of
      range. */
  datatype Scan = Scan(chunks: seq<string>, failed: bool)

  function Chunks(s: string): Scan
    decreases |s|
  {
    match SplitLine(s)
    case None => Scan([], false)
    case Some((line, rest)) =>
      if IsBlank(line) then Chunks(rest)
      else if IsSizeLine(line) && line != "0" then
        match ParseHex(line)
        case None => Scan([], true)
        case Some(size) =>
          if size == 0 then Chunks(rest)
          else
            var tail := Chunks(SkipLine(Unread(rest, size)));
            Scan([Padded(rest, size)] + tail.chunks, tail.failed)
      else if line == "0" then Scan([], false)
      else Chunks(rest)
  }

  /** The responses the chunks decode to, in order, up to and including
      the first one marked `done`. */
  function Responses(chunks: seq<string>, decode: string -> Option<ChatResponse>): seq<ChatResponse>
  {
    if chunks == [] then []
    else match Decoded(chunks[0], decode)
      case None => Responses(chunks[1..], decode)
      case Some(r) => [r] + (if r.done then [] else Responses(chunks[1..], decode))
  }

  /** Some chunk decodes to a response marked `done`. */
  predicate StopsAtDone(chunks: seq<string>, decode: string -> Option<ChatResponse>)
  {
    chunks != [] &&
    ((Decoded(chunks[0], decode).Some? && Decoded(chunks[0], decode).value.done) || StopsAtDone(chunks[1..], decode))
  }

  /** The non-blank contents of some responses, in order. */
  function Contents(rs: seq<ChatResponse>): (r: seq<string>)
    ensures forall i | 0 <= i < |r| :: !IsBlank(r[i])
  {
    if rs == [] then [] else Visible(rs[0]) + Contents(rs[1..])
  }

  /** `</think>` when the responses are the first ones and there is one. */
  function Opening(rs: seq<ChatResponse>, first: bool): seq<string>
  {
    if first && rs != [] then [Segmentation.CloseMarker] else []
  }

  /** The reading loop is the two layers composed: it hands on what the
      responses among the chunks carry, and it fails exactly when a size is
      out of range before any `done` response. */
  lemma {:induction false} BodyLayers(s: string, first: bool, decode: string -> Option<ChatResponse>)
    ensures Layered(s, first, decode)
    decreases |s|
  {
    var p := BodyPass(s, first, decode);
    BodyUnfold(s, first, decode);
    match SplitLine(s)
    case None =>
    case Some((line, rest)) =>
      if IsBlank(line) {
        BodyLayers(rest, first, decode);
      } else if IsSizeLine(line) && line != "0" {
        match ParseHex(line)
        case None =>
        case Some(size) =>
          if size == 0 {
            BodyLayers(rest, first, decode);
          } else {
            var chunk, after := Padded(rest, size), SkipLine(Unread(rest, size));
            var later := Chunks(after).chunks;
            assert Chunks(s).chunks == [chunk] + later;
            match Decoded(chunk, decode)
            case None =>
              BodyLayers(after, first, decode);
              SkippedChunk(chunk, later, decode);
            case Some(r) =>
              if r.done {
                DoneChunk(chunk, later, r, first, decode);
              } else {
                BodyLayers(after, false, decode);
                LiveChunk(chunk, later, r, first, decode);
              }
          }
      } else if line != "0" {
        BodyLayers(rest, first, decode);
      }
  }

  /** What `BodyLayers` states of the input `s`. */
  predicate Layered(s: string, first: bool, decode: string -> Option<ChatResponse>)
  {
    var scan := Chunks(s);
    var rs := Responses(scan.chunks, decode);
    && Body(s, first, decode).emitted == Opening(rs, first) + Contents(rs)
    && Body(s, first, decode).failed == (scan.failed && !StopsAtDone(scan.chunks, decode))
  }

  /** A chunk that does not decode adds nothing to the responses. */
  lemma SkippedChunk(chunk: string, chunks: seq<string>, decode: string -> Option<ChatResponse>)
    requires Decoded(chunk, decode).None?
    ensures Responses([chunk] + chunks, decode) == Responses(chunks, decode)
    ensures StopsAtDone([chunk] + chunks, decode) == StopsAtDone(chunks, decode)
  {
    assert ([chunk] + chunks)[0] == chunk && ([chunk] + chunks)[1..] == chunks;
  }

  /** A chunk that decodes to a `done` response is the last response. */
  lemma DoneChunk(chunk: string, chunks: seq<string>, r: ChatResponse, first: bool, decode: string -> Option<ChatResponse>)
    requires Decoded(chunk, decode) == Some(r) && r.done
    ensures Responses([chunk] + chunks, decode) == [r]
    ensures StopsAtDone([chunk] + chunks, decode)
    ensures Opening([r], first) + Contents([r]) == Handed(r, first)
  {
    assert ([chunk] + chunks)[0] == chunk && ([chunk] + chunks)[1..] == chunks;
    assert [r][1..] == [];
  }

  /** A chunk that decodes to a response not marked `done` is followed by
      the responses of the chunks after it. */
  lemma LiveChunk(chunk: string, chunks: seq<string>, r: ChatResponse, first: bool, decode: string -> Option<ChatResponse>)
    requires Decoded(chunk, decode) == Some(r) && !r.done
    ensures var rs := Responses([chunk] + chunks, decode); var tail := Responses(chunks, decode);
      && rs == [r] + tail
      && Opening(rs, first) + Contents(rs) == Handed(r, first) + (Opening(tail, false) + Contents(tail))
    ensures StopsAtDone([chunk] + chunks, decode) == StopsAtDone(chunks, decode)
  {
    assert ([chunk] + chunks)[0] == chunk && ([chunk] + chunks)[1..] == chunks;
    var tail := Responses(chunks, decode);
    var rs := [r] + tail;
    assert rs[0] == r && rs[1..] == tail;
    assert Contents(rs) == Visible(r) + Contents(tail);
  }

  /** Nothing the reader hands on is blank: `</think>` is not, and blank
      contents are dropped. */
  lemma NothingBlankHanded(s: string, first: bool, decode: string -> Option<ChatResponse>)
    ensures forall i | 0 <= i < |Body(s, first, decode).emitted| :: !IsBlank(Body(s, first, decode).emitted[i])
  {
    BodyLayers(s, first, decode);
    var rs := Responses(Chunks(s).chunks, decode);
    var e := Body(s, first, decode).emitted;
    assert e == Opening(rs, first) + Contents(rs);
    OpeningNotBlank(rs, first);
    assert forall i | 0 <= i < |e| :: !IsBlank(e[i]);
  }

  lemma OpeningNotBlank(rs: seq<ChatResponse>, first: bool)
    ensures var e := Opening(rs, first) + Contents(rs);
      forall i | 0 <= i < |e| :: !IsBlank(e[i])
  {
    var o, c := Opening(rs, first), Contents(rs);
    assert forall i | 0 <= i < |o| :: o[i] == Segmentation.CloseMarker;
    assert !IsBlank(Segmentation.CloseMarker) by {
      assert !IsWhitespace(Segmentation.CloseMarker[0]);
    }
    forall i | 0 <= i < |o + c|
      ensures !IsBlank((o + c)[i])
    {
      if i >= |o| {
        assert (o + c)[i] == c[i - |o|];
      }
    }
  }

  /* The chunked encoding of some frames, read back. */

  function HexDigitChar(d: nat): (c: char)
    requires d < 16
    ensures IsHexDigit(c) && HexValue(c) == d
  {
    if d < 10 then ('0' as int + d) as char else ('a' as int + d - 10) as char
  }

  /** A number in lower-case hexadecimal, as a chunk size is written. */
  function NatToHex(n: nat): (r: string)
    ensures |r| >= 1 && forall i | 0 <= i < |r| :: IsHexDigit(r[i]) && HexValue(r[i]) < 16
    decreases n
  {
    if n < 16 then [HexDigitChar(n)] else NatToHex(n / 16) + [HexDigitChar(n % 16)]
  }

  lemma {:induction false} NatToHexValue(n: nat)
    ensures DigitsValue(NatToHex(n), 16) == n
    decreases n
  {
    var r := NatToHex(n);
    if n >= 16 {
      NatToHexValue(n / 16);
      assert r[..|r| - 1] == NatToHex(n / 16);
    }
  }

  /** The size line of a non-empty chunk: one line, not blank, not `0`,
      and read back as the size. */
  lemma SizeLineRead(n: nat)
    requires 0 < n <= IntMax
    ensures var line := NatToHex(n);
      && NoBreak(line) && !IsBlank(line) && IsSizeLine(line) && line != "0" && ParseHex(line) == Some(n)
  {
    var line := NatToHex(n);
    NatToHexValue(n);
    assert !IsWhitespace(line[0]) && !IsLineBreak(line[0]);
    assert forall j | 0 <= j < |line| :: !IsLineBreak(line[j]) by {
      forall j | 0 <= j < |line|
        ensures !IsLineBreak(line[j])
      {
        assert IsHexDigit(line[j]);
      }
    }
    assert DigitsValue("0", 16) == 0;
  }

  /** The body a server writes for some frames: each as a size line, the
      frame and a line end, then the last chunk `0` and an empty line. */
  function Chunked(frames: seq<string>): string
  {
    if frames == [] then "0" + Crlf + Crlf
    else NatToHex(|frames[0]|) + Crlf + (frames[0] + Crlf + Chunked(frames[1..]))
  }

  /** Frames the reader can carry: none empty (an empty one would be the
      last chunk) and none beyond `toInt(16)`'s range. */
  predicate Sendable(frames: seq<string>)
  {
    forall i | 0 <= i < |frames| :: 0 < |frames[i]| <= IntMax
  }

  /** The transport layer reads back exactly the frames written, whatever
      follows the body. */
  lemma {:induction false} ChunkedRoundTrip(frames: seq<string>, tail: string)
    requires Sendable(frames)
    ensures Chunks(Chunked(frames) + tail) == Scan(frames, false)
    decreases |frames|
  {
    if frames == [] {
      LastChunkRead(tail);
    } else {
      var f := frames[0];
      var a, b, c := NatToHex(|f|) + Crlf, f + Crlf, Chunked(frames[1..]);
      assert Chunked(frames) == a + (b + c);
      Associative(a, b + c, tail);
      Associative(b, c, tail);
      FrameRead(f, c + tail);
      ChunkedRoundTrip(frames[1..], tail);
      assert [f] + frames[1..] == frames;
    }
  }

  lemma Associative(a: string, b: string, c: string)
    ensures a + b + c == a + (b + c)
  {
  }

  /** The last chunk ends the body. */
  lemma LastChunkRead(tail: string)
    ensures Chunks("0" + Crlf + Crlf + tail) == Scan([], false)
  {
    var zero := "0";
    assert zero[0] == '0' && |zero| == 1;
    assert NoBreak(zero) && !IsBlank(zero);
    Associative(zero + Crlf, Crlf, tail);
    SplitLineCrlf(zero, Crlf + tail);
  }

  /** One frame with its size line and line end is read as one chunk, and
      reading goes on after it. */
  lemma FrameRead(f: string, more: string)
    requires 0 < |f| <= IntMax
    ensures Chunks(NatToHex(|f|) + Crlf + (f + Crlf + more)) == Scan([f] + Chunks(more).chunks, Chunks(more).failed)
  {
    var line := NatToHex(|f|);
    var rest := f + Crlf + more;
    SizeLineRead(|f|);
    SplitLineCrlf(line, rest);
    assert SplitLine(line + Crlf + rest) == Some((line, rest));
    ChunkAfterSize(f, more);
  }

  /** The chunk after a size line: the frame, then the line end dropped. */
  lemma ChunkAfterSize(f: string, more: string)
    ensures Padded(f + Crlf + more, |f|) == f
    ensures SkipLine(Unread(f + Crlf + more, |f|)) == more
  {
    var rest := f + Crlf + more;
    assert rest[..|f|] == f;
    assert Unread(rest, |f|) == "" + "\r\n" + more;
    NoBreakAppend([], []);
    SplitLineCrlf("", more);
  }

  /** A chunked body read back: the reader hands on `</think>` and then the
      non-blank contents of the frames' responses up to the first `done`
      one, and ends normally. */
  lemma ChunkedBodyHanded(frames: seq<string>, tail: string, decode: string -> Option<ChatResponse>)
    requires Sendable(frames)
    ensures var rs := Responses(frames, decode);
      && Body(Chunked(frames) + tail, true, decode).emitted == Opening(rs, true) + Contents(rs)
      && !Body(Chunked(frames) + tail, true, decode).failed
  {
    ChunkedRoundTrip(frames, tail);
    BodyLayers(Chunked(frames) + tail, true, decode);
  }

  /** The head loop passes over non-empty header lines and stops at the
      empty line. */
  lemma {:induction false} HeadSkipped(lines: seq<string>, body: string)
    requires forall k | 0 <= k < |lines| :: lines[k] != [] && NoBreak(lines[k])
    ensures AfterHead(Terminated(lines) + (Crlf + body)) == body
    decreases |lines|
  {
    if lines == [] {
      assert Terminated(lines) + (Crlf + body) == "" + "\r\n" + body;
      NoBreakAppend([], []);
      SplitLineCrlf("", body);
    } else {
      var more := Terminated(lines[1..]) + (Crlf + body);
      Associative(lines[0] + Crlf, Terminated(lines[1..]), Crlf + body);
      SplitLineCrlf(lines[0], more);
      HeadSkipped(lines[1..], body);
    }
  }
}
