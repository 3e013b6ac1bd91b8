/** The desktop client's own HTTP/1.1: the request it writes on the socket
    (request line as in section 3 of RFC 9112, Content-Length as in section
    8.6 of RFC 9110) and how it reads a reply body of a known length. */
module HttpMessage {
  import opened Wrappers
  import opened Text
  import opened Transport

  const Crlf: string := "\r\n"

  /** `OllamaConfig.maxContentLength`'s default, 10 MiB. */
  const DefaultMaxContentLength: int := 10 * 1024 * 1024

  datatype Header = Header(name: string, value: string)

  /** What `extractResponseBody` throws: `ContentTooLargeError`, or the
      `NumberFormatException` of a length that is not an integer. */
  datatype BodyError = ContentTooLarge(message: string) | NumberFormat(text: string)

  /** How an `Int` is printed in a string template. */
  function IntToString(i: int): (r: string)
    ensures |r| >= 1
  {
    if i < 0 then "-" + NatToString(-i) else NatToString(i)
  }

  /** The number of bytes UTF-8 takes for one character. */
  function CharUtf8Length(c: char): (n: nat)
    ensures 1 <= n <= 4
  {
    if c as int < 0x80 then 1
    else if c as int < 0x800 then 2
    else if c as int < 0x10000 then 3
    else 4
  }

  /** `body.toByteArray(UTF_8).size`. */
  function Utf8Length(s: string): (n: nat)
    ensures |s| <= n <= 4 * |s|
  {
    if s == [] then 0 else Utf8Length(s[..|s| - 1]) + CharUtf8Length(s[|s| - 1])
  }

  predicate IsAscii(s: string)
  {
    forall j | 0 <= j < |s| :: s[j] as int < 0x80
  }

  /** For ASCII text the byte count is the character count. */
  lemma {:induction false} AsciiUtf8Length(s: string)
    requires IsAscii(s)
    ensures Utf8Length(s) == |s|
    decreases |s|
  {
    if s != [] {
      AsciiUtf8Length(s[..|s| - 1]);
    }
  }

  /** One header line without its terminator. */
  function HeaderText(h: Header): string
  {
    h.name + ": " + h.value
  }

  const ContentType: Header := Header("Content-Type", "application/json")

  function LengthHeader(n: nat): Header
  {
    Header("Content-Length", IntToString(n))
  }

  /** The header lines `buildHttpRequest` writes for a body. */
  function BodyHeaders(body: Option<string>): seq<Header>
  {
    if body.None? then [] else [ContentType, LengthHeader(Utf8Length(body.value))]
  }

  /** The lines before the empty line, without terminators: the request
      line, `Host`, the body's headers, then the given headers in order. */
  function HeadLines(verb: string, path: string, host: string, body: Option<string>, headers: seq<Header>): seq<string>
  {
    [verb + " " + path + " HTTP/1.1", "Host: " + host] + HeaderTexts(BodyHeaders(body) + headers)
  }

  function HeaderTexts(hs: seq<Header>): (r: seq<string>)
    ensures |r| == |hs| && forall k | 0 <= k < |hs| :: r[k] == HeaderText(hs[k])
  {
    if hs == [] then [] else HeaderTexts(hs[..|hs| - 1]) + [HeaderText(hs[|hs| - 1])]
  }

  /** Each line followed by `\r\n`. */
  function Terminated(lines: seq<string>): string
  {
    if lines == [] then "" else lines[0] + Crlf + Terminated(lines[1..])
  }

  /** `buildHttpRequest`. */
  function BuildHttpRequest(verb: string, path: string, host: string, body: Option<string>, headers: seq<Header>): string
  {
    Terminated(HeadLines(verb, path, host, body, headers)) + Crlf + (if body.Some? then body.value else "")
  }

  /** `c.lowercase()` for ASCII letters. */
  function LowerAscii(c: char): char
  {
    if 'A' <= c <= 'Z' then (c as int + 32) as char else c
  }

  const LengthPrefix: string := "content-length:"

  /** `line.lowercase().startsWith("content-length:")`. */
  predicate IsLengthLine(line: string)
  {
    |line| >= |LengthPrefix| && forall j | 0 <= j < |LengthPrefix| :: LowerAscii(line[j]) == LengthPrefix[j]
  }

  function Nuls(n: nat): (r: string)
    ensures |r| == n && forall j | 0 <= j < n :: r[j] == '\0'
  {
    seq(n, _ => '\0')
  }

  /** A `CharArray(n)` filled from `s` as far as `s` goes: the rest keeps
      its initial `\0`s. */
  function Padded(s: string, n: nat): (r: string)
    ensures |r| == n
    ensures n <= |s| ==> r == s[..n]
    ensures n > |s| ==> r == s + Nuls(n - |s|)
  {
    if n <= |s| then s[..n] else s + Nuls(n - |s|)
  }

  /** The header loop of `extractResponseBody`: the lines up to an empty
      line (or the end of the input) are read, the last Content-Length
      header found so far gives the length, and a length above the limit
      or one that is not an integer is thrown at once. The result is the
      length and the input after the headers. */
  function ScanHeaders(s: string, length: int, max: int): Result<(int, string), BodyError>
    decreases |s|
  {
    match SplitLine(s)
    case None => Ok((length, s))
    case Some((line, rest)) =>
      if line == [] then Ok((length, rest))
      else if IsLengthLine(line) then
        var text := Trim(line[|LengthPrefix|..]);
        match ParseInt(text)
        case None => Err(NumberFormat(text))
        case Some(n) =>
          if n > max then Err(ContentTooLarge("Response size " + IntToString(n) + " exceeds limit " + IntToString(max)))
          else ScanHeaders(rest, n, max)
      else ScanHeaders(rest, length, max)
  }

  /** What `extractResponseBody` returns for a reply: exactly `length`
      characters for a positive length, everything after the headers
      otherwise. */
  function ResponseBody(s: string, max: int): Result<string, BodyError>
  {
    match ScanHeaders(s, 0, max)
    case Err(e) => Err(e)
    case Ok((length, rest)) => Ok(if length > 0 then Padded(rest, length) else rest)
  }

  /** `extractResponseBody`. */
  method ExtractResponseBody(reader: LineReader, maxContentLength: int) returns (r: Result<string, BodyError>)
    modifies reader
    ensures r == ResponseBody(old(reader.rest), maxContentLength)
  {
    var contentLength := 0;
    while true
      invariant ScanHeaders(old(reader.rest), 0, maxContentLength) == ScanHeaders(reader.rest, contentLength, maxContentLength)
      decreases |reader.rest|
    {
      var line := reader.ReadLine();
      if line.None? || line.value == [] {
        break;
      }
      if IsLengthLine(line.value) {
        var text := Trim(line.value[|LengthPrefix|..]);
        var parsed := ParseInt(text);
        if parsed.None? {
          return Err(NumberFormat(text));
        }
        if parsed.value > maxContentLength {
          return Err(ContentTooLarge("Response size " + IntToString(parsed.value) + " exceeds limit " + IntToString(maxContentLength)));
        }
        contentLength := parsed.value;
      }
    }
    if contentLength > 0 {
      var body := ReadExactly(reader, contentLength);
      r := Ok(body);
    } else {
      var text := reader.ReadText();
      r := Ok(text);
    }
  }

  /** The input left once `n` characters, or all there are, have been read. */
  function Unread(s: string, n: nat): (r: string)
    ensures |r| == (if n <= |s| then |s| - n else 0) && r == s[|s| - |r|..]
  {
    if n <= |s| then s[n..] else []
  }

  /** The counted read of `extractResponseBody` (and of each chunk of
      `processResponse`): reads into a `CharArray(length)` until it is full
      or the input ends. */
  method ReadExactly(reader: LineReader, length: nat) returns (text: string)
    modifies reader
    ensures text == Padded(old(reader.rest), length)
    ensures reader.rest == Unread(old(reader.rest), length)
  {
    ghost var input := reader.rest;
    var buffer := new char[length](_ => '\0');
    var bytesRead := 0;
    while bytesRead < length
      invariant 0 <= bytesRead <= length && bytesRead <= |input|
      invariant reader.rest == input[bytesRead..]
      invariant buffer[..] == input[..bytesRead] + Nuls(length - bytesRead)
      decreases length - bytesRead
    {
      var count := reader.Read(buffer, bytesRead, length - bytesRead);
      if count == -1 {
        break;
      }
      assert input[..bytesRead + count] == input[..bytesRead] + input[bytesRead..][..count];
      bytesRead := bytesRead + count;
    }
    text := buffer[..];
  }

  /** A head line the body reader passes over: not empty, a single line,
      and not a Content-Length header. */
  predicate PlainLine(line: string)
  {
    line != [] && NoBreak(line) && !IsLengthLine(line)
  }

  lemma {:induction false} TerminatedAppend(a: seq<string>, b: seq<string>)
    ensures Terminated(a + b) == Terminated(a) + Terminated(b)
    decreases |a|
  {
    if a == [] {
      assert a + b == b;
    } else {
      assert (a + b)[0] == a[0] && (a + b)[1..] == a[1..] + b;
      TerminatedAppend(a[1..], b);
    }
  }

  lemma ScanStep(s: string, line: string, rest: string, length: int, max: int)
    requires SplitLine(s) == Some((line, rest)) && PlainLine(line)
    ensures ScanHeaders(s, length, max) == ScanHeaders(rest, length, max)
  {
  }

  /** The empty line ends the head. */
  lemma ScanEnd(text: string, length: int, max: int)
    ensures ScanHeaders(Crlf + text, length, max) == Ok((length, text))
  {
    assert "" + "\r\n" + text == Crlf + text;
    SplitLineCrlf("", text);
  }

  /** Plain lines leave the length found so far as it is. */
  lemma {:induction false} ScanPlain(lines: seq<string>, tail: string, length: int, max: int)
    requires forall k | 0 <= k < |lines| :: PlainLine(lines[k])
    ensures ScanHeaders(Terminated(lines) + tail, length, max) == ScanHeaders(tail, length, max)
    decreases |lines|
  {
    if lines == [] {
      assert Terminated(lines) + tail == tail;
    } else {
      var rest := Terminated(lines[1..]) + tail;
      assert Terminated(lines) + tail == lines[0] + "\r\n" + rest;
      SplitLineCrlf(lines[0], rest);
      ScanStep(Terminated(lines) + tail, lines[0], rest, length, max);
      ScanPlain(lines[1..], tail, length, max);
    }
  }

  /** One space before some digits is trimmed away. */
  lemma TrimSpacedDigits(digits: string)
    requires digits != [] && AllDigits(digits)
    ensures Trim(" " + digits) == digits
  {
    assert (" " + digits)[1..] == digits;
    assert !IsWhitespace(digits[0]);
    assert TrimStart(" " + digits) == digits;
    assert !IsWhitespace(digits[|digits| - 1]);
  }

  /** The Content-Length line is one line. */
  lemma LengthLineNoBreak(n: nat)
    ensures NoBreak(HeaderText(LengthHeader(n)))
  {
    var digits := NatToString(n);
    assert NoBreak(digits) by {
      assert forall j | 0 <= j < |digits| :: IsDigit(digits[j]);
    }
    NoBreakAppend("Content-Length", ": ");
    NoBreakAppend("Content-Length" + ": ", digits);
  }

  /** The Content-Length line is recognised whatever its case, and what
      follows the prefix is a space and the digits. */
  lemma LengthLineRecognised(n: nat)
    ensures IsLengthLine(HeaderText(LengthHeader(n)))
    ensures HeaderText(LengthHeader(n))[|LengthPrefix|..] == " " + NatToString(n)
  {
    var line := HeaderText(LengthHeader(n));
    var head := "Content-Length" + ": ";
    assert line == head + NatToString(n);
    assert forall j | 0 <= j < |head| :: line[j] == head[j];
    assert forall j | 0 <= j < |LengthPrefix| :: LowerAscii(head[j]) == LengthPrefix[j];
  }

  /** The Content-Length line of a body of `n` bytes is one line, is
      recognised whatever its case, and carries `n`. */
  lemma LengthLineRead(n: nat)
    ensures var line := HeaderText(LengthHeader(n));
      && NoBreak(line) && IsLengthLine(line) && Trim(line[|LengthPrefix|..]) == NatToString(n)
  {
    LengthLineNoBreak(n);
    LengthLineRecognised(n);
    TrimSpacedDigits(NatToString(n));
  }

  /** The Content-Length line `buildHttpRequest` writes is read back as
      its number. */
  lemma ScanLength(n: nat, tail: string, length: int, max: int)
    requires n <= max && n <= IntMax
    ensures ScanHeaders(HeaderText(LengthHeader(n)) + Crlf + tail, length, max) == ScanHeaders(tail, n, max)
  {
    var line := HeaderText(LengthHeader(n));
    LengthLineRead(n);
    assert line + Crlf + tail == line + "\r\n" + tail;
    SplitLineCrlf(line, tail);
    ParseIntOfNatToString(n);
  }

  /** The head of a request that names no Content-Length itself and keeps
      each line to one line. */
  predicate Scannable(verb: string, path: string, host: string, headers: seq<Header>)
  {
    && PlainLine(verb + " " + path + " HTTP/1.1")
    && PlainLine("Host: " + host)
    && forall k | 0 <= k < |headers| :: PlainLine(HeaderText(headers[k]))
  }

  lemma ContentTypePlain()
    ensures PlainLine(HeaderText(ContentType))
  {
    var line := HeaderText(ContentType);
    assert LowerAscii(line[8]) != LengthPrefix[8];
    NoBreakAppend("Content-Type", ": ");
    NoBreakAppend("Content-Type: ", "application/json");
  }

  /** The head lines of a body's headers and the given ones. */
  lemma BodyHeaderTexts(body: string, headers: seq<Header>)
    ensures HeaderTexts(BodyHeaders(Some(body)) + headers)
      == [HeaderText(ContentType), HeaderText(LengthHeader(Utf8Length(body)))] + HeaderTexts(headers)
  {
    var hs := BodyHeaders(Some(body)) + headers;
    var r := [HeaderText(ContentType), HeaderText(LengthHeader(Utf8Length(body)))] + HeaderTexts(headers);
    var texts := HeaderTexts(hs);
    assert |texts| == |r|;
    forall k | 0 <= k < |hs|
      ensures texts[k] == r[k]
    {
      if k >= 2 {
        assert hs[k] == headers[k - 2];
      }
    }
    assert texts == r;
  }

  /** Without a body the head ends the request. */
  lemma HeadWithoutBody(verb: string, path: string, host: string, headers: seq<Header>, max: int)
    requires Scannable(verb, path, host, headers)
    ensures ScanHeaders(BuildHttpRequest(verb, path, host, None, headers), 0, max) == Ok((0, ""))
  {
    var lines := HeadLines(verb, path, host, None, headers);
    assert BodyHeaders(None) + headers == headers;
    assert forall k | 0 <= k < |lines| :: PlainLine(lines[k]) by {
      forall k | 0 <= k < |lines|
        ensures PlainLine(lines[k])
      {
        if k >= 2 {
          assert lines[k] == HeaderText(headers[k - 2]);
        }
      }
    }
    assert BuildHttpRequest(verb, path, host, None, headers) == Terminated(lines) + (Crlf + "");
    ScanPlain(lines, Crlf + "", 0, max);
    ScanEnd("", 0, max);
  }

  /** The request with a body, cut where the body reader's steps fall:
      the first three lines, the Content-Length line, the given headers'
      lines, then the empty line and the body. */
  lemma RequestWithBodyShape(verb: string, path: string, host: string, body: string, headers: seq<Header>)
    ensures BuildHttpRequest(verb, path, host, Some(body), headers)
      == Terminated([verb + " " + path + " HTTP/1.1", "Host: " + host, HeaderText(ContentType)])
        + (HeaderText(LengthHeader(Utf8Length(body))) + Crlf + (Terminated(HeaderTexts(headers)) + (Crlf + body)))
  {
    var first := [verb + " " + path + " HTTP/1.1", "Host: " + host, HeaderText(ContentType)];
    var cl := HeaderText(LengthHeader(Utf8Length(body)));
    var extra := HeaderTexts(headers);
    var lines := HeadLines(verb, path, host, Some(body), headers);
    BodyHeaderTexts(body, headers);
    Regroup(verb + " " + path + " HTTP/1.1", "Host: " + host, HeaderText(ContentType), cl, extra);
    TerminatedAppend(first, [cl] + extra);
    TerminatedCons(cl, extra);
    var a, b, c := Terminated(first), cl + Crlf, Terminated(extra);
    assert Terminated(lines) == a + (b + c);
    Associative3(a, b + c, Crlf, body);
    Associative3(b, c, Crlf, body);
  }

  lemma TerminatedCons(line: string, lines: seq<string>)
    ensures Terminated([line] + lines) == line + Crlf + Terminated(lines)
  {
    assert ([line] + lines)[0] == line && ([line] + lines)[1..] == lines;
  }

  /** Moving the third element of a list across a concatenation. */
  lemma Regroup<T>(x: T, y: T, z: T, w: T, rest: seq<T>)
    ensures [x, y] + ([z, w] + rest) == [x, y, z] + ([w] + rest)
  {
    var l, r := [x, y] + ([z, w] + rest), [x, y, z] + ([w] + rest);
    assert |l| == |r|;
    forall k | 0 <= k < |l|
      ensures l[k] == r[k]
    {
    }
  }

  /** Regrouping a concatenation of four strings. */
  lemma Associative3(a: string, b: string, c: string, d: string)
    ensures a + b + c + d == a + (b + (c + d))
  {
  }

  /** The lines before the Content-Length line pass the body reader by. */
  lemma FirstLinesPlain(verb: string, path: string, host: string, headers: seq<Header>)
    requires Scannable(verb, path, host, headers)
    ensures forall k | 0 <= k < 3 :: PlainLine([verb + " " + path + " HTTP/1.1", "Host: " + host, HeaderText(ContentType)][k])
  {
    ContentTypePlain();
  }

  /** So do the given headers' lines. */
  lemma HeaderLinesPlain(verb: string, path: string, host: string, headers: seq<Header>)
    requires Scannable(verb, path, host, headers)
    ensures forall k | 0 <= k < |HeaderTexts(headers)| :: PlainLine(HeaderTexts(headers)[k])
  {
  }

  /** With a body, the head declares its length and the body follows. */
  lemma HeadWithBody(verb: string, path: string, host: string, body: string, headers: seq<Header>, max: int)
    requires Scannable(verb, path, host, headers)
    requires Utf8Length(body) <= max && Utf8Length(body) <= IntMax
    ensures ScanHeaders(BuildHttpRequest(verb, path, host, Some(body), headers), 0, max) == Ok((Utf8Length(body), body))
  {
    var len := Utf8Length(body);
    var first := [verb + " " + path + " HTTP/1.1", "Host: " + host, HeaderText(ContentType)];
    var cl := HeaderText(LengthHeader(len));
    var extra := HeaderTexts(headers);
    var after := Terminated(extra) + (Crlf + body);
    var request := BuildHttpRequest(verb, path, host, Some(body), headers);
    RequestWithBodyShape(verb, path, host, body, headers);
    assert request == Terminated(first) + (cl + Crlf + after);
    FirstLinesPlain(verb, path, host, headers);
    ScanPlain(first, cl + Crlf + after, 0, max);
    assert ScanHeaders(request, 0, max) == ScanHeaders(cl + Crlf + after, 0, max);
    ScanLength(len, after, 0, max);
    assert ScanHeaders(cl + Crlf + after, 0, max) == ScanHeaders(after, len, max);
    HeaderLinesPlain(verb, path, host, headers);
    ScanPlain(extra, Crlf + body, len, max);
    assert ScanHeaders(after, len, max) == ScanHeaders(Crlf + body, len, max);
    ScanEnd(body, len, max);
  }

  /** Reading a request's head back the way `extractResponseBody` reads a
      reply's: the length found is the body's UTF-8 byte count when there is
      a body and 0 when there is none, and what follows the head is the
      body. So a Content-Length header is written exactly when there is a
      body, and it gives that body's size. */
  lemma RequestHeadRoundTrip(verb: string, path: string, host: string, body: Option<string>, headers: seq<Header>, max: int)
    requires Scannable(verb, path, host, headers)
    requires body.Some? ==> Utf8Length(body.value) <= max && Utf8Length(body.value) <= IntMax
    ensures ScanHeaders(BuildHttpRequest(verb, path, host, body, headers), 0, max)
      == Ok((if body.Some? then Utf8Length(body.value) else 0, if body.Some? then body.value else ""))
  {
    if body.Some? {
      HeadWithBody(verb, path, host, body.value, headers, max);
    } else {
      HeadWithoutBody(verb, path, host, headers, max);
    }
  }

  /** For an ASCII body, `extractResponseBody` applied to the request
      `buildHttpRequest` writes recovers exactly the body. */
  lemma RequestBodyRoundTrip(verb: string, path: string, host: string, body: Option<string>, headers: seq<Header>, max: int)
    requires Scannable(verb, path, host, headers)
    requires body.Some? ==> IsAscii(body.value) && |body.value| <= max && |body.value| <= IntMax
    ensures ResponseBody(BuildHttpRequest(verb, path, host, body, headers), max) == Ok(if body.Some? then body.value else "")
  {
    var request := BuildHttpRequest(verb, path, host, body, headers);
    if body.Some? {
      AsciiUtf8Length(body.value);
      RequestHeadRoundTrip(verb, path, host, body, headers, max);
      assert ScanHeaders(request, 0, max) == Ok((|body.value|, body.value));
      assert Padded(body.value, |body.value|) == body.value;
    } else {
      RequestHeadRoundTrip(verb, path, host, body, headers, max);
      assert ScanHeaders(request, 0, max) == Ok((0, ""));
    }
  }
}
