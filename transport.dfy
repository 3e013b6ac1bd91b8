/** The reading side of the desktop client's socket: a `BufferedReader`
    over the characters the server sends, read by lines and by counts. */
module Transport {
  import opened Wrappers
  import opened Text

  /** A string without `\n` or `\r`. */
  predicate NoBreak(s: string)
  {
    forall j | 0 <= j < |s| :: !IsLineBreak(s[j])
  }

  lemma NoBreakAppend(a: string, b: string)
    requires NoBreak(a) && NoBreak(b)
    ensures NoBreak(a + b)
  {
    assert forall j | |a| <= j < |a + b| :: (a + b)[j] == b[j - |a|];
  }

  /** `readLine` on the unread input: the line before the first `\n`, `\r`
      or `\r\n`, and the input after that terminator; at the end of the
      input there is no line. A last line without a terminator is still a
      line. */
  function SplitLine(s: string): (r: Option<(string, string)>)
    ensures r.None? <==> s == []
    ensures r.Some? ==> NoBreak(r.value.0) && StartsWith(s, r.value.0)
    ensures r.Some? ==> |r.value.1| < |s| && r.value.1 == s[|s| - |r.value.1|..]
  {
    if s == [] then None
    else match FirstBreak(s)
      case None => Some((s, []))
      case Some(i) =>
        if s[i] == '\r' && i + 1 < |s| && s[i + 1] == '\n' then Some((s[..i], s[i + 2..]))
        else Some((s[..i], s[i + 1..]))
  }

  /** A line written with its `\r\n` terminator is read back whole, and
      the rest of the input after it. */
  lemma SplitLineCrlf(line: string, rest: string)
    requires NoBreak(line)
    ensures SplitLine(line + "\r\n" + rest) == Some((line, rest))
  {
    var s := line + "\r\n" + rest;
    assert s[|line|] == '\r' && s[|line| + 1] == '\n';
    assert forall j | 0 <= j < |line| :: s[j] == line[j];
    assert IsLineBreak(s[|line|]);
    assert FirstBreak(s).Some?;
    var i := FirstBreak(s).value;
    assert i == |line|;
    assert s[..i] == line && s[i + 2..] == rest;
  }

  /** The reader over the server's reply; `rest` is what has not been read. */
  class LineReader {
    var rest: string

    constructor (input: string)
      ensures rest == input
    {
      rest := input;
    }

    /** `readLine()`: `None` for Java's `null` at the end of the input. */
    method ReadLine() returns (line: Option<string>)
      modifies this`rest
      ensures SplitLine(old(rest)).None? ==> line == None && rest == old(rest)
      ensures SplitLine(old(rest)).Some? ==>
        line == Some(SplitLine(old(rest)).value.0) && rest == SplitLine(old(rest)).value.1
    {
      var split := SplitLine(rest);
      if split.Some? {
        line := Some(split.value.0);
        rest := split.value.1;
      } else {
        line := None;
      }
    }

    /** `read(buffer, off, len)`: up to `len` characters into the buffer
        from `off`, their number returned, or -1 at the end of the input.
        This reader hands over every character it has up to `len`. */
    method Read(buffer: array<char>, off: int, len: int) returns (count: int)
      requires 0 <= off && 0 <= len && off + len <= buffer.Length
      modifies this`rest, buffer
      ensures len > 0 && old(rest) == [] ==> count == -1 && rest == old(rest) && buffer[..] == old(buffer[..])
      ensures len == 0 || old(rest) != [] ==>
        && count == (if len <= |old(rest)| then len else |old(rest)|)
        && rest == old(rest)[count..]
        && buffer[..] == old(buffer[..off]) + old(rest)[..count] + old(buffer[off + count..])
    {
      if len > 0 && rest == [] {
        return -1;
      }
      count := if len <= |rest| then len else |rest|;
      forall i | off <= i < off + count {
        buffer[i] := rest[i - off];
      }
      rest := rest[count..];
    }

    /** The server writing `text` on the connection after what is still
        unread. */
    method Receive(text: string)
      modifies this`rest
      ensures rest == old(rest) + text
    {
      rest := rest + text;
    }

    /** `readText()`: everything left. */
    method ReadText() returns (text: string)
      modifies this`rest
      ensures text == old(rest) && rest == []
    {
      text := rest;
      rest := [];
    }

    /** `while (ready()) read()`: what the server has sent is consumed. */
    method Drain()
      modifies this`rest
      ensures rest == []
    {
      while rest != []
        decreases |rest|
      {
        rest := rest[1..];
      }
    }
  }
}
