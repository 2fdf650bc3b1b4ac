/**
  The delimited-record reader of ConsoleReader.cpp. The open file is the
  immutable sequence `content` together with a read position; what the
  program writes to standard output is the sequence a method returns.
 */
module ConsoleReader {
  import opened ArgumentParser

  /** The size of the `char buffer[]` each read fills. */
  const kBufferSize: nat := 1024

  function Min(a: int, b: int): int {
    if a < b then a else b
  }

  /** The number of occurrences of `d` in `s`. */
  function Count(s: seq<char>, d: char): (n: nat)
    ensures n <= |s|
  {
    if s == [] then 0 else (if s[0] == d then 1 else 0) + Count(s[1..], d)
  }

  lemma {:induction false} CountAppend(a: seq<char>, b: seq<char>, d: char)
    ensures Count(a + b, d) == Count(a, d) + Count(b, d)
  {
    if a == [] {
      assert a + b == b;
    } else {
      assert (a + b)[0] == a[0] && (a + b)[1..] == a[1..] + b;
      CountAppend(a[1..], b, d);
    }
  }

  // ---------------------------------------------------------------------------
  // Head read: ReadFileToStdout

  /**
    What the head read emits from `s` with a limit of `lines`: the
    characters of `s` in order, stopping in front of the first character
    met once `lines` delimiters have been emitted.
   */
  function Head(s: seq<char>, lines: nat, d: char): (r: seq<char>)
    ensures |r| <= |s|
  {
    if lines == 0 || s == [] then []
    else [s[0]] + Head(s[1..], if s[0] == d then lines - 1 else lines, d)
  }

  /** The head read emits a prefix of the file: its characters, in file order. */
  lemma {:induction false} HeadIsPrefix(s: seq<char>, lines: nat, d: char)
    ensures Head(s, lines, d) <= s
  {
    if lines > 0 && s != [] {
      HeadIsPrefix(s[1..], if s[0] == d then lines - 1 else lines, d);
    }
  }

  /**
    The head read emits nothing for a limit of 0, all of `s` when `s` holds
    fewer delimiters than the limit, and otherwise ends exactly with the
    `lines`-th delimiter, which it emits.
   */
  lemma {:induction false} HeadDelimiters(s: seq<char>, lines: nat, d: char)
    ensures lines == 0 ==> Head(s, lines, d) == []
    ensures Count(s, d) < lines ==> Head(s, lines, d) == s
    ensures 1 <= lines <= Count(s, d) ==>
      var r := Head(s, lines, d);
      |r| >= 1 && r[|r| - 1] == d && Count(r, d) == lines
  {
    if lines > 0 && s != [] {
      var rest := if s[0] == d then lines - 1 else lines;
      HeadDelimiters(s[1..], rest, d);
      var r := Head(s, lines, d);
      assert r[1..] == Head(s[1..], rest, d);
    }
  }

  /**
    With the unbounded default limit, the head read emits every character
    of any file shorter than that limit.
   */
  lemma HeadUnbounded(s: seq<char>, d: char)
    requires |s| < kDefaultLinesValue
    ensures Head(s, kDefaultLinesValue, d) == s
  {
    HeadDelimiters(s, kDefaultLinesValue, d);
  }

  lemma HeadStep(content: seq<char>, k: nat, n: nat, d: char)
    requires k < |content| && n >= 1
    ensures Head(content[k..], n, d)
         == [content[k]] + Head(content[k + 1..], if content[k] == d then n - 1 else n, d)
  {
    assert content[k..][1..] == content[k + 1..];
  }

  /**
    `file.read(buffer, count)` at read position `pos`, followed by
    `file.gcount()`: copies up to `count` characters of the file into the
    buffer and returns how many it copied.
   */
  method Read(content: seq<char>, pos: nat, buffer: array<char>, count: nat) returns (got: nat)
    requires pos <= |content| && count <= buffer.Length
    modifies buffer
    ensures got == Min(count, |content| - pos)
    ensures forall j :: 0 <= j < got ==> buffer[j] == content[pos + j]
    ensures forall j :: got <= j < buffer.Length ==> buffer[j] == old(buffer[j])
  {
    got := Min(count, |content| - pos);
    for k := 0 to got
      invariant forall j :: 0 <= j < k ==> buffer[j] == content[pos + j]
      invariant forall j :: k <= j < buffer.Length ==> buffer[j] == old(buffer[j])
    {
      buffer[k] := content[pos + k];
    }
  }

  /**
    The loop of ReadFileToStdout over one chunk `buffer[..bytesRead]`, read
    from position `pos`: emits characters while fewer than `lines`
    delimiters have been counted, and reports `done` when that count is
    reached before the chunk ends.
   */
  method EmitChunk(content: seq<char>, start: nat, pos: nat, buffer: array<char>, bytesRead: nat,
                   lines: nat, delimiter: char, counter0: nat, out0: seq<char>)
      returns (counter: nat, out: seq<char>, done: bool)
    requires start <= pos && pos + bytesRead <= |content| && bytesRead <= buffer.Length
    requires forall j :: 0 <= j < bytesRead ==> buffer[j] == content[pos + j]
    requires counter0 <= lines
    requires Head(content[start..], lines, delimiter) == out0 + Head(content[pos..], lines - counter0, delimiter)
    ensures counter <= lines
    ensures done ==> out == Head(content[start..], lines, delimiter)
    ensures !done ==>
      Head(content[start..], lines, delimiter) == out + Head(content[pos + bytesRead..], lines - counter, delimiter)
  {
    counter, out := counter0, out0;
    for i := 0 to bytesRead
      invariant counter <= lines
      invariant Head(content[start..], lines, delimiter)
             == out + Head(content[pos + i..], lines - counter, delimiter)
    {
      if counter >= lines {
        assert Head(content[pos + i..], lines - counter, delimiter) == [];
        return counter, out, true;
      }
      ghost var before := out;
      ghost var rest := lines - counter;
      var c := buffer[i];
      HeadStep(content, pos + i, rest, delimiter);
      if c == delimiter {
        counter := counter + 1;
      }
      ghost var after := Head(content[pos + i + 1..], lines - counter, delimiter);
      out := out + [c];
      assert before + ([c] + after) == out + after;
    }
    done := false;
  }

  /**
    ReadFileToStdout with the file positioned at `start`: reads the file in
    chunks of kBufferSize characters, keeping one delimiter counter across
    the chunks, and emits what Head prescribes for the rest of the file.
   */
  method ReadFileToStdout(content: seq<char>, start: nat, lines: nat, delimiter: char)
      returns (out: seq<char>)
    requires start <= |content|
    ensures out == Head(content[start..], lines, delimiter)
  {
    out := [];
    var counter: nat := 0;
    var buffer := new char[kBufferSize];
    var pos := start;
    var eof := false;
    while !eof
      invariant start <= pos <= |content|
      invariant eof ==> pos == |content|
      invariant counter <= lines
      invariant Head(content[start..], lines, delimiter)
             == out + Head(content[pos..], lines - counter, delimiter)
      decreases |content| - pos, if eof then 0 else 1
    {
      var bytesRead := Read(content, pos, buffer, kBufferSize);
      eof := bytesRead < kBufferSize;
      var done;
      counter, out, done := EmitChunk(content, start, pos, buffer, bytesRead, lines, delimiter, counter, out);
      if done {
        return;
      }
      pos := pos + bytesRead;
    }
  }

  // ---------------------------------------------------------------------------
  // Backward scan: FindDelimiter

  /**
    The position of the `n`-th delimiter of `s` counted from its end, or 0
    when `s` holds fewer than `n` delimiters.
   */
  function NthFromEnd(s: seq<char>, n: nat, d: char): (r: nat)
    requires n >= 1
    ensures r == 0 || r < |s|
  {
    if s == [] then 0
    else if s[|s| - 1] == d then
      if n == 1 then |s| - 1 else NthFromEnd(s[..|s| - 1], n - 1, d)
    else NthFromEnd(s[..|s| - 1], n, d)
  }

  /**
    The offset FindDelimiter returns. The scan starts one character before
    the end of the file, so the last character is never examined; a limit
    of 0 gives that starting position back.
   */
  function TailOffset(content: seq<char>, lines: nat, d: char): (r: nat)
    ensures r == 0 || r < |content|
  {
    if |content| == 0 then 0
    else if lines == 0 then |content| - 1
    else NthFromEnd(content[..|content| - 1], lines, d)
  }

  lemma {:induction false} NthFromEndSpec(s: seq<char>, n: nat, d: char)
    requires n >= 1
    ensures Count(s, d) < n ==> NthFromEnd(s, n, d) == 0
    ensures n <= Count(s, d) ==>
      var r := NthFromEnd(s, n, d);
      r < |s| && s[r] == d && Count(s[r..], d) == n
  {
    if s != [] {
      var m := |s| - 1;
      assert s[..m] + [s[m]] == s;
      CountAppend(s[..m], [s[m]], d);
      assert Count([s[m]], d) == if s[m] == d then 1 else 0;
      if s[m] == d && n == 1 {
        assert s[m..] == [s[m]];
      } else {
        var n' := if s[m] == d then n - 1 else n;
        NthFromEndSpec(s[..m], n', d);
        if n' <= Count(s[..m], d) {
          var r := NthFromEnd(s, n, d);
          assert s[r..] == s[..m][r..] + [s[m]];
          CountAppend(s[..m][r..], [s[m]], d);
        }
      }
    }
  }

  /**
    FindDelimiter's answer: within `[0, max(L-1, 0)]`; `L-1` for a limit of
    0; 0 when the characters before the last hold fewer than `lines`
    delimiters; and otherwise the position of the `lines`-th delimiter
    counted backward from position `L-2`, so that exactly `lines` delimiters
    lie in `[offset, L-1)`, the first of them at the offset itself.
   */
  lemma TailOffsetSpec(content: seq<char>, lines: nat, d: char)
    ensures |content| == 0 ==> TailOffset(content, lines, d) == 0
    ensures |content| >= 1 ==> TailOffset(content, lines, d) <= |content| - 1
    ensures |content| >= 1 && lines == 0 ==> TailOffset(content, lines, d) == |content| - 1
    ensures |content| >= 1 && 1 <= lines && Count(content[..|content| - 1], d) < lines ==>
      TailOffset(content, lines, d) == 0
    ensures |content| >= 1 && 1 <= lines <= Count(content[..|content| - 1], d) ==>
      var r := TailOffset(content, lines, d);
      content[r] == d && Count(content[r..|content| - 1], d) == lines
  {
    if |content| >= 1 && lines >= 1 {
      var s := content[..|content| - 1];
      NthFromEndSpec(s, lines, d);
      if lines <= Count(s, d) {
        var r := TailOffset(content, lines, d);
        assert s[r..] == content[r..|content| - 1];
      }
    }
  }

  /**
    The backward scan agrees with a forward count: the offset is where a
    scan from the start has passed all but `lines` of the delimiters that
    precede the last character.
   */
  lemma TailOffsetFromStart(content: seq<char>, lines: nat, d: char)
    requires |content| >= 1 && 1 <= lines <= Count(content[..|content| - 1], d)
    ensures Count(content[..TailOffset(content, lines, d)], d)
         == Count(content[..|content| - 1], d) - lines
  {
    TailOffsetSpec(content, lines, d);
    var r := TailOffset(content, lines, d);
    assert content[..|content| - 1] == content[..r] + content[r..|content| - 1];
    CountAppend(content[..r], content[r..|content| - 1], d);
  }

  /** Whatever the last character is, it never changes the offset. */
  lemma TailOffsetIgnoresLast(s: seq<char>, x: char, y: char, lines: nat, d: char)
    ensures TailOffset(s + [x], lines, d) == TailOffset(s + [y], lines, d)
  {
    assert (s + [x])[..|s|] == s == (s + [y])[..|s|];
  }

  /**
    FindDelimiter: from position L-1 backward, reads windows of
    `min(kBufferSize, fpos)` characters ending at `fpos`, counts delimiters
    from the end of each window to its start, and returns one past the
    position examined when the count had reached `lines`.
   */
  method FindDelimiter(content: seq<char>, lines: nat, delimiter: char) returns (offset: nat)
    ensures offset == TailOffset(content, lines, delimiter)
  {
    if |content| == 0 {
      // seekg(-1, end) fails on an empty file; the scan then compares
      // nothing and 0 is returned
      return 0;
    }
    var counter: nat := 0;
    var fpos: nat := |content| - 1;
    var buffer := new char[kBufferSize];
    var bytesToRead: nat := Min(kBufferSize, fpos);
    while bytesToRead != 0
      invariant fpos < |content| && bytesToRead == Min(kBufferSize, fpos)
      invariant counter <= lines
      invariant counter < lines ==>
        TailOffset(content, lines, delimiter) == NthFromEnd(content[..fpos], lines - counter, delimiter)
      invariant counter == lines ==> TailOffset(content, lines, delimiter) == fpos
      decreases fpos
    {
      var start := fpos - bytesToRead;
      var _ := Read(content, start, buffer, bytesToRead);
      for i := bytesToRead downto 0
        invariant counter <= lines
        invariant counter < lines ==>
          TailOffset(content, lines, delimiter)
          == NthFromEnd(content[..start + i], lines - counter, delimiter)
        invariant counter == lines ==> TailOffset(content, lines, delimiter) == start + i
      {
        if counter >= lines {
          return start + i + 1;
        }
        assert content[..start + i + 1][..start + i] == content[..start + i];
        if buffer[i] == delimiter {
          counter := counter + 1;
        }
      }
      fpos := start;
      bytesToRead := Min(kBufferSize, fpos);
    }
    return 0;
  }

  // ---------------------------------------------------------------------------
  // Dispatch: ReadFile

  /**
    ReadFile: in head mode the head read with the given limit and
    delimiter; in tail mode the head read, from FindDelimiter's offset, with
    the unbounded default limit and the default delimiter.
   */
  method ReadFile(content: seq<char>, lines: nat, tail: bool, delimiter: char)
      returns (out: seq<char>)
    ensures tail ==> out == Head(content[TailOffset(content, lines, delimiter)..],
                                 kDefaultLinesValue, kDefaultDelimiter)
    ensures !tail ==> out == Head(content, lines, delimiter)
  {
    if tail {
      var pos := FindDelimiter(content, lines, delimiter);
      out := ReadFileToStdout(content, pos, kDefaultLinesValue, kDefaultDelimiter);
      // tail mode ends the process here (exit(EXIT_SUCCESS))
    } else {
      assert content[0..] == content;
      out := ReadFileToStdout(content, 0, lines, delimiter);
    }
  }

  /**
    In tail mode the output is the whole suffix of the file from
    FindDelimiter's offset, for any file shorter than the unbounded limit.
   */
  lemma TailIsSuffix(content: seq<char>, lines: nat, d: char)
    requires |content| < kDefaultLinesValue
    ensures var r := TailOffset(content, lines, d);
      Head(content[r..], kDefaultLinesValue, kDefaultDelimiter) == content[r..]
  {
    var r := TailOffset(content, lines, d);
    HeadUnbounded(content[r..], kDefaultDelimiter);
  }

  /**
    In tail mode a limit of 0 does not give an empty output: the scan
    returns its starting position L-1 and the last character is emitted.
   */
  lemma TailWithZeroLines(content: seq<char>, d: char)
    requires 1 <= |content| < kDefaultLinesValue
    ensures Head(content[TailOffset(content, 0, d)..], kDefaultLinesValue, kDefaultDelimiter)
         == [content[|content| - 1]]
  {
    TailIsSuffix(content, 0, d);
    assert content[|content| - 1..] == [content[|content| - 1]];
  }

  /** The file "a,b,c,d,e" with delimiter ',' and limit 2: the head read emits "a,b,". */
  lemma CommaExampleHead()
    ensures Head("a,b,c,d,e", 2, ',') == "a,b,"
  {
    assert Head("c,d,e", 0, ',') == [];
    assert Head(",c,d,e", 1, ',') == ",";
    assert Head("b,c,d,e", 1, ',') == "b,";
    assert Head(",b,c,d,e", 2, ',') == ",b,";
  }

  /**
    The same file in tail mode: the backward scan counts the commas at 7 and
    5 and returns 5, the position of the second comma itself, so the tail
    read emits ",d,e".
   */
  lemma CommaExampleTail()
    ensures TailOffset("a,b,c,d,e", 2, ',') == 5
    ensures Head("a,b,c,d,e"[5..], kDefaultLinesValue, kDefaultDelimiter) == ",d,e"
  {
    var s := "a,b,c,d,e";
    assert s[..8] == "a,b,c,d,";
    assert NthFromEnd("a,b,c,", 1, ',') == 5;
    assert NthFromEnd("a,b,c,d", 1, ',') == 5;
    assert NthFromEnd("a,b,c,d,", 2, ',') == 5;
    TailIsSuffix(s, 2, ',');
  }

  /**
    A file without delimiters is emitted whole in both modes once the limit
    is at least 1: the head read never reaches the limit, and the backward
    scan finds too few delimiters and falls back to offset 0.
   */
  lemma WithoutDelimiters(content: seq<char>, lines: nat, d: char)
    requires Count(content, d) == 0 && 1 <= lines && |content| < kDefaultLinesValue
    ensures Head(content, lines, d) == content
    ensures Head(content[TailOffset(content, lines, d)..], kDefaultLinesValue, kDefaultDelimiter) == content
  {
    HeadDelimiters(content, lines, d);
    TailOffsetSpec(content, lines, d);
    if |content| >= 1 {
      assert content == content[..|content| - 1] + [content[|content| - 1]];
      CountAppend(content[..|content| - 1], [content[|content| - 1]], d);
    }
    TailIsSuffix(content, lines, d);
    assert content[0..] == content;
  }
}
