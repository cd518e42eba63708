/** The streaming split of a job's output into log lines. */
module JobLog {

  /** The pieces between line ends; a line end is a newline with a carriage return before it, if
      there is one. */
  function Split(s: string): (pieces: seq<string>)
    ensures pieces != []
  {
    if s == "" then [""]
    else if s[0] == '\n' then [""] + Split(s[1..])
    else if 2 <= |s| && s[0] == '\r' && s[1] == '\n' then [""] + Split(s[2..])
    else
      var rest := Split(s[1..]);
      [[s[0]] + rest[0]] + rest[1..]
  }

  function Init<T>(s: seq<T>): seq<T>
    requires s != []
  {
    s[..|s| - 1]
  }

  function Last<T>(s: seq<T>): T
    requires s != []
  {
    s[|s| - 1]
  }

  function NonEmpty(lines: seq<string>): (kept: seq<string>)
    ensures forall line :: line in kept <==> line in lines && line != ""
  {
    if lines == [] then []
    else (if lines[0] == "" then [] else [lines[0]]) + NonEmpty(lines[1..])
  }

  /** Complete lines, without the empty ones, and the unfinished rest. */
  function ProcessBuffer(data: string): (seq<string>, string) {
    (NonEmpty(Init(Split(data))), Last(Split(data)))
  }

  // ---------------------------------------------------------------------------- laws

  lemma {:induction false} NoNewlines(s: string)
    ensures forall piece :: piece in Split(s) ==> '\n' !in piece
    ensures |Split(s)| == 1 ==> Split(s)[0] == s
    ensures '\n' !in s ==> Split(s) == [s]
  {
    if s == "" {
    } else if s[0] == '\n' {
      NoNewlines(s[1..]);
    } else if 2 <= |s| && s[0] == '\r' && s[1] == '\n' {
      NoNewlines(s[2..]);
    } else {
      NoNewlines(s[1..]);
      assert s == [s[0]] + s[1..];
    }
  }

  /** A line without the carriage return that belongs to its line end. */
  function Stripped(line: string): (text: string)
    ensures text == line || text + "\r" == line
    ensures text == line <==> line == "" || line[|line| - 1] != '\r'
  {
    if line != "" && line[|line| - 1] == '\r' then line[..|line| - 1] else line
  }

  /** What the pieces are: the text before the first newline, without one carriage return at its end, and
      the pieces of what comes after it.  Together with NoNewlines this leaves no choice. */
  lemma {:induction false} SplitAtNewline(line: string, rest: string)
    requires '\n' !in line
    ensures Split(line + "\n" + rest) == [Stripped(line)] + Split(rest)
    decreases |line|
  {
    var s := line + "\n" + rest;
    if line == "" {
      assert s[1..] == rest;
    } else if line == "\r" {
      assert s[1] == '\n' && s[2..] == rest;
    } else {
      assert s[0] == line[0] && s[1..] == line[1..] + "\n" + rest;
      SplitAtNewline(line[1..], rest);
      StrippedTail(line);
    }
  }

  lemma {:induction false} StrippedTail(line: string)
    requires line != "" && line != "\r"
    ensures Stripped(line) == [line[0]] + Stripped(line[1..])
  {
  }

  ghost predicate Appends(x: string, y: string) {
    Split(x + y) == Init(Split(x)) + Split(Last(Split(x)) + y)
  }

  /** How many characters of x its first line end takes, if x begins with one. */
  function LineEnd(x: string): nat {
    if x != "" && x[0] == '\n' then 1 else if 2 <= |x| && x[0] == '\r' && x[1] == '\n' then 2 else 0
  }

  lemma {:induction false} SplitAtLineEnd(x: string)
    requires 0 < LineEnd(x)
    ensures Split(x) == [""] + Split(x[LineEnd(x)..])
  {
  }

  lemma {:induction false} WithEmptyFirst(pieces: seq<string>)
    requires pieces != []
    ensures Init([""] + pieces) == [""] + Init(pieces) && Last([""] + pieces) == Last(pieces)
  {
  }

  lemma {:induction false} EmptyFirstAppend(init: seq<string>, tail: seq<string>)
    ensures [""] + (init + tail) == ([""] + init) + tail
  {
  }

  lemma {:induction false} AppendsAfterLineEnd(x: string, y: string)
    requires 0 < LineEnd(x) && Appends(x[LineEnd(x)..], y)
    ensures Appends(x, y)
  {
    var n := LineEnd(x);
    assert LineEnd(x + y) == n && (x + y)[n..] == x[n..] + y;
    var pieces := Split(x[n..]);
    SplitAtLineEnd(x);
    SplitAtLineEnd(x + y);
    WithEmptyFirst(pieces);
    EmptyFirstAppend(Init(pieces), Split(Last(pieces) + y));
  }

  function OnFirst(c: char, pieces: seq<string>): seq<string>
    requires pieces != []
  {
    [[c] + pieces[0]] + pieces[1..]
  }

  lemma {:induction false} SplitAtChar(x: string)
    requires x != "" && LineEnd(x) == 0
    ensures Split(x) == OnFirst(x[0], Split(x[1..]))
  {
  }

  lemma {:induction false} OnFirstAppend(c: char, pieces: seq<string>, more: seq<string>)
    requires 1 < |pieces|
    ensures OnFirst(c, Init(pieces) + more) == Init(OnFirst(c, pieces)) + more
    ensures Last(OnFirst(c, pieces)) == Last(pieces)
  {
  }

  lemma {:induction false} AppendsAfterChar(x: string, y: string)
    requires x != "" && LineEnd(x) == 0 && 1 < |Split(x[1..])| && Appends(x[1..], y)
    ensures Appends(x, y)
  {
    assert x[1..] != "";
    assert (x + y)[1..] == x[1..] + y;
    SplitAtChar(x);
    SplitAtChar(x + y);
    OnFirstAppend(x[0], Split(x[1..]), Split(Last(Split(x[1..])) + y));
  }

  /** Only the last piece can change when more output comes. */
  lemma {:induction false} SplitAppend(x: string, y: string)
    ensures Appends(x, y)
    decreases |x|
  {
    NoNewlines(x);
    if |Split(x)| > 1 {
      if 0 < LineEnd(x) {
        SplitAppend(x[LineEnd(x)..], y);
        AppendsAfterLineEnd(x, y);
      } else {
        SplitAppend(x[1..], y);
        AppendsAfterChar(x, y);
      }
    }
  }

  lemma {:induction false} NonEmptyAppend(a: seq<string>, b: seq<string>)
    ensures NonEmpty(a + b) == NonEmpty(a) + NonEmpty(b)
  {
    if a == [] {
      assert a + b == b;
    } else {
      assert (a + b)[1..] == a[1..] + b;
      NonEmptyAppend(a[1..], b);
    }
  }

  lemma {:induction false} NonEmptyOfLast(lines: seq<string>)
    requires lines != []
    ensures NonEmpty(lines) == NonEmpty(Init(lines)) + if Last(lines) == "" then [] else [Last(lines)]
  {
    assert lines == Init(lines) + [Last(lines)];
    NonEmptyAppend(Init(lines), [Last(lines)]);
    assert [Last(lines)][1..] == [];
  }

  /** Processing more output, with the unfinished rest in front of it, continues the lines. */
  lemma {:induction false} ProcessMore(received: string, data: string)
    ensures var (lines, rest) := ProcessBuffer(received);
            var (more, newRest) := ProcessBuffer(rest + data);
            ProcessBuffer(received + data) == (lines + more, newRest)
  {
    SplitAppend(received, data);
    var head, tail := Init(Split(received)), Split(Last(Split(received)) + data);
    assert Init(head + tail) == head + Init(tail);
    NonEmptyAppend(head, Init(tail));
  }

  // ------------------------------------------------------------------------ the stream

  function Concat(chunks: seq<string>): string {
    if chunks == [] then "" else Concat(Init(chunks)) + Last(chunks)
  }

  /** Log and buffer after the given chunks have arrived one by one. */
  function Stream(chunks: seq<string>): (seq<string>, string) {
    if chunks == [] then ([], "")
    else
      var (logs, buffer) := Stream(Init(chunks));
      var (lines, rest) := ProcessBuffer(buffer + Last(chunks));
      (logs + lines, rest)
  }

  function FinalLogs(logs: seq<string>, buffer: string): seq<string> {
    if buffer != "" then logs + [buffer] else logs
  }

  /** However the output is cut into chunks, the log is that of the whole output. */
  lemma {:induction false} ChunkIndependent(chunks: seq<string>)
    ensures Stream(chunks) == ProcessBuffer(Concat(chunks))
  {
    if chunks != [] {
      ChunkIndependent(Init(chunks));
      ProcessMore(Concat(Init(chunks)), Last(chunks));
    }
  }

  /** The final log is the non-empty lines of the output, the last one included even if the output
      does not end in a line end. */
  lemma {:induction false} FinalLogIsAllLines(chunks: seq<string>)
    ensures var (logs, buffer) := Stream(chunks);
            FinalLogs(logs, buffer) == NonEmpty(Split(Concat(chunks)))
  {
    ChunkIndependent(chunks);
    NonEmptyOfLast(Split(Concat(chunks)));
  }

  /** The part of a job server's state that holds its output. */
  class OutputLog {
    var buffer: string
    var logs: seq<string>
    ghost var received: string

    ghost predicate Valid()
      reads this
    {
      (logs, buffer) == ProcessBuffer(received)
    }

    constructor ()
      ensures Valid() && received == ""
    {
      buffer, logs, received := "", [], "";
    }

    method HandleData(data: string)
      requires Valid()
      modifies this
      ensures Valid() && received == old(received) + data && old(logs) <= logs
    {
      var (lines, rest) := ProcessBuffer(buffer + data);
      ProcessMore(received, data);
      logs, buffer := logs + lines, rest;
      received := received + data;
    }

    method Finish() returns (final: seq<string>)
      requires Valid()
      ensures final == NonEmpty(Split(received))
    {
      final := if buffer != "" then logs + [buffer] else logs;
      FinalLogIsAllLines([received]);
      assert Init([received]) == [] && Concat([received]) == received;
      ChunkIndependent([received]);
    }
  }
}
