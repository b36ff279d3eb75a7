/** Relaying a stream line by line behind a prefix, however the stream arrives. */
module LineOutput {

  const NEWLINE := '\n'
  const RETURN := '\r'

  // ---------- The lines of a stream ----------

  /** The place of the first newline, or -1. */
  function NewlineIn(stream: string): (at: int)
    ensures at == -1 ==> NEWLINE !in stream
    ensures at != -1 ==> 0 <= at < |stream| && stream[at] == NEWLINE && NEWLINE !in stream[..at]
  {
    if stream == [] then -1
    else if stream[0] == NEWLINE then 0
    else
      var at := NewlineIn(stream[1..]);
      if at == -1 then -1 else assert stream[..at + 1] == [stream[0]] + stream[1..][..at]; at + 1
  }

  /** The terminated lines of a stream, without their newlines. */
  function RawLines(stream: string): seq<string> {
    var at := NewlineIn(stream);
    if at == -1 then [] else [stream[..at]] + RawLines(stream[at + 1..])
  }

  /** What follows the last newline. */
  function Rest(stream: string): string {
    var at := NewlineIn(stream);
    if at == -1 then stream else Rest(stream[at + 1..])
  }

  function Unlines(lines: seq<string>): string {
    if lines == [] then [] else lines[0] + [NEWLINE] + Unlines(lines[1..])
  }

  ghost predicate IsLine(line: string) {
    NEWLINE !in line
  }

  lemma UnlinesStarts(line: string, lines: seq<string>)
    ensures Unlines([line] + lines) == line + [NEWLINE] + Unlines(lines)
  {
    assert ([line] + lines)[1..] == lines;
  }

  lemma Regroup(a: string, b: string, c: string)
    ensures (a + b) + c == a + (b + c)
  {
  }

  /** The split loses nothing. */
  lemma {:induction false} LinesRebuild(stream: string)
    ensures Unlines(RawLines(stream)) + Rest(stream) == stream
    ensures IsLine(Rest(stream)) && AreLines(RawLines(stream))
    decreases |stream|
  {
    hide Unlines, RawLines, Rest, IsLine;
    var at := NewlineIn(stream);
    CutAtFirst(stream);
    if at == -1 {
      NoLines();
    } else {
      var line, after := stream[..at], stream[at + 1..];
      LinesRebuild(after);
      UnlinesStarts(line, RawLines(after));
      Regroup(line + [NEWLINE], Unlines(RawLines(after)), Rest(after));
    }
  }

  lemma CutAtFirst(stream: string)
    ensures var at := NewlineIn(stream);
            if at == -1 then RawLines(stream) == [] && Rest(stream) == stream && IsLine(stream)
            else
              var line, after := stream[..at], stream[at + 1..];
              && RawLines(stream) == [line] + RawLines(after) && Rest(stream) == Rest(after)
              && IsLine(line) && stream == line + [NEWLINE] + after
  {
  }

  ghost predicate AreLines(lines: seq<string>) {
    forall i :: 0 <= i < |lines| ==> IsLine(lines[i])
  }

  lemma NoLines()
    ensures Unlines([]) == []
  {
  }

  lemma {:induction false} FirstNewline(line: string, after: string)
    requires IsLine(line)
    ensures NewlineIn(line + [NEWLINE] + after) == |line|
  {
    if line != [] {
      FirstNewline(line[1..], after);
      assert (line + [NEWLINE] + after)[1..] == line[1..] + [NEWLINE] + after;
    }
  }

  lemma SplitsAtFirst(line: string, after: string)
    requires IsLine(line)
    ensures var stream := line + [NEWLINE] + after;
            RawLines(stream) == [line] + RawLines(after) && Rest(stream) == Rest(after)
  {
    var stream := line + [NEWLINE] + after;
    FirstNewline(line, after);
    assert stream[|line| + 1..] == after && stream[..|line|] == line;
  }

  /** It is the only split into lines and a rest that hold no newline. */
  lemma {:induction false} LinesAreUnique(lines: seq<string>, rest: string)
    requires IsLine(rest) && AreLines(lines)
    ensures RawLines(Unlines(lines) + rest) == lines && Rest(Unlines(lines) + rest) == rest
  {
    if lines == [] {
      assert Unlines(lines) + rest == rest;
      assert NewlineIn(rest) == -1;
    } else {
      hide RawLines, Rest;
      var line, after := lines[0], Unlines(lines[1..]);
      LinesAreUnique(lines[1..], rest);
      SplitsAtFirst(line, after + rest);
      Regroup(line + [NEWLINE], after, rest);
      assert lines == [line] + lines[1..];
    }
  }

  /** A stream may be cut anywhere: the rest of the first part goes before the
      second. */
  lemma LinesOfTwoParts(a: string, b: string)
    ensures RawLines(a + b) == RawLines(a) + RawLines(Rest(a) + b)
    ensures Rest(a + b) == Rest(Rest(a) + b)
  {
    hide RawLines, Rest, Unlines, IsLine;
    var second := Rest(a) + b;
    LinesRebuild(a);
    LinesRebuild(second);
    UnlinesJoins(RawLines(a), RawLines(second));
    LinesAreUnique(RawLines(a) + RawLines(second), Rest(second));
    Regroup(Unlines(RawLines(a)), Rest(a), b);
    Regroup(Unlines(RawLines(a)), Unlines(RawLines(second)), Rest(second));
  }

  lemma {:induction false} UnlinesJoins(a: seq<string>, b: seq<string>)
    ensures Unlines(a + b) == Unlines(a) + Unlines(b)
  {
    if a == [] {
      assert a + b == b;
      NoLines();
    } else {
      UnlinesJoins(a[1..], b);
      assert a + b == [a[0]] + (a[1..] + b) && a == [a[0]] + a[1..];
      UnlinesStarts(a[0], a[1..] + b);
      UnlinesStarts(a[0], a[1..]);
      hide Unlines;
      Regroup(a[0] + [NEWLINE], Unlines(a[1..]), Unlines(b));
    }
  }

  /** Without the carriage returns at its end. */
  function Trimmed(line: string): (trimmed: string)
    ensures trimmed <= line
    ensures trimmed == [] || trimmed[|trimmed| - 1] != RETURN
    ensures forall i :: |trimmed| <= i < |line| ==> line[i] == RETURN
  {
    if line != [] && line[|line| - 1] == RETURN then Trimmed(line[..|line| - 1]) else line
  }

  /** The lines as they are printed. */
  function Printed(lead: string, lines: seq<string>): seq<string> {
    seq(|lines|, i requires 0 <= i < |lines| => lead + Trimmed(lines[i]))
  }

  // ---------- The writer ----------

  class Output {
    var lines: seq<string>

    constructor ()
      ensures lines == []
    {
      lines := [];
    }

    /** Prints one whole line under the lock. */
    method Print(line: string)
      modifies this
      ensures lines == old(lines) + [line]
    {
      lines := lines + [line];
    }
  }

  class PrefixWriter {
    const out: Output
    const lead: string
    var pending: string

    constructor (out: Output, lead: string)
      ensures this.out == out && this.lead == lead && pending == []
    {
      this.out, this.lead, pending := out, lead, [];
    }

    /** Prints every line that data completes. Between writes nothing pending
        holds a newline. */
    method Write(data: string) returns (written: nat)
      requires IsLine(pending)
      modifies this`pending, out
      ensures written == |data|
      ensures pending == Rest(old(pending) + data) && IsLine(pending)
      ensures out.lines == old(out.lines) + Printed(lead, RawLines(old(pending) + data))
    {
      hide Trimmed;
      pending := pending + data;
      ghost var stream := pending;
      while true
        invariant out.lines + Printed(lead, RawLines(pending)) == old(out.lines) + Printed(lead, RawLines(stream))
        invariant Rest(pending) == Rest(stream)
        decreases |pending|
      {
        var newline := NewlineIn(pending);
        if newline < 0 {
          return |data|;
        }
        var line := Trimmed(pending[..newline]);
        ghost var was := pending;
        pending := pending[newline + 1..];
        out.Print(lead + line);
        assert RawLines(was) == [was[..newline]] + RawLines(pending);
        assert Printed(lead, RawLines(was)) == [lead + line] + Printed(lead, RawLines(pending));
      }
    }

    /** Prints what is pending as it is. A second flush prints nothing. */
    method Flush()
      modifies this`pending, out
      ensures pending == []
      ensures out.lines == old(out.lines) + if old(pending) == [] then [] else [lead + old(pending)]
    {
      if |pending| > 0 {
        out.Print(lead + pending);
        pending := [];
      }
    }
  }

  // ---------- Chunking ----------

  function Joined(chunks: seq<string>): string {
    if chunks == [] then [] else Joined(chunks[..|chunks| - 1]) + chunks[|chunks| - 1]
  }

  /** The lines of a whole stream that is flushed at its end. */
  function FlushedLines(lead: string, stream: string): seq<string> {
    Printed(lead, RawLines(stream)) + if Rest(stream) == [] then [] else [lead + Rest(stream)]
  }

  /** The text is the line without the carriage returns at its end. */
  ghost predicate IsTrimming(line: string, text: string) {
    && text <= line
    && (forall i :: |text| <= i < |line| ==> line[i] == RETURN)
    && (text == [] || text[|text| - 1] != RETURN)
  }

  /** Every terminated line is printed once and in order, as the lead and then
      the line trimmed, and an unterminated rest as the lead and then the rest. */
  lemma PrintedIsExact(lead: string, lines: seq<string>, rest: string)
    requires AreLines(lines) && IsLine(rest)
    ensures var printed := FlushedLines(lead, Unlines(lines) + rest);
            && |printed| == |lines| + (if rest == [] then 0 else 1)
            && (forall i :: 0 <= i < |lines| ==> lead <= printed[i] && IsTrimming(lines[i], printed[i][|lead|..]))
            && (rest != [] ==> printed[|lines|] == lead + rest)
  {
    hide RawLines, Rest, Unlines, Trimmed, IsTrimming;
    LinesAreUnique(lines, rest);
    forall i | 0 <= i < |lines|
      ensures lead <= lead + Trimmed(lines[i]) && IsTrimming(lines[i], (lead + Trimmed(lines[i]))[|lead|..])
    {
      TrimmedIsExact(lines[i]);
      assert (lead + Trimmed(lines[i]))[|lead|..] == Trimmed(lines[i]);
    }
  }

  lemma TrimmedIsExact(line: string)
    ensures IsTrimming(line, Trimmed(line))
  {
  }

  /** The stream is the chunks one after the other. */
  lemma {:induction false} JoinedInOrder(a: seq<string>, b: seq<string>, chunk: string)
    ensures Joined([chunk]) == chunk && Joined(a + b) == Joined(a) + Joined(b)
  {
    assert Joined([chunk]) == Joined([]) + chunk;
    if b == [] {
      assert a + b == a;
    } else {
      var n := |b| - 1;
      JoinedInOrder(a, b[..n], chunk);
      assert (a + b)[..|a| + n] == a + b[..n];
      Regroup(Joined(a), Joined(b[..n]), b[n]);
    }
  }

  lemma NextChunk(lead: string, chunks: seq<string>, k: nat)
    requires k < |chunks|
    ensures var done, next := Joined(chunks[..k]), Joined(chunks[..k + 1]);
            && Rest(Rest(done) + chunks[k]) == Rest(next)
            && Printed(lead, RawLines(done)) + Printed(lead, RawLines(Rest(done) + chunks[k]))
               == Printed(lead, RawLines(next))
  {
    hide Trimmed;
    assert chunks[..k + 1][..k] == chunks[..k];
    LinesOfTwoParts(Joined(chunks[..k]), chunks[k]);
  }

  /** However a stream is cut into writes, it prints the lines of the stream. */
  method Relay(out: Output, lead: string, chunks: seq<string>)
    modifies out
    ensures out.lines == old(out.lines) + FlushedLines(lead, Joined(chunks))
  {
    hide RawLines, Rest, Printed;
    var writer := new PrefixWriter(out, lead);
    NoChunks(lead, chunks);
    for k := 0 to |chunks|
      invariant writer.out == out && writer.lead == lead && fresh(writer)
      invariant writer.pending == Rest(Joined(chunks[..k])) && IsLine(writer.pending)
      invariant out.lines == old(out.lines) + Printed(lead, RawLines(Joined(chunks[..k])))
    {
      var _ := writer.Write(chunks[k]);
      NextChunk(lead, chunks, k);
    }
    assert chunks[..|chunks|] == chunks;
    writer.Flush();
    ghost var lines := out.lines;
    writer.Flush();
    assert out.lines == lines;
  }

  lemma NoChunks(lead: string, chunks: seq<string>)
    ensures Rest(Joined(chunks[..0])) == [] && Printed(lead, RawLines(Joined(chunks[..0]))) == []
  {
  }
}
