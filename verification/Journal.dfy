/** Rejoining a journal: a container line that the log driver split over several
    entries becomes one line again. */
module Journal {
  import opened Wrappers

  /** A decoded entry. Message is None when the entry or its message does not
      parse, stamp is None when its time does not. */
  datatype Entry = Entry(message: Option<string>, stamp: Option<int>, partial: bool) {
    function Text(): string {
      if message.Some? then message.value else []
    }
  }

  datatype Line = Line(stamp: Option<int>, text: string)

  // ---------- The runs of a journal ----------

  /** The runs of partial entries, each with the entry that closes it. */
  function Runs(entries: seq<Entry>): seq<seq<Entry>> {
    if entries == [] then []
    else
      var n := |entries| - 1;
      if entries[n].partial then Runs(entries[..n]) else Runs(entries[..n]) + [Tail(entries[..n]) + [entries[n]]]
  }

  /** The run that nothing closed. */
  function Tail(entries: seq<Entry>): seq<Entry> {
    if entries == [] then []
    else
      var n := |entries| - 1;
      if entries[n].partial then Tail(entries[..n]) + [entries[n]] else []
  }

  function Flat(runs: seq<seq<Entry>>): seq<Entry> {
    if runs == [] then [] else Flat(runs[..|runs| - 1]) + runs[|runs| - 1]
  }

  ghost predicate AllPartial(entries: seq<Entry>) {
    forall i :: 0 <= i < |entries| ==> entries[i].partial
  }

  ghost predicate IsRun(run: seq<Entry>) {
    run != [] && AllPartial(run[..|run| - 1]) && !run[|run| - 1].partial
  }

  /** The runs and the tail hold every entry once and in order, and each run ends
      with its only entry that is not partial. */
  lemma {:induction false} RunsAreExact(entries: seq<Entry>)
    ensures Flat(Runs(entries)) + Tail(entries) == entries
    ensures AllPartial(Tail(entries)) && forall i :: 0 <= i < |Runs(entries)| ==> IsRun(Runs(entries)[i])
  {
    if entries != [] {
      var n := |entries| - 1;
      var runs, tail := Runs(entries[..n]), Tail(entries[..n]);
      SplitsOne(entries);
      hide Runs, Tail;
      RunsAreExact(entries[..n]);
      FlatOfOneMore(runs, tail + [entries[n]]);
      hide Flat;
      assert entries == entries[..n] + [entries[n]];
      Regroup(Flat(runs), tail, [entries[n]]);
      assert (tail + [entries[n]])[..|tail|] == tail;
    }
  }

  lemma SplitsOne(entries: seq<Entry>)
    requires entries != []
    ensures var n := |entries| - 1;
            var run := Tail(entries[..n]) + [entries[n]];
            && Tail(entries) == (if entries[n].partial then run else [])
            && Runs(entries) == if entries[n].partial then Runs(entries[..n]) else Runs(entries[..n]) + [run]
  {
  }

  lemma Regroup<T>(a: seq<T>, b: seq<T>, c: seq<T>)
    ensures (a + b) + c == a + (b + c)
  {
  }

  lemma FlatOfOneMore(runs: seq<seq<Entry>>, run: seq<Entry>)
    ensures Flat(runs + [run]) == Flat(runs) + run
  {
    assert (runs + [run])[..|runs|] == runs;
  }

  lemma {:induction false} PartialsWait(base: seq<Entry>, tail: seq<Entry>)
    requires Tail(base) == [] && AllPartial(tail)
    ensures Runs(base + tail) == Runs(base) && Tail(base + tail) == tail
  {
    if tail == [] {
      assert base + tail == base;
    } else {
      var n := |tail| - 1;
      PartialsWait(base, tail[..n]);
      assert (base + tail)[..|base| + n] == base + tail[..n];
      assert tail == tail[..n] + [tail[n]];
    }
  }

  lemma RunCloses(base: seq<Entry>, run: seq<Entry>)
    requires Tail(base) == [] && IsRun(run)
    ensures Runs(base + run) == Runs(base) + [run] && Tail(base + run) == []
  {
    var n := |run| - 1;
    PartialsWait(base, run[..n]);
    assert (base + run)[..|base| + n] == base + run[..n];
    assert run == run[..n] + [run[n]];
  }

  /** They are the only split of a journal into runs and an open tail. */
  lemma {:induction false} RunsAreUnique(runs: seq<seq<Entry>>, tail: seq<Entry>)
    requires AllPartial(tail) && forall i :: 0 <= i < |runs| ==> IsRun(runs[i])
    ensures Runs(Flat(runs) + tail) == runs && Tail(Flat(runs) + tail) == tail
  {
    RunsOfFlat(runs);
    PartialsWait(Flat(runs), tail);
  }

  lemma {:induction false} RunsOfFlat(runs: seq<seq<Entry>>)
    requires forall i :: 0 <= i < |runs| ==> IsRun(runs[i])
    ensures Runs(Flat(runs)) == runs && Tail(Flat(runs)) == []
  {
    if runs != [] {
      var n := |runs| - 1;
      RunsOfFlat(runs[..n]);
      RunCloses(Flat(runs[..n]), runs[n]);
      assert runs == runs[..n] + [runs[n]];
    }
  }

  // ---------- The line of a run ----------

  function Text(run: seq<Entry>): string {
    if run == [] then [] else Text(run[..|run| - 1]) + run[|run| - 1].Text()
  }

  /** The entry whose stamp the line takes. The stamp is read again as long as
      nothing is pending, so it is the first entry with a text, or the last one
      of a run without any. */
  function Stamped(run: seq<Entry>): (i: nat)
    requires run != []
    ensures i < |run| && Text(run[..i]) == []
    ensures i + 1 < |run| ==> Text(run[..i + 1]) != []
  {
    var n := |run| - 1;
    if Text(run[..n]) == [] then assert run[..n + 1] == run; n
    else
      var i := Stamped(run[..n]);
      assert run[..n][..i] == run[..i];
      assert i + 1 < n ==> run[..n][..i + 1] == run[..i + 1];
      i
  }

  function LineOf(run: seq<Entry>): Line
    requires run != []
  {
    Line(run[Stamped(run)].stamp, Text(run))
  }

  /** A line carries the stamp of its first part, whatever the stamps are,
      exactly when the first part has a text or is the whole line. */
  lemma FirstPartStamps(run: seq<Entry>)
    requires run != []
    ensures Stamped(run) == 0 <==> run[0].Text() != [] || |run| == 1
  {
  }

  /** Such a line: an empty part at 1, and a text at 2, which stamps the line. */
  lemma EmptyPartLosesItsStamp()
    ensures var run := [Entry(Some(""), Some(1), true), Entry(Some("a"), Some(2), false)];
            && Runs(run) == [run] && run[0].stamp == Some(1)
            && ClosedLines(run) == [Line(Some(2), "a")]
  {
    var first, second := Entry(Some(""), Some(1), true), Entry(Some("a"), Some(2), false);
    var run := [first, second];
    assert IsRun(run) by { assert run[..1] == [first]; }
    RunCloses([], run);
    assert [] + run == run && Runs([]) + [run] == [run];
    TextOfTwo(run);
    assert Stamped(run) == 1;
    assert LineOf(run) == Line(Some(2), "a");
  }

  lemma TextOfTwo(run: seq<Entry>)
    requires |run| == 2
    ensures Text(run[..1]) == run[0].Text() && Text(run) == run[0].Text() + run[1].Text()
  {
    assert run[..1][..0] == [];
  }

  function LinesOf(runs: seq<seq<Entry>>): seq<Line>
    requires forall i :: 0 <= i < |runs| ==> runs[i] != []
  {
    seq(|runs|, i requires 0 <= i < |runs| => LineOf(runs[i]))
  }

  function AllText(lines: seq<Line>): string {
    if lines == [] then [] else AllText(lines[..|lines| - 1]) + lines[|lines| - 1].text
  }

  lemma {:induction false} TextJoins(a: seq<Entry>, b: seq<Entry>)
    ensures Text(a + b) == Text(a) + Text(b)
  {
    if b == [] {
      assert a + b == a;
    } else {
      var n := |b| - 1;
      TextOfLast(a + b);
      TextOfLast(b);
      hide Text;
      TextJoins(a, b[..n]);
      assert (a + b)[..|a| + n] == a + b[..n];
      Regroup(Text(a), Text(b[..n]), b[n].Text());
    }
  }

  lemma TextOfLast(run: seq<Entry>)
    requires run != []
    ensures Text(run) == Text(run[..|run| - 1]) + run[|run| - 1].Text()
  {
  }

  lemma {:induction false} RunsKeepText(runs: seq<seq<Entry>>)
    requires forall i :: 0 <= i < |runs| ==> runs[i] != []
    ensures AllText(LinesOf(runs)) == Text(Flat(runs))
  {
    if runs != [] {
      var n := |runs| - 1;
      RunsKeepText(runs[..n]);
      TextJoins(Flat(runs[..n]), runs[n]);
      assert LinesOf(runs)[..n] == LinesOf(runs[..n]);
    }
  }

  // ---------- Writing the journal ----------

  /** The closed lines of a journal. */
  function ClosedLines(entries: seq<Entry>): seq<Line> {
    RunsAreExact(entries);
    LinesOf(Runs(entries))
  }

  ghost predicate HasNoText(run: seq<Entry>) {
    forall i :: 0 <= i < |run| ==> run[i].Text() == []
  }

  /** The part that stamps a line: the first with a text, or else the last. */
  ghost predicate Stamps(run: seq<Entry>, j: nat) {
    j < |run| && HasNoText(run[..j]) && (run[j].Text() != [] || j == |run| - 1)
  }

  lemma {:induction false} EmptyText(run: seq<Entry>)
    ensures Text(run) == [] <==> HasNoText(run)
  {
    if run != [] {
      var n := |run| - 1;
      TextOfLast(run);
      hide Text, HasNoText;
      EmptyText(run[..n]);
      SplitsAtLast(run, n);
    }
  }

  lemma SplitsAtLast(run: seq<Entry>, n: nat)
    requires |run| == n + 1
    ensures HasNoText(run) <==> HasNoText(run[..n]) && run[n].Text() == []
  {
    hide Text;
    if HasNoText(run[..n]) && run[n].Text() == [] {
      forall i | 0 <= i < |run| ensures run[i].Text() == [] {
        if i < n { assert run[i] == run[..n][i]; }
      }
    }
  }

  lemma StampedStamps(run: seq<Entry>)
    requires run != []
    ensures Stamps(run, Stamped(run))
  {
    hide Text, Stamped, HasNoText;
    var j := Stamped(run);
    EmptyText(run[..j]);
    if j + 1 < |run| {
      EmptyText(run[..j + 1]);
      SplitsAtLast(run[..j + 1], j);
      assert run[..j + 1][..j] == run[..j];
    }
  }

  /** A journal of these runs and a tail has one closed line per run, with the
      text of all its parts and the stamp of the part that stamps it. */
  lemma LinesAreTheirRuns(runs: seq<seq<Entry>>, tail: seq<Entry>)
    requires AllPartial(tail) && forall i :: 0 <= i < |runs| ==> IsRun(runs[i])
    ensures var lines := ClosedLines(Flat(runs) + tail);
            && |lines| == |runs|
            && forall i :: 0 <= i < |runs| ==>
                 && lines[i].text == Text(runs[i])
                 && exists j: nat :: Stamps(runs[i], j) && lines[i].stamp == runs[i][j].stamp
  {
    hide Runs, Flat, Tail, Text, Stamped, HasNoText, LinesOf, LineOf, ClosedLines;
    RunsAreUnique(runs, tail);
    ClosedLinesAre(Flat(runs) + tail);
    assert ClosedLines(Flat(runs) + tail) == LinesOf(runs) && |LinesOf(runs)| == |runs|;
    forall i | 0 <= i < |runs|
      ensures LinesOf(runs)[i].text == Text(runs[i])
      ensures exists j: nat :: Stamps(runs[i], j) && LinesOf(runs)[i].stamp == runs[i][j].stamp
    {
      LineIsOf(runs, i);
      StampedStamps(runs[i]);
    }
  }

  lemma LineIsOf(runs: seq<seq<Entry>>, i: nat)
    requires i < |runs| && forall k :: 0 <= k < |runs| ==> runs[k] != []
    ensures LinesOf(runs)[i] == Line(runs[i][Stamped(runs[i])].stamp, Text(runs[i]))
  {
    hide Text, Stamped;
  }

  /** The writing stops at the entry k: its message or a stamp it needs does not
      parse, or the writer refuses the line it closes. */
  ghost predicate Stops(entries: seq<Entry>, k: nat, accepts: nat -> bool)
    requires k < |entries|
  {
    || entries[k].message.None?
    || (Text(Tail(entries[..k])) == [] && entries[k].stamp.None?)
    || (!entries[k].partial && !accepts(|Runs(entries[..k])|))
  }

  lemma NextEntry(entries: seq<Entry>, k: nat)
    requires k < |entries|
    ensures var done, next := entries[..k], entries[..k + 1];
            var run := Tail(done) + [entries[k]];
            && Text(run) == Text(Tail(done)) + entries[k].Text()
            && LineOf(run).stamp == (if Text(Tail(done)) == [] then entries[k].stamp else LineOf(Tail(done)).stamp)
            && Tail(next) == (if entries[k].partial then run else [])
            && ClosedLines(next) == (if entries[k].partial then ClosedLines(done)
               else ClosedLines(done) + [LineOf(run)])
            && |ClosedLines(done)| == |Runs(done)|
  {
    OneMorePart(Tail(entries[..k]), entries[k]);
    OneMoreEntry(entries, k);
    ClosedLinesAre(entries[..k]);
    ClosedLinesAre(entries[..k + 1]);
    hide Text, Tail, Runs, Stamped, LineOf, LinesOf, ClosedLines, AllPartial;
    if !entries[k].partial {
      LinesOfOneMore(Runs(entries[..k]), Tail(entries[..k]) + [entries[k]]);
    }
  }

  lemma ClosedLinesAre(entries: seq<Entry>)
    ensures forall i :: 0 <= i < |Runs(entries)| ==> Runs(entries)[i] != []
    ensures ClosedLines(entries) == LinesOf(Runs(entries)) && |ClosedLines(entries)| == |Runs(entries)|
  {
    RunsAreExact(entries);
    hide Runs, Flat, Tail, LineOf;
  }

  lemma LinesOfOneMore(runs: seq<seq<Entry>>, run: seq<Entry>)
    requires run != [] && forall i :: 0 <= i < |runs| ==> runs[i] != []
    ensures LinesOf(runs + [run]) == LinesOf(runs) + [LineOf(run)]
  {
    hide LineOf;
  }

  lemma OneMorePart(tail: seq<Entry>, entry: Entry)
    ensures Text(tail + [entry]) == Text(tail) + entry.Text()
    ensures LineOf(tail + [entry]).stamp == if Text(tail) == [] then entry.stamp else LineOf(tail).stamp
  {
    assert (tail + [entry])[..|tail|] == tail;
  }

  lemma OneMoreEntry(entries: seq<Entry>, k: nat)
    requires k < |entries|
    ensures var done, next, run := entries[..k], entries[..k + 1], Tail(entries[..k]) + [entries[k]];
            && Tail(next) == (if entries[k].partial then run else [])
            && Runs(next) == if entries[k].partial then Runs(done) else Runs(done) + [run]
  {
    assert entries[..k + 1][..k] == entries[..k];
  }

  /** Joins every run of entries into a line and counts the lines, until
      something fails. A journal cut off inside a run still gives its text. */
  method WriteJournal(entries: seq<Entry>, scanFails: bool, accepts: nat -> bool)
    returns (written: seq<Line>, lines: nat, failed: bool, ghost scanned: nat)
    ensures lines == |written|
    ensures scanned <= |entries|
    ensures forall j :: 0 <= j < scanned ==> !Stops(entries, j, accepts)
    ensures scanned < |entries| ==> Stops(entries, scanned, accepts)
    ensures var closed, tail := ClosedLines(entries[..scanned]), Tail(entries[..scanned]);
            if scanned < |entries| || scanFails then failed && written == closed
            else if Text(tail) == [] then !failed && written == closed
            else if accepts(|closed|) then !failed && written == closed + [LineOf(tail)]
            else failed && written == closed
  {
    hide Runs, Tail, Text, Stamped, LinesOf;
    written, lines := [], 0;
    var pending: string := [];
    var start: Option<int> := None;
    Nothing(entries);
    for k := 0 to |entries|
      invariant lines == |written|
      invariant forall j :: 0 <= j < k ==> !Stops(entries, j, accepts)
      invariant written == ClosedLines(entries[..k])
      invariant pending == Text(Tail(entries[..k]))
      invariant pending != [] ==> start == LineOf(Tail(entries[..k])).stamp
    {
      var entry := entries[k];
      NextEntry(entries, k);
      if entry.message.None? { return written, lines, true, k; }
      if |pending| == 0 {
        start := entry.stamp;
        if start.None? { return written, lines, true, k; }
      }
      pending := pending + entry.message.value;
      if !entry.partial {
        if !accepts(lines) { return written, lines, true, k; }
        written := written + [Line(start, pending)];
        pending := [];
        lines := lines + 1;
      }
    }
    scanned := |entries|;
    failed := scanFails;
    if !scanFails && |pending| > 0 {
      if accepts(lines) {
        written := written + [Line(start, pending)];
        lines := lines + 1;
      } else {
        failed := true;
      }
    }
  }

  lemma Nothing(entries: seq<Entry>)
    ensures ClosedLines(entries[..0]) == [] && Tail(entries[..0]) == [] && Text([]) == []
  {
  }

  /** No byte of a message is lost, repeated or moved. */
  lemma TextIsKept(entries: seq<Entry>)
    ensures AllText(ClosedLines(entries)) + Text(Tail(entries)) == Text(entries)
  {
    RunsAreExact(entries);
    RunsKeepText(Runs(entries));
    TextJoins(Flat(Runs(entries)), Tail(entries));
  }

  /** When every partial entry has a text, every line takes the stamp of its
      first part, and an unfinished run is never dropped. */
  lemma TextsStampLines(entries: seq<Entry>)
    requires forall i :: 0 <= i < |entries| && entries[i].partial ==> entries[i].Text() != []
    ensures forall i :: 0 <= i < |Runs(entries)| ==> Runs(entries)[i] != [] && Stamped(Runs(entries)[i]) == 0
    ensures Tail(entries) != [] ==> Stamped(Tail(entries)) == 0 && Text(Tail(entries)) != []
  {
  }
}
