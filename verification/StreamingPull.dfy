/** The streaming model pull: a reader of newline-delimited JSON that arrives in chunks
    (src/model/swap.ts) and the progress record it drives (src/model/pull-tracker.ts). */
module StreamingPull {
  import opened Prelude

  datatype Progress = Progress(model: string, status: string, progressPct: int, completed: real, total: real,
                               startedAtMs: int, error: Option<string>)

  /** What JSON.parse makes of a line, as far as it is looked at; None if it throws or gives null. */
  datatype Parsed = Parsed(status: Option<string>, completed: Option<real>, total: Option<real>, error: Option<string>)

  datatype Reader = Reader(blank: string -> bool, parse: string -> Option<Parsed>)

  function OrZero(o: Option<real>): real {
    if o.Some? then o.value else 0.0
  }

  predicate Given(o: Option<string>) {
    o.Some? && o.value != ""
  }

  // ---------------------------------------------------------------- the tracker

  function Started(model: string, now: int): Progress {
    Progress(model, "pulling", 0, 0.0, 0.0, now, None)
  }

  function Updated(t: Option<Progress>, status: string, completed: real, total: real): Option<Progress> {
    if t.None? then None
    else Some(t.value.(status := status, completed := completed, total := total,
                       progressPct := if total > 0.0 then (completed / total * 100.0 + 0.5).Floor else 0))
  }

  function Failed(t: Option<Progress>, error: string): Option<Progress> {
    if t.None? then None else Some(t.value.(status := "error", error := Some(error)))
  }

  /** The whole percentage nearest to completed / total, the larger one on a tie, or 0. */
  predicate IsPercentage(pct: int, completed: real, total: real) {
    if total > 0.0 then pct as real - 0.5 <= 100.0 * (completed / total) < pct as real + 0.5 else pct == 0
  }

  class PullTracker {
    var current: Option<Progress>

    constructor ()
      ensures current == None
    {
      current := None;
    }

    method StartPull(model: string, now: int)
      modifies this
      ensures current == Some(Started(model, now)) == Some(Progress(model, "pulling", 0, 0.0, 0.0, now, None))
    {
      current := Some(Progress(model, "pulling", 0, 0.0, 0.0, now, None));
    }

    method UpdateProgress(status: string, completed: real, total: real)
      modifies this
      ensures current == Updated(old(current), status, completed, total)
      ensures current.Some? <==> old(current).Some?
      ensures current.Some? ==>
                && current.value == old(current.value).(status := status, completed := completed, total := total,
                                                        progressPct := current.value.progressPct)
                && IsPercentage(current.value.progressPct, completed, total)
    {
      if current.None? {
        return;
      }
      var pct := if total > 0.0 then (completed / total * 100.0 + 0.5).Floor else 0;
      current := Some(current.value.(status := status, completed := completed, total := total, progressPct := pct));
    }

    method CompletePull()
      modifies this
      ensures current == None
    {
      current := None;
    }

    method FailPull(error: string)
      modifies this
      ensures current == Failed(old(current), error)
      ensures current == if old(current) == None then None
                         else Some(old(current.value).(status := "error", error := Some(error)))
    {
      if current.Some? {
        current := Some(current.value.(status := "error", error := Some(error)));
      }
    }
  }

  // ---------------------------------------------------------------- splitting text into lines

  /** JavaScript's split on newline: always at least one piece. */
  function Split(s: string): (pieces: seq<string>)
    ensures |pieces| > 0
  {
    if s == "" then [""]
    else
      var pieces := Split(s[..|s| - 1]);
      if s[|s| - 1] == '\n' then pieces + [""]
      else pieces[..|pieces| - 1] + [pieces[|pieces| - 1] + [s[|s| - 1]]]
  }

  /** The newline-terminated lines of a text, and what follows the last newline. */
  function Lines(s: string): seq<string> {
    Split(s)[..|Split(s)| - 1]
  }

  function Tail(s: string): string {
    Split(s)[|Split(s)| - 1]
  }

  function Unsplit(lines: seq<string>, tail: string): string {
    if lines == [] then tail else lines[0] + ['\n'] + Unsplit(lines[1..], tail)
  }

  /** One more character: a newline closes the tail, any other extends it. */
  lemma PushChar(s: string, c: char)
    ensures Lines(s + [c]) == (if c == '\n' then Lines(s) + [Tail(s)] else Lines(s))
    ensures Tail(s + [c]) == (if c == '\n' then "" else Tail(s) + [c])
  {
    assert (s + [c])[..|s|] == s;
    assert Split(s) == Lines(s) + [Tail(s)];
  }

  lemma SplitContinuesByChar(a: string, b: string, c: char)
    requires Lines(a + b) == Lines(a) + Lines(Tail(a) + b) && Tail(a + b) == Tail(Tail(a) + b)
    ensures Lines(a + (b + [c])) == Lines(a) + Lines(Tail(a) + (b + [c]))
    ensures Tail(a + (b + [c])) == Tail(Tail(a) + (b + [c]))
  {
    hide Lines, Tail;
    assert a + (b + [c]) == (a + b) + [c] && Tail(a) + (b + [c]) == (Tail(a) + b) + [c];
    PushChar(a + b, c);
    PushChar(Tail(a) + b, c);
    var x, y, z := Lines(a), Lines(Tail(a) + b), Tail(Tail(a) + b);
    assert (x + y) + [z] == x + (y + [z]);
  }

  /** Splitting a continued text is splitting the continued tail. */
  lemma {:induction false} SplitContinues(a: string, b: string)
    ensures Lines(a + b) == Lines(a) + Lines(Tail(a) + b)
    ensures Tail(a + b) == Tail(Tail(a) + b)
  {
    hide Lines, Tail;
    if b == "" {
      TailHasNoNewline(a);
      NewlineFree(Tail(a));
      assert a + b == a && Tail(a) + b == Tail(a);
    } else {
      var n := |b| - 1;
      assert b == b[..n] + [b[n]];
      SplitContinues(a, b[..n]);
      SplitContinuesByChar(a, b[..n], b[n]);
    }
  }

  lemma {:induction false} NewlineFree(s: string)
    requires '\n' !in s
    ensures Lines(s) == [] && Tail(s) == s
  {
    if s != "" {
      var n := |s| - 1;
      assert s == s[..n] + [s[n]];
      NewlineFree(s[..n]);
      PushChar(s[..n], s[n]);
    }
  }

  lemma {:induction false} TailHasNoNewline(s: string)
    ensures '\n' !in Tail(s)
  {
    if s != "" {
      var n := |s| - 1;
      assert s == s[..n] + [s[n]];
      TailHasNoNewline(s[..n]);
      PushChar(s[..n], s[n]);
    }
  }

  /** The pieces put back together are the text, and no piece contains a newline; so the tail
      is exactly the text after the last newline. */
  lemma {:induction false} SplitIsExact(s: string)
    ensures Unsplit(Lines(s), Tail(s)) == s
    ensures '\n' !in Tail(s) && forall i :: 0 <= i < |Lines(s)| ==> '\n' !in Lines(s)[i]
  {
    TailHasNoNewline(s);
    if s != "" {
      var n := |s| - 1;
      assert s == s[..n] + [s[n]];
      SplitIsExact(s[..n]);
      PushChar(s[..n], s[n]);
      UnsplitPush(Lines(s[..n]), Tail(s[..n]), s[n]);
    }
  }

  lemma {:induction false} UnsplitPush(lines: seq<string>, tail: string, c: char)
    ensures Unsplit(lines, tail + [c]) == Unsplit(lines, tail) + [c]
    ensures Unsplit(lines + [tail], "") == Unsplit(lines, tail) + ['\n']
  {
    if lines == [] {
      assert lines + [tail] == [tail];
    } else {
      UnsplitPush(lines[1..], tail, c);
      assert (lines + [tail])[1..] == lines[1..] + [tail];
      AssocPush(lines[0], ['\n'], Unsplit(lines[1..], tail), [c]);
      AssocPush(lines[0], ['\n'], Unsplit(lines[1..], tail), ['\n']);
    }
  }

  lemma AssocPush(a: string, b: string, c: string, d: string)
    ensures a + b + (c + d) == a + b + c + d
  {
  }

  // ---------------------------------------------------------------- the meaning of a pull

  /** The tracker after some lines, whether an error line ended the pull, and the lines read. */
  datatype Outcome = Outcome(tracker: Option<Progress>, stopped: bool, read: seq<string>)

  function ReadLine(r: Reader, o: Outcome, line: string): Outcome {
    var next := o.(read := o.read + [line]);
    if r.blank(line) || r.parse(line).None? then next
    else
      var parsed := r.parse(line).value;
      if Given(parsed.error) then next.(tracker := Failed(o.tracker, parsed.error.value), stopped := true)
      else if Given(parsed.status) then
        next.(tracker := Updated(o.tracker, parsed.status.value, OrZero(parsed.completed), OrZero(parsed.total)))
      else next
  }

  /** A fold over lines that stops at the first error line. */
  function ReadLines(r: Reader, o: Outcome, lines: seq<string>): Outcome {
    if lines == [] then o
    else
      var before := ReadLines(r, o, lines[..|lines| - 1]);
      if before.stopped then before else ReadLine(r, before, lines[|lines| - 1])
  }

  lemma {:induction false} ReadLinesConcat(r: Reader, o: Outcome, x: seq<string>, y: seq<string>)
    ensures ReadLines(r, o, x + y) == ReadLines(r, ReadLines(r, o, x), y)
    decreases |y|
  {
    if y == [] {
      assert x + y == x;
    } else {
      var n := |y| - 1;
      ReadLinesConcat(r, o, x, y[..n]);
      assert (x + y)[..|x + y| - 1] == x + y[..n];
    }
  }

  lemma {:induction false} StoppedStays(r: Reader, o: Outcome, lines: seq<string>)
    requires o.stopped
    ensures ReadLines(r, o, lines) == o
  {
    if lines != [] {
      StoppedStays(r, o, lines[..|lines| - 1]);
    }
  }

  datatype Ending = Done | Interrupted

  /** The result of a pull, as a function of the whole decoded text. */
  function Pulled(r: Reader, t: Option<Progress>, text: string, ending: Ending): Outcome {
    var o := ReadLines(r, Outcome(t, false, []), Lines(text));
    if o.stopped then o
    else if ending.Done? then o.(tracker := None)
    else o.(tracker := Failed(o.tracker, "stream_interrupted"))
  }

  /** A line that reports an error. */
  function ErrorLine(r: Reader): string -> bool {
    (line: string) =>
      !r.blank(line) && r.parse(line).Some? && r.parse(line).value.error.Some? && r.parse(line).value.error != Some("")
  }

  /** What a line with a status says. */
  function StatusOf(r: Reader, line: string): Option<Parsed> {
    var parsed := r.parse(line);
    if !r.blank(line) && parsed.Some? && parsed.value.status.Some? && parsed.value.status != Some("") then parsed
    else None
  }

  /** What the last line with a status says, if there is one. */
  function LastStatus(r: Reader, lines: seq<string>): Option<Parsed> {
    if lines == [] then None
    else if StatusOf(r, lines[|lines| - 1]).Some? then StatusOf(r, lines[|lines| - 1])
    else LastStatus(r, lines[..|lines| - 1])
  }

  /** The record that started as `t` shows the amounts that `last` gives. */
  ghost predicate ShowsAmounts(p: Progress, t: Progress, last: Option<Parsed>) {
    && p.model == t.model && p.startedAtMs == t.startedAtMs
    && if last.None? then p.completed == t.completed && p.total == t.total && p.progressPct == t.progressPct
       else && p.completed == (if last.value.completed == None then 0.0 else last.value.completed.value)
            && p.total == (if last.value.total == None then 0.0 else last.value.total.value)
            && IsPercentage(p.progressPct, p.completed, p.total)
  }

  /** The lines were all read, and the record shows the last status. */
  ghost predicate Shows(o: Outcome, t: Progress, lines: seq<string>, last: Option<Parsed>) {
    && !o.stopped && o.read == lines && o.tracker.Some? && o.tracker.value.error == t.error
    && ShowsAmounts(o.tracker.value, t, last)
    && Some(o.tracker.value.status) == if last.Some? then last.value.status else Some(t.status)
  }

  lemma NearestPercentage(completed: real, total: real)
    ensures IsPercentage(if total > 0.0 then (completed / total * 100.0 + 0.5).Floor else 0, completed, total)
  {
    if total > 0.0 {
      var x := completed / total;
      assert x * 100.0 == 100.0 * x;
    }
  }

  lemma LineShows(r: Reader, t: Progress, o: Outcome, lines: seq<string>, last: Option<Parsed>, line: string)
    requires Shows(o, t, lines, last) && !ErrorLine(r)(line)
    ensures Shows(ReadLine(r, o, line), t, lines + [line], if StatusOf(r, line).Some? then StatusOf(r, line) else last)
  {
    if StatusOf(r, line).Some? {
      var parsed := StatusOf(r, line).value;
      NearestPercentage(OrZero(parsed.completed), OrZero(parsed.total));
      hide IsPercentage;
    }
  }

  lemma NothingRead(t: Progress)
    ensures Shows(Outcome(Some(t), false, []), t, [], None)
  {
  }

  lemma StillReading(o: Outcome, t: Progress, lines: seq<string>, last: Option<Parsed>)
    requires Shows(o, t, lines, last)
    ensures !o.stopped && o.read == lines
  {
  }

  /** As long as no line reports an error, every line is read and the record shows the last line
      with a status. */
  lemma {:induction false} LinesShow(r: Reader, t: Progress, lines: seq<string>)
    requires First(lines, ErrorLine(r)) == |lines|
    ensures Shows(ReadLines(r, Outcome(Some(t), false, []), lines), t, lines, LastStatus(r, lines))
  {
    hide ReadLine, StatusOf, Shows, First, ErrorLine;
    if lines == [] {
      NothingRead(t);
    } else {
      var n, start := |lines| - 1, Outcome(Some(t), false, []);
      assert !ErrorLine(r)(lines[n]);
      NoErrorBefore(r, lines, n);
      LinesShow(r, t, lines[..n]);
      var before := ReadLines(r, start, lines[..n]);
      StillReading(before, t, lines[..n], LastStatus(r, lines[..n]));
      LineShows(r, t, before, lines[..n], LastStatus(r, lines[..n]), lines[n]);
      assert lines == lines[..n] + [lines[n]];
    }
  }

  lemma NoErrorBefore(r: Reader, lines: seq<string>, n: nat)
    requires n <= |lines| && n <= First(lines, ErrorLine(r))
    ensures First(lines[..n], ErrorLine(r)) == n
  {
    assert forall i :: 0 <= i < n ==> lines[..n][i] == lines[i];
  }

  /** The record shows an error behind the amounts of the last status. */
  ghost predicate ShowsError(p: Option<Progress>, t: Progress, last: Option<Parsed>, error: Option<string>) {
    p.Some? && ShowsAmounts(p.value, t, last) && p.value.status == "error" && p.value.error == error
  }

  lemma ErrorShows(r: Reader, t: Progress, o: Outcome, lines: seq<string>, last: Option<Parsed>, line: string)
    requires Shows(o, t, lines, last)
    ensures ShowsError(Failed(o.tracker, "stream_interrupted"), t, last, Some("stream_interrupted"))
    ensures ErrorLine(r)(line) ==>
              var after := ReadLine(r, o, line);
              && after.stopped && after.read == lines + [line]
              && ShowsError(after.tracker, t, last, r.parse(line).value.error)
  {
    hide IsPercentage;
  }

  /** What a pull means, from its lines alone: lines are read up to the first that reports an
      error; the record then shows that error, or that the stream was interrupted, behind the
      amounts of the last line with a status; and it is cleared when the stream ends well. */
  lemma PullExactly(r: Reader, t: Progress, text: string, ending: Ending)
    ensures var lines, o := Lines(text), Pulled(r, Some(t), text, ending);
            var e := First(lines, ErrorLine(r));
            var last := LastStatus(r, lines[..e]);
            if e < |lines| then
              o.read == lines[..e + 1] && ErrorLine(r)(lines[e])
              && ShowsError(o.tracker, t, last, r.parse(lines[e]).value.error)
            else
              o.read == lines
              && if ending.Done? then o.tracker == None
                 else ShowsError(o.tracker, t, last, Some("stream_interrupted"))
  {
    hide Lines, First, Shows, ShowsError, ReadLines, ReadLine, LastStatus, Failed;
    var lines, start := Lines(text), Outcome(Some(t), false, []);
    var e := First(lines, ErrorLine(r));
    NoErrorBefore(r, lines, e);
    LinesShow(r, t, lines[..e]);
    var before, last := ReadLines(r, start, lines[..e]), LastStatus(r, lines[..e]);
    StillReading(before, t, lines[..e], last);
    ErrorShows(r, t, before, lines[..e], last, if e < |lines| then lines[e] else "");
    if e < |lines| {
      StopsAtError(r, start, lines, e);
      assert lines[..e + 1] == lines[..e] + [lines[e]];
    } else {
      assert lines[..e] == lines;
    }
  }

  lemma StopsAtError(r: Reader, start: Outcome, lines: seq<string>, e: nat)
    requires e < |lines| && ErrorLine(r)(lines[e]) && !ReadLines(r, start, lines[..e]).stopped
    ensures ReadLines(r, start, lines) == ReadLine(r, ReadLines(r, start, lines[..e]), lines[e])
  {
    hide ReadLine;
    var upTo, rest := lines[..e + 1], lines[e + 1..];
    assert lines == upTo + rest && upTo[..e] == lines[..e];
    ReadLinesConcat(r, start, upTo, rest);
    ErrorStops(r, ReadLines(r, start, lines[..e]), lines[e]);
    StoppedStays(r, ReadLines(r, start, upTo), rest);
  }

  lemma ErrorStops(r: Reader, o: Outcome, line: string)
    requires ErrorLine(r)(line)
    ensures ReadLine(r, o, line).stopped
  {
  }

  function Concat(chunks: seq<string>): string {
    if chunks == [] then "" else Concat(chunks[..|chunks| - 1]) + chunks[|chunks| - 1]
  }

  /** One more chunk: its lines continue those read so far. */
  lemma NextChunk(r: Reader, start: Outcome, chunks: seq<string>, k: nat)
    requires k < |chunks|
    ensures var text, more := Concat(chunks[..k]), Tail(Concat(chunks[..k])) + chunks[k];
            && Tail(Concat(chunks[..k + 1])) == Tail(more)
            && ReadLines(r, start, Lines(Concat(chunks[..k + 1])))
            == ReadLines(r, ReadLines(r, start, Lines(text)), Lines(more))
  {
    var text := Concat(chunks[..k]);
    assert chunks[..k + 1][..k] == chunks[..k] && Concat(chunks[..k + 1]) == text + chunks[k];
    hide ReadLines, Lines, Tail, Concat;
    SplitContinues(text, chunks[k]);
    ReadLinesConcat(r, start, Lines(text), Lines(Tail(text) + chunks[k]));
  }

  /** What is read once an error line has been met does not change any more. */
  lemma {:induction false} StopIsFinal(r: Reader, o: Outcome, chunks: seq<string>, k: nat)
    requires k <= |chunks| && ReadLines(r, o, Lines(Concat(chunks[..k]))).stopped
    ensures ReadLines(r, o, Lines(Concat(chunks))) == ReadLines(r, o, Lines(Concat(chunks[..k])))
    decreases |chunks|
  {
    if k == |chunks| {
      assert chunks[..k] == chunks;
    } else {
      var n := |chunks| - 1;
      hide ReadLines, Lines, Tail, Concat;
      assert chunks[..n][..k] == chunks[..k] && chunks[..n + 1] == chunks;
      StopIsFinal(r, o, chunks[..n], k);
      NextChunk(r, o, chunks, n);
      var text := Concat(chunks[..n]);
      StoppedStays(r, ReadLines(r, o, Lines(text)), Lines(Tail(text) + chunks[n]));
    }
  }

  /** The progress a tracker shows; a pull may have no tracker. */
  ghost function Shown(tracker: PullTracker?): Option<Progress>
    reads tracker
  {
    if tracker == null then None else tracker.current
  }

  /** Reads the complete lines of the buffer; true if an error line ended the pull. */
  method ReadComplete(r: Reader, tracker: PullTracker?, lines: seq<string>, ghost o: Outcome)
    returns (stopped: bool, ghost after: Outcome)
    requires !o.stopped && o.tracker == Shown(tracker)
    modifies tracker
    ensures after == ReadLines(r, o, lines) && stopped == after.stopped && Shown(tracker) == after.tracker
  {
    after := o;
    for i := 0 to |lines|
      invariant after == ReadLines(r, o, lines[..i]) && !after.stopped && Shown(tracker) == after.tracker
    {
      var line := lines[i];
      assert lines[..i + 1][..i] == lines[..i];
      ghost var next := ReadLine(r, after, line);
      ReadLinesConcat(r, o, lines[..i + 1], lines[i + 1..]);
      assert lines == lines[..i + 1] + lines[i + 1..];
      if !r.blank(line) {
        var attempt := r.parse(line);
        if attempt.Some? {
          var parsed := attempt.value;
          if Given(parsed.error) {
            if tracker != null {
              tracker.FailPull(parsed.error.value);
            }
            after := next;
            StoppedStays(r, after, lines[i + 1..]);
            return true, after;
          }
          if Given(parsed.status) && tracker != null {
            tracker.UpdateProgress(parsed.status.value, OrZero(parsed.completed), OrZero(parsed.total));
          }
        }
      }
      after := next;
    }
    assert lines[..|lines|] == lines;
    return false, after;
  }

  method EndPull(tracker: PullTracker, ending: Ending)
    modifies tracker
    ensures tracker.current == if ending.Done? then None else Failed(old(tracker.current), "stream_interrupted")
  {
    if ending.Done? {
      tracker.CompletePull();
    } else {
      tracker.FailPull("stream_interrupted");
    }
  }

  /** Reads the chunks one after the other, keeping what follows the last newline. */
  method ReadChunks(r: Reader, chunks: seq<string>, tracker: PullTracker?, ghost start: Outcome)
    returns (stopped: bool, ghost o: Outcome)
    requires !start.stopped && Shown(tracker) == start.tracker
    modifies tracker
    ensures o == ReadLines(r, start, Lines(Concat(chunks))) && stopped == o.stopped && Shown(tracker) == o.tracker
  {
    var buffer := "";
    stopped, o := false, start;
    for k := 0 to |chunks|
      invariant buffer == Tail(Concat(chunks[..k]))
      invariant o == ReadLines(r, start, Lines(Concat(chunks[..k]))) && !o.stopped && Shown(tracker) == o.tracker
    {
      hide ReadLines, Concat;
      NextChunk(r, start, chunks, k);
      buffer := buffer + chunks[k];
      var lines := Split(buffer);
      buffer := lines[|lines| - 1];
      lines := lines[..|lines| - 1];
      stopped, o := ReadComplete(r, tracker, lines, o);
      if stopped {
        StopIsFinal(r, start, chunks, k + 1);
        return;
      }
    }
    assert chunks[..|chunks|] == chunks;
    stopped := false;
  }

  /** processStreamingPull. For every way of cutting a text into chunks the tracker ends in the
      state that the lines of the whole text give, and the same lines are read. */
  method ProcessStreamingPull(r: Reader, chunks: seq<string>, ending: Ending, tracker: PullTracker?)
    returns (ghost read: seq<string>)
    modifies tracker
    ensures var o := Pulled(r, old(Shown(tracker)), Concat(chunks), ending);
            Shown(tracker) == o.tracker && read == o.read
  {
    hide ReadLines, Lines, Concat;
    var stopped;
    ghost var o;
    stopped, o := ReadChunks(r, chunks, tracker, Outcome(Shown(tracker), false, []));
    if !stopped && tracker != null {
      EndPull(tracker, ending);
    }
    read := o.read;
  }
}
