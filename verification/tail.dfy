/**
 * The live tail behind `GET /bob_logs/{runId}?follow=true`: the backlog is
 * drained line by line, then file-system events for the log drive a cursor
 * step (`streamDiff`) that emits what was added and resets the cursor when
 * the file shrank; removal or cancellation ends the stream.
 *
 * The file is seen through `FileView`s: what `Stat` reported (or that it
 * failed) and the content the scanner reads. Cancellation of the request's
 * context is an input too: `cancelAt == Some(k)` means the check before the
 * k-th line (counting from 0) finds the context done.
 */
module Tail {
  import opened Wrappers
  import opened Text

  /** The bits an fsnotify event may carry. */
  datatype Op = Create | Write | Remove | Rename | Chmod

  /** The log file as one read observes it: its stat size, or None when `Stat` failed, and its bytes. */
  datatype FileView = FileView(size: Option<nat>, data: string)

  /** What the follow loop's `select` receives. */
  datatype Signal =
    | FsEvent(name: string, ops: set<Op>, view: FileView, cancelAt: Option<nat>)
    | WatcherError(err: string)
    | Done

  /** Why a stream stopped; `Waiting` when the input ran out while it still waits. */
  datatype Exit = Removed | Cancelled | Waiting

  /** The result of one cursor step: the new cursor, the chunks written, whether cancellation cut it short. */
  datatype Step = Step(cursor: nat, emitted: seq<string>, interrupted: bool)

  /** The result of the follow loop: the final cursor, all chunks written, and why it stopped. */
  datatype Run = Run(cursor: nat, emitted: seq<string>, exit: Exit)

  /** What a streaming response sent, and why it stopped. */
  datatype Session = Session(chunks: seq<string>, exit: Exit)

  /** Each line as `fmt.Fprintln` writes it: followed by a '\n'. */
  function Terminated(lines: seq<string>): seq<string> {
    seq(|lines|, k requires 0 <= k < |lines| => lines[k] + "\n")
  }

  /** The chunks of a first line and then of the rest. */
  lemma TerminatedCons(line: string, rest: seq<string>)
    ensures Terminated([line] + rest) == [line + "\n"] + Terminated(rest)
  {
    var all := Terminated([line] + rest);
    assert all[0] == line + "\n";
    assert all[1..] == Terminated(rest);
  }

  lemma TerminatedPrefix(lines: seq<string>, n: nat)
    requires n <= |lines|
    ensures Terminated(lines[..n]) == Terminated(lines)[..n]
  {
  }

  /** How many of `n` lines are written before cancellation is seen. */
  function Cut(n: nat, cancelAt: Option<nat>): nat {
    if cancelAt.Some? && cancelAt.value < n then cancelAt.value else n
  }

  /** What the scanner reads after seeking to `offset`: nothing when the offset is past the end. */
  function Unread(data: string, offset: nat): string {
    if offset <= |data| then data[offset..] else []
  }

  /** The cursor a step reads from: 0 when the file shrank below the cursor, the cursor otherwise. */
  function ReadFrom(cursor: nat, size: nat): nat {
    if size < cursor then 0 else cursor
  }

  /** The lines a step reads when the file grew past the read position. */
  function DeltaLines(cursor: nat, view: FileView): seq<string>
    requires view.size.Some?
  {
    ScanLines(Unread(view.data, ReadFrom(cursor, view.size.value)))
  }

  /**
   * One `streamDiff` call from `cursor`. A failed `Stat` or an unchanged size
   * changes nothing. Otherwise the cursor is first reset to 0 if the file
   * shrank; if the file is now larger than the read position, the lines from
   * there on are written, in order, each followed by '\n', and the cursor
   * becomes the stat size — unless cancellation is seen between lines, in
   * which case only a prefix is written and the cursor stays at the read
   * position.
   */
  function DiffStep(cursor: nat, view: FileView, cancelAt: Option<nat>): (r: Step)
    ensures view.size.None? ==> r == Step(cursor, [], false)
    ensures view.size == Some(cursor) ==> r == Step(cursor, [], false)
    ensures view.size.Some? ==>
              var from := ReadFrom(cursor, view.size.value);
              && r.emitted <= Terminated(DeltaLines(cursor, view))
              && (r.emitted != [] ==> from < view.size.value)
              && (r.interrupted <==> from < view.size.value && Cut(|DeltaLines(cursor, view)|, cancelAt) < |DeltaLines(cursor, view)|)
              && (r.interrupted ==> r.cursor == from && |r.emitted| == cancelAt.value)
              && (!r.interrupted ==> r.cursor == view.size.value)
              && (!r.interrupted && from < view.size.value ==> r.emitted == Terminated(DeltaLines(cursor, view)))
  {
    match view.size
    case None => Step(cursor, [], false)
    case Some(size) =>
      var from := ReadFrom(cursor, size);
      if size > from then
        var lines := DeltaLines(cursor, view);
        var n := Cut(|lines|, cancelAt);
        TerminatedPrefix(lines, n);
        if n < |lines| then Step(from, Terminated(lines[..n]), true)
        else Step(size, Terminated(lines), false)
      else Step(from, [], false)
  }

  /** A signal that makes the loop return: cancellation, or removal of the watched file. */
  predicate Ends(path: string, s: Signal) {
    s.Done? || (s.FsEvent? && s.name == path && Remove in s.ops)
  }

  /** A signal that makes the loop call `streamDiff`. */
  predicate Reads(path: string, s: Signal) {
    s.FsEvent? && s.name == path && Remove !in s.ops && (Write in s.ops || Create in s.ops)
  }

  /**
   * The follow loop from `cursor` over `signals`. `ctxDone` records that an
   * earlier step already saw the context cancelled; every later step then
   * sees it before its first line.
   */
  function WatchSpec(path: string, cursor: nat, ctxDone: bool, signals: seq<Signal>): Run
    decreases |signals|
  {
    if signals == [] then Run(cursor, [], Waiting)
    else
      var s := signals[0];
      if s.Done? then Run(cursor, [], Cancelled)
      else if Ends(path, s) then Run(cursor, [], Removed)
      else if Reads(path, s) then
        var step := DiffStep(cursor, s.view, if ctxDone then Some(0) else s.cancelAt);
        var rest := WatchSpec(path, step.cursor, ctxDone || step.interrupted, signals[1..]);
        Run(rest.cursor, step.emitted + rest.emitted, rest.exit)
      else WatchSpec(path, cursor, ctxDone, signals[1..])
  }

  /** Whether the drain writes every backlog line before cancellation is seen. */
  predicate Drains(backlog: string, drainCancel: Option<nat>) {
    Cut(|ScanLines(backlog)|, drainCancel) == |ScanLines(backlog)|
  }

  /**
   * The whole follow stream: the backlog's lines, each followed by '\n',
   * until cancellation is seen; then the loop from cursor `startAt`.
   */
  function FollowSpec(path: string, backlog: string, drainCancel: Option<nat>, signals: seq<Signal>, startAt: nat): Session {
    var lines := ScanLines(backlog);
    var n := Cut(|lines|, drainCancel);
    if n < |lines| then Session(Terminated(lines[..n]), Cancelled)
    else
      var run := WatchSpec(path, startAt, false, signals);
      Session(Terminated(lines) + run.emitted, run.exit)
  }

  /** The signals the loop acts on, in order: the others are dropped. */
  function Relevant(path: string, signals: seq<Signal>): (r: seq<Signal>)
    ensures |r| <= |signals|
    ensures forall k :: 0 <= k < |r| ==> Ends(path, r[k]) || Reads(path, r[k])
  {
    if signals == [] then []
    else if Ends(path, signals[0]) || Reads(path, signals[0]) then [signals[0]] + Relevant(path, signals[1..])
    else Relevant(path, signals[1..])
  }

  /**
   * Events for other files, events without Write, Create or Remove, and
   * watcher errors change nothing: the loop over only the signals it acts on
   * ends the same way, with the same cursor and the same output.
   */
  lemma {:induction false} OnlyRelevantSignalsMatter(path: string, cursor: nat, ctxDone: bool, signals: seq<Signal>)
    ensures WatchSpec(path, cursor, ctxDone, Relevant(path, signals)) == WatchSpec(path, cursor, ctxDone, signals)
    decreases |signals|
  {
    if signals != [] {
      var s := signals[0];
      if Ends(path, s) {
      } else if Reads(path, s) {
        var step := DiffStep(cursor, s.view, if ctxDone then Some(0) else s.cancelAt);
        OnlyRelevantSignalsMatter(path, step.cursor, ctxDone || step.interrupted, signals[1..]);
        assert ([s] + Relevant(path, signals[1..]))[1..] == Relevant(path, signals[1..]);
      } else {
        OnlyRelevantSignalsMatter(path, cursor, ctxDone, signals[1..]);
      }
    }
  }

  /** The loop keeps waiting exactly when no signal cancels it or removes the watched file. */
  lemma {:induction false} WaitsIffNoEndingSignal(path: string, cursor: nat, ctxDone: bool, signals: seq<Signal>)
    ensures WatchSpec(path, cursor, ctxDone, signals).exit == Waiting <==>
              forall k :: 0 <= k < |signals| ==> !Ends(path, signals[k])
    decreases |signals|
  {
    if signals != [] {
      var s := signals[0];
      if !Ends(path, s) {
        var c, d := cursor, ctxDone;
        if Reads(path, s) {
          var step := DiffStep(cursor, s.view, if ctxDone then Some(0) else s.cancelAt);
          c, d := step.cursor, ctxDone || step.interrupted;
        }
        WaitsIffNoEndingSignal(path, c, d, signals[1..]);
        assert forall k :: 1 <= k < |signals| ==> signals[k] == signals[1..][k - 1];
      }
    }
  }

  /**
   * The first signal that cancels the loop or removes the watched file ends
   * it: the exit says which, and nothing after that signal has any effect.
   */
  lemma {:induction false} FirstEndingSignalDecides(path: string, cursor: nat, ctxDone: bool, signals: seq<Signal>, k: nat)
    requires k < |signals| && Ends(path, signals[k])
    requires forall j :: 0 <= j < k ==> !Ends(path, signals[j])
    ensures WatchSpec(path, cursor, ctxDone, signals) == WatchSpec(path, cursor, ctxDone, signals[..k + 1])
    ensures WatchSpec(path, cursor, ctxDone, signals).exit == if signals[k].Done? then Cancelled else Removed
    decreases k
  {
    if k > 0 {
      var s := signals[0];
      var c, d := cursor, ctxDone;
      if Reads(path, s) {
        var step := DiffStep(cursor, s.view, if ctxDone then Some(0) else s.cancelAt);
        c, d := step.cursor, ctxDone || step.interrupted;
      }
      assert signals[..k + 1][1..] == signals[1..][..k];
      FirstEndingSignalDecides(path, c, d, signals[1..], k - 1);
    }
  }

  /** Once a step has seen the context cancelled, the loop writes nothing more. */
  lemma {:induction false} NothingWrittenAfterCancellation(path: string, cursor: nat, signals: seq<Signal>)
    ensures WatchSpec(path, cursor, true, signals).emitted == []
    decreases |signals|
  {
    if signals != [] {
      var s := signals[0];
      if !Ends(path, s) {
        var c := cursor;
        if Reads(path, s) {
          c := DiffStep(cursor, s.view, Some(0)).cursor;
        }
        NothingWrittenAfterCancellation(path, c, signals[1..]);
      }
    }
  }

  /** A chunk as the client receives it: one line, ended by its only '\n'. */
  predicate IsLineChunk(chunk: string) {
    chunk != [] && chunk[|chunk| - 1] == '\n' && '\n' !in chunk[..|chunk| - 1]
  }

  predicate AllLineChunks(chunks: seq<string>) {
    forall k :: 0 <= k < |chunks| ==> IsLineChunk(chunks[k])
  }

  lemma TerminatedLinesAreChunks(lines: seq<string>)
    requires forall k :: 0 <= k < |lines| ==> '\n' !in lines[k]
    ensures AllLineChunks(Terminated(lines))
  {
    forall k | 0 <= k < |lines|
      ensures IsLineChunk(Terminated(lines)[k])
    {
      assert Terminated(lines)[k][..|lines[k]|] == lines[k];
    }
  }

  /** Every chunk one step writes is a single line followed by '\n'. */
  lemma StepWritesLineChunks(cursor: nat, view: FileView, cancelAt: Option<nat>)
    ensures AllLineChunks(DiffStep(cursor, view, cancelAt).emitted)
  {
    if view.size.Some? {
      TerminatedLinesAreChunks(DeltaLines(cursor, view));
    }
  }

  /**
   * Every chunk the follow loop writes is a single line followed by '\n':
   * the line framing the client relies on to split the chunked stream.
   */
  lemma {:induction false} WatchWritesLineChunks(path: string, cursor: nat, ctxDone: bool, signals: seq<Signal>)
    ensures AllLineChunks(WatchSpec(path, cursor, ctxDone, signals).emitted)
    decreases |signals|
  {
    if signals != [] {
      var s := signals[0];
      if Reads(path, s) && !Ends(path, s) {
        var step := DiffStep(cursor, s.view, if ctxDone then Some(0) else s.cancelAt);
        StepWritesLineChunks(cursor, s.view, if ctxDone then Some(0) else s.cancelAt);
        WatchWritesLineChunks(path, step.cursor, ctxDone || step.interrupted, signals[1..]);
      } else if !Ends(path, s) {
        WatchWritesLineChunks(path, cursor, ctxDone, signals[1..]);
      }
    }
  }

  /** The whole follow stream, backlog included, is made of line chunks. */
  lemma FollowWritesLineChunks(path: string, backlog: string, drainCancel: Option<nat>, signals: seq<Signal>, startAt: nat)
    ensures AllLineChunks(FollowSpec(path, backlog, drainCancel, signals, startAt).chunks)
  {
    var lines := ScanLines(backlog);
    TerminatedLinesAreChunks(lines);
    WatchWritesLineChunks(path, startAt, false, signals);
  }

  /** One Write event per observation of a file that only grows. */
  function Appends(path: string, files: seq<string>): (r: seq<Signal>)
    ensures |r| == |files|
  {
    if files == [] then []
    else [FsEvent(path, {Write}, FileView(Some(|files[0]|), files[0]), None)] + Appends(path, files[1..])
  }

  /** Each observed file extends the one before, starting from `start`. */
  predicate Grows(start: string, files: seq<string>)
    decreases |files|
  {
    files == [] || (start <= files[0] && Grows(files[0], files[1..]))
  }

  /** The chunks that reading only the bytes each observation added would give. */
  function AddedChunks(start: string, files: seq<string>): seq<string>
    requires Grows(start, files)
    decreases |files|
  {
    if files == [] then []
    else Terminated(ScanLines(files[0][|start|..])) + AddedChunks(files[0], files[1..])
  }

  /**
   * Writes to a file that only grows: with the cursor at the end of what was
   * already read, each event writes the lines of exactly the bytes added since
   * the previous one, so no byte is read twice and none is skipped.
   */
  lemma {:induction false} GrowingFileIsReadOnce(path: string, start: string, files: seq<string>)
    requires Grows(start, files)
    ensures WatchSpec(path, |start|, false, Appends(path, files)).emitted == AddedChunks(start, files)
    ensures WatchSpec(path, |start|, false, Appends(path, files)).exit == Waiting
    decreases |files|
  {
    if files != [] {
      var file := files[0];
      var s := Appends(path, files)[0];
      assert Appends(path, files)[1..] == Appends(path, files[1..]);
      assert Reads(path, s);
      var step := DiffStep(|start|, s.view, None);
      if |file| == |start| {
        assert file[|start|..] == [];
      }
      assert step == Step(|file|, Terminated(ScanLines(file[|start|..])), false);
      GrowingFileIsReadOnce(path, file, files[1..]);
    }
  }

  /** One Write event after the file grew from `start` to `file`: the lines of the added bytes. */
  lemma GrowthStep(path: string, start: string, file: string)
    requires start <= file
    ensures WatchSpec(path, |start|, false, Appends(path, [file])).emitted == Terminated(ScanLines(file[|start|..]))
  {
    var files := [file];
    assert files[0] == file && files[1..] == [];
    GrowingFileIsReadOnce(path, start, files);
    assert AddedChunks(file, []) == [];
  }

  /**
   * As written, the loop's cursor starts at 0 although the drain has already
   * written the backlog: when the file then grows, the first event writes the
   * backlog's lines a second time before the new ones.
   */
  lemma AsWrittenFollowRereadsBacklog(path: string, backlog: string, files: seq<string>)
    requires files != [] && Grows(backlog, files)
    ensures FollowSpec(path, backlog, None, Appends(path, files), 0).chunks ==
              Terminated(ScanLines(backlog)) + Terminated(ScanLines(files[0])) + AddedChunks(files[0], files[1..])
  {
    assert Grows([], files);
    GrowingFileIsReadOnce(path, [], files);
    assert files[0][0..] == files[0];
  }

  /**
   * A backlog of one line, then an append of a second line: as written, the
   * follower receives the first line twice.
   */
  lemma {:induction false} AsWrittenRepeatsBacklogLine(path: string, line: string, next: string)
    requires line != [] && '\n' !in line && !EndsWithCR(line)
    requires next != [] && '\n' !in next && !EndsWithCR(next)
    ensures FollowSpec(path, line, None, Appends(path, [line + "\n" + next]), 0).chunks ==
              [line + "\n", line + "\n", next + "\n"]
  {
    var file := line + "\n" + next;
    var files := [file];
    assert line <= file && files[0] == file && files[1..] == [];
    AsWrittenFollowRereadsBacklog(path, line, files);
    assert AddedChunks(file, []) == [];
    ScanLinesJoin([line]);
    assert ScanLines(line) == [line];
    ScanLinesJoin([line, next]);
    assert ScanLines(file) == [line, next];
    TerminatedLines([line], [line, next]);
  }

  /** The smallest case: a backlog line "a", then an append of "b" shows "a" twice. */
  lemma BacklogLineIsRepeated()
    ensures FollowSpec("logs/r", "a", None, Appends("logs/r", ["a\nb"]), 0).chunks == ["a\n", "a\n", "b\n"]
  {
    AsWrittenRepeatsBacklogLine("logs/r", "a", "b");
    assert "a" + "\n" + "b" == "a\nb" && "a" + "\n" == "a\n" && "b" + "\n" == "b\n";
  }

  /**
   * With the loop's cursor starting where the drain stopped reading, the
   * stream is the backlog's lines and then the lines of exactly the bytes
   * each event added: nothing is written twice.
   */
  lemma CorrectedFollowReadsEachByteOnce(path: string, backlog: string, files: seq<string>)
    requires Grows(backlog, files)
    ensures FollowSpec(path, backlog, None, Appends(path, files), |backlog|).chunks ==
              Terminated(ScanLines(backlog)) + AddedChunks(backlog, files)
  {
    GrowingFileIsReadOnce(path, backlog, files);
  }

  /**
   * The same case corrected: the backlog line is written once; the separator
   * the append wrote reads as an empty line before the new one.
   */
  lemma {:induction false} CorrectedWritesBacklogLineOnce(path: string, line: string, next: string)
    requires line != [] && '\n' !in line && !EndsWithCR(line)
    requires next != [] && '\n' !in next && !EndsWithCR(next)
    ensures FollowSpec(path, line, None, Appends(path, [line + "\n" + next]), |line|).chunks ==
              [line + "\n", "\n", next + "\n"]
  {
    var file := line + "\n" + next;
    var files := [file];
    assert line <= file && files[0] == file && files[1..] == [];
    CorrectedFollowReadsEachByteOnce(path, line, files);
    assert AddedChunks(line, files) == Terminated(ScanLines(file[|line|..])) + AddedChunks(file, []);
    assert AddedChunks(file, []) == [];
    AppendedLineScan(line, next);
    ScanLinesJoin([line]);
    TerminatedLines([line], ["", next]);
    assert "" + "\n" == "\n";
  }

  /** The chunks of one line and then of two more, spelled out. */
  lemma TerminatedLines(a: seq<string>, b: seq<string>)
    requires |a| == 1 && |b| == 2
    ensures Terminated(a) + Terminated(b) == [a[0] + "\n", b[0] + "\n", b[1] + "\n"]
  {
  }

  /** The same input with the correction: "a" is written once. */
  lemma CorrectedBacklogLineIsNotRepeated()
    ensures FollowSpec("logs/r", "a", None, Appends("logs/r", ["a\nb"]), 1).chunks == ["a\n", "\n", "b\n"]
  {
    CorrectedWritesBacklogLineOnce("logs/r", "a", "b");
    assert "a" + "\n" + "b" == "a\nb" && "a" + "\n" == "a\n" && "b" + "\n" == "b\n";
  }

  /**
   * The loop's specification after a signal that calls `streamDiff`: the
   * step's output joins what was written, and the rest of the loop runs from
   * the step's cursor.
   */
  lemma WatchSpecReadStep(path: string, cursor: nat, ctxDone: bool, signals: seq<Signal>, i: nat, written: seq<string>, total: Run)
    requires i < |signals| && Reads(path, signals[i])
    requires var rest := WatchSpec(path, cursor, ctxDone, signals[i..]);
             total == Run(rest.cursor, written + rest.emitted, rest.exit)
    ensures var s := signals[i];
            var step := DiffStep(cursor, s.view, if ctxDone then Some(0) else s.cancelAt);
            var rest := WatchSpec(path, step.cursor, ctxDone || step.interrupted, signals[i + 1..]);
            total == Run(rest.cursor, (written + step.emitted) + rest.emitted, rest.exit)
  {
    assert signals[i..][0] == signals[i];
    assert signals[i..][1..] == signals[i + 1..];
    var s := signals[i];
    var step := DiffStep(cursor, s.view, if ctxDone then Some(0) else s.cancelAt);
    var rest := WatchSpec(path, step.cursor, ctxDone || step.interrupted, signals[i + 1..]);
    ConcatAssoc(written, step.emitted, rest.emitted);
  }

  /** The loop's specification after a signal it ignores: nothing changes. */
  lemma WatchSpecSkipStep(path: string, cursor: nat, ctxDone: bool, signals: seq<Signal>, i: nat)
    requires i < |signals| && !Ends(path, signals[i]) && !Reads(path, signals[i])
    ensures WatchSpec(path, cursor, ctxDone, signals[i..]) == WatchSpec(path, cursor, ctxDone, signals[i + 1..])
  {
    assert signals[i..][0] == signals[i];
    assert signals[i..][1..] == signals[i + 1..];
  }

  /** The loop's specification at a signal that ends it. */
  lemma WatchSpecEndStep(path: string, cursor: nat, ctxDone: bool, signals: seq<Signal>, i: nat)
    requires i < |signals| && Ends(path, signals[i])
    ensures WatchSpec(path, cursor, ctxDone, signals[i..]) ==
              Run(cursor, [], if signals[i].Done? then Cancelled else Removed)
  {
    assert signals[i..][0] == signals[i];
  }

  /** One follow stream's state: its read cursor and everything written to the client so far. */
  class Tailer {
    var cursor: nat
    var output: seq<string>

    constructor ()
      ensures cursor == 0 && output == []
    {
      cursor := 0;
      output := [];
    }

    /** The `for scanner.Scan()` loop: write each line and a '\n' until cancellation is seen. */
    method EmitLines(lines: seq<string>, cancelAt: Option<nat>) returns (completed: bool)
      modifies this`output
      ensures completed <==> Cut(|lines|, cancelAt) == |lines|
      ensures output == old(output) + Terminated(lines[..Cut(|lines|, cancelAt)])
    {
      var i := 0;
      while i < |lines|
        invariant i <= |lines|
        invariant cancelAt.Some? ==> i <= cancelAt.value
        invariant output == old(output) + Terminated(lines[..i])
      {
        if cancelAt == Some(i) {
          return false;
        }
        assert lines[..i + 1] == lines[..i] + [lines[i]];
        output := output + [lines[i] + "\n"];
        i := i + 1;
      }
      assert lines[..i] == lines;
      return true;
    }

    /** `streamDiff`: one cursor step against the file as `view` shows it. */
    method StreamDiff(view: FileView, cancelAt: Option<nat>) returns (interrupted: bool)
      modifies this
      ensures var step := DiffStep(old(cursor), view, cancelAt);
              cursor == step.cursor && output == old(output) + step.emitted && interrupted == step.interrupted
    {
      if view.size.None? {
        return false;
      }
      var size := view.size.value;
      if size < cursor {
        cursor := 0;
      }
      if size > cursor {
        var lines := ScanLines(Unread(view.data, cursor));
        var completed := EmitLines(lines, cancelAt);
        if !completed {
          return true;
        }
        cursor := size;
      }
      return false;
    }

    /** The `for { select ... }` loop over the signals, from the current cursor. */
    method Watch(path: string, signals: seq<Signal>) returns (exit: Exit)
      modifies this
      ensures var run := WatchSpec(path, old(cursor), false, signals);
              cursor == run.cursor && output == old(output) + run.emitted && exit == run.exit
    {
      ghost var total := WatchSpec(path, cursor, false, signals);
      var i := 0;
      var ctxDone := false;
      ghost var written: seq<string> := [];
      while i < |signals|
        invariant i <= |signals|
        invariant output == old(output) + written
        invariant var rest := WatchSpec(path, cursor, ctxDone, signals[i..]);
                  total == Run(rest.cursor, written + rest.emitted, rest.exit)
      {
        var s := signals[i];
        if s.Done? {
          WatchSpecEndStep(path, cursor, ctxDone, signals, i);
          return Cancelled;
        }
        if s.FsEvent? && s.name == path {
          if Remove in s.ops {
            WatchSpecEndStep(path, cursor, ctxDone, signals, i);
            return Removed;
          }
          if Write in s.ops || Create in s.ops {
            var seen := if ctxDone then Some(0) else s.cancelAt;
            ghost var step := DiffStep(cursor, s.view, seen);
            WatchSpecReadStep(path, cursor, ctxDone, signals, i, written, total);
            var interrupted := StreamDiff(s.view, seen);
            ConcatAssoc(old(output), written, step.emitted);
            written := written + step.emitted;
            ctxDone := ctxDone || interrupted;
            i := i + 1;
            continue;
          }
        }
        WatchSpecSkipStep(path, cursor, ctxDone, signals, i);
        i := i + 1;
      }
      return Waiting;
    }

    /**
     * The follow branch of `get` as written: drain the backlog, then run the
     * loop with the cursor at 0, whatever the drain read.
     */
    method Follow(path: string, backlog: string, drainCancel: Option<nat>, signals: seq<Signal>) returns (exit: Exit)
      modifies this
      ensures var session := FollowSpec(path, backlog, drainCancel, signals, 0);
              output == old(output) + session.chunks && exit == session.exit
      ensures Drains(backlog, drainCancel) ==> cursor == WatchSpec(path, 0, false, signals).cursor
      ensures !Drains(backlog, drainCancel) ==> cursor == old(cursor)
    {
      var completed := EmitLines(ScanLines(backlog), drainCancel);
      if !completed {
        return Cancelled;
      }
      cursor := 0;
      exit := Watch(path, signals);
    }

    /** The follow branch with the loop's cursor starting where the drain stopped reading. */
    method FollowCorrected(path: string, backlog: string, drainCancel: Option<nat>, signals: seq<Signal>) returns (exit: Exit)
      modifies this
      ensures var session := FollowSpec(path, backlog, drainCancel, signals, |backlog|);
              output == old(output) + session.chunks && exit == session.exit
      ensures Drains(backlog, drainCancel) ==> cursor == WatchSpec(path, |backlog|, false, signals).cursor
      ensures !Drains(backlog, drainCancel) ==> cursor == old(cursor)
    {
      var completed := EmitLines(ScanLines(backlog), drainCancel);
      if !completed {
        return Cancelled;
      }
      cursor := |backlog|;
      exit := Watch(path, signals);
    }
  }
}
