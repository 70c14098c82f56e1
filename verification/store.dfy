/**
 * The run-log store behind `PUT` and `DELETE /bob_logs/{runId}`. The logs
 * directory is a map from run identifier to the content of that run's file;
 * the handlers are functions from the old directory to the new one and the
 * reply they send.
 */
module Store {
  import opened Wrappers
  import opened Text

  type Logs = map<string, string>

  /** The status code and body a handler answers with. */
  datatype Reply = Reply(status: nat, body: string)

  const Ok := Reply(200, "Ok")

  /** The step of `put` that failed, with the error text it answers with. */
  datatype PutFault =
    | MkdirFailed(msg: string)     // creating the logs directory
    | OpenFailed(msg: string)      // opening the file for append (creating it if absent)
    | ReadBodyFailed(msg: string)  // reading the request body
    | StatFailed(msg: string)      // asking the file for its size
    | WriteFailed(msg: string)     // writing the formatted text

  /** The directory after a handler ran, and the handler's reply. */
  datatype Outcome = Outcome(logs: Logs, reply: Reply)

  /** The content of a run's file; a run without a file reads as empty. */
  function Content(logs: Logs, runId: string): string {
    if runId in logs then logs[runId] else ""
  }

  /** The separator written before a new line: one '\n' unless the file is empty. */
  function Separator(existing: string): string {
    if |existing| > 0 then "\n" else ""
  }

  /**
   * The file content after one append of `body`: the old content is kept as
   * a prefix; what is written starts with a '\n' exactly when the old content
   * was non-empty; and after that separator comes the body with its leading
   * and trailing white space removed.
   */
  function AppendText(existing: string, body: string): (r: string)
    ensures existing <= r
    ensures existing != [] <==> (|r| > |existing| && r[|existing|] == '\n')
    ensures |existing| + |Separator(existing)| <= |r|
    ensures r[|existing| + |Separator(existing)|..] == TrimSpace(body)
  {
    var r := existing + Separator(existing) + TrimSpace(body);
    assert r[|existing| + |Separator(existing)|..] == TrimSpace(body);
    r
  }

  /**
   * The append a follower reading only new bytes can split into one line per
   * append: the trimmed body ended by '\n' instead of preceded by it.
   */
  function AppendLine(existing: string, body: string): (r: string)
    ensures existing <= r
    ensures r[|existing|..] == TrimSpace(body) + "\n"
  {
    var r := existing + TrimSpace(body) + "\n";
    assert r[|existing|..] == TrimSpace(body) + "\n";
    r
  }

  /**
   * `put`: append `body` to the run's file, creating it when absent. When a
   * step fails, the reply is 500 with its error text; the file has been
   * created (and nothing written) when the failure came after it was opened.
   * Other runs are never touched and a run's content only ever grows.
   */
  function Put(logs: Logs, runId: string, body: string, fault: Option<PutFault>): (r: Outcome)
    ensures r.logs - {runId} == logs - {runId}
    ensures Content(logs, runId) <= Content(r.logs, runId)
    ensures fault.None? ==> r.reply == Ok && runId in r.logs && r.logs[runId] == AppendText(Content(logs, runId), body)
    ensures fault.Some? ==> r.reply == Reply(500, fault.value.msg)
    ensures fault.Some? && (fault.value.MkdirFailed? || fault.value.OpenFailed?) ==> r.logs == logs
    ensures fault.Some? && !(fault.value.MkdirFailed? || fault.value.OpenFailed?) ==>
              runId in r.logs && r.logs[runId] == Content(logs, runId)
  {
    var existing := Content(logs, runId);
    match fault
    case None => Outcome(logs[runId := AppendText(existing, body)], Ok)
    case Some(MkdirFailed(msg)) => Outcome(logs, Reply(500, msg))
    case Some(OpenFailed(msg)) => Outcome(logs, Reply(500, msg))
    case Some(f) => Outcome(logs[runId := existing], Reply(500, f.msg))
  }

  /**
   * `del`: remove the run's file and answer "Ok" whatever happened. The
   * removal's own result is ignored: when it fails (`removeFails`) the file
   * stays; otherwise the run is gone. Other runs are never touched.
   */
  function Delete(logs: Logs, runId: string, removeFails: bool): (r: Outcome)
    ensures r.reply == Ok
    ensures r.logs - {runId} == logs - {runId}
    ensures removeFails ==> r.logs == logs
    ensures !removeFails ==> runId !in r.logs
  {
    if removeFails then Outcome(logs, Ok) else Outcome(logs - {runId}, Ok)
  }

  /** The directory after the successful appends of `bodies`, in order, to one run. */
  function PutAll(logs: Logs, runId: string, bodies: seq<string>): Logs {
    if bodies == [] then logs
    else Put(PutAll(logs, runId, bodies[..|bodies| - 1]), runId, bodies[|bodies| - 1], None).logs
  }

  /** Each body with its white space trimmed. */
  function Trimmed(bodies: seq<string>): (r: seq<string>)
    ensures |r| == |bodies|
  {
    if bodies == [] then [] else Trimmed(bodies[..|bodies| - 1]) + [TrimSpace(bodies[|bodies| - 1])]
  }

  lemma {:induction false} TrimmedAt(bodies: seq<string>, k: nat)
    requires k < |bodies|
    ensures Trimmed(bodies)[k] == TrimSpace(bodies[k])
  {
    var n := |bodies| - 1;
    var prefix := bodies[..n];
    var init, last := Trimmed(prefix), TrimSpace(bodies[n]);
    assert Trimmed(bodies) == init + [last];
    if k < n {
      TrimmedAt(prefix, k);
      assert prefix[k] == bodies[k];
      assert Trimmed(bodies)[k] == init[k];
    } else {
      assert Trimmed(bodies)[k] == last;
    }
  }

  /** The trimmed bodies, first one first. */
  lemma {:induction false} TrimmedFirst(bodies: seq<string>)
    requires bodies != []
    ensures Trimmed(bodies) == [TrimSpace(bodies[0])] + Trimmed(bodies[1..])
  {
    var n := |bodies| - 1;
    var init, x := bodies[..n], TrimSpace(bodies[n]);
    assert Trimmed(bodies) == Trimmed(init) + [x];
    if n == 0 {
      assert Trimmed(init) == [] && bodies[1..] == [];
    } else {
      TrimmedFirst(init);
      var tail := bodies[1..];
      assert tail[..n - 1] == init[1..] && tail[n - 1] == bodies[n];
      assert Trimmed(tail) == Trimmed(init[1..]) + [x];
      assert init[0] == bodies[0];
      ConcatAssoc([TrimSpace(bodies[0])], Trimmed(init[1..]), [x]);
    }
  }

  /** Drops the empty entries before the first non-empty one. */
  function DropLeadingEmpty(lines: seq<string>): (r: seq<string>)
    ensures r == [] || r[0] != []
    ensures |r| <= |lines| && r == lines[|lines| - |r|..]
  {
    if lines == [] then []
    else if lines[0] == [] then DropLeadingEmpty(lines[1..])
    else lines
  }

  lemma {:induction false} DropLeadingEmptySnoc(lines: seq<string>, line: string)
    ensures DropLeadingEmpty(lines + [line]) ==
              if DropLeadingEmpty(lines) == [] then DropLeadingEmpty([line])
              else DropLeadingEmpty(lines) + [line]
  {
    if lines != [] {
      assert (lines + [line])[1..] == lines[1..] + [line];
      if lines[0] == [] {
        DropLeadingEmptySnoc(lines[1..], line);
      }
    } else {
      assert lines + [line] == [line];
    }
  }

  /** One append keeps the invariant "the file is its lines joined by single '\n'". */
  lemma AppendKeepsJoin(lines: seq<string>, body: string)
    ensures AppendText(Join(DropLeadingEmpty(lines)), body) == Join(DropLeadingEmpty(lines + [TrimSpace(body)]))
  {
    var kept := DropLeadingEmpty(lines);
    DropLeadingEmptySnoc(lines, TrimSpace(body));
    if kept != [] {
      JoinNonEmpty(kept);
      JoinSnoc(kept, TrimSpace(body));
    }
  }

  /**
   * The invariant of the store: after any appends to a run, its file is the
   * earlier content followed by the trimmed bodies, joined by single '\n'.
   * Empty entries before the first non-empty one leave no trace (no leading
   * newline); every later entry, even an empty one, starts a new line.
   */
  lemma {:induction false} LogIsJoinOfTrimmedAppends(logs: Logs, runId: string, bodies: seq<string>)
    ensures Content(PutAll(logs, runId, bodies), runId) ==
              Join(DropLeadingEmpty([Content(logs, runId)] + Trimmed(bodies)))
  {
    var c := Content(logs, runId);
    if bodies == [] {
      if c != [] {
        assert DropLeadingEmpty([c]) == [c];
      } else {
        assert DropLeadingEmpty([c]) == DropLeadingEmpty([c][1..]);
      }
    } else {
      var init, last := bodies[..|bodies| - 1], bodies[|bodies| - 1];
      var lines := [c] + Trimmed(init);
      LogIsJoinOfTrimmedAppends(logs, runId, init);
      PutAllSnoc(logs, runId, bodies);
      AppendKeepsJoin(lines, last);
      PrefixedTrimmedSnoc(c, bodies);
    }
  }

  lemma PrefixedTrimmedSnoc(c: string, bodies: seq<string>)
    requires bodies != []
    ensures [c] + Trimmed(bodies) == ([c] + Trimmed(bodies[..|bodies| - 1])) + [TrimSpace(bodies[|bodies| - 1])]
  {
    var t, x := Trimmed(bodies[..|bodies| - 1]), TrimSpace(bodies[|bodies| - 1]);
    assert Trimmed(bodies) == t + [x];
    ConcatAssoc([c], t, [x]);
  }

  /** The last of several appends is one more `AppendText`. */
  lemma PutAllSnoc(logs: Logs, runId: string, bodies: seq<string>)
    requires bodies != []
    ensures Content(PutAll(logs, runId, bodies), runId) ==
              AppendText(Content(PutAll(logs, runId, bodies[..|bodies| - 1]), runId), bodies[|bodies| - 1])
  {
  }

  /** Appends to one run leave every other run as it was. */
  lemma {:induction false} PutAllKeepsOtherRuns(logs: Logs, runId: string, bodies: seq<string>)
    ensures PutAll(logs, runId, bodies) - {runId} == logs - {runId}
  {
    if bodies != [] {
      PutAllKeepsOtherRuns(logs, runId, bodies[..|bodies| - 1]);
    }
  }

  /**
   * For a new run whose appended bodies are not all white space, the file is
   * exactly the trimmed bodies joined by single '\n': no leading or trailing
   * newline and no blank line.
   */
  lemma NewRunLogIsJoin(logs: Logs, runId: string, bodies: seq<string>)
    requires runId !in logs
    requires forall k :: 0 <= k < |bodies| ==> TrimSpace(bodies[k]) != []
    ensures Content(PutAll(logs, runId, bodies), runId) == Join(Trimmed(bodies))
  {
    LogIsJoinOfTrimmedAppends(logs, runId, bodies);
    var lines := [""] + Trimmed(bodies);
    assert DropLeadingEmpty(lines) == DropLeadingEmpty(lines[1..]);
    assert lines[1..] == Trimmed(bodies);
    if bodies != [] {
      TrimmedAt(bodies, 0);
    }
  }

  /** A trimmed body never ends in '\r', which is white space. */
  lemma TrimmedNotEndingInCR(body: string)
    ensures !EndsWithCR(TrimSpace(body))
  {
    var t := TrimSpace(body);
    if t != [] {
      assert !IsSpace(t[|t| - 1]);
    }
  }

  /**
   * What a reader scanning a new run's whole file gets: one token per append,
   * the trimmed body, when each body trims to a non-empty line without '\n'.
   */
  lemma NewRunScansToAppends(logs: Logs, runId: string, bodies: seq<string>)
    requires runId !in logs
    requires forall k :: 0 <= k < |bodies| ==> TrimSpace(bodies[k]) != [] && '\n' !in TrimSpace(bodies[k])
    ensures ScanLines(Content(PutAll(logs, runId, bodies), runId)) == Trimmed(bodies)
  {
    NewRunLogIsJoin(logs, runId, bodies);
    var lines := Trimmed(bodies);
    forall k | 0 <= k < |lines|
      ensures '\n' !in lines[k] && !EndsWithCR(lines[k])
    {
      TrimmedAt(bodies, k);
      TrimmedNotEndingInCR(bodies[k]);
    }
    if bodies != [] {
      TrimmedAt(bodies, |bodies| - 1);
    }
    ScanLinesJoin(lines);
  }

  /**
   * What a follower reading only the newly written bytes of an append to a
   * non-empty file scans: an empty token for the separator, then the line.
   */
  lemma AppendedBytesScan(existing: string, body: string)
    requires existing != []
    requires TrimSpace(body) != [] && '\n' !in TrimSpace(body)
    ensures ScanLines(AppendText(existing, body)[|existing|..]) == ["", TrimSpace(body)]
  {
    var t := TrimSpace(body);
    TrimmedNotEndingInCR(body);
    assert AppendText(existing, body) == existing + "\n" + t;
    AppendedLineScan(existing, t);
  }
}
