/**
 * The `GET /bob_logs/{runId}` handler: 404 for a run without a log, the whole
 * file unless `follow` is exactly "true", and otherwise a chunked stream that
 * drains the backlog and then follows the file.
 */
module Handlers {
  import opened Wrappers
  import opened Text
  import opened Store
  import opened Tail

  const LogsDir := "logs"
  const NotFoundText := "Run not found"
  const NoFlusherText := "Streaming unsupported"

  /** The file a run's log lives in, as the watcher names it in its events. */
  function LogPath(runId: string): string {
    LogsDir + "/" + runId
  }

  /** How the steps before the drain went: the response writer's flushing, opening the file, seeking to 0. */
  datatype FollowSetup = Ready | NoFlusher | OpenError(msg: string) | SeekError(msg: string)

  function SetupErrorText(setup: FollowSetup): string
    requires setup != Ready
  {
    match setup
    case NoFlusher => NoFlusherText
    case OpenError(msg) => msg
    case SeekError(msg) => msg
  }

  /** A plain reply, or the chunks of a streamed one and why the stream stopped. */
  datatype GetReply = Plain(reply: Reply) | Streamed(chunks: seq<string>, exit: Exit)

  /**
   * `get`: a run without a log is answered 404 "Run not found"; with any
   * `follow` other than exactly "true" (an absent parameter reads as "") the
   * whole current content is served; otherwise a failed setup step answers
   * 500 with its error, and a ready one streams the backlog and then follows
   * the file with the loop's cursor starting at 0.
   */
  method Get(logs: Logs, runId: string, follow: string, setup: FollowSetup, drainCancel: Option<nat>, signals: seq<Signal>)
    returns (r: GetReply)
    ensures runId !in logs ==> r == Plain(Reply(404, NotFoundText))
    ensures runId in logs && follow != "true" ==> r == Plain(Reply(200, logs[runId]))
    ensures runId in logs && follow == "true" && setup != Ready ==> r == Plain(Reply(500, SetupErrorText(setup)))
    ensures runId in logs && follow == "true" && setup == Ready ==>
              var session := FollowSpec(LogPath(runId), logs[runId], drainCancel, signals, 0);
              r == Streamed(session.chunks, session.exit)
  {
    if runId !in logs {
      return Plain(Reply(404, NotFoundText));
    }
    if follow != "true" {
      return Plain(Reply(200, logs[runId]));
    }
    if setup != Ready {
      return Plain(Reply(500, SetupErrorText(setup)));
    }
    var tailer := new Tailer();
    var exit := tailer.Follow(LogPath(runId), logs[runId], drainCancel, signals);
    r := Streamed(tailer.output, exit);
  }

  /**
   * A follower that joins a new run after its appends, before any further
   * event, receives one line per append: the trimmed body and a '\n'.
   */
  lemma FollowerSeesOneLinePerAppend(logs: Logs, runId: string, bodies: seq<string>)
    requires runId !in logs
    requires forall k :: 0 <= k < |bodies| ==> TrimSpace(bodies[k]) != [] && '\n' !in TrimSpace(bodies[k])
    ensures FollowSpec(LogPath(runId), Content(PutAll(logs, runId, bodies), runId), None, [], 0).chunks ==
              Terminated(Trimmed(bodies))
  {
    NewRunScansToAppends(logs, runId, bodies);
  }

  /**
   * A follower whose cursor is at the end of a non-empty file, when one more
   * body is appended, receives an empty line before the appended one: the
   * append writes its '\n' before the body.
   */
  lemma AsWrittenAppendShowsBlankLine(path: string, existing: string, body: string)
    requires existing != []
    requires TrimSpace(body) != [] && '\n' !in TrimSpace(body)
    ensures WatchSpec(path, |existing|, false, Appends(path, [AppendText(existing, body)])).emitted ==
              ["\n", TrimSpace(body) + "\n"]
  {
    var t := TrimSpace(body);
    GrowthStep(path, existing, AppendText(existing, body));
    AppendedBytesScan(existing, body);
    TerminatedCons("", [t]);
    assert Terminated([t]) == [t + "\n"];
    assert "" + "\n" == "\n";
  }

  /** The files a run goes through under appends that end each trimmed body with '\n'. */
  function LineFiles(existing: string, bodies: seq<string>): (files: seq<string>)
    ensures |files| == |bodies|
    decreases |bodies|
  {
    if bodies == [] then []
    else
      var next := AppendLine(existing, bodies[0]);
      [next] + LineFiles(next, bodies[1..])
  }

  /**
   * With appends that end each trimmed body with '\n', a follower whose
   * cursor is at the end of the file receives exactly one line per append,
   * the trimmed body: no empty line between appends.
   */
  lemma {:induction false} CorrectedAppendsShowOneLineEach(path: string, existing: string, bodies: seq<string>)
    requires forall k :: 0 <= k < |bodies| ==> '\n' !in TrimSpace(bodies[k])
    ensures Grows(existing, LineFiles(existing, bodies))
    ensures WatchSpec(path, |existing|, false, Appends(path, LineFiles(existing, bodies))).emitted ==
              Terminated(Trimmed(bodies))
  {
    LineFilesAdd(existing, bodies);
    GrowingFileIsReadOnce(path, existing, LineFiles(existing, bodies));
  }

  lemma {:induction false} LineFilesAdd(existing: string, bodies: seq<string>)
    requires forall k :: 0 <= k < |bodies| ==> '\n' !in TrimSpace(bodies[k])
    ensures Grows(existing, LineFiles(existing, bodies))
    ensures AddedChunks(existing, LineFiles(existing, bodies)) == Terminated(Trimmed(bodies))
    decreases |bodies|
  {
    if bodies != [] {
      var next := AppendLine(existing, bodies[0]);
      var files := LineFiles(existing, bodies);
      assert files[0] == next && files[1..] == LineFiles(next, bodies[1..]);
      forall k | 0 <= k < |bodies[1..]|
        ensures '\n' !in TrimSpace(bodies[1..][k])
      {
        assert bodies[1..][k] == bodies[k + 1];
      }
      LineFilesAdd(next, bodies[1..]);
      AppendLineScan(existing, bodies[0]);
      assert AddedChunks(existing, files) ==
               Terminated([TrimSpace(bodies[0])]) + AddedChunks(next, LineFiles(next, bodies[1..]));
      TrimmedFirst(bodies);
      TerminatedCons(TrimSpace(bodies[0]), Trimmed(bodies[1..]));
      assert Terminated([TrimSpace(bodies[0])]) == [TrimSpace(bodies[0]) + "\n"];
    }
  }

  /** The bytes one such append adds scan as the trimmed body alone. */
  lemma AppendLineScan(existing: string, body: string)
    requires '\n' !in TrimSpace(body)
    ensures ScanLines(AppendLine(existing, body)[|existing|..]) == [TrimSpace(body)]
  {
    var t := TrimSpace(body);
    TrimmedNotEndingInCR(body);
    assert AppendLine(existing, body)[|existing|..] == t + "\n" + "";
    ScanLinesCons(t, "");
  }
}
