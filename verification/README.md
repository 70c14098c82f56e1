# logger-local: run logs with a live tail, in Dafny

A model of the core of `logger-local`, a small Go HTTP server that keeps one
append-only log file per run:

- `PUT /bob_logs/{runId}` appends the body, trimmed of white space. It puts a
  single '\n' before the body unless the file is empty.
- `DELETE /bob_logs/{runId}` removes the file and always answers "Ok".
- `GET /bob_logs/{runId}` answers 404 "Run not found" for a run without a log.
  It serves the whole file unless `follow` is exactly "true".
- `GET ...?follow=true` streams the file. It first drains the backlog line by
  line, then reacts to fsnotify events for the file. A Remove event ends the
  stream. A Write or Create event runs `streamDiff`. That step compares the
  file's size with the stream's cursor: it resets the cursor to 0 when the
  file shrank, writes the lines from the cursor on when the file grew, and
  then moves the cursor to the size. Client cancellation ends the stream,
  including between two lines.

Files:

- `text.dfy` (module `Text`): the library behaviour the server relies on, as
  functions with their characterising contracts. This is Go's
  `unicode.IsSpace` and `strings.TrimSpace`, and the tokens of a
  `bufio.Scanner` with `bufio.ScanLines`. It also has `Join`, the "lines
  separated by single '\n'" layout, with the round trips between `Join` and
  `ScanLines`.
- `store.dfy` (module `Store`): the logs directory as a `map<string, string>`,
  with `put` and `del` as functions from the old directory to the new one and
  a reply. It also proves the store's invariant: a run's file is its trimmed
  appends joined by single '\n'.
- `tail.dfy` (module `Tail`): the streaming engine. `DiffStep`, `WatchSpec`
  and `FollowSpec` specify one `streamDiff` call, the event loop and the whole
  follow stream. The class `Tailer` (fields `cursor` and `output`) holds them
  as imperative methods with loops, and each method is proved equal to its
  specification function. Lemmas cover the loop's behaviour.
- `handlers.dfy` (module `Handlers`): the `get` handler's dispatch. It runs a
  `Tailer` for a follow request.
- `wrappers.dfy`: `Option`.

How the environment is represented:

- The file as one read sees it is a `FileView`. It holds the size `Stat`
  reported (`None` when `Stat` failed) and the content the scanner reads to
  its end. The two can differ when a writer appends between them. The
  scanner then reads past the stat size, but the cursor still becomes the
  stat size.
- Each fsnotify event carries its name, its set of operation bits and the
  `FileView` the handler sees.
- Cancellation of the request's context is the `Done` signal in the loop.
  Between lines it is given as `cancelAt == Some(k)`: the check before line
  `k` (from 0) finds the context done. Once a step has seen it, every later
  step sees it before its first line.

Behaviour of the code that a reader of the stream might not expect, which the
model keeps as written:

- A trailing partial line is not held back from followers. The scanner
  emits a final unterminated fragment as a line, and `streamDiff` then moves
  the cursor to the full size (`Tail.DiffStep`).
- An append writes '\n' before the trimmed body, not after it
  (main.go:101-104). A follower that reads only the new bytes of an append
  therefore sees an empty line before the appended one
  (`Store.AppendedBytesScan`, `Handlers.AsWrittenAppendShowsBlankLine`).
- A log ends in '\n' only after an append of an all-white-space body to a
  non-empty log: that append writes a lone '\n'
  (`Store.LogIsJoinOfTrimmedAppends`).
- Run identifiers are joined into the path unchecked, and the model uses them
  verbatim as keys.

## Model

| member | source | states |
|---|---|---|
| `Text.IsSpace` | main.go:101 | the white space `strings.TrimSpace` removes: Go's `unicode.IsSpace`, i.e. '\t', '\n', '\v', '\f', '\r', ' ', U+0085, U+00A0, U+1680, U+2000 to U+200A, U+2028, U+2029, U+202F, U+205F and U+3000 |
| `Text.TrimSpace` | main.go:101 | the trimmed body is no longer than the body and neither starts nor ends with white space (Go's `unicode.IsSpace`) |
| `Text.TrimSpaceKeepsInfix` | main.go:101 | what is kept is the infix of the body that starts after its leading white space |
| `Text.TrimSpaceRemovesOnlySpace` | main.go:101 | everything removed, before and after the kept infix, is white space |
| `Text.TrimSpaceEmptyIffAllSpace` | main.go:101 | the trimmed body is empty exactly when the body is all white space |
| `Text.TrimSpaceIdempotent` | main.go:101 | trimming an already trimmed body changes nothing |
| `Text.ScanLines` | main.go:54-56 | the scanner's tokens: split at '\n', one trailing '\r' dropped, final non-empty fragment kept; no token contains '\n' |
| `Text.DropCR` | main.go:54-56 | the scanner drops exactly one trailing '\r' from a token: the result is a prefix one character shorter exactly when the token ends in '\r' |
| `Text.ScanLinesJoin` | main.go:165-174 | scanning lines joined by '\n' gives back exactly those lines, when none holds a '\n' or ends in '\r' and the last is non-empty |
| `Text.JoinScanLines` | main.go:165-174 | joining the scanned tokens rebuilds a text without '\r' that does not end in '\n' |
| `Text.ScanLinesAppend` | main.go:53-56 | reading from a line boundary scans the two parts independently |
| `Store.AppendText` | main.go:101-106 | an append keeps the old content as a prefix, writes a '\n' first exactly when the old content is non-empty, and then exactly the trimmed body |
| `Store.AppendLine` | main.go:101-106 | the corrected append: the old content stays a prefix and the bytes written are the trimmed body followed by '\n' |
| `Store.Put` | main.go:74-113 | a successful put answers 200 "Ok" and the run's file becomes `AppendText` of its old content; a failed step answers 500 with its error; a failure after the open leaves the file created but unchanged; other runs are untouched and content never shrinks |
| `Store.Delete` | main.go:115-121 | always answers 200 "Ok", whether or not the run exists; the run is gone unless the removal failed; other runs are untouched |
| `Store.LogIsJoinOfTrimmedAppends` | main.go:101-106 | after any appends, the file is the earlier content and the trimmed bodies joined by single '\n', with no leading newline for empty bodies before the first non-empty one |
| `Store.PutAllKeepsOtherRuns` | main.go:80-106 | appends to one run leave every other run's file as it was |
| `Store.NewRunLogIsJoin` | main.go:101-106 | for a new run whose bodies are not all white space, the file is exactly the trimmed bodies joined by single '\n' |
| `Store.NewRunScansToAppends` | main.go:101-106 | scanning such a file yields one line per append, the trimmed body |
| `Store.AppendedBytesScan` | main.go:101-104 | the bytes one append adds to a non-empty file scan as an empty line followed by the trimmed body |
| `Tail.DiffStep` | main.go:33-68 | a failed Stat or an unchanged size changes nothing; a shrunken file resets the read position to 0; the lines written are an ordered prefix of the lines from the read position, each followed by '\n'; a completed step writes them all and moves the cursor to the stat size; an interrupted one writes only the lines before the cancellation and leaves the cursor at the read position |
| `Tail.WatchSpec` | main.go:188-207 | the event loop as a function of the signals: the loop stops with `Cancelled` at `Done` and with `Removed` at a Remove of the watched file; a Write or Create of it runs one `DiffStep`, after which every later step sees the context done if this one was interrupted; every other event and every watcher error is skipped; with no signal left the loop is still `Waiting` |
| `Tail.FollowSpec` | main.go:151-207 | the follow stream: the backlog's lines, each with '\n', stopping with `Cancelled` if cancellation is seen between them; otherwise followed by `WatchSpec` from the given start cursor |
| `Tail.Tailer.EmitLines` | main.go:56-64 | the scanning loop writes each line plus '\n' in order until the cancellation point, and reports whether it finished |
| `Tail.Tailer.StreamDiff` | main.go:33-68 | the method's new cursor, added output and interrupted flag are those of `DiffStep` |
| `Tail.Tailer.Watch` | main.go:188-207 | the event loop's final cursor, added output and exit are those of `WatchSpec` |
| `Tail.Tailer.Follow` | main.go:151-207 | the follow stream is the drained backlog and then the loop started with cursor 0, as `FollowSpec` with start 0; the final cursor is the loop's, or unchanged when the drain was cancelled |
| `Tail.OnlyRelevantSignalsMatter` | main.go:194-206 | events for other names, events without Write, Create or Remove, and watcher errors change neither cursor nor output nor the exit |
| `Tail.WaitsIffNoEndingSignal` | main.go:190-207 | the loop keeps waiting exactly when no signal cancels it or removes the watched file |
| `Tail.FirstEndingSignalDecides` | main.go:190-198 | the first cancellation or Remove of the watched file ends the loop, with the matching exit, and later signals have no effect |
| `Tail.NothingWrittenAfterCancellation` | main.go:56-59 | once a step has seen the context cancelled, nothing more is written |
| `Tail.WatchWritesLineChunks` | main.go:61 | every chunk the loop writes is one line ended by its only '\n' |
| `Tail.FollowWritesLineChunks` | main.go:171 | the whole follow stream, backlog included, is made of such line chunks |
| `Tail.GrowingFileIsReadOnce` | main.go:51-66 | with the cursor at the end of what was read, writes to a growing file stream the lines of exactly the bytes each event added, and the loop keeps waiting |
| `Tail.AsWrittenFollowRereadsBacklog` | main.go:188-201 | as written, the first event after the drain streams the whole file from offset 0 again, backlog included |
| `Tail.AsWrittenRepeatsBacklogLine` | main.go:188-201 | a backlog of one line, then an append of a second: as written the stream is the first line twice, then the second |
| `Tail.BacklogLineIsRepeated` | main.go:188-201 | backlog "a", then an append making the file "a\nb": the stream is "a\n", "a\n", "b\n" |
| `Tail.Tailer.FollowCorrected` | main.go:151-207 | the follow stream with the loop's cursor starting where the drain stopped, as `FollowSpec` with start at the backlog's length; the final cursor is the loop's, or unchanged when the drain was cancelled |
| `Tail.CorrectedFollowReadsEachByteOnce` | main.go:188-201 | with that start, the stream is the backlog's lines followed by the lines of exactly the bytes each event added |
| `Tail.CorrectedWritesBacklogLineOnce` | main.go:188-201 | the same input with the corrected start: the first line once, an empty line for the append's separator, then the second line |
| `Text.AppendedLineScan` | main.go:51-56 | the bytes an append adds after a line scan as an empty line and then the new line |
| `Tail.CorrectedBacklogLineIsNotRepeated` | main.go:188-201 | the same input with that start streams "a\n", "\n", "b\n": "a" once |
| `Handlers.Get` | main.go:123-207 | absent run: 404 "Run not found"; present and `follow` not exactly "true": 200 with the whole content; a failed flusher, open or seek: 500 with its error; otherwise the stream of `FollowSpec` from cursor 0 |
| `Handlers.AsWrittenAppendShowsBlankLine` | main.go:101-104 | a follower at the end of a non-empty file receives, for one more append, an empty line and then the trimmed body |
| `Handlers.CorrectedAppendsShowOneLineEach` | main.go:101-106 | with the corrected append, a follower at the end of the file receives exactly one line per append, the trimmed body, for any number of appends |
| `Handlers.FollowerSeesOneLinePerAppend` | main.go:165-174 | a follower joining a new run receives one line per earlier append, the trimmed body and '\n' |

## Findings

| source | as written | input that shows it | evidently intended | confidence | as-written member | corrected member |
|---|---|---|---|---|---|---|
| main.go:188 | the loop's cursor starts at `startPos`, which is 0, although the drain has already streamed the backlog | a log holding "a"; a follower drains "a\n"; then a PUT of "b" makes the file "a\nb" and its Write event streams "a\n" and "b\n" again | the cursor starts at the end of what the drain read, so every byte is streamed once | high (not executed) | `Tail.AsWrittenRepeatsBacklogLine` | `Tail.CorrectedFollowReadsEachByteOnce` |
| main.go:101-104 | an append writes '\n' before the trimmed body whenever the log is non-empty, so the bytes one append adds are "\n" and the body | a follower at the end of a log holding "a"; a PUT of "b" makes the file "a\nb" and its Write event streams "\n" and then "b\n" | each append reaches a follower as one line, which writing the body followed by '\n' gives | medium (not executed) | `Handlers.AsWrittenAppendShowsBlankLine` | `Handlers.CorrectedAppendsShowOneLineEach` |

`Tail.Tailer.FollowCorrected` is the corrected follow method and
`Store.AppendLine` the corrected append. `Handlers.Get` and `Store.Put` keep
the code as written.

## Left out

- HTTP routing, the `PORT` variable, `ping`, `errOut`'s header handling, the
  response headers and `main` are not modelled; a reply is a status and a body.
- The filesystem is a map from run identifier to content. `filepath.Join`'s
  path cleaning is not modelled, so identifiers that clean to the same path
  are different keys here. The watched path is "logs/" followed by the
  identifier.
- In `get`, a `Stat` error other than "does not exist" falls through to
  serving the file. The model has only present and absent runs.
- `http.ServeFile` is reduced to 200 with the whole content. Range and
  conditional requests, content type and directory handling are left out.
- File offsets count characters, not bytes. They agree for ASCII content;
  the byte length of other characters is not modelled.
- `bufio.Scanner`'s 64 KiB token limit and its ignored `scanner.Err()` are
  not modelled. The scanner always reads to the end of the content.
- Creating the fsnotify watcher and registering the file can fail after the
  backlog was streamed. Those failures are not modelled.
- Concurrency is not modelled. The random choice of `select` is the order of
  the input signals, and concurrent writers appear only through the
  `FileView` each event carries. `slog` logging of watcher errors is left
  out.
- Flushing is not modelled separately: the output is what was flushed.
- `Store.Put`: a write that fails part-way is modelled as writing nothing.
  Concurrent appends through `O_APPEND` are not modelled.
- `Store.Delete`: why `os.Remove` fails is not modelled, only whether it did.
- `Tail.Tailer.Watch`: the real loop blocks forever when no event comes. The
  model stops with exit `Waiting` when the input signals run out.
