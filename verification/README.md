# EasyLog: record placement and eviction, modelled in Dafny

EasyLog is a small Java logger. It writes one line per call to a text file.
It can put a session header first. It can place new lines at the bottom
(append) or splice them in near the top. After every call it trims the file
to a line limit. This project models that engine as pure functions over the
file's content. The content is a `seq<string>`, one entry per line, and a
missing file is the empty sequence.

- `JavaInt`: Java's 32-bit `int` and its wrap-around.
- `Format`: `strTypped` (severity labels), the trace suffix that `lineOut` appends, the default header, and the timestamp prefix.
- `LogFile`: `print` (append or truncate), `printOnTop` (splice at a line index) and `getTotalLines`. Each Java read loop is a recursive "scan" function (`InsertScan`, `CountScan`). Its contract gives the closed slice form.
- `Eviction`: `checkStackedLineLimit`. It keeps the front window in top mode and the back window otherwise. The loops are `TakeScan` and `DropScan`. This module also holds the 32-bit overflow finding below.
- `Session`: the logger's configuration (`Config`) and session state (`Logger`: `isHeaderPrinted`, and `currentLinePosition` as `cursor`). It also holds `printPrepare`, split into `Route` (the write) and `Prepare` (write, then eviction). `PrintLog` covers all four `printLog` overloads through default parameters: severity `Normal`, `append = true`. The setters are plain datatype updates (`lg.(config := lg.config.(lineLimit := n))`).
- `Retention`: what a run of appending calls leaves in the file, in bottom mode and in top mode. A run is a sequence of `Call`s, each with its own message, severity and call site.

Things that cannot be computed here are parameters:
- `site` is the stack frame that `lineOut(5)` prints. The suffix is `" - at " + site + " "`.
- `Config.timestamp` is the time captured once in the constructor. The default header and every stamped line reuse it, as the Java `Calendar` field does.

Behaviour of the code that the contracts make explicit:
- `printOnTop` writes the new line only while it copies the line at index `position`. An index at or past the end drops the line. This includes an empty or missing file. Its Javadoc (src/easyLog/EasyLog.java:304) promises that the message is printed at the top of the file and that the data already there is preserved. The second promise holds (`LogFile.PrintOnTopUndo`). The first does not: at or past the end the code silently drops the message (`Session.TopModeOnEmptyFile`).
- In top mode an appending call (`printLog(msg)`, or `append = true`) never writes anything into an empty file, in either layout (`Session.TopModeOnEmptyFile`, `Retention.TopRetentionFromEmpty`). This is because the header and the record both aim at index 0 or beyond. Once the header is printed, or without header layout, a call with `append = false` does write into an empty file: it truncates through `print` (`Session.RouteLaterTruncate`, `Session.RouteNoHeader`).
- The first header-layout call in top mode ignores `append` (`Session.RouteFirstTop`, `Session.FirstTopIgnoresAppend`). The class Javadoc (src/easyLog/EasyLog.java:62-64 and 82-84) says `append = false` deletes all earlier data. On that call the old content survives anyway, and an empty file stays empty.
- The line limit counts the header like any other line (`Retention.CeilingTwoScenario`).
- The Java code swallows I/O errors and prints their stack traces, so the model has no error path.
- Bottom-mode eviction at src/easyLog/EasyLog.java:409 can overflow. The model proves this (see "## Findings") and then uses the corrected computation in `Session.Prepare`.

## Model

| member | source | states |
|---|---|---|
| JavaInt.Wrap | src/easyLog/EasyLog.java:409 | the 32-bit result of an `int` subtraction: equal to the true value modulo 2^32, the value itself when in range, and 2^32 less just above `MaxInt` |
| Format.Typed | src/easyLog/EasyLog.java:444-456 | codes 1-4 put a 9-character label (normal/debug/warning/error) before the message; any other code returns the message unchanged |
| Format.TypedDecodes | src/easyLog/EasyLog.java:444-456 | a labelled line determines both its severity code and its message (the four labels are distinct) |
| Format.ErrorLabelExample | src/easyLog/EasyLog.java:452-453 | severity `error` on message "x" with no trace gives exactly "error  : x" |
| Format.Traced | src/easyLog/EasyLog.java:291-292 | the written line starts with the message, and it differs from the message exactly when tracing is on; the extra text is then the `lineOut` suffix |
| Format.Stamped | src/easyLog/EasyLog.java:269 | a line without header layout is the session timestamp, one blank, then the message |
| LogFile.Print | src/easyLog/EasyLog.java:288-301 | with `append` the old lines are kept and one line follows them; without it the file becomes that single line; the line carries the trace suffix iff tracing is on |
| LogFile.InsertScan | src/easyLog/EasyLog.java:327-336 | the read loop emits the new line before the line numbered `position` when such a line exists, and otherwise copies the lines unchanged |
| LogFile.TopText | src/easyLog/EasyLog.java:318-326 | the inserted text carries the trace suffix iff tracing is on and either header layout is off or the header was already printed |
| LogFile.PrintOnTop | src/easyLog/EasyLog.java:311-358 | an index inside the file gives `lines[..position] + [line] + lines[position..]`; any other index (empty or missing file included) leaves the content unchanged |
| LogFile.PrintOnTopUndo | src/easyLog/EasyLog.java:327-336 | an in-range insertion grows the file by one, puts the line at `position`, and removing that index gives back the old lines in order (same multiset plus the new line) |
| LogFile.CountScan | src/easyLog/EasyLog.java:366-374 | the counting loop adds one per remaining line |
| LogFile.TotalLines | src/easyLog/EasyLog.java:365-385 | the count is the number of lines, 0 for an empty or missing file |
| Eviction.TakeScan | src/easyLog/EasyLog.java:400-407 | the top-mode loop copies exactly the first `lineLimit` lines (none for a non-positive limit) |
| Eviction.DropScan | src/easyLog/EasyLog.java:408-415 | the bottom-mode loop copies exactly the lines from number `diferenca` on |
| Eviction.Evict | src/easyLog/EasyLog.java:390-434 | a file within the limit is untouched; a longer one keeps its first (top mode) or last (bottom mode) `max(lineLimit, 0)` lines; the result never exceeds `max(lineLimit, 0)` lines |
| Eviction.EvictWindow | src/easyLog/EasyLog.java:400-415 | what eviction keeps is a prefix of the file in top mode and a suffix in bottom mode |
| Eviction.EvictIdempotent | src/easyLog/EasyLog.java:390-415 | evicting twice gives the same file as evicting once |
| Eviction.EvictAsWritten | src/easyLog/EasyLog.java:390-434 | the eviction check with 32-bit `totalLines - lineLimit`; it agrees with `Evict` whenever that difference fits in an `int` |
| Eviction.OverflowKeepsEverything | src/easyLog/EasyLog.java:409-414 | when the difference overflows, bottom mode keeps every line and the file stays over the limit |
| Eviction.OverflowExample | src/easyLog/EasyLog.java:409-414 | a one-line file with limit `Integer.MIN_VALUE` keeps its line as written; the exact computation keeps none |
| Session.Route | src/easyLog/EasyLog.java:226-277 | the configuration is untouched; `isHeaderPrinted` never goes back to false and becomes true on any header-layout call; the cursor never decreases and moves by 2, 1 or 0 as the session table `CursorAdvance` says |
| Session.RouteFirstBottom | src/easyLog/EasyLog.java:229-233 | the first header-layout bottom-mode call writes `(append ? old : []) + [header, record]`, both lines traced when tracing is on |
| Session.RouteFirstTop | src/easyLog/EasyLog.java:234-241 | the first header-layout top-mode call splices the bare header and the traced record in together at the cursor, or writes nothing when the cursor is past the end |
| Session.RouteLaterAppend | src/easyLog/EasyLog.java:244-252 | a later appending call adds the record and no header: at the end in bottom mode, at the cursor (or nowhere, past the end) in top mode |
| Session.RouteLaterTruncate | src/easyLog/EasyLog.java:253-264 | a later call with `append = false` truncates the file to header and record, even in top mode, and leaves the cursor unchanged |
| Session.RouteNoHeader | src/easyLog/EasyLog.java:267-276 | without header layout every line is timestamped; top mode with `append` inserts at index 0 (nothing on an empty file); otherwise the append flag is honoured literally |
| Session.Prepare | src/easyLog/EasyLog.java:226-279 | every call ends with eviction: the file is a window of what the write produced (prefix in top mode, suffix in bottom mode) holding exactly all of its lines when they fit and `max(lineLimit, 0)` otherwise, so it never exceeds the limit; wherever `lines - lineLimit` fits in an `int` the result equals the 32-bit computation `EvictAsWritten`; the session counters move as in `Route` |
| Eviction.EvictTrimmed | src/easyLog/EasyLog.java:390-434 | eviction keeps a window of the exact size `min(lines, max(lineLimit, 0))`, and it agrees with the 32-bit computation wherever the difference does not overflow |
| Session.PrintLog | src/easyLog/EasyLog.java:131-162 | every `printLog` overload keeps the configuration and leaves at most `max(lineLimit, 0)` lines (the corrected eviction; see `Session.PrintLog` under "## Left out"); that it labels the message and then behaves as `Prepare` is stated by `Session.PrintLogIsPrepare` |
| Session.FirstTopIgnoresAppend | src/easyLog/EasyLog.java:234-241 | the first header-layout top-mode call gives the same outcome whether `append` is true or false, and every old line survives its write: after the inserted header and record when the cursor is inside the file, untouched otherwise |
| Session.PrintLogNewestIsLast | src/easyLog/EasyLog.java:131-162 | in bottom mode with a limit of at least 1, the labelled message just logged through any overload is the file's last line |
| Session.NewLogger | src/easyLog/EasyLog.java:110-122 | a new logger has the default header for its timestamp, a limit of 3000 lines, header layout on, bottom mode, tracing on, no header printed and the cursor at line 0 |
| Format.DefaultHeader | src/easyLog/EasyLog.java:113-115 | the default header is a rule of 23 `=`, a blank, the timestamp, a blank and the rule again |
| Format.DefaultHeaderDecodes | src/easyLog/EasyLog.java:113-115 | the default header determines its timestamp: two sessions with different timestamps write different headers |
| Format.TraceSuffix | src/easyLog/EasyLog.java:495 | the trace suffix is `" - at "`, the caller's frame, and one blank |
| Session.PrepareWellFormed | src/easyLog/EasyLog.java:329-336 | when the file's lines, message, header, timestamp and site hold no line terminator, every line of the file stays a single line, so reading back a file written this way gives exactly the modelled lines |
| Session.TopModeOnEmptyFile | src/easyLog/EasyLog.java:311-336 | in top mode an appending call on an empty or missing file leaves it empty, in either layout |
| Session.BottomNewestIsLast | src/easyLog/EasyLog.java:226-279 | in bottom mode, with a limit of at least 1, the record line of the text just passed to `printPrepare` is always the last line of the file |
| Retention.EvictIsWindow | src/easyLog/EasyLog.java:400-415 | bottom-mode eviction is the back window of the file and top-mode eviction the front window |
| Retention.BottomStep | src/easyLog/EasyLog.java:244-246 | once the header question is settled, an appending bottom-mode call of any severity from any call site leaves the logger as it was and yields the back window of old content plus the record |
| Retention.BottomRetention | src/easyLog/EasyLog.java:244-278 | once the header is printed or header layout is off, after a non-empty run of appending bottom-mode calls, each with its own message, severity and call site, the file is the last `max(lineLimit, 0)` lines of (the old content followed by the records in the order logged) |
| Retention.FirstBottomStep | src/easyLog/EasyLog.java:229-233 | the first appending header-layout bottom-mode call, of any severity from any call site, marks the header printed and yields the back window of old content, header and record |
| Retention.HeaderOnceRest | src/easyLog/EasyLog.java:244-278 | after the first call of a fresh header-layout bottom-mode session, the remaining appending calls (any severities, any call sites) leave the back window of old content, the one header the first call wrote, and all records in order |
| Retention.HeaderOnceBottom | src/easyLog/EasyLog.java:227-278 | in a fresh header-layout bottom-mode session, over any non-empty run of appending calls with their own severities and call sites, the header is written exactly once (traced with the first caller's frame), before the first record, and counts against the limit |
| Retention.CeilingTwoScenario | src/easyLog/EasyLog.java:226-278 | with limit 2 and no trace, logging "a", "b", "c" leaves exactly the lines "normal : b" and "normal : c" |
| Retention.TopStep | src/easyLog/EasyLog.java:270-278 | an appending top-mode call without header layout, of any severity from any call site, prepends the record to a non-empty file and keeps the front window; an empty file stays empty |
| Retention.TopRetention | src/easyLog/EasyLog.java:267-278 | after a non-empty run of appending top-mode calls without header layout, each with its own message, severity and call site, a non-empty file holds the first `max(lineLimit, 0)` lines of (the records newest first, then the old content); an empty file stays empty |
| Retention.TopRetentionFromEmpty | src/easyLog/EasyLog.java:311-336 | in top mode, however many appending calls are made on an empty file and in either layout, nothing is ever written |

## Left out

- File I/O is not modelled: `FileInputStream`, `PrintWriter`, `file.delete()`, `createNewFile()`, byte encoding and the platform `line.separator`. The file is its list of lines. `readLine` splitting is the identity on terminator-free lines (`Session.PrepareWellFormed`).
- The starting file is assumed to be empty, missing, or to end with a line terminator. `println` after an unterminated last line would join the new line to it, and that case is not modelled.
- Session.Prepare: evicts with the exact difference `lines - lineLimit`, not the 32-bit `int` of src/easyLog/EasyLog.java:409. The two differ when `lineLimit < lines - MaxInt`, i.e. only for limits near `Integer.MIN_VALUE` in bottom mode; there the code keeps every line and the model keeps none (`Eviction.OverflowKeepsEverything`). `Session.PrintLog`, `Retention.BottomStep`, `Retention.FirstBottomStep`, `Retention.BottomRetention`, `Retention.HeaderOnceRest` and `Retention.HeaderOnceBottom` inherit this: for such limits they describe the corrected eviction, not the code as written.
- The `catch` blocks only print a stack trace and carry on. A missing file reads as no lines, which covers the `FileNotFoundException` path of `printOnTop` and `getTotalLines`.
- `lineOut`, `logData`, `getLineNum` and `getClassName` read `Thread.getStackTrace`. The caller's frame is the opaque `site` string.
- `Calendar.getTime()` formatting is not modelled. The timestamp is an opaque string.
- The setters are datatype updates, not separate operations.
- Delete-then-rewrite is not atomic, and string building is quadratic. Neither is visible in a pure model.
- Session.Route: the cursor is an unbounded `nat`. Java's `int` would wrap to a negative value after 2^31-1 top insertions. A negative position drops the line, just as a position past the end does.
- LogFile.TotalLines: counts with unbounded integers. Java's `int` counters in `getTotalLines` and the two eviction loops would wrap on a file of 2^31 lines or more. `Eviction.EvictAsWritten` therefore requires at most `MaxInt` lines.
- Multi-call retention in top mode with header layout on is not stated as a lemma. Single calls in that mode are covered by `Session.RouteFirstTop` and `Session.RouteLaterAppend`. In that mode records go in below the header in logging order, and the cursor moves one line further on every call. So eviction keeps the header and the oldest records. Once the cursor reaches the end of the trimmed file, every new record is dropped.
- BottomRetention: a run holds appending calls only. A call with `append = false` truncates the file to its own lines (`Session.RouteLaterTruncate`, `Session.RouteNoHeader`), so a mixed run is the retention of the calls after the last truncating one. That composition is not stated as a lemma.
- HeaderOnceRest: covers appending calls only, as for BottomRetention.
- HeaderOnceBottom: covers appending calls only, as for BottomRetention.
- TopRetention: covers appending calls only; a call with `append = false` truncates as in bottom mode.
- TopRetentionFromEmpty: covers appending calls only. Once the header is printed, or without header layout, a call with `append = false` writes into the empty file. The first header-layout call ignores `append` and writes nothing (`Session.FirstTopIgnoresAppend`).
- Session.PrintLog: its bound `max(lineLimit, 0)` is that of the corrected eviction. For limits near `Integer.MIN_VALUE` in bottom mode the code keeps every line (see `Session.Prepare` above).

## Findings

| source | as written | input that shows it | evidently intended | confidence | as-written member | corrected member |
|---|---|---|---|---|---|---|
| src/easyLog/EasyLog.java:409 | bottom-mode eviction computes `totalLines - lineLimit` as a 32-bit `int` | `setLineLimit(Integer.MIN_VALUE)`, bottom mode, a one-line file: the difference wraps to -2147483647, every line passes `counter >= diferenca`, and the file keeps its line although the limit allows none | keep the last `max(lineLimit, 0)` lines, as top mode does for every negative limit | not executed; high | Eviction.EvictAsWritten, Eviction.OverflowKeepsEverything | Eviction.Evict (used by Session.Prepare), Eviction.EvictWindow |
