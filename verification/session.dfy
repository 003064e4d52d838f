/**
 * The EasyLog object: its configuration, the two pieces of session state
 * (`isHeaderPrinted` and `currentLinePosition`), and `printPrepare`, which
 * routes one log call to the append writer or the top inserter and then runs
 * the eviction check.  The file is passed in and handed back as a value.
 */
module Session {
  import opened JavaInt
  import opened Format
  import opened LogFile
  import opened Eviction

  /**
   * What the setters change between calls.  `timestamp` is the time captured
   * when the logger was built: every stamped line and the default header use it.
   */
  datatype Config = Config(
    header: string,
    lineLimit: Int32,
    headerLayout: bool,
    printOnTop: bool,
    useTrace: bool,
    timestamp: string)

  /** `cursor` is `currentLinePosition`, the line index the next top insertion aims at. */
  datatype Logger = Logger(config: Config, headerPrinted: bool, cursor: nat)

  /** The logger and the file after one call. */
  datatype Outcome = Outcome(logger: Logger, file: Content)

  const DefaultLineLimit: Int32 := 3000

  /**
   * The constructor: the default header around the construction timestamp, a
   * limit of 3000 lines, header layout on, bottom mode, tracing on, and a
   * session that has printed no header and whose cursor is at line 0.
   */
  function NewLogger(timestamp: string): (lg: Logger)
    ensures lg.config.header == DefaultHeader(timestamp) && lg.config.timestamp == timestamp
    ensures lg.config.lineLimit == 3000
    ensures lg.config.headerLayout && !lg.config.printOnTop && lg.config.useTrace
    ensures !lg.headerPrinted && lg.cursor == 0
  {
    Logger(Config(DefaultHeader(timestamp), DefaultLineLimit, true, false, true, timestamp), false, 0)
  }

  /** A record's text before any trace suffix: without header layout it starts with the timestamp. */
  function Body(c: Config, str: string): string {
    if c.headerLayout then str else Stamped(c.timestamp, str)
  }

  /** The header line as the append writer writes it. */
  function HeaderLine(c: Config, site: string): string {
    Traced(c.header, c.useTrace, site)
  }

  /** A record line as written once the header question is settled. */
  function RecordLine(c: Config, str: string, site: string): string {
    Traced(Body(c, str), c.useTrace, site)
  }

  /** `lines` with `s` spliced in before index `i`, or unchanged when `i` is past the end. */
  function InsertOrKeep(lines: Content, s: seq<string>, i: nat): Content {
    if i < |lines| then lines[..i] + s + lines[i..] else lines
  }

  /**
   * How far one call moves the cursor, read off the session table: two top
   * insertions on the first header-layout call, one on a later appending
   * call, none otherwise.
   */
  function CursorAdvance(lg: Logger, append: bool): nat {
    if !lg.config.headerLayout || !lg.config.printOnTop then 0
    else if !lg.headerPrinted then 2
    else if append then 1
    else 0
  }

  /** Two insertions in a row, the second just after the first, insert both lines together. */
  lemma InsertTwice(file: Content, a: string, b: string, i: nat)
    requires i < |file|
    ensures var f := file[..i] + [a] + file[i..];
            f[..i + 1] + [b] + f[i + 1..] == file[..i] + [a, b] + file[i..]
  {
    var f := file[..i] + [a] + file[i..];
    assert f[..i + 1] == file[..i] + [a];
    assert f[i + 1..] == file[i..];
  }

  /** printPrepare up to, not including, the eviction check. */
  function Route(lg: Logger, file: Content, str: string, append: bool, site: string): (o: Outcome)
    ensures o.logger.config == lg.config
    ensures o.logger.headerPrinted == (lg.headerPrinted || lg.config.headerLayout)
    ensures o.logger.cursor == lg.cursor + CursorAdvance(lg, append)
  {
    var c := lg.config;
    if c.headerLayout then
      if !lg.headerPrinted then
        if !c.printOnTop then
          var f := Print(file, c.header, append, c.useTrace, site);
          Outcome(lg.(headerPrinted := true), Print(f, str, true, c.useTrace, site))
        else
          var f := PrintOnTop(file, c.header, lg.cursor, true, false, c.useTrace, site);
          var f' := PrintOnTop(f, str, lg.cursor + 1, true, true, c.useTrace, site);
          Outcome(lg.(headerPrinted := true, cursor := lg.cursor + 2), f')
      else if append then
        if !c.printOnTop then
          Outcome(lg, Print(file, str, append, c.useTrace, site))
        else
          Outcome(lg.(cursor := lg.cursor + 1), PrintOnTop(file, str, lg.cursor, true, true, c.useTrace, site))
      else
        // the source's two branches here (bottom and top mode) are identical
        var f := Print(file, c.header, append, c.useTrace, site);
        Outcome(lg.(headerPrinted := true), Print(f, str, true, c.useTrace, site))
    else
      var line := Stamped(c.timestamp, str);
      if !c.printOnTop then
        Outcome(lg, Print(file, line, append, c.useTrace, site))
      else if append then
        Outcome(lg, PrintOnTop(file, line, 0, false, lg.headerPrinted, c.useTrace, site))
      else
        Outcome(lg, Print(file, line, append, c.useTrace, site))
  }

  /** First header-layout call in bottom mode: header, then record, after the old content or in its place. */
  lemma RouteFirstBottom(lg: Logger, file: Content, str: string, append: bool, site: string)
    requires lg.config.headerLayout && !lg.headerPrinted && !lg.config.printOnTop
    ensures Route(lg, file, str, append, site).file ==
            (if append then file else []) + [HeaderLine(lg.config, site), RecordLine(lg.config, str, site)]
  {
  }

  /**
   * First header-layout call in top mode: the bare header (no trace suffix)
   * and the record go in together at the cursor, or nothing at all is
   * written when the cursor is past the end of the file.
   */
  lemma RouteFirstTop(lg: Logger, file: Content, str: string, append: bool, site: string)
    requires lg.config.headerLayout && !lg.headerPrinted && lg.config.printOnTop
    ensures Route(lg, file, str, append, site).file ==
            InsertOrKeep(file, [lg.config.header, RecordLine(lg.config, str, site)], lg.cursor)
  {
    var c := lg.config;
    if lg.cursor < |file| {
      InsertTwice(file, c.header, RecordLine(c, str, site), lg.cursor);
    }
  }

  /** A later appending call adds the record and no header: at the end, or at the cursor in top mode. */
  lemma RouteLaterAppend(lg: Logger, file: Content, str: string, site: string)
    requires lg.config.headerLayout && lg.headerPrinted
    ensures Route(lg, file, str, true, site).file ==
            if lg.config.printOnTop then InsertOrKeep(file, [RecordLine(lg.config, str, site)], lg.cursor)
            else file + [RecordLine(lg.config, str, site)]
  {
  }

  /** A later call with `append = false` truncates to header and record, even in top mode. */
  lemma RouteLaterTruncate(lg: Logger, file: Content, str: string, site: string)
    requires lg.config.headerLayout && lg.headerPrinted
    ensures Route(lg, file, str, false, site) ==
            Outcome(lg, [HeaderLine(lg.config, site), RecordLine(lg.config, str, site)])
  {
  }

  /**
   * Without header layout every line is stamped; top mode with `append`
   * inserts at index 0, which drops the line when the file is empty.
   */
  lemma RouteNoHeader(lg: Logger, file: Content, str: string, append: bool, site: string)
    requires !lg.config.headerLayout
    ensures Route(lg, file, str, append, site) ==
            Outcome(lg,
              if lg.config.printOnTop && append then InsertOrKeep(file, [RecordLine(lg.config, str, site)], 0)
              else (if append then file else []) + [RecordLine(lg.config, str, site)])
  {
  }

  /**
   * printPrepare: route the call, then enforce the line limit.  What the write
   * produced survives whole when it is within the limit; otherwise exactly
   * `max(lineLimit, 0)` lines of it survive, the front window in top mode and
   * the back window in bottom mode.  Wherever the source's 32-bit difference
   * does not overflow, this is exactly the source's eviction.
   */
  function Prepare(lg: Logger, file: Content, str: string, append: bool, site: string): (o: Outcome)
    ensures o.logger == Route(lg, file, str, append, site).logger
    ensures Trimmed(o.file, Route(lg, file, str, append, site).file, lg.config.lineLimit, lg.config.printOnTop)
  {
    var routed := Route(lg, file, str, append, site);
    EvictTrimmed(routed.file, lg.config.lineLimit, lg.config.printOnTop);
    Outcome(routed.logger, Evict(routed.file, lg.config.lineLimit, lg.config.printOnTop))
  }

  /**
   * printLog, all four overloads: the missing severity is `Normal` and the
   * missing flag `append = true`.  The message is labelled before it is
   * routed, so in bottom mode the labelled record is the file's last line.
   */
  function PrintLog(lg: Logger, file: Content, site: string, msg: string,
                    logType: int := Normal, append: bool := true): (o: Outcome)
    ensures o.logger.config == lg.config
    ensures |o.file| <= Max0(lg.config.lineLimit)
  {
    Prepare(lg, file, Typed(msg, logType), append, site)
  }

  /** The inputs a call writes, and the file, are all single lines. */
  predicate CallWellFormed(lg: Logger, file: Content, str: string, site: string) {
    && WellFormed(file)
    && SingleLine(str)
    && SingleLine(site)
    && SingleLine(lg.config.header)
    && SingleLine(lg.config.timestamp)
  }

  lemma RecordLineSingle(c: Config, str: string, site: string)
    requires SingleLine(str) && SingleLine(site) && SingleLine(c.timestamp)
    ensures SingleLine(RecordLine(c, str, site))
  {
    if !c.headerLayout { StampedSingleLine(c.timestamp, str); }
    TracedSingleLine(Body(c, str), c.useTrace, site);
  }

  lemma InsertOrKeepWellFormed(file: Content, s: seq<string>, i: nat)
    requires WellFormed(file) && WellFormed(s)
    ensures WellFormed(InsertOrKeep(file, s, i))
  {
    if i < |file| {
      WellFormedSlice(file, 0, i);
      WellFormedSlice(file, i, |file|);
      WellFormedConcat(file[..i], s);
      WellFormedConcat(file[..i] + s, file[i..]);
    }
  }

  /** Every line the write step leaves in the file is a single line. */
  lemma RouteWellFormedHeader(lg: Logger, file: Content, str: string, append: bool, site: string)
    requires CallWellFormed(lg, file, str, site) && lg.config.headerLayout
    ensures WellFormed(Route(lg, file, str, append, site).file)
  {
    var c := lg.config;
    var h := HeaderLine(c, site);
    var rec := RecordLine(c, str, site);
    TracedSingleLine(c.header, c.useTrace, site);
    RecordLineSingle(c, str, site);
    if !lg.headerPrinted && !c.printOnTop {
      var base: Content := if append then file else [];
      RouteFirstBottom(lg, file, str, append, site);
      WellFormedConcat(base, [h, rec]);
    } else if !lg.headerPrinted {
      RouteFirstTop(lg, file, str, append, site);
      InsertOrKeepWellFormed(file, [c.header, rec], lg.cursor);
    } else if append {
      RouteLaterAppend(lg, file, str, site);
      InsertOrKeepWellFormed(file, [rec], lg.cursor);
      WellFormedConcat(file, [rec]);
    } else {
      RouteLaterTruncate(lg, file, str, site);
    }
  }

  lemma RouteWellFormedNoHeader(lg: Logger, file: Content, str: string, append: bool, site: string)
    requires CallWellFormed(lg, file, str, site) && !lg.config.headerLayout
    ensures WellFormed(Route(lg, file, str, append, site).file)
  {
    var rec := RecordLine(lg.config, str, site);
    RecordLineSingle(lg.config, str, site);
    var base: Content := if append then file else [];
    RouteNoHeader(lg, file, str, append, site);
    InsertOrKeepWellFormed(file, [rec], 0);
    WellFormedConcat(base, [rec]);
  }

  /**
   * Writing single-line texts keeps every line of the file a single line, so
   * the next read sees exactly the lines the model holds.
   */
  lemma PrepareWellFormed(lg: Logger, file: Content, str: string, append: bool, site: string)
    requires CallWellFormed(lg, file, str, site)
    ensures WellFormed(Prepare(lg, file, str, append, site).file)
  {
    var w := Route(lg, file, str, append, site).file;
    if lg.config.headerLayout {
      RouteWellFormedHeader(lg, file, str, append, site);
    } else {
      RouteWellFormedNoHeader(lg, file, str, append, site);
    }
    var r := Prepare(lg, file, str, append, site).file;
    assert Window(r, w, lg.config.printOnTop);
    if lg.config.printOnTop { WellFormedSlice(w, 0, |r|); } else { WellFormedSlice(w, |w| - |r|, |w|); }
  }

  /** In top mode an appending call on an empty (or missing) file writes nothing, whatever the layout. */
  lemma TopModeOnEmptyFile(lg: Logger, str: string, site: string)
    requires lg.config.printOnTop
    ensures Prepare(lg, [], str, true, site).file == []
  {
    var c := lg.config;
    if c.headerLayout && !lg.headerPrinted {
      RouteFirstTop(lg, [], str, true, site);
    } else if c.headerLayout {
      RouteLaterAppend(lg, [], str, site);
    } else {
      RouteNoHeader(lg, [], str, true, site);
    }
  }

  /**
   * The first header-layout call in top mode ignores `append`: a truncating
   * call writes what an appending one writes, and every old line survives the
   * write, after the two inserted lines when the cursor is inside the file.
   */
  lemma FirstTopIgnoresAppend(lg: Logger, file: Content, str: string, site: string)
    requires lg.config.headerLayout && !lg.headerPrinted && lg.config.printOnTop
    ensures Prepare(lg, file, str, false, site) == Prepare(lg, file, str, true, site)
    ensures var w := Route(lg, file, str, false, site).file;
            if lg.cursor < |file| then
              |w| == |file| + 2 && w[..lg.cursor] == file[..lg.cursor] && w[lg.cursor + 2..] == file[lg.cursor..]
            else w == file
  {
    RouteFirstTop(lg, file, str, false, site);
    RouteFirstTop(lg, file, str, true, site);
    var w := Route(lg, file, str, false, site).file;
    if lg.cursor < |file| {
      var ins := [lg.config.header, RecordLine(lg.config, str, site)];
      assert w == file[..lg.cursor] + ins + file[lg.cursor..];
      assert w[..lg.cursor] == file[..lg.cursor];
      assert w[lg.cursor + 2..] == file[lg.cursor..];
    }
  }

  /** `line` is the file's last line. */
  predicate EndsWith(f: Content, line: string) {
    |f| >= 1 && f[|f| - 1] == line
  }

  /** In bottom mode the newest record is always the last line, whenever the limit allows any line. */
  lemma BottomNewestIsLast(lg: Logger, file: Content, str: string, append: bool, site: string)
    requires !lg.config.printOnTop && lg.config.lineLimit >= 1
    ensures EndsWith(Prepare(lg, file, str, append, site).file, RecordLine(lg.config, str, site))
  {
    var c := lg.config;
    if c.headerLayout && !lg.headerPrinted {
      RouteFirstBottom(lg, file, str, append, site);
    } else if c.headerLayout && append {
      RouteLaterAppend(lg, file, str, site);
    } else if c.headerLayout {
      RouteLaterTruncate(lg, file, str, site);
    } else {
      RouteNoHeader(lg, file, str, append, site);
    }
  }

  /** Every overload labels the message and hands it to `printPrepare`. */
  lemma PrintLogIsPrepare(lg: Logger, file: Content, site: string, msg: string, logType: int, append: bool)
    ensures PrintLog(lg, file, site, msg, logType, append) == Prepare(lg, file, Typed(msg, logType), append, site)
  {
  }

  /** In bottom mode with a limit of at least 1, the labelled message just logged is the file's last line. */
  lemma PrintLogNewestIsLast(lg: Logger, file: Content, site: string, msg: string, logType: int, append: bool)
    requires !lg.config.printOnTop && lg.config.lineLimit >= 1
    ensures EndsWith(PrintLog(lg, file, site, msg, logType, append).file, RecordLine(lg.config, Typed(msg, logType), site))
  {
    var str := Typed(msg, logType);
    PrintLogIsPrepare(lg, file, site, msg, logType, append);
    BottomNewestIsLast(lg, file, str, append, site);
  }
}
