/**
 * What a run of appending log calls leaves in the file: in bottom mode the
 * most recent lines in the order they were written, in top mode without
 * header layout the most recent lines newest first, and in top mode on an
 * empty file nothing at all.
 */
module Retention {
  import opened Format
  import opened LogFile
  import opened Eviction
  import opened Session

  /** The last `max(n, 0)` lines of `s`, or all of them when there are fewer. */
  function Tail(s: Content, n: int): (r: Content)
    ensures |r| <= |s| && r == s[|s| - |r|..]
    ensures |r| == if |s| <= Max0(n) then |s| else Max0(n)
  {
    if |s| <= Max0(n) then s else s[|s| - Max0(n)..]
  }

  /** The first `max(n, 0)` lines of `s`, or all of them when there are fewer. */
  function Head(s: Content, n: int): (r: Content)
    ensures |r| <= |s| && r == s[..|r|]
    ensures |r| == if |s| <= Max0(n) then |s| else Max0(n)
  {
    if |s| <= Max0(n) then s else s[..Max0(n)]
  }

  /** The last `j` lines of `x + t`, expressed through `x` and `t`. */
  lemma SuffixOfConcat(x: Content, t: Content, j: nat)
    requires j <= |x| + |t|
    ensures j <= |t| ==> (x + t)[|x + t| - j..] == t[|t| - j..]
    ensures |t| < j ==> (x + t)[|x + t| - j..] == x[|x| - (j - |t|)..] + t
  {
    if j <= |t| {
      assert (x + t)[|x + t| - j..] == t[|t| - j..];
    } else {
      assert (x + t)[|x + t| - j..] == x[|x| - (j - |t|)..] + t;
    }
  }

  /** Cutting the back window, adding lines and cutting again is one cut of everything. */
  lemma TailConcat(s: Content, t: Content, n: int)
    ensures Tail(Tail(s, n) + t, n) == Tail(s + t, n)
  {
    var k := Max0(n);
    var a := Tail(s, n);
    if |s| > k {
      assert |a| == k;
      if |t| >= k {
        SuffixOfConcat(a, t, k);
        SuffixOfConcat(s, t, k);
      } else {
        SuffixOfConcat(a, t, k);
        SuffixOfConcat(s, t, k);
        assert a[|a| - (k - |t|)..] == s[|s| - (k - |t|)..];
      }
    }
  }

  /** Cutting the front window, putting lines before it and cutting again is one cut of everything. */
  lemma HeadConcat(t: Content, s: Content, n: int)
    ensures Head(t + Head(s, n), n) == Head(t + s, n)
  {
    var k := Max0(n);
    var a := Head(s, n);
    if |s| > k {
      if |t| >= k {
        assert (t + a)[..k] == t[..k];
        assert (t + s)[..k] == t[..k];
      } else {
        assert (t + a)[..k] == t + s[..k - |t|];
        assert (t + s)[..k] == t + s[..k - |t|];
      }
    }
  }

  /** Bottom-mode eviction is the back window, top-mode eviction the front window. */
  lemma EvictIsWindow(lines: Content, lineLimit: int, top: bool)
    ensures Evict(lines, lineLimit, top) == if top then Head(lines, lineLimit) else Tail(lines, lineLimit)
  {
  }

  /** One appending `printLog` call: the message, its severity and the caller's frame. */
  datatype Call = Call(msg: string, logType: int, site: string)

  /** The line a call records once the header question is settled. */
  function Record(c: Config, call: Call): string {
    RecordLine(c, Typed(call.msg, call.logType), call.site)
  }

  /** The record lines of `calls` in the order they were made. */
  function Records(c: Config, calls: seq<Call>): (r: Content)
    ensures |r| == |calls|
    decreases |calls|
  {
    if |calls| == 0 then [] else [Record(c, calls[0])] + Records(c, calls[1..])
  }

  lemma RecordsSplit(file: Content, c: Config, calls: seq<Call>)
    requires |calls| > 0
    ensures file + Records(c, calls) == (file + [Record(c, calls[0])]) + Records(c, calls[1..])
  {
  }

  /** The same record lines, newest first. */
  function NewestFirst(c: Config, calls: seq<Call>): (r: Content)
    ensures |r| == |calls|
    decreases |calls|
  {
    if |calls| == 0 then [] else NewestFirst(c, calls[1..]) + [Record(c, calls[0])]
  }

  /** One `printLog(msg, logType)` call per element, in order, each from its own call site. */
  function LogAll(lg: Logger, file: Content, calls: seq<Call>): (o: Outcome)
    ensures o.logger.config == lg.config
    decreases |calls|
  {
    if |calls| == 0 then Outcome(lg, file)
    else
      var o := PrintLog(lg, file, calls[0].site, calls[0].msg, calls[0].logType);
      LogAll(o.logger, o.file, calls[1..])
  }

  /** One bottom-mode call once the header question is settled: the logger stays as it was. */
  lemma BottomStep(lg: Logger, file: Content, call: Call)
    requires !lg.config.printOnTop
    requires lg.headerPrinted || !lg.config.headerLayout
    ensures PrintLog(lg, file, call.site, call.msg, call.logType) ==
            Outcome(lg, Tail(file + [Record(lg.config, call)], lg.config.lineLimit))
  {
    var c := lg.config;
    var str := Typed(call.msg, call.logType);
    var rec := Record(c, call);
    if c.headerLayout { RouteLaterAppend(lg, file, str, call.site); } else { RouteNoHeader(lg, file, str, true, call.site); }
    EvictIsWindow(file + [rec], c.lineLimit, false);
  }

  /**
   * Bottom mode once the header question is settled: after a non-empty run of
   * calls the file holds the last `lineLimit` lines of the old content
   * followed by the new records.
   */
  lemma {:induction false} BottomRetention(lg: Logger, file: Content, calls: seq<Call>)
    requires !lg.config.printOnTop
    requires lg.headerPrinted || !lg.config.headerLayout
    requires |calls| > 0
    ensures LogAll(lg, file, calls).file == Tail(file + Records(lg.config, calls), lg.config.lineLimit)
    decreases |calls|
  {
    var c := lg.config;
    var rec := Record(c, calls[0]);
    BottomStep(lg, file, calls[0]);
    var f := Tail(file + [rec], c.lineLimit);
    assert LogAll(lg, file, calls) == LogAll(lg, f, calls[1..]);
    if |calls| == 1 {
      assert Records(c, calls) == [rec];
    } else {
      var rest := Records(c, calls[1..]);
      BottomRetention(lg, f, calls[1..]);
      TailConcat(file + [rec], rest, c.lineLimit);
      RecordsSplit(file, c, calls);
    }
  }

  lemma HeaderRecordsSplit(file: Content, h: string, c: Config, calls: seq<Call>)
    requires |calls| > 0
    ensures file + [h] + Records(c, calls) == (file + [h, Record(c, calls[0])]) + Records(c, calls[1..])
  {
    RecordsSplit(file + [h], c, calls);
    assert file + [h, Record(c, calls[0])] == (file + [h]) + [Record(c, calls[0])];
  }

  /** The first header-layout call in bottom mode: header and record are added and the header is marked printed. */
  lemma FirstBottomStep(lg: Logger, file: Content, call: Call)
    requires lg.config.headerLayout && !lg.headerPrinted && !lg.config.printOnTop
    ensures var o := PrintLog(lg, file, call.site, call.msg, call.logType);
            && o.logger.config == lg.config && o.logger.headerPrinted
            && o.file == Tail(file + [HeaderLine(lg.config, call.site), Record(lg.config, call)], lg.config.lineLimit)
  {
    var c := lg.config;
    var str := Typed(call.msg, call.logType);
    RouteFirstBottom(lg, file, str, true, call.site);
    EvictIsWindow(file + [HeaderLine(c, call.site), Record(c, call)], c.lineLimit, false);
  }

  /**
   * The calls after the first one in a fresh header-layout bottom-mode
   * session, whatever header line `h` the first call wrote.
   */
  lemma HeaderOnceRest(lg: Logger, file: Content, h: string, calls: seq<Call>, o: Outcome)
    requires !lg.config.printOnTop && |calls| > 0
    requires o.logger.config == lg.config && o.logger.headerPrinted
    requires o.file == Tail(file + [h, Record(lg.config, calls[0])], lg.config.lineLimit)
    ensures LogAll(o.logger, o.file, calls[1..]).file == Tail(file + [h] + Records(lg.config, calls), lg.config.lineLimit)
  {
    var c := lg.config;
    var rec := Record(c, calls[0]);
    var rest := Records(c, calls[1..]);
    HeaderRecordsSplit(file, h, c, calls);
    if |calls| > 1 {
      calc {
        LogAll(o.logger, o.file, calls[1..]).file;
        { BottomRetention(o.logger, o.file, calls[1..]); }
        Tail(o.file + rest, c.lineLimit);
        { TailConcat(file + [h, rec], rest, c.lineLimit); }
        Tail((file + [h, rec]) + rest, c.lineLimit);
      }
    } else {
      assert rest == [] && (file + [h, rec]) + rest == file + [h, rec];
    }
  }

  /**
   * A fresh header-layout session in bottom mode: the header is written once,
   * traced with the first caller's frame, before the first record, and counts
   * against the limit like any other line.
   */
  lemma HeaderOnceBottom(lg: Logger, file: Content, calls: seq<Call>)
    requires lg.config.headerLayout && !lg.headerPrinted && !lg.config.printOnTop
    requires |calls| > 0
    ensures LogAll(lg, file, calls).file ==
            Tail(file + [HeaderLine(lg.config, calls[0].site)] + Records(lg.config, calls), lg.config.lineLimit)
  {
    FirstBottomStep(lg, file, calls[0]);
    var o := PrintLog(lg, file, calls[0].site, calls[0].msg, calls[0].logType);
    assert LogAll(lg, file, calls) == LogAll(o.logger, o.file, calls[1..]);
    HeaderOnceRest(lg, file, HeaderLine(lg.config, calls[0].site), calls, o);
  }

  /** With a limit of 2, logging "a", "b", "c" leaves the lines of "b" and "c": the header is evicted first. */
  lemma CeilingTwoScenario(timestamp: string, site: string)
    ensures var base := NewLogger(timestamp);
            var lg := base.(config := base.config.(lineLimit := 2, useTrace := false));
            LogAll(lg, [], [Call("a", Normal, site), Call("b", Normal, site), Call("c", Normal, site)]).file ==
              ["normal : b", "normal : c"]
  {
    var base := NewLogger(timestamp);
    var lg := base.(config := base.config.(lineLimit := 2, useTrace := false));
    var c := lg.config;
    var calls := [Call("a", Normal, site), Call("b", Normal, site), Call("c", Normal, site)];
    HeaderOnceBottom(lg, [], calls);
    assert c.headerLayout && !c.useTrace;
    forall m: string ensures Record(c, Call(m, Normal, site)) == "normal : " + m {
      assert Typed(m, Normal) == "normal : " + m;
    }
    assert calls[2..] == [Call("c", Normal, site)] && calls[2..][1..] == [];
    assert calls[1..] == [Call("b", Normal, site), Call("c", Normal, site)] && calls[1..][1..] == calls[2..];
    assert "normal : " + "a" == "normal : a" && "normal : " + "b" == "normal : b" && "normal : " + "c" == "normal : c";
    assert Records(c, []) == [];
    assert Records(c, calls[2..]) == ["normal : c"];
    assert Records(c, calls[1..]) == ["normal : b", "normal : c"];
    assert Records(c, calls) == ["normal : a", "normal : b", "normal : c"];
  }

  lemma NewestFirstSplit(file: Content, c: Config, calls: seq<Call>)
    requires |calls| > 0
    ensures NewestFirst(c, calls) + file == NewestFirst(c, calls[1..]) + ([Record(c, calls[0])] + file)
  {
  }

  /**
   * One top-mode call without header layout: the record goes in at index 0 of
   * a non-empty file and the front window is kept; an empty file stays empty.
   */
  lemma TopStep(lg: Logger, file: Content, call: Call)
    requires lg.config.printOnTop && !lg.config.headerLayout
    ensures PrintLog(lg, file, call.site, call.msg, call.logType) ==
            Outcome(lg, if file == [] then [] else Head([Record(lg.config, call)] + file, lg.config.lineLimit))
  {
    var c := lg.config;
    var str := Typed(call.msg, call.logType);
    var rec := Record(c, call);
    RouteNoHeader(lg, file, str, true, call.site);
    EvictIsWindow(InsertOrKeep(file, [rec], 0), c.lineLimit, true);
    assert file != [] ==> InsertOrKeep(file, [rec], 0) == [rec] + file;
  }

  /**
   * Top mode without header layout: after a non-empty run of calls a file that
   * had content holds the first `lineLimit` lines of the new records, newest
   * first, followed by the old content; a file that was empty stays empty.
   */
  lemma {:induction false} TopRetention(lg: Logger, file: Content, calls: seq<Call>)
    requires lg.config.printOnTop && !lg.config.headerLayout
    requires |calls| > 0
    ensures LogAll(lg, file, calls).file ==
            if file == [] then [] else Head(NewestFirst(lg.config, calls) + file, lg.config.lineLimit)
    decreases |calls|
  {
    var c := lg.config;
    var rec := Record(c, calls[0]);
    TopStep(lg, file, calls[0]);
    var f := if file == [] then [] else Head([rec] + file, c.lineLimit);
    assert LogAll(lg, file, calls) == LogAll(lg, f, calls[1..]);
    NewestFirstSplit(file, c, calls);
    if |calls| == 1 {
      assert NewestFirst(c, calls[1..]) == [];
    } else {
      TopRetention(lg, f, calls[1..]);
      if file != [] && f != [] {
        HeadConcat(NewestFirst(c, calls[1..]), [rec] + file, c.lineLimit);
      }
    }
  }

  /**
   * Top mode on an empty file: however many appending calls are made, in
   * either layout, nothing is ever written.
   */
  lemma {:induction false} TopRetentionFromEmpty(lg: Logger, calls: seq<Call>)
    requires lg.config.printOnTop
    ensures LogAll(lg, [], calls).file == []
    decreases |calls|
  {
    if |calls| > 0 {
      TopModeOnEmptyFile(lg, Typed(calls[0].msg, calls[0].logType), calls[0].site);
      var o := PrintLog(lg, [], calls[0].site, calls[0].msg, calls[0].logType);
      TopRetentionFromEmpty(o.logger, calls[1..]);
    }
  }
}
