/**
 * The log file as a value and the three private operations that touch it:
 * `print` (append or truncate), `printOnTop` (splice at a line index) and
 * `getTotalLines`.  A file that does not exist reads as no lines at all.
 */
module LogFile {
  import opened Format

  /** The file's lines in order, without their terminators. */
  type Content = seq<string>

  /** Every line is free of terminators, so writing it and reading it back is the identity. */
  predicate WellFormed(lines: Content) {
    forall i :: 0 <= i < |lines| ==> SingleLine(lines[i])
  }

  lemma WellFormedConcat(a: Content, b: Content)
    ensures WellFormed(a + b) <==> WellFormed(a) && WellFormed(b)
  {
    if WellFormed(a + b) {
      forall i | 0 <= i < |a| ensures SingleLine(a[i]) { assert (a + b)[i] == a[i]; }
      forall i | 0 <= i < |b| ensures SingleLine(b[i]) { assert (a + b)[|a| + i] == b[i]; }
    }
  }

  lemma WellFormedSlice(a: Content, lo: int, hi: int)
    requires WellFormed(a) && 0 <= lo <= hi <= |a|
    ensures WellFormed(a[lo..hi])
  {
    forall i | 0 <= i < hi - lo ensures SingleLine(a[lo..hi][i]) { assert a[lo..hi][i] == a[lo + i]; }
  }

  /** print: the line (with the trace suffix when enabled) goes after the old content, or replaces it. */
  function Print(lines: Content, str: string, append: bool, useTrace: bool, site: string): (r: Content)
    ensures |r| == (if append then |lines| else 0) + 1
    ensures r[..|r| - 1] == (if append then lines else [])
    ensures r[|r| - 1] == Traced(str, useTrace, site)
  {
    (if append then lines else []) + [Traced(str, useTrace, site)]
  }

  /**
   * The read loop of printOnTop from line number `counter` on: the new line is
   * emitted just before the line whose number equals `position`, and nowhere
   * else.
   */
  function InsertScan(rest: Content, str: string, position: int, counter: int): (r: Content)
    ensures counter <= position < counter + |rest| ==>
              r == rest[..position - counter] + [str] + rest[position - counter..]
    ensures !(counter <= position < counter + |rest|) ==> r == rest
    decreases |rest|
  {
    if |rest| == 0 then []
    else if counter == position then [str, rest[0]] + InsertScan(rest[1..], str, position, counter + 1)
    else [rest[0]] + InsertScan(rest[1..], str, position, counter + 1)
  }

  /**
   * The text printOnTop inserts: the trace suffix is added when tracing is on,
   * except under header layout before the header has been printed.
   */
  function TopText(str: string, headerLayout: bool, headerPrinted: bool, useTrace: bool, site: string): (r: string)
    ensures r == Traced(str, useTrace && (headerLayout ==> headerPrinted), site)
  {
    if headerLayout then
      if headerPrinted && useTrace then str + TraceSuffix(site) else str
    else
      if useTrace then str + TraceSuffix(site) else str
  }

  /**
   * printOnTop: splices the line in before index `position`; an index outside
   * the file (an empty or missing file included) leaves the content as it was.
   */
  function PrintOnTop(lines: Content, str: string, position: int,
                      headerLayout: bool, headerPrinted: bool, useTrace: bool, site: string): (r: Content)
    ensures 0 <= position < |lines| ==>
              r == lines[..position] + [TopText(str, headerLayout, headerPrinted, useTrace, site)] + lines[position..]
    ensures !(0 <= position < |lines|) ==> r == lines
  {
    InsertScan(lines, TopText(str, headerLayout, headerPrinted, useTrace, site), position, 0)
  }

  /** `s` without its element at index `i`. */
  function RemoveAt(s: Content, i: int): (r: Content)
    requires 0 <= i < |s|
    ensures |r| == |s| - 1
  {
    s[..i] + s[i + 1..]
  }

  /**
   * An insertion within range adds exactly one line, at `position`, and taking
   * it out again gives back the old content: every old line keeps its order.
   */
  lemma PrintOnTopUndo(lines: Content, str: string, position: int,
                       headerLayout: bool, headerPrinted: bool, useTrace: bool, site: string)
    requires 0 <= position < |lines|
    ensures var t := TopText(str, headerLayout, headerPrinted, useTrace, site);
            var r := PrintOnTop(lines, str, position, headerLayout, headerPrinted, useTrace, site);
            && |r| == |lines| + 1
            && r[position] == t
            && RemoveAt(r, position) == lines
            && multiset(r) == multiset(lines) + multiset{t}
  {
    var t := TopText(str, headerLayout, headerPrinted, useTrace, site);
    var r := PrintOnTop(lines, str, position, headerLayout, headerPrinted, useTrace, site);
    assert r[..position] == lines[..position];
    assert r[position + 1..] == lines[position..];
    assert lines == lines[..position] + lines[position..];
  }

  /** The counting loop of getTotalLines from line number `counter` on. */
  function CountScan(rest: Content, counter: int): (r: int)
    ensures r == counter + |rest|
    decreases |rest|
  {
    if |rest| == 0 then counter else CountScan(rest[1..], counter + 1)
  }

  /** getTotalLines: the number of lines, 0 for an empty or missing file. */
  function TotalLines(lines: Content): (r: nat)
    ensures r == |lines|
  {
    CountScan(lines, 0)
  }
}
