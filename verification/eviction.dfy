/**
 * checkStackedLineLimit: after every write the file is cut down to at most
 * `lineLimit` lines, keeping the front window in top mode and the back window
 * otherwise.  Without header layout the front window holds the newest lines;
 * with header layout top mode inserts below the header in logging order, so
 * the front window holds the header and the oldest records.
 */
module Eviction {
  import opened JavaInt
  import opened LogFile

  function Max0(x: int): nat {
    if x < 0 then 0 else x
  }

  /** `x` forced into `0..n`. */
  function Clamp(x: int, n: nat): (r: nat)
    ensures r <= n
    ensures 0 <= x <= n ==> r == x
  {
    if x < 0 then 0 else if x > n then n else x
  }

  /** The top-mode read loop from line number `counter` on: copy while `counter < lineLimit`, then stop. */
  function TakeScan(rest: Content, lineLimit: int, counter: int): (r: Content)
    ensures r == rest[..Clamp(lineLimit - counter, |rest|)]
    decreases |rest|
  {
    if |rest| == 0 then []
    else if counter < lineLimit then [rest[0]] + TakeScan(rest[1..], lineLimit, counter + 1)
    else []
  }

  /** The bottom-mode read loop from line number `counter` on: copy the lines numbered `diff` or more. */
  function DropScan(rest: Content, diff: int, counter: int): (r: Content)
    ensures r == rest[Clamp(diff - counter, |rest|)..]
    decreases |rest|
  {
    if |rest| == 0 then []
    else (if counter >= diff then [rest[0]] else []) + DropScan(rest[1..], diff, counter + 1)
  }

  /**
   * The eviction check with the line difference computed exactly.  A file
   * within the limit is left alone; a longer one keeps its first (top mode)
   * or last (bottom mode) `max(lineLimit, 0)` lines.
   */
  function Evict(lines: Content, lineLimit: int, top: bool): (r: Content)
    ensures |lines| <= lineLimit ==> r == lines
    ensures lineLimit < |lines| && top ==> r == lines[..Max0(lineLimit)]
    ensures lineLimit < |lines| && !top ==> r == lines[|lines| - Max0(lineLimit)..]
    ensures |r| <= Max0(lineLimit) && |r| <= |lines|
  {
    var totalLines := TotalLines(lines);
    if totalLines > lineLimit then
      if top then TakeScan(lines, lineLimit, 0)
      else DropScan(lines, totalLines - lineLimit, 0)
    else lines
  }

  /** `r` is a window of `lines`: a prefix when `top`, a suffix otherwise. */
  predicate Window(r: Content, lines: Content, top: bool) {
    |r| <= |lines| && if top then r == lines[..|r|] else r == lines[|lines| - |r|..]
  }

  /** Eviction keeps a window of the old content: a prefix in top mode, a suffix otherwise. */
  lemma EvictWindow(lines: Content, lineLimit: int, top: bool)
    ensures Window(Evict(lines, lineLimit, top), lines, top)
  {
    var r := Evict(lines, lineLimit, top);
    if |lines| <= lineLimit {
      assert r == lines;
      assert lines[..|lines|] == lines && lines[|lines| - |lines|..] == lines;
    } else if top {
      assert r == lines[..Max0(lineLimit)] && |r| == Max0(lineLimit);
    } else {
      assert r == lines[|lines| - Max0(lineLimit)..] && |r| == Max0(lineLimit);
    }
  }

  lemma EvictIdempotent(lines: Content, lineLimit: int, top: bool)
    ensures Evict(Evict(lines, lineLimit, top), lineLimit, top) == Evict(lines, lineLimit, top)
  {
  }

  /**
   * The eviction check as the source computes it: `totalLines - lineLimit` is
   * a 32-bit `int` subtraction.  The line counters themselves are `int` too,
   * so the file is taken to have at most `MaxInt` lines.
   */
  function EvictAsWritten(lines: Content, lineLimit: Int32, top: bool): (r: Content)
    requires |lines| <= MaxInt
    ensures |lines| - lineLimit <= MaxInt ==> r == Evict(lines, lineLimit, top)
  {
    var totalLines := TotalLines(lines);
    if totalLines > lineLimit then
      if top then TakeScan(lines, lineLimit, 0)
      else DropScan(lines, Wrap(totalLines - lineLimit), 0)
    else lines
  }

  /**
   * When the difference overflows (a limit close to `Integer.MIN_VALUE`),
   * bottom mode keeps every line, and the file ends up over the limit.
   */
  lemma OverflowKeepsEverything(lines: Content, lineLimit: Int32)
    requires 0 < |lines| <= MaxInt
    requires |lines| - lineLimit > MaxInt
    ensures EvictAsWritten(lines, lineLimit, false) == lines
    ensures |EvictAsWritten(lines, lineLimit, false)| > Max0(lineLimit)
  {
    var d := Wrap(|lines| - lineLimit);
    assert d == |lines| - lineLimit - Modulus;
    assert DropScan(lines, d, 0) == lines[0..];
  }

  lemma OverflowExample()
    ensures EvictAsWritten(["x"], MinInt, false) == ["x"]
    ensures |Evict(["x"], MinInt, false)| == 0
  {
    OverflowKeepsEverything(["x"], MinInt);
  }

  /** How many of `n` lines eviction leaves: all of them within the limit, `max(lineLimit, 0)` otherwise. */
  function KeptCount(n: nat, lineLimit: int): nat {
    if n <= Max0(lineLimit) then n else Max0(lineLimit)
  }

  /**
   * `r` is what eviction leaves of `lines`: a window of the right size, and,
   * wherever the 32-bit difference does not overflow, the source's own result.
   */
  predicate Trimmed(r: Content, lines: Content, lineLimit: Int32, top: bool) {
    && Window(r, lines, top)
    && |r| == KeptCount(|lines|, lineLimit)
    && (|lines| <= MaxInt && |lines| - lineLimit <= MaxInt ==> r == EvictAsWritten(lines, lineLimit, top))
  }

  lemma EvictTrimmed(lines: Content, lineLimit: Int32, top: bool)
    ensures Trimmed(Evict(lines, lineLimit, top), lines, lineLimit, top)
  {
    EvictWindow(lines, lineLimit, top);
  }
}
