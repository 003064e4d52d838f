/** Text of a log line: severity labels, the caller-trace suffix, the header and the timestamp prefix. */
module Format {

  /** Severity codes of `EasyLog.LogType`. */
  const Normal: int := 1
  const Debug: int := 2
  const Warning: int := 3
  const Error: int := 4

  /** Width of every severity label. */
  const LabelWidth: nat := 9

  predicate Known(logType: int) {
    Normal <= logType <= Error
  }

  function Label(logType: int): (r: string)
    requires Known(logType)
    ensures |r| == LabelWidth
  {
    if logType == Normal then "normal : "
    else if logType == Debug then "debug  : "
    else if logType == Warning then "warning: "
    else "error  : "
  }

  /** strTypped: a known code puts its label in front of the message, any other code leaves it alone. */
  function Typed(str: string, logType: int): (r: string)
    ensures Known(logType) ==> |r| == LabelWidth + |str| && r[..LabelWidth] == Label(logType) && r[LabelWidth..] == str
    ensures !Known(logType) ==> r == str
  {
    if Known(logType) then Label(logType) + str else str
  }

  /** A labelled line determines both its severity and its message. */
  lemma TypedDecodes(m1: string, t1: int, m2: string, t2: int)
    requires Known(t1) && Known(t2)
    requires Typed(m1, t1) == Typed(m2, t2)
    ensures t1 == t2 && m1 == m2
  {
    var r := Typed(m1, t1);
    assert Label(t1) == r[..LabelWidth] == Label(t2);
    assert m1 == r[LabelWidth..] == m2;
  }

  lemma ErrorLabelExample()
    ensures Typed("x", Error) == "error  : x"
  {
  }

  /** What `lineOut` appends: `" - at "`, the caller's stack frame, a blank. */
  function TraceSuffix(site: string): (r: string)
    ensures |r| == |site| + 7
    ensures r[..6] == " - at " && r[6..|r| - 1] == site && r[|r| - 1] == ' '
  {
    " - at " + site + " "
  }

  /** A line as written when the trace flag is `useTrace`. */
  function Traced(str: string, useTrace: bool, site: string): (r: string)
    ensures |str| <= |r| && r[..|str|] == str
    ensures useTrace <==> r != str
    ensures useTrace ==> r[|str|..] == TraceSuffix(site)
  {
    if useTrace then str + TraceSuffix(site) else str
  }

  /** The rule of 23 `=` signs on either side of the default header. */
  const Rule: string := "======================="

  /** The default header: a rule and a blank, the session's timestamp, a blank and a rule. */
  function DefaultHeader(timestamp: string): (r: string)
    ensures |r| == |timestamp| + 2 * |Rule| + 2
    ensures r[..|Rule| + 1] == Rule + " "
    ensures r[|Rule| + 1..|Rule| + 1 + |timestamp|] == timestamp
    ensures r[|Rule| + 1 + |timestamp|..] == " " + Rule
  {
    Rule + " " + timestamp + " " + Rule
  }

  /** Different timestamps give different default headers. */
  lemma DefaultHeaderDecodes(t1: string, t2: string)
    requires DefaultHeader(t1) == DefaultHeader(t2)
    ensures t1 == t2
  {
    var r := DefaultHeader(t1);
    assert |t1| == |t2|;
    assert t1 == r[|Rule| + 1..|Rule| + 1 + |t1|] == t2;
  }

  /** A record line without header layout: the timestamp, a blank, the message. */
  function Stamped(timestamp: string, str: string): (r: string)
    ensures |r| == |timestamp| + 1 + |str|
    ensures r[..|timestamp|] == timestamp && r[|timestamp|] == ' ' && r[|timestamp| + 1..] == str
  {
    timestamp + " " + str
  }

  /** No line terminator inside: the text reads back as exactly one line. */
  predicate SingleLine(s: string) {
    forall i :: 0 <= i < |s| ==> s[i] != '\n' && s[i] != '\r'
  }

  lemma SingleLineConcat(a: string, b: string)
    ensures SingleLine(a + b) <==> SingleLine(a) && SingleLine(b)
  {
    if SingleLine(a) && SingleLine(b) {
      forall i | 0 <= i < |a + b|
        ensures (a + b)[i] != '\n' && (a + b)[i] != '\r'
      {
        if i < |a| { assert (a + b)[i] == a[i]; } else { assert (a + b)[i] == b[i - |a|]; }
      }
    }
    if SingleLine(a + b) {
      forall i | 0 <= i < |a| ensures a[i] != '\n' && a[i] != '\r' { assert (a + b)[i] == a[i]; }
      forall i | 0 <= i < |b| ensures b[i] != '\n' && b[i] != '\r' { assert (a + b)[|a| + i] == b[i]; }
    }
  }

  lemma TracedSingleLine(str: string, useTrace: bool, site: string)
    requires SingleLine(str) && SingleLine(site)
    ensures SingleLine(Traced(str, useTrace, site))
  {
    if useTrace {
      SingleLineConcat(" - at ", site);
      SingleLineConcat(" - at " + site, " ");
      SingleLineConcat(str, TraceSuffix(site));
    }
  }

  lemma StampedSingleLine(timestamp: string, str: string)
    requires SingleLine(timestamp) && SingleLine(str)
    ensures SingleLine(Stamped(timestamp, str))
  {
    SingleLineConcat(timestamp, " ");
    SingleLineConcat(timestamp + " ", str);
  }
}
