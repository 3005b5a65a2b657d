/** Line selection of compressors/log_stripper.rs: parsing, candidate buckets, the ranked cut. */
module LogStripper {
  import opened Options
  import opened Sorting

  datatype Level = Error | Fail | Warn | Info | Debug | Trace | Unknown

  datatype Flavor = PythonTraceback | Js | Java | RustError | Go

  datatype LogLine = LogLine(number: nat, content: string, level: Level, stack: bool, summary: bool, score: real)

  datatype Config = Config(
    maxErrors: nat, contextLines: nat, keepFirst: bool, keepLast: bool, maxStacks: nat, stackMaxLines: nat,
    maxWarnings: nat, dedupeWarnings: bool, keepSummary: bool)

  /** The string detectors, kept uninterpreted. */
  datatype Detectors = Detectors(
    level: string -> Level,
    flavor: string -> Option<Flavor>,
    terminates: (Flavor, string) -> bool,
    summary: string -> bool,
    normalize: string -> string,
    matches: (string, seq<string>) -> bool)

  // ----- scores -----

  const FOCUS_SCORE: real := 0.3

  function LevelScore(level: Level): real {
    match level
    case Error => 1.0
    case Fail => 1.0
    case Warn => 0.5
    case Info => 0.1
    case Unknown => 0.1
    case Debug => 0.05
    case Trace => 0.02
  }

  function Score(level: Level, stack: bool, summary: bool): real {
    var total := LevelScore(level) + (if stack then 0.3 else 0.0) + (if summary then 0.4 else 0.0);
    if total < 1.0 then total else 1.0
  }

  predicate Diagnostic(l: LogLine) {
    l.level.Error? || l.level.Fail? || l.level.Warn? || l.stack || l.summary
  }

  predicate Scored(l: LogLine) {
    l.score == Score(l.level, l.stack, l.summary)
  }

  /** The focus score lies strictly between every plain line and every diagnostic. */
  lemma FocusSeparates(l: LogLine)
    requires Scored(l)
    ensures Diagnostic(l) <==> l.score > FOCUS_SCORE
    ensures !Diagnostic(l) <==> l.score < FOCUS_SCORE
  {
  }

  // ----- parse_lines -----

  /** The header of the trace that line `i` belongs to. */
  function TraceHeader(d: Detectors, maxLines: nat, lines: seq<string>, i: nat): (h: Option<nat>)
    requires i < |lines|
    ensures h.Some? ==> h.value <= i && d.flavor(lines[h.value]).Some?
  {
    var before := if i == 0 then None else TraceHeader(d, maxLines, lines, i - 1);
    if before.Some? && i - before.value < maxLines && !d.terminates(d.flavor(lines[before.value]).value, lines[i]) then before
    else if d.flavor(lines[i]).Some? then Some(i)
    else None
  }

  function ParsedLine(d: Detectors, maxLines: nat, lines: seq<string>, i: nat): LogLine
    requires i < |lines|
  {
    var level, stack, summary := d.level(lines[i]), TraceHeader(d, maxLines, lines, i).Some?, d.summary(lines[i]);
    LogLine(i, lines[i], level, stack, summary, Score(level, stack, summary))
  }

  method ParseLines(d: Detectors, maxLines: nat, lines: seq<string>) returns (out: seq<LogLine>)
    ensures |out| == |lines|
    ensures forall i | 0 <= i < |out| :: out[i] == ParsedLine(d, maxLines, lines, i)
    ensures WellParsed(out)
  {
    out := [];
    var active: Option<Flavor>, traceLines := None, 0;
    for i := 0 to |lines|
      invariant |out| == i && forall k | 0 <= k < i :: out[k] == ParsedLine(d, maxLines, lines, k)
      invariant i == 0 ==> active == None
      invariant i > 0 ==>
                  var h := TraceHeader(d, maxLines, lines, i - 1);
                  if h.Some? then active == d.flavor(lines[h.value]) && traceLines == i - h.value else active == None
    {
      var line := lines[i];
      var stack := false;
      if active.Some? {
        if traceLines >= maxLines || d.terminates(active.value, line) {
          active, traceLines := None, 0;
          if d.flavor(line).Some? {
            active, traceLines, stack := d.flavor(line), 1, true;
          }
        } else {
          stack, traceLines := true, traceLines + 1;
        }
      } else if d.flavor(line).Some? {
        active, traceLines, stack := d.flavor(line), 1, true;
      }
      var level, summary := d.level(line), d.summary(line);
      out := out + [LogLine(i, line, level, stack, summary, Score(level, stack, summary))];
    }
  }

  /** No line between `h` and `i` ends the trace `h` opens, and `i` is within the line cap. */
  ghost predicate Reaches(d: Detectors, maxLines: nat, lines: seq<string>, h: nat, i: nat)
    requires h <= i < |lines|
  {
    && d.flavor(lines[h]).Some?
    && (i == h || i - h < maxLines)
    && forall k | h < k <= i :: !d.terminates(d.flavor(lines[h]).value, lines[k])
  }

  ghost predicate Opens(d: Detectors, maxLines: nat, lines: seq<string>, h: nat)
    requires h < |lines|
  {
    TraceHeader(d, maxLines, lines, h) == Some(h)
  }

  /** A line is a stack line exactly when an opening line reaches it, and then only one does. */
  lemma {:induction false} TraceIff(d: Detectors, maxLines: nat, lines: seq<string>, i: nat, h: nat)
    requires h <= i < |lines|
    ensures TraceHeader(d, maxLines, lines, i) == Some(h)
       <==> Opens(d, maxLines, lines, h) && Reaches(d, maxLines, lines, h, i)
    decreases i
  {
    if i > h {
      TraceIff(d, maxLines, lines, i - 1, h);
      var before := TraceHeader(d, maxLines, lines, i - 1);
      if Opens(d, maxLines, lines, h) && Reaches(d, maxLines, lines, h, i) {
        assert Reaches(d, maxLines, lines, h, i - 1);
      }
    } else if TraceHeader(d, maxLines, lines, i) == Some(i) {
      assert Reaches(d, maxLines, lines, i, i);
    }
  }

  /** Every line that looks like a trace header is a stack line, even right after another trace. */
  lemma HeadersAreStackLines(d: Detectors, maxLines: nat, lines: seq<string>, i: nat)
    requires i < |lines| && d.flavor(lines[i]).Some?
    ensures ParsedLine(d, maxLines, lines, i).stack
  {
  }

  ghost predicate WellParsed(lines: seq<LogLine>) {
    forall i | 0 <= i < |lines| :: lines[i].number == i && Scored(lines[i])
  }

  // ----- ranking -----

  predicate Ranks(a: LogLine, b: LogLine) {
    a.score > b.score || (a.score == b.score && a.number <= b.number)
  }

  predicate ByNumber(a: LogLine, b: LogLine) {
    a.number <= b.number
  }

  ghost predicate InLineOrder(s: seq<LogLine>) {
    forall i, j | 0 <= i < j < |s| :: s[i].number < s[j].number
  }

  ghost predicate DistinctNumbers(s: seq<LogLine>) {
    forall i, j | 0 <= i < j < |s| :: s[i].number != s[j].number
  }

  function Numbers(s: seq<LogLine>): set<nat> {
    set l | l in s :: l.number
  }

  /** The `limit` best-ranked lines, back in line order. */
  function Cut(limit: nat, ordered: seq<LogLine>): seq<LogLine> {
    if |ordered| > limit then
      SortKeepsElements(Ranks, ordered);
      SortBy(ByNumber, SortBy(Ranks, ordered)[..limit])
    else ordered
  }

  lemma NumbersFollow(s: seq<LogLine>, t: seq<LogLine>)
    requires DistinctNumbers(s) && Distinct(t) && forall l | l in t :: l in s
    ensures DistinctNumbers(t)
  {
    forall i, j | 0 <= i < j < |t|
      ensures t[i].number != t[j].number
    {
      assert t[i] in s && t[j] in s && t[i] != t[j];
    }
  }

  lemma RankedOnce(ordered: seq<LogLine>)
    requires InLineOrder(ordered)
    ensures var s := SortBy(Ranks, ordered);
            && |s| == |ordered| && multiset(s) == multiset(ordered) && Sorted(Ranks, s) && DistinctNumbers(s)
            && forall l :: l in s <==> l in ordered
  {
    var s := SortBy(Ranks, ordered);
    SortKeepsElements(Ranks, ordered);
    SortSorts(Ranks, ordered);
    DistinctCounts(ordered, s);
    forall l
      ensures l in s <==> l in ordered
    {
      InSorted(Ranks, ordered, l);
    }
    NumbersFollow(ordered, s);
  }

  lemma LineOrder(s: seq<LogLine>)
    requires DistinctNumbers(s)
    ensures var t := SortBy(ByNumber, s);
            && |t| == |s| && InLineOrder(t) && forall l :: l in t <==> l in s
  {
    var t := SortBy(ByNumber, s);
    SortKeepsElements(ByNumber, s);
    SortSorts(ByNumber, s);
    DistinctCounts(s, t);
    forall l
      ensures l in t <==> l in s
    {
      InSorted(ByNumber, s, l);
    }
    NumbersFollow(s, t);
    forall i, j | 0 <= i < j < |t|
      ensures t[i].number < t[j].number
    {
      assert ByNumber(t[i], t[j]);
    }
  }

  /** The cut keeps line order, keeps as many as fit, and every kept line outranks every cut one. */
  lemma CutKeepsTheBest(limit: nat, ordered: seq<LogLine>)
    requires InLineOrder(ordered)
    ensures var kept := Cut(limit, ordered);
            && InLineOrder(kept)
            && |kept| == (if |ordered| <= limit then |ordered| else limit)
            && (forall l | l in kept :: l in ordered)
            && (forall x, y | x in kept && y in ordered && y !in kept :: Ranks(x, y))
  {
    if |ordered| > limit {
      var s := SortBy(Ranks, ordered);
      RankedOnce(ordered);
      LineOrder(s[..limit]);
      var kept := Cut(limit, ordered);
      assert kept == SortBy(ByNumber, s[..limit]);
      forall x, y | x in kept && y in ordered && y !in kept
        ensures Ranks(x, y)
      {
        assert x in s[..limit] && y in s && y !in s[..limit];
      }
    }
  }

  /** The candidates ranked above `y`. */
  function Above(ordered: seq<LogLine>, y: LogLine): set<LogLine> {
    set x | x in ordered && x != y && Ranks(x, y)
  }

  /** A candidate survives the cut exactly when fewer than `limit` candidates rank above it. */
  lemma KeptIff(limit: nat, ordered: seq<LogLine>, y: LogLine)
    requires InLineOrder(ordered) && y in ordered
    ensures y in Cut(limit, ordered) <==> |Above(ordered, y)| < limit
  {
    var s := SortBy(Ranks, ordered);
    RankedOnce(ordered);
    var p: nat :| p < |s| && s[p] == y;
    AboveIsPrefix(ordered, s, p);
    if |ordered| > limit {
      hide Sorted, Above;
      LineOrder(s[..limit]);
      assert y in s[..limit] <==> p < limit;
    }
  }

  lemma RankIsPosition(s: seq<LogLine>, q: nat, p: nat)
    requires q < |s| && p < |s| && Sorted(Ranks, s) && DistinctNumbers(s)
    ensures q == p || (s[q] != s[p] && (Ranks(s[q], s[p]) <==> q < p))
  {
    assert q < p ==> Ranks(s[q], s[p]);
    assert p < q ==> Ranks(s[p], s[q]);
  }

  lemma AboveIsPrefix(ordered: seq<LogLine>, s: seq<LogLine>, p: nat)
    requires p < |s| && Sorted(Ranks, s) && DistinctNumbers(s) && forall l :: l in s <==> l in ordered
    ensures |Above(ordered, s[p])| == p
  {
    var y, prefix := s[p], Elements(s[..p]);
    forall q | 0 <= q < |s|
      ensures s[q] in Above(ordered, y) <==> q < p
      ensures s[q] in prefix <==> q < p
    {
      RankIsPosition(s, q, p);
      assert q < p ==> s[..p][q] == s[q];
    }
    assert Above(ordered, y) == prefix;
    DistinctSize(s[..p]);
  }
}
