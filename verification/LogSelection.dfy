/** `select_lines` of compressors/log_stripper.rs: buckets, focus, context, and the ranked cut. */
module LogSelection {
  import opened Sequences
  import opened Sorting
  import opened LogStripper

  // ----- buckets -----

  predicate IsError(l: LogLine) { l.level.Error? }

  predicate IsFail(l: LogLine) { l.level.Fail? }

  predicate IsWarn(l: LogLine) { l.level.Warn? }

  predicate IsStack(l: LogLine) { l.stack }

  predicate IsSummary(l: LogLine) { l.summary }

  function Keep(lines: seq<LogLine>, p: LogLine -> bool): seq<LogLine> {
    if lines == [] then []
    else
      var init, last := Keep(lines[..|lines| - 1], p), lines[|lines| - 1];
      if p(last) then init + [last] else init
  }

  lemma {:induction false} KeepMembers(lines: seq<LogLine>, p: LogLine -> bool)
    ensures forall l :: l in Keep(lines, p) <==> l in lines && p(l)
  {
    if lines != [] {
      KeepMembers(lines[..|lines| - 1], p);
      assert lines == lines[..|lines| - 1] + [lines[|lines| - 1]];
    }
  }

  lemma {:induction false} KeepIncreases(lines: seq<LogLine>, p: LogLine -> bool)
    requires InLineOrder(lines)
    ensures InLineOrder(Keep(lines, p))
  {
    if lines != [] {
      var init := lines[..|lines| - 1];
      KeepIncreases(init, p);
      KeepMembers(init, p);
      var kept := Keep(init, p);
      forall i | 0 <= i < |kept|
        ensures kept[i].number < lines[|lines| - 1].number
      {
        assert kept[i] in init;
      }
    }
  }

  lemma {:induction false} KeepStaysDistinct(lines: seq<LogLine>, p: LogLine -> bool)
    requires DistinctNumbers(lines)
    ensures DistinctNumbers(Keep(lines, p))
  {
    if lines != [] {
      var init := lines[..|lines| - 1];
      KeepStaysDistinct(init, p);
      KeepMembers(init, p);
      var kept := Keep(init, p);
      forall i | 0 <= i < |kept|
        ensures kept[i].number != lines[|lines| - 1].number
      {
        assert kept[i] in init;
      }
    }
  }

  lemma {:induction false} KeepIsSorted(lines: seq<LogLine>, p: LogLine -> bool)
    requires Sorted(Ranks, lines)
    ensures Sorted(Ranks, Keep(lines, p))
  {
    if lines != [] {
      var init := lines[..|lines| - 1];
      KeepIsSorted(init, p);
      KeepMembers(init, p);
      var kept := Keep(init, p);
      forall i | 0 <= i < |kept|
        ensures Ranks(kept[i], lines[|lines| - 1])
      {
        assert kept[i] in init;
      }
    }
  }

  /** The first and last line, where the configuration forces them in. */
  function Forced(cfg: Config, lines: seq<LogLine>): (forced: seq<LogLine>)
    requires lines != []
    ensures |forced| <= |lines| && |forced| <= 2
    ensures forall l | l in forced :: l in lines
  {
    if cfg.keepFirst then if cfg.keepLast && |lines| > 1 then [lines[0], lines[|lines| - 1]] else [lines[0]]
    else if cfg.keepLast then [lines[|lines| - 1]]
    else []
  }

  function Room(max: nat, used: nat): nat {
    if used < max then max - used else 0
  }

  function Rest(forced: seq<LogLine>, lines: seq<LogLine>): seq<LogLine> {
    Keep(SortBy(Ranks, lines), l => l !in forced)
  }

  function FirstLast(cfg: Config, lines: seq<LogLine>, max: nat): seq<LogLine> {
    if |lines| <= max then lines
    else
      var forced := Forced(cfg, lines);
      forced + Truncate(Rest(forced, lines), Room(max, |forced|))
  }

  method SelectWithFirstLast(cfg: Config, lines: seq<LogLine>, max: nat) returns (out: seq<LogLine>)
    requires InLineOrder(lines)
    ensures out == FirstLast(cfg, lines, max)
  {
    if |lines| <= max {
      return lines;
    }
    var seen: set<nat>;
    out, seen := PushForced(cfg, lines);
    if max > |out| {
      out := FillByScore(lines, max, out, seen);
    }
  }

  method PushUnseen(line: LogLine, out0: seq<LogLine>, seen0: set<nat>) returns (out: seq<LogLine>, seen: set<nat>)
    requires seen0 == Numbers(out0)
    ensures out == (if line.number in Numbers(out0) then out0 else out0 + [line]) && seen == Numbers(out)
  {
    out, seen := out0, seen0;
    if line.number !in seen {
      seen := seen + {line.number};
      out := out + [line];
    }
  }

  method PushForced(cfg: Config, lines: seq<LogLine>) returns (out: seq<LogLine>, seen: set<nat>)
    requires InLineOrder(lines) && lines != []
    ensures out == Forced(cfg, lines) && seen == Numbers(out)
  {
    out, seen := [], {};
    if cfg.keepFirst {
      out, seen := PushUnseen(lines[0], out, seen);
    }
    if cfg.keepLast {
      out, seen := PushUnseen(lines[|lines| - 1], out, seen);
    }
  }

  method FillByScore(lines: seq<LogLine>, max: nat, forced: seq<LogLine>, seen0: set<nat>) returns (out: seq<LogLine>)
    requires InLineOrder(lines) && |forced| < max && seen0 == Numbers(forced)
    requires forall l | l in forced :: l in lines
    ensures out == forced + Truncate(Rest(forced, lines), max - |forced|)
  {
    hide *;
    var byScore := SortBy(Ranks, lines);
    RankedOnce(lines);
    FilledStart(forced, byScore);
    var seen := seen0;
    out := forced;
    var i := 0;
    while i < |byScore| && |out| < max
      invariant i <= |byScore| && |out| <= max
      invariant out == Filled(forced, byScore, i) && seen == Numbers(out)
    {
      FillStep(lines, byScore, i, forced);
      out, seen := PushUnseen(byScore[i], out, seen);
      i := i + 1;
    }
    FilledIsRest(forced, lines, max, i);
  }

  lemma FilledStart(forced: seq<LogLine>, byScore: seq<LogLine>)
    ensures Filled(forced, byScore, 0) == forced
  {
  }

  ghost function Filled(forced: seq<LogLine>, byScore: seq<LogLine>, i: nat): seq<LogLine>
    requires i <= |byScore|
  {
    forced + Keep(byScore[..i], l => l !in forced)
  }

  lemma FillStep(lines: seq<LogLine>, byScore: seq<LogLine>, i: nat, forced: seq<LogLine>)
    requires InLineOrder(lines) && DistinctNumbers(byScore) && i < |byScore|
    requires forall l | l in byScore || l in forced :: l in lines
    ensures var out := Filled(forced, byScore, i);
            Filled(forced, byScore, i + 1) == if byScore[i].number in Numbers(out) then out else out + [byScore[i]]
  {
    var unforced := l => l !in forced;
    KeepStep(byScore, i, unforced);
    SeenMeansForced(lines, byScore, i, forced, Filled(forced, byScore, i));
    hide Keep, InLineOrder, DistinctNumbers, Numbers;
    assert Filled(forced, byScore, i) == forced + Keep(byScore[..i], unforced);
    assert Filled(forced, byScore, i + 1) == forced + Keep(byScore[..i + 1], unforced);
  }

  lemma FilledIsRest(forced: seq<LogLine>, lines: seq<LogLine>, max: nat, i: nat)
    requires |forced| < max && i <= |SortBy(Ranks, lines)|
    ensures var byScore := SortBy(Ranks, lines);
            i == |byScore| || |Filled(forced, byScore, i)| == max ==>
              |Filled(forced, byScore, i)| <= max ==>
                Filled(forced, byScore, i) == forced + Truncate(Rest(forced, lines), max - |forced|)
  {
    var byScore, unforced := SortBy(Ranks, lines), l => l !in forced;
    KeepOfPrefix(byScore, i, unforced);
    assert Rest(forced, lines) == Keep(byScore, unforced);
    assert Filled(forced, byScore, i) == forced + Keep(byScore[..i], unforced);
    assert byScore[..|byScore|] == byScore;
  }

  lemma SeenMeansForced(lines: seq<LogLine>, byScore: seq<LogLine>, i: nat, forced: seq<LogLine>, out: seq<LogLine>)
    requires InLineOrder(lines) && DistinctNumbers(byScore) && i < |byScore|
    requires forall l | l in byScore || l in forced :: l in lines
    requires forall l | l in out :: l in forced || l in byScore[..i]
    requires forall l | l in forced :: l in out
    ensures byScore[i].number in Numbers(out) <==> byScore[i] in forced
  {
    forall l | l in byScore[..i]
      ensures l.number != byScore[i].number
    {
    }
    forall l | l in forced && l.number == byScore[i].number
      ensures l == byScore[i]
    {
      assert l in lines && byScore[i] in lines;
    }
  }

  lemma KeepStep(lines: seq<LogLine>, i: nat, p: LogLine -> bool)
    requires i < |lines|
    ensures Keep(lines[..i + 1], p) == Keep(lines[..i], p) + if p(lines[i]) then [lines[i]] else []
    ensures forall l | l in Keep(lines[..i], p) :: l in lines[..i]
  {
    assert lines[..i + 1][..i] == lines[..i];
    KeepMembers(lines[..i], p);
  }

  lemma {:induction false} KeepOfPrefix(lines: seq<LogLine>, i: nat, p: LogLine -> bool)
    requires i <= |lines|
    ensures |Keep(lines[..i], p)| <= |Keep(lines, p)|
    ensures Keep(lines, p)[..|Keep(lines[..i], p)|] == Keep(lines[..i], p)
    decreases |lines|
  {
    if i < |lines| {
      var init := lines[..|lines| - 1];
      KeepOfPrefix(init, i, p);
      assert init[..i] == lines[..i];
    } else {
      assert lines[..i] == lines;
    }
  }

  lemma RestSize(forced: seq<LogLine>, lines: seq<LogLine>)
    requires InLineOrder(lines) && DistinctNumbers(forced) && forall l | l in forced :: l in lines
    ensures |Rest(forced, lines)| == |lines| - |forced|
  {
    var s, unforced := SortBy(Ranks, lines), l => l !in forced;
    RankedOnce(lines);
    KeepMembers(s, unforced);
    KeepStaysDistinct(s, unforced);
    var rest := Keep(s, unforced);
    assert Rest(forced, lines) == rest;
    DistinctSize(s);
    DistinctSize(forced);
    DistinctSize(rest);
    assert Elements(s) == Elements(forced) + Elements(rest);
  }

  /** What the bucket keeps: everything when it fits; otherwise the forced ends and the best of the rest. */
  lemma FirstLastKeepsTheBest(cfg: Config, lines: seq<LogLine>, max: nat)
    requires InLineOrder(lines)
    ensures var out := FirstLast(cfg, lines, max);
            && DistinctNumbers(out)
            && (forall l | l in out :: l in lines)
            && (|lines| <= max ==> out == lines)
            && (|lines| > max ==>
              var forced := Forced(cfg, lines);
              && |out| == (if |forced| > max then |forced| else max)
              && (forall l | l in forced :: l in out)
              && (forall x, y | x in out && x !in forced && y in lines && y !in out :: Ranks(x, y)))
  {
    if |lines| > max {
      var forced := Forced(cfg, lines);
      RestFacts(forced, lines);
      RestSize(forced, lines);
      hide Rest, Forced, Sorted, Ranks;
      BestOfRest(lines, forced, Rest(forced, lines), Room(max, |forced|));
    }
  }

  lemma RestFacts(forced: seq<LogLine>, lines: seq<LogLine>)
    requires InLineOrder(lines)
    ensures var rest := Rest(forced, lines);
            && DistinctNumbers(rest) && Sorted(Ranks, rest)
            && forall l :: l in rest <==> l in lines && l !in forced
  {
    hide SortBy, Keep, Sorted, Ranks, InLineOrder, DistinctNumbers;
    var s, unforced := SortBy(Ranks, lines), l => l !in forced;
    RankedOnce(lines);
    KeepMembers(s, unforced);
    KeepStaysDistinct(s, unforced);
    KeepIsSorted(s, unforced);
    assert Rest(forced, lines) == Keep(s, unforced);
  }

  lemma BestOfRest(lines: seq<LogLine>, forced: seq<LogLine>, rest: seq<LogLine>, n: nat)
    requires DistinctNumbers(forced) && DistinctNumbers(rest) && Sorted(Ranks, rest) && InLineOrder(lines)
    requires forall l :: l in rest <==> l in lines && l !in forced
    requires forall l | l in forced :: l in lines
    ensures var out := forced + Truncate(rest, n);
            && DistinctNumbers(out)
            && (forall l | l in out :: l in lines)
            && (forall x, y | x in out && x !in forced && y in lines && y !in out :: Ranks(x, y))
  {
    var best := Truncate(rest, n);
    var out := forced + best;
    forall l | l in best
      ensures l in rest
    {
    }
    forall x, y | x in out && x !in forced && y in lines && y !in out
      ensures Ranks(x, y)
    {
      assert x in best && y in rest && y !in best;
    }
    forall i, j | 0 <= i < |forced| && 0 <= j < |best|
      ensures forced[i].number != best[j].number
    {
      assert forced[i] in lines && best[j] in lines && forced[i] != best[j];
    }
  }

  /** The bucket exceeds its maximum exactly when the forced ends alone do. */
  lemma BucketOverrunsIff(cfg: Config, lines: seq<LogLine>, max: nat)
    requires InLineOrder(lines)
    ensures |FirstLast(cfg, lines, max)| > max <==> |lines| > max && |Forced(cfg, lines)| > max
  {
    FirstLastKeepsTheBest(cfg, lines, max);
  }

  /** It happens: room for one line, and both ends forced in. */
  lemma BucketMayOverrun(cfg: Config, a: LogLine, b: LogLine)
    requires cfg.keepFirst && cfg.keepLast && a.number < b.number
    ensures |FirstLast(cfg, [a, b], 1)| == 2
  {
    FirstLastKeepsTheBest(cfg, [a, b], 1);
    hide FirstLast;
  }

  /** The first line of each normalised text. */
  function Dedupe(d: Detectors, lines: seq<LogLine>): seq<LogLine> {
    if lines == [] then []
    else
      var init, last := lines[..|lines| - 1], lines[|lines| - 1];
      if d.normalize(last.content) in Texts(d, init) then Dedupe(d, init) else Dedupe(d, init) + [last]
  }

  function Texts(d: Detectors, lines: seq<LogLine>): set<string> {
    set l | l in lines :: d.normalize(l.content)
  }

  method DedupeSimilar(d: Detectors, lines: seq<LogLine>) returns (out: seq<LogLine>)
    ensures out == Dedupe(d, lines)
  {
    var seen: set<string> := {};
    out := [];
    for i := 0 to |lines|
      invariant out == Dedupe(d, lines[..i]) && seen == Texts(d, lines[..i])
    {
      var key := d.normalize(lines[i].content);
      assert lines[..i + 1][..i] == lines[..i];
      assert lines[..i + 1] == lines[..i] + [lines[i]];
      if key !in seen {
        out := out + [lines[i]];
      }
      seen := seen + {key};
    }
    assert lines[..|lines|] == lines;
  }

  /** Every text keeps exactly one representative, in the original order. */
  lemma {:induction false} DedupeKeepsOnePerText(d: Detectors, lines: seq<LogLine>)
    ensures var out := Dedupe(d, lines);
            && Texts(d, out) == Texts(d, lines)
            && (forall i, j | 0 <= i < j < |out| :: d.normalize(out[i].content) != d.normalize(out[j].content))
            && (forall l | l in out :: l in lines)
  {
    if lines != [] {
      var init, last := lines[..|lines| - 1], lines[|lines| - 1];
      DedupeKeepsOnePerText(d, init);
      var kept := Dedupe(d, init);
      assert lines == init + [last];
      assert Texts(d, lines) == Texts(d, init) + {d.normalize(last.content)};
      if d.normalize(last.content) !in Texts(d, init) {
        assert Texts(d, kept + [last]) == Texts(d, kept) + {d.normalize(last.content)};
        forall i | 0 <= i < |kept|
          ensures d.normalize(kept[i].content) != d.normalize(last.content)
        {
          assert d.normalize(kept[i].content) in Texts(d, init);
        }
      }
    }
  }

  // ----- stack runs -----

  function OpenRun(lines: seq<LogLine>): seq<LogLine> {
    if lines == [] || !lines[|lines| - 1].stack then []
    else OpenRun(lines[..|lines| - 1]) + [lines[|lines| - 1]]
  }

  function ClosedRuns(lines: seq<LogLine>): seq<seq<LogLine>> {
    if lines == [] then []
    else
      var init := lines[..|lines| - 1];
      if !lines[|lines| - 1].stack && OpenRun(init) != [] then ClosedRuns(init) + [OpenRun(init)] else ClosedRuns(init)
  }

  function Runs(lines: seq<LogLine>): seq<seq<LogLine>> {
    if OpenRun(lines) != [] then ClosedRuns(lines) + [OpenRun(lines)] else ClosedRuns(lines)
  }

  function Concat(runs: seq<seq<LogLine>>): seq<LogLine> {
    if runs == [] then [] else Concat(runs[..|runs| - 1]) + runs[|runs| - 1]
  }

  /** The runs are non-empty and together they are the stack lines, in order. */
  lemma {:induction false} RunsAreTheStackLines(lines: seq<LogLine>)
    ensures Concat(ClosedRuns(lines)) + OpenRun(lines) == Keep(lines, IsStack)
    ensures Concat(Runs(lines)) == Keep(lines, IsStack)
    ensures forall r | r in ClosedRuns(lines) || r in Runs(lines) :: r != []
  {
    if lines != [] {
      var init := lines[..|lines| - 1];
      RunsAreTheStackLines(init);
      if OpenRun(init) != [] {
        assert (ClosedRuns(init) + [OpenRun(init)])[..|ClosedRuns(init)|] == ClosedRuns(init);
      }
    }
    if OpenRun(lines) != [] {
      assert Runs(lines)[..|ClosedRuns(lines)|] == ClosedRuns(lines);
    }
  }

  function StackPick(cfg: Config, runs: seq<seq<LogLine>>): set<nat> {
    set r, k | 0 <= r < |runs| && r < cfg.maxStacks && 0 <= k < |runs[r]| && k < cfg.stackMaxLines :: runs[r][k].number
  }

  // ----- the selected set -----

  function Errors(lines: seq<LogLine>): seq<LogLine> {
    Keep(lines, IsError)
  }

  function Fails(lines: seq<LogLine>): seq<LogLine> {
    Keep(lines, IsFail)
  }

  function Warnings(lines: seq<LogLine>): seq<LogLine> {
    Keep(lines, IsWarn)
  }

  function Summaries(lines: seq<LogLine>): seq<LogLine> {
    Keep(lines, IsSummary)
  }

  function WarningPick(cfg: Config, d: Detectors, lines: seq<LogLine>): seq<LogLine> {
    Truncate(if cfg.dedupeWarnings then Dedupe(d, Warnings(lines)) else Warnings(lines), cfg.maxWarnings)
  }

  function Core(cfg: Config, d: Detectors, lines: seq<LogLine>): set<nat> {
    Numbers(FirstLast(cfg, Errors(lines), cfg.maxErrors))
    + Numbers(FirstLast(cfg, Fails(lines), cfg.maxErrors))
    + Numbers(WarningPick(cfg, d, lines))
    + StackPick(cfg, Runs(lines))
    + (if cfg.keepSummary then Numbers(Summaries(lines)) else {})
  }

  predicate Matches(d: Detectors, focus: seq<string>, l: LogLine) {
    focus != [] && d.matches(l.content, focus)
  }

  function Focused(d: Detectors, focus: seq<string>, lines: seq<LogLine>): set<nat> {
    set i | 0 <= i < |lines| && Matches(d, focus, lines[i])
  }

  function Boost(d: Detectors, focus: seq<string>, l: LogLine): LogLine {
    if Matches(d, focus, l) && l.score < FOCUS_SCORE then l.(score := FOCUS_SCORE) else l
  }

  predicate Near(i: nat, j: nat, reach: nat) {
    i <= j + reach && j <= i + reach
  }

  predicate NearSome(i: nat, core: set<nat>, reach: nat) {
    exists j | j in core :: Near(i, j, reach)
  }

  function Around(core: set<nat>, n: nat, reach: nat): set<nat> {
    set i: nat | i < n && NearSome(i, core, reach)
  }

  function Ordered(d: Detectors, focus: seq<string>, lines: seq<LogLine>, keep: set<nat>): seq<LogLine> {
    if lines == [] then []
    else
      var n := |lines| - 1;
      if n in keep then Ordered(d, focus, lines[..n], keep) + [Boost(d, focus, lines[n])] else Ordered(d, focus, lines[..n], keep)
  }

  function CandidateNumbers(cfg: Config, d: Detectors, lines: seq<LogLine>, focus: seq<string>): set<nat> {
    Around(Core(cfg, d, lines) + Focused(d, focus, lines), |lines|, cfg.contextLines)
  }

  function Candidates(cfg: Config, d: Detectors, lines: seq<LogLine>, focus: seq<string>): seq<LogLine> {
    Ordered(d, focus, lines, CandidateNumbers(cfg, d, lines, focus))
  }

  lemma {:induction false} OrderedMembers(d: Detectors, focus: seq<string>, lines: seq<LogLine>, keep: set<nat>)
    requires WellParsed(lines)
    ensures var out := Ordered(d, focus, lines, keep);
            && InLineOrder(out)
            && (forall l :: l in out <==> l.number < |lines| && l.number in keep && l == Boost(d, focus, lines[l.number]))
  {
    if lines != [] {
      var n := |lines| - 1;
      OrderedMembers(d, focus, lines[..n], keep);
      var init := Ordered(d, focus, lines[..n], keep);
      forall i | 0 <= i < |init|
        ensures init[i].number < n
      {
        assert init[i] in init;
      }
    }
  }

  // ----- select_lines -----

  method Collect(lines: seq<LogLine>)
    returns (errors: seq<LogLine>, fails: seq<LogLine>, warnings: seq<LogLine>, summaries: seq<LogLine>, stacks: seq<seq<LogLine>>)
    ensures errors == Errors(lines) && fails == Fails(lines) && warnings == Warnings(lines) && summaries == Summaries(lines)
    ensures stacks == Runs(lines)
  {
    errors, fails, warnings, summaries, stacks := [], [], [], [], [];
    var current: seq<LogLine> := [];
    for i := 0 to |lines|
      invariant errors == Errors(lines[..i]) && fails == Fails(lines[..i]) && warnings == Warnings(lines[..i])
      invariant summaries == Summaries(lines[..i])
      invariant stacks == ClosedRuns(lines[..i]) && current == OpenRun(lines[..i])
    {
      var line := lines[i];
      assert lines[..i + 1][..i] == lines[..i];
      match line.level {
        case Error => errors := errors + [line];
        case Fail => fails := fails + [line];
        case Warn => warnings := warnings + [line];
        case _ =>
      }
      if line.stack {
        current := current + [line];
      } else if current != [] {
        stacks, current := stacks + [current], [];
      }
      if line.summary {
        summaries := summaries + [line];
      }
    }
    assert lines[..|lines|] == lines;
    if current != [] {
      stacks := stacks + [current];
    }
  }

  /** The ordered set of selected lines, by line number; each is a line of the log. */
  ghost predicate Faithful(lines: seq<LogLine>, selected: map<nat, LogLine>) {
    forall i | i in selected :: i < |lines| && selected[i] == lines[i]
  }

  ghost predicate From(lines: seq<LogLine>, s: seq<LogLine>) {
    forall l | l in s :: l in lines
  }

  method InsertAll(ghost lines: seq<LogLine>, selected0: map<nat, LogLine>, s: seq<LogLine>) returns (selected: map<nat, LogLine>)
    requires WellParsed(lines) && From(lines, s) && Faithful(lines, selected0)
    ensures Faithful(lines, selected) && selected.Keys == selected0.Keys + Numbers(s)
  {
    selected := selected0;
    for i := 0 to |s|
      invariant Faithful(lines, selected) && selected.Keys == selected0.Keys + Numbers(s[..i])
    {
      assert s[i] in lines && s[..i + 1] == s[..i] + [s[i]];
      if s[i].number !in selected {
        selected := selected[s[i].number := s[i]];
      }
    }
    assert s[..|s|] == s;
  }

  method InsertStacks(cfg: Config, ghost lines: seq<LogLine>, selected0: map<nat, LogLine>, stacks: seq<seq<LogLine>>)
    returns (selected: map<nat, LogLine>)
    requires WellParsed(lines) && Faithful(lines, selected0) && forall r | r in stacks :: From(lines, r)
    ensures Faithful(lines, selected) && selected.Keys == selected0.Keys + StackPick(cfg, stacks)
  {
    hide *;
    selected := selected0;
    StackPickEnds(cfg, stacks);
    var r := 0;
    while r < |stacks| && r < cfg.maxStacks
      invariant r <= |stacks| && r <= cfg.maxStacks
      invariant Faithful(lines, selected) && selected.Keys == selected0.Keys + StackPick(cfg, stacks[..r])
    {
      StackPickStep(cfg, stacks, r);
      PrefixComesFrom(lines, stacks[r], cfg.stackMaxLines);
      selected := InsertAll(lines, selected, Truncate(stacks[r], cfg.stackMaxLines));
      r := r + 1;
    }
    StackPickStops(cfg, stacks, r);
  }

  lemma PrefixComesFrom(lines: seq<LogLine>, s: seq<LogLine>, n: nat)
    ensures From(lines, s) ==> From(lines, Truncate(s, n))
  {
  }

  lemma StackPickEnds(cfg: Config, stacks: seq<seq<LogLine>>)
    ensures StackPick(cfg, stacks[..0]) == {}
  {
  }

  lemma StackPickStops(cfg: Config, stacks: seq<seq<LogLine>>, r: nat)
    requires r <= |stacks| && (r == |stacks| || r >= cfg.maxStacks)
    ensures StackPick(cfg, stacks[..r]) == StackPick(cfg, stacks)
  {
    assert r == |stacks| ==> stacks[..r] == stacks;
  }

  lemma StackPickStep(cfg: Config, stacks: seq<seq<LogLine>>, r: nat)
    requires r < |stacks| && r < cfg.maxStacks
    ensures StackPick(cfg, stacks[..r + 1]) == StackPick(cfg, stacks[..r]) + Numbers(Truncate(stacks[r], cfg.stackMaxLines))
  {
    var before, after, taken := stacks[..r], stacks[..r + 1], Truncate(stacks[r], cfg.stackMaxLines);
    forall n | n in StackPick(cfg, before)
      ensures n in StackPick(cfg, after)
    {
      var q, k :| 0 <= q < |before| && q < cfg.maxStacks && 0 <= k < |before[q]| && k < cfg.stackMaxLines && before[q][k].number == n;
      assert after[q][k].number == n;
    }
    forall n | n in Numbers(taken)
      ensures n in StackPick(cfg, after)
    {
      var l :| l in taken && l.number == n;
      var k: nat :| k < |taken| && taken[k] == l;
      assert after[r][k].number == n;
    }
    forall n | n in StackPick(cfg, after)
      ensures n in StackPick(cfg, before) + Numbers(taken)
    {
      var q, k :| 0 <= q < |after| && q < cfg.maxStacks && 0 <= k < |after[q]| && k < cfg.stackMaxLines && after[q][k].number == n;
      if q < r {
        assert before[q][k].number == n;
      } else {
        assert taken[k] == after[r][k];
      }
    }
  }

  lemma BucketsComeFrom(cfg: Config, d: Detectors, lines: seq<LogLine>)
    requires WellParsed(lines)
    ensures InLineOrder(Errors(lines)) && InLineOrder(Fails(lines))
    ensures From(lines, FirstLast(cfg, Errors(lines), cfg.maxErrors)) && From(lines, FirstLast(cfg, Fails(lines), cfg.maxErrors))
    ensures From(lines, WarningPick(cfg, d, lines)) && From(lines, Summaries(lines))
  {
    KeepIncreases(lines, IsError);
    KeepIncreases(lines, IsFail);
    KeepMembers(lines, IsError);
    KeepMembers(lines, IsFail);
    KeepMembers(lines, IsWarn);
    KeepMembers(lines, IsSummary);
    FirstLastKeepsTheBest(cfg, Errors(lines), cfg.maxErrors);
    FirstLastKeepsTheBest(cfg, Fails(lines), cfg.maxErrors);
    DedupeKeepsOnePerText(d, Warnings(lines));
    hide FirstLast, Dedupe, Keep;
  }

  lemma {:induction false} RunsComeFrom(lines: seq<LogLine>)
    ensures forall r | r in ClosedRuns(lines) || r in Runs(lines) :: From(lines, r)
    ensures From(lines, OpenRun(lines))
  {
    if lines != [] {
      var init := lines[..|lines| - 1];
      RunsComeFrom(init);
      assert forall l | l in init :: l in lines;
      forall r | r in ClosedRuns(lines)
        ensures From(lines, r)
      {
        assert r in Runs(init);
      }
    }
  }

  method SelectCore(cfg: Config, d: Detectors, lines: seq<LogLine>) returns (selected: map<nat, LogLine>)
    requires WellParsed(lines)
    ensures Faithful(lines, selected) && selected.Keys == Core(cfg, d, lines)
  {
    BucketsComeFrom(cfg, d, lines);
    RunsComeFrom(lines);
    hide FirstLast, Runs, ClosedRuns, OpenRun, Errors, Fails, Warnings, Summaries, From, InLineOrder, WellParsed, Faithful, StackPick, Numbers;
    var errors, fails, warnings, summaries, stacks := Collect(lines);
    var picked := SelectWithFirstLast(cfg, errors, cfg.maxErrors);
    selected := InsertFirst(lines, picked);
    picked := SelectWithFirstLast(cfg, fails, cfg.maxErrors);
    selected := InsertAll(lines, selected, picked);
    if cfg.dedupeWarnings {
      warnings := DedupeSimilar(d, warnings);
    }
    selected := InsertAll(lines, selected, Truncate(warnings, cfg.maxWarnings));
    selected := InsertStacks(cfg, lines, selected, stacks);
    if cfg.keepSummary {
      selected := InsertAll(lines, selected, summaries);
    }
  }

  method InsertFirst(ghost lines: seq<LogLine>, s: seq<LogLine>) returns (selected: map<nat, LogLine>)
    requires WellParsed(lines) && From(lines, s)
    ensures Faithful(lines, selected) && selected.Keys == Numbers(s)
  {
    selected := InsertAll(lines, map[], s);
  }

  /** Matching lines enter, or replace their entry, with the raised score. */
  method ApplyFocus(d: Detectors, focus: seq<string>, lines: seq<LogLine>, selected0: map<nat, LogLine>)
    returns (selected: map<nat, LogLine>)
    requires WellParsed(lines) && Faithful(lines, selected0)
    ensures selected.Keys == selected0.Keys + Focused(d, focus, lines)
    ensures forall i | i in selected :: i < |lines| && selected[i] == Boost(d, focus, lines[i])
  {
    selected := selected0;
    if focus != [] {
      for i := 0 to |lines|
        invariant selected.Keys == selected0.Keys + Focused(d, focus, lines[..i])
        invariant forall k | k in selected :: k < |lines| && selected[k] == if k < i then Boost(d, focus, lines[k]) else lines[k]
      {
        if d.matches(lines[i].content, focus) {
          var boosted := lines[i].(score := if lines[i].score < FOCUS_SCORE then FOCUS_SCORE else lines[i].score);
          selected := selected[i := boosted];
        }
        assert Focused(d, focus, lines[..i + 1]) == Focused(d, focus, lines[..i]) + if Matches(d, focus, lines[i]) then {i} else {};
      }
      assert lines[..|lines|] == lines;
    }
  }

  /** The neighbours of selected lines enter as they are. */
  method AddContext(cfg: Config, lines: seq<LogLine>, selected0: map<nat, LogLine>) returns (selected: map<nat, LogLine>)
    requires forall i | i in selected0 :: i < |lines|
    ensures selected.Keys == Around(selected0.Keys, |lines|, cfg.contextLines)
    ensures forall i | i in selected && i < |lines| :: selected[i] == if i in selected0 then selected0[i] else lines[i]
  {
    hide *;
    var context := Neighbours(cfg, |lines|, selected0.Keys);
    selected := selected0;
    ContextStart(lines, selected0, context);
    for i := 0 to |lines|
      invariant ContextUpTo(lines, selected0, context, i, selected)
    {
      ContextStep(lines, selected0, context, i, selected);
      if i in context && i !in selected0 {
        selected := selected[i := lines[i]];
      }
    }
    ContextEnd(lines, selected0, context, selected);
  }

  ghost predicate ContextUpTo(lines: seq<LogLine>, selected0: map<nat, LogLine>, context: set<nat>, i: nat, selected: map<nat, LogLine>) {
    && (forall k :: k in selected <==> k in selected0 || (k in context && k < i))
    && (forall k | k in selected :: k < |lines| && selected[k] == if k in selected0 then selected0[k] else lines[k])
  }

  lemma ContextStart(lines: seq<LogLine>, selected0: map<nat, LogLine>, context: set<nat>)
    requires forall i | i in selected0 :: i < |lines|
    ensures ContextUpTo(lines, selected0, context, 0, selected0)
  {
  }

  lemma ContextStep(lines: seq<LogLine>, selected0: map<nat, LogLine>, context: set<nat>, i: nat, selected: map<nat, LogLine>)
    requires i < |lines| && ContextUpTo(lines, selected0, context, i, selected)
    ensures ContextUpTo(lines, selected0, context, i + 1,
                        if i in context && i !in selected0 then selected[i := lines[i]] else selected)
  {
  }

  lemma ContextEnd(lines: seq<LogLine>, selected0: map<nat, LogLine>, context: set<nat>, selected: map<nat, LogLine>)
    requires ContextUpTo(lines, selected0, context, |lines|, selected) && forall i | i in context :: i < |lines|
    ensures selected.Keys == context + selected0.Keys
    ensures forall i | i in selected && i < |lines| :: selected[i] == if i in selected0 then selected0[i] else lines[i]
  {
  }

  function Below(s: set<nat>, n: nat): set<nat> {
    set k | k in s && k < n
  }

  function Window(n: nat, idx: nat, reach: nat): set<nat> {
    set i: nat | i < n && Near(i, idx, reach)
  }

  method Neighbours(cfg: Config, n: nat, chosen: set<nat>) returns (context: set<nat>)
    requires forall i | i in chosen :: i < n
    ensures context + chosen == Around(chosen, n, cfg.contextLines)
    ensures forall i | i in context :: i < n
  {
    hide *;
    context := {};
    BelowEnds(chosen, n, cfg.contextLines);
    for idx := 0 to n
      invariant forall i | i in context :: i < n
      invariant context + Below(chosen, idx) == Around(Below(chosen, idx), n, cfg.contextLines)
    {
      BelowStep(chosen, idx, n, cfg.contextLines);
      if idx in chosen {
        context := AddWindow(cfg, n, idx, context);
      }
    }
  }

  lemma BelowEnds(chosen: set<nat>, n: nat, reach: nat)
    requires forall i | i in chosen :: i < n
    ensures Below(chosen, 0) == {} && Around({}, n, reach) == {} && Below(chosen, n) == chosen
  {
  }

  method AddWindow(cfg: Config, n: nat, idx: nat, context0: set<nat>) returns (context: set<nat>)
    requires idx < n
    ensures context == context0 + (Window(n, idx, cfg.contextLines) - {idx})
  {
    var lo := if idx >= cfg.contextLines then idx - cfg.contextLines else 0;
    var hi := if idx + cfg.contextLines + 1 < n then idx + cfg.contextLines + 1 else n;
    context := context0;
    for i := lo to hi
      invariant context == context0 + (Below(Window(n, idx, cfg.contextLines), i) - {idx})
    {
      if i != idx {
        context := context + {i};
      }
    }
  }

  lemma BelowStep(chosen: set<nat>, idx: nat, n: nat, reach: nat)
    requires idx < n
    ensures Below(chosen, idx + 1) == Below(chosen, idx) + if idx in chosen then {idx} else {}
    ensures idx in Window(n, idx, reach) && forall i | i in Window(n, idx, reach) :: i < n
    ensures Around(Below(chosen, idx + 1), n, reach)
         == Around(Below(chosen, idx), n, reach) + if idx in chosen then Window(n, idx, reach) else {}
  {
    assert Below(chosen, idx + 1) == Below(chosen, idx) + if idx in chosen then {idx} else {};
    AroundGrows(Below(chosen, idx), idx, n, reach);
  }

  lemma AroundGrows(core: set<nat>, idx: nat, n: nat, reach: nat)
    ensures Around(core + {idx}, n, reach) == Around(core, n, reach) + Window(n, idx, reach)
  {
    forall i: nat
      ensures NearSome(i, core + {idx}, reach) <==> NearSome(i, core, reach) || Near(i, idx, reach)
    {
      if NearSome(i, core, reach) {
        var j :| j in core && Near(i, j, reach);
        assert j in core + {idx};
      }
      assert idx in core + {idx};
    }
  }

  method SelectLines(cfg: Config, d: Detectors, lines: seq<LogLine>, focus: seq<string>, limit: nat) returns (r: seq<LogLine>)
    requires WellParsed(lines)
    ensures r == Cut(limit, Candidates(cfg, d, lines, focus))
  {
    hide *;
    var selected := SelectCore(cfg, d, lines);
    selected := ApplyFocus(d, focus, lines, selected);
    forall i: nat | i < |lines|
      ensures i !in Focused(d, focus, lines) ==> Boost(d, focus, lines[i]) == lines[i]
    {
      UnfocusedIsUnboosted(d, focus, lines, i);
    }
    selected := AddContext(cfg, lines, selected);
    var ordered := InOrder(d, focus, lines, selected);
    CandidatesAre(cfg, d, lines, focus);
    r := CutTo(limit, ordered);
  }

  lemma UnfocusedIsUnboosted(d: Detectors, focus: seq<string>, lines: seq<LogLine>, i: nat)
    requires i < |lines|
    ensures i !in Focused(d, focus, lines) ==> Boost(d, focus, lines[i]) == lines[i]
  {
  }

  lemma CandidatesAre(cfg: Config, d: Detectors, lines: seq<LogLine>, focus: seq<string>)
    ensures Candidates(cfg, d, lines, focus)
         == Ordered(d, focus, lines, Around(Core(cfg, d, lines) + Focused(d, focus, lines), |lines|, cfg.contextLines))
  {
  }

  method InOrder(d: Detectors, focus: seq<string>, lines: seq<LogLine>, selected: map<nat, LogLine>) returns (ordered: seq<LogLine>)
    requires forall i | i in selected && i < |lines| :: selected[i] == Boost(d, focus, lines[i])
    ensures ordered == Ordered(d, focus, lines, selected.Keys)
  {
    hide Boost;
    ordered := [];
    for i := 0 to |lines|
      invariant ordered == Ordered(d, focus, lines[..i], selected.Keys)
    {
      assert lines[..i + 1][..i] == lines[..i];
      if i in selected {
        ordered := ordered + [selected[i]];
      }
    }
    assert lines[..|lines|] == lines;
  }

  method CutTo(limit: nat, ordered: seq<LogLine>) returns (kept: seq<LogLine>)
    ensures kept == Cut(limit, ordered)
  {
    kept := ordered;
    if |ordered| > limit {
      var byScore := SortBy(Ranks, ordered);
      SortKeepsElements(Ranks, ordered);
      kept := SortBy(ByNumber, byScore[..limit]);
    }
  }
}
