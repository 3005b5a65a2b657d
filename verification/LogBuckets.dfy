/** Which lines the buckets of `select_lines` take before focus and context are applied. */
module LogBuckets {
  import opened LogStripper
  import opened LogSelection

  // ----- traces by position -----

  predicate OpensRun(lines: seq<LogLine>, i: nat)
    requires i < |lines|
  {
    lines[i].stack && (i == 0 || !lines[i - 1].stack)
  }

  /** How many traces begin among the first `n` lines. */
  function RunsBefore(lines: seq<LogLine>, n: nat): nat
    requires n <= |lines|
  {
    if n == 0 then 0 else RunsBefore(lines, n - 1) + if OpensRun(lines, n - 1) then 1 else 0
  }

  /** How many lines of its own trace come before line `i`. */
  function Offset(lines: seq<LogLine>, i: nat): nat
    requires i < |lines|
  {
    if i == 0 || !lines[i - 1].stack then 0 else 1 + Offset(lines, i - 1)
  }

  lemma {:induction false} RunsCounted(lines: seq<LogLine>, n: nat)
    requires n <= |lines|
    ensures |Runs(lines[..n])| == RunsBefore(lines, n)
    ensures n > 0 && lines[n - 1].stack ==> |OpenRun(lines[..n])| == 1 + Offset(lines, n - 1)
    ensures OpenRun(lines[..n]) != [] <==> n > 0 && lines[n - 1].stack
  {
    if n > 0 {
      RunsCounted(lines, n - 1);
      assert lines[..n][..n - 1] == lines[..n - 1];
    }
  }

  /** One more line extends the last trace, opens one, or changes none. */
  lemma RunsGrow(init: seq<LogLine>, last: LogLine)
    ensures var before, after := Runs(init), Runs(init + [last]);
            && |before| <= |after|
            && (forall r, k | 0 <= r < |before| && 0 <= k < |before[r]| :: k < |after[r]| && after[r][k] == before[r][k])
            && (last.stack ==> after != [] && after[|after| - 1] == OpenRun(init) + [last])
  {
    hide ClosedRuns;
    assert (init + [last])[..|init|] == init;
    ClosedStep(init, last);
  }

  lemma ClosedStep(init: seq<LogLine>, last: LogLine)
    ensures ClosedRuns(init + [last]) ==
            if !last.stack && OpenRun(init) != [] then ClosedRuns(init) + [OpenRun(init)] else ClosedRuns(init)
    ensures OpenRun(init + [last]) == if last.stack then OpenRun(init) + [last] else []
  {
    assert (init + [last])[..|init|] == init;
  }

  /** Line `i` sits in the trace opened last, at its offset. */
  lemma {:induction false} RunHolds(lines: seq<LogLine>, i: nat, n: nat)
    requires i < n <= |lines| && lines[i].stack
    ensures var runs := Runs(lines[..n]);
            var r := RunsBefore(lines, i + 1) - 1;
            0 <= r < |runs| && Offset(lines, i) < |runs[r]| && runs[r][Offset(lines, i)] == lines[i]
    decreases n
  {
    hide Runs, OpensRun, RunsBefore, Offset, OpenRun;
    assert lines[..n] == lines[..n - 1] + [lines[n - 1]];
    RunsGrow(lines[..n - 1], lines[n - 1]);
    if i < n - 1 {
      RunHolds(lines, i, n - 1);
    } else {
      RunsCounted(lines, n);
      OpenBefore(lines, i);
    }
  }

  lemma OpenBefore(lines: seq<LogLine>, i: nat)
    requires i < |lines| && lines[i].stack
    ensures |OpenRun(lines[..i])| == Offset(lines, i)
  {
    RunsCounted(lines, i);
  }

  // ----- the buckets -----

  /** Does line `i` belong to the first lines of one of the first traces? */
  predicate InLeadingTrace(cfg: Config, lines: seq<LogLine>, i: nat)
    requires i < |lines|
  {
    lines[i].stack && RunsBefore(lines, i + 1) <= cfg.maxStacks && Offset(lines, i) < cfg.stackMaxLines
  }

  /** Every line of a trace knows which trace it is in, and where. */
  ghost predicate Placed(lines: seq<LogLine>, runs: seq<seq<LogLine>>) {
    forall r, k | 0 <= r < |runs| && 0 <= k < |runs[r]| :: PlacedAt(lines, runs[r][k], r, k)
  }

  predicate PlacedAt(lines: seq<LogLine>, l: LogLine, r: nat, k: nat) {
    var i := l.number;
    i < |lines| && lines[i].stack && RunsBefore(lines, i + 1) == r + 1 && Offset(lines, i) == k
  }

  lemma {:induction false} RunsArePlaced(lines: seq<LogLine>, n: nat)
    requires WellParsed(lines) && n <= |lines|
    ensures Placed(lines, Runs(lines[..n]))
  {
    hide Runs, OpensRun, RunsBefore, Offset, OpenRun, Scored;
    if n == 0 {
      NoRuns();
      assert lines[..0] == [];
    } else {
      assert lines[..n] == lines[..n - 1] + [lines[n - 1]];
      RunsArePlaced(lines, n - 1);
      RunsCounted(lines, n);
      RunsCounted(lines, n - 1);
      var before, after, last := Runs(lines[..n - 1]), Runs(lines[..n]), lines[n - 1];
      LastRunGrows(lines[..n - 1], last);
      OpenIsLast(lines[..n]);
      forall r, k | 0 <= r < |after| && 0 <= k < |after[r]|
        ensures PlacedAt(lines, after[r][k], r, k)
      {
        if r < |before| && k < |before[r]| {
          assert PlacedAt(lines, before[r][k], r, k);
        } else {
          assert last.stack && r == |after| - 1 && k == |after[r]| - 1 && after[r][k] == last;
        }
      }
    }
  }

  lemma OpenIsLast(lines: seq<LogLine>)
    ensures OpenRun(lines) != [] ==> Runs(lines) != [] && Runs(lines)[|Runs(lines)| - 1] == OpenRun(lines)
  {
  }

  lemma NoRuns()
    ensures Runs([]) == []
  {
  }

  /** All traces but the last stay, and the last gains at most the new line. */
  lemma LastRunGrows(init: seq<LogLine>, last: LogLine)
    ensures var before, after := Runs(init), Runs(init + [last]);
            if !last.stack then after == before
            else if OpenRun(init) == [] then after == before + [[last]]
            else before != [] && after == before[..|before| - 1] + [before[|before| - 1] + [last]]
  {
    hide ClosedRuns;
    ClosedStep(init, last);
    assert OpenRun(init) == [] ==> OpenRun(init) + [last] == [last];
    assert OpenRun(init) != [] ==> Runs(init)[..|Runs(init)| - 1] == ClosedRuns(init);
  }

  /** The traces contribute exactly the first lines of the first traces. */
  lemma StackPickIff(cfg: Config, lines: seq<LogLine>, i: nat)
    requires WellParsed(lines)
    ensures i in StackPick(cfg, Runs(lines)) <==> i < |lines| && InLeadingTrace(cfg, lines, i)
  {
    RunsArePlaced(lines, |lines|);
    assert lines[..|lines|] == lines;
    if i < |lines| && lines[i].stack {
      RunHolds(lines, i, |lines|);
    }
    hide Runs, RunsBefore, Offset, Scored;
  }

  /** Whatever a bucket has room for is taken: all errors, all failures and all warnings within their
      maximum, the first lines of the first traces, and every summary line when these are kept. */
  lemma BucketsTake(cfg: Config, d: Detectors, lines: seq<LogLine>, i: nat)
    requires WellParsed(lines) && i < |lines|
    ensures lines[i].level.Error? && |Errors(lines)| <= cfg.maxErrors ==> i in Core(cfg, d, lines)
    ensures lines[i].level.Fail? && |Fails(lines)| <= cfg.maxErrors ==> i in Core(cfg, d, lines)
    ensures lines[i].level.Warn? && !cfg.dedupeWarnings && |Warnings(lines)| <= cfg.maxWarnings ==> i in Core(cfg, d, lines)
    ensures InLeadingTrace(cfg, lines, i) ==> i in Core(cfg, d, lines)
    ensures lines[i].summary && cfg.keepSummary ==> i in Core(cfg, d, lines)
  {
    KeepMembers(lines, IsError);
    KeepMembers(lines, IsFail);
    KeepMembers(lines, IsWarn);
    KeepMembers(lines, IsSummary);
    assert lines[i] in lines;
    if lines[i].stack {
      RunHolds(lines, i, |lines|);
      assert lines[..|lines|] == lines;
    }
    hide Keep, Dedupe, Runs, Forced, Rest, OpensRun, Offset, RunsBefore, Scored;
    TakenWhole(cfg, lines, i);
  }

  lemma TakenWhole(cfg: Config, lines: seq<LogLine>, i: nat)
    requires i < |lines| && lines[i].number == i
    ensures lines[i] in Errors(lines) && |Errors(lines)| <= cfg.maxErrors ==> i in Numbers(FirstLast(cfg, Errors(lines), cfg.maxErrors))
    ensures lines[i] in Fails(lines) && |Fails(lines)| <= cfg.maxErrors ==> i in Numbers(FirstLast(cfg, Fails(lines), cfg.maxErrors))
  {
    hide Keep;
  }

  /** With deduplication, every warning text among the first distinct ones is represented. */
  lemma WarningTextsAreTaken(cfg: Config, d: Detectors, lines: seq<LogLine>, i: nat) returns (j: nat)
    requires WellParsed(lines) && i < |lines| && lines[i].level.Warn? && cfg.dedupeWarnings
    requires |Texts(d, Warnings(lines))| <= cfg.maxWarnings
    ensures j < |lines| && lines[j].level.Warn? && j in Core(cfg, d, lines)
    ensures d.normalize(lines[j].content) == d.normalize(lines[i].content)
  {
    KeepMembers(lines, IsWarn);
    assert lines[i] in lines;
    var warnings, kept := Warnings(lines), Dedupe(d, Warnings(lines));
    DedupeKeepsOnePerText(d, warnings);
    DedupeIsSmall(d, kept);
    hide Keep, Dedupe, Scored;
    assert d.normalize(lines[i].content) in Texts(d, kept);
    var l :| l in kept && d.normalize(l.content) == d.normalize(lines[i].content);
    j := l.number;
    assert WarningPick(cfg, d, lines) == kept;
  }

  lemma {:induction false} DedupeIsSmall(d: Detectors, lines: seq<LogLine>)
    requires forall i, j | 0 <= i < j < |lines| :: d.normalize(lines[i].content) != d.normalize(lines[j].content)
    ensures |lines| == |Texts(d, lines)|
  {
    hide Texts;
    if lines != [] {
      var init, last := lines[..|lines| - 1], lines[|lines| - 1];
      DedupeIsSmall(d, init);
      assert lines == init + [last];
      TextsSnoc(d, init, last);
      NewText(d, init, last);
    } else {
      NoTexts(d);
    }
  }

  lemma NoTexts(d: Detectors)
    ensures Texts(d, []) == {}
  {
  }

  lemma TextsSnoc(d: Detectors, init: seq<LogLine>, last: LogLine)
    ensures Texts(d, init + [last]) == Texts(d, init) + {d.normalize(last.content)}
  {
    assert forall l :: l in init + [last] <==> l in init || l == last;
  }

  lemma NewText(d: Detectors, init: seq<LogLine>, last: LogLine)
    requires forall i | 0 <= i < |init| :: d.normalize(init[i].content) != d.normalize(last.content)
    ensures d.normalize(last.content) !in Texts(d, init)
  {
  }

  /** And the representative is the first line of its text. */
  lemma {:induction false} DedupeKeepsTheFirst(d: Detectors, lines: seq<LogLine>, l: LogLine, x: LogLine)
    requires InLineOrder(lines) && l in Dedupe(d, lines) && x in lines && d.normalize(l.content) == d.normalize(x.content)
    ensures l.number <= x.number
  {
    var init, last := lines[..|lines| - 1], lines[|lines| - 1];
    assert lines == init + [last];
    DedupeStep(d, lines);
    DedupeKeepsOnePerText(d, init);
    hide Dedupe, InLineOrder;
    assert x in init ==> d.normalize(x.content) in Texts(d, init);
    if x in init {
      DedupeKeepsTheFirst(d, init, l, x);
    } else {
      LastIsLatest(lines, l);
    }
  }

  lemma DedupeStep(d: Detectors, lines: seq<LogLine>)
    requires InLineOrder(lines) && lines != []
    ensures InLineOrder(lines[..|lines| - 1])
    ensures forall l | l in Dedupe(d, lines) && l !in Dedupe(d, lines[..|lines| - 1]) ::
              l == lines[|lines| - 1] && d.normalize(l.content) !in Texts(d, lines[..|lines| - 1])
    ensures forall l | l in Dedupe(d, lines) :: l in lines
  {
    DedupeKeepsOnePerText(d, lines);
    DedupeKeepsOnePerText(d, lines[..|lines| - 1]);
  }

  lemma LastIsLatest(lines: seq<LogLine>, l: LogLine)
    requires InLineOrder(lines) && l in lines
    ensures l.number <= lines[|lines| - 1].number
  {
  }

  /** And nothing else is: every line a bucket takes is an error, a failure, a warning, part of a trace or
      a summary. */
  lemma BucketsTakeDiagnostics(cfg: Config, d: Detectors, lines: seq<LogLine>, i: nat)
    requires WellParsed(lines) && i in Core(cfg, d, lines)
    ensures i < |lines| && Diagnostic(lines[i])
  {
    hide FirstLast, WarningPick, StackPick, Summaries, Errors, Fails, Runs, Scored;
    BucketsComeFrom(cfg, d, lines);
    if i in StackPick(cfg, Runs(lines)) {
      StackPickIsStack(cfg, lines, i);
    } else {
      var l := PickedLine(cfg, d, lines, i);
    }
  }

  /** The line a bucket other than the traces took. */
  lemma PickedLine(cfg: Config, d: Detectors, lines: seq<LogLine>, i: nat) returns (l: LogLine)
    requires WellParsed(lines) && i in Core(cfg, d, lines) && i !in StackPick(cfg, Runs(lines))
    ensures l in lines && l.number == i && Diagnostic(l)
  {
    hide FirstLast, WarningPick, StackPick, Summaries, Errors, Fails, Runs, Scored, InLineOrder;
    BucketsComeFrom(cfg, d, lines);
    BucketKinds(cfg, d, lines);
    if l' :| l' in FirstLast(cfg, Errors(lines), cfg.maxErrors) && l'.number == i {
      l := l';
    } else if l' :| l' in FirstLast(cfg, Fails(lines), cfg.maxErrors) && l'.number == i {
      l := l';
    } else if l' :| l' in WarningPick(cfg, d, lines) && l'.number == i {
      l := l';
    } else {
      l :| l in Summaries(lines) && l.number == i;
    }
  }

  lemma BucketKinds(cfg: Config, d: Detectors, lines: seq<LogLine>)
    requires WellParsed(lines)
    ensures forall l | l in FirstLast(cfg, Errors(lines), cfg.maxErrors) :: l.level.Error?
    ensures forall l | l in FirstLast(cfg, Fails(lines), cfg.maxErrors) :: l.level.Fail?
    ensures forall l | l in WarningPick(cfg, d, lines) :: l.level.Warn?
    ensures forall l | l in Summaries(lines) :: l.summary
  {
    KeepMembers(lines, IsError);
    KeepMembers(lines, IsFail);
    KeepMembers(lines, IsWarn);
    KeepMembers(lines, IsSummary);
    KeepIncreases(lines, IsError);
    KeepIncreases(lines, IsFail);
    hide Keep, Dedupe, FirstLast, Forced, Ranks, InLineOrder, DistinctNumbers, Scored;
    FirstLastKeepsTheBest(cfg, Errors(lines), cfg.maxErrors);
    FirstLastKeepsTheBest(cfg, Fails(lines), cfg.maxErrors);
    DedupeKeepsOnePerText(d, Warnings(lines));
  }

  lemma StackPickIsStack(cfg: Config, lines: seq<LogLine>, i: nat)
    requires WellParsed(lines) && i in StackPick(cfg, Runs(lines))
    ensures i < |lines| && lines[i].stack
  {
    RunsComeFrom(lines);
    RunsAreStacks(lines);
    hide Runs, ClosedRuns, OpenRun, Scored;
    var r, k :| 0 <= r < |Runs(lines)| && 0 <= k < |Runs(lines)[r]| && Runs(lines)[r][k].number == i;
    assert Runs(lines)[r] in Runs(lines) && Runs(lines)[r][k] in Runs(lines)[r];
  }

  lemma {:induction false} RunsAreStacks(lines: seq<LogLine>)
    ensures forall r, l | (r in ClosedRuns(lines) || r in Runs(lines)) && l in r :: l.stack
    ensures forall l | l in OpenRun(lines) :: l.stack
  {
    if lines != [] {
      RunsAreStacks(lines[..|lines| - 1]);
    }
  }

  /** So a candidate is a diagnostic or matches the focus, or lies within the context of such a line. */
  lemma CandidatesHaveAReason(cfg: Config, d: Detectors, lines: seq<LogLine>, focus: seq<string>, i: nat) returns (j: nat)
    requires WellParsed(lines) && i in CandidateNumbers(cfg, d, lines, focus)
    ensures i < |lines| && j < |lines| && i <= j + cfg.contextLines && j <= i + cfg.contextLines
    ensures Diagnostic(lines[j]) || Matches(d, focus, lines[j])
  {
    hide Core, Scored;
    j :| j in Core(cfg, d, lines) + Focused(d, focus, lines) && Near(i, j, cfg.contextLines);
    if j in Core(cfg, d, lines) {
      BucketsTakeDiagnostics(cfg, d, lines, j);
    }
  }

  /** The context of every line a bucket takes, and of every line that matches, is a candidate. */
  lemma ContextIsCandidate(cfg: Config, d: Detectors, lines: seq<LogLine>, focus: seq<string>, i: nat, j: nat)
    requires i < |lines| && j < |lines| && i <= j + cfg.contextLines && j <= i + cfg.contextLines
    requires j in Core(cfg, d, lines) || Matches(d, focus, lines[j])
    ensures i in CandidateNumbers(cfg, d, lines, focus)
  {
    hide Core, Matches;
    assert Near(i, j, cfg.contextLines);
    assert j in Core(cfg, d, lines) + Focused(d, focus, lines);
  }
}
