/** What the ranked cut of `select_lines` promises, and what the focus boost can and cannot do. */
module LogFocus {
  import opened Options
  import opened Sets
  import opened Markers
  import opened FoldTagLists
  import opened Sorting
  import opened LogStripper
  import opened LogSelection

  /** The selection is a strictly line-ordered part of the candidates that fits the limit, and every
      kept candidate outranks every cut one. */
  lemma SelectionKeepsTheBest(cfg: Config, d: Detectors, lines: seq<LogLine>, focus: seq<string>, limit: nat)
    requires WellParsed(lines)
    ensures var candidates := Candidates(cfg, d, lines, focus);
            var kept := Cut(limit, candidates);
            && InLineOrder(kept)
            && |kept| == (if |candidates| <= limit then |candidates| else limit)
            && (forall l | l in kept ::
                  && l.number < |lines| && l.number in CandidateNumbers(cfg, d, lines, focus)
                  && l == Boost(d, focus, lines[l.number]))
            && (forall x, y | x in kept && y in candidates && y !in kept :: Ranks(x, y))
  {
    OrderedMembers(d, focus, lines, CandidateNumbers(cfg, d, lines, focus));
    CutKeepsTheBest(limit, Candidates(cfg, d, lines, focus));
    hide Cut, InLineOrder;
  }

  lemma CandidateMembers(cfg: Config, d: Detectors, lines: seq<LogLine>, focus: seq<string>, l: LogLine)
    requires WellParsed(lines)
    ensures l in Candidates(cfg, d, lines, focus)
       <==> l.number < |lines| && l.number in CandidateNumbers(cfg, d, lines, focus) && l == Boost(d, focus, lines[l.number])
    ensures InLineOrder(Candidates(cfg, d, lines, focus))
  {
    OrderedMembers(d, focus, lines, CandidateNumbers(cfg, d, lines, focus));
  }

  /** A boosted line still scores below every diagnostic. */
  lemma BoostSeparates(d: Detectors, focus: seq<string>, l: LogLine)
    requires Scored(l)
    ensures var b := Boost(d, focus, l);
            && (Diagnostic(b) <==> Diagnostic(l)) && (Diagnostic(b) <==> b.score > FOCUS_SCORE)
            && (Diagnostic(l) ==> b == l)
  {
    FocusSeparates(l);
  }

  /** Once a plain line is kept, whether focused or not, every candidate error, fail, warning, stack and
      summary line is kept as well. */
  lemma PlainKeptMeansDiagnosticsKept(cfg: Config, d: Detectors, lines: seq<LogLine>, focus: seq<string>, limit: nat, x: LogLine, i: nat)
    requires WellParsed(lines) && x in Cut(limit, Candidates(cfg, d, lines, focus)) && !Diagnostic(x)
    requires i < |lines| && Diagnostic(lines[i]) && i in CandidateNumbers(cfg, d, lines, focus)
    ensures lines[i] in Cut(limit, Candidates(cfg, d, lines, focus))
  {
    hide *;
    KeptIsCandidate(cfg, d, lines, focus, limit, x);
    CandidateDiagnostic(cfg, d, lines, focus, i);
    if lines[i] !in Cut(limit, Candidates(cfg, d, lines, focus)) {
      KeptRanks(cfg, d, lines, focus, limit, x, lines[i]);
      PlainNeverRanks(x, lines[i]);
    }
  }

  lemma PlainNeverRanks(x: LogLine, y: LogLine)
    requires Diagnostic(x) <==> x.score > FOCUS_SCORE
    requires Diagnostic(y) <==> y.score > FOCUS_SCORE
    ensures Ranks(x, y) && Diagnostic(y) ==> Diagnostic(x)
  {
  }

  lemma KeptIsCandidate(cfg: Config, d: Detectors, lines: seq<LogLine>, focus: seq<string>, limit: nat, x: LogLine)
    requires WellParsed(lines) && x in Cut(limit, Candidates(cfg, d, lines, focus))
    ensures x in Candidates(cfg, d, lines, focus) && (Diagnostic(x) <==> x.score > FOCUS_SCORE)
  {
    SelectionKeepsTheBest(cfg, d, lines, focus, limit);
    CandidateMembers(cfg, d, lines, focus, x);
    BoostSeparates(d, focus, lines[x.number]);
    hide Cut, Candidates, Boost, CandidateNumbers, InLineOrder, Ranks;
  }

  lemma CandidateDiagnostic(cfg: Config, d: Detectors, lines: seq<LogLine>, focus: seq<string>, i: nat)
    requires WellParsed(lines) && i < |lines| && Diagnostic(lines[i]) && i in CandidateNumbers(cfg, d, lines, focus)
    ensures lines[i] in Candidates(cfg, d, lines, focus) && lines[i].score > FOCUS_SCORE
  {
    CandidateMembers(cfg, d, lines, focus, lines[i]);
    BoostSeparates(d, focus, lines[i]);
  }

  lemma KeptRanks(cfg: Config, d: Detectors, lines: seq<LogLine>, focus: seq<string>, limit: nat, x: LogLine, y: LogLine)
    requires WellParsed(lines) && x in Cut(limit, Candidates(cfg, d, lines, focus))
    requires y in Candidates(cfg, d, lines, focus) && y !in Cut(limit, Candidates(cfg, d, lines, focus))
    ensures Ranks(x, y)
  {
    SelectionKeepsTheBest(cfg, d, lines, focus, limit);
    hide Cut, Candidates, Ranks, InLineOrder;
  }

  /** The diagnostics among the candidates that rank above `y`. */
  function DiagnosticsAbove(ordered: seq<LogLine>, y: LogLine): set<LogLine> {
    set x | x in Above(ordered, y) && Diagnostic(x)
  }

  lemma OnlyDiagnosticsRankAbove(cfg: Config, d: Detectors, lines: seq<LogLine>, focus: seq<string>, y: LogLine)
    requires WellParsed(lines) && y in Candidates(cfg, d, lines, focus) && Diagnostic(y)
    ensures Above(Candidates(cfg, d, lines, focus), y) == DiagnosticsAbove(Candidates(cfg, d, lines, focus), y)
  {
    CandidateMembers(cfg, d, lines, focus, y);
    BoostSeparates(d, focus, lines[y.number]);
    forall x | x in Above(Candidates(cfg, d, lines, focus), y)
      ensures Diagnostic(x)
    {
      CandidateMembers(cfg, d, lines, focus, x);
      BoostSeparates(d, focus, lines[x.number]);
    }
  }

  lemma FocusOnlyAdds(cfg: Config, d: Detectors, lines: seq<LogLine>, focus: seq<string>)
    ensures CandidateNumbers(cfg, d, lines, []) <= CandidateNumbers(cfg, d, lines, focus)
  {
    forall i: nat | i in CandidateNumbers(cfg, d, lines, [])
      ensures i in CandidateNumbers(cfg, d, lines, focus)
    {
      assert Focused(d, [], lines) == {};
      var j :| j in Core(cfg, d, lines) + Focused(d, [], lines) && Near(i, j, cfg.contextLines);
      assert j in Core(cfg, d, lines) + Focused(d, focus, lines);
    }
  }

  /** A candidate diagnostic survives under a focus exactly when fewer than `limit` diagnostics rank
      above it among the candidates of that focus; the boost itself never counts. */
  lemma DiagnosticKeptIff(cfg: Config, d: Detectors, lines: seq<LogLine>, focus: seq<string>, limit: nat, i: nat)
    requires WellParsed(lines) && i < |lines| && Diagnostic(lines[i]) && i in CandidateNumbers(cfg, d, lines, focus)
    ensures lines[i] in Cut(limit, Candidates(cfg, d, lines, focus))
       <==> |DiagnosticsAbove(Candidates(cfg, d, lines, focus), lines[i])| < limit
  {
    BoostSeparates(d, focus, lines[i]);
    CandidateMembers(cfg, d, lines, focus, lines[i]);
    OnlyDiagnosticsRankAbove(cfg, d, lines, focus, lines[i]);
    KeptIff(limit, Candidates(cfg, d, lines, focus), lines[i]);
  }

  /** A focus that pulls in no further diagnostic leaves the kept diagnostics exactly as they were. */
  lemma FocusSparesDiagnostics(cfg: Config, d: Detectors, lines: seq<LogLine>, focus: seq<string>, limit: nat, i: nat)
    requires WellParsed(lines) && i < |lines| && Diagnostic(lines[i])
    requires forall k: nat | k < |lines| && Diagnostic(lines[k]) && k in CandidateNumbers(cfg, d, lines, focus) ::
               k in CandidateNumbers(cfg, d, lines, [])
    ensures lines[i] in Cut(limit, Candidates(cfg, d, lines, focus)) <==> lines[i] in Cut(limit, Candidates(cfg, d, lines, []))
  {
    FocusOnlyAdds(cfg, d, lines, focus);
    if i in CandidateNumbers(cfg, d, lines, []) {
      SameDiagnosticsAbove(cfg, d, lines, focus, i);
      DiagnosticKeptIff(cfg, d, lines, focus, limit, i);
      DiagnosticKeptIff(cfg, d, lines, [], limit, i);
    } else {
      CandidateMembers(cfg, d, lines, focus, lines[i]);
      CandidateMembers(cfg, d, lines, [], lines[i]);
      CutKeepsTheBest(limit, Candidates(cfg, d, lines, focus));
      CutKeepsTheBest(limit, Candidates(cfg, d, lines, []));
    }
  }

  lemma SameDiagnosticsAbove(cfg: Config, d: Detectors, lines: seq<LogLine>, focus: seq<string>, i: nat)
    requires WellParsed(lines) && i < |lines|
    requires CandidateNumbers(cfg, d, lines, []) <= CandidateNumbers(cfg, d, lines, focus)
    requires forall k: nat | k < |lines| && Diagnostic(lines[k]) && k in CandidateNumbers(cfg, d, lines, focus) ::
               k in CandidateNumbers(cfg, d, lines, [])
    ensures DiagnosticsAbove(Candidates(cfg, d, lines, focus), lines[i]) == DiagnosticsAbove(Candidates(cfg, d, lines, []), lines[i])
  {
    hide Candidates, CandidateNumbers, Boost, Ranks, Scored;
    var with, without := Candidates(cfg, d, lines, focus), Candidates(cfg, d, lines, []);
    forall x
      ensures x in with && Diagnostic(x) <==> x in without && Diagnostic(x)
    {
      CandidateMembers(cfg, d, lines, focus, x);
      CandidateMembers(cfg, d, lines, [], x);
      if x.number < |lines| {
        BoostSeparates(d, focus, lines[x.number]);
        BoostSeparates(d, [], lines[x.number]);
      }
    }
    assert DiagnosticsAbove(with, lines[i]) == DiagnosticsAbove(without, lines[i]);
  }

  // ----- a focus can evict -----

  const Section := "=== section"
  const Hit := "hit"
  const Failure := "error"

  function CrowdedText(limit: nat, k: nat): string {
    if k < limit then Section else if k == limit then Hit else Failure
  }

  /** `limit` summary lines, a line that matches the focus, and an error no bucket selects. */
  function CrowdedLog(limit: nat): (texts: seq<string>)
    ensures |texts| == limit + 2 && forall k | 0 <= k < limit + 2 :: texts[k] == CrowdedText(limit, k)
  {
    seq(limit + 2, (k: nat) => CrowdedText(limit, k))
  }

  /** What the detectors say about these three texts. */
  ghost predicate ReadsCrowd(d: Detectors) {
    && d.level(Section) == Unknown && d.level(Hit) == Unknown && d.level(Failure) == Level.Error
    && d.summary(Section) && !d.summary(Hit) && !d.summary(Failure)
    && d.flavor(Section) == None && d.flavor(Hit) == None && d.flavor(Failure) == None
    && d.matches(Hit, ["hit"]) && !d.matches(Section, ["hit"]) && !d.matches(Failure, ["hit"])
  }

  /** The focus matcher on ASCII texts: a case-insensitive substring test against any term. */
  predicate MatchesTerms(text: string, terms: seq<string>) {
    exists t | t in terms :: Contains(Lowered(text), t)
  }

  function Lowered(s: string): (r: string)
    ensures |r| == |s| && forall i | 0 <= i < |s| :: r[i] == LowerAscii(s[i])
  {
    seq(|s|, i requires 0 <= i < |s| => LowerAscii(s[i]))
  }

  /** The substring matcher meets the assumptions about matching. */
  lemma SubstringsReadCrowd()
    ensures MatchesTerms(Hit, ["hit"]) && !MatchesTerms(Section, ["hit"]) && !MatchesTerms(Failure, ["hit"])
  {
    hide Lowered, Find, MatchesAt;
    LowercaseStays(Hit);
    LowercaseStays(Section);
    LowercaseStays(Failure);
    HitIsFound();
    NoHitIn(Section);
    NoHitIn(Failure);
    assert "hit" in ["hit"];
  }

  lemma LowercaseStays(s: string)
    requires forall i | 0 <= i < |s| :: !('A' <= s[i] <= 'Z')
    ensures Lowered(s) == s
  {
  }

  lemma HitIsFound()
    ensures Contains(Hit, "hit")
  {
    FindIs(Hit, "hit", 0);
  }

  lemma NoHitIn(s: string)
    requires 'h' !in s
    ensures !Contains(s, "hit")
  {
    var p := "hit";
    forall j: nat
      ensures !MatchesAt(s, p, j)
    {
      assert j < |s| ==> s[j] in s && s[j + 0] != p[0];
    }
  }

  function CrowdedLine(limit: nat, k: nat): LogLine {
    if k < limit then LogLine(k, Section, Unknown, false, true, 0.5)
    else if k == limit then LogLine(k, Hit, Unknown, false, false, 0.1)
    else LogLine(k, Failure, Level.Error, false, false, 1.0)
  }

  function Crowded(limit: nat): (lines: seq<LogLine>)
    ensures |lines| == limit + 2 && forall k | 0 <= k < limit + 2 :: lines[k] == CrowdedLine(limit, k)
    ensures WellParsed(lines)
  {
    seq(limit + 2, (k: nat) => CrowdedLine(limit, k))
  }

  lemma {:induction false} NoTrace(d: Detectors, maxLines: nat, texts: seq<string>, i: nat)
    requires i < |texts| && forall k | 0 <= k < |texts| :: d.flavor(texts[k]) == None
    ensures TraceHeader(d, maxLines, texts, i) == None
  {
    if i > 0 {
      NoTrace(d, maxLines, texts, i - 1);
    }
  }

  /** These lines are what parsing the log gives. */
  lemma CrowdedIsParsed(d: Detectors, maxLines: nat, limit: nat, k: nat)
    requires ReadsCrowd(d) && k < limit + 2
    ensures Crowded(limit)[k] == ParsedLine(d, maxLines, CrowdedLog(limit), k)
  {
    NoTrace(d, maxLines, CrowdedLog(limit), k);
  }

  const SummariesOnly := Config(0, 1, false, false, 0, 0, 0, false, true)

  lemma CrowdedBuckets(d: Detectors, limit: nat)
    ensures var lines := Crowded(limit);
            && FirstLast(SummariesOnly, Errors(lines), 0) == [] && FirstLast(SummariesOnly, Fails(lines), 0) == []
            && WarningPick(SummariesOnly, d, lines) == [] && StackPick(SummariesOnly, Runs(lines)) == {}
  {
    hide Keep, Runs, Dedupe;
  }

  lemma CrowdedCore(d: Detectors, limit: nat, i: nat)
    ensures i in Core(SummariesOnly, d, Crowded(limit)) <==> i < limit
  {
    var lines := Crowded(limit);
    CrowdedBuckets(d, limit);
    KeepMembers(lines, IsSummary);
    hide FirstLast, Keep, WarningPick, StackPick, Runs, Errors, Fails, InLineOrder, WellParsed;
    assert Core(SummariesOnly, d, lines) == Numbers(Summaries(lines));
    if i < limit {
      assert lines[i] in lines && IsSummary(lines[i]);
    }
  }

  lemma CrowdedCandidates(d: Detectors, limit: nat, focus: seq<string>, i: nat)
    requires limit >= 1 && ReadsCrowd(d)
    requires focus == [] || focus == ["hit"]
    ensures i in CandidateNumbers(SummariesOnly, d, Crowded(limit), focus) <==> i <= limit || (focus != [] && i == limit + 1)
  {
    hide Core, CrowdedLine;
    var lines := Crowded(limit);
    var chosen := Core(SummariesOnly, d, lines) + Focused(d, focus, lines);
    forall j: nat
      ensures j in chosen <==> j < limit || (focus != [] && j == limit)
    {
      CrowdedCore(d, limit, j);
      CrowdedMatches(d, limit, focus, j);
    }
    if i < limit {
      assert Near(i, i, 1);
    } else if i == limit {
      assert Near(i, limit - 1, 1);
    } else if i == limit + 1 && focus != [] {
      assert Near(i, limit, 1);
    }
  }

  lemma CrowdedMatches(d: Detectors, limit: nat, focus: seq<string>, j: nat)
    requires ReadsCrowd(d)
    requires focus == [] || focus == ["hit"]
    ensures j in Focused(d, focus, Crowded(limit)) <==> focus != [] && j == limit
  {
  }

  /** For every limit there is a log where a focus match evicts a summary line: the match's context brings
      in an error that no bucket had selected. */
  lemma FocusMayEvict(d: Detectors, maxLines: nat, limit: nat)
    requires limit >= 1 && ReadsCrowd(d)
    ensures forall k | 0 <= k < limit + 2 :: Crowded(limit)[k] == ParsedLine(d, maxLines, CrowdedLog(limit), k)
    ensures var lines := Crowded(limit);
            && Diagnostic(lines[limit - 1])
            && lines[limit - 1] in Cut(limit, Candidates(SummariesOnly, d, lines, []))
            && lines[limit - 1] !in Cut(limit, Candidates(SummariesOnly, d, lines, ["hit"]))
  {
    hide Candidates, CandidateNumbers, DiagnosticsAbove, Cut, ParsedLine;
    forall k | 0 <= k < limit + 2
      ensures Crowded(limit)[k] == ParsedLine(d, maxLines, CrowdedLog(limit), k)
    {
      CrowdedIsParsed(d, maxLines, limit, k);
    }
    var lines, i := Crowded(limit), limit - 1;
    CrowdedCandidates(d, limit, [], i);
    CrowdedCandidates(d, limit, ["hit"], i);
    DiagnosticKeptIff(SummariesOnly, d, lines, [], limit, i);
    DiagnosticKeptIff(SummariesOnly, d, lines, ["hit"], limit, i);
    CrowdedAbove(d, limit);
  }

  lemma CrowdedAbove(d: Detectors, limit: nat)
    requires limit >= 1 && ReadsCrowd(d)
    ensures var lines := Crowded(limit);
            && |DiagnosticsAbove(Candidates(SummariesOnly, d, lines, []), lines[limit - 1])| < limit
            && |DiagnosticsAbove(Candidates(SummariesOnly, d, lines, ["hit"]), lines[limit - 1])| >= limit
  {
    var lines := Crowded(limit);
    var head := lines[..limit - 1];
    var earlier := Elements(head);
    DistinctSize(head);
    hide Candidates, CandidateNumbers, DiagnosticsAbove;
    var above := DiagnosticsAbove(Candidates(SummariesOnly, d, lines, []), lines[limit - 1]);
    forall x | x in above
      ensures x in earlier
    {
      AboveWithoutFocus(d, limit, x);
      assert x == head[x.number];
    }
    SubsetSize(above, earlier);
    var more := earlier + {lines[limit + 1]};
    forall x | x in more
      ensures x in DiagnosticsAbove(Candidates(SummariesOnly, d, lines, ["hit"]), lines[limit - 1])
    {
      AboveWithFocus(d, limit, x.number);
    }
    SubsetSize(more, DiagnosticsAbove(Candidates(SummariesOnly, d, lines, ["hit"]), lines[limit - 1]));
  }

  lemma AboveWithoutFocus(d: Detectors, limit: nat, x: LogLine)
    requires limit >= 1 && ReadsCrowd(d)
    requires x in DiagnosticsAbove(Candidates(SummariesOnly, d, Crowded(limit), []), Crowded(limit)[limit - 1])
    ensures x.number < limit - 1 && x == Crowded(limit)[x.number]
  {
    CandidateMembers(SummariesOnly, d, Crowded(limit), [], x);
    CrowdedCandidates(d, limit, [], x.number);
    hide Candidates, CandidateNumbers;
  }

  lemma AboveWithFocus(d: Detectors, limit: nat, k: nat)
    requires limit >= 1 && ReadsCrowd(d)
    requires k < limit - 1 || k == limit + 1
    ensures Crowded(limit)[k] in DiagnosticsAbove(Candidates(SummariesOnly, d, Crowded(limit), ["hit"]), Crowded(limit)[limit - 1])
  {
    CandidateMembers(SummariesOnly, d, Crowded(limit), ["hit"], Crowded(limit)[k]);
    CrowdedCandidates(d, limit, ["hit"], k);
    BoostSeparates(d, ["hit"], Crowded(limit)[k]);
    hide Candidates, CandidateNumbers;
  }
}
