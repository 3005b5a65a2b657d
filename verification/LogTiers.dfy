/** The order in which the ranked cut spends its room, in terms of levels, traces, summaries and focus. */
module LogTiers {
  import opened LogStripper
  import opened LogSelection
  import opened LogFocus

  /** Where a line stands, best first: errors and failures, warnings and what a trace or a summary lifts
      among and above them, then lines a focus lifts, then plain lines by level. */
  function Tier(level: Level, stack: bool, summary: bool, focused: bool): nat {
    match level
    case Error => 0
    case Fail => 0
    case Warn => if stack && summary then 0 else if summary then 1 else if stack then 2 else 5
    case Info => if stack && summary then 2 else if summary then 5 else if stack then 8 else if focused then 11 else 12
    case Unknown => if stack && summary then 2 else if summary then 5 else if stack then 8 else if focused then 11 else 12
    case Debug => if stack && summary then 3 else if summary then 6 else if stack then 9 else if focused then 11 else 13
    case Trace => if stack && summary then 4 else if summary then 7 else if stack then 10 else if focused then 11 else 14
  }

  function TierOf(d: Detectors, focus: seq<string>, l: LogLine): nat {
    Tier(l.level, l.stack, l.summary, Matches(d, focus, l))
  }

  /** A line of a better tier, or an earlier line of the same tier. */
  predicate Precedes(d: Detectors, focus: seq<string>, x: LogLine, y: LogLine) {
    TierOf(d, focus, x) < TierOf(d, focus, y) || (TierOf(d, focus, x) == TierOf(d, focus, y) && x.number <= y.number)
  }

  /** The scores order boosted lines exactly as the tiers do. */
  lemma RanksByTier(d: Detectors, focus: seq<string>, x: LogLine, y: LogLine)
    requires Scored(x) && Scored(y)
    ensures Ranks(Boost(d, focus, x), Boost(d, focus, y)) <==> Precedes(d, focus, x, y)
  {
  }

  /** Is line `i` in the selection? */
  predicate Kept(cfg: Config, d: Detectors, lines: seq<LogLine>, focus: seq<string>, limit: nat, i: nat)
    requires i < |lines|
  {
    Boost(d, focus, lines[i]) in Cut(limit, Candidates(cfg, d, lines, focus))
  }

  lemma CandidateLine(cfg: Config, d: Detectors, lines: seq<LogLine>, focus: seq<string>, i: nat)
    requires WellParsed(lines) && i < |lines|
    ensures Boost(d, focus, lines[i]) in Candidates(cfg, d, lines, focus) <==> i in CandidateNumbers(cfg, d, lines, focus)
    ensures InLineOrder(Candidates(cfg, d, lines, focus))
  {
    CandidateMembers(cfg, d, lines, focus, Boost(d, focus, lines[i]));
  }

  /** Once a line is kept, every candidate of a better tier is kept, and every earlier one of its own. */
  lemma BetterTiersFirst(cfg: Config, d: Detectors, lines: seq<LogLine>, focus: seq<string>, limit: nat, i: nat, k: nat)
    requires WellParsed(lines) && i < |lines| && k < |lines| && Kept(cfg, d, lines, focus, limit, i)
    requires k in CandidateNumbers(cfg, d, lines, focus) && Precedes(d, focus, lines[k], lines[i])
    ensures Kept(cfg, d, lines, focus, limit, k)
  {
    hide Cut, Candidates, CandidateNumbers, Boost, Ranks, Precedes;
    CandidateLine(cfg, d, lines, focus, k);
    if !Kept(cfg, d, lines, focus, limit, k) {
      KeptRanks(cfg, d, lines, focus, limit, Boost(d, focus, lines[i]), Boost(d, focus, lines[k]));
      RanksByTier(d, focus, lines[i], lines[k]);
      OneOrder(d, focus, lines, i, k);
    }
  }

  lemma OneOrder(d: Detectors, focus: seq<string>, lines: seq<LogLine>, i: nat, k: nat)
    requires WellParsed(lines) && i < |lines| && k < |lines|
    requires Precedes(d, focus, lines[i], lines[k]) && Precedes(d, focus, lines[k], lines[i])
    ensures i == k
  {
    hide Tier, Matches;
  }

  /** The candidates that come before line `i`. */
  function Before(cfg: Config, d: Detectors, lines: seq<LogLine>, focus: seq<string>, i: nat): set<nat>
    requires i < |lines|
  {
    set k: nat | k < |lines| && k in CandidateNumbers(cfg, d, lines, focus) && k != i && Precedes(d, focus, lines[k], lines[i])
  }

  /** A candidate is kept exactly when fewer candidates than the limit come before it. */
  lemma KeptIffFewBefore(cfg: Config, d: Detectors, lines: seq<LogLine>, focus: seq<string>, limit: nat, i: nat)
    requires WellParsed(lines) && i < |lines|
    ensures Kept(cfg, d, lines, focus, limit, i)
       <==> i in CandidateNumbers(cfg, d, lines, focus) && |Before(cfg, d, lines, focus, i)| < limit
  {
    hide Cut, Candidates, CandidateNumbers, Boost, Ranks, Precedes, Above, Before;
    CandidateLine(cfg, d, lines, focus, i);
    if i in CandidateNumbers(cfg, d, lines, focus) {
      KeptIff(limit, Candidates(cfg, d, lines, focus), Boost(d, focus, lines[i]));
      AboveIsBefore(cfg, d, lines, focus, i);
    } else {
      CutKeepsTheBest(limit, Candidates(cfg, d, lines, focus));
    }
  }

  lemma AboveIsBefore(cfg: Config, d: Detectors, lines: seq<LogLine>, focus: seq<string>, i: nat)
    requires WellParsed(lines) && i < |lines|
    ensures |Above(Candidates(cfg, d, lines, focus), Boost(d, focus, lines[i]))| == |Before(cfg, d, lines, focus, i)|
  {
    hide Candidates, CandidateNumbers, Boost, Ranks, Precedes;
    var ordered, y := Candidates(cfg, d, lines, focus), Boost(d, focus, lines[i]);
    var above, before := Above(ordered, y), Before(cfg, d, lines, focus, i);
    BoostKeepsNumber(d, focus, lines[i]);
    forall x
      ensures x in above ==> x.number in before && x == Boost(d, focus, lines[x.number])
    {
      if x in above {
        CandidateMembers(cfg, d, lines, focus, x);
        RanksByTier(d, focus, lines[x.number], lines[i]);
      }
    }
    forall k: nat | k in before
      ensures k < |lines| && Boost(d, focus, lines[k]) in above && Boost(d, focus, lines[k]).number == k
    {
      BoostKeepsNumber(d, focus, lines[k]);
      CandidateLine(cfg, d, lines, focus, k);
      RanksByTier(d, focus, lines[k], lines[i]);
    }
    SameSize(above, before);
  }

  lemma BoostKeepsNumber(d: Detectors, focus: seq<string>, l: LogLine)
    ensures Boost(d, focus, l).number == l.number
  {
  }

  lemma {:induction false} SameSize(xs: set<LogLine>, ns: set<nat>)
    requires forall x | x in xs :: x.number in ns
    requires forall n | n in ns :: exists x :: x in xs && x.number == n
    requires forall x, y | x in xs && y in xs && x.number == y.number :: x == y
    ensures |xs| == |ns|
  {
    if xs == {} {
      assert ns == {};
    } else {
      var x :| x in xs;
      SameSize(xs - {x}, ns - {x.number});
    }
  }

  // ----- in words -----

  predicate IsFailure(l: LogLine) {
    l.level.Error? || l.level.Fail?
  }

  predicate Plain(l: LogLine) {
    !l.stack && !l.summary
  }

  /** A plain warning is kept only when every candidate error and failure is. */
  lemma FailuresBeforeWarnings(cfg: Config, d: Detectors, lines: seq<LogLine>, focus: seq<string>, limit: nat, i: nat, k: nat)
    requires WellParsed(lines) && i < |lines| && k < |lines| && Kept(cfg, d, lines, focus, limit, i)
    requires lines[i].level.Warn? && !(lines[i].stack && lines[i].summary)
    requires IsFailure(lines[k]) && k in CandidateNumbers(cfg, d, lines, focus)
    ensures Kept(cfg, d, lines, focus, limit, k)
  {
    hide Kept, CandidateNumbers, Matches;
    BetterTiersFirst(cfg, d, lines, focus, limit, i, k);
  }

  /** A trace or summary line is kept before a plain line of its level, a summary line before a trace line,
      a warning before any line below it with the same flags, information before debug before trace. */
  lemma FlagsAndLevelsLift(cfg: Config, d: Detectors, lines: seq<LogLine>, focus: seq<string>, limit: nat, i: nat, k: nat)
    requires WellParsed(lines) && i < |lines| && k < |lines| && Kept(cfg, d, lines, focus, limit, i)
    requires k in CandidateNumbers(cfg, d, lines, focus)
    requires !IsFailure(lines[i]) && !IsFailure(lines[k])
    requires
      || (lines[i].level == lines[k].level && Plain(lines[i]) && !Plain(lines[k]))
      || (lines[i].level == lines[k].level && !lines[i].summary && !lines[k].stack && lines[k].summary)
      || (lines[i].stack == lines[k].stack && lines[i].summary == lines[k].summary
          && !Matches(d, focus, lines[i]) && Severity(lines[k].level) > Severity(lines[i].level))
    ensures Kept(cfg, d, lines, focus, limit, k)
  {
    hide Kept, CandidateNumbers, Matches;
    BetterTiersFirst(cfg, d, lines, focus, limit, i, k);
  }

  function Severity(level: Level): nat {
    match level
    case Error => 4
    case Fail => 4
    case Warn => 3
    case Info => 2
    case Unknown => 2
    case Debug => 1
    case Trace => 0
  }

  /** A matching plain line comes before every plain line below a warning that does not match. */
  lemma MatchesBeforePlain(cfg: Config, d: Detectors, lines: seq<LogLine>, focus: seq<string>, limit: nat, i: nat, k: nat)
    requires WellParsed(lines) && i < |lines| && k < |lines| && Kept(cfg, d, lines, focus, limit, i)
    requires k in CandidateNumbers(cfg, d, lines, focus)
    requires !Diagnostic(lines[i]) && !Matches(d, focus, lines[i]) && Matches(d, focus, lines[k])
    ensures Kept(cfg, d, lines, focus, limit, k)
  {
    hide Kept, CandidateNumbers, Matches;
    BetterTiersFirst(cfg, d, lines, focus, limit, i, k);
  }
}
