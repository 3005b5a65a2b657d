/** The budget cascade of budget.rs: agent rules, middle compression, summary, group drops. */
module Budget {
  import opened Naturals
  import opened Messages
  import opened Agent
  import opened Conversation
  import opened DropOld

  datatype Step = AgentRules | CompressMiddle | SummarizeOld | DropOldest

  datatype Report = Report(
    tokensInitial: nat, tokensFinal: nat, effectiveLimit: nat, stepsApplied: seq<Step>, dropped: seq<Message>)

  datatype Outcome = Ok(report: Report) | BudgetExceeded(needed: nat, limit: nat)

  predicate Fits(c: Setting, ms: seq<Message>) {
    c.count(ms) <= c.Limit()
  }

  /** Trailing messages a band pass must not touch. */
  function PreserveRecent(c: Setting, ms: seq<Message>): nat {
    Max(Max(4, ProtectedTail(c.t, ms, c.policy)), RecentReplySpan(c.t, ms, c.policy.keepAssistant))
  }

  method ComputePreserveRecent(c: Setting, ms: seq<Message>) returns (p: nat)
    ensures p == PreserveRecent(c, ms)
  {
    var replies := RecentAssistantPreserveCount(c.t, ms, c.policy.keepAssistant);
    p := Max(Max(4, ProtectedTail(c.t, ms, c.policy)), replies);
  }

  function MiddlePass(c: Setting, ms: seq<Message>): Pass {
    var p := PreserveRecent(c, ms);
    HistoryPass(c, 2, ms, BandConfig(p, SatSub(|ms|, p), false))
  }

  function SummaryPass(c: Setting, ms: seq<Message>): Pass {
    HistoryPass(c, 3, ms, BandConfig(PreserveRecent(c, ms), 4, true))
  }

  /** The list after the cascade, what it stored, the steps that ran and the messages it dropped. */
  datatype Trace = Trace(messages: seq<Message>, saved: map<string, string>, steps: seq<Step>, dropped: seq<Message>)

  function Cascade(c: Setting, ms: seq<Message>): Trace {
    if Fits(c, ms) then Trace(ms, map[], [], [])
    else
      var a := AgentPass(c, ms);
      if Fits(c, a.messages) then Trace(a.messages, a.saved, [AgentRules], [])
      else
        var b := MiddlePass(c, a.messages);
        if Fits(c, b.messages) then Trace(b.messages, a.saved + b.saved, [AgentRules, CompressMiddle], [])
        else
          var s := SummaryPass(c, b.messages);
          var saved := a.saved + b.saved + s.saved;
          var three := [AgentRules, CompressMiddle, SummarizeOld];
          if Fits(c, s.messages) then Trace(s.messages, saved, three, [])
          else
            var d := DropPass(c, s.messages);
            Trace(d.kept, saved, if d.dropped == [] then three else three + [DropOldest], d.dropped)
  }

  function Enforced(c: Setting, ms: seq<Message>): Outcome {
    var r := Cascade(c, ms);
    if c.count(r.messages) > c.Limit() then BudgetExceeded(c.count(r.messages), c.Limit())
    else Ok(Report(c.count(ms), c.count(r.messages), c.Limit(), r.steps, r.dropped))
  }

  method EnforceBudget(c: Setting, initial: seq<Message>)
    returns (messages: seq<Message>, saved: map<string, string>, ghost dropped: seq<Message>, outcome: Outcome)
    ensures messages == Cascade(c, initial).messages && saved == Cascade(c, initial).saved
    ensures dropped == Cascade(c, initial).dropped
    ensures outcome == Enforced(c, initial)
    ensures outcome.Ok? && outcome.report.stepsApplied == [] <==> c.count(initial) as real <= Allowance(c.totalLimit, c.margin)
    ensures c.count(initial) as real <= Allowance(c.totalLimit, c.margin) ==> messages == initial && saved == map[] && dropped == []
    ensures outcome.Ok? ==> c.count(messages) as real <= Allowance(c.totalLimit, c.margin)
    ensures outcome.Ok? ==>
              && outcome.report.tokensInitial == c.count(initial) && outcome.report.tokensFinal == c.count(messages)
              && outcome.report.effectiveLimit == c.Limit() && outcome.report.dropped == dropped
    ensures outcome.BudgetExceeded? ==> outcome.needed == c.count(messages) && outcome.limit == c.Limit()
    ensures outcome.BudgetExceeded? ==> c.count(messages) as real > Allowance(c.totalLimit, c.margin)
  {
    hide HistoryPass, AgentPass, DropPass, ProtectedTail, RecentReplySpan, Allowance, EffectiveLimit;
    UntouchedIff(c, initial);
    LimitIsTheAllowance(c.totalLimit, c.margin, c.count(Cascade(c, initial).messages));
    messages, saved, dropped := initial, map[], [];
    var report := Report(c.count(messages), 0, c.Limit(), [], []);
    if c.count(messages) <= c.Limit() {
      return messages, saved, dropped, Ok(report.(tokensFinal := c.count(messages)));
    }
    messages, saved := ApplyAgentCompression(c, messages);
    report := report.(stepsApplied := report.stepsApplied + [AgentRules]);
    if c.count(messages) <= c.Limit() {
      return messages, saved, dropped, Ok(report.(tokensFinal := c.count(messages)));
    }
    var preserve := ComputePreserveRecent(c, messages);
    var bandSaved;
    messages, bandSaved := CompressConversationHistory(
      c, 2, messages, BandConfig(preserve, SatSub(|messages|, preserve), false));
    saved := saved + bandSaved;
    report := report.(stepsApplied := report.stepsApplied + [CompressMiddle]);
    if c.count(messages) <= c.Limit() {
      return messages, saved, dropped, Ok(report.(tokensFinal := c.count(messages)));
    }
    preserve := ComputePreserveRecent(c, messages);
    messages, bandSaved := CompressConversationHistory(c, 3, messages, BandConfig(preserve, 4, true));
    saved := saved + bandSaved;
    report := report.(stepsApplied := report.stepsApplied + [SummarizeOld]);
    if c.count(messages) <= c.Limit() {
      return messages, saved, dropped, Ok(report.(tokensFinal := c.count(messages)));
    }
    var removed;
    messages, removed := DropOldGroups(c, messages);
    dropped := removed;
    report := report.(dropped := removed, tokensFinal := c.count(messages));
    if removed != [] {
      report := report.(stepsApplied := report.stepsApplied + [DropOldest]);
    }
    if c.count(messages) > c.Limit() {
      return messages, saved, dropped, BudgetExceeded(c.count(messages), c.Limit());
    }
    outcome := Ok(report);
  }

  // ----- the tail -----

  lemma AgentKeepsTail(c: Setting, ms: seq<Message>)
    ensures SameSuffix(AgentPass(c, ms).messages, ms, ProtectedTail(c.t, ms, c.policy))
  {
    var k, out := ProtectedTail(c.t, ms, c.policy), AgentPass(c, ms).messages;
    assert forall i | |ms| - k <= i < |ms| :: out[i] == ms[i];
  }

  lemma TailGrows(c: Setting, ms: seq<Message>, out: seq<Message>)
    requires SameSuffix(out, ms, ProtectedTail(c.t, ms, c.policy))
    ensures ProtectedTail(c.t, out, c.policy) >= ProtectedTail(c.t, ms, c.policy)
  {
    if c.policy.protectedTail.Some? {
      TailStaysProtected(c.t, ms, out, c.policy.protectedTail.value);
    }
  }

  lemma TailChain(c: Setting, ms: seq<Message>, mid: seq<Message>, out: seq<Message>)
    requires SameSuffix(mid, ms, ProtectedTail(c.t, ms, c.policy))
    requires SameSuffix(out, mid, ProtectedTail(c.t, mid, c.policy))
    ensures SameSuffix(out, ms, ProtectedTail(c.t, ms, c.policy))
  {
    TailGrows(c, ms, mid);
    SameSuffixChain(out, mid, ms, ProtectedTail(c.t, mid, c.policy), ProtectedTail(c.t, ms, c.policy));
  }

  lemma PreservesEnough(c: Setting, ms: seq<Message>)
    ensures PreserveRecent(c, ms) >= ProtectedTail(c.t, ms, c.policy)
    ensures PreserveRecent(c, ms) >= RecentReplySpan(c.t, ms, c.policy.keepAssistant)
    ensures PreserveRecent(c, ms) >= Min(4, |ms|) && Min(4, |ms|) <= |ms|
  {
    hide ProtectedTail, RecentReplySpan;
  }

  lemma BandKeepsTail(c: Setting, step: nat, ms: seq<Message>, cfg: BandConfig)
    requires cfg.preserveRecent == PreserveRecent(c, ms)
    ensures SameSuffix(HistoryPass(c, step, ms, cfg).messages, ms, ProtectedTail(c.t, ms, c.policy))
    ensures SameSuffix(HistoryPass(c, step, ms, cfg).messages, ms, RecentReplySpan(c.t, ms, c.policy.keepAssistant))
    ensures SameSuffix(HistoryPass(c, step, ms, cfg).messages, ms, Min(4, |ms|))
  {
    hide *;
    PreservesEnough(c, ms);
    HistoryKeepsRecent(c, step, ms, cfg, ProtectedTail(c.t, ms, c.policy));
    HistoryKeepsRecent(c, step, ms, cfg, RecentReplySpan(c.t, ms, c.policy.keepAssistant));
    HistoryKeepsRecent(c, step, ms, cfg, Min(4, |ms|));
  }

  /** On every exit of the cascade, fitting or not, the protected tail of the input is still the
      verbatim suffix of the list, for every counter, compressor and store. */
  lemma ProtectedTailSurvives(c: Setting, ms: seq<Message>)
    ensures SameSuffix(Cascade(c, ms).messages, ms, ProtectedTail(c.t, ms, c.policy))
  {
    hide HistoryPass, AgentPass, ProtectedTail, DropFrom, PreserveRecent, RecentReplySpan;
    if !Fits(c, ms) {
      var a := AgentPass(c, ms).messages;
      var p := PreserveRecent(c, a);
      var b := MiddlePass(c, a).messages;
      var s := SummaryPass(c, b).messages;
      AgentKeepsTail(c, ms);
      BandKeepsTail(c, 2, a, BandConfig(p, SatSub(|a|, p), false));
      TailChain(c, ms, a, b);
      BandKeepsTail(c, 3, b, BandConfig(PreserveRecent(c, b), 4, true));
      TailChain(c, ms, b, s);
      DropKeepsTail(c, s, c.count(s));
      TailChain(c, ms, s, DropPass(c, s).kept);
    }
  }

  // ----- pinned messages -----

  lemma AgentKeepsPinned(c: Setting, ms: seq<Message>)
    ensures Where(IsPinned, AgentPass(c, ms).messages) == Where(IsPinned, ms)
  {
    WherePointwise(IsPinned, ms, AgentPass(c, ms).messages);
  }

  /** Every pinned message comes out of the whole cascade verbatim and in its original order, and no
      other message becomes pinned, for every counter, compressor and store. */
  lemma PinnedSurvive(c: Setting, ms: seq<Message>)
    ensures Where(IsPinned, Cascade(c, ms).messages) == Where(IsPinned, ms)
  {
    hide HistoryPass, AgentPass, DropFrom, Where;
    var a := AgentPass(c, ms).messages;
    var p := PreserveRecent(c, a);
    var b := MiddlePass(c, a).messages;
    var s := SummaryPass(c, b).messages;
    AgentKeepsPinned(c, ms);
    HistoryKeepsPinned(c, 2, a, BandConfig(p, SatSub(|a|, p), false));
    HistoryKeepsPinned(c, 3, b, BandConfig(PreserveRecent(c, b), 4, true));
    DropKeepsWhere(c, s, c.count(s), IsPinned);
  }

  // ----- the summary -----

  /** The middle pass compresses from the front: it folds no prefix away. */
  lemma MiddleFoldsNothing(c: Setting, ms: seq<Message>)
    ensures |MiddlePass(c, ms).messages| == |ms|
  {
    hide HistoryPass, ProtectedTail, RecentReplySpan, CompressedAt;
    var p := PreserveRecent(c, ms);
    var cfg := BandConfig(p, SatSub(|ms|, p), false);
    HistoryIs(c, 2, ms, cfg);
    if |ms| > p {
      assert BandStart(ms, cfg) == 0;
      PrefixBecomesSummary(c, 2, ms, cfg);
    }
  }

  /** When the cascade goes on to summarise and there is a prefix to fold, its result begins with the
      summary of that prefix, however much is dropped afterwards. */
  lemma SummaryLeads(c: Setting, ms: seq<Message>)
    requires !Fits(c, ms)
    requires var a := AgentPass(c, ms).messages; var b := MiddlePass(c, a).messages;
             && !Fits(c, a) && !Fits(c, b)
             && |b| > PreserveRecent(c, b) && BandStart(b, BandConfig(PreserveRecent(c, b), 4, true)) > 0
    ensures var b := MiddlePass(c, AgentPass(c, ms).messages).messages;
            var prefix, out := b[..BandStart(b, BandConfig(PreserveRecent(c, b), 4, true))], Cascade(c, ms).messages;
            out != [] && out[0] == Rewrite(SummaryMessage(prefix), c.world.pipeline(3, 0))
  {
    hide HistoryPass, AgentPass, DropFrom, PreserveRecent, BandStart, SummaryMessage, Rewrite;
    var b := MiddlePass(c, AgentPass(c, ms).messages).messages;
    var s := SummaryPass(c, b).messages;
    PrefixBecomesSummary(c, 3, b, BandConfig(PreserveRecent(c, b), 4, true));
    SummaryIsProtected(c.t, s[0]);
    DropKeepsFirst(c, s, c.count(s));
  }

  lemma SummaryIsProtected(t: Toolkit, m: Message)
    requires m.role == System && m.metadata.Keys <= {CcrId}
    ensures IsProtected(t, m)
  {
    assert AgentContentType !in m.metadata.Keys;
  }

  // ----- the verdict -----

  /** A list is accepted as it is, with no step applied, exactly when its count leaves the margin free. */
  lemma UntouchedIff(c: Setting, ms: seq<Message>)
    ensures c.count(ms) as real <= Allowance(c.totalLimit, c.margin)
       <==> Enforced(c, ms) == Ok(Report(c.count(ms), c.count(ms), c.Limit(), [], []))
    ensures c.count(ms) as real <= Allowance(c.totalLimit, c.margin) ==> Cascade(c, ms) == Trace(ms, map[], [], [])
    ensures c.count(ms) as real > Allowance(c.totalLimit, c.margin) ==> AgentRules in Cascade(c, ms).steps
  {
    hide HistoryPass, AgentPass, DropPass, PreserveRecent, Allowance, EffectiveLimit;
    LimitIsTheAllowance(c.totalLimit, c.margin, c.count(ms));
  }

  /** The cascade refuses exactly when the recount of what is left is over the limit, and it refuses
      only when nothing more may be dropped. An accepted list really fits. */
  lemma VerdictIsExact(c: Setting, ms: seq<Message>)
    ensures var r := Cascade(c, ms);
            && (Enforced(c, ms).Ok? <==> c.count(r.messages) <= c.Limit())
            && (Enforced(c, ms).BudgetExceeded? ==>
                  |r.messages| <= MIN_MESSAGES || FindGroup(c, r.messages, 0).None?)
  {
    hide HistoryPass, AgentPass, DropFrom, FindGroup, PreserveRecent;
    if !Fits(c, ms) {
      var b := MiddlePass(c, AgentPass(c, ms).messages).messages;
      var s := SummaryPass(c, b).messages;
      StopsOnlyWhen(c, s, c.count(s));
    }
  }
}
