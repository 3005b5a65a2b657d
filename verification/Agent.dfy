/** The agent-aware rules of agent.rs: tail protection, recent replies and clearing of old tool results. */
module Agent {
  import opened Options
  import opened Naturals
  import opened Messages
  import Decimal

  const OVERHEAD_PER_MESSAGE := 4

  datatype Policy = Policy(
    keepToolResults: nat, clearOld: bool, keepAssistant: nat, protectedTail: Option<nat>)

  /** What the pipeline made of one message: its text, the CCR id it reports, what it stored. */
  datatype PipeOut = PipeOut(content: string, ccr: Option<string>, saves: map<string, string>)

  /** Everything outside the SDK's control during one call: which store writes succeed (by message
      position) and what the compressors return (by cascade step and position). */
  datatype World = World(saveSucceeds: nat -> bool, pipeline: (nat, nat) -> PipeOut)

  /** The total limit less the safety margin rounded up: what is held back covers the margin, by less than
      one token, and a negative margin holds nothing back. */
  function EffectiveLimit(totalLimit: nat, margin: real): (limit: nat)
    ensures limit <= totalLimit
    ensures limit > 0 ==> (totalLimit - limit) as real >= totalLimit as real * margin
    ensures margin <= 0.0 ==> limit == totalLimit
    ensures margin > 0.0 && limit > 0 ==> (totalLimit - limit) as real < totalLimit as real * margin + 1.0
    ensures limit == 0 && totalLimit > 0 ==> totalLimit as real * margin > totalLimit as real - 1.0
  {
    MarginSign(totalLimit as real, margin);
    var held := -((-(totalLimit as real * margin)).Floor);
    if held <= 0 then totalLimit else SatSub(totalLimit, held)
  }

  lemma MarginSign(total: real, margin: real)
    requires total >= 0.0
    ensures margin <= 0.0 ==> total * margin <= 0.0
    ensures margin >= 0.0 ==> total * margin >= 0.0
  {
  }

  /** What the margin leaves of the total limit, before rounding. */
  function Allowance(totalLimit: nat, margin: real): real {
    if margin <= 0.0 then totalLimit as real
    else if margin >= 1.0 then 0.0
    else totalLimit as real - totalLimit as real * margin
  }

  /** Rounding never refuses a count the margin allows, nor accepts one it does not. */
  lemma LimitIsTheAllowance(totalLimit: nat, margin: real, n: nat)
    ensures n <= EffectiveLimit(totalLimit, margin) <==> n as real <= Allowance(totalLimit, margin)
  {
    hide EffectiveLimit;
    var total, limit := totalLimit as real, EffectiveLimit(totalLimit, margin);
    var product := total * margin;
    MarginSign(total, margin);
    MarginSign(total, margin - 1.0);
    assert total * (margin - 1.0) == product - total;
  }

  datatype Setting = Setting(
    t: Toolkit, policy: Policy, hasStore: bool, world: World,
    count: seq<Message> -> nat, totalLimit: nat, margin: real) {
    function Limit(): nat {
      EffectiveLimit(totalLimit, margin)
    }
  }

  /** A rewritten list and what was written to the store on the way. */
  datatype Pass = Pass(messages: seq<Message>, saved: map<string, string>)

  function Estimated(t: Toolkit, m: Message): nat {
    t.estimate(m.content) + OVERHEAD_PER_MESSAGE
  }

  // ----- the protected tail -----

  /** How many trailing messages overlap the last `budget` estimated tokens. */
  function TailLength(t: Toolkit, ms: seq<Message>, budget: nat): (k: nat)
    ensures k <= |ms|
  {
    if ms == [] || budget == 0 then 0
    else 1 + TailLength(t, ms[..|ms| - 1], SatSub(budget, Estimated(t, ms[|ms| - 1])))
  }

  function ProtectedTail(t: Toolkit, ms: seq<Message>, p: Policy): (k: nat)
    ensures k <= |ms|
  {
    if p.protectedTail.None? then 0 else TailLength(t, ms, p.protectedTail.value)
  }

  /** Estimated tokens of the last `j` messages. */
  function TailTokens(t: Toolkit, ms: seq<Message>, j: nat): nat
    requires j <= |ms|
  {
    if j == 0 then 0 else Estimated(t, ms[|ms| - j]) + TailTokens(t, ms, j - 1)
  }

  lemma {:induction false} TailTokensOfInit(t: Toolkit, ms: seq<Message>, j: nat)
    requires 1 <= j <= |ms|
    ensures TailTokens(t, ms, j) == TailTokens(t, ms[..|ms| - 1], j - 1) + Estimated(t, ms[|ms| - 1])
  {
    if j > 1 {
      TailTokensOfInit(t, ms, j - 1);
    }
  }

  /** The tail is the shortest suffix covering the budget, or the whole list when none covers it. */
  lemma {:induction false} TailIsShortestCover(t: Toolkit, ms: seq<Message>, budget: nat, j: nat)
    requires j <= |ms|
    ensures var k := TailLength(t, ms, budget);
            && (j < k ==> TailTokens(t, ms, j) < budget)
            && (k <= j && k < |ms| ==> TailTokens(t, ms, j) >= budget)
  {
    if ms != [] && budget != 0 && j > 0 {
      TailTokensOfInit(t, ms, j);
      TailIsShortestCover(t, ms[..|ms| - 1], SatSub(budget, Estimated(t, ms[|ms| - 1])), j - 1);
    }
  }

  /** Protection depends only on the suffix it protects: whatever happens before it, a list that still
      ends with the protected tail protects at least that tail. */
  lemma {:induction false} TailStaysProtected(t: Toolkit, ms: seq<Message>, ms': seq<Message>, budget: nat)
    requires TailLength(t, ms, budget) <= |ms'|
    requires ms'[|ms'| - TailLength(t, ms, budget)..] == ms[|ms| - TailLength(t, ms, budget)..]
    ensures TailLength(t, ms', budget) >= TailLength(t, ms, budget)
  {
    var k := TailLength(t, ms, budget);
    if k > 0 {
      var n, n' := |ms|, |ms'|;
      assert ms[n - 1] == ms[n - k..][k - 1] == ms'[n' - k..][k - 1] == ms'[n' - 1];
      assert ms[..n - 1][n - k..] == ms[n - k..][..k - 1] == ms'[n' - k..][..k - 1] == ms'[..n' - 1][n' - k..];
      TailStaysProtected(t, ms[..n - 1], ms'[..n' - 1], SatSub(budget, Estimated(t, ms[n - 1])));
    }
  }

  method ProtectedTailMask(t: Toolkit, ms: seq<Message>, p: Policy) returns (mask: seq<bool>)
    ensures |mask| == |ms|
    ensures forall i | 0 <= i < |ms| :: mask[i] <==> |ms| - ProtectedTail(t, ms, p) <= i
  {
    mask := seq(|ms|, _ => false);
    if p.protectedTail.None? || p.protectedTail.value == 0 {
      return;
    }
    var budget := p.protectedTail.value;
    var tailTokens, idx := 0, |ms|;
    assert ms[..idx] == ms;
    while idx > 0
      invariant 0 <= idx <= |ms| == |mask| && tailTokens >= 0
      invariant forall i | 0 <= i < |ms| :: mask[i] <==> idx <= i
      invariant TailLength(t, ms, budget) == |ms| - idx + TailLength(t, ms[..idx], SatSub(budget, tailTokens))
    {
      if tailTokens >= budget {
        break;
      }
      assert ms[..idx][..idx - 1] == ms[..idx - 1];
      idx := idx - 1;
      mask := mask[idx := true];
      tailTokens := tailTokens + Estimated(t, ms[idx]);
    }
  }

  // ----- the most recent assistant replies -----

  predicate IsReply(t: Toolkit, m: Message) {
    Classify(t, m) == AssistantReply
  }

  function RepliesFrom(t: Toolkit, ms: seq<Message>, i: nat): nat
    requires i <= |ms|
    decreases |ms| - i
  {
    if i == |ms| then 0 else (if IsReply(t, ms[i]) then 1 else 0) + RepliesFrom(t, ms, i + 1)
  }

  /** Is `ms[i]` one of the newest `keep` assistant replies? */
  predicate IsRecentReply(t: Toolkit, ms: seq<Message>, keep: nat, i: nat)
    requires i < |ms|
  {
    IsReply(t, ms[i]) && RepliesFrom(t, ms, i + 1) < keep
  }

  method RecentAssistantMask(t: Toolkit, ms: seq<Message>, keep: nat) returns (mask: seq<bool>)
    ensures |mask| == |ms|
    ensures forall i | 0 <= i < |ms| :: mask[i] <==> IsRecentReply(t, ms, keep, i)
  {
    mask := seq(|ms|, _ => false);
    if keep == 0 {
      return;
    }
    var seen, idx := 0, |ms|;
    while idx > 0
      invariant 0 <= idx <= |ms| == |mask|
      invariant seen == RepliesFrom(t, ms, idx) < keep
      invariant forall i | 0 <= i < idx :: !mask[i]
      invariant forall i | idx <= i < |ms| :: mask[i] <==> IsRecentReply(t, ms, keep, i)
    {
      idx := idx - 1;
      if IsReply(t, ms[idx]) {
        mask := mask[idx := true];
        seen := seen + 1;
        if seen >= keep {
          forall i | 0 <= i < idx
            ensures !IsRecentReply(t, ms, keep, i)
          {
            RepliesFromMonotone(t, ms, i + 1, idx);
          }
          break;
        }
      }
    }
  }

  lemma {:induction false} RepliesFromMonotone(t: Toolkit, ms: seq<Message>, i: nat, j: nat)
    requires i <= j <= |ms|
    ensures RepliesFrom(t, ms, i) >= RepliesFrom(t, ms, j)
    decreases j - i
  {
    if i < j {
      RepliesFromMonotone(t, ms, i + 1, j);
    }
  }

  /** First recent reply at or after `i`. */
  function FirstRecentReply(t: Toolkit, ms: seq<Message>, keep: nat, i: nat): (r: nat)
    requires i <= |ms|
    ensures i <= r <= |ms|
    ensures r < |ms| ==> IsRecentReply(t, ms, keep, r)
    ensures forall j | i <= j < r :: !IsRecentReply(t, ms, keep, j)
    decreases |ms| - i
  {
    if i == |ms| || IsRecentReply(t, ms, keep, i) then i else FirstRecentReply(t, ms, keep, i + 1)
  }

  /** Length of the suffix that holds the newest `keep` assistant replies. */
  function RecentReplySpan(t: Toolkit, ms: seq<Message>, keep: nat): (k: nat)
    ensures k <= |ms|
  {
    |ms| - FirstRecentReply(t, ms, keep, 0)
  }

  method RecentAssistantPreserveCount(t: Toolkit, ms: seq<Message>, keep: nat) returns (k: nat)
    ensures k == RecentReplySpan(t, ms, keep)
  {
    var mask := RecentAssistantMask(t, ms, keep);
    var first := 0;
    while first < |mask| && !mask[first]
      invariant first <= |mask|
      invariant FirstRecentReply(t, ms, keep, 0) == FirstRecentReply(t, ms, keep, first)
    {
      first := first + 1;
    }
    k := |ms| - first;
  }

  // ----- clearing of old tool results -----

  predicate IsClearable(t: Toolkit, m: Message) {
    Classify(t, m) == ToolResultSuccess && !IsPinned(m)
  }

  function ClearablesFrom(t: Toolkit, ms: seq<Message>, i: nat): nat
    requires i <= |ms|
    decreases |ms| - i
  {
    if i == |ms| then 0 else (if IsClearable(t, ms[i]) then 1 else 0) + ClearablesFrom(t, ms, i + 1)
  }

  /** Exactly the messages the pass clears: unpinned successful tool results before the protected tail
      with at least `keepToolResults` newer ones, when the policy and the store allow it. */
  predicate ClearedAt(c: Setting, ms: seq<Message>, i: nat)
    requires i < |ms|
  {
    && IsClearable(c.t, ms[i])
    && i < |ms| - ProtectedTail(c.t, ms, c.policy)
    && ClearablesFrom(c.t, ms, i + 1) >= c.policy.keepToolResults
    && c.policy.clearOld && c.hasStore && c.world.saveSucceeds(i)
  }

  function StubCleared(): string {
    "] result cleared ("
  }

  function StubVia(): string {
    " tokens) — original retrievable via "
  }

  function StubMiddle(tokens: nat): string {
    StubCleared() + Decimal.ToText(tokens) + StubVia()
  }

  function StubText(tool: string, tokens: nat, id: string): string {
    ("[tool:" + tool + StubMiddle(tokens)) + "<<ccr:" + id + ">>"
  }

  function ToolNameOf(m: Message): string {
    if ToolName in m.metadata then m.metadata[ToolName] else "unknown"
  }

  function ClearedStub(t: Toolkit, m: Message): Message {
    var id := t.key(m.content);
    Message(m.role, StubText(ToolNameOf(m), t.estimate(m.content), id),
            m.metadata[CcrId := id][AgentContentType := "tool_result_success"])
  }

  function AgentMessages(c: Setting, ms: seq<Message>): (out: seq<Message>)
    ensures |out| == |ms|
  {
    seq(|ms|, i requires 0 <= i < |ms| => if ClearedAt(c, ms, i) then ClearedStub(c.t, ms[i]) else ms[i])
  }

  /** The originals stored while clearing positions `i..`, newest first. */
  function ClearedSaves(c: Setting, ms: seq<Message>, i: nat): map<string, string>
    requires i <= |ms|
    decreases |ms| - i
  {
    if i == |ms| then map[]
    else if ClearedAt(c, ms, i) then ClearedSaves(c, ms, i + 1)[c.t.key(ms[i].content) := ms[i].content]
    else ClearedSaves(c, ms, i + 1)
  }

  function AgentPass(c: Setting, ms: seq<Message>): Pass {
    Pass(AgentMessages(c, ms), ClearedSaves(c, ms, 0))
  }

  method ApplyAgentCompression(c: Setting, ms: seq<Message>) returns (out: seq<Message>, saved: map<string, string>)
    ensures Pass(out, saved) == AgentPass(c, ms)
  {
    hide ClearedStub, ProtectedTail;
    var tailProtected := ProtectedTailMask(c.t, ms, c.policy);
    out, saved := ms, map[];
    var seenToolSuccess, idx := 0, |ms|;
    while idx > 0
      invariant 0 <= idx <= |ms| == |out|
      invariant seenToolSuccess == ClearablesFrom(c.t, ms, idx)
      invariant forall i | 0 <= i < idx :: out[i] == ms[i]
      invariant forall i | idx <= i < |ms| :: out[i] == AgentMessages(c, ms)[i]
      invariant saved == ClearedSaves(c, ms, idx)
    {
      idx := idx - 1;
      var msg := out[idx];
      if Classify(c.t, msg) == ToolResultSuccess && !IsPinned(msg) {
        var protectedByCount := seenToolSuccess < c.policy.keepToolResults;
        seenToolSuccess := seenToolSuccess + 1;
        if !(tailProtected[idx] || protectedByCount) && c.policy.clearOld && c.hasStore && c.world.saveSucceeds(idx) {
          saved := saved[c.t.key(msg.content) := msg.content];
          out := out[idx := ClearedStub(c.t, msg)];
        }
      }
    }
    assert out == AgentMessages(c, ms);
  }

  /** The unpinned successful tool results from position `i` on. */
  function ClearablesSince(t: Toolkit, ms: seq<Message>, i: nat): set<nat> {
    set k: nat | i <= k < |ms| && IsClearable(t, ms[k])
  }

  lemma {:induction false} ClearablesAreCounted(t: Toolkit, ms: seq<Message>, i: nat)
    requires i <= |ms|
    ensures ClearablesFrom(t, ms, i) == |ClearablesSince(t, ms, i)|
    decreases |ms| - i
  {
    hide IsClearable;
    if i < |ms| {
      ClearablesAreCounted(t, ms, i + 1);
      assert ClearablesSince(t, ms, i) == ClearablesSince(t, ms, i + 1) + if IsClearable(t, ms[i]) then {i} else {};
    } else {
      assert ClearablesSince(t, ms, i) == {};
    }
  }

  /** A message is cleared exactly when it is an unpinned successful tool result, the messages after it
      cover the protected budget, at least `keepToolResults` newer results could be cleared as well, the
      policy and the store allow it, and the write succeeds. Every other message stays verbatim, so the
      newest `keepToolResults` results always do. */
  lemma ClearedIff(c: Setting, ms: seq<Message>, i: nat)
    requires i < |ms|
    ensures AgentPass(c, ms).messages[i] ==
            if && IsClearable(c.t, ms[i])
               && (c.policy.protectedTail.Some? ==> TailTokens(c.t, ms, |ms| - 1 - i) >= c.policy.protectedTail.value)
               && |ClearablesSince(c.t, ms, i + 1)| >= c.policy.keepToolResults
               && c.policy.clearOld && c.hasStore && c.world.saveSucceeds(i)
            then ClearedStub(c.t, ms[i]) else ms[i]
  {
    hide ClearedStub, IsClearable, ClearablesSince;
    ClearablesAreCounted(c.t, ms, i + 1);
    if c.policy.protectedTail.Some? {
      TailIsShortestCover(c.t, ms, c.policy.protectedTail.value, |ms| - 1 - i);
    }
  }

  /** In terms of roles: only tool output is ever cleared, never a failed one, unless the host classified
      the message itself. */
  lemma ClearsOnlyToolOutput(c: Setting, ms: seq<Message>, i: nat)
    requires i < |ms| && AgentPass(c, ms).messages[i] != ms[i]
    ensures !HasTag(ms[i], Pinned, "true")
    ensures AgentContentType !in ms[i].metadata ==>
              && (ms[i].role == Tool || ms[i].role == Function)
              && !HasTag(ms[i], ToolStatus, "error") && !c.t.looksLikeError(ms[i].content)
    ensures AgentContentType in ms[i].metadata && ms[i].metadata[AgentContentType] != "tool_result_success" ==>
              ParseKind(ms[i].metadata[AgentContentType]) == Kind.Unknown
  {
    hide ClearedStub, ProtectedTail;
  }

  /** With a collision-free key every stub leads back to exactly the text it replaced. */
  lemma {:induction false} ClearingIsReversible(c: Setting, ms: seq<Message>, i: nat)
    requires i < |ms| && ClearedAt(c, ms, i)
    requires forall x, y | c.t.key(x) == c.t.key(y) :: x == y
    ensures var p := AgentPass(c, ms); var stub := p.messages[i];
            && CcrId in stub.metadata && stub.metadata[CcrId] in p.saved
            && p.saved[stub.metadata[CcrId]] == ms[i].content
  {
    ClearedSavesHold(c, ms, 0, i);
  }

  lemma {:induction false} ClearedSavesHold(c: Setting, ms: seq<Message>, from: nat, i: nat)
    requires from <= i < |ms| && ClearedAt(c, ms, i)
    requires forall x, y | c.t.key(x) == c.t.key(y) :: x == y
    ensures c.t.key(ms[i].content) in ClearedSaves(c, ms, from)
    ensures ClearedSaves(c, ms, from)[c.t.key(ms[i].content)] == ms[i].content
    decreases i - from
  {
    if from < i {
      ClearedSavesHold(c, ms, from + 1, i);
    }
  }
}
