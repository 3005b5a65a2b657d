/** Which group the budget cascade drops, and when it may drop none. */
module DropChoice {
  import opened Messages
  import opened Agent
  import opened Groups
  import opened DropOld
  import opened Budget

  /** The newest user query. */
  predicate IsLatestUser(t: Toolkit, ms: seq<Message>, i: nat)
    requires i < |ms|
  {
    Classify(t, ms[i]) == UserQuery && forall j | i < j < |ms| :: Classify(t, ms[j]) != UserQuery
  }

  /** What holds message `i` in the list. */
  predicate Held(c: Setting, ms: seq<Message>, i: nat)
    requires i < |ms|
  {
    || |ms| - i <= ProtectedTail(c.t, ms, c.policy)
    || IsLatestUser(c.t, ms, i)
    || Classify(c.t, ms[i]) == SystemInstruction || Classify(c.t, ms[i]) == ToolResultError
    || HasTag(ms[i], Pinned, "true")
  }

  /** A group that may go: no message in it is held, and four messages stay. */
  predicate MayGo(c: Setting, ms: seq<Message>, s: nat, e: nat) {
    s < e <= |ms| && |ms| - (e - s) >= 4 && forall i | s <= i < e :: !Held(c, ms, i)
  }

  lemma MayGoIffDroppable(c: Setting, ms: seq<Message>, s: nat, e: nat)
    requires s < e <= |ms|
    ensures MayGo(c, ms, s, e) <==> GroupDroppable(c, ms, s, e)
  {
    forall i | s <= i < e
      ensures !Held(c, ms, i) <==> MemberDroppable(c, ms, i)
    {
      HeldIff(c, ms, i);
    }
  }

  lemma HeldIff(c: Setting, ms: seq<Message>, i: nat)
    requires i < |ms|
    ensures Held(c, ms, i) <==> !MemberDroppable(c, ms, i)
  {
    if IsLatestUser(c.t, ms, i) {
      LatestUserIs(c.t, ms, i);
    }
    hide Classify, ProtectedTail;
  }

  /** The group taken out is the oldest that may go; when none is, none may go. */
  lemma {:induction false} OldestGoesFirst(c: Setting, ms: seq<Message>, i: nat, k: nat)
    requires i <= |ms| && k <= |ParseFrom(ms, i)|
    ensures var gs := ParseFrom(ms, i);
            && i + Width(gs, k) <= |ms|
            && (match FindGroup(c, ms, i)
                case None => k < |gs| ==> !MayGo(c, ms, i + Width(gs, k), i + Width(gs, k + 1))
                case Some((s, e)) =>
                  && MayGo(c, ms, s, e)
                  && (k < |gs| && i + Width(gs, k) < s ==> !MayGo(c, ms, i + Width(gs, k), i + Width(gs, k + 1))))
    decreases |ms| - i
  {
    hide MayGo, GroupDroppable, Flatten;
    if i < |ms| {
      var e, gs := GroupEnd(ms, i), ParseFrom(ms, i);
      MayGoIffDroppable(c, ms, i, e);
      FirstWidths(ms, i, k);
      if k > 0 {
        OldestGoesFirst(c, ms, e, k - 1);
      } else {
        OldestGoesFirst(c, ms, e, 0);
      }
    } else {
      NoWidth([]);
    }
  }

  lemma FirstWidths(ms: seq<Message>, i: nat, k: nat)
    requires i < |ms| && k <= |ParseFrom(ms, i)|
    ensures var e, gs := GroupEnd(ms, i), ParseFrom(ms, i);
            && gs != [] && Width(gs, 0) == 0 && Width(gs, 1) == e - i
            && (k > 0 ==> Width(gs, k) == e - i + Width(ParseFrom(ms, e), k - 1))
            && (0 < k < |gs| ==> Width(gs, k + 1) == e - i + Width(ParseFrom(ms, e), k))
  {
    hide GroupEnd, ParseFrom;
    var e := GroupEnd(ms, i);
    ParseStep(ms, i);
    ConsWidth(ms[i..e], ParseFrom(ms, e), 1);
    NoWidth(ParseFrom(ms, i));
    NoWidth(ParseFrom(ms, e));
    if k > 0 {
      ConsWidth(ms[i..e], ParseFrom(ms, e), k);
    }
    if 0 < k < |ParseFrom(ms, i)| {
      ConsWidth(ms[i..e], ParseFrom(ms, e), k + 1);
    }
  }

  lemma ParseStep(ms: seq<Message>, i: nat)
    requires i < |ms|
    ensures ParseFrom(ms, i) == [ms[i..GroupEnd(ms, i)]] + ParseFrom(ms, GroupEnd(ms, i))
  {
  }

  lemma ConsWidth(g: Group, gs: seq<Group>, k: nat)
    requires 0 < k <= 1 + |gs|
    ensures Width([g] + gs, k) == |g| + Width(gs, k - 1)
  {
    var t := ([g] + gs)[..k];
    assert t[0] == g && t[1..] == gs[..k - 1];
  }

  /** In terms of roles: a system message, a failed tool output, a pinned message and the last user message
      are held, unless the host classified messages itself. */
  lemma HeldByRole(c: Setting, ms: seq<Message>, i: nat)
    requires i < |ms| && forall k | i <= k < |ms| :: AgentContentType !in ms[k].metadata
    ensures ms[i].role == System ==> Held(c, ms, i)
    ensures IsToolRole(ms[i]) && (HasTag(ms[i], ToolStatus, "error") || c.t.looksLikeError(ms[i].content)) ==> Held(c, ms, i)
    ensures HasTag(ms[i], Pinned, "true") ==> Held(c, ms, i)
    ensures ms[i].role == User && (forall k | i < k < |ms| :: ms[k].role != User) ==> Held(c, ms, i)
  {
    hide ProtectedTail;
  }

  /** A refusal is a last resort: at most four messages are left, or in every group of what is left some
      message is in the protected tail, the newest user query, a system message, a tool error or pinned,
      or dropping the group would leave fewer than four. */
  lemma RefusesOnlyAtTheEnd(c: Setting, ms: seq<Message>, k: nat)
    requires Enforced(c, ms).BudgetExceeded?
    requires k < |ParseFrom(Cascade(c, ms).messages, 0)|
    ensures var left := Cascade(c, ms).messages; var gs := ParseFrom(left, 0);
            |left| <= 4 || !MayGo(c, left, Width(gs, k), Width(gs, k + 1))
  {
    hide MayGo, Cascade, Enforced, FindGroup, Flatten;
    VerdictIsExact(c, ms);
    OldestGoesFirst(c, Cascade(c, ms).messages, 0, k);
  }
}
