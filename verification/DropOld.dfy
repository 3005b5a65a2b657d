/** Step 4 of the budget cascade: drop the oldest droppable group until the list fits. */
module DropOld {
  import opened Options
  import opened Naturals
  import opened Messages
  import opened Agent
  import opened Groups

  const MIN_MESSAGES := 4

  /** Index of the newest user query, or -1. */
  function LatestUser(t: Toolkit, ms: seq<Message>): (r: int)
    ensures -1 <= r < |ms|
    ensures r >= 0 ==> Classify(t, ms[r]) == UserQuery
    ensures forall j | r < j < |ms| :: Classify(t, ms[j]) != UserQuery
  {
    if ms == [] then -1
    else if Classify(t, ms[|ms| - 1]) == UserQuery then |ms| - 1
    else LatestUser(t, ms[..|ms| - 1])
  }

  /** Never dropped, whatever its position: system instructions, tool errors and pinned messages. */
  predicate IsProtected(t: Toolkit, m: Message) {
    Classify(t, m) == SystemInstruction || Classify(t, m) == ToolResultError || IsPinned(m)
  }

  predicate MemberDroppable(c: Setting, ms: seq<Message>, i: nat)
    requires i < |ms|
  {
    && i < |ms| - ProtectedTail(c.t, ms, c.policy)
    && i != LatestUser(c.t, ms)
    && !IsProtected(c.t, ms[i])
  }

  predicate GroupDroppable(c: Setting, ms: seq<Message>, i: nat, e: nat)
    requires i <= e <= |ms|
  {
    (forall j | i <= j < e :: MemberDroppable(c, ms, j)) && |ms| - (e - i) >= MIN_MESSAGES
  }

  /** The oldest droppable group at or after scan position `i`. */
  function FindGroup(c: Setting, ms: seq<Message>, i: nat): (r: Option<(nat, nat)>)
    requires i <= |ms|
    ensures r.Some? ==> i <= r.value.0 < r.value.1 <= |ms| && r.value.1 == GroupEnd(ms, r.value.0)
                        && GroupDroppable(c, ms, r.value.0, r.value.1)
    decreases |ms| - i
  {
    if i == |ms| then None
    else if GroupDroppable(c, ms, i, GroupEnd(ms, i)) then Some((i, GroupEnd(ms, i)))
    else FindGroup(c, ms, GroupEnd(ms, i))
  }

  datatype Drop = Drop(kept: seq<Message>, dropped: seq<Message>)

  function Cut(ms: seq<Message>, s: nat, e: nat): seq<Message>
    requires s <= e <= |ms|
  {
    ms[..s] + ms[e..]
  }

  /** The running total after removing `removed`, recounted when it reaches the limit. */
  function NextRunning(c: Setting, running: nat, removed: seq<Message>, ms': seq<Message>): nat {
    var r := SatSub(running, c.count(removed));
    if r <= c.Limit() then c.count(ms') else r
  }

  function DropFrom(c: Setting, ms: seq<Message>, running: nat): Drop
    decreases |ms|
  {
    if !Continues(c, ms, running) then Drop(ms, [])
    else
      var (s, e) := FindGroup(c, ms, 0).value;
      var ms' := Cut(ms, s, e);
      var rest := DropFrom(c, ms', NextRunning(c, running, ms[s..e], ms'));
      Drop(rest.kept, ms[s..e] + rest.dropped)
  }

  predicate Continues(c: Setting, ms: seq<Message>, running: nat) {
    running > c.Limit() && |ms| > MIN_MESSAGES && FindGroup(c, ms, 0).Some?
  }

  lemma DropStep(c: Setting, ms: seq<Message>, running: nat)
    requires Continues(c, ms, running)
    ensures FindGroup(c, ms, 0).Some?
    ensures var (s, e) := FindGroup(c, ms, 0).value; var ms' := Cut(ms, s, e);
            var rest := DropFrom(c, ms', NextRunning(c, running, ms[s..e], ms'));
            DropFrom(c, ms, running) == Drop(rest.kept, ms[s..e] + rest.dropped)
  {
  }

  function DropPass(c: Setting, ms: seq<Message>): Drop {
    DropFrom(c, ms, c.count(ms))
  }

  method FindDroppableGroup(c: Setting, ms: seq<Message>) returns (found: Option<(nat, nat)>)
    ensures found == FindGroup(c, ms, 0)
  {
    var i := 0;
    while i < |ms|
      invariant i <= |ms|
      invariant FindGroup(c, ms, i) == FindGroup(c, ms, 0)
    {
      var end := i + 1;
      if ms[i].role.Assistant? {
        while end < |ms| && IsToolRole(ms[end])
          invariant i < end <= |ms|
          invariant ToolRunEnd(ms, end) == ToolRunEnd(ms, i + 1)
        {
          end := end + 1;
        }
      }
      if GroupDroppable(c, ms, i, end) {
        return Some((i, end));
      }
      i := end;
    }
    found := None;
  }

  method DropOldGroups(c: Setting, initial: seq<Message>) returns (messages: seq<Message>, dropped: seq<Message>)
    ensures Drop(messages, dropped) == DropPass(c, initial)
  {
    messages, dropped := initial, [];
    var running: nat := c.count(messages);
    while running > c.Limit() && |messages| > MIN_MESSAGES
      invariant DropPass(c, initial).kept == DropFrom(c, messages, running).kept
      invariant DropPass(c, initial).dropped == dropped + DropFrom(c, messages, running).dropped
      decreases |messages|
    {
      var group := FindDroppableGroup(c, messages);
      if group.None? {
        break;
      }
      var (start, end) := group.value;
      var removed := messages[start..end];
      ghost var rest := DropFrom(c, Cut(messages, start, end), NextRunning(c, running, removed, Cut(messages, start, end)));
      Assoc(dropped, removed, rest.dropped);
      messages := messages[..start] + messages[end..];
      running := SatSub(running, c.count(removed));
      if running <= c.Limit() {
        running := c.count(messages);
      }
      dropped := dropped + removed;
    }
  }

  lemma Assoc<T>(a: seq<T>, b: seq<T>, c: seq<T>)
    ensures a + (b + c) == (a + b) + c
  {
  }

  // ----- when the loop stops -----

  /** For any counter at all, the loop ends only when a recount fits, four messages are left, or no
      group is droppable; and it never goes below four messages. */
  lemma {:induction false} StopsOnlyWhen(c: Setting, ms: seq<Message>, running: nat)
    requires running <= c.Limit() ==> running == c.count(ms)
    ensures var kept := DropFrom(c, ms, running).kept;
            && (c.count(kept) <= c.Limit() || |kept| <= MIN_MESSAGES || FindGroup(c, kept, 0).None?)
            && (|kept| >= MIN_MESSAGES || kept == ms)
    decreases |ms|
  {
    if Continues(c, ms, running) {
      var (s, e) := FindGroup(c, ms, 0).value;
      StopsOnlyWhen(c, Cut(ms, s, e), NextRunning(c, running, ms[s..e], Cut(ms, s, e)));
    }
  }

  ghost predicate Additive(count: seq<Message> -> nat) {
    forall a, b :: count(a + b) == count(a) + count(b)
  }

  /** The default TokenCounter::count_messages over any per-text count. */
  function AdditiveCount(text: string -> nat, ms: seq<Message>): nat {
    if ms == [] then 0 else text(ms[0].content) + OVERHEAD_PER_MESSAGE + AdditiveCount(text, ms[1..])
  }

  lemma {:induction false} DefaultCounterIsAdditive(text: string -> nat, a: seq<Message>, b: seq<Message>)
    ensures AdditiveCount(text, a + b) == AdditiveCount(text, a) + AdditiveCount(text, b)
  {
    if a == [] {
      assert a + b == b;
    } else {
      assert (a + b)[1..] == a[1..] + b;
      DefaultCounterIsAdditive(text, a[1..], b);
    }
  }

  lemma CutCount(c: Setting, ms: seq<Message>, s: nat, e: nat)
    requires Additive(c.count) && s <= e <= |ms|
    ensures c.count(Cut(ms, s, e)) == c.count(ms) - c.count(ms[s..e])
  {
    assert ms == (ms[..s] + ms[s..e]) + ms[e..];
    assert c.count(ms) == c.count(ms[..s] + ms[s..e]) + c.count(ms[e..]);
    assert c.count(ms[..s] + ms[s..e]) == c.count(ms[..s]) + c.count(ms[s..e]);
  }

  /** The lists seen at the head of the loop, first to last, with the running total there. */
  function Heads(c: Setting, ms: seq<Message>, running: nat): (h: seq<(seq<Message>, nat)>)
    ensures |h| > 0 && h[|h| - 1].0 == DropFrom(c, ms, running).kept
    decreases |ms|
  {
    if !Continues(c, ms, running) then [(ms, running)]
    else
      var (s, e) := FindGroup(c, ms, 0).value;
      var ms' := Cut(ms, s, e);
      [(ms, running)] + Heads(c, ms', NextRunning(c, running, ms[s..e], ms'))
  }

  /** With an additive counter the running total is the true count at every loop head, so every group
      is removed from a list that is really over the limit. */
  lemma {:induction false} RunningIsTheCount(c: Setting, ms: seq<Message>, k: nat)
    requires Additive(c.count)
    requires k < |Heads(c, ms, c.count(ms))|
    ensures var h := Heads(c, ms, c.count(ms));
            h[k].1 == c.count(h[k].0) && (k < |h| - 1 ==> c.count(h[k].0) > c.Limit())
    decreases |ms|
  {
    var running := c.count(ms);
    if Continues(c, ms, running) {
      var (s, e) := FindGroup(c, ms, 0).value;
      var ms' := Cut(ms, s, e);
      CutCount(c, ms, s, e);
      assert NextRunning(c, running, ms[s..e], ms') == c.count(ms');
      if k > 0 {
        RunningIsTheCount(c, ms', k - 1);
      }
    }
  }

  // ----- what is never dropped -----

  lemma CutMissesLatestUser(c: Setting, ms: seq<Message>, s: nat, e: nat)
    requires s <= e <= |ms| && GroupDroppable(c, ms, s, e)
    ensures !(s <= LatestUser(c.t, ms) < e)
  {
    var l := LatestUser(c.t, ms);
    if s <= l < e {
      var droppable := MemberDroppable(c, ms, l);
      assert false;
    }
  }

  lemma LatestUserAfterCut(t: Toolkit, ms: seq<Message>, s: nat, e: nat)
    requires s <= e <= |ms|
    requires !(s <= LatestUser(t, ms) < e)
    ensures var l := LatestUser(t, ms);
            LatestUser(t, Cut(ms, s, e)) == if l >= e then l - (e - s) else if l < s then l else -1
    ensures var l := LatestUser(t, ms); var l' := LatestUser(t, Cut(ms, s, e));
            (l >= 0 <==> l' >= 0) && (l >= 0 ==> Cut(ms, s, e)[l'] == ms[l])
  {
    hide LatestUser, Classify;
    var l, ms' := LatestUser(t, ms), Cut(ms, s, e);
    var r := if l >= e then l - (e - s) else if l < s then l else -1;
    forall j | 0 <= j < |ms'|
      ensures ms'[j] == if j < s then ms[j] else ms[j + (e - s)]
    {
    }
    LatestUserIs(t, ms', r);
  }

  lemma LatestUserIs(t: Toolkit, ms: seq<Message>, r: int)
    requires -1 <= r < |ms| && (r >= 0 ==> Classify(t, ms[r]) == UserQuery)
    requires forall j | r < j < |ms| :: Classify(t, ms[j]) != UserQuery
    ensures LatestUser(t, ms) == r
  {
    hide Classify;
  }

  lemma TailAfterCut(c: Setting, ms: seq<Message>, s: nat, e: nat)
    requires s <= e <= |ms| - ProtectedTail(c.t, ms, c.policy)
    ensures ProtectedTail(c.t, Cut(ms, s, e), c.policy) >= ProtectedTail(c.t, ms, c.policy)
    ensures SameSuffix(Cut(ms, s, e), ms, ProtectedTail(c.t, ms, c.policy))
  {
    var k, ms' := ProtectedTail(c.t, ms, c.policy), Cut(ms, s, e);
    assert ms'[|ms'| - k..] == ms[|ms| - k..];
    if c.policy.protectedTail.Some? {
      TailStaysProtected(c.t, ms, ms', c.policy.protectedTail.value);
    }
  }

  /** The protected tail of the list is still its verbatim suffix after the whole loop. */
  lemma {:induction false} DropKeepsTail(c: Setting, ms: seq<Message>, running: nat)
    ensures SameSuffix(DropFrom(c, ms, running).kept, ms, ProtectedTail(c.t, ms, c.policy))
    decreases |ms|
  {
    if Continues(c, ms, running) {
      var (s, e) := FindGroup(c, ms, 0).value;
      var ms' := Cut(ms, s, e);
      var running' := NextRunning(c, running, ms[s..e], ms');
      assert MemberDroppable(c, ms, e - 1);
      TailAfterCut(c, ms, s, e);
      DropKeepsTail(c, ms', running');
      SameSuffixChain(DropFrom(c, ms', running').kept, ms', ms,
                      ProtectedTail(c.t, ms', c.policy), ProtectedTail(c.t, ms, c.policy));
    }
  }

  /** A protected first message stays the first. */
  lemma {:induction false} DropKeepsFirst(c: Setting, ms: seq<Message>, running: nat)
    requires ms != [] && IsProtected(c.t, ms[0])
    ensures var kept := DropFrom(c, ms, running).kept; kept != [] && kept[0] == ms[0]
    decreases |ms|
  {
    if Continues(c, ms, running) {
      var (s, e) := FindGroup(c, ms, 0).value;
      assert s == 0 ==> MemberDroppable(c, ms, 0);
      DropKeepsFirst(c, Cut(ms, s, e), NextRunning(c, running, ms[s..e], Cut(ms, s, e)));
    }
  }

  /** Any class of messages that `MemberDroppable` always refuses keeps its sublist verbatim, in order. */
  lemma {:induction false} DropKeepsWhere(c: Setting, ms: seq<Message>, running: nat, p: Message -> bool)
    requires forall m | p(m) :: IsProtected(c.t, m)
    ensures Where(p, DropFrom(c, ms, running).kept) == Where(p, ms)
    decreases |ms|
  {
    if Continues(c, ms, running) {
      var (s, e) := FindGroup(c, ms, 0).value;
      var ms' := Cut(ms, s, e);
      forall i | s <= i < e
        ensures !p(ms[i])
      {
        assert MemberDroppable(c, ms, i);
      }
      WhereCut(p, ms, s, e);
      DropKeepsWhere(c, ms', NextRunning(c, running, ms[s..e], ms'), p);
    }
  }

  /** The newest user query survives the loop and is still the newest. */
  lemma {:induction false} DropKeepsLatestUser(c: Setting, ms: seq<Message>, running: nat)
    ensures var kept := DropFrom(c, ms, running).kept;
            var l, l' := LatestUser(c.t, ms), LatestUser(c.t, kept);
            (l >= 0 <==> l' >= 0) && (l >= 0 ==> kept[l'] == ms[l])
    decreases |ms|
  {
    if Continues(c, ms, running) {
      var (s, e) := FindGroup(c, ms, 0).value;
      var ms' := Cut(ms, s, e);
      CutMissesLatestUser(c, ms, s, e);
      LatestUserAfterCut(c.t, ms, s, e);
      DropKeepsLatestUser(c, ms', NextRunning(c, running, ms[s..e], ms'));
    }
  }

  // ----- groups are kept or dropped whole -----

  /** Every group goes whole to exactly one side, and both sides keep the order of `gs`. */
  ghost predicate Splits(gs: seq<Group>, kept: seq<Group>, dropped: seq<Group>) {
    if gs == [] then kept == [] && dropped == []
    else
      || (kept != [] && kept[0] == gs[0] && Splits(gs[1..], kept[1..], dropped))
      || (dropped != [] && dropped[0] == gs[0] && Splits(gs[1..], kept, dropped[1..]))
  }

  lemma {:induction false} SplitsKeep(a: seq<Group>, gs: seq<Group>, kept: seq<Group>, dropped: seq<Group>)
    requires Splits(gs, kept, dropped)
    ensures Splits(a + gs, a + kept, dropped)
  {
    if a == [] {
      assert a + gs == gs && a + kept == kept;
    } else {
      SplitsKeep(a[1..], gs, kept, dropped);
      assert (a + gs)[1..] == a[1..] + gs && (a + kept)[1..] == a[1..] + kept;
    }
  }

  lemma {:induction false} SplitsDrop(a: seq<Group>, gs: seq<Group>, kept: seq<Group>, dropped: seq<Group>)
    requires Splits(gs, kept, dropped)
    ensures Splits(a + gs, kept, a + dropped)
  {
    if a == [] {
      assert a + gs == gs && a + dropped == dropped;
    } else {
      SplitsDrop(a[1..], gs, kept, dropped);
      assert (a + gs)[1..] == a[1..] + gs && (a + dropped)[1..] == a[1..] + dropped;
    }
  }

  lemma SplitsStep(gs: seq<Group>, x: nat, y: nat, kept: seq<Group>, dropped: seq<Group>)
    requires x <= y <= |gs| && Splits(gs[y..], kept, dropped)
    ensures Splits(gs, gs[..x] + kept, gs[x..y] + dropped)
  {
    SplitsDrop(gs[x..y], gs[y..], kept, dropped);
    assert gs[x..y] + gs[y..] == gs[x..];
    SplitsKeep(gs[..x], gs[x..], kept, gs[x..y] + dropped);
    assert gs[..x] + gs[x..] == gs;
  }

  /** A member that was not droppable before an older cut is not droppable after a later one. */
  lemma MemberStaysUndroppable(c: Setting, ms: seq<Message>, s: nat, e: nat, j: nat)
    requires s < e <= |ms| && GroupDroppable(c, ms, s, e)
    requires j < s && !MemberDroppable(c, ms, j)
    ensures !MemberDroppable(c, Cut(ms, s, e), j)
  {
    assert MemberDroppable(c, ms, s);
    CutMissesLatestUser(c, ms, s, e);
    LatestUserAfterCut(c.t, ms, s, e);
  }

  lemma GroupStaysUndroppable(c: Setting, ms: seq<Message>, s: nat, e: nat, i: nat, g: nat, g': nat)
    requires s < e <= |ms| && GroupDroppable(c, ms, s, e)
    requires i <= g <= s && g <= g' <= |Cut(ms, s, e)|
    requires !GroupDroppable(c, ms, i, g)
    ensures !GroupDroppable(c, Cut(ms, s, e), i, g')
  {
    if j :| i <= j < g && !MemberDroppable(c, ms, j) {
      MemberStaysUndroppable(c, ms, s, e, j);
    }
  }

  /** End of a tool run that stops before the cut is the same after it. */
  lemma {:induction false} RunEndBeforeCut(ms: seq<Message>, s: nat, e: nat, j: nat)
    requires s <= e <= |ms| && j <= s && ToolRunEnd(ms, j) <= s
    ensures ToolRunEnd(Cut(ms, s, e), j) ==
            if ToolRunEnd(ms, j) < s then ToolRunEnd(ms, j) else ToolRunEnd(Cut(ms, s, e), s)
    decreases s - j
  {
    if j < s {
      assert Cut(ms, s, e)[j] == ms[j];
      if IsToolRole(ms[j]) {
        RunEndBeforeCut(ms, s, e, j + 1);
      }
    }
  }

  /** A group skipped before the cut is skipped again: unchanged, or reaching past the cut. */
  lemma SkippedOnce(c: Setting, ms: seq<Message>, s: nat, e: nat, i: nat)
    requires i < s < e <= |ms| && FindGroup(c, ms, i) == Some((s, e))
    ensures var ms', g := Cut(ms, s, e), GroupEnd(ms, i);
            && i < g <= s && i < GroupEnd(ms', i) && FindGroup(c, ms', i) == FindGroup(c, ms', GroupEnd(ms', i))
            && (if g < s then GroupEnd(ms', i) == g && FindGroup(c, ms, g) == Some((s, e))
                else GroupEnd(ms', i) == s || GroupEnd(ms', i) == ToolRunEnd(ms', s))
  {
    hide GroupDroppable, ToolRunEnd;
    var ms', g := Cut(ms, s, e), GroupEnd(ms, i);
    if ms[i].role.Assistant? {
      RunEndBeforeCut(ms, s, e, i + 1);
    }
    GroupStaysUndroppable(c, ms, s, e, i, g, GroupEnd(ms', i));
  }

  /** Scanning the shortened list skips everything before the cut again: it resumes at the cut, or past
      the tool results that an assistant message before the cut now reaches. */
  lemma {:induction false} SkippedStaysSkipped(c: Setting, ms: seq<Message>, s: nat, e: nat, i: nat) returns (q: nat)
    requires i <= s < e <= |ms| && FindGroup(c, ms, i) == Some((s, e))
    ensures var ms' := Cut(ms, s, e);
            && (q == s || q == ToolRunEnd(ms', s))
            && FindGroup(c, ms', i) == FindGroup(c, ms', q)
    decreases s - i
  {
    hide *;
    if i == s {
      q := s;
    } else {
      SkippedOnce(c, ms, s, e, i);
      if GroupEnd(ms, i) < s {
        q := SkippedStaysSkipped(c, ms, s, e, GroupEnd(ms, i));
      } else {
        q := GroupEnd(Cut(ms, s, e), i);
      }
    }
  }

  /** Scanning over whole groups, the group found is a run `[x, y)` of them. */
  lemma {:induction false} FoundOnBoundaries(c: Setting, ms: seq<Message>, p: nat, gs: seq<Group>) returns (x: nat, y: nat)
    requires Aligned(ms, p, gs)
    requires FindGroup(c, ms, p).Some?
    ensures x < y <= |gs|
    ensures FindGroup(c, ms, p) == Some((p + Width(gs, x), p + Width(gs, y)))
    decreases |gs|
  {
    hide *;
    FindStep(c, ms, p);
    ScanStep(ms, p, gs);
    var n, e := Swallowed(gs), GroupEnd(ms, p);
    if GroupDroppable(c, ms, p, e) {
      x, y := 0, n;
      NoWidth(gs);
    } else {
      var x', y' := FoundOnBoundaries(c, ms, e, gs[n..]);
      x, y := n + x', n + y';
      WidthSum(gs, n, x');
      WidthSum(gs, n, y');
    }
  }

  lemma FindStep(c: Setting, ms: seq<Message>, p: nat)
    requires p <= |ms| && FindGroup(c, ms, p).Some?
    ensures p < |ms|
    ensures FindGroup(c, ms, p) ==
            if GroupDroppable(c, ms, p, GroupEnd(ms, p)) then Some((p, GroupEnd(ms, p))) else FindGroup(c, ms, GroupEnd(ms, p))
  {
  }

  lemma NoWidth(gs: seq<Group>)
    ensures Width(gs, 0) == 0
  {
    assert gs[..0] == [];
  }

  lemma AlignedSlice(ms: seq<Message>, p: nat, gs: seq<Group>, x: nat, y: nat)
    requires Aligned(ms, p, gs) && x <= y <= |gs|
    ensures p + Width(gs, x) <= p + Width(gs, y) <= |ms|
    ensures ms[p..p + Width(gs, x)] == Flatten(gs[..x])
    ensures ms[p + Width(gs, x)..p + Width(gs, y)] == Flatten(gs[x..y])
  {
    hide Flatten;
    FlattenSplit(gs, x);
    assert ms[p..][..Width(gs, x)] == ms[p..p + Width(gs, x)];
    assert (Flatten(gs[..x]) + Flatten(gs[x..]))[..Width(gs, x)] == Flatten(gs[..x]);
    var q, rest := p + Width(gs, x), gs[x..];
    AlignedSkip(ms, p, gs, x);
    WidthSum(gs, x, y - x);
    FlattenSplit(rest, y - x);
    assert ms[q..][..Width(rest, y - x)] == ms[q..q + Width(rest, y - x)];
    assert rest[..y - x] == gs[x..y];
    assert (Flatten(rest[..y - x]) + Flatten(rest[y - x..]))[..Width(rest, y - x)] == Flatten(rest[..y - x]);
  }

  /** After cutting whole groups the remaining ones are aligned, and the scan of the shortened list
      resumes at one of their boundaries. */
  lemma ResumeAfterCut(c: Setting, ms: seq<Message>, s: nat, e: nat, gs: seq<Group>) returns (a: nat)
    requires s < e <= |ms| && FindGroup(c, ms, 0) == Some((s, e))
    requires Aligned(ms, e, gs)
    ensures a <= |gs| && Aligned(Cut(ms, s, e), s, gs)
    ensures s + Width(gs, a) <= |Cut(ms, s, e)|
    ensures FindGroup(c, Cut(ms, s, e), 0) == FindGroup(c, Cut(ms, s, e), s + Width(gs, a))
  {
    hide *;
    var ms' := Cut(ms, s, e);
    CutAligned(ms, s, e, gs);
    var q := SkippedStaysSkipped(c, ms, s, e, 0);
    a := if q == s then 0 else LeadingToolGroups(gs);
  }

  lemma CutAligned(ms: seq<Message>, s: nat, e: nat, gs: seq<Group>)
    requires s <= e <= |ms| && Aligned(ms, e, gs)
    ensures var ms' := Cut(ms, s, e);
            && s <= |ms'| && Aligned(ms', s, gs)
            && ToolRunEnd(ms', s) == s + Width(gs, LeadingToolGroups(gs))
            && Width(gs, 0) == 0
  {
    var ms' := Cut(ms, s, e);
    assert ms'[s..] == ms[e..] && ms' == ms'[..s] + ms'[s..];
    ToolRunEndsOnBoundary(ms'[..s], gs);
    assert gs[..0] == [];
  }

  /** The pieces of one removal, as messages and as groups. */
  lemma AssembleSplit(ms: seq<Message>, done: nat, gs: seq<Group>, x: nat, y: nat, kept: seq<Group>, dropped: seq<Group>)
    requires Aligned(ms, done, gs) && x <= y <= |gs|
    ensures done + Width(gs, x) <= done + Width(gs, y) <= |ms|
    ensures ms[..done + Width(gs, x)] + Flatten(kept) == ms[..done] + Flatten(gs[..x] + kept)
    ensures ms[done + Width(gs, x)..done + Width(gs, y)] + Flatten(dropped) == Flatten(gs[x..y] + dropped)
  {
    hide Flatten;
    AlignedSlice(ms, done, gs, x, y);
    FlattenConcat(gs[..x], kept);
    FlattenConcat(gs[x..y], dropped);
    var s := done + Width(gs, x);
    assert ms[..s] == ms[..done] + ms[done..s];
    Assoc(ms[..done], Flatten(gs[..x]), Flatten(kept));
  }

  /** The general form of the next theorem: `ms[..done]` is settled, the rest consists of the whole
      groups `gs`, and the scan skips at least to the boundary before `gs[a]`. */
  lemma {:induction false} DropSplitsGroups(c: Setting, ms: seq<Message>, running: nat, done: nat, gs: seq<Group>, a: nat)
    returns (kept: seq<Group>, dropped: seq<Group>)
    requires Aligned(ms, done, gs) && a <= |gs| && done + Width(gs, a) <= |ms|
    requires FindGroup(c, ms, 0) == FindGroup(c, ms, done + Width(gs, a))
    ensures Splits(gs, kept, dropped)
    ensures DropFrom(c, ms, running) == Drop(ms[..done] + Flatten(kept), Flatten(dropped))
    decreases |gs|
  {
    hide *;
    if !Continues(c, ms, running) {
      kept, dropped := gs, [];
      SplitNothing(c, ms, running, done, gs);
    } else {
      DropStep(c, ms, running);
      var x, y := RemovedGroups(c, ms, done, gs, a);
      var (s, e) := FindGroup(c, ms, 0).value;
      var ms' := Cut(ms, s, e);
      var a' := ResumeAfterCut(c, ms, s, e, gs[y..]);
      kept, dropped := DropSplitsGroups(c, ms', NextRunning(c, running, ms[s..e], ms'), s, gs[y..], a');
      CutPrefix(ms, s, e);
      AssembleSplit(ms, done, gs, x, y, kept, dropped);
      SplitsStep(gs, x, y, kept, dropped);
      kept, dropped := gs[..x] + kept, gs[x..y] + dropped;
    }
  }

  lemma SplitNothing(c: Setting, ms: seq<Message>, running: nat, done: nat, gs: seq<Group>)
    requires Aligned(ms, done, gs) && !Continues(c, ms, running)
    ensures Splits(gs, gs, []) && DropFrom(c, ms, running) == Drop(ms[..done] + Flatten(gs), Flatten([]))
  {
    SplitsKeep(gs, [], [], []);
    assert gs + [] == gs;
    assert ms == ms[..done] + ms[done..];
  }

  lemma CutPrefix(ms: seq<Message>, s: nat, e: nat)
    requires s <= e <= |ms|
    ensures |Cut(ms, s, e)| == |ms| - (e - s) && Cut(ms, s, e)[..s] == ms[..s]
  {
  }

  lemma RemovedGroups(c: Setting, ms: seq<Message>, done: nat, gs: seq<Group>, a: nat) returns (x: nat, y: nat)
    requires Aligned(ms, done, gs) && a <= |gs| && done + Width(gs, a) <= |ms|
    requires FindGroup(c, ms, 0) == FindGroup(c, ms, done + Width(gs, a))
    requires FindGroup(c, ms, 0).Some?
    ensures x < y <= |gs|
    ensures FindGroup(c, ms, 0) == Some((done + Width(gs, x), done + Width(gs, y)))
    ensures Aligned(ms, done + Width(gs, y), gs[y..])
  {
    hide *;
    AlignedSkip(ms, done, gs, a);
    x, y := FoundOnBoundaries(c, ms, done + Width(gs, a), gs[a..]);
    WidthSum(gs, a, x);
    WidthSum(gs, a, y);
    x, y := a + x, a + y;
    AlignedSkip(ms, done, gs, y);
  }

  /** Pair safety over the whole loop: every group of the list it starts from, an assistant message with
      its tool results or a single other message, is either kept intact or dropped whole; kept and
      dropped messages are an order-preserving split of the list, so no skipped group is dropped later. */
  lemma DropKeepsGroupsWhole(c: Setting, ms: seq<Message>) returns (kept: seq<Group>, dropped: seq<Group>)
    ensures Flatten(ParseFrom(ms, 0)) == ms && AllGroups(ParseFrom(ms, 0))
    ensures Splits(ParseFrom(ms, 0), kept, dropped)
    ensures DropPass(c, ms) == Drop(Flatten(kept), Flatten(dropped))
  {
    var gs := ParseFrom(ms, 0);
    ParseIsPartition(ms, 0);
    assert ms[0..] == ms && gs[..0] == [];
    kept, dropped := DropSplitsGroups(c, ms, c.count(ms), 0, gs, 0);
    assert ms[..0] + Flatten(kept) == Flatten(kept);
  }
}
