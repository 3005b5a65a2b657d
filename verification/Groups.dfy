/** Pair-safe groups of budget.rs: an assistant message with the tool-role run right after it, or any
    other single message. */
module Groups {
  import opened Messages

  /** End of the run of tool-role messages starting at `j`. */
  function ToolRunEnd(ms: seq<Message>, j: nat): (e: nat)
    requires j <= |ms|
    ensures j <= e <= |ms|
    ensures forall k | j <= k < e :: IsToolRole(ms[k])
    ensures e < |ms| ==> !IsToolRole(ms[e])
    decreases |ms| - j
  {
    if j < |ms| && IsToolRole(ms[j]) then ToolRunEnd(ms, j + 1) else j
  }

  function GroupEnd(ms: seq<Message>, i: nat): (e: nat)
    requires i < |ms|
    ensures i < e <= |ms|
  {
    if ms[i].role.Assistant? then ToolRunEnd(ms, i + 1) else i + 1
  }

  type Group = seq<Message>

  ghost predicate IsGroup(g: Group) {
    && |g| > 0
    && (|g| > 1 ==> g[0].role.Assistant? && forall j | 1 <= j < |g| :: IsToolRole(g[j]))
  }

  ghost predicate AllGroups(gs: seq<Group>) {
    forall k | 0 <= k < |gs| :: IsGroup(gs[k])
  }

  function Flatten(gs: seq<Group>): seq<Message> {
    if gs == [] then [] else gs[0] + Flatten(gs[1..])
  }

  lemma {:induction false} FlattenConcat(a: seq<Group>, b: seq<Group>)
    ensures Flatten(a + b) == Flatten(a) + Flatten(b)
  {
    if a == [] {
      assert a + b == b;
    } else {
      var head, rest := a[0], Flatten(a[1..]);
      assert (a + b)[1..] == a[1..] + b;
      FlattenConcat(a[1..], b);
      assert head + (rest + Flatten(b)) == (head + rest) + Flatten(b);
    }
  }

  lemma FlattenSplit(gs: seq<Group>, i: nat)
    requires i <= |gs|
    ensures Flatten(gs) == Flatten(gs[..i]) + Flatten(gs[i..])
  {
    hide Flatten;
    var a, b := gs[..i], gs[i..];
    FlattenConcat(a, b);
    assert a + b == gs;
  }

  /** The groups a scan of `ms` from position `i` finds. */
  function ParseFrom(ms: seq<Message>, i: nat): seq<Group>
    requires i <= |ms|
    decreases |ms| - i
  {
    if i == |ms| then [] else [ms[i..GroupEnd(ms, i)]] + ParseFrom(ms, GroupEnd(ms, i))
  }

  lemma {:induction false} ParseIsPartition(ms: seq<Message>, i: nat)
    requires i <= |ms|
    ensures Flatten(ParseFrom(ms, i)) == ms[i..]
    ensures AllGroups(ParseFrom(ms, i))
    decreases |ms| - i
  {
    if i < |ms| {
      var e := GroupEnd(ms, i);
      ScannedSliceIsGroup(ms, i);
      ParseIsPartition(ms, e);
      FlattenCons(ms[i..e], ParseFrom(ms, e));
      assert ms[i..] == ms[i..e] + ms[e..];
    }
  }

  lemma ScannedSliceIsGroup(ms: seq<Message>, i: nat)
    requires i < |ms|
    ensures IsGroup(ms[i..GroupEnd(ms, i)])
  {
  }

  lemma FlattenCons(g: Group, gs: seq<Group>)
    requires IsGroup(g) && AllGroups(gs)
    ensures Flatten([g] + gs) == g + Flatten(gs) && AllGroups([g] + gs)
  {
    assert ([g] + gs)[1..] == gs;
  }

  /** How many leading groups begin with a tool-role message. */
  function LeadingToolGroups(gs: seq<Group>): (n: nat)
    ensures n <= |gs|
  {
    if gs == [] || gs[0] == [] || !IsToolRole(gs[0][0]) then 0 else 1 + LeadingToolGroups(gs[1..])
  }

  /** After any prefix, a run of tool results ends exactly at a group boundary. */
  lemma {:induction false} ToolRunEndsOnBoundary(pre: seq<Message>, gs: seq<Group>)
    requires AllGroups(gs)
    ensures ToolRunEnd(pre + Flatten(gs), |pre|) == |pre| + |Flatten(gs[..LeadingToolGroups(gs)])|
    decreases |gs|
  {
    var ms, n := pre + Flatten(gs), LeadingToolGroups(gs);
    if gs == [] {
      assert gs[..n] == [];
    } else if n == 0 {
      assert gs[..n] == [];
      assert ms[|pre|] == gs[0][0];
    } else {
      var g, rest := gs[0], gs[1..];
      assert IsGroup(g) && |g| == 1;
      ToolRunEndsOnBoundary(pre + g, rest);
      assert pre + g + Flatten(rest) == ms;
      assert ms[|pre|] == g[0];
      assert gs[..n][0] == g && gs[..n][1..] == rest[..n - 1];
    }
  }

  lemma {:induction false} ToolRunSkips(ms: seq<Message>, i: nat, j: nat)
    requires i <= j <= |ms|
    requires forall k | i <= k < j :: IsToolRole(ms[k])
    ensures ToolRunEnd(ms, i) == ToolRunEnd(ms, j)
    decreases j - i
  {
    if i < j {
      ToolRunSkips(ms, i + 1, j);
    }
  }

  /** How many of the given groups the next scanned group swallows. */
  function Swallowed(gs: seq<Group>): (n: nat)
    requires |gs| > 0
    ensures 0 < n <= |gs|
  {
    if gs[0] != [] && gs[0][0].role.Assistant? then 1 + LeadingToolGroups(gs[1..]) else 1
  }

  /** Re-parsing a concatenation of groups only coarsens it: every group found is a whole number of them. */
  lemma RescanCoarsens(pre: seq<Message>, gs: seq<Group>)
    requires AllGroups(gs) && |gs| > 0
    ensures |pre| < |pre + Flatten(gs)|
    ensures GroupEnd(pre + Flatten(gs), |pre|) == |pre| + |Flatten(gs[..Swallowed(gs)])|
  {
    var ms, g, rest, n := pre + Flatten(gs), gs[0], gs[1..], Swallowed(gs);
    assert IsGroup(g);
    assert ms == pre + g + Flatten(rest);
    assert gs[..n][0] == g && gs[..n][1..] == rest[..n - 1];
    assert ms[|pre|] == g[0];
    if g[0].role.Assistant? {
      forall k | |pre| + 1 <= k < |pre + g|
        ensures IsToolRole(ms[k])
      {
        assert ms[k] == g[k - |pre|];
      }
      ToolRunSkips(ms, |pre| + 1, |pre + g|);
      ToolRunEndsOnBoundary(pre + g, rest);
    } else {
      assert rest[..0] == [];
    }
  }

  /** Scan position `p` of `ms` sits at the start of the whole groups `gs`. */
  ghost predicate Aligned(ms: seq<Message>, p: nat, gs: seq<Group>) {
    p <= |ms| && ms[p..] == Flatten(gs) && AllGroups(gs)
  }

  function Width(gs: seq<Group>, n: nat): nat
    requires n <= |gs|
  {
    |Flatten(gs[..n])|
  }

  lemma WidthSum(gs: seq<Group>, n: nat, x: nat)
    requires n + x <= |gs|
    ensures Width(gs, n + x) == Width(gs, n) + Width(gs[n..], x)
  {
    hide Flatten;
    FlattenSplit(gs[..n + x], n);
    assert gs[..n + x][..n] == gs[..n] && gs[..n + x][n..] == gs[n..][..x];
  }

  /** Skipping whole groups leaves the scan at the start of whole groups. */
  lemma AlignedSkip(ms: seq<Message>, p: nat, gs: seq<Group>, n: nat)
    requires Aligned(ms, p, gs) && n <= |gs|
    ensures Aligned(ms, p + Width(gs, n), gs[n..])
  {
    hide Flatten;
    FlattenSplit(gs, n);
    var w := Width(gs, n);
    assert ms[p..][w..] == ms[p + w..];
    assert (Flatten(gs[..n]) + Flatten(gs[n..]))[w..] == Flatten(gs[n..]);
  }

  /** The next scanned group is a positive number of whole groups. */
  lemma ScanStep(ms: seq<Message>, p: nat, gs: seq<Group>)
    requires Aligned(ms, p, gs) && p < |ms|
    ensures |gs| > 0
    ensures GroupEnd(ms, p) == p + Width(gs, Swallowed(gs))
    ensures Aligned(ms, GroupEnd(ms, p), gs[Swallowed(gs)..])
  {
    assert |gs| > 0;
    assert ms == ms[..p] + ms[p..];
    RescanCoarsens(ms[..p], gs);
    AlignedSkip(ms, p, gs, Swallowed(gs));
  }
}
