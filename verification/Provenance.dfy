/** Where every message of the cascade's output comes from. */
module Provenance {
  import opened Naturals
  import opened Messages
  import opened Agent
  import opened Conversation
  import opened DropOld
  import opened Budget

  /** Metadata apart from the two keys the cascade itself writes. */
  function HostMetadata(m: Message): Metadata {
    m.metadata - {CcrId, AgentContentType}
  }

  /** `m'` is `m`, possibly rewritten by the cascade: same role, same metadata apart from the two keys
      the cascade writes, and nothing at all changed when `m` is pinned. */
  predicate Kin(m: Message, m': Message) {
    && m'.role == m.role
    && HostMetadata(m') == HostMetadata(m)
    && (IsPinned(m) ==> m' == m)
  }

  /** A message the cascade made itself: a summary, possibly compressed. */
  predicate Fresh(m: Message) {
    m.role.System? && HostMetadata(m) == map[]
  }

  /** `src[j]` is the index in `ms` of the message `out[j]` comes from, or -1 for a fresh one. */
  ghost predicate Lineage(ms: seq<Message>, out: seq<Message>, src: seq<int>) {
    && |src| == |out|
    && (forall j | 0 <= j < |src| :: -1 <= src[j] < |ms|)
    && (forall j, k | 0 <= j < k < |src| && src[j] >= 0 && src[k] >= 0 :: src[j] < src[k])
    && (forall j | 0 <= j < |src| && src[j] >= 0 :: Kin(ms[src[j]], out[j]))
    && (forall j | 0 <= j < |src| && src[j] < 0 :: Fresh(out[j]))
  }

  /** Every pinned message still has a descendant. */
  ghost predicate CoversPinned(ms: seq<Message>, src: seq<int>) {
    forall i | 0 <= i < |ms| && IsPinned(ms[i]) :: i in src
  }

  function Compose(src1: seq<int>, src2: seq<int>): seq<int>
    requires forall j | 0 <= j < |src2| :: -1 <= src2[j] < |src1|
  {
    seq(|src2|, j requires 0 <= j < |src2| => if src2[j] < 0 then -1 else src1[src2[j]])
  }

  lemma KinChain(a: Message, b: Message, c: Message)
    requires Kin(a, b) && Kin(b, c)
    ensures Kin(a, c)
  {
  }

  lemma FreshStays(a: Message, b: Message)
    requires Fresh(a) && Kin(a, b)
    ensures Fresh(b)
  {
  }

  lemma LineageChain(ms: seq<Message>, mid: seq<Message>, out: seq<Message>, src1: seq<int>, src2: seq<int>)
    returns (src: seq<int>)
    requires Lineage(ms, mid, src1) && CoversPinned(ms, src1)
    requires Lineage(mid, out, src2) && CoversPinned(mid, src2)
    ensures Lineage(ms, out, src) && CoversPinned(ms, src)
  {
    hide Kin, Fresh;
    src := Compose(src1, src2);
    forall j | 0 <= j < |src| && src[j] >= 0
      ensures Kin(ms[src[j]], out[j])
    {
      KinChain(ms[src[j]], mid[src2[j]], out[j]);
    }
    forall j | 0 <= j < |src| && src[j] < 0
      ensures Fresh(out[j])
    {
      if src2[j] >= 0 {
        FreshStays(mid[src2[j]], out[j]);
      }
    }
    forall i | 0 <= i < |ms| && IsPinned(ms[i])
      ensures i in src
    {
      PinnedDescendant(ms, mid, src1, i);
      var k :| 0 <= k < |mid| && src1[k] == i && mid[k] == ms[i];
      assert IsPinned(mid[k]);
      var j :| 0 <= j < |src2| && src2[j] == k;
      assert src[j] == i;
    }
  }

  /** A covered pinned message comes out verbatim. */
  lemma PinnedDescendant(ms: seq<Message>, out: seq<Message>, src: seq<int>, i: nat)
    requires Lineage(ms, out, src) && CoversPinned(ms, src) && i < |ms| && IsPinned(ms[i])
    ensures exists k :: 0 <= k < |out| && src[k] == i && out[k] == ms[i]
  {
    assert i in src;
    var k :| 0 <= k < |src| && src[k] == i;
    assert Kin(ms[src[k]], out[k]);
  }

  function Identity(n: nat): (src: seq<int>)
    ensures |src| == n
  {
    seq(n, j => j)
  }

  lemma IdentityCovers(ms: seq<Message>, out: seq<Message>)
    requires |out| == |ms| && forall i | 0 <= i < |ms| :: Kin(ms[i], out[i])
    ensures Lineage(ms, out, Identity(|ms|)) && CoversPinned(ms, Identity(|ms|))
  {
    hide Kin;
    forall i | 0 <= i < |ms|
      ensures i in Identity(|ms|)
    {
      assert Identity(|ms|)[i] == i;
    }
  }

  // ----- the steps -----

  lemma StubIsKin(t: Toolkit, m: Message)
    requires !IsPinned(m)
    ensures Kin(m, ClearedStub(t, m))
  {
    assert HostMetadata(ClearedStub(t, m)) == HostMetadata(m);
  }

  lemma RewriteIsKin(m: Message, o: PipeOut)
    requires !IsPinned(m)
    ensures Kin(m, Rewrite(m, o))
  {
    assert HostMetadata(Rewrite(m, o)) == HostMetadata(m);
  }

  lemma AgentLineage(c: Setting, ms: seq<Message>)
    ensures Lineage(ms, AgentPass(c, ms).messages, Identity(|ms|)) && CoversPinned(ms, Identity(|ms|))
  {
    forall i | 0 <= i < |ms|
      ensures Kin(ms[i], AgentPass(c, ms).messages[i])
    {
      if ClearedAt(c, ms, i) {
        StubIsKin(c.t, ms[i]);
      }
    }
    IdentityCovers(ms, AgentPass(c, ms).messages);
  }

  lemma CompressionKin(c: Setting, step: nat, ms: seq<Message>, i: nat)
    requires i < |ms|
    ensures Kin(ms[i], CompressedAt(c, step, ms, i))
  {
    if !IsPinned(ms[i]) {
      RewriteIsKin(ms[i], c.world.pipeline(step, i));
    }
  }

  /** `h` fresh messages, then the messages of `[b, n)` in order. */
  function Shifted(h: nat, b: nat, n: nat): (src: seq<int>)
    requires b <= n
    ensures |src| == h + n - b
  {
    seq(h + n - b, j => if j < h then -1 else j - h + b)
  }

  lemma HistoryAt(c: Setting, step: nat, ms: seq<Message>, cfg: BandConfig, j: nat)
    requires |ms| > cfg.preserveRecent
    ensures var out := HistoryPass(c, step, ms, cfg).messages;
            var h, b := |Head(c, ms, cfg)|, BandStart(ms, cfg);
            && |out| == h + |ms| - b
            && (j < h ==> Fresh(out[j]))
            && (h <= j < |out| ==> Kin(ms[j - h + b], out[j]))
  {
    var middle, head, b := Middle(c, ms, cfg), Head(c, ms, cfg), BandStart(ms, cfg);
    if j < |middle| {
      CompressionKin(c, step, middle, j);
      if j < |head| {
        assert Fresh(middle[j]);
        FreshStays(middle[j], CompressedAt(c, step, middle, j));
      }
    }
  }

  lemma ShiftedLineage(ms: seq<Message>, out: seq<Message>, h: nat, b: nat)
    requires b <= |ms| && |out| == h + |ms| - b
    requires forall j: nat | j < h :: Fresh(out[j])
    requires forall j: nat | h <= j < |out| :: Kin(ms[j - h + b], out[j])
    requires forall i | 0 <= i < b :: !IsPinned(ms[i])
    ensures Lineage(ms, out, Shifted(h, b, |ms|)) && CoversPinned(ms, Shifted(h, b, |ms|))
  {
    hide Kin, Fresh;
    var src := Shifted(h, b, |ms|);
    forall i | 0 <= i < |ms| && IsPinned(ms[i])
      ensures i in src
    {
      assert src[i - b + h] == i;
    }
  }

  lemma HistoryLineage(c: Setting, step: nat, ms: seq<Message>, cfg: BandConfig) returns (src: seq<int>)
    ensures Lineage(ms, HistoryPass(c, step, ms, cfg).messages, src) && CoversPinned(ms, src)
  {
    var out := HistoryPass(c, step, ms, cfg).messages;
    if |ms| <= cfg.preserveRecent {
      src := Identity(|ms|);
      IdentityCovers(ms, ms);
    } else {
      var h, b := |Head(c, ms, cfg)|, BandStart(ms, cfg);
      src := Shifted(h, b, |ms|);
      forall j: nat
        ensures |out| == h + |ms| - b
        ensures j < h ==> Fresh(out[j])
        ensures h <= j < |out| ==> Kin(ms[j - h + b], out[j])
      {
        HistoryAt(c, step, ms, cfg, j);
      }
      hide *;
      ShiftedLineage(ms, out, h, b);
    }
  }

  /** Positions that survive cutting `[s, e)` out of `n`. */
  function CutSource(n: nat, s: nat, e: nat): (src: seq<int>)
    requires s <= e <= n
    ensures |src| == n - (e - s)
  {
    seq(n - (e - s), j => if j < s then j else j + (e - s))
  }

  lemma CutLineage(c: Setting, ms: seq<Message>, s: nat, e: nat)
    requires s <= e <= |ms| && GroupDroppable(c, ms, s, e)
    ensures Lineage(ms, Cut(ms, s, e), CutSource(|ms|, s, e)) && CoversPinned(ms, CutSource(|ms|, s, e))
  {
    var src, out := CutSource(|ms|, s, e), Cut(ms, s, e);
    forall j | 0 <= j < |src|
      ensures out[j] == ms[src[j]]
    {
    }
    forall i | 0 <= i < |ms| && IsPinned(ms[i])
      ensures i in src
    {
      if s <= i < e {
        var droppable := MemberDroppable(c, ms, i);
        assert false;
      }
      assert src[if i < s then i else i - (e - s)] == i;
    }
  }

  lemma {:induction false} DropLineage(c: Setting, ms: seq<Message>, running: nat) returns (src: seq<int>)
    ensures Lineage(ms, DropFrom(c, ms, running).kept, src) && CoversPinned(ms, src)
    ensures forall d | d in DropFrom(c, ms, running).dropped :: d in ms
    decreases |ms|
  {
    hide Lineage, CoversPinned, NextRunning, GroupDroppable, CutSource, Identity;
    if Continues(c, ms, running) {
      DropStep(c, ms, running);
      var (s, e) := FindGroup(c, ms, 0).value;
      var ms' := Cut(ms, s, e);
      var running' := NextRunning(c, running, ms[s..e], ms');
      var rest := DropLineage(c, ms', running');
      CutLineage(c, ms, s, e);
      src := LineageChain(ms, ms', DropFrom(c, ms', running').kept, CutSource(|ms|, s, e), rest);
    } else {
      src := Identity(|ms|);
      NothingDropped(c, ms, running);
    }
  }

  lemma NothingDropped(c: Setting, ms: seq<Message>, running: nat)
    requires !Continues(c, ms, running)
    ensures DropFrom(c, ms, running) == Drop(ms, [])
    ensures Lineage(ms, ms, Identity(|ms|)) && CoversPinned(ms, Identity(|ms|))
  {
    IdentityCovers(ms, ms);
  }

  // ----- the whole cascade -----

  /** Some message of the input is rewritten into `d`, or `d` is a summary. */
  ghost predicate Descends(ms: seq<Message>, d: Message) {
    Fresh(d) || exists i :: 0 <= i < |ms| && Kin(ms[i], d)
  }

  lemma DescendsFrom(ms: seq<Message>, out: seq<Message>, src: seq<int>, d: Message)
    requires Lineage(ms, out, src) && d in out
    ensures Descends(ms, d)
  {
    var j :| 0 <= j < |out| && out[j] == d;
    if src[j] >= 0 {
      assert Kin(ms[src[j]], d);
    }
  }

  /** The cascade only rewrites, deletes and prepends a summary: its output descends from its input in
      order, pinned messages all remain, and so does everything it reports as dropped. */
  lemma CascadeLineage(c: Setting, ms: seq<Message>) returns (src: seq<int>)
    ensures Lineage(ms, Cascade(c, ms).messages, src) && CoversPinned(ms, src)
    ensures forall d | d in Cascade(c, ms).dropped :: Descends(ms, d)
  {
    hide AgentPass, HistoryPass, DropFrom, Lineage, CoversPinned, Compose, PreserveRecent, Descends, Identity;
    var a := AgentPass(c, ms).messages;
    var p := PreserveRecent(c, a);
    var b := MiddlePass(c, a).messages;
    var s := SummaryPass(c, b).messages;
    var id := Identity(|ms|);
    if Fits(c, ms) {
      forall i | 0 <= i < |ms|
        ensures Kin(ms[i], ms[i])
      {
      }
      IdentityCovers(ms, ms);
      return id;
    }
    AgentLineage(c, ms);
    if Fits(c, a) {
      return id;
    }
    var srcB := HistoryLineage(c, 2, a, BandConfig(p, SatSub(|a|, p), false));
    src := LineageChain(ms, a, b, id, srcB);
    if Fits(c, b) {
      return;
    }
    var srcS := HistoryLineage(c, 3, b, BandConfig(PreserveRecent(c, b), 4, true));
    src := LineageChain(ms, b, s, src, srcS);
    if Fits(c, s) {
      return;
    }
    forall d | d in DropPass(c, s).dropped
      ensures Descends(ms, d)
    {
      var srcD := DropLineage(c, s, c.count(s));
      DescendsFrom(ms, s, src, d);
    }
    var srcD := DropLineage(c, s, c.count(s));
    src := LineageChain(ms, s, DropPass(c, s).kept, src, srcD);
  }
}
