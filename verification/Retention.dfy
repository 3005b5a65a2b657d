/** Finalized messages and the retention policy of session.rs. */
module Retention {
  import opened Messages
  import opened Compaction

  predicate IsFinalized(m: Message) {
    HasTag(m, SessionFinalized, "true")
  }

  predicate IsActive(m: Message) {
    !IsFinalized(m)
  }

  function MarkFinalized(m: Message): Message {
    m.(metadata := m.metadata[SessionFinalized := "true"][Pinned := "true"])
  }

  function Pin(m: Message): Message {
    m.(metadata := m.metadata[Pinned := "true"])
  }

  /** A finalized message as the session keeps it: pinned, whatever its cache annotation. */
  function Settled(m: Message): Message {
    WithoutCache(Pin(m))
  }

  /** The finalized messages of a list, in order, up to cache annotations. */
  function Frozen(ms: seq<Message>): seq<Message> {
    if ms == [] then []
    else if IsFinalized(ms[0]) then [Settled(ms[0])] + Frozen(ms[1..])
    else Frozen(ms[1..])
  }

  function FinalizedCount(ms: seq<Message>): nat {
    if ms == [] then 0 else (if IsFinalized(ms[0]) then 1 else 0) + FinalizedCount(ms[1..])
  }

  datatype Eviction = Eviction(kept: seq<Message>, removed: seq<Message>)

  /** Take out the first `n` finalized messages. */
  function Evict(ms: seq<Message>, n: nat): Eviction {
    if ms == [] then Eviction([], [])
    else if IsFinalized(ms[0]) && n > 0 then
      var r := Evict(ms[1..], n - 1);
      Eviction(r.kept, [ms[0]] + r.removed)
    else
      var r := Evict(ms[1..], n);
      Eviction([ms[0]] + r.kept, r.removed)
  }

  function EvictCount(ms: seq<Message>, maxFinalized: nat): nat {
    if FinalizedCount(ms) <= maxFinalized then 0 else FinalizedCount(ms) - maxFinalized
  }

  method EvictOldest(ms: seq<Message>, n: nat) returns (kept: seq<Message>, removed: seq<Message>)
    ensures Eviction(kept, removed) == Evict(ms, n)
  {
    kept, removed := [], [];
    var left := n;
    assert ms[0..] == ms;
    for i := 0 to |ms|
      invariant left >= 0
      invariant Evict(ms, n).kept == kept + Evict(ms[i..], left).kept
      invariant Evict(ms, n).removed == removed + Evict(ms[i..], left).removed
    {
      assert ms[i..][0] == ms[i] && ms[i..][1..] == ms[i + 1..];
      if IsFinalized(ms[i]) && left > 0 {
        removed := removed + [ms[i]];
        left := left - 1;
      } else {
        kept := kept + [ms[i]];
      }
    }
  }

  lemma {:induction false} FrozenCount(ms: seq<Message>)
    ensures |Frozen(ms)| == FinalizedCount(ms)
  {
    if ms != [] {
      FrozenCount(ms[1..]);
    }
  }

  /** Eviction takes the finalized messages of a prefix, and touches nothing else: what is left of the
      prefix, and everything after it, keeps its order. */
  lemma {:induction false} EvictsOldest(ms: seq<Message>, n: nat) returns (p: nat)
    requires n <= FinalizedCount(ms)
    ensures var r := Evict(ms, n);
            && p <= |ms| && |r.removed| == n
            && r.removed == Where(IsFinalized, ms[..p])
            && r.kept == Where(IsActive, ms[..p]) + ms[p..]
  {
    if n == 0 {
      p := 0;
      NothingEvicted(ms);
    } else {
      var rest := ms[1..];
      p := EvictsOldest(rest, if IsFinalized(ms[0]) then n - 1 else n);
      p := p + 1;
      assert ms[..p][0] == ms[0] && ms[..p][1..] == rest[..p - 1] && ms[p..] == rest[p - 1..];
    }
  }

  lemma {:induction false} NothingEvicted(ms: seq<Message>)
    ensures Evict(ms, 0) == Eviction(ms, [])
  {
    if ms != [] {
      NothingEvicted(ms[1..]);
    }
  }

  /** In the frozen list eviction cuts off the first `n`. */
  lemma {:induction false} EvictionCutsFrozen(ms: seq<Message>, n: nat)
    requires n <= FinalizedCount(ms)
    ensures var r := Evict(ms, n);
            n <= |Frozen(ms)| && Frozen(r.removed) == Frozen(ms)[..n] && Frozen(r.kept) == Frozen(ms)[n..]
  {
    FrozenCount(ms);
    if ms != [] {
      FrozenCount(ms[1..]);
      var k := if IsFinalized(ms[0]) && n > 0 then n - 1 else n;
      if k <= FinalizedCount(ms[1..]) {
        EvictionCutsFrozen(ms[1..], k);
      }
    }
  }

  lemma {:induction false} EvictKeepsMembers(ms: seq<Message>, n: nat)
    ensures forall m :: m in ms <==> m in Evict(ms, n).kept || m in Evict(ms, n).removed
  {
    if ms != [] {
      EvictKeepsMembers(ms[1..], if IsFinalized(ms[0]) && n > 0 then n - 1 else n);
      assert ms == [ms[0]] + ms[1..];
    }
  }

  // ----- how rewrites act on the frozen list -----

  ghost predicate IsSubsequence(a: seq<Message>, b: seq<Message>) {
    if a == [] then true
    else if b == [] then false
    else (a[0] == b[0] && IsSubsequence(a[1..], b[1..])) || IsSubsequence(a, b[1..])
  }

  lemma {:induction false} SubsequenceSelf(a: seq<Message>)
    ensures IsSubsequence(a, a)
  {
    if a != [] {
      SubsequenceSelf(a[1..]);
    }
  }

  /** A subsequence of a concatenation splits: a first part lies in the first list, the rest in the second. */
  lemma {:induction false} SubsequenceSplit(a: seq<Message>, b: seq<Message>, c: seq<Message>) returns (d: nat)
    requires IsSubsequence(a, b + c)
    ensures d <= |a| && IsSubsequence(a[..d], b) && IsSubsequence(a[d..], c)
    decreases |b|
  {
    if b == [] || a == [] {
      d := 0;
      assert b == [] ==> b + c == c;
      assert a[0..] == a;
    } else {
      assert (b + c)[1..] == b[1..] + c;
      if a[0] == b[0] && IsSubsequence(a[1..], b[1..] + c) {
        d := SubsequenceSplit(a[1..], b[1..], c);
        d := d + 1;
        assert a[..d][1..] == a[1..][..d - 1] && a[d..] == a[1..][d - 1..];
      } else {
        d := SubsequenceSplit(a, b[1..], c);
      }
    }
  }

  lemma {:induction false} SubsequenceAfter(x: seq<Message>, a: seq<Message>, b: seq<Message>)
    requires IsSubsequence(a, b)
    ensures IsSubsequence(x + a, x + b)
  {
    if x == [] {
      assert x + a == a && x + b == b;
    } else {
      SubsequenceAfter(x[1..], a, b);
      assert (x + a)[1..] == x[1..] + a && (x + b)[1..] == x[1..] + b;
    }
  }

  lemma {:induction false} SubsequenceChain(a: seq<Message>, b: seq<Message>, c: seq<Message>)
    requires IsSubsequence(a, b) && IsSubsequence(b, c)
    ensures IsSubsequence(a, c)
    decreases |a| + |b| + |c|
  {
    if a != [] && b != [] {
      if b[0] == c[0] && IsSubsequence(b[1..], c[1..]) {
        if a[0] == b[0] && IsSubsequence(a[1..], b[1..]) {
          SubsequenceChain(a[1..], b[1..], c[1..]);
        } else {
          SubsequenceChain(a, b[1..], c[1..]);
        }
      } else {
        SubsequenceChain(a, b, c[1..]);
      }
    }
  }

  /** Rewriting only non-finalized messages keeps every frozen one, in order; some may be added. */
  lemma {:induction false} FrozenGrows(a: seq<Message>, b: seq<Message>)
    requires |a| == |b|
    requires forall j | 0 <= j < |a| && IsFinalized(a[j]) :: IsFinalized(b[j]) && Settled(b[j]) == Settled(a[j])
    ensures IsSubsequence(Frozen(a), Frozen(b))
  {
    if a != [] {
      FrozenGrows(a[1..], b[1..]);
      if !IsFinalized(a[0]) && IsFinalized(b[0]) {
        assert Frozen(b)[1..] == Frozen(b[1..]);
      }
    }
  }

  lemma {:induction false} FrozenPointwise(a: seq<Message>, b: seq<Message>)
    requires |a| == |b|
    requires forall j | 0 <= j < |a| :: IsFinalized(a[j]) <==> IsFinalized(b[j])
    requires forall j | 0 <= j < |a| && IsFinalized(a[j]) :: Settled(b[j]) == Settled(a[j])
    ensures Frozen(a) == Frozen(b)
  {
    if a != [] {
      FrozenPointwise(a[1..], b[1..]);
    }
  }

  lemma CacheMarkSettled(ms: seq<Message>, policy: CachePolicy, i: nat)
    requires i < |ms|
    ensures Settled(CacheMark(ms, policy, i)) == Settled(ms[i])
    ensures IsFinalized(CacheMark(ms, policy, i)) <==> IsFinalized(ms[i])
  {
    assert Settled(CacheMark(ms, policy, i)).metadata == Settled(ms[i]).metadata;
  }

  /** Cache annotation never shows in the frozen list. */
  lemma FrozenIgnoresCache(ms: seq<Message>, policy: CachePolicy)
    ensures Frozen(Annotated(ms, policy)) == Frozen(ms)
  {
    hide IsBreakpoint, IsFinalized, Settled, CacheMark;
    var out := Annotated(ms, policy);
    forall j | 0 <= j < |ms|
      ensures IsFinalized(out[j]) <==> IsFinalized(ms[j])
      ensures Settled(out[j]) == Settled(ms[j])
    {
      CacheMarkSettled(ms, policy, j);
    }
    FrozenPointwise(out, ms);
  }

  /** When every finalized message is pinned, the pinned sublist holds the whole frozen list. */
  lemma {:induction false} FrozenOfPinned(ms: seq<Message>)
    requires forall m | m in ms && IsFinalized(m) :: IsPinned(m)
    ensures Frozen(Where(IsPinned, ms)) == Frozen(ms)
  {
    if ms != [] {
      assert forall m | m in ms[1..] :: m in ms;
      FrozenOfPinned(ms[1..]);
      assert ms[0] in ms;
      var rest := Where(IsPinned, ms[1..]);
      if IsPinned(ms[0]) {
        assert ([ms[0]] + rest)[1..] == rest;
      }
    }
  }
}
