/** How the marker scan of ccr/mod.rs sees texts that are cut short or put together. */
module MarkerScans {
  import opened Markers

  /** A match inside a part of the text is a match of that part. */
  lemma MatchesWithin(s: string, part: string, p: string, off: nat, i: nat)
    requires off + |part| <= |s| && s[off..off + |part|] == part
    requires i + |p| <= |part|
    ensures MatchesAt(s, p, off + i) <==> MatchesAt(part, p, i)
  {
    forall k | 0 <= k < |part|
      ensures s[off + k] == part[k]
    {
      var slice := s[off..off + |part|];
      assert slice[k] == part[k];
    }
    if MatchesAt(part, p, i) {
      assert forall k | 0 <= k < |p| :: s[off + i + k] == p[k];
    }
  }

  lemma FirstOpen(pre: string, rest: string)
    requires !Contains(pre, OPEN)
    ensures Find(pre + OPEN + rest, OPEN) == |pre|
  {
    var s := pre + OPEN + rest;
    forall j: nat | j < |pre|
      ensures !MatchesAt(s, OPEN, j)
    {
      if j + 6 <= |pre| {
        MatchesWithin(s, pre, OPEN, 0, j);
      } else {
        assert s[j + 5] == OPEN[5 - (|pre| - j)] && OPEN[5] != OPEN[5 - (|pre| - j)];
      }
    }
    FindIs(s, OPEN, |pre|);
  }

  /** The only marker of a text that opens none before its end is the one at its end. */
  lemma OnlyMarker(pre: string, id: string)
    requires !Contains(pre, OPEN) && Find(id + CLOSE, CLOSE) == |id|
    ensures MarkerIds(pre + OPEN + id + CLOSE) == {id}
  {
    hide *;
    FirstOpen(pre, id + CLOSE);
    assert pre + OPEN + id + CLOSE == pre + OPEN + (id + CLOSE);
    DropTwo(pre, OPEN, id, CLOSE);
    MarkerStep(pre + OPEN + id + CLOSE, |pre|, |id|);
    assert (id + CLOSE)[..|id|] == id && (id + CLOSE)[|id| + |CLOSE|..] == [];
    NoMarkers();
  }

  lemma DropTwo<T>(a: seq<T>, b: seq<T>, c: seq<T>, d: seq<T>)
    ensures (a + b + c + d)[|a| + |b|..] == c + d
  {
  }

  lemma NoMarkers()
    ensures MarkerIds([]) == {}
  {
    assert Find([], OPEN) == -1;
  }

  lemma FindInPrefix(a: string, b: string, p: string)
    requires Find(a, p) >= 0
    ensures Find(a + b, p) == Find(a, p)
  {
    var r := Find(a, p);
    forall j: nat | j <= r
      ensures MatchesAt(a + b, p, j) <==> MatchesAt(a, p, j)
    {
      assert (a + b)[0..|a|] == a;
      MatchesWithin(a + b, a, p, 0, j);
    }
    FindIs(a + b, p, r);
  }

  /** Cutting a text short only loses markers. */
  lemma {:induction false} PrefixMarkers(a: string, b: string)
    ensures MarkerIds(a) <= MarkerIds(a + b)
    decreases |a|
  {
    hide Find, MatchesAt, MarkerIds;
    var start := Find(a, OPEN);
    UnclosedHasNoMarkers(a);
    FindFits(a, OPEN);
    if start >= 0 {
      var after := a[start + |OPEN|..];
      FindFits(after, CLOSE);
      var end := Find(after, CLOSE);
      if end >= 0 {
        JoinStep(a, b, start, end);
        PrefixMarkers(after[end + |CLOSE|..], b);
      }
    }
  }

  lemma UnclosedHasNoMarkers(a: string)
    ensures Find(a, OPEN) < 0 || Find(a[Find(a, OPEN) + |OPEN|..], CLOSE) < 0 ==> MarkerIds(a) == {}
  {
  }

  lemma PrefixOf(p: string, s: string)
    requires p <= s
    ensures MarkerIds(p) <= MarkerIds(s)
  {
    assert s == p + s[|p|..];
    PrefixMarkers(p, s[|p|..]);
  }

  lemma FindSkips(pre: string, rest: string, p: string)
    requires forall i: nat | i < |pre| :: !MatchesAt(pre + rest, p, i)
    ensures Find(pre + rest, p) == if Find(rest, p) < 0 then -1 else |pre| + Find(rest, p)
  {
    var s, r := pre + rest, Find(rest, p);
    forall j: nat | |pre| <= j
      ensures MatchesAt(s, p, j) <==> MatchesAt(rest, p, j - |pre|)
    {
      assert s[|pre|..|pre| + |rest|] == rest;
      if j + |p| <= |s| {
        MatchesWithin(s, rest, p, |pre|, j - |pre|);
      }
    }
    hide MatchesAt;
    if r >= 0 {
      FindIs(s, p, |pre| + r);
    }
  }

  /** A prefix in which no marker opens can be skipped. */
  lemma SkipPrefix(pre: string, rest: string)
    requires forall i: nat | i < |pre| :: !MatchesAt(pre + rest, OPEN, i)
    ensures MarkerIds(pre + rest) == MarkerIds(rest) && (Closed(pre + rest) <==> Closed(rest))
  {
    hide MatchesAt;
    FindSkips(pre, rest, OPEN);
    FindFits(rest, OPEN);
    var r := Find(rest, OPEN);
    if r >= 0 {
      assert (pre + rest)[|pre| + r + |OPEN|..] == rest[r + |OPEN|..];
    }
  }

  // ----- putting texts together -----

  /** No marker bracket can run across the beginning of `b`. */
  predicate Barrier(b: string) {
    b != [] && b[0] !in OPEN && b[0] !in CLOSE
  }

  lemma BoundaryFind(a: string, b: string, p: string)
    requires Barrier(b) && (p == OPEN || p == CLOSE) && Find(a, p) < 0
    ensures Find(a + b, p) == if Find(b, p) < 0 then -1 else |a| + Find(b, p)
  {
    var w := a + b;
    forall i: nat | i < |a|
      ensures !MatchesAt(w, p, i)
    {
      if i + |p| <= |a| {
        assert w[0..|a|] == a;
        MatchesWithin(w, a, p, 0, i);
      } else {
        var k := |a| - i;
        assert i + |p| <= |w| ==> w[i + k] == b[0] && p[k] in p;
      }
    }
    FindSkips(a, b, p);
  }

  /** One complete marker, then the rest. */
  lemma JoinStep(a: string, b: string, start: nat, end: nat)
    requires Find(a, OPEN) == start && Find(a[start + |OPEN|..], CLOSE) == end
    ensures var next := a[start + |OPEN|..][end + |CLOSE|..];
            && MarkerIds(a) == {a[start + |OPEN|..][..end]} + MarkerIds(next)
            && MarkerIds(a + b) == {a[start + |OPEN|..][..end]} + MarkerIds(next + b)
            && (Closed(a) <==> Closed(next)) && (Closed(a + b) <==> Closed(next + b))
  {
    hide Find, MatchesAt, MarkerIds, Closed;
    FindFits(a, OPEN);
    var after := a[start + |OPEN|..];
    FindFits(after, CLOSE);
    FindInPrefix(a, b, OPEN);
    FindInPrefix(after, b, CLOSE);
    assert (a + b)[start + |OPEN|..] == after + b;
    assert (after + b)[..end] == after[..end] && (after + b)[end + |CLOSE|..] == after[end + |CLOSE|..] + b;
    MarkerStep(a, start, end);
    MarkerStep(a + b, start, end);
    ClosedStep(a, start, end);
    ClosedStep(a + b, start, end);
  }

  /** After a text that closes its markers the scan starts afresh. */
  lemma {:induction false} JoinMarkers(a: string, b: string)
    requires Closed(a) && Barrier(b)
    ensures MarkerIds(a + b) == MarkerIds(a) + MarkerIds(b)
    ensures Closed(a + b) <==> Closed(b)
    decreases |a|
  {
    hide Find, MatchesAt, MarkerIds, Barrier;
    var start := Find(a, OPEN);
    UnclosedHasNoMarkers(a);
    if start < 0 {
      NoOpenBefore(a, b);
    } else {
      FindFits(a, OPEN);
      var after := a[start + |OPEN|..];
      var end := Find(after, CLOSE);
      FindFits(after, CLOSE);
      JoinMarkers(after[end + |CLOSE|..], b);
      JoinStep(a, b, start, end);
    }
  }

  lemma NoOpenBefore(a: string, b: string)
    requires Find(a, OPEN) < 0 && Barrier(b)
    ensures MarkerIds(a + b) == MarkerIds(b) && (Closed(a + b) <==> Closed(b))
  {
    hide Find, MatchesAt, Barrier;
    BoundaryFind(a, b, OPEN);
    FindFits(b, OPEN);
    var r := Find(b, OPEN);
    if r >= 0 {
      assert (a + b)[|a| + r + |OPEN|..] == b[r + |OPEN|..];
    }
  }

  /** A marker left open swallows what follows, up to the next closing bracket. */
  lemma {:induction false} JoinUnclosed(a: string, b: string) returns (tail: string)
    requires !Closed(a) && Barrier(b) && Find(b, CLOSE) >= 0
    ensures tail + b[..Find(b, CLOSE)] in MarkerIds(a + b)
    decreases |a|
  {
    hide Find, MatchesAt, MarkerIds, Barrier;
    var start := Find(a, OPEN);
    FindFits(a, OPEN);
    FindFits(b, CLOSE);
    var after := a[start + |OPEN|..];
    var end := Find(after, CLOSE);
    FindFits(after, CLOSE);
    if end >= 0 {
      JoinStep(a, b, start, end);
      tail := JoinUnclosed(after[end + |CLOSE|..], b);
    } else {
      tail := after;
      FindInPrefix(a, b, OPEN);
      BoundaryFind(after, b, CLOSE);
      assert (a + b)[start + |OPEN|..] == after + b;
      MarkerStep(a + b, start, |after| + Find(b, CLOSE));
      assert (after + b)[..|after| + Find(b, CLOSE)] == after + b[..Find(b, CLOSE)];
    }
  }

  /** Nothing that follows without a closing bracket changes what a text references once it left a marker open. */
  lemma {:induction false} JoinDangling(a: string, b: string)
    requires !Closed(a) && Barrier(b) && Find(b, CLOSE) < 0
    ensures MarkerIds(a + b) == MarkerIds(a) && !Closed(a + b)
    decreases |a|
  {
    hide Find, MatchesAt, MarkerIds, Barrier;
    var start := Find(a, OPEN);
    FindFits(a, OPEN);
    var after := a[start + |OPEN|..];
    var end := Find(after, CLOSE);
    FindFits(after, CLOSE);
    if end >= 0 {
      JoinStep(a, b, start, end);
      JoinDangling(after[end + |CLOSE|..], b);
    } else {
      FindInPrefix(a, b, OPEN);
      BoundaryFind(after, b, CLOSE);
      assert (a + b)[start + |OPEN|..] == after + b;
      UnclosedHasNoMarkers(a);
      UnclosedHasNoMarkers(a + b);
    }
  }
}
