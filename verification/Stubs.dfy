/** The markers of a cleared tool result's stub (agent.rs). */
module Stubs {
  import opened Markers
  import opened MarkerScans
  import Agent
  import Decimal

  lemma StubTextIs(tool: string, tokens: nat, id: string)
    ensures Agent.StubText(tool, tokens, id) == ("[tool:" + tool + Agent.StubMiddle(tokens)) + OPEN + id + CLOSE
  {
  }

  lemma StubLiterals()
    ensures '<' !in Agent.StubCleared() && '<' !in Agent.StubVia()
    ensures '>' !in Agent.StubCleared() && '>' !in Agent.StubVia()
    ensures |Agent.StubCleared()| > 0 && Agent.StubCleared()[0] == ']'
  {
  }

  lemma StubMiddlePlain(tokens: nat)
    ensures '<' !in Agent.StubMiddle(tokens) && '>' !in Agent.StubMiddle(tokens)
    ensures |Agent.StubMiddle(tokens)| > 0 && Agent.StubMiddle(tokens)[0] == ']'
  {
    hide Agent.StubCleared, Agent.StubVia, Decimal.ToText;
    StubLiterals();
    Decimal.ParseOfText(tokens);
    assert '<' !in Decimal.ToText(tokens) && '>' !in Decimal.ToText(tokens);
  }

  /** A cleared stub references exactly the original it replaced if and only if the tool's name closes the
      markers it opens and names no other id in them. */
  lemma StubReferencesIff(tool: string, tokens: nat, id: string)
    requires Find(id + CLOSE, CLOSE) == |id|
    ensures MarkerIds(Agent.StubText(tool, tokens, id)) == {id} <==> Closed(tool) && MarkerIds(tool) <= {id}
  {
    hide *;
    var pre, mid := "[tool:", Agent.StubMiddle(tokens);
    var a, b := pre + tool, mid + OPEN + id + CLOSE;
    StubTextIs(tool, tokens, id);
    assert Agent.StubText(tool, tokens, id) == a + b;
    StubOpens(tool);
    StubEnds(tokens, id);
    if Closed(tool) {
      JoinMarkers(a, b);
    } else {
      var tail := JoinUnclosed(a, b);
      assert |tail + b[..Find(b, CLOSE)]| > |id|;
    }
  }

  lemma StubOpens(tool: string)
    ensures MarkerIds("[tool:" + tool) == MarkerIds(tool) && (Closed("[tool:" + tool) <==> Closed(tool))
  {
    var pre := "[tool:";
    assert '<' !in pre;
    forall i: nat | i < |pre|
      ensures !MatchesAt(pre + tool, OPEN, i)
    {
      assert pre[i] in pre;
      assert (pre + tool)[i + 0] != OPEN[0];
    }
    SkipPrefix(pre, tool);
  }

  /** What follows the name: it starts with `]`, references the id only, and closes after it. */
  lemma StubEnds(tokens: nat, id: string)
    requires Find(id + CLOSE, CLOSE) == |id|
    ensures var b := Agent.StubMiddle(tokens) + OPEN + id + CLOSE;
            && Barrier(b) && MarkerIds(b) == {id} && Find(b, CLOSE) > |id| && Find(b, CLOSE) <= |b|
  {
    hide Agent.StubMiddle, MarkerIds, Find, MatchesAt, Barrier;
    var mid := Agent.StubMiddle(tokens);
    StubMiddlePlain(tokens);
    NoOpenInside(mid);
    OnlyMarker(mid, id);
    ClosesLate(mid + OPEN, id + CLOSE);
    assert (mid + OPEN) + (id + CLOSE) == mid + OPEN + id + CLOSE;
    BracketIsBarrier(mid + OPEN + id + CLOSE);
  }

  lemma BracketIsBarrier(b: string)
    requires b != [] && b[0] == ']'
    ensures Barrier(b)
  {
  }

  lemma ClosesLate(head: string, rest: string)
    requires '>' !in head && Find(rest, CLOSE) >= 0
    ensures Find(head + rest, CLOSE) == |head| + Find(rest, CLOSE) <= |head + rest|
  {
    forall i: nat | i < |head|
      ensures !MatchesAt(head + rest, CLOSE, i)
    {
      assert head[i] in head;
      assert (head + rest)[i + 0] != CLOSE[0];
    }
    FindSkips(head, rest, CLOSE);
    FindFits(rest, CLOSE);
  }

  lemma NoOpenInside(s: string)
    requires '<' !in s
    ensures !Contains(s, OPEN)
  {
    forall i: nat
      ensures !MatchesAt(s, OPEN, i)
    {
      assert i < |s| ==> s[i] in s && s[i + 0] != OPEN[0];
    }
  }

  /** A name that only opens a marker is already harmful: the original is no longer referenced. */
  lemma OpenNameLosesTheOriginal(tokens: nat, id: string)
    requires Find(id + CLOSE, CLOSE) == |id|
    ensures MarkerIds(Agent.StubText(OPEN, tokens, id)) != {id}
  {
    hide Find, MatchesAt, MarkerIds, Agent.StubText, Closed;
    OpenIsUnclosed();
    StubReferencesIff(OPEN, tokens, id);
  }

  lemma OpenIsUnclosed()
    ensures !Closed(OPEN)
  {
    FindIs(OPEN, OPEN, 0);
    NothingFound();
    hide Find, MatchesAt;
    assert OPEN[6..] == [];
  }

  lemma NothingFound()
    ensures Find([], CLOSE) < 0
  {
  }

  /** A name that contains a whole marker adds its reference to the stub. */
  lemma ClosedNameShows(tool: string, tokens: nat, id: string)
    requires Closed(tool) && Find(id + CLOSE, CLOSE) == |id|
    ensures MarkerIds(Agent.StubText(tool, tokens, id)) == MarkerIds(tool) + {id}
  {
    hide *;
    var a, b := "[tool:" + tool, Agent.StubMiddle(tokens) + OPEN + id + CLOSE;
    StubTextIs(tool, tokens, id);
    assert Agent.StubText(tool, tokens, id) == a + b;
    StubOpens(tool);
    StubEnds(tokens, id);
    JoinMarkers(a, b);
  }

  lemma StubMayReferenceMore(tokens: nat, id: string)
    requires Find(id + CLOSE, CLOSE) == |id|
    ensures "x" in MarkerIds(Agent.StubText("<<ccr:x>>", tokens, id))
  {
    hide MarkerIds, Closed, Find, Agent.StubText;
    WholeMarker();
    ClosedNameShows("<<ccr:x>>", tokens, id);
  }

  lemma WholeMarker()
    ensures Closed("<<ccr:x>>") && "x" in MarkerIds("<<ccr:x>>")
  {
    var s := "<<ccr:x>>";
    FindIs(s, OPEN, 0);
    var after := s[6..];
    assert after == "x>>" && after[3..] == [];
    assert !MatchesAt(after, CLOSE, 0) by {
      assert after[0 + 0] != CLOSE[0];
    }
    FindIs(after, CLOSE, 1);
    assert after[..1] == "x";
    NothingFound();
    NoOpenInside([]);
    hide Find, MatchesAt;
    MarkerStep(s, 0, 1);
    ClosedStep(s, 0, 1);
  }
}
