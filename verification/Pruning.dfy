/** What the recursive pruning of compressors/smart_crusher.rs may do to a value, and its sentinels. */
module Pruning {
  import opened Crusher

  /** An original waiting to be saved under its content key. */
  datatype Saved = Saved(id: string, text: string)

  function SavedText(env: Env, text: string): Saved {
    Saved(env.key(text), text)
  }

  function SavedSet(saves: seq<Saved>): set<Saved> {
    set s | s in saves
  }

  function Canonical(env: Env, items: seq<Value>): string {
    env.toText(Array(items))
  }

  function Sentinel(env: Env, items: seq<Value>): Value {
    Object([Field("_ccr_dropped", Str(env.marker(env.key(Canonical(env, items)))))])
  }

  predicate AllObjects(items: seq<Value>) {
    items != [] && forall i | 0 <= i < |items| :: items[i].Object?
  }

  predicate KeyedByContent(env: Env, saves: seq<Saved>) {
    forall s | s in saves :: s.id == env.key(s.text)
  }

  /** Saves are only added, each keyed by its content, and only while markers are on. */
  predicate Grows(env: Env, marked: bool, before: seq<Saved>, after: seq<Saved>) {
    && SavedSet(before) <= SavedSet(after)
    && (KeyedByContent(env, before) ==> KeyedByContent(env, after))
    && (!marked ==> after == before)
  }

  // ----- pruning -----

  /** With markers on, an array of objects ends in a sentinel exactly when a record was dropped, and the
      full canonical array is then among the saves; no other array ever gains a sentinel. */
  predicate SentinelRule(env: Env, marked: bool, saved: set<Saved>, items: seq<Value>, kept: nat, out: seq<Value>) {
    if marked && AllObjects(items) && kept < |items| then
      && |out| == kept + 1
      && out[kept] == Sentinel(env, items)
      && SavedText(env, Canonical(env, items)) in saved
    else |out| == kept
  }

  /** `b` is `a` with array elements and object fields left out, at any depth: scalars are verbatim, what
      is left keeps its order and its keys, and sentinels obey their rule. */
  ghost predicate Prunes(env: Env, marked: bool, saved: set<Saved>, a: Value, b: Value)
    decreases a
  {
    match a
    case Array(items) =>
      b.Array? && exists idx: seq<nat> :: Picks(idx, |items|) && PrunesItems(env, marked, saved, a, idx, b)
    case Object(fields) =>
      b.Object? && exists idx: seq<nat> :: Picks(idx, |fields|) && PrunesFields(env, marked, saved, a, idx, b)
    case _ => b == a
  }

  ghost predicate PrunesItems(env: Env, marked: bool, saved: set<Saved>, a: Value, idx: seq<nat>, b: Value)
    requires a.Array? && b.Array? && Picks(idx, |a.items|)
    decreases a, 0
  {
    && SentinelRule(env, marked, saved, a.items, |idx|, b.items)
    && forall k | 0 <= k < |idx| :: Prunes(env, marked, saved, a.items[idx[k]], b.items[k])
  }

  ghost predicate PrunesFields(env: Env, marked: bool, saved: set<Saved>, a: Value, idx: seq<nat>, b: Value)
    requires a.Object? && b.Object? && Picks(idx, |a.fields|)
    decreases a, 0
  {
    && |b.fields| == |idx|
    && forall k | 0 <= k < |idx| ::
         b.fields[k].key == a.fields[idx[k]].key && Prunes(env, marked, saved, a.fields[idx[k]].value, b.fields[k].value)
  }

  lemma {:induction false} PrunesItself(env: Env, marked: bool, saved: set<Saved>, a: Value)
    ensures Prunes(env, marked, saved, a, a)
    decreases a
  {
    match a
    case Array(items) =>
      PickAll(items);
      forall i | 0 <= i < |items|
        ensures Prunes(env, marked, saved, items[i], items[i])
      {
        PrunesItself(env, marked, saved, items[i]);
      }
      assert PrunesItems(env, marked, saved, a, AllPositions(|items|), a);
    case Object(fields) =>
      PickAll(fields);
      forall i | 0 <= i < |fields|
        ensures Prunes(env, marked, saved, fields[i].value, fields[i].value)
      {
        PrunesItself(env, marked, saved, fields[i].value);
      }
      assert PrunesFields(env, marked, saved, a, AllPositions(|fields|), a);
    case _ =>
  }

  /** An array whose kept elements are verbatim is pruned. */
  lemma VerbatimPrunes(env: Env, marked: bool, saved: set<Saved>, items: seq<Value>, idx: seq<nat>, out: seq<Value>)
    requires Picks(idx, |items|) && |idx| <= |out| && out[..|idx|] == Pick(items, idx)
    requires SentinelRule(env, marked, saved, items, |idx|, out)
    ensures Prunes(env, marked, saved, Array(items), Array(out))
  {
    forall k | 0 <= k < |idx|
      ensures Prunes(env, marked, saved, items[idx[k]], out[k])
    {
      assert out[k] == out[..|idx|][k];
      PrunesItself(env, marked, saved, items[idx[k]]);
    }
    assert PrunesItems(env, marked, saved, Array(items), idx, Array(out));
  }

  /** Leaving out fields of an already pruned object prunes further. */
  lemma DropFields(env: Env, marked: bool, saved: set<Saved>, fields: seq<Field>, processed: seq<Field>, idx: seq<nat>)
    requires |processed| == |fields| && Picks(idx, |fields|)
    requires forall k | 0 <= k < |fields| ::
               processed[k].key == fields[k].key && Prunes(env, marked, saved, fields[k].value, processed[k].value)
    ensures Prunes(env, marked, saved, Object(fields), Object(Pick(processed, idx)))
  {
    assert PrunesFields(env, marked, saved, Object(fields), idx, Object(Pick(processed, idx)));
  }

  /** A full choice of positions is the identity. */
  lemma {:induction false} PicksAreFew(idx: seq<nat>, n: nat)
    requires Picks(idx, n)
    ensures |idx| <= n
    ensures |idx| == n ==> forall k | 0 <= k < n :: idx[k] == k
  {
    if idx != [] {
      PicksAreFew(idx[..|idx| - 1], idx[|idx| - 1]);
    }
  }
}
