/** The recursion of compressors/smart_crusher.rs and the order of its saves. */
module SmartCrusher {
  import opened Options
  import opened Crusher
  import opened Pruning
  import opened ArraySampling

  const MAX_DEPTH := 50

  predicate AllOfKind(items: seq<Value>, kind: Kind) {
    items != [] && forall i | 0 <= i < |items| :: KindOf(items[i]) == kind
  }

  /** Long enough, and neither all booleans nor all arrays. */
  predicate IsSampled(cfg: Config, items: seq<Value>) {
    |items| >= cfg.minItems && items != [] && !AllOfKind(items, KBool) && !AllOfKind(items, KList)
  }

  // ----- what process_value computes -----

  ghost predicate KindSampled(env: Env, cfg: Config, items: seq<Value>, idx: seq<nat>) {
    if AllOfKind(items, KDict) then DictsSampled(env, cfg, items, idx)
    else if AllOfKind(items, KStr) then StringsSampled(env, cfg, StringsOf(items), idx)
    else if AllOfKind(items, KNumber) then NumbersSampled(env, cfg, items, idx)
    else MixedSampled(env, cfg, items, idx)
  }

  /** The chosen elements, verbatim, and the sentinel where the rule asks for one. */
  ghost predicate Sampled(env: Env, cfg: Config, marked: bool, saved: set<Saved>, items: seq<Value>, idx: seq<nat>, out: seq<Value>)
    requires Picks(idx, |items|)
  {
    && KindSampled(env, cfg, items, idx)
    && SentinelRule(env, marked, saved, items, |idx|, out)
    && out[..|idx|] == Pick(items, idx)
  }

  /** `b` is what `a` is crushed to at `depth`. */
  ghost predicate Crushed(env: Env, cfg: Config, marked: bool, saved: set<Saved>, depth: nat, a: Value, b: Value)
    decreases a, 1
  {
    if depth >= MAX_DEPTH then b == a
    else
      match a
      case Array(items) =>
        b.Array? && (
          if IsSampled(cfg, items) then
            exists idx: seq<nat> :: Picks(idx, |items|) && Sampled(env, cfg, marked, saved, items, idx, b.items)
          else
            && |b.items| == |items|
            && forall k | 0 <= k < |items| :: Crushed(env, cfg, marked, saved, depth + 1, items[k], b.items[k]))
      case Object(fields) =>
        b.Object? && exists processed: seq<Field>, idx: seq<nat> ::
          CrushedFields(env, cfg, marked, saved, depth, a, processed) && FieldsChosen(env, cfg, processed, idx, b.fields)
      case _ => b == a
  }

  /** Every field keeps its key; its value is crushed one level deeper. */
  ghost predicate CrushedFields(env: Env, cfg: Config, marked: bool, saved: set<Saved>, depth: nat, a: Value, processed: seq<Field>)
    requires a.Object?
    decreases a, 0
  {
    && |processed| == |a.fields|
    && forall k | 0 <= k < |a.fields| ::
         processed[k].key == a.fields[k].key && Crushed(env, cfg, marked, saved, depth + 1, a.fields[k].value, processed[k].value)
  }

  ghost predicate FieldsChosen(env: Env, cfg: Config, processed: seq<Field>, idx: seq<nat>, out: seq<Field>) {
    && Picks(idx, |processed|) && out == Pick(processed, idx)
    && if |processed| >= cfg.minItems then FieldsSampled(env, cfg, processed, idx) else forall i: nat | i < |processed| :: i in idx
  }

  /** More saves never hurt. */
  lemma {:induction false} CrushedWithMore(env: Env, cfg: Config, marked: bool, saved: set<Saved>, more: set<Saved>, depth: nat, a: Value, b: Value)
    requires Crushed(env, cfg, marked, saved, depth, a, b) && saved <= more
    ensures Crushed(env, cfg, marked, more, depth, a, b)
    decreases a
  {
    hide KindSampled, FieldsChosen, IsSampled, Pick, Sentinel, SavedText;
    if depth < MAX_DEPTH {
      match a
      case Array(items) =>
        if IsSampled(cfg, items) {
          var idx: seq<nat> :| Picks(idx, |items|) && Sampled(env, cfg, marked, saved, items, idx, b.items);
          assert Sampled(env, cfg, marked, more, items, idx, b.items);
        } else {
          forall k | 0 <= k < |items|
            ensures Crushed(env, cfg, marked, more, depth + 1, items[k], b.items[k])
          {
            CrushedWithMore(env, cfg, marked, saved, more, depth + 1, items[k], b.items[k]);
          }
        }
      case Object(fields) =>
        var processed: seq<Field>, idx: seq<nat> :|
          CrushedFields(env, cfg, marked, saved, depth, a, processed) && FieldsChosen(env, cfg, processed, idx, b.fields);
        forall k | 0 <= k < |fields|
          ensures Crushed(env, cfg, marked, more, depth + 1, fields[k].value, processed[k].value)
        {
          CrushedWithMore(env, cfg, marked, saved, more, depth + 1, fields[k].value, processed[k].value);
        }
        assert CrushedFields(env, cfg, marked, more, depth, a, processed);
      case _ =>
    }
  }

  /** Every array and every object in the value is too short to be sampled. */
  ghost predicate Short(cfg: Config, a: Value)
    decreases a
  {
    match a
    case Array(items) => |items| < cfg.minItems && forall k | 0 <= k < |items| :: Short(cfg, items[k])
    case Object(fields) => |fields| < cfg.minItems && forall k | 0 <= k < |fields| :: Short(cfg, fields[k].value)
    case _ => true
  }

  /** Such a value comes back verbatim. */
  lemma {:induction false} ShortStaysVerbatim(env: Env, cfg: Config, marked: bool, saved: set<Saved>, depth: nat, a: Value, b: Value)
    requires Crushed(env, cfg, marked, saved, depth, a, b) && Short(cfg, a)
    ensures b == a
    decreases a
  {
    hide KindSampled, FieldsSampled, Sampled;
    if depth < MAX_DEPTH {
      match a
      case Array(items) =>
        forall k | 0 <= k < |items|
          ensures b.items[k] == items[k]
        {
          ShortStaysVerbatim(env, cfg, marked, saved, depth + 1, items[k], b.items[k]);
        }
        assert b.items == items;
      case Object(fields) =>
        var processed: seq<Field>, idx: seq<nat> :|
          CrushedFields(env, cfg, marked, saved, depth, a, processed) && FieldsChosen(env, cfg, processed, idx, b.fields);
        forall k | 0 <= k < |fields|
          ensures processed[k] == fields[k]
        {
          ShortStaysVerbatim(env, cfg, marked, saved, depth + 1, fields[k].value, processed[k].value);
        }
        assert processed == fields;
        AllChosen(processed, idx);
      case _ =>
    }
  }

  lemma AllChosen(fields: seq<Field>, idx: seq<nat>)
    requires Picks(idx, |fields|) && forall i: nat | i < |fields| :: i in idx
    ensures Pick(fields, idx) == fields
  {
    AllPicked(idx, |fields|);
    PicksAreFew(idx, |fields|);
  }

  lemma {:induction false} AllPicked(idx: seq<nat>, n: nat)
    requires Picks(idx, n) && forall i: nat | i < n :: i in idx
    ensures |idx| >= n
  {
    if n > 0 {
      assert n - 1 in idx;
      var k: nat :| k < |idx| && idx[k] == n - 1;
      var init := idx[..k];
      forall i: nat | i < n - 1
        ensures i in init
      {
        assert i in idx;
        var j: nat :| j < |idx| && idx[j] == i;
        assert init[j] == i;
      }
      AllPicked(init, n - 1);
    }
  }

  /** Crushing only prunes, at every depth. */
  lemma {:induction false} CrushingPrunes(env: Env, cfg: Config, marked: bool, saved: set<Saved>, depth: nat, a: Value, b: Value)
    requires Crushed(env, cfg, marked, saved, depth, a, b)
    ensures Prunes(env, marked, saved, a, b)
    decreases a
  {
    hide KindSampled, FieldsSampled, IsSampled, Sentinel, SavedText;
    if depth >= MAX_DEPTH {
      PrunesItself(env, marked, saved, a);
    } else {
      match a
      case Array(items) =>
        if IsSampled(cfg, items) {
          var idx: seq<nat> :| Picks(idx, |items|) && Sampled(env, cfg, marked, saved, items, idx, b.items);
          VerbatimPrunes(env, marked, saved, items, idx, b.items);
        } else {
          forall k | 0 <= k < |items|
            ensures Prunes(env, marked, saved, items[k], b.items[k])
          {
            CrushingPrunes(env, cfg, marked, saved, depth + 1, items[k], b.items[k]);
          }
          PickAll(items);
          assert PrunesItems(env, marked, saved, a, AllPositions(|items|), b);
        }
      case Object(fields) =>
        var processed: seq<Field>, idx: seq<nat> :|
          CrushedFields(env, cfg, marked, saved, depth, a, processed) && FieldsChosen(env, cfg, processed, idx, b.fields);
        forall k | 0 <= k < |fields|
          ensures Prunes(env, marked, saved, fields[k].value, processed[k].value)
        {
          CrushingPrunes(env, cfg, marked, saved, depth + 1, fields[k].value, processed[k].value);
        }
        DropFields(env, marked, saved, fields, processed, idx);
      case _ =>
    }
  }

  // ----- process_value -----

  /** The saves only grow; the result is the value crushed. */
  method ProcessValue(env: Env, cfg: Config, value: Value, depth: nat, marked: bool, saves0: seq<Saved>)
    returns (out: Value, saves: seq<Saved>)
    ensures Grows(env, marked, saves0, saves)
    ensures Crushed(env, cfg, marked, SavedSet(saves), depth, value, out)
    decreases value, 1
  {
    saves := saves0;
    if depth >= MAX_DEPTH {
      return value, saves;
    }
    match value {
      case Array(items) =>
        out, saves := ProcessArray(env, cfg, value, depth, marked, saves);
      case Object(fields) =>
        out, saves := ProcessObject(env, cfg, value, depth, marked, saves);
      case _ =>
        out := value;
    }
  }

  method ProcessArray(env: Env, cfg: Config, value: Value, depth: nat, marked: bool, saves0: seq<Saved>)
    returns (out: Value, saves: seq<Saved>)
    requires value.Array? && depth < MAX_DEPTH
    ensures Grows(env, marked, saves0, saves)
    ensures Crushed(env, cfg, marked, SavedSet(saves), depth, value, out)
    decreases value, 0
  {
    hide IsSampled, Sampled;
    var items := value.items;
    if IsSampled(cfg, items) {
      out, saves := SampleArray(env, cfg, items, marked, saves0);
      return;
    }
    saves := saves0;
    var processed: seq<Value> := [];
    for i := 0 to |items|
      invariant |processed| == i && Grows(env, marked, saves0, saves)
      invariant forall k | 0 <= k < i :: Crushed(env, cfg, marked, SavedSet(saves), depth + 1, items[k], processed[k])
    {
      ghost var before := SavedSet(saves);
      var p;
      p, saves := ProcessValue(env, cfg, items[i], depth + 1, marked, saves);
      forall k | 0 <= k < i
        ensures Crushed(env, cfg, marked, SavedSet(saves), depth + 1, items[k], processed[k])
      {
        CrushedWithMore(env, cfg, marked, before, SavedSet(saves), depth + 1, items[k], processed[k]);
      }
      processed := processed + [p];
    }
    out := Array(processed);
  }

  /** The arrays that are sampled: objects, strings, numbers and mixtures. */
  method SampleArray(env: Env, cfg: Config, items: seq<Value>, marked: bool, saves0: seq<Saved>)
    returns (out: Value, saves: seq<Saved>)
    ensures Grows(env, marked, saves0, saves)
    ensures out.Array? && exists idx: seq<nat> :: Picks(idx, |items|) && Sampled(env, cfg, marked, SavedSet(saves), items, idx, out.items)
  {
    hide *;
    KindIsNotObject(items);
    GrowsItself(env, marked, saves0);
    ghost var idx;
    if AllOfKind(items, KDict) {
      out, idx, saves := SampleDictArray(env, cfg, items, marked, saves0);
    } else if AllOfKind(items, KStr) {
      saves := saves0;
      out, idx := SampleStringArray(env, cfg, items, marked, SavedSet(saves));
    } else if AllOfKind(items, KNumber) {
      saves := saves0;
      var kept;
      kept, idx := CrushNumberArray(env, cfg, items);
      out := Array(kept);
      NumbersAreSampled(env, cfg, marked, SavedSet(saves), items, idx);
    } else {
      var kept;
      kept, idx, saves := CrushMixedArray(env, cfg, items, marked, saves0);
      out := Array(kept);
      MixtureIsSampled(env, cfg, marked, SavedSet(saves), items, idx);
    }
  }

  lemma NumbersAreSampled(env: Env, cfg: Config, marked: bool, saved: set<Saved>, items: seq<Value>, idx: seq<nat>)
    requires AllOfKind(items, KNumber) && Picks(idx, |items|) && NumbersSampled(env, cfg, items, idx)
    ensures Sampled(env, cfg, marked, saved, items, idx, Pick(items, idx))
  {
    hide NumbersSampled, DictsSampled, StringsSampled, MixedSampled;
    KindIsNotObject(items);
    assert KindOf(items[0]) == KNumber;
  }

  lemma MixtureIsSampled(env: Env, cfg: Config, marked: bool, saved: set<Saved>, items: seq<Value>, idx: seq<nat>)
    requires !AllOfKind(items, KDict) && !AllOfKind(items, KStr) && !AllOfKind(items, KNumber)
    requires Picks(idx, |items|) && MixedSampled(env, cfg, items, idx)
    ensures Sampled(env, cfg, marked, saved, items, idx, Pick(items, idx))
  {
    hide NumbersSampled, DictsSampled, StringsSampled, MixedSampled;
    KindIsNotObject(items);
  }

  method SampleDictArray(env: Env, cfg: Config, items: seq<Value>, marked: bool, saves0: seq<Saved>)
    returns (out: Value, ghost idx: seq<nat>, saves: seq<Saved>)
    requires AllOfKind(items, KDict)
    ensures Grows(env, marked, saves0, saves)
    ensures out.Array? && Picks(idx, |items|) && Sampled(env, cfg, marked, SavedSet(saves), items, idx, out.items)
  {
    hide *;
    var kept, hash;
    kept, idx, hash, saves := CrushDictArray(env, cfg, items, marked, saves0);
    var added := if hash.Some? then [Object([Field("_ccr_dropped", Str(env.marker(hash.value)))])] else [];
    out := Array(kept + added);
    DictsAreSampled(env, cfg, marked, saves0, items, idx, hash);
  }

  /** The sentinel rule holds of what `CrushDictArray` returns. */
  lemma DictsAreSampled(env: Env, cfg: Config, marked: bool, saves0: seq<Saved>, items: seq<Value>, idx: seq<nat>, hash: Option<string>)
    requires AllOfKind(items, KDict) && Picks(idx, |items|) && DictsSampled(env, cfg, items, idx)
    requires hash == if marked && |idx| < |items| then Some(env.key(Canonical(env, items))) else None
    ensures var saves := if hash.Some? then saves0 + [SavedText(env, Canonical(env, items))] else saves0;
            var added := if hash.Some? then [Object([Field("_ccr_dropped", Str(env.marker(hash.value)))])] else [];
            Grows(env, marked, saves0, saves) && Sampled(env, cfg, marked, SavedSet(saves), items, idx, Pick(items, idx) + added)
  {
    hide DictsSampled, StringsSampled, NumbersSampled, MixedSampled;
    KindIsNotObject(items);
    PicksAreFew(idx, |items|);
    assert hash.Some? ==> SavedText(env, Canonical(env, items)) in saves0 + [SavedText(env, Canonical(env, items))];
  }

  method SampleStringArray(env: Env, cfg: Config, items: seq<Value>, marked: bool, ghost saved: set<Saved>)
    returns (out: Value, ghost idx: seq<nat>)
    requires AllOfKind(items, KStr)
    ensures out.Array? && Picks(idx, |items|) && Sampled(env, cfg, marked, saved, items, idx, out.items)
  {
    hide *;
    var strings := StringsOf(items);
    StringCount(items);
    var crushed;
    crushed, idx := CrushStringArray(env, cfg, strings);
    out := Array(Strings(crushed));
    StringsAreSampled(env, cfg, marked, saved, items, idx);
  }

  lemma StringsAreSampled(env: Env, cfg: Config, marked: bool, saved: set<Saved>, items: seq<Value>, idx: seq<nat>)
    requires AllOfKind(items, KStr) && Picks(idx, |items|) && |StringsOf(items)| == |items|
    requires StringsSampled(env, cfg, StringsOf(items), idx)
    ensures Sampled(env, cfg, marked, saved, items, idx, Strings(Pick(StringsOf(items), idx)))
  {
    hide DictsSampled, StringsSampled, NumbersSampled, MixedSampled;
    StringsAreItems(items, idx);
    KindIsNotObject(items);
    assert KindOf(items[0]) == KStr;
  }

  function Strings(texts: seq<string>): seq<Value> {
    seq(|texts|, i requires 0 <= i < |texts| => Str(texts[i]))
  }

  lemma StringCount(items: seq<Value>)
    ensures |StringsOf(items)| == |items|
  {
  }

  lemma KindIsNotObject(items: seq<Value>)
    ensures AllObjects(items) <==> AllOfKind(items, KDict)
    ensures AllOfKind(items, KStr) || AllOfKind(items, KNumber) ==> !AllObjects(items)
  {
    if items != [] {
      assert KindOf(items[0]) == KDict <==> items[0].Object?;
    }
  }

  lemma StringsAreItems(items: seq<Value>, idx: seq<nat>)
    requires AllOfKind(items, KStr) && Picks(idx, |items|)
    ensures |StringsOf(items)| == |items| && Strings(Pick(StringsOf(items), idx)) == Pick(items, idx)
  {
  }

  method ProcessObject(env: Env, cfg: Config, value: Value, depth: nat, marked: bool, saves0: seq<Saved>)
    returns (out: Value, saves: seq<Saved>)
    requires value.Object? && depth < MAX_DEPTH
    ensures Grows(env, marked, saves0, saves)
    ensures Crushed(env, cfg, marked, SavedSet(saves), depth, value, out)
    decreases value, 0
  {
    hide FieldsSampled;
    var fields := value.fields;
    saves := saves0;
    var processed: seq<Field> := [];
    for i := 0 to |fields|
      invariant |processed| == i && Grows(env, marked, saves0, saves)
      invariant forall k | 0 <= k < i ::
                  processed[k].key == fields[k].key && Crushed(env, cfg, marked, SavedSet(saves), depth + 1, fields[k].value, processed[k].value)
    {
      ghost var before := SavedSet(saves);
      var p;
      p, saves := ProcessValue(env, cfg, fields[i].value, depth + 1, marked, saves);
      forall k | 0 <= k < i
        ensures Crushed(env, cfg, marked, SavedSet(saves), depth + 1, fields[k].value, processed[k].value)
      {
        CrushedWithMore(env, cfg, marked, before, SavedSet(saves), depth + 1, fields[k].value, processed[k].value);
      }
      processed := processed + [Field(fields[i].key, p)];
    }
    assert CrushedFields(env, cfg, marked, SavedSet(saves), depth, value, processed);
    ghost var idx := AllPositions(|processed|);
    if |processed| >= cfg.minItems {
      var kept;
      kept, idx := CrushObject(env, cfg, processed);
      out := Object(kept);
    } else {
      PickAll(processed);
      out := Object(processed);
    }
    assert FieldsChosen(env, cfg, processed, idx, out.fields);
  }

  // ----- compress -----

  datatype Outcome = Done(id: string, data: string) | Failed

  ghost predicate Injective(env: Env) {
    forall x, y :: env.key(x) == env.key(y) ==> x == y
  }

  /** Every save is in the store under its key. */
  predicate AllStored(saves: seq<Saved>, store: map<string, string>) {
    forall s | s in saves :: s.id in store && store[s.id] == s.text
  }

  lemma StoredAfter(env: Env, saves: seq<Saved>, store: map<string, string>, next: Saved)
    requires Injective(env) && KeyedByContent(env, saves + [next]) && AllStored(saves, store)
    ensures AllStored(saves + [next], store[next.id := next.text])
  {
    forall s | s in saves + [next]
      ensures s.id in store[next.id := next.text] && store[next.id := next.text][s.id] == s.text
    {
      assert s.id == env.key(s.text) && next in saves + [next];
    }
  }

  function StoreAll(store: map<string, string>, saves: seq<Saved>): map<string, string> {
    if saves == [] then store
    else
      var last := saves[|saves| - 1];
      StoreAll(store, saves[..|saves| - 1])[last.id := last.text]
  }

  function FirstFailure(saves: seq<Saved>, fails: Saved -> bool): (n: nat)
    ensures n <= |saves| && (n < |saves| ==> fails(saves[n]))
    ensures forall i | 0 <= i < n :: !fails(saves[i])
  {
    if saves == [] || fails(saves[0]) then 0 else 1 + FirstFailure(saves[1..], fails)
  }

  /** Saves in order, stopping at the first failure: what was saved before it stays in the store. */
  method SaveAll(env: Env, saves: seq<Saved>, store0: map<string, string>, fails: Saved -> bool)
    returns (ok: bool, store: map<string, string>)
    requires Injective(env) && KeyedByContent(env, saves)
    ensures store == StoreAll(store0, saves[..FirstFailure(saves, fails)])
    ensures AllStored(saves[..FirstFailure(saves, fails)], store)
    ensures ok <==> FirstFailure(saves, fails) == |saves|
  {
    hide *;
    store := store0;
    ghost var n := FirstFailure(saves, fails);
    NothingStored(saves, store0);
    for i := 0 to |saves|
      invariant i <= n && store == StoreAll(store0, saves[..i]) && AllStored(saves[..i], store)
    {
      if fails(saves[i]) {
        return false, store;
      }
      StoreStep(env, saves, i, store0);
      store := store[saves[i].id := saves[i].text];
    }
    ok := true;
  }

  lemma NothingStored(saves: seq<Saved>, store: map<string, string>)
    ensures StoreAll(store, saves[..0]) == store && AllStored(saves[..0], store)
  {
  }

  lemma StoreStep(env: Env, saves: seq<Saved>, i: nat, store0: map<string, string>)
    requires Injective(env) && KeyedByContent(env, saves) && i < |saves|
    requires AllStored(saves[..i], StoreAll(store0, saves[..i]))
    ensures StoreAll(store0, saves[..i + 1]) == StoreAll(store0, saves[..i])[saves[i].id := saves[i].text]
    ensures AllStored(saves[..i + 1], StoreAll(store0, saves[..i + 1]))
  {
    assert saves[..i + 1] == saves[..i] + [saves[i]] && saves[..i + 1][..i] == saves[..i];
    hide AllStored, Injective;
    StoredAfter(env, saves[..i], StoreAll(store0, saves[..i]), saves[i]);
  }

  /** In the result of a finished compression, an array of objects either still has all its records or ends
      in a sentinel whose key leads the store to the full array. */
  lemma DroppedRecordsAreStored(env: Env, items: seq<Value>, b: Value, saves: seq<Saved>, store: map<string, string>)
    requires Prunes(env, true, SavedSet(saves), Array(items), b) && AllObjects(items) && AllStored(saves, store)
    ensures || (|b.items| == |items|
                && forall k | 0 <= k < |items| :: Prunes(env, true, SavedSet(saves), items[k], b.items[k]))
            || (b.items != [] && b.items[|b.items| - 1] == Sentinel(env, items)
                && env.key(Canonical(env, items)) in store
                && store[env.key(Canonical(env, items))] == Canonical(env, items))
  {
    var idx: seq<nat> :| Picks(idx, |items|) && PrunesItems(env, true, SavedSet(saves), Array(items), idx, b);
    PicksAreFew(idx, |items|);
    if |idx| < |items| {
      assert SavedText(env, Canonical(env, items)) in saves;
    }
  }

  method Compress(env: Env, cfg: Config, parse: string -> Option<Value>, text: string, enableMarker: bool, reversible: bool,
                  store0: Option<map<string, string>>, fails: Saved -> bool)
    returns (r: Outcome, store: Option<map<string, string>>, ghost out: Value, ghost saves: seq<Saved>)
    requires Injective(env)
    ensures parse(text).None? && r.Done? ==> r.data == text
    ensures parse(text).Some? && r.Done? ==> r.data == env.toText(out)
    ensures parse(text).Some? && r.Done? && reversible && store0.Some? ==>
              && Crushed(env, cfg, enableMarker, SavedSet(saves), 0, parse(text).value, out)
              && Prunes(env, enableMarker, SavedSet(saves), parse(text).value, out)
              && store.Some? && AllStored(saves, store.value)
    ensures parse(text).Some? && r.Done? && !(reversible && store0.Some?) ==>
              Crushed(env, cfg, false, {}, 0, parse(text).value, out) && Prunes(env, false, {}, parse(text).value, out)
    ensures r.Done? && reversible && store0.Some? ==> store.Some? && r.id in store.value && store.value[r.id] == text
    ensures !(reversible && store0.Some?) ==> store == store0 && r.Done?
    ensures reversible && store0.Some? ==>
              var all := saves + [SavedText(env, text)];
              && store == Some(StoreAll(store0.value, all[..FirstFailure(all, fails)]))
              && (r.Done? <==> FirstFailure(all, fails) == |all|)
  {
    var emit := reversible && store0.Some?;
    var data, pending, crushed := Crush(env, cfg, parse, text, enableMarker && emit);
    out, saves := crushed, pending;
    assert !emit ==> SavedSet(pending) == {};
    if parse(text).Some? {
      CrushingPrunes(env, cfg, enableMarker && emit, SavedSet(saves), 0, parse(text).value, out);
    }
    store := store0;
    var id := if reversible then env.key(text) else "sc-" + env.key(text);
    if emit {
      var all := pending + [SavedText(env, text)];
      var ok, saved := SaveAll(env, all, store0.value, fails);
      store := Some(saved);
      if !ok {
        return Failed, store, out, saves;
      }
      assert all[..|all|] == all;
      assert SavedText(env, text) in all && forall s | s in pending :: s in all;
    }
    r := Done(id, data);
  }

  method Crush(env: Env, cfg: Config, parse: string -> Option<Value>, text: string, marked: bool)
    returns (data: string, saves: seq<Saved>, ghost out: Value)
    ensures KeyedByContent(env, saves) && (!marked ==> saves == [])
    ensures parse(text).None? ==> data == text
    ensures parse(text).Some? ==> data == env.toText(out) && Crushed(env, cfg, marked, SavedSet(saves), 0, parse(text).value, out)
  {
    saves := [];
    var parsed := parse(text);
    if parsed.None? {
      return text, saves, Null;
    }
    var crushed;
    crushed, saves := ProcessValue(env, cfg, parsed.value, 0, marked, saves);
    data, out := env.toText(crushed), crushed;
  }
}
