/** Cutting a JSON value of any width and nesting down to a sample for a training prompt. */
module TrainingCompaction {
  import opened Sequences
  import opened Text
  import opened JsonValues

  const TEXT_LIMIT: nat := 480
  const ITEM_LIMIT: nat := 8
  const DEPTH_LIMIT: nat := 3
  const OMITTED := "omitted_keys"

  /** What stands behind a cut text. */
  function Note(omitted: nat): string { "... [truncated " + Decimal(omitted) + " chars]" }

  /** `_training_text` of a string. */
  function TrainingText(text: string): string {
    if |text| <= TEXT_LIMIT then text else text[..TEXT_LIMIT] + Note(|text| - TEXT_LIMIT)
  }

  /** The text has no more than 480 characters before the note that it was cut. */
  ghost predicate IsClipped(text: string) {
    |text| <= TEXT_LIMIT || exists n :: text == text[..TEXT_LIMIT] + Note(n)
  }

  lemma TrainingTextIsClipped(text: string)
    ensures IsClipped(TrainingText(text))
    ensures var kept := if |text| <= TEXT_LIMIT then |text| else TEXT_LIMIT;
            |TrainingText(text)| >= kept && TrainingText(text)[..kept] == text[..kept]
  {
    if |text| > TEXT_LIMIT {
      var cut := TrainingText(text);
      assert cut[..TEXT_LIMIT] == text[..TEXT_LIMIT];
      assert cut == cut[..TEXT_LIMIT] + Note(|text| - TEXT_LIMIT);
    }
  }

  function Names(fields: seq<(string, Json)>, count: nat): seq<Json>
    requires count <= |fields|
  {
    seq(count, i requires 0 <= i < count => JString(fields[i].0))
  }

  /** Assignment to a key of a dictionary: an old key keeps its place. */
  function Put(fields: seq<(string, Json)>, name: string, value: Json): (all: seq<(string, Json)>)
    ensures |fields| <= |all| <= |fields| + 1
  {
    if fields == [] then [(name, value)]
    else if fields[0].0 == name then [(name, value)] + fields[1..]
    else [fields[0]] + Put(fields[1..], name, value)
  }

  function ObjectSummary(fields: seq<(string, Json)>): Json {
    var shown := Min(|fields|, ITEM_LIMIT);
    JObject([("type", JString("object")), ("keys", JArray(Names(fields, shown))),
             (OMITTED, JNumber(Decimal(|fields| - shown)))])
  }

  function ArraySummary(items: seq<Json>): Json {
    JObject([("type", JString("array")), ("count", JNumber(Decimal(|items|))),
             ("sample_count", JNumber(Decimal(Min(|items|, ITEM_LIMIT))))])
  }

  /** `_compact_training_value` */
  function Compact(value: Json, depth: nat): Json
    decreases value, 1, 0
  {
    match value
    case JString(s) => JString(TrainingText(s))
    case JObject(fields) =>
      if depth >= DEPTH_LIMIT then ObjectSummary(fields)
      else JObject(CompactFields(value, 0, depth, []))
    case JArray(items) =>
      if depth >= DEPTH_LIMIT then ArraySummary(items)
      else JArray(seq(Min(|items|, ITEM_LIMIT),
                      i requires 0 <= i < Min(|items|, ITEM_LIMIT) => Compact(items[i], depth + 1)))
    case _ => value
  }

  /** The loop over the fields from the `k`-th on, with `done` filled so far. */
  function CompactFields(value: Json, k: nat, depth: nat, done: seq<(string, Json)>): seq<(string, Json)>
    requires value.JObject? && k <= |value.fields|
    decreases value, 0, |value.fields| - k
  {
    if k == |value.fields| then done
    else if k >= ITEM_LIMIT then Put(done, OMITTED, JNumber(Decimal(|value.fields| - k)))
    else
      CompactFields(value, k + 1, depth, Put(done, value.fields[k].0, Compact(value.fields[k].1, depth + 1)))
  }

  // ---- the number of nodes ----

  function Arity(value: Json): nat {
    match value
    case JArray(items) => |items|
    case JObject(fields) => |fields|
    case _ => 0
  }

  function Child(value: Json, i: nat): (child: Json)
    requires i < Arity(value)
    ensures child < value
  {
    match value
    case JArray(items) => items[i]
    case JObject(fields) => fields[i].1
  }

  function Nodes(value: Json): nat
    decreases value, 1, 0
  {
    1 + ChildNodes(value, Arity(value))
  }

  /** The nodes of the first `count` children. */
  function ChildNodes(value: Json, count: nat): nat
    requires count <= Arity(value)
    decreases value, 0, count
  {
    if count == 0 then 0 else ChildNodes(value, count - 1) + Nodes(Child(value, count - 1))
  }

  lemma {:induction false} ChildNodesBound(value: Json, count: nat, each: nat)
    requires count <= Arity(value) && forall i :: 0 <= i < count ==> Nodes(Child(value, i)) <= each
    ensures ChildNodes(value, count) <= count * each
  {
    if count > 0 {
      ChildNodesBound(value, count - 1, each);
      assert count * each == (count - 1) * each + each;
    }
  }

  /** At most this many nodes are left of any value at the depth. */
  function NodeLimit(depth: nat): nat
    decreases DEPTH_LIMIT - depth
  {
    if depth >= DEPTH_LIMIT then ITEM_LIMIT + 4 else ITEM_LIMIT * NodeLimit(depth + 1) + 2
  }

  ghost predicate FieldsWithin(fields: seq<(string, Json)>, each: nat) {
    forall i :: 0 <= i < |fields| ==> Nodes(fields[i].1) <= each
  }

  lemma {:induction false} PutWithin(fields: seq<(string, Json)>, name: string, value: Json, each: nat)
    requires FieldsWithin(fields, each) && Nodes(value) <= each
    ensures FieldsWithin(Put(fields, name, value), each)
  {
    if fields != [] && fields[0].0 != name {
      PutWithin(fields[1..], name, value, each);
    }
  }

  /** A new key comes last. */
  lemma {:induction false} PutNew(fields: seq<(string, Json)>, name: string, value: Json)
    ensures |Put(fields, name, value)| == |fields| + 1 ==> Put(fields, name, value) == fields + [(name, value)]
  {
    if fields != [] && fields[0].0 != name {
      PutNew(fields[1..], name, value);
    }
  }

  lemma ObjectNodes(fields: seq<(string, Json)>, each: nat)
    requires FieldsWithin(fields, each)
    ensures Nodes(JObject(fields)) <= 1 + |fields| * each
  {
    var o := JObject(fields);
    assert forall i :: 0 <= i < Arity(o) ==> Child(o, i) == fields[i].1;
    ChildNodesBound(o, |fields|, each);
  }

  lemma OneMoreField(fields: seq<(string, Json)>, name: string, value: Json, each: nat)
    requires FieldsWithin(fields, each)
    ensures Nodes(JObject(fields + [(name, value)])) <= 1 + |fields| * each + Nodes(value)
  {
    var o := JObject(fields + [(name, value)]);
    assert forall i :: 0 <= i < |fields| ==> Child(o, i) == fields[i].1;
    ChildNodesBound(o, |fields|, each);
    assert Child(o, |fields|) == value;
    assert Arity(o) == |fields| + 1;
  }

  lemma {:induction false} CompactFieldsNodes(value: Json, k: nat, depth: nat, done: seq<(string, Json)>)
    requires value.JObject? && k <= |value.fields| && k <= ITEM_LIMIT && depth < DEPTH_LIMIT
    requires |done| <= k && FieldsWithin(done, NodeLimit(depth + 1))
    ensures Nodes(JObject(CompactFields(value, k, depth, done))) <= NodeLimit(depth)
    decreases value, 0, |value.fields| - k
  {
    var each := NodeLimit(depth + 1);
    if k == |value.fields| {
      ObjectNodes(done, each);
      assert |done| * each <= ITEM_LIMIT * each;
    } else if k >= ITEM_LIMIT {
      var last := JNumber(Decimal(|value.fields| - k));
      assert |done| * each <= ITEM_LIMIT * each;
      if |Put(done, OMITTED, last)| == |done| {
        PutWithin(done, OMITTED, last, each);
        ObjectNodes(Put(done, OMITTED, last), each);
      } else {
        PutNew(done, OMITTED, last);
        OneMoreField(done, OMITTED, last, each);
      }
    } else {
      var item := Compact(value.fields[k].1, depth + 1);
      CompactNodes(value.fields[k].1, depth + 1);
      PutWithin(done, value.fields[k].0, item, each);
      CompactFieldsNodes(value, k + 1, depth, Put(done, value.fields[k].0, item));
    }
  }

  lemma ObjectSummaryNodes(fields: seq<(string, Json)>)
    ensures Nodes(ObjectSummary(fields)) <= ITEM_LIMIT + 4
  {
    var shown := Min(|fields|, ITEM_LIMIT);
    var names := JArray(Names(fields, shown));
    assert forall i :: 0 <= i < Arity(names) ==> Nodes(Child(names, i)) == 1;
    ChildNodesBound(names, shown, 1);
    ThreeFields(ObjectSummary(fields));
  }

  lemma ArraySummaryNodes(items: seq<Json>)
    ensures Nodes(ArraySummary(items)) == 4
  {
    ThreeFields(ArraySummary(items));
  }

  lemma ThreeFields(o: Json)
    requires o.JObject? && |o.fields| == 3
    ensures Nodes(o) == 1 + Nodes(o.fields[0].1) + Nodes(o.fields[1].1) + Nodes(o.fields[2].1)
  {
    assert ChildNodes(o, 0) == 0;
    assert Child(o, 0) == o.fields[0].1 && ChildNodes(o, 1) == Nodes(Child(o, 0));
    assert Child(o, 1) == o.fields[1].1 && ChildNodes(o, 2) == ChildNodes(o, 1) + Nodes(Child(o, 1));
    assert Child(o, 2) == o.fields[2].1 && ChildNodes(o, 3) == ChildNodes(o, 2) + Nodes(Child(o, 2));
  }

  /** However wide and deep the value, what is left of it is bounded by the depth alone. */
  lemma {:induction false} CompactNodes(value: Json, depth: nat)
    ensures Nodes(Compact(value, depth)) <= NodeLimit(depth)
    decreases value, 1, 0
  {
    match value {
      case JObject(fields) =>
        if depth >= DEPTH_LIMIT {
          ObjectSummaryNodes(fields);
        } else {
          CompactFieldsNodes(value, 0, depth, []);
        }
      case JArray(items) =>
        if depth >= DEPTH_LIMIT {
          ArraySummaryNodes(items);
        } else {
          var a := Compact(value, depth);
          forall i | 0 <= i < Arity(a)
            ensures Nodes(Child(a, i)) <= NodeLimit(depth + 1)
          {
            CompactNodes(items[i], depth + 1);
          }
          ChildNodesBound(a, Arity(a), NodeLimit(depth + 1));
          assert Arity(a) * NodeLimit(depth + 1) <= ITEM_LIMIT * NodeLimit(depth + 1);
        }
      case _ =>
        assert Nodes(Compact(value, depth)) == 1;
    }
  }

  /** From the top, no value leaves more than 6290 nodes; the sample of a section, which is
      taken from depth 2, has no more than 98. */
  lemma CompactIsBounded(value: Json)
    ensures Nodes(Compact(value, 0)) <= 6290
    ensures Nodes(Compact(value, 2)) <= 98
  {
    CompactNodes(value, 0);
    CompactNodes(value, 2);
    assert NodeLimit(3) == 12;
    assert NodeLimit(2) == 98;
    assert NodeLimit(1) == 786;
  }

  // ---- the length of the strings ----

  /** Objects are dictionaries: no key comes twice. */
  ghost predicate IsDictionary(fields: seq<(string, Json)>) {
    forall i, j :: 0 <= i < j < |fields| ==> fields[i].0 != fields[j].0
  }

  ghost predicate DistinctNames(value: Json) {
    && (value.JObject? ==> IsDictionary(value.fields))
    && forall i :: 0 <= i < Arity(value) ==> DistinctNames(Child(value, i))
  }

  ghost predicate AllClipped(value: Json) {
    && (value.JString? ==> IsClipped(value.s))
    && forall i :: 0 <= i < Arity(value) ==> AllClipped(Child(value, i))
  }

  /** The `i`-th field of an object is replaced by the count of the keys left out. */
  predicate IsOverwritten(value: Json, i: nat)
    requires i < Arity(value)
  {
    value.JObject? && Arity(value) > ITEM_LIMIT && value.fields[i].0 == OMITTED
  }

  /** Of every object that is summarised, the names that are shown are short enough. */
  ghost predicate ShownNamesClipped(value: Json, depth: nat) {
    if depth >= DEPTH_LIMIT then
      value.JObject? ==>
        forall i :: 0 <= i < Arity(value) && i < ITEM_LIMIT ==> IsClipped(value.fields[i].0)
    else
      forall i :: 0 <= i < Arity(value) && i < ITEM_LIMIT ==>
        IsOverwritten(value, i) || ShownNamesClipped(Child(value, i), depth + 1)
  }

  /** The first `count` fields, compacted. */
  function Kept(value: Json, count: nat, depth: nat): seq<(string, Json)>
    requires value.JObject? && count <= |value.fields|
  {
    seq(count, i requires 0 <= i < count => (value.fields[i].0, Compact(value.fields[i].1, depth + 1)))
  }

  lemma {:induction false} PutBehind(fields: seq<(string, Json)>, name: string, value: Json)
    requires forall i :: 0 <= i < |fields| ==> fields[i].0 != name
    ensures Put(fields, name, value) == fields + [(name, value)]
  {
    if fields != [] {
      PutBehind(fields[1..], name, value);
      assert fields == [fields[0]] + fields[1..];
    }
  }

  lemma {:induction false} PutOver(fields: seq<(string, Json)>, i: nat, name: string, value: Json)
    requires i < |fields| && fields[i].0 == name && forall k :: 0 <= k < i ==> fields[k].0 != name
    ensures Put(fields, name, value) == fields[i := (name, value)]
  {
    if i > 0 {
      PutOver(fields[1..], i - 1, name, value);
    }
  }

  lemma PutIs(fields: seq<(string, Json)>, name: string, value: Json)
    requires IsDictionary(fields)
    ensures (forall i :: 0 <= i < |fields| ==> fields[i].0 != name) ==>
              Put(fields, name, value) == fields + [(name, value)]
    ensures forall i :: 0 <= i < |fields| && fields[i].0 == name ==>
              Put(fields, name, value) == fields[i := (name, value)]
  {
    if forall i :: 0 <= i < |fields| ==> fields[i].0 != name {
      PutBehind(fields, name, value);
    }
    forall i | 0 <= i < |fields| && fields[i].0 == name
      ensures Put(fields, name, value) == fields[i := (name, value)]
    {
      PutOver(fields, i, name, value);
    }
  }

  lemma {:induction false} CompactFieldsAre(value: Json, k: nat, depth: nat)
    requires value.JObject? && IsDictionary(value.fields) && k <= |value.fields| && k <= ITEM_LIMIT
    ensures CompactFields(value, k, depth, Kept(value, k, depth))
         == (var n := |value.fields|;
             if n <= ITEM_LIMIT then Kept(value, n, depth)
             else Put(Kept(value, ITEM_LIMIT, depth), OMITTED, JNumber(Decimal(n - ITEM_LIMIT))))
    decreases ITEM_LIMIT - k
  {
    if k < |value.fields| && k < ITEM_LIMIT {
      PutIs(Kept(value, k, depth), value.fields[k].0, Compact(value.fields[k].1, depth + 1));
      assert Kept(value, k + 1, depth)
          == Kept(value, k, depth) + [(value.fields[k].0, Compact(value.fields[k].1, depth + 1))];
      CompactFieldsAre(value, k + 1, depth);
    }
  }

  ghost predicate FieldsClipped(fields: seq<(string, Json)>) {
    forall i :: 0 <= i < |fields| ==> AllClipped(fields[i].1)
  }

  lemma ObjectClipped(fields: seq<(string, Json)>)
    ensures AllClipped(JObject(fields)) <==> FieldsClipped(fields)
  {
    var o := JObject(fields);
    assert Arity(o) == |fields|;
    assert forall i :: 0 <= i < Arity(o) ==> Child(o, i) == fields[i].1;
    if AllClipped(o) {
      forall i | 0 <= i < |fields|
        ensures AllClipped(fields[i].1)
      {
        assert AllClipped(Child(o, i));
      }
    }
  }

  lemma ArrayClipped(items: seq<Json>)
    ensures AllClipped(JArray(items)) <==> forall i :: 0 <= i < |items| ==> AllClipped(items[i])
  {
    var a := JArray(items);
    assert forall i :: 0 <= i < Arity(a) ==> Child(a, i) == items[i];
    if AllClipped(a) {
      forall i | 0 <= i < |items|
        ensures AllClipped(items[i])
      {
        assert AllClipped(Child(a, i));
      }
    }
  }

  lemma ObjectSummaryClipped(fields: seq<(string, Json)>)
    ensures AllClipped(ObjectSummary(fields)) <==>
            forall i :: 0 <= i < |fields| && i < ITEM_LIMIT ==> IsClipped(fields[i].0)
  {
    var shown := Min(|fields|, ITEM_LIMIT);
    var names := Names(fields, shown);
    var o := ObjectSummary(fields);
    ArrayClipped(names);
    ObjectClipped(o.fields);
    assert o.fields[0].1 == JString("object") && AllClipped(o.fields[0].1);
    assert o.fields[1].1 == JArray(names);
    assert AllClipped(o.fields[2].1);
    assert forall i :: 0 <= i < shown ==> (AllClipped(names[i]) <==> IsClipped(fields[i].0));
    if AllClipped(o) {
      forall i | 0 <= i < |fields| && i < ITEM_LIMIT
        ensures IsClipped(fields[i].0)
      {
        assert AllClipped(names[i]);
      }
    }
  }

  lemma ArraySummaryClipped(items: seq<Json>)
    ensures AllClipped(ArraySummary(items))
  {
    ObjectClipped(ArraySummary(items).fields);
  }

  /** The kept fields are clipped, but for one that is overwritten. */
  lemma KeptClipped(value: Json, depth: nat)
    requires value.JObject? && IsDictionary(value.fields)
    ensures AllClipped(JObject(CompactFields(value, 0, depth, []))) <==>
            forall i :: 0 <= i < Arity(value) && i < ITEM_LIMIT ==>
              IsOverwritten(value, i) || AllClipped(Compact(Child(value, i), depth + 1))
  {
    var n := |value.fields|;
    var count := Min(n, ITEM_LIMIT);
    var kept := Kept(value, count, depth);
    assert Kept(value, 0, depth) == [];
    CompactFieldsAre(value, 0, depth);
    ObjectClipped(CompactFields(value, 0, depth, []));
    assert forall i :: 0 <= i < count ==>
             kept[i].0 == value.fields[i].0 && kept[i].1 == Compact(Child(value, i), depth + 1);
    if n > ITEM_LIMIT {
      PutClipped(kept, JNumber(Decimal(n - ITEM_LIMIT)));
    }
  }

  lemma PutClipped(fields: seq<(string, Json)>, last: Json)
    requires IsDictionary(fields) && AllClipped(last)
    ensures FieldsClipped(Put(fields, OMITTED, last)) <==>
            forall i :: 0 <= i < |fields| ==> fields[i].0 == OMITTED || AllClipped(fields[i].1)
  {
    var all := Put(fields, OMITTED, last);
    PutIs(fields, OMITTED, last);
    if j :| 0 <= j < |fields| && fields[j].0 == OMITTED {
      assert all == fields[j := (OMITTED, last)];
    } else {
      assert all == fields + [(OMITTED, last)];
    }
    if FieldsClipped(all) {
      forall i | 0 <= i < |fields| && fields[i].0 != OMITTED
        ensures AllClipped(fields[i].1)
      {
        assert all[i] == fields[i];
      }
    }
  }

  /** Every string that is left has at most 480 of its characters exactly when the summarised
      objects show no longer names: names are the one text that is not cut. */
  lemma {:induction false} ClippedIff(value: Json, depth: nat)
    requires DistinctNames(value)
    ensures AllClipped(Compact(value, depth)) <==> ShownNamesClipped(value, depth)
    decreases value
  {
    forall i | 0 <= i < Arity(value)
      ensures AllClipped(Compact(Child(value, i), depth + 1)) <==> ShownNamesClipped(Child(value, i), depth + 1)
    {
      ClippedIff(Child(value, i), depth + 1);
    }
    match value {
      case JString(s) => TrainingTextIsClipped(s);
      case JObject(fields) =>
        if depth >= DEPTH_LIMIT {
          ObjectSummaryClipped(fields);
        } else {
          KeptClipped(value, depth);
        }
      case JArray(items) =>
        if depth >= DEPTH_LIMIT {
          ArraySummaryClipped(items);
        } else {
          var a := Compact(value, depth);
          ArrayClipped(a.items);
          assert forall i :: 0 <= i < |a.items| ==> a.items[i] == Compact(Child(value, i), depth + 1);
          assert forall i :: 0 <= i < Arity(value) ==> !IsOverwritten(value, i);
        }
      case _ =>
    }
  }

  function Wrap(value: Json): Json { JObject([("a", value)]) }

  lemma WrapClipped(value: Json, depth: nat)
    requires depth < DEPTH_LIMIT
    ensures ShownNamesClipped(Wrap(value), depth) <==> ShownNamesClipped(value, depth + 1)
    ensures DistinctNames(Wrap(value)) <==> DistinctNames(value)
  {
    assert Child(Wrap(value), 0) == value;
  }

  function LongName(): string { seq(TEXT_LIMIT + 1, _ => 'a') }

  lemma LongNameIsNotClipped()
    ensures !IsClipped(LongName())
  {
    var name := LongName();
    forall n
      ensures name != name[..TEXT_LIMIT] + Note(n)
    {
      assert Note(n)[0] == '.';
      assert (name[..TEXT_LIMIT] + Note(n))[TEXT_LIMIT] == Note(n)[0];
    }
  }

  function LongNamed(): Json { JObject([(LongName(), JNull)]) }

  lemma LongNamedIsShown()
    ensures DistinctNames(LongNamed()) && !ShownNamesClipped(LongNamed(), DEPTH_LIMIT)
  {
    LongNameIsNotClipped();
    assert LongNamed().fields[0].0 == LongName();
  }

  /** The value inside `n` objects of one field. */
  function Wrapped(value: Json, n: nat): Json { if n == 0 then value else Wrap(Wrapped(value, n - 1)) }

  /** What wrapping does not change but for the depth, wrapping often does not either. */
  lemma {:induction false} WrappedSame(holds: (Json, nat) -> bool, value: Json, n: nat, depth: nat)
    requires depth + n <= DEPTH_LIMIT
    requires forall v, d: nat {:trigger holds(Wrap(v), d)} :: d < DEPTH_LIMIT ==> holds(Wrap(v), d) == holds(v, d + 1)
    ensures holds(Wrapped(value, n), depth) == holds(value, depth + n)
    decreases n
  {
    if n > 0 {
      assert holds(Wrap(Wrapped(value, n - 1)), depth) == holds(Wrapped(value, n - 1), depth + 1);
      WrappedSame(holds, value, n - 1, depth + 1);
    }
  }

  lemma WrappedClipped(value: Json, n: nat)
    requires n <= DEPTH_LIMIT
    ensures ShownNamesClipped(Wrapped(value, n), 0) <==> ShownNamesClipped(value, n)
    ensures DistinctNames(Wrapped(value, n)) <==> DistinctNames(value)
  {
    var distinct := (v: Json, d: nat) => DistinctNames(v);
    forall v, d: nat | d < DEPTH_LIMIT
      ensures ShownNamesClipped(Wrap(v), d) == ShownNamesClipped(v, d + 1)
      ensures distinct(Wrap(v), d) == distinct(v, d + 1)
    {
      WrapClipped(v, d);
    }
    WrappedSame(ShownNamesClipped, value, n, 0);
    WrappedSame(distinct, value, n, 0);
  }

  /** A name of 481 letters in the fourth object down comes out whole. */
  lemma LongNameComesOutWhole()
    ensures DistinctNames(Wrapped(LongNamed(), 3)) && !AllClipped(Compact(Wrapped(LongNamed(), 3), 0))
  {
    LongNamedIsShown();
    WrappedClipped(LongNamed(), 3);
    ClippedIff(Wrapped(LongNamed(), 3), 0);
  }

  // ---- what is small enough stays as it is ----

  predicate Fits(value: Json, depth: nat)
    decreases value
  {
    && (value.JString? ==> |value.s| <= TEXT_LIMIT)
    && (value.JArray? || value.JObject? ==> depth < DEPTH_LIMIT && Arity(value) <= ITEM_LIMIT)
    && forall i :: 0 <= i < Arity(value) ==> Fits(Child(value, i), depth + 1)
  }

  lemma {:induction false} SmallIsUnchanged(value: Json, depth: nat)
    requires DistinctNames(value) && Fits(value, depth)
    ensures Compact(value, depth) == value
    decreases value
  {
    forall i | 0 <= i < Arity(value)
      ensures Compact(Child(value, i), depth + 1) == Child(value, i)
    {
      SmallIsUnchanged(Child(value, i), depth + 1);
    }
    match value {
      case JObject(fields) =>
        assert Kept(value, 0, depth) == [];
        CompactFieldsAre(value, 0, depth);
        assert forall i :: 0 <= i < |fields| ==> fields[i].1 == Child(value, i);
        assert Kept(value, |fields|, depth) == fields;
      case JArray(items) =>
        assert forall i :: 0 <= i < |items| ==> items[i] == Child(value, i);
        assert Compact(value, depth).items == items;
      case _ =>
    }
  }
}
