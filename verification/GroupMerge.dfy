/** Merging the groups of a list of API operations in place: the elements that share a key and must be merged
    are replaced by one element at the position of the first of them. What the keys are,
    which single elements must be replaced too, and what replaces a group are parameters. */
module GroupMerge {
  import opened Results
  import opened OperationDrafts

  datatype Operation = Operation(draft: Draft, actionName: string)

  type Key = (string, string)

  /** `merge(members, count)` replaces a group when `count` groups are replaced in all. */
  datatype Rules = Rules(key: Operation -> Option<Key>, legacy: Operation -> bool,
                         merge: (seq<Operation>, nat) -> Operation)

  /** The indexes below `n` of the elements with this key, ascending. */
  function Members(r: Rules, ops: seq<Operation>, key: Key, n: nat): (m: seq<nat>)
    requires n <= |ops|
    ensures forall x :: 0 <= x < |m| ==> m[x] < n && r.key(ops[m[x]]) == Some(key)
  {
    if n == 0 then []
    else if r.key(ops[n - 1]) == Some(key) then Members(r, ops, key, n - 1) + [n - 1]
    else Members(r, ops, key, n - 1)
  }

  lemma {:induction false} MembersAscend(r: Rules, ops: seq<Operation>, key: Key, n: nat)
    requires n <= |ops|
    ensures var m := Members(r, ops, key, n);
            && (forall x, y :: 0 <= x < y < |m| ==> m[x] < m[y])
            && (forall i :: 0 <= i < n && r.key(ops[i]) == Some(key) ==> i in m)
  {
    if n > 0 {
      MembersAscend(r, ops, key, n - 1);
    }
  }

  /** Element `i` is a member of its own group, and the first member comes no later. */
  lemma OwnGroup(r: Rules, ops: seq<Operation>, i: nat)
    requires i < |ops| && r.key(ops[i]).Some?
    ensures var m := Members(r, ops, r.key(ops[i]).value, |ops|);
            i in m && m[0] <= i
  {
    MembersAscend(r, ops, r.key(ops[i]).value, |ops|);
  }

  predicate IsMerged(r: Rules, ops: seq<Operation>, members: seq<nat>)
    requires forall x :: 0 <= x < |members| ==> members[x] < |ops|
  {
    |members| > 1 || exists x :: 0 <= x < |members| && r.legacy(ops[members[x]])
  }

  predicate MergedKey(r: Rules, ops: seq<Operation>, key: Key) {
    IsMerged(r, ops, Members(r, ops, key, |ops|))
  }

  function MergedKeys(r: Rules, ops: seq<Operation>): set<Key> {
    set i | 0 <= i < |ops| && r.key(ops[i]).Some? && MergedKey(r, ops, r.key(ops[i]).value) :: r.key(ops[i]).value
  }

  function Pick(ops: seq<Operation>, members: seq<nat>): (picked: seq<Operation>)
    requires forall x :: 0 <= x < |members| ==> members[x] < |ops|
    ensures |picked| == |members| && forall x :: 0 <= x < |members| ==> picked[x] == ops[members[x]]
  {
    seq(|members|, x requires 0 <= x < |members| => ops[members[x]])
  }

  function Replacement(r: Rules, ops: seq<Operation>, key: Key): Operation {
    r.merge(Pick(ops, Members(r, ops, key, |ops|)), |MergedKeys(r, ops)|)
  }

  /** What stands in the result for element `i`: the element itself, the replacement of its
      group if it is the first member, or nothing. */
  function Emit(r: Rules, ops: seq<Operation>, i: nat): seq<Operation>
    requires i < |ops|
  {
    var key := r.key(ops[i]);
    if key.None? || !MergedKey(r, ops, key.value) then [ops[i]]
    else if Members(r, ops, key.value, |ops|)[..1] == [i] then [Replacement(r, ops, key.value)]
    else []
  }

  function Emits(r: Rules, ops: seq<Operation>): (emits: seq<seq<Operation>>)
    ensures |emits| == |ops| && forall i :: 0 <= i < |ops| ==> emits[i] == Emit(r, ops, i)
  {
    seq(|ops|, i requires 0 <= i < |ops| => Emit(r, ops, i))
  }

  function FlattenUpTo(parts: seq<seq<Operation>>, n: nat): seq<Operation>
    requires n <= |parts|
  {
    if n == 0 then [] else FlattenUpTo(parts, n - 1) + parts[n - 1]
  }

  function Merged(r: Rules, ops: seq<Operation>): seq<Operation> { FlattenUpTo(Emits(r, ops), |ops|) }

  // ---- the loops ----

  lemma MembersStep(r: Rules, ops: seq<Operation>, n: nat)
    requires n < |ops|
    ensures forall k :: Members(r, ops, k, n + 1)
                     == if r.key(ops[n]) == Some(k) then Members(r, ops, k, n) + [n] else Members(r, ops, k, n)
  {
  }

  method BuildGroups(r: Rules, ops: seq<Operation>) returns (groups: map<Key, seq<nat>>)
    ensures forall k :: k in groups <==> Members(r, ops, k, |ops|) != []
    ensures forall k :: k in groups ==> groups[k] == Members(r, ops, k, |ops|)
  {
    groups := map[];
    for index := 0 to |ops|
      invariant forall k :: k in groups <==> Members(r, ops, k, index) != []
      invariant forall k :: k in groups ==> groups[k] == Members(r, ops, k, index)
    {
      var key := r.key(ops[index]);
      MembersStep(r, ops, index);
      if key.Some? {
        var known := if key.value in groups then groups[key.value] else [];
        groups := groups[key.value := known + [index]];
      }
    }
  }

  lemma {:induction false} Singletons(parts: seq<seq<Operation>>, ops: seq<Operation>, n: nat)
    requires n <= |parts| == |ops| && forall i :: 0 <= i < n ==> parts[i] == [ops[i]]
    ensures FlattenUpTo(parts, n) == ops[..n]
  {
    if n > 0 {
      Singletons(parts, ops, n - 1);
      assert ops[..n] == ops[..n - 1] + [ops[n - 1]];
    }
  }

  lemma KeysOfGroups(r: Rules, ops: seq<Operation>, key: Key)
    ensures key in MergedKeys(r, ops) <==> Members(r, ops, key, |ops|) != [] && MergedKey(r, ops, key)
  {
    var m := Members(r, ops, key, |ops|);
    if m != [] {
      assert r.key(ops[m[0]]) == Some(key);
    }
    if key in MergedKeys(r, ops) {
      var i :| 0 <= i < |ops| && r.key(ops[i]) == Some(key);
      OwnGroup(r, ops, i);
    }
  }

  lemma GroupFacts(r: Rules, ops: seq<Operation>, groups: map<Key, seq<nat>>, mergeKeys: set<Key>)
    requires forall k :: k in groups <==> Members(r, ops, k, |ops|) != []
    requires forall k :: k in groups ==> groups[k] == Members(r, ops, k, |ops|)
    requires forall k :: k in mergeKeys <==> k in groups && MergedKey(r, ops, k)
    ensures mergeKeys == MergedKeys(r, ops)
    ensures forall i :: 0 <= i < |ops| && r.key(ops[i]).Some? ==>
              var k := r.key(ops[i]).value;
              k in groups && groups[k] != [] && groups[k][0] <= i && (k in mergeKeys <==> MergedKey(r, ops, k))
  {
    forall k
      ensures k in mergeKeys <==> k in MergedKeys(r, ops)
    {
      KeysOfGroups(r, ops, k);
    }
    forall i | 0 <= i < |ops| && r.key(ops[i]).Some?
      ensures var k := r.key(ops[i]).value;
              k in groups && groups[k] != [] && groups[k][0] <= i
    {
      OwnGroup(r, ops, i);
    }
  }

  lemma EmitCase(r: Rules, ops: seq<Operation>, groups: map<Key, seq<nat>>, mergeKeys: set<Key>, i: nat)
    requires forall k :: k in groups <==> Members(r, ops, k, |ops|) != []
    requires forall k :: k in groups ==> groups[k] == Members(r, ops, k, |ops|)
    requires forall k :: k in mergeKeys <==> k in groups && MergedKey(r, ops, k)
    requires forall k :: k in groups ==> groups[k] != [] && forall x :: 0 <= x < |groups[k]| ==> groups[k][x] < |ops|
    requires i < |ops|
    requires Grouped(r, ops, groups, mergeKeys)
    ensures Emits(r, ops)[i] == GroupEmit(r, ops, groups, mergeKeys, i)
  {
    GroupFacts(r, ops, groups, mergeKeys);
    assert Emits(r, ops)[i] == Emit(r, ops, i);
  }

  /** The loops of the collapse function. */
  method MergeGroups(r: Rules, ops: seq<Operation>) returns (out: seq<Operation>)
    ensures out == Merged(r, ops)
  {
    var groups := BuildGroups(r, ops);
    var mergeKeys := set k | k in groups && IsMerged(r, ops, groups[k]);
    GroupFacts(r, ops, groups, mergeKeys);
    ghost var emits := Emits(r, ops);
    if mergeKeys == {} {
      Singletons(emits, ops, |ops|);
      assert ops[..|ops|] == ops;
      return ops;
    }
    forall i | 0 <= i < |ops|
      ensures emits[i] == GroupEmit(r, ops, groups, mergeKeys, i)
    {
      EmitCase(r, ops, groups, mergeKeys, i);
    }
    out := MergeLoop(r, ops, groups, mergeKeys, emits);
  }

  /** The groups are not empty, each starts with an element of its key, and no element comes
      before its group starts. */
  ghost predicate Grouped(r: Rules, ops: seq<Operation>, groups: map<Key, seq<nat>>, mergeKeys: set<Key>) {
    && mergeKeys <= groups.Keys
    && (forall k :: k in groups ==> groups[k] != [] && forall x :: 0 <= x < |groups[k]| ==> groups[k][x] < |ops|)
    && (forall k :: k in groups ==> r.key(ops[groups[k][0]]) == Some(k))
    && (forall i :: 0 <= i < |ops| && r.key(ops[i]).Some? && r.key(ops[i]).value in mergeKeys ==>
          groups[r.key(ops[i]).value][0] <= i)
  }

  function GroupEmit(r: Rules, ops: seq<Operation>, groups: map<Key, seq<nat>>, mergeKeys: set<Key>,
                     i: nat): seq<Operation>
    requires Grouped(r, ops, groups, mergeKeys) && i < |ops|
  {
    var key := r.key(ops[i]);
    if key.Some? && key.value in mergeKeys then
      if groups[key.value][0] == i then [r.merge(Pick(ops, groups[key.value]), |mergeKeys|)] else []
    else [ops[i]]
  }

  method MergeLoop(r: Rules, ops: seq<Operation>, groups: map<Key, seq<nat>>, mergeKeys: set<Key>,
                   ghost emits: seq<seq<Operation>>) returns (out: seq<Operation>)
    requires Grouped(r, ops, groups, mergeKeys) && |emits| == |ops|
    requires forall i :: 0 <= i < |ops| ==> emits[i] == GroupEmit(r, ops, groups, mergeKeys, i)
    ensures out == FlattenUpTo(emits, |ops|)
  {
    var genericByKey := map k | k in mergeKeys :: r.merge(Pick(ops, groups[k]), |mergeKeys|);
    var emitted: set<Key> := {};
    out := [];
    for index := 0 to |ops|
      invariant out == FlattenUpTo(emits, index)
      invariant Emitted(groups, mergeKeys, emitted, index)
    {
      assert emits[index] == GroupEmit(r, ops, groups, mergeKeys, index);
      EmittedStep(r, ops, groups, mergeKeys, emitted, index);
      var key := r.key(ops[index]);
      if key.Some? && key.value in mergeKeys {
        if key.value !in emitted {
          emitted := emitted + {key.value};
          out := out + [genericByKey[key.value]];
        }
      } else {
        out := out + [ops[index]];
      }
    }
  }

  /** The merged groups that start before the index. */
  ghost predicate Emitted(groups: map<Key, seq<nat>>, mergeKeys: set<Key>, emitted: set<Key>, index: nat) {
    forall k :: k in emitted <==> k in mergeKeys && k in groups && groups[k] != [] && groups[k][0] < index
  }

  lemma EmittedStep(r: Rules, ops: seq<Operation>, groups: map<Key, seq<nat>>, mergeKeys: set<Key>, emitted: set<Key>,
                    index: nat)
    requires Grouped(r, ops, groups, mergeKeys) && index < |ops| && Emitted(groups, mergeKeys, emitted, index)
    ensures var key := r.key(ops[index]);
            if key.Some? && key.value in mergeKeys then
              && Emitted(groups, mergeKeys, emitted + {key.value}, index + 1)
              && (key.value in emitted ==> emitted + {key.value} == emitted)
              && (key.value in emitted <==> groups[key.value][0] != index)
            else Emitted(groups, mergeKeys, emitted, index + 1)
  {
    assert forall k :: k in mergeKeys && groups[k][0] == index ==> r.key(ops[index]) == Some(k);
  }

  // ---- positions ----

  /** The parts that something stands for in the result, ascending. */
  function Origins(parts: seq<seq<Operation>>, n: nat): seq<nat>
    requires n <= |parts|
  {
    if n == 0 then [] else Origins(parts, n - 1) + (if parts[n - 1] == [] then [] else [n - 1])
  }

  /** When every part holds at most one element, every element of the result stands for one
      part, in the same order. */
  lemma {:induction false} Positions(parts: seq<seq<Operation>>, n: nat)
    requires n <= |parts| && forall i :: 0 <= i < |parts| ==> |parts[i]| <= 1
    ensures var o := Origins(parts, n);
            var out := FlattenUpTo(parts, n);
            && |o| == |out|
            && (forall p :: 0 <= p < |o| ==> o[p] < n && parts[o[p]] == [out[p]])
            && (forall p, q :: 0 <= p < q < |o| ==> o[p] < o[q])
  {
    if n > 0 {
      Positions(parts, n - 1);
    }
  }

  /** Every part that holds an element stands for one. */
  lemma {:induction false} PositionOf(parts: seq<seq<Operation>>, n: nat, i: nat)
    requires i < n <= |parts| && parts[i] != []
    ensures i in Origins(parts, n)
  {
    if i < n - 1 {
      PositionOf(parts, n - 1, i);
    }
  }

  lemma EmitsAtMostOne(r: Rules, ops: seq<Operation>, i: nat)
    requires i < |ops|
    ensures |Emit(r, ops, i)| <= 1
  {
  }

  lemma ResultPositions(r: Rules, ops: seq<Operation>)
    ensures var o := Origins(Emits(r, ops), |ops|);
            var out := Merged(r, ops);
            && |o| == |out|
            && (forall p :: 0 <= p < |o| ==> o[p] < |ops| && Emit(r, ops, o[p]) == [out[p]])
            && (forall p, q :: 0 <= p < q < |o| ==> o[p] < o[q])
  {
    forall i | 0 <= i < |ops|
      ensures |Emits(r, ops)[i]| <= 1
    {
      EmitsAtMostOne(r, ops, i);
    }
    Positions(Emits(r, ops), |ops|);
  }

  /** The operation is in no merged group, or the first one of its group. */
  ghost predicate HasPlace(r: Rules, ops: seq<Operation>, i: nat)
    requires i < |ops|
  {
    var key := r.key(ops[i]);
    key.Some? && key.value in MergedKeys(r, ops) ==> forall j :: 0 <= j < i ==> r.key(ops[j]) != key
  }

  lemma PlaceIsKept(r: Rules, ops: seq<Operation>, i: nat)
    requires i < |ops| && HasPlace(r, ops, i)
    ensures i in Origins(Emits(r, ops), |ops|)
  {
    var key := r.key(ops[i]);
    if key.Some? {
      KeysOfGroups(r, ops, key.value);
      OwnGroup(r, ops, i);
      var m := Members(r, ops, key.value, |ops|);
      assert r.key(ops[m[0]]) == key;
      assert MergedKey(r, ops, key.value) ==> m[..1] == [i];
    }
    assert Emits(r, ops)[i] == Emit(r, ops, i) != [];
    PositionOf(Emits(r, ops), |ops|, i);
  }

  // ---- merging twice ----

  /** Replacing a group keeps its key. */
  ghost predicate KeepsKeys(r: Rules, ops: seq<Operation>) {
    forall key :: key in MergedKeys(r, ops) ==> r.key(Replacement(r, ops, key)) == Some(key)
  }

  ghost predicate DistinctKeys(r: Rules, ops: seq<Operation>) {
    forall p, q :: 0 <= p < q < |ops| && r.key(ops[p]).Some? ==> r.key(ops[p]) != r.key(ops[q])
  }

  /** The key of an element of the result is the key of the element it stands for. */
  lemma EmittedKey(r: Rules, ops: seq<Operation>, i: nat, e: Operation)
    requires i < |ops| && Emit(r, ops, i) == [e] && KeepsKeys(r, ops)
    ensures r.key(e) == r.key(ops[i])
    ensures r.key(ops[i]).Some? ==>
              var m := Members(r, ops, r.key(ops[i]).value, |ops|);
              m != [] && m[0] == i
              && (MergedKey(r, ops, r.key(ops[i]).value) ==> e == Replacement(r, ops, r.key(ops[i]).value))
              && (!MergedKey(r, ops, r.key(ops[i]).value) ==> e == ops[i] && !r.legacy(e))
  {
    var key := r.key(ops[i]);
    if key.Some? {
      OwnGroup(r, ops, i);
      KeysOfGroups(r, ops, key.value);
      if !MergedKey(r, ops, key.value) {
        UnmergedIsPlain(r, ops, key.value, i);
      }
    }
  }

  lemma UnmergedIsPlain(r: Rules, ops: seq<Operation>, key: Key, i: nat)
    requires i < |ops| && !MergedKey(r, ops, key) && i in Members(r, ops, key, |ops|)
    ensures !r.legacy(ops[i])
  {
    var m := Members(r, ops, key, |ops|);
    var x :| 0 <= x < |m| && m[x] == i;
  }

  lemma MergedIsDistinct(r: Rules, ops: seq<Operation>)
    requires KeepsKeys(r, ops)
    ensures DistinctKeys(r, Merged(r, ops))
  {
    var out := Merged(r, ops);
    var o := Origins(Emits(r, ops), |ops|);
    ResultPositions(r, ops);
    forall p, q | 0 <= p < q < |out| && r.key(out[p]).Some?
      ensures r.key(out[p]) != r.key(out[q])
    {
      EmittedKey(r, ops, o[p], out[p]);
      EmittedKey(r, ops, o[q], out[q]);
    }
  }

  lemma SingleMember(r: Rules, ops: seq<Operation>, i: nat)
    requires DistinctKeys(r, ops) && i < |ops| && r.key(ops[i]).Some?
    ensures Members(r, ops, r.key(ops[i]).value, |ops|) == [i]
  {
    var m := Members(r, ops, r.key(ops[i]).value, |ops|);
    MembersAscend(r, ops, r.key(ops[i]).value, |ops|);
    assert i in m;
    TwoMembers(r, ops, r.key(ops[i]).value);
    if |m| > 1 {
      assert false;
    }
  }

  lemma TwoMembers(r: Rules, ops: seq<Operation>, key: Key)
    ensures var m := Members(r, ops, key, |ops|);
            |m| > 1 ==> m[0] < m[1] && r.key(ops[m[0]]) == r.key(ops[m[1]]) == Some(key)
  {
    MembersAscend(r, ops, key, |ops|);
  }

  function Once(r: Rules, op: Operation, count: nat): Operation {
    if r.key(op).Some? && r.legacy(op) then r.merge([op], count) else op
  }

  lemma EmitDistinct(r: Rules, ops: seq<Operation>, i: nat)
    requires DistinctKeys(r, ops) && i < |ops|
    ensures Emit(r, ops, i) == [Once(r, ops[i], |MergedKeys(r, ops)|)]
  {
    if r.key(ops[i]).Some? {
      SingleMember(r, ops, i);
      assert Pick(ops, [i]) == [ops[i]];
      var one := [i];
      assert r.legacy(ops[i]) ==> r.legacy(ops[one[0]]);
    }
  }

  /** With distinct keys, every element is kept or replaced where it stands. */
  lemma MergeDistinct(r: Rules, ops: seq<Operation>)
    requires DistinctKeys(r, ops)
    ensures |Merged(r, ops)| == |ops|
    ensures forall i :: 0 <= i < |ops| ==> Merged(r, ops)[i] == Once(r, ops[i], |MergedKeys(r, ops)|)
  {
    var count := |MergedKeys(r, ops)|;
    var mapped := seq(|ops|, i requires 0 <= i < |ops| => Once(r, ops[i], count));
    forall i | 0 <= i < |ops|
      ensures Emits(r, ops)[i] == [mapped[i]]
    {
      EmitDistinct(r, ops, i);
    }
    Singletons(Emits(r, ops), mapped, |ops|);
    assert mapped[..|ops|] == mapped;
  }

  /** Every replacement stands somewhere in the result. */
  lemma ReplacementStands(r: Rules, ops: seq<Operation>, key: Key) returns (p: nat)
    requires KeepsKeys(r, ops) && key in MergedKeys(r, ops)
    ensures p < |Merged(r, ops)| && Merged(r, ops)[p] == Replacement(r, ops, key)
    ensures r.key(Merged(r, ops)[p]) == Some(key)
  {
    var o := Origins(Emits(r, ops), |ops|);
    ResultPositions(r, ops);
    KeysOfGroups(r, ops, key);
    var m := Members(r, ops, key, |ops|);
    var i := m[0];
    assert m[..1] == [i];
    assert Emit(r, ops, i) == [Replacement(r, ops, key)];
    PositionOf(Emits(r, ops), |ops|, i);
    p :| 0 <= p < |o| && o[p] == i;
    assert [Merged(r, ops)[p]] == [Replacement(r, ops, key)];
  }

  /** An element of the result that must be replaced is itself a replacement. */
  lemma LegacyIsReplacement(r: Rules, ops: seq<Operation>, p: nat)
    requires KeepsKeys(r, ops) && p < |Merged(r, ops)|
    requires r.key(Merged(r, ops)[p]).Some? && r.legacy(Merged(r, ops)[p])
    ensures var key := r.key(Merged(r, ops)[p]).value;
            key in MergedKeys(r, ops) && Merged(r, ops)[p] == Replacement(r, ops, key)
  {
    var out := Merged(r, ops);
    var o := Origins(Emits(r, ops), |ops|);
    ResultPositions(r, ops);
    EmittedKey(r, ops, o[p], out[p]);
    KeysOfGroups(r, ops, r.key(out[p]).value);
  }

  /** The groups a second pass replaces: those whose replacement must itself be replaced. */
  lemma SecondMergedKeys(r: Rules, ops: seq<Operation>, key: Key)
    requires KeepsKeys(r, ops)
    ensures key in MergedKeys(r, Merged(r, ops))
       <==> key in MergedKeys(r, ops) && r.legacy(Replacement(r, ops, key))
  {
    var out := Merged(r, ops);
    MergedIsDistinct(r, ops);
    KeysOfGroups(r, out, key);
    var m := Members(r, out, key, |out|);
    if m != [] {
      SingleMember(r, out, m[0]);
      assert m == [m[0]];
      assert MergedKey(r, out, key) <==> r.legacy(out[m[0]]);
      if r.legacy(out[m[0]]) {
        LegacyIsReplacement(r, ops, m[0]);
      }
    }
    if key in MergedKeys(r, ops) {
      var p := ReplacementStands(r, ops, key);
      SingleMember(r, out, p);
      assert m == [p];
    }
  }

  /** Merging a second time changes nothing if and only if every replacement that must itself
      be replaced is replaced by itself. */
  lemma MergedTwiceIff(r: Rules, ops: seq<Operation>)
    requires KeepsKeys(r, ops)
    ensures Merged(r, Merged(r, ops)) == Merged(r, ops)
       <==> forall key :: key in MergedKeys(r, ops) && r.legacy(Replacement(r, ops, key)) ==>
              r.merge([Replacement(r, ops, key)], |MergedKeys(r, Merged(r, ops))|) == Replacement(r, ops, key)
  {
    var out := Merged(r, ops);
    var count := |MergedKeys(r, out)|;
    MergedIsDistinct(r, ops);
    MergeDistinct(r, out);
    forall p | 0 <= p < |out| && r.key(out[p]).Some? && r.legacy(out[p])
      ensures r.key(out[p]).value in MergedKeys(r, ops) && out[p] == Replacement(r, ops, r.key(out[p]).value)
    {
      LegacyIsReplacement(r, ops, p);
    }
    forall key | key in MergedKeys(r, ops) && r.legacy(Replacement(r, ops, key)) && Merged(r, out) == out
      ensures r.merge([Replacement(r, ops, key)], count) == Replacement(r, ops, key)
    {
      var p := ReplacementStands(r, ops, key);
      assert out[p] == Once(r, out[p], count);
    }
  }
}
