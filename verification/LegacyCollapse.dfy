/** Merging legacy GraphQL operations whenever an API configuration is loaded:
    `collapse_legacy_graphql_default_body_operations` and `normalize_config`. */
module LegacyCollapse {
  import opened Results
  import opened Sequences
  import opened Text
  import opened OperationDrafts
  import opened GroupMerge

  // ---- the rules ----

  predicate SupportsGraphqlBody(d: Draft) {
    IsPost(d.method_) && (d.bodyRequired || d.defaultBody.Some?) && GraphqlSignal(d.path, d.defaultHeaders)
  }

  /** `graphql_operation_group_key` */
  function GroupKey(d: Draft): Option<Key> {
    if SupportsGraphqlBody(d) then Some((Upper(d.method_), d.path)) else None
  }

  function BaseId(readOnly: bool): string { if readOnly then "graphql-query" else "graphql-request" }

  predicate IsGenericId(id: string) { SanitizeId(id) == BaseId(true) || SanitizeId(id) == BaseId(false) }

  /** A single operation that is replaced all the same. */
  predicate IsLegacy(d: Draft) { d.defaultBody.Some? || !IsGenericId(d.id) }

  predicate NontrivialSlug(path: string) { SanitizeId(path) != "" && SanitizeId(path) != GRAPHQL }

  function GenericId(path: string, readOnly: bool, count: nat): string {
    if count > 1 && NontrivialSlug(path) then BaseId(readOnly) + "-" + SanitizeId(path) else BaseId(readOnly)
  }

  function GenericName(readOnly: bool): string { if readOnly then "GraphQL query" else "GraphQL request" }

  /** The id of an API, and the two fixed texts that describe a replacement: of those nothing
      matters but that they have no white space at their ends. */
  datatype Api = Api(id: string, describe: bool -> string)

  ghost predicate ApiOk(api: Api) { forall readOnly :: IsTrimmed(api.describe(readOnly)) }

  function Template(api: Api, t: Draft, readOnly: bool, count: nat): Draft {
    Draft(GenericId(t.path, readOnly, count), GenericName(readOnly), t.method_, t.path, api.describe(readOnly),
          readOnly, true, t.defaultHeaders, t.defaultQuery, [], true, None)
  }

  /** `generic_graphql_operation_from_group` */
  function Generic(api: Api, t: Draft, readOnly: bool, count: nat): Draft {
    Normalized(Template(api, t, readOnly, count))
  }

  /** `build_action_name` */
  function ActionName(apiId: string, operationId: string): string {
    "api__" + SanitizeId(apiId) + "__" + SanitizeId(operationId)
  }

  predicate AllReadOnly(members: seq<Operation>) { forall x :: 0 <= x < |members| ==> members[x].draft.readOnly }

  function GenericOperation(api: Api, first: Operation, readOnly: bool, count: nat): Operation {
    var draft := Generic(api, first.draft, readOnly, count);
    Operation(draft, ActionName(api.id, draft.id))
  }

  const NO_OPERATION :=
    Operation(Draft("", "", "", "", "", false, false, map[], map[], [], false, None), "")

  /** No group is empty; `NO_OPERATION` only completes the function. */
  function CollapseRules(api: Api): Rules {
    Rules(
      (op: Operation) => GroupKey(op.draft),
      (op: Operation) => IsLegacy(op.draft),
      (members: seq<Operation>, count: nat) =>
        if members == [] then NO_OPERATION else GenericOperation(api, members[0], AllReadOnly(members), count))
  }

  // ---- one configuration ----

  function NormalizedOperation(op: Operation): Operation { op.(draft := Normalized(op.draft)) }

  function NormalizeDrafts(ops: seq<Operation>): seq<Operation> { Map(NormalizedOperation, ops) }

  function NormalizedConfig(api: Api, ops: seq<Operation>): seq<Operation> {
    Merged(CollapseRules(api), NormalizeDrafts(ops))
  }

  /** `normalize_config`, for the operations of a configuration. */
  method NormalizeConfig(api: Api, original: seq<Operation>) returns (ops: seq<Operation>)
    ensures ops == NormalizedConfig(api, original)
  {
    var normalized := NormalizeEach(original);
    ops := MergeGroups(CollapseRules(api), normalized);
  }

  method NormalizeEach(original: seq<Operation>) returns (normalized: seq<Operation>)
    ensures normalized == NormalizeDrafts(original)
  {
    normalized := [];
    ghost var change := NormalizedOperation;
    for i := 0 to |original|
      invariant normalized == Map(change, original[..i])
    {
      var op := NormalizeOne(original[i]);
      normalized := normalized + [op];
      MapStep(change, original, i);
    }
    assert original[..|original|] == original;
  }

  method NormalizeOne(op: Operation) returns (normalized: Operation)
    ensures normalized == NormalizedOperation(op)
  {
    var draft := NormalizeOperationDraft(op.draft);
    normalized := op.(draft := draft);
  }

  // ---- the replacement of a group ----

  /** What holds of a normalised draft that belongs to a group. */
  predicate GroupDraft(t: Draft) {
    && CleanMethod(t.method_) == t.method_ && "/" <= t.path
    && IsPost(t.method_) && GraphqlSignal(t.path, t.defaultHeaders)
  }

  lemma BaseIdIsSlug(readOnly: bool)
    ensures IsSlug(BaseId(readOnly)) && |BaseId(readOnly)| == if readOnly then 13 else 15
  {
  }

  lemma SlugWithSuffix(base: string, slug: string)
    requires IsSlug(base) && base != "" && IsSlug(slug) && slug != ""
    ensures IsSlug(base + "-" + slug)
  {
  }

  lemma GenericIdIsSlug(path: string, readOnly: bool, count: nat)
    ensures IsSlug(GenericId(path, readOnly, count))
  {
    BaseIdIsSlug(readOnly);
    if count > 1 && NontrivialSlug(path) {
      SlugWithSuffix(BaseId(readOnly), SanitizeId(path));
    }
  }

  lemma SuffixedIsNotGeneric(slug: string, readOnly: bool)
    requires slug != ""
    ensures var id := BaseId(readOnly) + "-" + slug; id != BaseId(true) && id != BaseId(false)
  {
    var id := BaseId(readOnly) + "-" + slug;
    BaseIdIsSlug(true);
    BaseIdIsSlug(false);
    assert id[8] == BaseId(readOnly)[8] == if readOnly then 'q' else 'r';
    assert BaseId(false)[8] == 'r';
  }

  /** The generated id is generic exactly when it has no slug. */
  lemma GenericIdKind(path: string, readOnly: bool, count: nat)
    ensures IsGenericId(GenericId(path, readOnly, count)) <==> !(count > 1 && NontrivialSlug(path))
    ensures count > 1 && NontrivialSlug(path) ==> GenericId(path, readOnly, count) != BaseId(readOnly)
  {
    GenericIdIsSlug(path, readOnly, count);
    if count > 1 && NontrivialSlug(path) {
      SuffixedIsNotGeneric(SanitizeId(path), readOnly);
    }
  }

  lemma GenericNames(readOnly: bool)
    ensures GenericName(readOnly) != "" && IsTrimmed(GenericName(readOnly))
  {
    var name := GenericName(readOnly);
    assert name[0] == 'G' && name[|name| - 1] == if readOnly then 'y' else 't';
  }

  lemma TemplateIsClean(api: Api, t: Draft, readOnly: bool, count: nat)
    requires ApiOk(api) && GroupDraft(t)
    ensures IsClean(Template(api, t, readOnly, count))
  {
    GenericIdIsSlug(t.path, readOnly, count);
    GenericNames(readOnly);
  }

  /** The replacement is the template with a content type and a body parameter. */
  lemma GenericShape(api: Api, t: Draft, readOnly: bool, count: nat)
    requires ApiOk(api) && GroupDraft(t)
    ensures Generic(api, t, readOnly, count) == PostForm(Template(api, t, readOnly, count))
    ensures GroupDraft(Generic(api, t, readOnly, count))
    ensures Normalized(Generic(api, t, readOnly, count)) == Generic(api, t, readOnly, count)
  {
    var d := Template(api, t, readOnly, count);
    TemplateIsClean(api, t, readOnly, count);
    CleanFixed(d);
    PostIsNotBodyless(d);
    assert GraphqlContract(d) == PostForm(d);
    PostFormFacts(d);
    NormalizedStable(d);
  }

  lemma ReplacedOnce(api: Api, t: Draft, readOnly: bool, count: nat)
    requires ApiOk(api) && GroupDraft(t)
    ensures var g := Generic(api, t, readOnly, count);
            && GroupKey(g) == Some((Upper(t.method_), t.path))
            && g.readOnly == readOnly && g.id == GenericId(t.path, readOnly, count) && g.path == t.path
            && (IsLegacy(g) <==> count > 1 && NontrivialSlug(t.path))
  {
    GenericShape(api, t, readOnly, count);
    GenericIdKind(t.path, readOnly, count);
    PostFormIgnoresId(Template(api, t, readOnly, count));
  }

  lemma PostFormIgnoresId(d: Draft)
    ensures var e := PostForm(d);
            && e.id == d.id && e.path == d.path && e.method_ == d.method_ && e.readOnly == d.readOnly
            && e.defaultBody == d.defaultBody && e.bodyRequired && e.defaultQuery == d.defaultQuery
  {
  }

  /** Replacing a replacement gives the same draft exactly when the id is the same. */
  lemma ReplacedTwice(api: Api, t: Draft, readOnly: bool, count: nat, again: nat)
    requires ApiOk(api) && GroupDraft(t)
    ensures Generic(api, Generic(api, t, readOnly, count), readOnly, again) == Generic(api, t, readOnly, count)
       <==> GenericId(t.path, readOnly, again) == GenericId(t.path, readOnly, count)
  {
    var g := Generic(api, t, readOnly, count);
    var d := Template(api, t, readOnly, count);
    GenericShape(api, t, readOnly, count);
    GenericShape(api, g, readOnly, again);
    PostFormIgnoresId(d);
    PostFormIgnoresId(Template(api, g, readOnly, again));
    EnsuredHeader(t.defaultHeaders);
    if GenericId(t.path, readOnly, again) == GenericId(t.path, readOnly, count) {
      assert Template(api, g, readOnly, again) == d.(defaultHeaders := g.defaultHeaders);
    }
  }

  // ---- the result of collapsing ----

  /** The drafts are normalised, but for names that a second pass would change. */
  predicate AllNormalized(ops: seq<Operation>) {
    forall i :: 0 <= i < |ops| ==> NormalUpToName(ops[i].draft)
  }

  lemma NormalizedMember(d: Draft)
    requires NormalUpToName(d) && GroupKey(d).Some?
    ensures GroupDraft(d)
  {
    NormalizedParts(d);
    DraftContract(d);
  }

  lemma FirstMember(api: Api, ops: seq<Operation>, key: Key)
    requires ApiOk(api) && AllNormalized(ops) && key in MergedKeys(CollapseRules(api), ops)
    ensures var m := Members(CollapseRules(api), ops, key, |ops|);
            m != [] && GroupDraft(ops[m[0]].draft) && GroupKey(ops[m[0]].draft) == Some(key)
  {
    var r := CollapseRules(api);
    KeysOfGroups(r, ops, key);
    var first := ops[Members(r, ops, key, |ops|)[0]];
    assert r.key(first) == GroupKey(first.draft) == Some(key);
    NormalizedMember(first.draft);
  }

  lemma ReadOnlyGroup(r: Rules, ops: seq<Operation>, key: Key)
    ensures AllReadOnly(Pick(ops, Members(r, ops, key, |ops|)))
       <==> forall i :: 0 <= i < |ops| && r.key(ops[i]) == Some(key) ==> ops[i].draft.readOnly
  {
    var m := Members(r, ops, key, |ops|);
    var picked := Pick(ops, m);
    MembersAscend(r, ops, key, |ops|);
    if AllReadOnly(picked) {
      forall i | 0 <= i < |ops| && r.key(ops[i]) == Some(key)
        ensures ops[i].draft.readOnly
      {
        var x :| 0 <= x < |m| && m[x] == i;
        assert picked[x] == ops[i];
      }
    }
  }

  lemma ReplacementIs(api: Api, ops: seq<Operation>, key: Key)
    requires Members(CollapseRules(api), ops, key, |ops|) != []
    ensures var r := CollapseRules(api);
            var m := Members(r, ops, key, |ops|);
            Replacement(r, ops, key)
            == GenericOperation(api, ops[m[0]], AllReadOnly(Pick(ops, m)), |MergedKeys(r, ops)|)
  {
  }

  /** The replacement of a merged group: it keeps the key, is read-only exactly when all
      members are, and must itself be replaced when its id carries a slug. */
  lemma GroupReplacement(api: Api, ops: seq<Operation>, key: Key)
    requires ApiOk(api) && AllNormalized(ops) && key in MergedKeys(CollapseRules(api), ops)
    ensures var r := CollapseRules(api);
            var op := Replacement(r, ops, key);
            && r.key(op) == Some(key)
            && (op.draft.readOnly <==>
                forall i :: 0 <= i < |ops| && r.key(ops[i]) == Some(key) ==> ops[i].draft.readOnly)
            && (r.legacy(op) <==> |MergedKeys(r, ops)| > 1 && NontrivialSlug(key.1))
  {
    var r := CollapseRules(api);
    var m := Members(r, ops, key, |ops|);
    FirstMember(api, ops, key);
    ReplacementIs(api, ops, key);
    ReadOnlyGroup(r, ops, key);
    var op := Replacement(r, ops, key);
    ReplacedOnce(api, ops[m[0]].draft, AllReadOnly(Pick(ops, m)), |MergedKeys(r, ops)|);
    assert r.key(op) == GroupKey(op.draft) && r.legacy(op) == IsLegacy(op.draft);
    KeyPath(ops[m[0]].draft, key);
  }

  lemma KeyPath(d: Draft, key: Key)
    requires GroupKey(d) == Some(key)
    ensures key == (Upper(d.method_), d.path)
  {
  }

  lemma CollapseKeepsKeys(api: Api, ops: seq<Operation>)
    requires ApiOk(api) && AllNormalized(ops)
    ensures KeepsKeys(CollapseRules(api), ops)
  {
    var r := CollapseRules(api);
    forall key | key in MergedKeys(r, ops)
      ensures r.key(Replacement(r, ops, key)) == Some(key)
    {
      GroupReplacement(api, ops, key);
    }
  }

  /** What collapsing does: there are ascending positions such that every operation of the
      result is the operation at its position, or, at the position of the first member of a
      merged group, the replacement of the group; no two share a group; and nothing is lost,
      neither an operation outside the merged groups nor one of these groups. */
  lemma CollapseResult(api: Api, ops: seq<Operation>) returns (at: seq<nat>)
    requires ApiOk(api) && AllNormalized(ops)
    ensures var r := CollapseRules(api);
            var out := Merged(r, ops);
            && |at| == |out| && (forall p, q :: 0 <= p < q < |at| ==> at[p] < at[q])
            && (forall p :: 0 <= p < |at| ==> at[p] < |ops| && r.key(out[p]) == r.key(ops[at[p]]))
            && (forall p :: 0 <= p < |at| && !(r.key(out[p]).Some? && r.key(out[p]).value in MergedKeys(r, ops)) ==>
                  out[p] == ops[at[p]])
            && (forall p :: 0 <= p < |at| && r.key(out[p]).Some? && r.key(out[p]).value in MergedKeys(r, ops) ==>
                  && out[p] == Replacement(r, ops, r.key(out[p]).value)
                  && forall i :: 0 <= i < at[p] ==> r.key(ops[i]) != r.key(out[p]))
            && DistinctKeys(r, out)
    ensures forall i :: 0 <= i < |ops| && HasPlace(CollapseRules(api), ops, i) ==> i in at
  {
    var r := CollapseRules(api);
    var out := Merged(r, ops);
    CollapseKeepsKeys(api, ops);
    at := Origins(Emits(r, ops), |ops|);
    forall i | 0 <= i < |ops| && HasPlace(r, ops, i)
      ensures i in at
    {
      PlaceIsKept(r, ops, i);
    }
    ResultPositions(r, ops);
    MergedIsDistinct(r, ops);
    forall p | 0 <= p < |at|
      ensures r.key(out[p]) == r.key(ops[at[p]])
      ensures r.key(out[p]).Some? && r.key(out[p]).value in MergedKeys(r, ops) ==>
                && out[p] == Replacement(r, ops, r.key(out[p]).value)
                && forall i :: 0 <= i < at[p] ==> r.key(ops[i]) != r.key(out[p])
      ensures !(r.key(out[p]).Some? && r.key(out[p]).value in MergedKeys(r, ops)) ==> out[p] == ops[at[p]]
    {
      EmittedAt(r, ops, at[p], out[p]);
    }
  }

  lemma EmittedAt(r: Rules, ops: seq<Operation>, i: nat, e: Operation)
    requires i < |ops| && Emit(r, ops, i) == [e] && KeepsKeys(r, ops)
    ensures r.key(e) == r.key(ops[i])
    ensures r.key(e).None? ==> e == ops[i]
    ensures r.key(e).Some? ==>
              (if r.key(e).value in MergedKeys(r, ops) then e == Replacement(r, ops, r.key(e).value) else e == ops[i])
              && forall k :: 0 <= k < i && r.key(e).value in MergedKeys(r, ops) ==> r.key(ops[k]) != r.key(e)
  {
    EmittedKey(r, ops, i, e);
    if r.key(e).Some? {
      KeysOfGroups(r, ops, r.key(e).value);
      MembersAscend(r, ops, r.key(e).value, |ops|);
    }
  }

  // ---- normalising a configuration twice ----

  lemma ResultIsNormalized(api: Api, ops: seq<Operation>)
    requires ApiOk(api) && AllNormalized(ops)
    ensures AllNormalized(Merged(CollapseRules(api), ops))
  {
    var r := CollapseRules(api);
    var out := Merged(r, ops);
    var at := CollapseResult(api, ops);
    forall p | 0 <= p < |out|
      ensures NormalUpToName(out[p].draft)
    {
      if r.key(out[p]).Some? && r.key(out[p]).value in MergedKeys(r, ops) {
        var key := r.key(out[p]).value;
        FirstMember(api, ops, key);
        ReplacementIs(api, ops, key);
        var m := Members(r, ops, key, |ops|);
        NormalizedUpToName(Template(api, ops[m[0]].draft, AllReadOnly(Pick(ops, m)), |MergedKeys(r, ops)|));
      }
    }
  }

  function SluggedKeys(keys: set<Key>): set<Key> { set k | k in keys && NontrivialSlug(k.1) }

  /** Replacing the replacement of a group again. */
  lemma ReplacementAgain(api: Api, ops: seq<Operation>, key: Key, again: nat)
    requires ApiOk(api) && AllNormalized(ops) && key in MergedKeys(CollapseRules(api), ops)
    requires |MergedKeys(CollapseRules(api), ops)| > 1 && NontrivialSlug(key.1)
    ensures var r := CollapseRules(api);
            var op := Replacement(r, ops, key);
            r.merge([op], again) == op <==> again > 1
  {
    var r := CollapseRules(api);
    var op := Replacement(r, ops, key);
    var m := Members(r, ops, key, |ops|);
    var count := |MergedKeys(r, ops)|;
    FirstMember(api, ops, key);
    ReplacementIs(api, ops, key);
    var t := ops[m[0]].draft;
    KeyPath(t, key);
    var readOnly := AllReadOnly(Pick(ops, m));
    ReplacedOnce(api, t, readOnly, count);
    ReplacedTwice(api, t, readOnly, count, again);
    SlugDependsOnCount(t.path, readOnly, count, again);
    MergeOne(api, op, again);
  }

  lemma SlugDependsOnCount(path: string, readOnly: bool, count: nat, again: nat)
    requires count > 1 && NontrivialSlug(path)
    ensures GenericId(path, readOnly, again) == GenericId(path, readOnly, count) <==> again > 1
  {
    GenericIdKind(path, readOnly, count);
  }

  lemma MergeOne(api: Api, op: Operation, again: nat)
    ensures CollapseRules(api).merge([op], again) == GenericOperation(api, op, op.draft.readOnly, again)
  {
    var one := [op];
    assert AllReadOnly(one) <==> one[0].draft.readOnly;
  }

  /** Collapsing twice is collapsing once, except when several groups are merged and exactly
      one of their paths leaves a slug for the id: the count the id depends on is then one
      the second time. */
  lemma CollapseTwiceIff(api: Api, ops: seq<Operation>)
    requires ApiOk(api) && AllNormalized(ops)
    ensures var r := CollapseRules(api);
            var keys := MergedKeys(r, ops);
            Merged(r, Merged(r, ops)) == Merged(r, ops) <==> |keys| <= 1 || |SluggedKeys(keys)| != 1
  {
    var r := CollapseRules(api);
    var keys := MergedKeys(r, ops);
    var second := MergedKeys(r, Merged(r, ops));
    CollapseKeepsKeys(api, ops);
    MergedTwiceIff(r, ops);
    SecondKeys(api, ops);
    forall key | key in keys
      ensures LegacyAgain(r, ops, key, |second|) <==> !(|keys| > 1 && key in SluggedKeys(keys)) || |second| > 1
    {
      GroupReplacement(api, ops, key);
      if |keys| > 1 && NontrivialSlug(key.1) {
        ReplacementAgain(api, ops, key, |second|);
      }
    }
    assert (forall key :: key in keys ==> LegacyAgain(r, ops, key, |second|)) <==> |second| != 1 by {
      if |second| == 1 {
        var key :| key in second;
        assert !LegacyAgain(r, ops, key, |second|);
      }
      if second == {} {
        assert forall key :: key in keys && |keys| > 1 ==> key !in SluggedKeys(keys);
      }
    }
  }

  /** A replacement need not be replaced again, or is replaced by itself. */
  ghost predicate LegacyAgain(r: Rules, ops: seq<Operation>, key: Key, again: nat) {
    r.legacy(Replacement(r, ops, key)) ==> r.merge([Replacement(r, ops, key)], again) == Replacement(r, ops, key)
  }

  lemma SecondKeys(api: Api, ops: seq<Operation>)
    requires ApiOk(api) && AllNormalized(ops)
    ensures var r := CollapseRules(api);
            var keys := MergedKeys(r, ops);
            MergedKeys(r, Merged(r, ops)) == if |keys| > 1 then SluggedKeys(keys) else {}
  {
    var r := CollapseRules(api);
    var keys := MergedKeys(r, ops);
    CollapseKeepsKeys(api, ops);
    forall key
      ensures key in MergedKeys(r, Merged(r, ops)) <==> |keys| > 1 && key in SluggedKeys(keys)
    {
      SecondMergedKeys(r, ops, key);
      if key in keys {
        GroupReplacement(api, ops, key);
      }
    }
  }

  predicate InMergedGroup(r: Rules, ops: seq<Operation>, i: nat)
    requires i < |ops|
  {
    r.key(ops[i]).Some? && r.key(ops[i]).value in MergedKeys(r, ops)
  }

  /** Names play no part in merging. */
  lemma NamesDoNotMatter(api: Api, op: Operation, name: string)
    ensures var renamed := op.(draft := op.draft.(name := name));
            var r := CollapseRules(api);
            r.key(renamed) == r.key(op) && r.legacy(renamed) == r.legacy(op)
  {
  }

  lemma RenamedAgain(api: Api, out: seq<Operation>)
    requires AllNormalized(out)
    ensures var again := NormalizeDrafts(out);
            var r := CollapseRules(api);
            |again| == |out| && forall p :: 0 <= p < |out| ==>
              r.key(again[p]) == r.key(out[p]) && r.legacy(again[p]) == r.legacy(out[p])
  {
    var again := NormalizeDrafts(out);
    forall p | 0 <= p < |out|
      ensures CollapseRules(api).key(again[p]) == CollapseRules(api).key(out[p])
      ensures CollapseRules(api).legacy(again[p]) == CollapseRules(api).legacy(out[p])
    {
      assert again[p] == out[p].(draft := out[p].draft.(name := CleanName(out[p].draft)));
      NamesDoNotMatter(api, out[p], CleanName(out[p].draft));
    }
  }

  /** An operation that is not replaced and whose name a second pass changes stays changed. */
  lemma ChangedNameStays(api: Api, out: seq<Operation>, p: nat)
    requires AllNormalized(out) && p < |out| && DistinctKeys(CollapseRules(api), out)
    requires !(CollapseRules(api).key(out[p]).Some? && CollapseRules(api).legacy(out[p]))
    requires Normalized(out[p].draft) != out[p].draft
    ensures NormalizedConfig(api, out) != out
  {
    var again := NormalizeDrafts(out);
    RenamedAgain(api, out);
    MergeDistinct(CollapseRules(api), again);
    assert again[p].draft == Normalized(out[p].draft) != out[p].draft;
    assert NormalizedConfig(api, out)[p] == again[p];
  }

  /** No name of an operation that is not replaced changes in a second pass. */
  ghost predicate NamesStable(api: Api, ops: seq<Operation>) {
    forall i :: 0 <= i < |ops| && !InMergedGroup(CollapseRules(api), NormalizeDrafts(ops), i) ==>
      NameStable(ops[i].draft)
  }

  lemma DraftsNormalized(ops: seq<Operation>)
    ensures AllNormalized(NormalizeDrafts(ops))
  {
    forall i | 0 <= i < |ops|
      ensures NormalUpToName(NormalizeDrafts(ops)[i].draft)
    {
      NormalizedUpToName(ops[i].draft);
    }
  }

  lemma ReplacementNormalized(api: Api, ops: seq<Operation>, key: Key)
    requires ApiOk(api) && AllNormalized(ops) && key in MergedKeys(CollapseRules(api), ops)
    ensures var op := Replacement(CollapseRules(api), ops, key); Normalized(op.draft) == op.draft
  {
    var r := CollapseRules(api);
    FirstMember(api, ops, key);
    ReplacementIs(api, ops, key);
    var m := Members(r, ops, key, |ops|);
    GenericShape(api, ops[m[0]].draft, AllReadOnly(Pick(ops, m)), |MergedKeys(r, ops)|);
  }

  lemma StableNamesStay(api: Api, ops: seq<Operation>)
    requires ApiOk(api) && NamesStable(api, ops)
    ensures var out := NormalizedConfig(api, ops); NormalizeDrafts(out) == out
  {
    var r := CollapseRules(api);
    var a := NormalizeDrafts(ops);
    var out := Merged(r, a);
    DraftsNormalized(ops);
    var at := CollapseResult(api, a);
    forall p | 0 <= p < |out|
      ensures NormalizedOperation(out[p]) == out[p]
    {
      if InMergedGroup(r, a, at[p]) {
        ReplacementNormalized(api, a, r.key(out[p]).value);
      } else {
        NormalizedTwiceIff(ops[at[p]].draft);
      }
    }
  }

  lemma UnstableNameChanges(api: Api, ops: seq<Operation>, i: nat)
    requires ApiOk(api) && i < |ops|
    requires !InMergedGroup(CollapseRules(api), NormalizeDrafts(ops), i) && !NameStable(ops[i].draft)
    ensures NormalizedConfig(api, NormalizedConfig(api, ops)) != NormalizedConfig(api, ops)
  {
    var r := CollapseRules(api);
    var a := NormalizeDrafts(ops);
    var out := Merged(r, a);
    DraftsNormalized(ops);
    ResultIsNormalized(api, a);
    var at := CollapseResult(api, a);
    assert HasPlace(r, a, i);
    var p :| 0 <= p < |at| && at[p] == i;
    assert out[p] == a[i];
    NormalizedTwiceIff(ops[i].draft);
    UnmergedIsNotLegacy(r, a, i);
    ChangedNameStays(api, out, p);
  }

  lemma UnmergedIsNotLegacy(r: Rules, ops: seq<Operation>, i: nat)
    requires i < |ops| && !InMergedGroup(r, ops, i)
    ensures !(r.key(ops[i]).Some? && r.legacy(ops[i]))
  {
    if r.key(ops[i]).Some? {
      KeysOfGroups(r, ops, r.key(ops[i]).value);
      OwnGroup(r, ops, i);
      UnmergedIsPlain(r, ops, r.key(ops[i]).value, i);
    }
  }

  /** Loading a configuration twice. Normalising again changes nothing if and only if the names
      of the operations that are not merged are stable, and at most one group is merged or the
      number of merged groups whose path leaves a slug is not one. */
  lemma NormalizedConfigTwiceIff(api: Api, ops: seq<Operation>)
    requires ApiOk(api)
    ensures var keys := MergedKeys(CollapseRules(api), NormalizeDrafts(ops));
            NormalizedConfig(api, NormalizedConfig(api, ops)) == NormalizedConfig(api, ops)
            <==> NamesStable(api, ops) && (|keys| <= 1 || |SluggedKeys(keys)| != 1)
  {
    if NamesStable(api, ops) {
      StableNamesStay(api, ops);
      DraftsNormalized(ops);
      CollapseTwiceIff(api, NormalizeDrafts(ops));
    } else {
      var i :| 0 <= i < |ops| && !InMergedGroup(CollapseRules(api), NormalizeDrafts(ops), i)
            && !NameStable(ops[i].draft);
      UnstableNameChanges(api, ops, i);
    }
  }
}
