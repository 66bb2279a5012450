/** Normalising one operation of an imported API: `normalize_operation_draft` and the
    GraphQL contract it enforces. */
module OperationDrafts {
  import opened Results
  import opened Text

  datatype Location = Path | Query | Header | Body

  datatype Parameter = Parameter(
    name: string,
    location: Location,
    required: bool,
    description: Option<string>,
    schemaType: Option<string>)

  /** `defaultBody` is the JSON text of the body. */
  datatype Draft = Draft(
    id: string,
    name: string,
    method_: string,
    path: string,
    description: string,
    readOnly: bool,
    enabled: bool,
    defaultHeaders: map<string, string>,
    defaultQuery: map<string, string>,
    parameters: seq<Parameter>,
    bodyRequired: bool,
    defaultBody: Option<string>)

  // ---- ids ----

  predicate IsSlugChar(c: char) { IsLower(c) || IsDigit(c) || c == '-' || c == '_' }

  predicate IsSlug(s: string) {
    && (forall i :: 0 <= i < |s| ==> IsSlugChar(s[i]))
    && (s == "" || (s[0] != '-' && s[|s| - 1] != '-'))
  }

  function Slugged(s: string): (t: string)
    ensures |t| == |s| && forall i :: 0 <= i < |t| ==>
              t[i] == if IsSlugChar(LowerChar(s[i])) then LowerChar(s[i]) else '-'
  {
    seq(|s|, i requires 0 <= i < |s| => if IsSlugChar(LowerChar(s[i])) then LowerChar(s[i]) else '-')
  }

  /** Every id comes out in one normal form, and an id in that form comes out unchanged. */
  function SanitizeId(value: string): (id: string)
    ensures IsSlug(id)
    ensures IsSlug(value) ==> id == value
  {
    var trimmed := Trim(value);
    assert IsSlug(value) ==> IsTrimmed(value) by {
      assert forall c :: IsSlugChar(c) ==> !IsWhitespace(c);
    }
    assert IsSlug(value) ==> Slugged(trimmed) == trimmed;
    TrimMatchesWithin(Slugged(trimmed), '-');
    TrimMatches(Slugged(trimmed), '-')
  }

  // ---- the GraphQL contract ----

  const CONTENT_TYPE := "Content-Type"
  const GRAPHQL := "graphql"

  predicate HasGraphqlSegment(path: string, segment: string)
    decreases |path|
  {
    if path == "" then EqIgnoreCase(segment, GRAPHQL)
    else if IsAlphanumeric(path[0]) then HasGraphqlSegment(path[1..], segment + [path[0]])
    else EqIgnoreCase(segment, GRAPHQL) || HasGraphqlSegment(path[1..], "")
  }

  predicate DeclaresGraphql(key: string, value: string) {
    EqIgnoreCase(key, CONTENT_TYPE) && Contains(Lower(value), GRAPHQL)
  }

  /** `endpoint_has_graphql_signal` */
  predicate GraphqlSignal(path: string, headers: map<string, string>) {
    HasGraphqlSegment(path, "") || exists key :: key in headers && DeclaresGraphql(key, headers[key])
  }

  predicate HasHeader(headers: map<string, string>, name: string) {
    exists key :: key in headers && EqIgnoreCase(key, name)
  }

  function EnsureHeader(headers: map<string, string>, name: string, value: string): map<string, string> {
    if HasHeader(headers, name) then headers else headers[name := value]
  }

  predicate IsBodyParameter(p: Parameter) { p.location == Body && EqIgnoreCase(p.name, "body") }

  function FindBody(parameters: seq<Parameter>): (i: nat)
    ensures i <= |parameters|
    ensures i < |parameters| ==> IsBodyParameter(parameters[i])
    ensures forall k :: 0 <= k < i ==> !IsBodyParameter(parameters[k])
  {
    if parameters == [] || IsBodyParameter(parameters[0]) then 0 else 1 + FindBody(parameters[1..])
  }

  function OrElse<T>(o: Option<T>, value: T): Option<T> { if o.Some? then o else Some(value) }

  const BODY_DESCRIPTION := "GraphQL request body."

  function EnsureBodyParameter(parameters: seq<Parameter>): seq<Parameter> {
    var i := FindBody(parameters);
    if i < |parameters| then
      var p := parameters[i];
      parameters[i := p.(
        required := true,
        description := OrElse(p.description, BODY_DESCRIPTION),
        schemaType := OrElse(p.schemaType, "object"))]
    else
      parameters + [Parameter("body", Body, true, Some(BODY_DESCRIPTION), Some("object"))]
  }

  predicate HasQueryTemplate(d: Draft) {
    || (exists key :: key in d.defaultQuery && EqIgnoreCase(key, "query"))
    || (exists i ::
          0 <= i < |d.parameters| && d.parameters[i].location == Query && EqIgnoreCase(d.parameters[i].name, "query"))
  }

  predicate IsBodylessQuery(d: Draft) {
    (d.method_ == "" || d.method_ == "GET" || d.method_ == "HEAD") && !HasQueryTemplate(d)
  }

  predicate IsPost(method_: string) { EqIgnoreCase(method_, "POST") }

  function Promoted(d: Draft): Draft {
    if IsBodylessQuery(d) then d.(method_ := "POST", readOnly := true) else d
  }

  function PostForm(d: Draft): Draft {
    d.(bodyRequired := true,
       defaultHeaders := EnsureHeader(d.defaultHeaders, CONTENT_TYPE, "application/json"),
       parameters := EnsureBodyParameter(d.parameters))
  }

  function GraphqlContract(d: Draft): Draft {
    if !GraphqlSignal(d.path, d.defaultHeaders) then d
    else if IsPost(Promoted(d).method_) then PostForm(Promoted(d))
    else Promoted(d)
  }

  predicate HasBodyParameter(d: Draft) { exists i :: 0 <= i < |d.parameters| && d.parameters[i].location == Body }

  function FallbackName(d: Draft): string { d.method_ + " " + d.path }

  function CleanName(d: Draft): string { if IsBlank(d.name) then FallbackName(d) else Trim(d.name) }

  function CleanMethod(method_: string): string { Upper(Trim(method_)) }

  function CleanPath(path: string): string { if "/" <= path then path else "/" + path }

  /** The draft before the GraphQL contract. */
  function Cleaned(d: Draft): Draft {
    d.(id := SanitizeId(d.id), name := CleanName(d), method_ := CleanMethod(d.method_),
       path := CleanPath(d.path), description := Trim(d.description))
  }

  function RequireBody(d: Draft): Draft {
    if HasBodyParameter(d) || d.defaultBody.Some? then d.(bodyRequired := true) else d
  }

  function Normalized(d: Draft): Draft { RequireBody(GraphqlContract(Cleaned(d))) }

  /** `normalize_operation_draft`, with `normalize_graphql_operation_contract` inlined: the
      fields of one draft are reassigned one after the other. */
  method NormalizeOperationDraft(original: Draft) returns (draft: Draft)
    ensures draft == Normalized(original)
  {
    draft := original;
    draft := draft.(id := SanitizeId(draft.id));
    draft := draft.(name := CleanName(draft));
    draft := draft.(method_ := CleanMethod(draft.method_));
    draft := draft.(path := CleanPath(draft.path));
    draft := draft.(description := Trim(draft.description));
    assert draft == Cleaned(original);
    draft := NormalizeGraphqlOperationContract(draft);
    if HasBodyParameter(draft) {
      draft := draft.(bodyRequired := true);
    }
    if draft.defaultBody.Some? {
      draft := draft.(bodyRequired := true);
    }
  }

  /** `normalize_graphql_operation_contract` */
  method NormalizeGraphqlOperationContract(original: Draft) returns (draft: Draft)
    ensures draft == GraphqlContract(original)
  {
    draft := original;
    if !GraphqlSignal(draft.path, draft.defaultHeaders) {
      return;
    }
    if IsBodylessQuery(draft) {
      draft := draft.(method_ := "POST");
      draft := draft.(readOnly := true);
    }
    if IsPost(draft.method_) {
      draft := draft.(bodyRequired := true);
      draft := draft.(defaultHeaders := EnsureHeader(draft.defaultHeaders, CONTENT_TYPE, "application/json"));
      draft := draft.(parameters := EnsureBodyParameter(draft.parameters));
    }
  }

  // ---- what normalising guarantees ----

  predicate HasRequiredBodyParameter(d: Draft) {
    exists i :: 0 <= i < |d.parameters| && IsBodyParameter(d.parameters[i]) && d.parameters[i].required
  }

  lemma EnsuredHeader(headers: map<string, string>)
    ensures HasHeader(EnsureHeader(headers, CONTENT_TYPE, "application/json"), CONTENT_TYPE)
  {
    var h := EnsureHeader(headers, CONTENT_TYPE, "application/json");
    if !HasHeader(headers, CONTENT_TYPE) {
      assert CONTENT_TYPE in h && EqIgnoreCase(CONTENT_TYPE, CONTENT_TYPE);
    }
  }

  lemma EnsuredBody(parameters: seq<Parameter>)
    ensures var ps := EnsureBodyParameter(parameters);
            var i := FindBody(parameters);
            && i < |ps| && IsBodyParameter(ps[i]) && ps[i].required && FindBody(ps) == i
            && ps[i].description.Some? && ps[i].schemaType.Some?
            && EnsureBodyParameter(ps) == ps
  {
    var ps := EnsureBodyParameter(parameters);
    var i := FindBody(parameters);
    assert IsBodyParameter(ps[i]);
    assert forall k :: 0 <= k < i ==> ps[k] == parameters[k];
    assert FindBody(ps) == i;
    var p := ps[i];
    assert p.(required := true, description := OrElse(p.description, BODY_DESCRIPTION),
              schemaType := OrElse(p.schemaType, "object")) == p;
    assert ps[i := p] == ps;
  }

  /** Adding a JSON content type neither adds nor hides the signal. */
  lemma SignalKept(path: string, headers: map<string, string>)
    ensures GraphqlSignal(path, EnsureHeader(headers, CONTENT_TYPE, "application/json")) == GraphqlSignal(path, headers)
  {
    var h := EnsureHeader(headers, CONTENT_TYPE, "application/json");
    if !HasHeader(headers, CONTENT_TYPE) {
      assert forall key :: key in headers ==> !EqIgnoreCase(key, CONTENT_TYPE);
      JsonIsNotGraphql();
      assert forall key :: key in h ==> !DeclaresGraphql(key, h[key]);
    }
  }

  lemma JsonIsNotGraphql()
    ensures !Contains(Lower("application/json"), GRAPHQL)
  {
    var s := "application/json";
    assert forall i :: 0 <= i < |s| ==> s[i] != 'g';
    NoLetter(Lower(s));
  }

  lemma {:induction false} NoLetter(s: string)
    requires forall i :: 0 <= i < |s| ==> s[i] != 'g'
    ensures !Contains(s, GRAPHQL)
  {
    assert GRAPHQL[0] == 'g';
    if s != "" {
      NoLetter(s[1..]);
    }
  }

  lemma PostFormFacts(d: Draft)
    ensures var e := PostForm(d);
            && HasHeader(e.defaultHeaders, CONTENT_TYPE) && HasRequiredBodyParameter(e) && HasBodyParameter(e)
            && GraphqlSignal(e.path, e.defaultHeaders) == GraphqlSignal(d.path, d.defaultHeaders)
  {
    EnsuredHeader(d.defaultHeaders);
    EnsuredBody(d.parameters);
    SignalKept(d.path, d.defaultHeaders);
    var ps := EnsureBodyParameter(d.parameters);
    var i := FindBody(d.parameters);
    assert IsBodyParameter(ps[i]) && ps[i].required && ps[i].location == Body;
  }

  /** The contract leaves the draft alone, promotes it, or puts it in the form of a POST. */
  lemma ContractCases(d: Draft)
    ensures var e := GraphqlContract(d);
            && e.id == d.id && e.name == d.name && e.path == d.path && e.description == d.description
            && (e.method_ == d.method_ || e.method_ == "POST")
            && GraphqlSignal(e.path, e.defaultHeaders) == GraphqlSignal(d.path, d.defaultHeaders)
            && (GraphqlSignal(d.path, d.defaultHeaders) && IsPost(e.method_) ==>
                  e == PostForm(Promoted(d)))
            && (!GraphqlSignal(d.path, d.defaultHeaders) || !IsPost(e.method_) ==> e == d)
  {
    PostFormFacts(Promoted(d));
    assert IsPost("POST");
  }

  /** Every normalised draft has a slug for an id, a path starting with a slash, and needs a
      body when it declares one; on a GraphQL endpoint a POST carries a content type and a
      required body parameter. */
  lemma DraftContract(original: Draft)
    ensures var d := Normalized(original);
            && IsSlug(d.id) && "/" <= d.path && IsTrimmed(d.description)
            && (HasBodyParameter(d) || d.defaultBody.Some? ==> d.bodyRequired)
            && (GraphqlSignal(d.path, d.defaultHeaders) && IsPost(d.method_) ==>
                  d.bodyRequired && HasHeader(d.defaultHeaders, CONTENT_TYPE) && HasRequiredBodyParameter(d))
  {
    var c := Cleaned(original);
    ContractCases(c);
    PostFormFacts(Promoted(c));
  }

  // ---- a second pass ----

  /** The name does not change when it is cleaned again: it is not blank, or the name made from
      method and path has no white space at its ends. */
  predicate NameStable(d: Draft) { !IsBlank(d.name) || IsTrimmed(FallbackName(d)) }

  lemma CleanMethodFixed(s: string)
    ensures CleanMethod(CleanMethod(s)) == CleanMethod(s)
  {
    var t := Trim(s);
    TrimUpper(t);
    assert forall c :: IsWhitespace(UpperChar(c)) <==> IsWhitespace(c);
    assert IsTrimmed(Upper(t));
  }

  predicate IsClean(d: Draft) {
    && IsSlug(d.id) && d.name != "" && IsTrimmed(d.name) && CleanMethod(d.method_) == d.method_
    && "/" <= d.path && IsTrimmed(d.description)
  }

  lemma CleanFixed(d: Draft)
    requires IsClean(d)
    ensures Cleaned(d) == d
  {
    CleanParts(d);
    SameParts(d, SanitizeId(d.id), CleanName(d), CleanMethod(d.method_), CleanPath(d.path), Trim(d.description));
  }

  lemma CleanParts(d: Draft)
    requires IsClean(d)
    ensures SanitizeId(d.id) == d.id && CleanName(d) == d.name && CleanPath(d.path) == d.path
    ensures Trim(d.description) == d.description
  {
  }

  lemma SameParts(d: Draft, id: string, name: string, method_: string, path: string, description: string)
    requires id == d.id && name == d.name && method_ == d.method_ && path == d.path && description == d.description
    ensures d.(id := id, name := name, method_ := method_, path := path, description := description) == d
  {
  }

  lemma CleanedIsClean(d: Draft)
    requires NameStable(d)
    ensures IsClean(Cleaned(d))
  {
    CleanMethodFixed(d.method_);
    assert ' ' in FallbackName(d);
  }

  lemma NormalizedIsClean(d: Draft)
    requires NameStable(d)
    ensures IsClean(Normalized(d))
  {
    CleanedIsClean(d);
    ContractCases(Cleaned(d));
    PostIsClean();
    SameIsClean(Cleaned(d), Normalized(d));
  }

  lemma PostIsClean()
    ensures CleanMethod("POST") == "POST"
  {
    CleanMethodOf("POST");
  }

  lemma CleanMethodOf(s: string)
    requires IsTrimmed(s) && forall i :: 0 <= i < |s| ==> IsUpper(s[i])
    ensures CleanMethod(s) == s
  {
    assert Trim(s) == s;
  }

  lemma SameIsClean(c: Draft, e: Draft)
    requires IsClean(c) && e.id == c.id && e.name == c.name && e.path == c.path && e.description == c.description
    requires CleanMethod(e.method_) == e.method_
    ensures IsClean(e)
  {
  }

  lemma PostIsNotBodyless(d: Draft)
    requires IsPost(d.method_)
    ensures Promoted(d) == d
  {
    assert |Lower(d.method_)| == |Lower("POST")|;
    assert Lower("HEAD")[0] == 'h' && Lower("POST")[0] == 'p';
  }

  lemma PostFormTwice(d: Draft)
    ensures PostForm(PostForm(d)) == PostForm(d)
  {
    EnsuredHeader(d.defaultHeaders);
    EnsuredBody(d.parameters);
  }

  lemma ContractTwice(c: Draft)
    ensures var e := RequireBody(GraphqlContract(c)); RequireBody(GraphqlContract(e)) == e
  {
    var g := GraphqlContract(c);
    var e := RequireBody(g);
    ContractCases(c);
    if GraphqlSignal(c.path, c.defaultHeaders) && IsPost(g.method_) {
      assert g.bodyRequired && e == g;
      PostIsNotBodyless(e);
      PostFormTwice(Promoted(c));
      assert GraphqlContract(e) == e;
    } else {
      ContractIgnoresBodyRequired(c);
    }
  }

  lemma ContractIgnoresBodyRequired(c: Draft)
    requires GraphqlContract(c) == c
    requires !GraphqlSignal(c.path, c.defaultHeaders) || !IsPost(c.method_)
    ensures GraphqlContract(RequireBody(c)) == RequireBody(c)
  {
    var e := RequireBody(c);
    assert IsBodylessQuery(e) == IsBodylessQuery(c);
    assert IsPost("POST");
  }

  lemma NormalizedStable(d: Draft)
    requires NameStable(d)
    ensures Normalized(Normalized(d)) == Normalized(d)
  {
    NormalizedIsClean(d);
    CleanFixed(Normalized(d));
    ContractTwice(Cleaned(d));
  }

  lemma PromotedKeepsNames(c: Draft, name: string)
    ensures Promoted(c.(name := name)) == Promoted(c).(name := name)
  {
  }

  lemma PostFormKeepsNames(c: Draft, name: string)
    ensures PostForm(c.(name := name)) == PostForm(c).(name := name)
  {
  }

  lemma RequireBodyKeepsNames(c: Draft, name: string)
    ensures RequireBody(c.(name := name)) == RequireBody(c).(name := name)
  {
  }

  lemma GraphqlKeepsNames(c: Draft, name: string)
    ensures GraphqlContract(c.(name := name)) == GraphqlContract(c).(name := name)
  {
    PromotedKeepsNames(c, name);
    PostFormKeepsNames(Promoted(c), name);
  }

  lemma ContractKeepsNames(c: Draft, name: string)
    ensures RequireBody(GraphqlContract(c.(name := name))) == RequireBody(GraphqlContract(c)).(name := name)
  {
    GraphqlKeepsNames(c, name);
    RequireBodyKeepsNames(GraphqlContract(c), name);
  }

  /** Normalised but for the name. */
  predicate NormalUpToName(d: Draft) { Normalized(d) == d.(name := CleanName(d)) }

  predicate PartsAreClean(d: Draft) {
    && SanitizeId(d.id) == d.id && CleanMethod(d.method_) == d.method_ && CleanPath(d.path) == d.path
    && Trim(d.description) == d.description
  }

  lemma CleanedParts(d: Draft)
    ensures PartsAreClean(Cleaned(d))
  {
    CleanMethodFixed(d.method_);
  }

  lemma SamePartsAreClean(c: Draft, e: Draft)
    requires PartsAreClean(c) && e.id == c.id && e.path == c.path && e.description == c.description
    requires e.method_ == c.method_ || e.method_ == "POST"
    ensures PartsAreClean(e)
  {
    PostIsClean();
  }

  lemma NormalizedParts(d: Draft)
    ensures PartsAreClean(Normalized(d))
  {
    var c := Cleaned(d);
    CleanedParts(d);
    ContractCases(c);
    SamePartsAreClean(c, Normalized(d));
  }

  /** Every normalised draft is so, whatever its name was. */
  lemma NormalizedUpToName(d: Draft)
    ensures NormalUpToName(Normalized(d))
  {
    var e := Normalized(d);
    NormalizedParts(d);
    CleanedName(e);
    ContractTwice(Cleaned(d));
    ContractKeepsNames(e, CleanName(e));
  }

  lemma CleanedName(e: Draft)
    requires PartsAreClean(e)
    ensures Cleaned(e) == e.(name := CleanName(e))
  {
  }

  lemma UnstableName(d: Draft)
    requires !NameStable(d)
    ensures CleanName(Normalized(d)) != Normalized(d).name
  {
    var e := Normalized(d);
    ContractCases(Cleaned(d));
    assert e.name == FallbackName(d);
    FallbackNotBlank(e);
  }

  lemma FallbackNotBlank(e: Draft)
    requires "/" <= e.path
    ensures !IsBlank(FallbackName(e))
  {
    assert FallbackName(e)[|e.method_| + 1] == e.path[0] == '/';
    NotBlankWith(FallbackName(e), |e.method_| + 1);
  }

  lemma NotBlankWith(s: string, i: nat)
    requires i < |s| && !IsWhitespace(s[i])
    ensures !IsBlank(s)
  {
    if IsBlank(s) {
      BlankIsWhitespace(s);
      assert false;
    }
  }

  /** Normalising twice is normalising once if and only if the name is stable. */
  lemma NormalizedTwiceIff(d: Draft)
    ensures Normalized(Normalized(d)) == Normalized(d) <==> NameStable(d)
  {
    if NameStable(d) {
      NormalizedStable(d);
    } else {
      UnstableName(d);
      ContractCases(Cleaned(Normalized(d)));
    }
  }

  lemma BlankIsWhitespace(s: string)
    requires IsBlank(s)
    ensures forall i :: 0 <= i < |s| ==> IsWhitespace(s[i])
  {
    TrimStartDropsWhitespace(s);
    TrimEndDropsWhitespace(TrimStart(s));
  }

  lemma {:induction false} TrimStartDropsWhitespace(s: string)
    ensures forall i :: 0 <= i < |s| - |TrimStart(s)| ==> IsWhitespace(s[i])
  {
    if s != "" && IsWhitespace(s[0]) {
      TrimStartDropsWhitespace(s[1..]);
      assert forall i :: 1 <= i < |s| ==> s[i] == s[1..][i - 1];
    }
  }

  lemma {:induction false} TrimEndDropsWhitespace(s: string)
    ensures forall i :: |TrimEnd(s)| <= i < |s| ==> IsWhitespace(s[i])
  {
    if s != "" && IsWhitespace(s[|s| - 1]) {
      TrimEndDropsWhitespace(s[..|s| - 1]);
    }
  }
}
