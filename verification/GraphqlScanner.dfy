/** The scanner that decides whether a GraphQL document is read-only. */
module GraphqlScanner {
  import opened Text

  datatype OperationType = Query | Mutation | Subscription

  function Keyword(op: OperationType): string {
    match op
    case Query => "query"
    case Mutation => "mutation"
    case Subscription => "subscription"
  }

  predicate IsNameStart(c: char) { c == '_' || IsAlphabetic(c) }

  predicate IsNameContinue(c: char) { IsNameStart(c) || IsDigit(c) }

  // ---- the scanner as a function on the text still to read ----

  function SkipComment(s: string): (r: string)
    ensures |r| <= |s|
  {
    if s == "" then ""
    else if s[0] == '\n' || s[0] == '\r' then s[1..]
    else SkipComment(s[1..])
  }

  /** Behind the opening quote of a string. */
  function SkipString(s: string): (r: string)
    ensures |r| <= |s|
  {
    if s == "" then ""
    else if s[0] == '\\' then (if |s| == 1 then "" else SkipString(s[2..]))
    else if s[0] == '"' then s[1..]
    else SkipString(s[1..])
  }

  /** Behind the opening of a block string, after `run` quotes in a row. */
  function SkipBlock(s: string, run: nat): (r: string)
    ensures |r| <= |s|
    decreases |s|
  {
    if s == "" then ""
    else if s[0] != '"' then SkipBlock(s[1..], 0)
    else if run == 2 then s[1..]
    else SkipBlock(s[1..], run + 1)
  }

  function NameLength(s: string): (n: nat)
    ensures n <= |s|
  {
    if s == "" || !IsNameContinue(s[0]) then 0 else 1 + NameLength(s[1..])
  }

  lemma {:induction false} NameLengthIs(s: string)
    ensures var n := NameLength(s);
            && (forall i :: 0 <= i < n ==> IsNameContinue(s[i])) && (n < |s| ==> !IsNameContinue(s[n]))
  {
    if s != "" && IsNameContinue(s[0]) {
      NameLengthIs(s[1..]);
      assert forall i :: 1 <= i < |s| ==> s[i] == s[1..][i - 1];
    }
  }

  predicate OpensBlock(s: string) { |s| >= 3 && s[0] == '"' && s[1] == '"' && s[2] == '"' }

  /** The text behind the construct that starts `s`. */
  function Skip(s: string): (r: string)
    requires s != ""
    ensures |r| < |s|
  {
    if s[0] == '#' then SkipComment(s[1..])
    else if OpensBlock(s) then SkipBlock(s[3..], 0)
    else if s[0] == '"' then SkipString(s[1..])
    else if IsNameStart(s[0]) then s[1 + NameLength(s[1..])..]
    else s[1..]
  }

  /** The operation kind that the construct at the start of `s` contributes. */
  function KindAt(s: string, depth: nat): seq<OperationType>
    requires s != ""
  {
    if depth > 0 then []
    else if s[0] == '{' then [Query]
    else if IsNameStart(s[0]) then NameKind(s[..1 + NameLength(s[1..])])
    else []
  }

  /** The operation kind a name spells, in any capitalisation. */
  function NameKind(name: string): seq<OperationType> {
    var lowered := Lower(name);
    if lowered == Keyword(Query) then [Query]
    else if lowered == Keyword(Mutation) then [Mutation]
    else if lowered == Keyword(Subscription) then [Subscription]
    else []
  }

  function DepthAfter(c: char, depth: nat): nat {
    if c == '{' then depth + 1 else if c == '}' && depth > 0 then depth - 1 else depth
  }

  function Scan(s: string, depth: nat): seq<OperationType>
    decreases |s|, 2
  {
    if s == "" then [] else ScanFirst(s, depth)
  }

  function ScanFirst(s: string, depth: nat): seq<OperationType>
    requires s != ""
    decreases |s|, 1
  {
    KindAt(s, depth) + ScanRest(s, depth)
  }

  function ScanRest(s: string, depth: nat): seq<OperationType>
    requires s != ""
    decreases |s|, 0
  {
    Scan(Skip(s), DepthAfter(s[0], depth))
  }

  /** The construct at the start of the text, and then the text behind it. */
  lemma ScanOne(s: string, depth: nat)
    requires s != ""
    ensures Scan(s, depth) == KindAt(s, depth) + Scan(Skip(s), DepthAfter(s[0], depth))
  {
    assert Scan(s, depth) == ScanFirst(s, depth);
    assert ScanFirst(s, depth) == KindAt(s, depth) + ScanRest(s, depth);
    assert ScanRest(s, depth) == Scan(Skip(s), DepthAfter(s[0], depth));
  }

  function IsReadOnly(kinds: seq<OperationType>): bool {
    Query in kinds && Mutation !in kinds && Subscription !in kinds
  }

  predicate Writes(kinds: seq<OperationType>) { Mutation in kinds || Subscription in kinds }

  /** What counts at a brace depth. */
  function AtDepth(kinds: seq<OperationType>, depth: nat): seq<OperationType> { if depth == 0 then kinds else [] }

  lemma {:induction false} NameLengthOf(text: string, next: string)
    requires forall i :: 0 <= i < |text| ==> IsNameContinue(text[i])
    requires next == "" || !IsNameContinue(next[0])
    ensures NameLength(text + next) == |text|
  {
    var s := text + next;
    NameLengthIs(s);
    assert forall i :: 0 <= i < |text| ==> s[i] == text[i];
    assert |s| > |text| ==> s[|text|] == next[0];
  }

  lemma NameLengthBound(text: string, next: string)
    requires next == "" || !IsNameContinue(next[0])
    ensures NameLength(text + next) <= |text|
  {
    var s := text + next;
    NameLengthIs(s);
    assert |s| > |text| ==> s[|text|] == next[0];
  }

  // ---- the loops ----

  method SkipCommentLoop(document: string, start: nat) returns (i: nat)
    requires start <= |document|
    ensures i <= |document| && document[i..] == SkipComment(document[start..])
  {
    i := start;
    while i < |document|
      invariant i <= |document| && SkipComment(document[i..]) == SkipComment(document[start..])
    {
      var next := document[i];
      i := i + 1;
      if next == '\n' || next == '\r' {
        return;
      }
    }
  }

  method SkipStringLoop(document: string, start: nat) returns (i: nat)
    requires start <= |document|
    ensures i <= |document| && document[i..] == SkipString(document[start..])
  {
    i := start;
    var escaped := false;
    while i < |document|
      invariant i <= |document|
      invariant SkipString(document[start..])
             == if !escaped then SkipString(document[i..])
                else if i == |document| then "" else SkipString(document[i + 1..])
    {
      var next := document[i];
      i := i + 1;
      if escaped {
        escaped := false;
      } else if next == '\\' {
        escaped := true;
      } else if next == '"' {
        return;
      }
    }
  }

  method SkipBlockLoop(document: string, start: nat) returns (i: nat)
    requires start <= |document|
    ensures i <= |document| && document[i..] == SkipBlock(document[start..], 0)
  {
    i := start;
    var quoteRun := 0;
    while i < |document|
      invariant i <= |document| && 0 <= quoteRun < 3
      invariant SkipBlock(document[i..], quoteRun) == SkipBlock(document[start..], 0)
    {
      var next := document[i];
      i := i + 1;
      if next == '"' {
        quoteRun := quoteRun + 1;
        if quoteRun == 3 {
          return;
        }
      } else {
        quoteRun := 0;
      }
    }
  }

  method NameLoop(document: string, start: nat) returns (i: nat, token: string)
    requires 0 < start <= |document|
    ensures i == start + NameLength(document[start..])
    ensures start <= i <= |document| && token == document[start - 1..i]
  {
    token := [document[start - 1]];
    i := start;
    while i < |document| && IsNameContinue(document[i])
      invariant start <= i <= |document| && token == document[start - 1..i]
      invariant NameLength(document[start..]) == i - start + NameLength(document[i..])
    {
      token := token + [document[i]];
      i := i + 1;
    }
  }

  lemma SliceOfSlice(document: string, start: nat, k: nat)
    requires start + k <= |document|
    ensures document[start..][k..] == document[start + k..]
  {
  }

  /** Behind the string or block string whose opening quote is at `start`. */
  method ReadString(document: string, start: nat) returns (i: nat)
    requires start < |document| && document[start] == '"'
    ensures start < i <= |document| && document[i..] == Skip(document[start..])
  {
    if start + 2 < |document| && document[start + 1] == '"' && document[start + 2] == '"' {
      SliceOfSlice(document, start, 3);
      i := SkipBlockLoop(document, start + 3);
    } else {
      SliceOfSlice(document, start, 1);
      i := SkipStringLoop(document, start + 1);
    }
  }

  lemma SliceUpTo(document: string, start: nat, end: nat)
    requires start <= end <= |document|
    ensures document[start..][..end - start] == document[start..end]
  {
  }

  lemma SkipName(s: string, n: nat, depth: nat)
    requires s != "" && IsNameStart(s[0]) && n == 1 + NameLength(s[1..])
    ensures Skip(s) == s[n..] && KindAt(s, depth) == if depth == 0 then NameKind(s[..n]) else []
  {
  }

  method ReadName(document: string, start: nat, depth: nat) returns (i: nat, kinds: seq<OperationType>)
    requires start < |document| && IsNameStart(document[start])
    ensures start < i <= |document| && document[i..] == Skip(document[start..])
    ensures kinds == KindAt(document[start..], depth)
  {
    SliceOfSlice(document, start, 1);
    var token;
    i, token := NameLoop(document, start + 1);
    SliceOfSlice(document, start, i - start);
    SliceUpTo(document, start, i);
    SkipName(document[start..], i - start, depth);
    kinds := if depth == 0 then NameKind(token) else [];
  }

  /** A character that starts neither a name, a string nor a comment. */
  lemma SkipChar(s: string, depth: nat)
    requires s != "" && s[0] != '#' && s[0] != '"' && !IsNameStart(s[0])
    ensures Skip(s) == s[1..] && KindAt(s, depth) == if depth == 0 && s[0] == '{' then [Query] else []
  {
  }

  /** One round of the loop below: read the construct that starts at `start`. */
  method ReadConstruct(document: string, start: nat, depth: nat)
    returns (i: nat, kinds: seq<OperationType>, braceDepth: nat)
    requires start < |document|
    ensures start < i <= |document| && document[i..] == Skip(document[start..])
    ensures kinds == KindAt(document[start..], depth) && braceDepth == DepthAfter(document[start], depth)
  {
    var ch := document[start];
    SliceOfSlice(document, start, 1);
    i, kinds, braceDepth := start + 1, [], depth;
    if ch != '#' && ch != '"' && !IsNameStart(ch) {
      SkipChar(document[start..], depth);
    }
    if IsWhitespace(ch) || ch == ',' {
    } else if ch == '#' {
      i := SkipCommentLoop(document, i);
    } else if ch == '"' {
      i := ReadString(document, start);
    } else if ch == '{' {
      if depth == 0 {
        kinds := [Query];
      }
      braceDepth := depth + 1;
    } else if ch == '}' {
      braceDepth := if depth > 0 then depth - 1 else 0;
    } else if IsNameStart(ch) {
      i, kinds := ReadName(document, start, depth);
    }
  }

  /** `graphql_document_operation_kinds` */
  method OperationKinds(document: string) returns (kinds: seq<OperationType>)
    ensures kinds == Scan(document, 0)
  {
    kinds := [];
    var i, braceDepth := 0, 0;
    while i < |document|
      invariant i <= |document|
      invariant kinds + Scan(document[i..], braceDepth) == Scan(document, 0)
    {
      var next, found, after := ReadConstruct(document, i, braceDepth);
      ScanStep(document, i, next, braceDepth, kinds, found);
      i, braceDepth, kinds := next, after, kinds + found;
    }
  }

  lemma ScanStep(document: string, i: nat, next: nat, depth: nat, kinds: seq<OperationType>, found: seq<OperationType>)
    requires i < next <= |document| && document[next..] == Skip(document[i..])
    requires found == KindAt(document[i..], depth)
    ensures kinds + Scan(document[i..], depth)
         == (kinds + found) + Scan(document[next..], DepthAfter(document[i], depth))
  {
    var rest := Scan(document[next..], DepthAfter(document[i], depth));
    ScanOne(document[i..], depth);
    assert kinds + (found + rest) == (kinds + found) + rest;
  }

  /** `graphql_document_is_read_only_query` */
  method DocumentIsReadOnlyQuery(document: string) returns (readOnly: bool)
    ensures readOnly == IsReadOnly(Scan(document, 0))
  {
    var hasQuery := false;
    var kinds := OperationKinds(document);
    for i := 0 to |kinds|
      invariant hasQuery <==> Query in kinds[..i]
      invariant Mutation !in kinds[..i] && Subscription !in kinds[..i]
    {
      assert kinds[..i + 1] == kinds[..i] + [kinds[i]];
      if kinds[i] == Query {
        hasQuery := true;
      } else if kinds[i] == Mutation || kinds[i] == Subscription {
        assert kinds[i] in kinds;
        return false;
      }
    }
    assert kinds[..|kinds|] == kinds;
    return hasQuery;
  }
}
