/** Normalising the shape of an HTTP request before it is sent: method, body and content
    type (`normalize_request_shape`). */
module RequestContract {
  import opened Results
  import opened Text
  import Scanner = GraphqlScanner

  /** A JSON value as far as it matters here: a string, the object `{"query": ...}`, or
      any other value, by its text. */
  datatype Json = Str(s: string) | QueryObject(query: string) | OtherJson(text: string)

  type Parser = string -> Option<Json>

  predicate OpensJson(s: string) { "{" <= s || "[" <= s }

  /** A text that starts with a brace or bracket is no JSON string (section 2 of RFC 8259). */
  ghost predicate ReadsJson(parse: Parser) {
    forall t :: OpensJson(t) && parse(t).Some? ==> !parse(t).value.Str?
  }

  predicate IsOperationKeyword(name: string) {
    || name == Scanner.Keyword(Scanner.Query)
    || name == Scanner.Keyword(Scanner.Mutation)
    || name == Scanner.Keyword(Scanner.Subscription)
  }

  function OperationSignal(s: string): bool
    decreases |s|
  {
    if s == "" then false
    else if Scanner.IsNameStart(s[0]) then
      var n := 1 + Scanner.NameLength(s[1..]);
      IsOperationKeyword(s[..n]) || OperationSignal(s[n..])
    else OperationSignal(s[1..])
  }

  /** `graphql_document_has_operation_signal` */
  method DocumentHasOperationSignal(document: string) returns (signal: bool)
    ensures signal == OperationSignal(document)
    ensures signal <==> exists i: nat, n: nat :: HasKeyword(document, i, n)
  {
    SignalIff(document);
    signal := SignalLoop(document);
  }

  method SignalLoop(document: string) returns (signal: bool)
    ensures signal == OperationSignal(document)
  {
    var i := 0;
    while i < |document|
      invariant i <= |document| && OperationSignal(document[i..]) == OperationSignal(document)
    {
      ghost var s := document[i..];
      var ch := document[i];
      assert s[0] == ch && s[1..] == document[i + 1..];
      if Scanner.IsNameStart(ch) {
        var end, token := Scanner.NameLoop(document, i + 1);
        ghost var n := 1 + Scanner.NameLength(s[1..]);
        assert token == s[..n] && document[end..] == s[n..];
        if IsOperationKeyword(token) {
          return true;
        }
        i := end;
      } else {
        i := i + 1;
      }
    }
    return false;
  }

  /** A name may begin at index `i`: in front of it are only digits back to where no letter,
      digit or underscore stands. */
  predicate StartsName(s: string, i: nat)
    requires i <= |s|
  {
    i == 0 || !Scanner.IsNameContinue(s[i - 1]) || (IsDigit(s[i - 1]) && StartsName(s, i - 1))
  }

  /** The `n` characters at index `i` are an operation keyword, not continued by another letter,
      digit or underscore, with at most digits directly in front. */
  predicate HasKeyword(s: string, i: nat, n: nat) {
    && i + n <= |s| && IsOperationKeyword(s[i..i + n])
    && (i + n < |s| ==> !Scanner.IsNameContinue(s[i + n]))
    && StartsName(s, i)
  }

  /** The signal is there exactly when some keyword is. */
  lemma SignalIff(s: string)
    ensures OperationSignal(s) <==> exists i: nat, n: nat :: HasKeyword(s, i, n)
  {
    if OperationSignal(s) {
      var i, n := SeenKeyword(s);
    }
    if i: nat, n: nat :| HasKeyword(s, i, n) {
      KeywordIsSeen(s, i, n);
    }
  }

  lemma {:induction false} KeywordIsSeen(s: string, i: nat, n: nat)
    requires HasKeyword(s, i, n)
    ensures s != "" && OperationSignal(s)
    decreases |s|
  {
    KeywordChars(s[i..i + n]);
    if i == 0 {
      KeywordAtStart(s, n);
    } else if Scanner.IsNameStart(s[0]) {
      var m := 1 + Scanner.NameLength(s[1..]);
      NameEndsBefore(s, i);
      KeywordBehind(s, i, n, m);
      KeywordIsSeen(s[m..], i - m, n);
    } else {
      KeywordBehind(s, i, n, 1);
      KeywordIsSeen(s[1..], i - 1, n);
      assert OperationSignal(s) == OperationSignal(s[1..]);
    }
  }

  lemma KeywordAtStart(s: string, n: nat)
    requires HasKeyword(s, 0, n)
    ensures s != "" && OperationSignal(s)
  {
    var name := s[0..n];
    KeywordChars(name);
    assert s[0] == name[0];
    assert s[1..] == name[1..] + s[n..];
    Scanner.NameLengthOf(name[1..], s[n..]);
    assert s[..n] == name;
  }

  /** Behind a letter only another name can begin, and that after the end of the first. */
  lemma NameEndsBefore(s: string, i: nat)
    requires 0 < i <= |s| && Scanner.IsNameStart(s[0]) && StartsName(s, i)
    ensures 1 + Scanner.NameLength(s[1..]) <= i
  {
    FirstName(s);
    if i < 1 + Scanner.NameLength(s[1..]) {
      InsideName(s, i);
      assert false;
    }
  }

  lemma FirstName(s: string)
    requires s != "" && Scanner.IsNameStart(s[0])
    ensures forall k :: 0 <= k < 1 + Scanner.NameLength(s[1..]) ==> Scanner.IsNameContinue(s[k])
  {
    Scanner.NameLengthIs(s[1..]);
    assert forall k :: 1 <= k < |s| ==> s[k] == s[1..][k - 1];
  }

  lemma {:induction false} InsideName(s: string, i: nat)
    requires 0 < i <= |s| && Scanner.IsNameStart(s[0]) && forall k :: 0 <= k < i ==> Scanner.IsNameContinue(s[k])
    ensures !StartsName(s, i)
  {
    if i > 1 {
      InsideName(s, i - 1);
    }
  }

  lemma KeywordBehind(s: string, i: nat, n: nat, m: nat)
    requires HasKeyword(s, i, n) && m <= i
    ensures HasKeyword(s[m..], i - m, n)
  {
    var t := s[m..];
    assert t[i - m..i - m + n] == s[i..i + n];
    assert i + n < |s| ==> t[i - m + n] == s[i + n];
    StartBehind(s, i, m);
  }

  lemma {:induction false} StartBehind(s: string, i: nat, m: nat)
    requires m <= i <= |s| && StartsName(s, i)
    ensures StartsName(s[m..], i - m)
    decreases i
  {
    if m < i {
      assert s[m..][i - m - 1] == s[i - 1];
      if Scanner.IsNameContinue(s[i - 1]) {
        StartBehind(s, i - 1, m);
      }
    }
  }

  /** The other direction: where the keyword that was seen stands. */
  lemma {:induction false} SeenKeyword(s: string) returns (i: nat, n: nat)
    requires OperationSignal(s)
    ensures HasKeyword(s, i, n)
    decreases |s|
  {
    if Scanner.IsNameStart(s[0]) {
      var m := 1 + Scanner.NameLength(s[1..]);
      if IsOperationKeyword(s[..m]) {
        KeywordFirst(s);
        i, n := 0, m;
      } else {
        i, n := SeenKeyword(s[m..]);
        KeywordBehindName(s, i, n);
        i := i + m;
      }
    } else {
      i, n := SeenKeyword(s[1..]);
      KeywordBehindChar(s, i, n);
      i := i + 1;
    }
  }

  lemma KeywordFirst(s: string)
    requires s != "" && IsOperationKeyword(s[..1 + Scanner.NameLength(s[1..])])
    ensures HasKeyword(s, 0, 1 + Scanner.NameLength(s[1..]))
  {
    var m := 1 + Scanner.NameLength(s[1..]);
    Scanner.NameLengthIs(s[1..]);
    assert m < |s| ==> s[m] == s[1..][m - 1];
    assert s[0..0 + m] == s[..m];
  }

  lemma KeywordBehindName(s: string, i: nat, n: nat)
    requires s != "" && Scanner.IsNameStart(s[0])
    requires HasKeyword(s[1 + Scanner.NameLength(s[1..])..], i, n)
    ensures HasKeyword(s, i + 1 + Scanner.NameLength(s[1..]), n)
  {
    var m := 1 + Scanner.NameLength(s[1..]);
    var t := s[m..];
    Scanner.NameLengthIs(s[1..]);
    KeywordChars(t[i..i + n]);
    assert t[i] == t[i..i + n][0];
    assert m < |s| && t[0] == s[m] == s[1..][m - 1];
    KeywordInFront(s, i, n, m);
  }

  lemma KeywordBehindChar(s: string, i: nat, n: nat)
    requires s != "" && !Scanner.IsNameStart(s[0]) && HasKeyword(s[1..], i, n)
    ensures HasKeyword(s, i + 1, n)
  {
    assert StartsName(s, 1);
    KeywordInFront(s, i, n, 1);
  }

  lemma KeywordInFront(s: string, i: nat, n: nat, m: nat)
    requires m <= |s| && HasKeyword(s[m..], i, n) && (StartsName(s, m) || (i > 0 && !Scanner.IsNameContinue(s[m..][0])))
    ensures HasKeyword(s, i + m, n)
  {
    var t := s[m..];
    assert t[i..i + n] == s[i + m..i + m + n];
    assert i + n < |t| ==> t[i + n] == s[i + m + n];
    StartInFront(s, i, m);
  }

  lemma {:induction false} StartInFront(s: string, i: nat, m: nat)
    requires m <= |s| && i <= |s[m..]| && StartsName(s[m..], i)
    requires StartsName(s, m) || (i > 0 && !Scanner.IsNameContinue(s[m..][0]))
    ensures StartsName(s, i + m)
    decreases i
  {
    if i > 0 {
      assert s[m..][i - 1] == s[i + m - 1];
      if Scanner.IsNameContinue(s[i + m - 1]) {
        StartInFront(s, i - 1, m);
      }
    }
  }

  lemma KeywordChars(name: string)
    requires IsOperationKeyword(name)
    ensures name != "" && Scanner.IsNameStart(name[0])
    ensures forall k :: 0 <= k < |name| ==> Scanner.IsNameContinue(name[k])
  {
  }

  /** `coerce_json_encoded_body_value` */
  function Coerce(parse: Parser, body: Json): Json {
    match body
    case Str(raw) =>
      if OpensJson(Trim(raw)) then (if parse(Trim(raw)).Some? then parse(Trim(raw)).value else body) else body
    case _ => body
  }

  datatype Shape = Shape(method_: string, body: Option<Json>, addsContentType: bool)

  predicate IsBareOperation(body: Json) {
    body.Str? && Trim(body.s) != "" && OperationSignal(Trim(body.s))
  }

  predicate IsBodyless(method_: string) { method_ == "GET" || method_ == "HEAD" }

  function ShapeMethod(method_: string, graphql: bool): string {
    var m := if Trim(method_) == "" then "GET" else Upper(Trim(method_));
    if graphql && IsBodyless(m) then "POST" else m
  }

  function ShapeBody(parse: Parser, body: Json, graphql: bool): Json {
    var b := Coerce(parse, body);
    if graphql && IsBareOperation(b) then QueryObject(Trim(b.s)) else b
  }

  function NormalShape(parse: Parser, method_: string, hasContentType: bool, body: Option<Json>, graphql: bool): Shape {
    Shape(
      ShapeMethod(method_, graphql),
      if body.Some? then Some(ShapeBody(parse, body.value, graphql)) else None,
      body.Some? && !hasContentType)
  }

  /** `normalize_request_shape` */
  method NormalizeRequestShape(parse: Parser, rawMethod: string, hasContentType: bool, original: Option<Json>,
                               graphql: bool)
      returns (shape: Shape)
    ensures shape == NormalShape(parse, rawMethod, hasContentType, original, graphql)
  {
    var trimmed := Trim(rawMethod);
    var method_ := if trimmed == "" then "GET" else Upper(trimmed);
    var body := if original.Some? then Some(Coerce(parse, original.value)) else None;
    if graphql {
      if IsBodyless(method_) {
        method_ := "POST";
      }
      if body.Some? && body.value.Str? {
        var query := Trim(body.value.s);
        var signal := DocumentHasOperationSignal(query);
        if query != "" && signal {
          body := Some(QueryObject(query));
        }
      }
    }
    shape := Shape(method_, body, body.Some? && !hasContentType);
  }

  lemma CoerceTwice(parse: Parser, body: Json)
    requires ReadsJson(parse)
    ensures Coerce(parse, Coerce(parse, body)) == Coerce(parse, body)
  {
  }

  lemma BodyTwice(parse: Parser, body: Json, graphql: bool)
    requires ReadsJson(parse)
    ensures ShapeBody(parse, ShapeBody(parse, body, graphql), graphql) == ShapeBody(parse, body, graphql)
  {
    CoerceTwice(parse, body);
  }

  lemma FixedMethod(m: string)
    requires IsTrimmed(m) && m != ""
    ensures Trim(Upper(m)) == Upper(m) && Upper(Upper(m)) == Upper(m) && Upper(m) != ""
  {
    TrimUpper(m);
    assert forall c :: IsWhitespace(UpperChar(c)) <==> IsWhitespace(c);
    assert IsTrimmed(Upper(m));
  }

  lemma GivenMethods()
    ensures Trim("GET") == "GET" && Trim("POST") == "POST" && Upper("GET") == "GET" && Upper("POST") == "POST"
    ensures !IsBodyless("POST")
  {
    assert IsTrimmed("GET") && IsTrimmed("POST");
  }

  lemma MethodTwice(method_: string, graphql: bool)
    ensures ShapeMethod(ShapeMethod(method_, graphql), graphql) == ShapeMethod(method_, graphql)
  {
    GivenMethods();
    if Trim(method_) != "" {
      FixedMethod(Trim(method_));
    }
  }

  /** A normalised request is normal: a second pass, told about the content type the first one
      added, keeps method and body and adds no second content type; and a request has a
      content type from the start or is given one exactly when it has a body. */
  lemma ShapeTwice(parse: Parser, method_: string, hasContentType: bool, body: Option<Json>, graphql: bool)
    requires ReadsJson(parse)
    ensures var one := NormalShape(parse, method_, hasContentType, body, graphql);
            && NormalShape(parse, one.method_, hasContentType || one.addsContentType, one.body, graphql)
               == one.(addsContentType := false)
            && (one.body.Some? ==> hasContentType != one.addsContentType)
            && (one.body.None? ==> !one.addsContentType)
            && (graphql ==> !IsBodyless(one.method_))
            && (graphql && one.body.Some? ==> !IsBareOperation(one.body.value))
  {
    MethodTwice(method_, graphql);
    MethodCarriesBody(method_);
    if body.Some? {
      BodyTwice(parse, body.value, graphql);
    }
  }

  lemma MethodCarriesBody(method_: string)
    ensures !IsBodyless(ShapeMethod(method_, true))
  {
    GivenMethods();
  }
}
