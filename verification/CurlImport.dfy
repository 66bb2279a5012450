/** Importing a sample `curl` command: the quoting tokenizer and the loop that reads the
    flags. */
module CurlImport {
  import opened Results
  import opened Text

  // ---- the tokenizer ----

  function Tokenize(s: string, current: string, quote: Option<char>): seq<string>
    decreases |s|
  {
    if s == "" then (if current == "" then [] else [current])
    else if quote.Some? then
      if s[0] == quote.value then Tokenize(s[1..], current, None)
      else if s[0] == '\\' then
        (if |s| == 1 then Tokenize("", current, quote) else Tokenize(s[2..], current + [s[1]], quote))
      else Tokenize(s[1..], current + [s[0]], quote)
    else if s[0] == '"' || s[0] == '\'' then Tokenize(s[1..], current, Some(s[0]))
    else if IsWhitespace(s[0]) then
      (if current == "" then [] else [current]) + Tokenize(s[1..], "", None)
    else Tokenize(s[1..], current + [s[0]], None)
  }

  /** `tokenize_curl` */
  method TokenizeCurl(raw: string) returns (tokens: seq<string>)
    ensures tokens == Tokenize(raw, "", None)
  {
    tokens := [];
    var current: string, quote: Option<char> := "", None;
    var i := 0;
    while i < |raw|
      invariant i <= |raw|
      invariant tokens + Tokenize(raw[i..], current, quote) == Tokenize(raw, "", None)
    {
      var ch := raw[i];
      Slice(raw, i, 1);
      i := i + 1;
      if quote.Some? {
        if ch == quote.value {
          quote := None;
        } else if ch == '\\' {
          if i < |raw| {
            Slice(raw, i - 1, 2);
            current := current + [raw[i]];
            i := i + 1;
          }
        } else {
          current := current + [ch];
        }
      } else if ch == '"' || ch == '\'' {
        quote := Some(ch);
      } else if IsWhitespace(ch) {
        if current != "" {
          AppendToken(tokens, current, Tokenize(raw[i..], "", None));
          tokens := tokens + [current];
          current := "";
        }
      } else {
        current := current + [ch];
      }
    }
    if current != "" {
      tokens := tokens + [current];
    }
  }

  lemma Slice(s: string, i: nat, k: nat)
    requires i < |s| && i + k <= |s|
    ensures s[i..][k..] == s[i + k..] && s[i..][0] == s[i]
  {
  }

  lemma AppendToken(tokens: seq<string>, token: string, rest: seq<string>)
    ensures tokens + ([token] + rest) == (tokens + [token]) + rest
  {
  }

  // ---- quoting ----

  /** One quoted word of a command line and the white space behind it. */
  datatype Word = Word(text: string, quote: char, space: string)

  predicate WordOk(w: Word) {
    && (w.quote == '"' || w.quote == '\'')
    && w.space != "" && forall i :: 0 <= i < |w.space| ==> IsWhitespace(w.space[i])
  }

  function Escape(text: string, quote: char): string {
    if text == "" then ""
    else (if text[0] == quote || text[0] == '\\' then ['\\', text[0]] else [text[0]]) + Escape(text[1..], quote)
  }

  function WordText(w: Word): string { [w.quote] + (Escape(w.text, w.quote) + ([w.quote] + w.space)) }

  function CommandText(words: seq<Word>): string {
    if words == [] then "" else WordText(words[0]) + CommandText(words[1..])
  }

  function NonEmpty(words: seq<Word>): seq<string> {
    if words == [] then []
    else (if words[0].text == "" then [] else [words[0].text]) + NonEmpty(words[1..])
  }

  lemma {:induction false} TokenizeEscaped(text: string, quote: char, next: string, current: string)
    requires quote != '\\'
    ensures Tokenize(Escape(text, quote) + ([quote] + next), current, Some(quote))
         == Tokenize(next, current + text, None)
    decreases |text|
  {
    var s := Escape(text, quote) + ([quote] + next);
    if text == "" {
      assert s == [quote] + next && s[1..] == next && current + text == current;
    } else {
      var rest := Escape(text[1..], quote) + ([quote] + next);
      assert current + text == current + [text[0]] + text[1..];
      TokenizeEscaped(text[1..], quote, next, current + [text[0]]);
      if text[0] == quote || text[0] == '\\' {
        assert s[0] == '\\' && s[1] == text[0] && s[2..] == rest;
      } else {
        assert s[0] == text[0] && s[1..] == rest;
      }
    }
  }

  lemma {:induction false} TokenizeSpace(space: string, next: string, current: string)
    requires forall i :: 0 <= i < |space| ==> IsWhitespace(space[i])
    ensures Tokenize(space + next, current, None)
         == if space == "" then Tokenize(next, current, None)
            else (if current == "" then [] else [current]) + Tokenize(next, "", None)
    decreases |space|
  {
    var s := space + next;
    if space == "" {
      assert s == next;
    } else {
      assert s[0] == space[0] && s[1..] == space[1..] + next;
      TokenizeSpace(space[1..], next, "");
    }
  }

  /** Quoting round trip: the tokens of a command line of quoted words are the texts of its
      words, whatever they contain, except that an empty word leaves no token. */
  lemma {:induction false} TokensOfCommand(words: seq<Word>)
    requires forall i :: 0 <= i < |words| ==> WordOk(words[i])
    ensures Tokenize(CommandText(words), "", None) == NonEmpty(words)
  {
    if words != [] {
      var w := words[0];
      var rest := CommandText(words[1..]);
      var s := CommandText(words);
      assert s == [w.quote] + (Escape(w.text, w.quote) + ([w.quote] + (w.space + rest)));
      assert s[1..] == Escape(w.text, w.quote) + ([w.quote] + (w.space + rest));
      assert WordOk(w) && "" + w.text == w.text;
      TokenizeEscaped(w.text, w.quote, w.space + rest, "");
      TokenizeSpace(w.space, rest, w.text);
      TokensOfCommand(words[1..]);
    }
  }

  // ---- the flag loop ----

  datatype Flag = Curl | MethodFlag | HeaderFlag | DataFlag | UserFlag | UserInline(text: string) | Url | Unknown

  function TrimStartMatches(s: string, prefix: string): string
    requires prefix != ""
    decreases |s|
  {
    if prefix <= s then TrimStartMatches(s[|prefix|..], prefix) else s
  }

  /** The arms of the match on a token, in order. */
  function FlagOf(token: string): Flag {
    if token == "curl" then Curl
    else if token == "-X" || token == "--request" then MethodFlag
    else if token == "-H" || token == "--header" then HeaderFlag
    else if token == "-d" || token == "--data" || token == "--data-raw" || token == "--data-binary" then DataFlag
    else if token == "-u" || token == "--user" then UserFlag
    else if "--user=" <= token then UserInline(TrimStartMatches(token, "--user="))
    else if "-u" <= token && |token| > 2 then UserInline(TrimStartMatches(token, "-u"))
    else if "http://" <= token || "https://" <= token then Url
    else Unknown
  }

  predicate TakesValue(f: Flag) { f.MethodFlag? || f.HeaderFlag? || f.DataFlag? || f.UserFlag? }

  datatype Fields = Fields(
    method_: string,
    methodExplicit: bool,
    url: string,
    headers: map<string, string>,
    body: Option<string>,
    username: Option<string>)

  const NO_FIELDS := Fields("GET", false, "", map[], None, None)

  function Username(value: string): string {
    match SplitOnce(value, ':')
    case Some((name, _)) => Trim(name)
    case None => Trim(value)
  }

  /** What a flag does with its value. */
  function Apply(f: Flag, value: string, x: Fields): Fields {
    match f
    case MethodFlag => x.(method_ := Upper(value), methodExplicit := true)
    case HeaderFlag =>
      (match SplitOnce(value, ':')
       case Some((key, raw)) => x.(headers := x.headers[Trim(key) := Trim(raw)])
       case None => x)
    case DataFlag => x.(body := Some(value))
    case UserFlag => x.(username := Some(Username(value)))
    case UserInline(text) => x.(username := Some(Username(text)))
    case Url => x.(url := value)
    case Curl => x
    case Unknown => x
  }

  function ReadFlags(tokens: seq<string>, x: Fields): Fields
    decreases |tokens|
  {
    if tokens == [] then x
    else
      var f := FlagOf(tokens[0]);
      if !TakesValue(f) then ReadFlags(tokens[1..], Apply(f, tokens[0], x))
      else if |tokens| == 1 then x
      else ReadFlags(tokens[2..], Apply(f, tokens[1], x))
  }

  function Finish(x: Fields): Fields {
    if !x.methodExplicit && x.body.Some? then x.(method_ := "POST") else x
  }

  /** The token loop of `parse_curl_text`. */
  method ParseCurlTokens(tokens: seq<string>) returns (x: Fields)
    ensures x == Finish(ReadFlags(tokens, NO_FIELDS))
  {
    x := NO_FIELDS;
    var idx := 0;
    while idx < |tokens|
      invariant idx <= |tokens|
      invariant ReadFlags(tokens[idx..], x) == ReadFlags(tokens, NO_FIELDS)
    {
      ghost var rest := tokens[idx..];
      var f := FlagOf(tokens[idx]);
      match f {
        case MethodFlag =>
          if idx + 1 < |tokens| {
            x := x.(method_ := Upper(tokens[idx + 1]), methodExplicit := true);
            idx := idx + 1;
          }
        case HeaderFlag =>
          if idx + 1 < |tokens| {
            match SplitOnce(tokens[idx + 1], ':') {
              case Some((key, raw)) => x := x.(headers := x.headers[Trim(key) := Trim(raw)]);
              case None =>
            }
            idx := idx + 1;
          }
        case DataFlag =>
          if idx + 1 < |tokens| {
            x := x.(body := Some(tokens[idx + 1]));
            idx := idx + 1;
          }
        case UserFlag =>
          if idx + 1 < |tokens| {
            x := x.(username := Some(Username(tokens[idx + 1])));
            idx := idx + 1;
          }
        case UserInline(text) => x := x.(username := Some(Username(text)));
        case Url => x := x.(url := tokens[idx]);
        case Curl =>
        case Unknown =>
      }
      idx := idx + 1;
      assert tokens[idx..] == rest[if TakesValue(f) && |rest| > 1 then 2 else 1..];
    }
    if !x.methodExplicit && x.body.Some? {
      x := x.(method_ := "POST");
    }
  }

  // ---- arguments ----

  /** A flag with its value, or a token that stands alone. */
  datatype Argument = Valued(flag: string, value: string) | Alone(token: string)

  predicate ArgumentOk(a: Argument) {
    match a
    case Valued(flag, _) => TakesValue(FlagOf(flag))
    case Alone(token) => !TakesValue(FlagOf(token))
  }

  function ArgumentTokens(args: seq<Argument>): seq<string> {
    if args == [] then []
    else
      (match args[0] case Valued(flag, value) => [flag, value] case Alone(token) => [token])
      + ArgumentTokens(args[1..])
  }

  function ApplyAll(args: seq<Argument>, x: Fields): Fields
    decreases |args|
  {
    if args == [] then x
    else
      match args[0]
      case Valued(flag, value) => ApplyAll(args[1..], Apply(FlagOf(flag), value, x))
      case Alone(token) => ApplyAll(args[1..], Apply(FlagOf(token), token, x))
  }

  /** The loop applies exactly the arguments, in order: a value is never itself read as a
      flag or as the URL, whatever it looks like. */
  lemma {:induction false} ReadArguments(args: seq<Argument>, x: Fields)
    requires forall i :: 0 <= i < |args| ==> ArgumentOk(args[i])
    ensures ReadFlags(ArgumentTokens(args), x) == ApplyAll(args, x)
    decreases |args|
  {
    if args != [] {
      assert ArgumentOk(args[0]);
      var tokens := ArgumentTokens(args);
      var rest := ArgumentTokens(args[1..]);
      match args[0] {
        case Valued(flag, value) =>
          assert tokens[0] == flag && tokens[1] == value && tokens[2..] == rest;
          ReadArguments(args[1..], Apply(FlagOf(flag), value, x));
        case Alone(token) =>
          assert tokens[0] == token && tokens[1..] == rest;
          ReadArguments(args[1..], Apply(FlagOf(token), token, x));
      }
    }
  }

  // ---- requests ----

  datatype Header = Header(key: string, value: string)

  datatype Request = Request(method_: string, headers: seq<Header>, body: Option<string>, url: string)

  predicate HeaderOk(h: Header) { IsTrimmed(h.key) && IsTrimmed(h.value) && ':' !in h.key }

  predicate RequestOk(r: Request) {
    && (forall i :: 0 <= i < |r.headers| ==> HeaderOk(r.headers[i]))
    && FlagOf(r.url).Url?
  }

  function HeaderValue(h: Header): string { h.key + [':'] + ([' '] + h.value) }

  function HeaderArguments(headers: seq<Header>): seq<Argument> {
    if headers == [] then [] else [Valued("-H", HeaderValue(headers[0]))] + HeaderArguments(headers[1..])
  }

  function BodyArguments(body: Option<string>): seq<Argument> {
    match body
    case None => []
    case Some(text) => [Valued("-d", text)]
  }

  function RequestArguments(r: Request): seq<Argument> {
    [Alone("curl"), Valued("-X", r.method_)]
    + (HeaderArguments(r.headers) + (BodyArguments(r.body) + [Alone(r.url)]))
  }

  function HeaderMap(headers: seq<Header>, known: map<string, string>): map<string, string>
    decreases |headers|
  {
    if headers == [] then known else HeaderMap(headers[1..], known[headers[0].key := headers[0].value])
  }

  function RequestFields(r: Request): Fields {
    Fields(Upper(r.method_), true, r.url, HeaderMap(r.headers, map[]), r.body, None)
  }

  lemma FlagNames()
    ensures FlagOf("curl") == Curl && FlagOf("-X") == MethodFlag && FlagOf("-H") == HeaderFlag
         && FlagOf("-d") == DataFlag
  {
  }

  lemma ApplyHeader(h: Header, x: Fields)
    requires HeaderOk(h)
    ensures Apply(HeaderFlag, HeaderValue(h), x) == x.(headers := x.headers[h.key := h.value])
  {
    SplitOnceAt(h.key, ':', [' '] + h.value);
    TrimSpace(h.value);
  }

  lemma {:induction false} ApplyConcat(one: seq<Argument>, two: seq<Argument>, x: Fields)
    ensures ApplyAll(one + two, x) == ApplyAll(two, ApplyAll(one, x))
    decreases |one|
  {
    if one == [] {
      assert one + two == two;
    } else {
      assert (one + two)[1..] == one[1..] + two;
      match one[0] {
        case Valued(flag, value) => ApplyConcat(one[1..], two, Apply(FlagOf(flag), value, x));
        case Alone(token) => ApplyConcat(one[1..], two, Apply(FlagOf(token), token, x));
      }
    }
  }

  lemma {:induction false} ApplyHeaders(headers: seq<Header>, x: Fields)
    requires forall i :: 0 <= i < |headers| ==> HeaderOk(headers[i])
    ensures ApplyAll(HeaderArguments(headers), x) == x.(headers := HeaderMap(headers, x.headers))
    ensures forall i :: 0 <= i < |HeaderArguments(headers)| ==> ArgumentOk(HeaderArguments(headers)[i])
    decreases |headers|
  {
    FlagNames();
    if headers != [] {
      ApplyHeader(headers[0], x);
      ApplyHeaders(headers[1..], x.(headers := x.headers[headers[0].key := headers[0].value]));
    }
  }

  /** The method and the words in front of it. */
  lemma ApplyFirst(method_: string)
    ensures var first := [Alone("curl"), Valued("-X", method_)];
            && ApplyAll(first, NO_FIELDS) == NO_FIELDS.(method_ := Upper(method_), methodExplicit := true)
            && forall i :: 0 <= i < |first| ==> ArgumentOk(first[i])
  {
    FlagNames();
    var first := [Alone("curl"), Valued("-X", method_)];
    var rest := [Valued("-X", method_)];
    assert first[0] == Alone("curl") && first[1..] == rest && rest[1..] == [];
    assert ApplyAll(first, NO_FIELDS) == ApplyAll(rest, NO_FIELDS);
    assert ApplyAll(rest, NO_FIELDS) == ApplyAll(rest[1..], Apply(MethodFlag, method_, NO_FIELDS));
  }

  lemma ApplyBody(body: Option<string>, x: Fields)
    requires x.body.None?
    ensures ApplyAll(BodyArguments(body), x) == x.(body := body)
    ensures forall i :: 0 <= i < |BodyArguments(body)| ==> ArgumentOk(BodyArguments(body)[i])
  {
    FlagNames();
    var arguments := BodyArguments(body);
    assert arguments != [] ==> arguments[1..] == [];
  }

  lemma ApplyUrl(url: string, x: Fields)
    requires FlagOf(url).Url?
    ensures ApplyAll([Alone(url)], x) == Apply(FlagOf(url), url, x)
    ensures ArgumentOk(Alone(url))
  {
    var last := [Alone(url)];
    assert last[1..] == [];
  }

  lemma ApplyRequest(r: Request)
    requires RequestOk(r)
    ensures ApplyAll(RequestArguments(r), NO_FIELDS) == RequestFields(r)
    ensures forall i :: 0 <= i < |RequestArguments(r)| ==> ArgumentOk(RequestArguments(r)[i])
  {
    var first := [Alone("curl"), Valued("-X", r.method_)];
    var headers := HeaderArguments(r.headers);
    var body := BodyArguments(r.body);
    var last := [Alone(r.url)];
    var x := NO_FIELDS.(method_ := Upper(r.method_), methodExplicit := true);
    ApplyFirst(r.method_);
    ApplyHeaders(r.headers, x);
    var y := x.(headers := HeaderMap(r.headers, map[]));
    ApplyBody(r.body, y);
    ApplyUrl(r.url, y.(body := r.body));
    ApplyConcat(first, headers + (body + last), NO_FIELDS);
    ApplyConcat(headers, body + last, x);
    ApplyConcat(body, last, y);
  }

  /** The command line of a list of tokens, each in double quotes. */
  function Quoted(tokens: seq<string>): seq<Word> {
    seq(|tokens|, i requires 0 <= i < |tokens| => Word(tokens[i], '"', " "))
  }

  function NonEmptyTokens(tokens: seq<string>): seq<string> {
    if tokens == [] then []
    else (if tokens[0] == "" then [] else [tokens[0]]) + NonEmptyTokens(tokens[1..])
  }

  lemma {:induction false} QuotedTokens(tokens: seq<string>)
    ensures NonEmpty(Quoted(tokens)) == NonEmptyTokens(tokens)
    ensures forall i :: 0 <= i < |Quoted(tokens)| ==> WordOk(Quoted(tokens)[i])
  {
    if tokens != [] {
      assert Quoted(tokens)[1..] == Quoted(tokens[1..]);
      QuotedTokens(tokens[1..]);
    }
  }

  function CommandOf(r: Request): string { CommandText(Quoted(ArgumentTokens(RequestArguments(r)))) }

  function ParsedCommand(command: string): Fields { Finish(ReadFlags(Tokenize(command, "", None), NO_FIELDS)) }

  /** No token of the argument is empty. */
  predicate HasText(argument: Argument) {
    match argument
    case Valued(flag, value) => flag != "" && value != ""
    case Alone(token) => token != ""
  }

  lemma ArgumentsOfRequest(r: Request)
    requires RequestOk(r) && r.method_ != "" && r.body != Some("")
    ensures forall i :: 0 <= i < |RequestArguments(r)| ==> HasText(RequestArguments(r)[i])
  {
    HeadersHaveText(r.headers);
    UrlHasText(r.url);
    var headers := HeaderArguments(r.headers);
    var body := BodyArguments(r.body);
    var last := [Alone(r.url)];
    var first := [Alone("curl"), Valued("-X", r.method_)];
    AllHaveText(body, last);
    AllHaveText(headers, body + last);
    AllHaveText(first, headers + (body + last));
  }

  lemma UrlHasText(url: string)
    requires FlagOf(url).Url?
    ensures url != ""
  {
    assert FlagOf("") == Unknown;
  }

  lemma {:induction false} HeadersHaveText(headers: seq<Header>)
    ensures forall i :: 0 <= i < |HeaderArguments(headers)| ==> HasText(HeaderArguments(headers)[i])
  {
    if headers != [] {
      HeadersHaveText(headers[1..]);
      assert |HeaderValue(headers[0])| >= 2;
    }
  }

  lemma AllHaveText(one: seq<Argument>, two: seq<Argument>)
    requires forall i :: 0 <= i < |one| ==> HasText(one[i])
    requires forall i :: 0 <= i < |two| ==> HasText(two[i])
    ensures forall i :: 0 <= i < |one + two| ==> HasText((one + two)[i])
  {
  }

  lemma {:induction false} NoEmptyToken(args: seq<Argument>)
    requires forall i :: 0 <= i < |args| ==> HasText(args[i])
    ensures NonEmptyTokens(ArgumentTokens(args)) == ArgumentTokens(args)
  {
    if args != [] {
      NoEmptyToken(args[1..]);
      var tokens := ArgumentTokens(args);
      match args[0] {
        case Valued(flag, value) =>
          assert tokens == [flag] + ([value] + ArgumentTokens(args[1..]));
          assert tokens[1..] == [value] + ArgumentTokens(args[1..]);
          assert tokens[1..][1..] == ArgumentTokens(args[1..]);
        case Alone(token) =>
          assert tokens == [token] + ArgumentTokens(args[1..]);
          assert tokens[1..] == ArgumentTokens(args[1..]);
      }
    }
  }

  /** Curl round trip: a request with a method and without an empty body comes back from its
      command line as it was, the method in upper case. */
  lemma CurlRoundTrip(r: Request)
    requires RequestOk(r) && r.method_ != "" && r.body != Some("")
    ensures ParsedCommand(CommandOf(r)) == RequestFields(r)
  {
    var args := RequestArguments(r);
    ArgumentsOfRequest(r);
    ApplyRequest(r);
    QuotedArguments(args);
    ReadArguments(args, NO_FIELDS);
  }

  /** Arguments without empty tokens come back from their quoted command line. */
  lemma QuotedArguments(args: seq<Argument>)
    requires forall i :: 0 <= i < |args| ==> HasText(args[i])
    ensures Tokenize(CommandText(Quoted(ArgumentTokens(args))), "", None) == ArgumentTokens(args)
  {
    NoEmptyToken(args);
    QuotedTokens(ArgumentTokens(args));
    TokensOfCommand(Quoted(ArgumentTokens(args)));
  }

  lemma {:induction false} AllNonEmpty(tokens: seq<string>)
    ensures forall i :: 0 <= i < |NonEmptyTokens(tokens)| ==> NonEmptyTokens(tokens)[i] != ""
  {
    if tokens != [] {
      AllNonEmpty(tokens[1..]);
    }
  }

  /** No flag stores an empty method or body when there are no empty tokens. */
  lemma {:induction false} ReadNoEmpty(tokens: seq<string>, x: Fields)
    requires forall i :: 0 <= i < |tokens| ==> tokens[i] != ""
    requires x.method_ != "" && x.body != Some("")
    ensures ReadFlags(tokens, x).method_ != "" && ReadFlags(tokens, x).body != Some("")
    decreases |tokens|
  {
    if tokens != [] {
      var f := FlagOf(tokens[0]);
      if !TakesValue(f) {
        ReadNoEmpty(tokens[1..], Apply(f, tokens[0], x));
      } else if |tokens| > 1 {
        ReadNoEmpty(tokens[2..], Apply(f, tokens[1], x));
      }
    }
  }

  /** The round trip holds if and only if the method and the body are not empty: an empty
      word vanishes, and the flag in front of it takes the next word for its value. */
  lemma CurlRoundTripIff(r: Request)
    requires RequestOk(r)
    ensures ParsedCommand(CommandOf(r)) == RequestFields(r) <==> r.method_ != "" && r.body != Some("")
  {
    if r.method_ != "" && r.body != Some("") {
      CurlRoundTrip(r);
    } else {
      var tokens := ArgumentTokens(RequestArguments(r));
      QuotedTokens(tokens);
      TokensOfCommand(Quoted(tokens));
      AllNonEmpty(tokens);
      ReadNoEmpty(NonEmptyTokens(tokens), NO_FIELDS);
    }
  }
}
