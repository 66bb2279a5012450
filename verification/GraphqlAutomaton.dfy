/** The scanner as an automaton that reads one character at a time. It is the same scanner, and
    shows in which state a piece of text leaves it. */
module GraphqlAutomaton {
  import opened Text
  import opened GraphqlScanner

  /** Where the scanner stands. `Quote1` and `Quote2` are behind one and two quotes that may
      open a string or a block string. */
  datatype Mode =
    | Code | InComment | Quote1 | Quote2 | InString | InEscape
    | InBlock(run: nat)
    | InName(name: string)

  datatype State = State(mode: Mode, depth: nat, kinds: seq<OperationType>)

  function CodeStep(q: State, c: char): State {
    if c == '#' then q.(mode := InComment)
    else if c == '"' then q.(mode := Quote1)
    else if c == '{' then State(Code, q.depth + 1, q.kinds + AtDepth([Query], q.depth))
    else if c == '}' then State(Code, if q.depth > 0 then q.depth - 1 else 0, q.kinds)
    else if IsNameStart(c) then q.(mode := InName([c]))
    else q.(mode := Code)
  }

  /** The kind of a name is known at its end. */
  function EndName(q: State): State {
    if q.mode.InName? then State(Code, q.depth, q.kinds + AtDepth(NameKind(q.mode.name), q.depth)) else q
  }

  function Step(q: State, c: char): State {
    match q.mode
    case Code => CodeStep(q, c)
    case InComment => if c == '\n' || c == '\r' then q.(mode := Code) else q
    case Quote1 => q.(mode := if c == '"' then Quote2 else if c == '\\' then InEscape else InString)
    case Quote2 => if c == '"' then q.(mode := InBlock(0)) else CodeStep(q, c)
    case InString => if c == '\\' then q.(mode := InEscape) else if c == '"' then q.(mode := Code) else q
    case InEscape => q.(mode := InString)
    case InBlock(run) =>
      q.(mode := if c != '"' then InBlock(0) else if run == 2 then Code else InBlock(run + 1))
    case InName(name) => if IsNameContinue(c) then q.(mode := InName(name + [c])) else CodeStep(EndName(q), c)
  }

  function Run(q: State, s: string): State
    decreases |s|
  {
    if s == "" then q else Run(Step(q, s[0]), s[1..])
  }

  function Found(q: State): seq<OperationType> { EndName(q).kinds }

  lemma {:induction false} RunConcat(q: State, s: string, t: string)
    ensures Run(q, s + t) == Run(Run(q, s), t)
    decreases |s|
  {
    if s == "" {
      assert s + t == t;
    } else {
      assert (s + t)[0] == s[0] && (s + t)[1..] == s[1..] + t;
      RunConcat(Step(q, s[0]), s[1..], t);
    }
  }

  // ---- it is the same scanner ----

  lemma {:induction false} RunComment(s: string, depth: nat, kinds: seq<OperationType>)
    ensures Found(Run(State(InComment, depth, kinds), s)) == Found(Run(State(Code, depth, kinds), SkipComment(s)))
  {
    if s != "" && s[0] != '\n' && s[0] != '\r' {
      RunComment(s[1..], depth, kinds);
    }
  }

  lemma {:induction false} RunString(s: string, depth: nat, kinds: seq<OperationType>)
    ensures Found(Run(State(InString, depth, kinds), s)) == Found(Run(State(Code, depth, kinds), SkipString(s)))
    decreases |s|
  {
    if s == "" {
    } else if s[0] == '\\' {
      if |s| > 1 {
        assert s[1..][0] == s[1] && s[1..][1..] == s[2..];
        assert Run(State(InString, depth, kinds), s) == Run(State(InEscape, depth, kinds), s[1..]);
        RunString(s[2..], depth, kinds);
      } else {
        assert s[1..] == "";
      }
    } else if s[0] != '"' {
      RunString(s[1..], depth, kinds);
    }
  }

  lemma {:induction false} RunBlock(s: string, run: nat, depth: nat, kinds: seq<OperationType>)
    requires run < 3
    ensures Found(Run(State(InBlock(run), depth, kinds), s)) == Found(Run(State(Code, depth, kinds), SkipBlock(s, run)))
    decreases |s|
  {
    if s != "" && s[0] != '"' {
      RunBlock(s[1..], 0, depth, kinds);
    } else if s != "" && run < 2 {
      RunBlock(s[1..], run + 1, depth, kinds);
    }
  }

  lemma {:induction false} RunName(name: string, s: string, depth: nat, kinds: seq<OperationType>)
    ensures var n := NameLength(s);
            Found(Run(State(InName(name), depth, kinds), s))
            == Found(Run(State(Code, depth, kinds + AtDepth(NameKind(name + s[..n]), depth)), s[n..]))
    decreases |s|
  {
    var n := NameLength(s);
    if n == 0 {
      assert name + s[..0] == name && s[0..] == s;
    } else {
      RunName(name + [s[0]], s[1..], depth, kinds);
      NameGrows(name, s, n);
    }
  }

  lemma NameGrows(name: string, s: string, n: nat)
    requires 0 < n <= |s|
    ensures (name + [s[0]]) + s[1..][..n - 1] == name + s[..n] && s[1..][n - 1..] == s[n..]
  {
  }

  /** Behind an opening quote, when no block string opens. */
  lemma RunQuote(s: string, depth: nat, kinds: seq<OperationType>)
    requires !(|s| >= 2 && s[0] == '"' && s[1] == '"')
    ensures Found(Run(State(Quote1, depth, kinds), s)) == Found(Run(State(Code, depth, kinds), SkipString(s)))
  {
    if s != "" && s[0] == '"' {
      RunEmptyString(s[1..], depth, kinds);
    } else if s != "" {
      RunString(s, depth, kinds);
      var q := State(Quote1, depth, kinds);
      assert Step(q, s[0]) == Step(State(InString, depth, kinds), s[0]);
    }
  }

  lemma RunEmptyString(s: string, depth: nat, kinds: seq<OperationType>)
    requires s == "" || s[0] != '"'
    ensures Found(Run(State(Quote2, depth, kinds), s)) == Found(Run(State(Code, depth, kinds), s))
  {
  }

  /** The automaton finds what the scanner finds. */
  lemma {:induction false} ScanIsRun(s: string, depth: nat, kinds: seq<OperationType>)
    ensures Found(Run(State(Code, depth, kinds), s)) == kinds + Scan(s, depth)
    decreases |s|
  {
    if s == "" {
      assert kinds + [] == kinds;
    } else {
      ScanOne(s, depth);
      RunConstruct(s, depth, kinds);
      ScanIsRun(Skip(s), DepthAfter(s[0], depth), kinds + KindAt(s, depth));
      Associate(kinds, KindAt(s, depth), Scan(Skip(s), DepthAfter(s[0], depth)));
    }
  }

  lemma Associate(a: seq<OperationType>, b: seq<OperationType>, c: seq<OperationType>)
    ensures (a + b) + c == a + (b + c)
  {
  }

  /** The automaton does with the construct at the start of `s` what the scanner does. */
  ghost predicate ReadsAlike(s: string, depth: nat, kinds: seq<OperationType>)
    requires s != ""
  {
    Found(Run(State(Code, depth, kinds), s))
    == Found(Run(State(Code, DepthAfter(s[0], depth), kinds + KindAt(s, depth)), Skip(s)))
  }

  lemma RunConstruct(s: string, depth: nat, kinds: seq<OperationType>)
    requires s != ""
    ensures ReadsAlike(s, depth, kinds)
  {
    if s[0] == '#' || s[0] == '"' {
      RunSkipped(s, depth, kinds);
    } else if IsNameStart(s[0]) {
      RunName([s[0]], s[1..], depth, kinds);
      NameOf(s);
    } else {
      assert kinds + [] == kinds;
    }
  }

  lemma RunSkipped(s: string, depth: nat, kinds: seq<OperationType>)
    requires s != "" && (s[0] == '#' || s[0] == '"')
    ensures ReadsAlike(s, depth, kinds)
  {
    assert kinds + KindAt(s, depth) == kinds;
    if s[0] == '#' {
      RunComment(s[1..], depth, kinds);
    } else if OpensBlock(s) {
      RunOpening(s, depth, kinds);
      RunBlock(s[3..], 0, depth, kinds);
    } else {
      RunQuote(s[1..], depth, kinds);
    }
  }

  lemma RunOpening(s: string, depth: nat, kinds: seq<OperationType>)
    requires OpensBlock(s)
    ensures Run(State(Code, depth, kinds), s) == Run(State(InBlock(0), depth, kinds), s[3..])
  {
    assert s[1..][0] == s[1] && s[1..][1..][0] == s[2] && s[1..][1..][1..] == s[3..];
    assert Run(State(Code, depth, kinds), s) == Run(State(Quote1, depth, kinds), s[1..]);
    assert Run(State(Quote1, depth, kinds), s[1..]) == Run(State(Quote2, depth, kinds), s[1..][1..]);
  }

  lemma NameOf(s: string)
    requires s != ""
    ensures var n := NameLength(s[1..]);
            [s[0]] + s[1..][..n] == s[..1 + n] && s[1..][n..] == s[1 + n..]
  {
  }

  // ---- states behind a text ----

  /** Found kinds are never forgotten. */
  lemma {:induction false} RunKeepsKinds(q: State, s: string)
    ensures q.kinds <= Run(q, s).kinds <= Found(Run(q, s))
    decreases |s|
  {
    if s != "" {
      assert q.kinds <= Step(q, s[0]).kinds;
      RunKeepsKinds(Step(q, s[0]), s[1..]);
    }
  }

  /** The scanner is outside strings and comments: `Quote2` is behind an empty string. */
  predicate IsOutside(mode: Mode) { mode.Code? || mode.Quote2? }

  predicate IsInside(mode: Mode) {
    mode.InComment? || mode.Quote1? || mode.InString? || mode.InEscape? || mode.InBlock?
  }

  predicate IsTame(c: char) { c != '"' && c != '\n' && c != '\r' }

  /** Inside a string or comment, text without quotes and line ends is not seen at all. */
  lemma {:induction false} InsideStaysInside(q: State, s: string)
    requires IsInside(q.mode) && forall i :: 0 <= i < |s| ==> IsTame(s[i])
    ensures Found(Run(q, s)) == q.kinds
    decreases |s|
  {
    if s != "" {
      InsideStaysInside(Step(q, s[0]), s[1..]);
    }
  }

  /** A quote never leaves the scanner in a name. */
  lemma BehindQuote(q: State, s: string)
    requires s != "" && s[|s| - 1] == '"'
    ensures IsOutside(Run(q, s).mode) || IsInside(Run(q, s).mode)
  {
    var head := s[..|s| - 1];
    var last := [s[|s| - 1]];
    assert s == head + last && last[1..] == "";
    RunConcat(q, head, last);
    assert Run(q, s) == Step(Run(q, head), '"');
  }
}
