/** What the scanner makes of every document printed from a tree of tokens (section 2.1 of the
    GraphQL specification, October 2021). */
module GraphqlDocuments {
  import opened Text
  import opened GraphqlScanner
  import opened GraphqlAutomaton

  // ---- documents as trees of tokens ----

  datatype Ignored = Blank(c: char) | Comment(text: string, end: char)

  datatype StringItem = Plain(c: char) | Escaped(c: char)

  /** What stands in a block string: characters, and the escape of three quotes. */
  datatype BlockItem = Raw(c: char) | EscapedTriple

  datatype Token =
    | Name(text: string)
    | Number(text: string)
    | Punctuator(c: char)
    | Str(items: seq<StringItem>)
    | Block(content: seq<BlockItem>)
    | Braces(lead: seq<Ignored>, inner: seq<Piece>)

  /** A token and what is ignored behind it. */
  datatype Piece = Piece(token: Token, gap: seq<Ignored>)

  function IgnoredText(g: Ignored): string {
    match g
    case Blank(c) => [c]
    case Comment(text, end) => "#" + text + [end]
  }

  function GapText(gap: seq<Ignored>): string {
    if gap == [] then "" else IgnoredText(gap[0]) + GapText(gap[1..])
  }

  function ItemsText(items: seq<StringItem>): string {
    if items == [] then ""
    else (match items[0] case Plain(c) => [c] case Escaped(c) => ['\\', c]) + ItemsText(items[1..])
  }

  const TRIPLE := "\"\"\""

  function BlockText(items: seq<BlockItem>): string {
    if items == [] then ""
    else (match items[0] case Raw(c) => [c] case EscapedTriple => "\\" + TRIPLE) + BlockText(items[1..])
  }

  function TokenText(t: Token): string {
    match t
    case Name(text) => text
    case Number(text) => text
    case Punctuator(c) => [c]
    case Str(items) => "\"" + (ItemsText(items) + "\"")
    case Block(items) => TRIPLE + (BlockText(items) + TRIPLE)
    case Braces(lead, inner) => "{" + (GapText(lead) + (PiecesText(inner) + "}"))
  }

  function PiecesText(ps: seq<Piece>): string {
    if ps == [] then ""
    else TokenText(ps[0].token) + (GapText(ps[0].gap) + PiecesText(ps[1..]))
  }

  predicate IgnoredOk(g: Ignored) {
    match g
    case Blank(c) => IsWhitespace(c) || c == ',' || c as int == 0xFEFF
    case Comment(text, end) => (end == '\n' || end == '\r') && '\n' !in text && '\r' !in text
  }

  predicate GapOk(gap: seq<Ignored>) { forall i :: 0 <= i < |gap| ==> IgnoredOk(gap[i]) }

  predicate ItemOk(item: StringItem) { item.Plain? ==> item.c != '"' && item.c != '\\' }

  predicate IsNumberChar(c: char) { IsDigit(c) || c == '-' || c == '+' || c == '.' || c == 'e' || c == 'E' }

  /** No three quotes in a row, counting `run` before the text, and none at its end. */
  predicate BlockOk(text: string, run: nat) {
    if text == "" then run == 0
    else if text[0] == '"' then run < 2 && BlockOk(text[1..], run + 1)
    else BlockOk(text[1..], 0)
  }

  /** The same for the items of a block string, where an escaped triple quote is allowed. */
  predicate LegalBlock(items: seq<BlockItem>, run: nat) {
    if items == [] then run == 0
    else if items[0] == Raw('"') then run < 2 && LegalBlock(items[1..], run + 1)
    else LegalBlock(items[1..], 0)
  }

  predicate IsPunctuator(c: char) {
    c != '#' && c != '"' && c != '{' && c != '}' && !IsNameStart(c)
  }

  predicate TokenOk(t: Token) {
    match t
    case Name(text) => text != "" && IsNameStart(text[0]) && forall i :: 0 <= i < |text| ==> IsNameContinue(text[i])
    case Number(text) => forall i :: 0 <= i < |text| ==> IsNumberChar(text[i])
    case Punctuator(c) => IsPunctuator(c)
    case Str(items) => forall i :: 0 <= i < |items| ==> ItemOk(items[i])
    case Block(items) => LegalBlock(items, 0)
    case Braces(lead, inner) => GapOk(lead) && PiecesOk(inner, "}")
  }

  /** The token does not run into the text printed directly behind it. */
  predicate Separate(t: Token, next: string) {
    next == "" ||
    (match t
     case Name(_) => !IsNameContinue(next[0])
     case Number(_) => !IsNameContinue(next[0])
     case Str(items) => items == [] ==> next[0] != '"'
     case _ => true)
  }

  /** The pieces are printed as tokens of their own when `after` follows. */
  predicate PiecesOk(ps: seq<Piece>, after: string) {
    ps == [] ||
    (&& TokenOk(ps[0].token) && GapOk(ps[0].gap)
     && (ps[0].gap == [] ==> Separate(ps[0].token, PiecesText(ps[1..]) + after))
     && PiecesOk(ps[1..], after))
  }

  predicate PlainToken(t: Token) {
    match t
    case Block(items) => EscapedTriple !in items
    case Braces(_, inner) => PlainPieces(inner)
    case _ => true
  }

  /** No block string among the pieces holds an escaped triple quote. */
  predicate PlainPieces(ps: seq<Piece>) { ps == [] || (PlainToken(ps[0].token) && PlainPieces(ps[1..])) }

  /** Where the scanner stands behind a block string that begins at the brace depth. */
  function Behind(items: seq<BlockItem>, depth: nat): State {
    Run(State(Code, depth, []), TokenText(Block(items)))
  }

  /** The block string leaves the scanner outside strings and comments, at the same depth, and
      without a keyword found that writes. */
  predicate IsHarmless(items: seq<BlockItem>, depth: nat) {
    var q := Behind(items, depth);
    IsOutside(q.mode) && q.depth == depth && !Writes(q.kinds)
  }

  predicate HarmlessToken(t: Token, depth: nat) {
    match t
    case Block(items) => IsHarmless(items, depth)
    case Braces(_, inner) => HarmlessPieces(inner, depth + 1, "}")
    case _ => true
  }

  /** What the scanner takes for an empty string at the end of a block string is not continued. */
  predicate ClosedBefore(p: Piece, depth: nat, next: string) {
    p.token.Block? && p.gap == [] && Behind(p.token.content, depth).mode.Quote2? ==> next == "" || next[0] != '"'
  }

  /** Every block string among the pieces, at whatever depth, is harmless where it stands. */
  predicate HarmlessPieces(ps: seq<Piece>, depth: nat, after: string) {
    ps == [] ||
    (&& HarmlessToken(ps[0].token, depth)
     && ClosedBefore(ps[0], depth, PiecesText(ps[1..]) + after)
     && HarmlessPieces(ps[1..], depth, after))
  }

  /** What a token contributes at brace depth 0. */
  function TokenKind(t: Token): seq<OperationType> {
    match t
    case Name(text) => NameKind(text)
    case Braces(_, _) => [Query]
    case _ => []
  }

  function PiecesKinds(ps: seq<Piece>): seq<OperationType> {
    if ps == [] then [] else TokenKind(ps[0].token) + PiecesKinds(ps[1..])
  }

  /** What the scanner finds in a token at the depth; a harmless block string may show it a
      selection set. */
  function SeenToken(t: Token, depth: nat): seq<OperationType> {
    match t
    case Block(items) => Behind(items, depth).kinds
    case Braces(_, inner) => AtDepth([Query], depth) + SeenPieces(inner, depth + 1)
    case _ => AtDepth(TokenKind(t), depth)
  }

  function SeenPieces(ps: seq<Piece>, depth: nat): seq<OperationType> {
    if ps == [] then [] else SeenToken(ps[0].token, depth) + SeenPieces(ps[1..], depth)
  }

  // ---- the scanner reads back what was printed ----

  lemma {:induction false} SkipPrintedComment(text: string, end: char, next: string)
    requires (end == '\n' || end == '\r') && '\n' !in text && '\r' !in text
    ensures SkipComment(text + [end] + next) == next
  {
    var s := text + [end] + next;
    if text == "" {
      assert s[1..] == next;
    } else {
      assert s[0] == text[0] && text[0] in text;
      assert s[1..] == text[1..] + [end] + next;
      SkipPrintedComment(text[1..], end, next);
    }
  }

  lemma {:induction false} SkipPrintedString(items: seq<StringItem>, next: string)
    requires forall i :: 0 <= i < |items| ==> ItemOk(items[i])
    ensures SkipString(ItemsText(items) + "\"" + next) == next
  {
    var s := ItemsText(items) + "\"" + next;
    if items == [] {
      assert s[1..] == next;
    } else {
      var tail := ItemsText(items[1..]) + "\"" + next;
      SkipPrintedString(items[1..], next);
      match items[0] {
        case Plain(c) => assert s[0] == c && s[1..] == tail;
        case Escaped(c) => assert s[0] == '\\' && s[2..] == tail;
      }
    }
  }

  lemma {:induction false} SkipPrintedBlock(text: string, next: string, run: nat)
    requires BlockOk(text, run)
    ensures SkipBlock(text + TRIPLE + next, run) == next
    decreases |text|
  {
    var s := text + TRIPLE + next;
    if text == "" {
      assert s[0] == '"' && s[1..][0] == '"' && s[1..][1..][0] == '"';
      assert s[1..][1..][1..] == next;
      assert SkipBlock(s[1..][1..], 2) == next;
      assert SkipBlock(s[1..], 1) == next;
    } else {
      assert s[0] == text[0] && s[1..] == text[1..] + TRIPLE + next;
      SkipPrintedBlock(text[1..], next, if text[0] == '"' then run + 1 else 0);
    }
  }

  lemma ScanIgnored(g: Ignored, next: string, depth: nat)
    requires IgnoredOk(g)
    ensures Scan(IgnoredText(g) + next, depth) == Scan(next, depth)
  {
    var s := IgnoredText(g) + next;
    ScanOne(s, depth);
    match g {
      case Blank(c) =>
        assert s[0] == c && s[1..] == next;
        assert !IsNameStart(c);
      case Comment(text, end) =>
        assert s[0] == '#' && s[1..] == text + [end] + next;
        SkipPrintedComment(text, end, next);
    }
  }

  lemma {:induction false} ScanGap(gap: seq<Ignored>, next: string, depth: nat)
    requires GapOk(gap)
    ensures Scan(GapText(gap) + next, depth) == Scan(next, depth)
  {
    if gap == [] {
      assert GapText(gap) + next == next;
    } else {
      ScanGap(gap[1..], next, depth);
      ScanIgnored(gap[0], GapText(gap[1..]) + next, depth);
      JoinTexts(IgnoredText(gap[0]), GapText(gap[1..]), next);
    }
  }

  lemma ScanName(text: string, next: string, depth: nat)
    requires TokenOk(Name(text)) && Separate(Name(text), next)
    ensures Scan(text + next, depth) == AtDepth(NameKind(text), depth) + Scan(next, depth)
  {
    var s := text + next;
    ScanOne(s, depth);
    NameLengthOf(text[1..], next);
    assert s[1..] == text[1..] + next;
    assert s[..|text|] == text && s[|text|..] == next;
    assert Skip(s) == next;
  }

  lemma ScanPunctuator(c: char, next: string, depth: nat)
    requires IsPunctuator(c)
    ensures Scan([c] + next, depth) == Scan(next, depth)
  {
    var s := [c] + next;
    ScanOne(s, depth);
    assert s[0] == c && s[1..] == next;
  }

  lemma {:induction false} ScanNumber(text: string, next: string, depth: nat)
    requires TokenOk(Number(text)) && Separate(Number(text), next)
    ensures Scan(text + next, depth) == Scan(next, depth)
    decreases |text|
  {
    var s := text + next;
    if text == "" {
      assert s == next;
    } else if IsNameStart(text[0]) {
      var n := NameLength(text[1..] + next);
      NameLengthBound(text[1..], next);
      ScanExponent(text, next, depth);
      ScanNumber(text[1 + n..], next, depth);
    } else {
      assert s == [text[0]] + (text[1..] + next);
      ScanPunctuator(text[0], text[1..] + next, depth);
      ScanNumber(text[1..], next, depth);
    }
  }

  /** The `e` of a number starts a name, but none that is a keyword. */
  lemma ScanExponent(text: string, next: string, depth: nat)
    requires text != "" && (text[0] == 'e' || text[0] == 'E')
    requires NameLength(text[1..] + next) < |text|
    ensures Scan(text + next, depth) == Scan(text[1 + NameLength(text[1..] + next)..] + next, depth)
  {
    var s := text + next;
    assert s[1..] == text[1..] + next;
    var n := NameLength(s[1..]);
    DropFromConcat(text, next, 1 + n);
    SkipName(s, 1 + n, depth);
    ExponentIsNoKeyword(s[..1 + n]);
    ScanNothing(s, s[1 + n..], depth);
  }

  lemma DropFromConcat(s: string, t: string, k: nat)
    requires k <= |s|
    ensures (s + t)[k..] == s[k..] + t
  {
  }

  lemma ExponentIsNoKeyword(name: string)
    requires name != "" && (name[0] == 'e' || name[0] == 'E')
    ensures NameKind(name) == []
  {
  }

  lemma ScanNothing(s: string, rest: string, depth: nat)
    requires s != "" && Skip(s) == rest && KindAt(s, depth) == [] && DepthAfter(s[0], depth) == depth
    ensures Scan(s, depth) == Scan(rest, depth)
  {
    ScanOne(s, depth);
    assert [] + Scan(rest, depth) == Scan(rest, depth);
  }

  lemma ScanString(items: seq<StringItem>, next: string, depth: nat)
    requires TokenOk(Str(items)) && Separate(Str(items), next)
    ensures Scan(TokenText(Str(items)) + next, depth) == Scan(next, depth)
  {
    var s := TokenText(Str(items)) + next;
    StringText(items, next);
    SkipPrintedString(items, next);
    ScanNothing(s, next, depth);
  }

  lemma StringText(items: seq<StringItem>, next: string)
    requires TokenOk(Str(items)) && Separate(Str(items), next)
    ensures var s := TokenText(Str(items)) + next;
            s[0] == '"' && s[1..] == ItemsText(items) + "\"" + next && !OpensBlock(s)
  {
    var s := TokenText(Str(items)) + next;
    assert s[1..] == ItemsText(items) + "\"" + next;
    if items == [] {
      assert s[1] == '"' && (|s| >= 3 ==> s[2] == next[0]);
    } else {
      assert s[1] == ItemsText(items)[0] != '"';
    }
  }

  /** Outside strings and comments the automaton goes on like the scanner. */
  lemma OutsideScan(q: State, s: string)
    requires IsOutside(q.mode) && (q.mode.Quote2? ==> s == "" || s[0] != '"')
    ensures Found(Run(q, s)) == q.kinds + Scan(s, q.depth)
  {
    ScanIsRun(s, q.depth, q.kinds);
    if s != "" {
      assert Step(q, s[0]) == Step(q.(mode := Code), s[0]);
    }
  }

  lemma ScanBlock(items: seq<BlockItem>, next: string, depth: nat)
    requires IsHarmless(items, depth)
    requires Behind(items, depth).mode.Quote2? ==> next == "" || next[0] != '"'
    ensures Scan(TokenText(Block(items)) + next, depth) == Behind(items, depth).kinds + Scan(next, depth)
  {
    var block := TokenText(Block(items));
    var start := State(Code, depth, []);
    ScanIsRun(block + next, depth, []);
    assert [] + Scan(block + next, depth) == Scan(block + next, depth);
    RunConcat(start, block, next);
    OutsideScan(Run(start, block), next);
  }

  lemma SeparateMore(t: Token, next: string, more: string)
    requires Separate(t, next) && next != ""
    ensures Separate(t, next + more)
  {
    assert (next + more)[0] == next[0];
  }

  lemma JoinTexts(a: string, b: string, c: string)
    ensures (a + b) + c == a + (b + c)
  {
  }

  lemma {:induction false} MoreText(ps: seq<Piece>, after: string, more: string)
    requires PiecesOk(ps, after) && after != ""
    ensures PiecesOk(ps, after + more)
  {
    if ps != [] {
      MoreText(ps[1..], after, more);
      var next := PiecesText(ps[1..]) + after;
      JoinTexts(PiecesText(ps[1..]), after, more);
      if ps[0].gap == [] {
        SeparateMore(ps[0].token, next, more);
      }
    }
  }

  lemma ScanFlatToken(t: Token, next: string, depth: nat)
    requires TokenOk(t) && Separate(t, next) && !t.Braces? && !t.Block?
    ensures Scan(TokenText(t) + next, depth) == AtDepth(TokenKind(t), depth) + Scan(next, depth)
  {
    match t {
      case Name(text) => ScanName(text, next, depth);
      case Number(text) => ScanNumber(text, next, depth);
      case Punctuator(c) => ScanPunctuator(c, next, depth);
      case Str(items) => ScanString(items, next, depth);
    }
  }

  lemma {:induction false} ScanToken(t: Token, next: string, depth: nat)
    requires TokenOk(t) && HarmlessToken(t, depth) && Separate(t, next)
    requires t.Block? && Behind(t.content, depth).mode.Quote2? ==> next == "" || next[0] != '"'
    ensures Scan(TokenText(t) + next, depth) == SeenToken(t, depth) + Scan(next, depth)
    decreases t, 0
  {
    if t.Braces? {
      MoreText(t.inner, "}", next);
      MoreHarmless(t.inner, depth + 1, "}", next);
      ScanPieces(t.inner, "}" + next, depth + 1);
      ScanBraces(t.lead, t.inner, next, depth);
    } else if t.Block? {
      ScanBlock(t.content, next, depth);
    } else {
      ScanFlatToken(t, next, depth);
    }
  }

  lemma {:induction false} MoreHarmless(ps: seq<Piece>, depth: nat, after: string, more: string)
    requires HarmlessPieces(ps, depth, after) && after != ""
    ensures HarmlessPieces(ps, depth, after + more)
  {
    if ps != [] {
      MoreHarmless(ps[1..], depth, after, more);
      JoinTexts(PiecesText(ps[1..]), after, more);
      ClosedBeforeMore(ps[0], depth, PiecesText(ps[1..]) + after, more);
    }
  }

  lemma ClosedBeforeMore(p: Piece, depth: nat, next: string, more: string)
    requires ClosedBefore(p, depth, next) && next != ""
    ensures ClosedBefore(p, depth, next + more)
  {
    assert (next + more)[0] == next[0];
  }

  lemma ScanBraces(lead: seq<Ignored>, inner: seq<Piece>, next: string, depth: nat)
    requires GapOk(lead)
    requires Scan(PiecesText(inner) + ("}" + next), depth + 1)
          == SeenPieces(inner, depth + 1) + Scan("}" + next, depth + 1)
    ensures Scan(TokenText(Braces(lead, inner)) + next, depth)
         == (AtDepth([Query], depth) + SeenPieces(inner, depth + 1)) + Scan(next, depth)
  {
    var body := PiecesText(inner) + ("}" + next);
    BracesText(lead, inner, next);
    ScanOpen(GapText(lead) + body, depth);
    ScanGap(lead, body, depth + 1);
    ScanClose(next, depth);
    JoinKinds(AtDepth([Query], depth), SeenPieces(inner, depth + 1), Scan(next, depth));
  }

  lemma JoinKinds(a: seq<OperationType>, b: seq<OperationType>, c: seq<OperationType>)
    ensures (a + b) + c == a + (b + c)
  {
  }

  lemma BracesText(lead: seq<Ignored>, inner: seq<Piece>, next: string)
    ensures TokenText(Braces(lead, inner)) + next == "{" + (GapText(lead) + (PiecesText(inner) + ("}" + next)))
  {
    Regroup("{", GapText(lead), PiecesText(inner), "}", next);
  }

  lemma Regroup(a: string, b: string, c: string, d: string, e: string)
    ensures (a + (b + (c + d))) + e == a + (b + (c + (d + e)))
  {
    assert (c + d) + e == c + (d + e);
    assert (b + (c + d)) + e == b + ((c + d) + e);
    assert (a + (b + (c + d))) + e == a + ((b + (c + d)) + e);
  }

  lemma ScanOpen(next: string, depth: nat)
    ensures Scan("{" + next, depth) == AtDepth([Query], depth) + Scan(next, depth + 1)
  {
    var s := "{" + next;
    ScanOne(s, depth);
    assert s[0] == '{' && s[1..] == next;
  }

  lemma ScanClose(next: string, depth: nat)
    ensures Scan("}" + next, depth + 1) == Scan(next, depth)
  {
    var close := "}" + next;
    ScanOne(close, depth + 1);
    assert close[0] == '}' && close[1..] == next;
  }

  /** Where every block string is harmless, the scanner finds in the pieces what is to be seen
      of them, and goes on behind them at the same depth. */
  lemma {:induction false} ScanPieces(ps: seq<Piece>, after: string, depth: nat)
    requires PiecesOk(ps, after) && HarmlessPieces(ps, depth, after)
    ensures Scan(PiecesText(ps) + after, depth) == SeenPieces(ps, depth) + Scan(after, depth)
    decreases ps, 1
  {
    if ps == [] {
      assert PiecesText(ps) + after == after;
    } else {
      var rest := PiecesText(ps[1..]) + after;
      var next := GapText(ps[0].gap) + rest;
      FirstPiece(ps, after);
      FirstIsClosed(ps[0], depth, rest);
      ScanToken(ps[0].token, next, depth);
      ScanGap(ps[0].gap, rest, depth);
      ScanPieces(ps[1..], after, depth);
      JoinKinds(SeenToken(ps[0].token, depth), SeenPieces(ps[1..], depth), Scan(after, depth));
    }
  }

  lemma FirstIsClosed(p: Piece, depth: nat, rest: string)
    requires ClosedBefore(p, depth, rest) && GapOk(p.gap)
    ensures var next := GapText(p.gap) + rest;
            p.token.Block? && Behind(p.token.content, depth).mode.Quote2? ==> next == "" || next[0] != '"'
  {
    if p.gap == [] {
      assert GapText(p.gap) + rest == rest;
    } else {
      GapStart(p.gap, rest);
    }
  }

  lemma WritesConcat(one: seq<OperationType>, two: seq<OperationType>)
    ensures Writes(one + two) <==> Writes(one) || Writes(two)
  {
  }

  /** What is seen of harmless pieces writes exactly when their tokens outside braces do, and a
      query among these is seen. */
  lemma {:induction false} SeenPiecesIff(ps: seq<Piece>, depth: nat, after: string)
    requires HarmlessPieces(ps, depth, after)
    ensures Writes(SeenPieces(ps, depth)) <==> Writes(AtDepth(PiecesKinds(ps), depth))
    ensures Query in AtDepth(PiecesKinds(ps), depth) ==> Query in SeenPieces(ps, depth)
    decreases ps, 1
  {
    if ps != [] {
      SeenTokenIff(ps[0].token, depth);
      SeenPiecesIff(ps[1..], depth, after);
      WritesConcat(SeenToken(ps[0].token, depth), SeenPieces(ps[1..], depth));
      WritesConcat(AtDepth(TokenKind(ps[0].token), depth), AtDepth(PiecesKinds(ps[1..]), depth));
      AtDepthConcat(TokenKind(ps[0].token), PiecesKinds(ps[1..]), depth);
    }
  }

  lemma {:induction false} SeenTokenIff(t: Token, depth: nat)
    requires HarmlessToken(t, depth)
    ensures Writes(SeenToken(t, depth)) <==> Writes(AtDepth(TokenKind(t), depth))
    ensures Query in AtDepth(TokenKind(t), depth) ==> Query in SeenToken(t, depth)
    decreases t, 0
  {
    if t.Braces? {
      SeenPiecesIff(t.inner, depth + 1, "}");
      WritesConcat(AtDepth([Query], depth), SeenPieces(t.inner, depth + 1));
    }
  }

  lemma AtDepthConcat(one: seq<OperationType>, two: seq<OperationType>, depth: nat)
    ensures AtDepth(one + two, depth) == AtDepth(one, depth) + AtDepth(two, depth)
  {
  }

  lemma FirstPiece(ps: seq<Piece>, after: string)
    requires ps != [] && PiecesOk(ps, after)
    ensures var next := GapText(ps[0].gap) + (PiecesText(ps[1..]) + after);
            PiecesText(ps) + after == TokenText(ps[0].token) + next && Separate(ps[0].token, next)
  {
    var rest := PiecesText(ps[1..]) + after;
    Regroup3(TokenText(ps[0].token), GapText(ps[0].gap), PiecesText(ps[1..]), after);
    if ps[0].gap == [] {
      assert GapText(ps[0].gap) + rest == rest;
    } else {
      GapStart(ps[0].gap, rest);
    }
  }

  lemma Regroup3(a: string, b: string, c: string, d: string)
    ensures (a + (b + c)) + d == a + (b + (c + d))
  {
    assert (b + c) + d == b + (c + d);
    assert (a + (b + c)) + d == a + ((b + c) + d);
  }

  lemma GapStart(gap: seq<Ignored>, next: string)
    requires GapOk(gap) && gap != []
    ensures var s := GapText(gap) + next; s != "" && !IsNameContinue(s[0]) && s[0] != '"'
  {
    assert IgnoredOk(gap[0]);
    assert (GapText(gap) + next)[0] == IgnoredText(gap[0])[0];
  }

  // ---- documents ----

  /** An operation without a keyword, an operation, or a fragment; `head` is everything
      between the keyword, if any, and the selection set. */
  datatype Definition =
    | Shorthand(lead: seq<Ignored>, inner: seq<Piece>, gap: seq<Ignored>)
    | Operation(op: OperationType, space: seq<Ignored>, head: seq<Piece>, lead: seq<Ignored>, inner: seq<Piece>,
                gap: seq<Ignored>)
    | Fragment(head: seq<Piece>, lead: seq<Ignored>, inner: seq<Piece>, gap: seq<Ignored>)

  function DefinitionHead(d: Definition): seq<Piece> {
    if d.Shorthand? then [] else d.head
  }

  function DefinitionPieces(d: Definition): seq<Piece> {
    var selection := Piece(Braces(d.lead, d.inner), d.gap);
    match d
    case Shorthand(_, _, _) => [selection]
    case Operation(op, space, head, _, _, _) => [Piece(Name(Keyword(op)), space)] + (head + [selection])
    case Fragment(head, _, _, _) => head + [selection]
  }

  function DocumentPieces(defs: seq<Definition>): seq<Piece> {
    if defs == [] then [] else DefinitionPieces(defs[0]) + DocumentPieces(defs[1..])
  }

  function DocumentText(lead: seq<Ignored>, defs: seq<Definition>): string {
    GapText(lead) + PiecesText(DocumentPieces(defs))
  }

  /** What the specification calls the document: there is a definition, and no operation is a
      mutation or a subscription. */
  predicate DeclaredReadOnly(defs: seq<Definition>) {
    defs != [] && forall i :: 0 <= i < |defs| ==> defs[i].Operation? ==> defs[i].op == Query
  }

  /** Some name in front of a selection set, other than the keyword, spells `mutation` or
      `subscription` in some capitalisation: an operation, variable, argument, directive,
      enum value, fragment or type so called. */
  predicate StrayName(defs: seq<Definition>) {
    exists i :: 0 <= i < |defs| && Writes(PiecesKinds(DefinitionHead(defs[i])))
  }

  lemma {:induction false} KindsConcat(ps: seq<Piece>, qs: seq<Piece>)
    ensures PiecesKinds(ps + qs) == PiecesKinds(ps) + PiecesKinds(qs)
  {
    if ps == [] {
      assert ps + qs == qs;
    } else {
      assert (ps + qs)[1..] == ps[1..] + qs;
      KindsConcat(ps[1..], qs);
    }
  }

  lemma KeywordKind(op: OperationType)
    ensures NameKind(Keyword(op)) == [op]
  {
    assert Lower(Keyword(op)) == Keyword(op);
  }

  lemma OneKind(p: Piece)
    ensures PiecesKinds([p]) == TokenKind(p.token)
  {
    var ps := [p];
    assert ps[1..] == [];
  }

  lemma DefinitionKinds(d: Definition)
    ensures Query in PiecesKinds(DefinitionPieces(d))
    ensures Writes(PiecesKinds(DefinitionPieces(d)))
       <==> (d.Operation? && d.op != Query) || Writes(PiecesKinds(DefinitionHead(d)))
  {
    var selection := Piece(Braces(d.lead, d.inner), d.gap);
    OneKind(selection);
    match d {
      case Shorthand(_, _, _) =>
      case Operation(op, space, head, _, _, _) =>
        HeadKinds(head, selection);
        OperationKindsAre(op, space, head + [selection]);
      case Fragment(head, _, _, _) => HeadKinds(head, selection);
    }
  }

  lemma HeadKinds(head: seq<Piece>, selection: Piece)
    requires selection.token.Braces?
    ensures Query in PiecesKinds(head + [selection])
    ensures Writes(PiecesKinds(head + [selection])) <==> Writes(PiecesKinds(head))
  {
    OneKind(selection);
    KindsConcat(head, [selection]);
    WritesConcat(PiecesKinds(head), [Query]);
    assert (PiecesKinds(head) + [Query])[|PiecesKinds(head)|] == Query;
  }

  lemma OperationKindsAre(op: OperationType, space: seq<Ignored>, rest: seq<Piece>)
    ensures var kinds := PiecesKinds([Piece(Name(Keyword(op)), space)] + rest);
            && (Query in PiecesKinds(rest) ==> Query in kinds)
            && (Writes(kinds) <==> op != Query || Writes(PiecesKinds(rest)))
  {
    var keyword := Piece(Name(Keyword(op)), space);
    OneKind(keyword);
    KeywordKind(op);
    KindsConcat([keyword], rest);
    WritesConcat([op], PiecesKinds(rest));
  }

  lemma {:induction false} DocumentKinds(defs: seq<Definition>)
    ensures Query in PiecesKinds(DocumentPieces(defs)) <==> defs != []
    ensures Writes(PiecesKinds(DocumentPieces(defs)))
       <==> exists i :: 0 <= i < |defs| && Writes(PiecesKinds(DefinitionPieces(defs[i])))
  {
    if defs != [] {
      DocumentKinds(defs[1..]);
      DefinitionKinds(defs[0]);
      KindsConcat(DefinitionPieces(defs[0]), DocumentPieces(defs[1..]));
      assert forall i :: 1 <= i < |defs| ==> defs[i] == defs[1..][i - 1];
    }
  }

  /** A document that is declared read-only and has no stray name is one whose tokens outside
      braces spell no `mutation` or `subscription`. */
  lemma DeclaredKinds(defs: seq<Definition>)
    requires defs != []
    ensures DeclaredReadOnly(defs) && !StrayName(defs) <==> !Writes(PiecesKinds(DocumentPieces(defs)))
  {
    DocumentKinds(defs);
    forall i | 0 <= i < |defs|
      ensures Writes(PiecesKinds(DefinitionPieces(defs[i])))
         <==> (defs[i].Operation? && defs[i].op != Query) || Writes(PiecesKinds(DefinitionHead(defs[i])))
    {
      DefinitionKinds(defs[i]);
    }
  }

  /** Classification, for every document whose block strings are harmless where they stand, however
      many they are and however deep: the verdict is read-only exactly when the document is
      declared read-only and no name in front of a selection set is taken for a keyword. */
  lemma Classification(lead: seq<Ignored>, defs: seq<Definition>)
    requires GapOk(lead) && PiecesOk(DocumentPieces(defs), "") && HarmlessPieces(DocumentPieces(defs), 0, "")
    ensures IsReadOnly(Scan(DocumentText(lead, defs), 0)) <==> DeclaredReadOnly(defs) && !StrayName(defs)
  {
    var ps := DocumentPieces(defs);
    ScanGap(lead, PiecesText(ps), 0);
    ScanPieces(ps, "", 0);
    assert PiecesText(ps) + "" == PiecesText(ps);
    assert SeenPieces(ps, 0) + [] == SeenPieces(ps, 0);
    SeenPiecesIff(ps, 0, "");
    DocumentKinds(defs);
    if defs != [] {
      DeclaredKinds(defs);
    }
  }

  /** For these documents the verdict agrees with the declaration if and only if the document is
      not a read-only one with a stray keyword name; none of them with a mutation is classified
      as read-only. */
  lemma ClassificationAgreesIff(lead: seq<Ignored>, defs: seq<Definition>)
    requires GapOk(lead) && PiecesOk(DocumentPieces(defs), "") && HarmlessPieces(DocumentPieces(defs), 0, "")
    ensures (IsReadOnly(Scan(DocumentText(lead, defs), 0)) == DeclaredReadOnly(defs))
       <==> !(DeclaredReadOnly(defs) && StrayName(defs))
    ensures IsReadOnly(Scan(DocumentText(lead, defs), 0)) ==> DeclaredReadOnly(defs)
  {
    Classification(lead, defs);
  }

  // ---- block strings without escaped triple quotes ----

  lemma {:induction false} PlainBlockText(items: seq<BlockItem>, run: nat)
    requires LegalBlock(items, run) && EscapedTriple !in items
    ensures BlockOk(BlockText(items), run)
    decreases |items|
  {
    if items != [] {
      assert items[0] in items;
      PlainBlockText(items[1..], if items[0] == Raw('"') then run + 1 else 0);
      assert BlockText(items)[1..] == BlockText(items[1..]);
    }
  }

  lemma {:induction false} PlainBlockRun(text: string, run: nat, depth: nat, kinds: seq<OperationType>)
    requires BlockOk(text, run)
    ensures Run(State(InBlock(run), depth, kinds), text + TRIPLE) == State(Code, depth, kinds)
    decreases |text|
  {
    var s := text + TRIPLE;
    if text == "" {
      assert s == TRIPLE;
      QuotesClose(depth, kinds);
    } else {
      assert s[0] == text[0] && s[1..] == text[1..] + TRIPLE;
      PlainBlockRun(text[1..], if text[0] == '"' then run + 1 else 0, depth, kinds);
    }
  }

  lemma QuotesClose(depth: nat, kinds: seq<OperationType>)
    ensures Run(State(InBlock(0), depth, kinds), TRIPLE) == State(Code, depth, kinds)
  {
    var q := State(InBlock(0), depth, kinds);
    assert TRIPLE[1..][1..][1..] == "";
    assert Run(q, TRIPLE) == Run(q.(mode := InBlock(1)), TRIPLE[1..]);
    assert Run(q.(mode := InBlock(1)), TRIPLE[1..]) == Run(q.(mode := InBlock(2)), TRIPLE[1..][1..]);
  }

  lemma QuotesOpen(q: State)
    requires q.mode.Code? || (q.mode.InName? && q.depth > 0)
    ensures Run(q, TRIPLE) == State(InBlock(0), q.depth, q.kinds)
  {
    assert TRIPLE[1..][1..][1..] == "" && q.kinds + [] == q.kinds;
    assert Run(q, TRIPLE) == Run(q.(mode := Quote1), TRIPLE[1..]);
    assert Run(q.(mode := Quote1), TRIPLE[1..]) == Run(q.(mode := Quote2), TRIPLE[1..][1..]);
  }

  /** Such a block string leaves the scanner as it was, at every depth. */
  lemma PlainIsHarmless(items: seq<BlockItem>, depth: nat)
    requires LegalBlock(items, 0) && EscapedTriple !in items
    ensures Behind(items, depth) == State(Code, depth, []) && IsHarmless(items, depth)
  {
    var q := State(Code, depth, []);
    PlainBlockText(items, 0);
    RunConcat(q, TRIPLE, BlockText(items) + TRIPLE);
    QuotesOpen(q);
    PlainBlockRun(BlockText(items), 0, depth, []);
  }

  /** So documents without escaped triple quotes are among those above. */
  lemma {:induction false} PlainPiecesAreHarmless(ps: seq<Piece>, depth: nat, after: string)
    requires PiecesOk(ps, after) && PlainPieces(ps)
    ensures HarmlessPieces(ps, depth, after)
    decreases ps
  {
    if ps != [] {
      var t := ps[0].token;
      if t.Block? {
        PlainIsHarmless(t.content, depth);
      } else if t.Braces? {
        PlainPiecesAreHarmless(t.inner, depth + 1, "}");
      }
      assert HarmlessToken(t, depth);
      PlainPiecesAreHarmless(ps[1..], depth, after);
    }
  }

  // ---- names taken for keywords ----

  lemma PiecesCons(p: Piece, rest: seq<Piece>, after: string)
    requires TokenOk(p.token) && GapOk(p.gap) && PiecesOk(rest, after)
    requires p.gap == [] ==> Separate(p.token, PiecesText(rest) + after)
    ensures PiecesOk([p] + rest, after)
    ensures PlainPieces([p] + rest) <==> PlainToken(p.token) && PlainPieces(rest)
  {
    var ps := [p] + rest;
    assert ps[0] == p && ps[1..] == rest;
  }

  /** A query with the given name and one field, `query Name {id}`. */
  function NamedQuery(name: string): Definition {
    Operation(Query, [Blank(' ')], [Piece(Name(name), [Blank(' ')])], [], [Piece(Name("id"), [])], [])
  }

  lemma NamedQueryIsOk(name: string)
    requires TokenOk(Name(name))
    ensures PiecesOk(DefinitionPieces(NamedQuery(name)), "") && PlainPieces(DefinitionPieces(NamedQuery(name)))
  {
    var d := NamedQuery(name);
    PiecesCons(d.inner[0], [], "}");
    assert [d.inner[0]] + [] == d.inner;
    var selection := Piece(Braces([], d.inner), []);
    PiecesCons(selection, [], "");
    assert [selection] + [] == [selection];
    PiecesCons(d.head[0], [selection], "");
    assert [d.head[0]] + [selection] == d.head + [selection];
    KeywordIsName(Query);
    PiecesCons(Piece(Name(Keyword(Query)), d.space), d.head + [selection], "");
  }

  lemma KeywordIsName(op: OperationType)
    ensures TokenOk(Name(Keyword(op)))
  {
  }

  /** A query whose name spells `mutation` is classified as a mutation. */
  lemma QueryNamedMutation(name: string)
    requires TokenOk(Name(name)) && NameKind(name) == [Mutation]
    ensures DeclaredReadOnly([NamedQuery(name)]) && !IsReadOnly(Scan(DocumentText([], [NamedQuery(name)]), 0))
  {
    var defs := [NamedQuery(name)];
    NamedQueryIsOk(name);
    assert defs[1..] == [] && DocumentPieces(defs) == DefinitionPieces(defs[0]) + [];
    assert DefinitionPieces(defs[0]) + [] == DefinitionPieces(defs[0]);
    OneKind(NamedQuery(name).head[0]);
    assert Writes(PiecesKinds(DefinitionHead(defs[0])));
    PlainPiecesAreHarmless(DocumentPieces(defs), 0, "");
    Classification([], defs);
  }

  /** `Mutation` is such a name. */
  lemma MutationIsSuchAName()
    ensures TokenOk(Name("Mutation")) && NameKind("Mutation") == [Mutation]
  {
    assert Lower("Mutation") == Keyword(Mutation);
  }
}
