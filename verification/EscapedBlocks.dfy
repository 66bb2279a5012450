/** What the scanner makes of block strings that hold escaped triple quotes, which it takes for
    the end of the block (section 2.9.4 of the GraphQL specification, October 2021, allows
    them), wherever in a document they stand. */
module EscapedBlocks {
  import opened Text
  import opened GraphqlScanner
  import opened GraphqlAutomaton
  import opened GraphqlDocuments

  // ---- a block string in a document ----

  /** A selection set that is open around the block string, and what stands in it before. */
  datatype Level = Level(lead: seq<Ignored>, before: seq<Piece>)

  /** What stands behind the block string in a selection set, and behind the set. */
  datatype Side = Side(fields: seq<Piece>, end: seq<Ignored>)

  /** What stands before the block string: definitions, the head of the one it is in, and the
      selection sets around it, the outermost first. Without any it stands in the head. */
  datatype Front = Front(earlier: seq<Definition>, definition: Definition, levels: seq<Level>)

  /** What stands behind it: the rest of these selection sets, and all tokens behind them. */
  datatype Back = Back(gap: seq<Ignored>, sides: seq<Side>, pieces: seq<Piece>)

  /** The pieces in front of the selection set. */
  function HeadPieces(d: Definition): seq<Piece> {
    match d
    case Shorthand(_, _, _) => []
    case Operation(op, space, head, _, _, _) => [Piece(Name(Keyword(op)), space)] + head
    case Fragment(head, _, _, _) => head
  }

  function FrontPieces(f: Front): seq<Piece> { DocumentPieces(f.earlier) + HeadPieces(f.definition) }

  /** The piece inside the selection sets. */
  function Nested(levels: seq<Level>, sides: seq<Side>, core: Piece): Piece
    requires |levels| == |sides|
  {
    if levels == [] then core
    else
      var inner := Nested(levels[1..], sides[1..], core);
      Piece(Braces(levels[0].lead, levels[0].before + ([inner] + sides[0].fields)), sides[0].end)
  }

  /** All tokens of a document with the block string in it. */
  function Tokens(f: Front, items: seq<BlockItem>, b: Back): seq<Piece>
    requires |f.levels| == |b.sides|
  {
    FrontPieces(f) + ([Nested(f.levels, b.sides, Piece(Block(items), b.gap))] + b.pieces)
  }

  predicate IsDocument(defs: seq<Definition>, f: Front, items: seq<BlockItem>, b: Back) {
    |f.levels| == |b.sides| && DocumentPieces(defs) == Tokens(f, items, b)
  }

  /** The character what comes next begins with. */
  function NextText(levels: seq<Level>): string { if levels == [] then "\"" else "{" }

  predicate LevelsOk(levels: seq<Level>, depth: nat)
    decreases |levels|
  {
    levels == [] ||
    (&& GapOk(levels[0].lead)
     && PiecesOk(levels[0].before, NextText(levels[1..]))
     && HarmlessPieces(levels[0].before, depth, NextText(levels[1..]))
     && LevelsOk(levels[1..], depth + 1))
  }

  /** Nothing up to the block string writes, and all block strings before it are harmless. */
  predicate FrontOk(f: Front) {
    && (f.levels == [] ==> !f.definition.Shorthand?)
    && PiecesOk(FrontPieces(f), NextText(f.levels))
    && HarmlessPieces(FrontPieces(f), 0, NextText(f.levels))
    && !Writes(PiecesKinds(FrontPieces(f)))
    && LevelsOk(f.levels, 1)
  }

  predicate SidesOk(sides: seq<Side>, depth: nat)
    decreases |sides|
  {
    sides == [] ||
    (&& PiecesOk(sides[0].fields, "}") && HarmlessPieces(sides[0].fields, depth, "}") && GapOk(sides[0].end)
     && SidesOk(sides[1..], depth + 1))
  }

  predicate BeginsQuote(s: string) { s != "" && s[0] == '"' }

  /** What stands behind the block string and its gap, as far as the end of the selection set. */
  function BehindGap(b: Back): string {
    if b.sides == [] then PiecesText(b.pieces) else PiecesText(b.sides[|b.sides| - 1].fields) + "}"
  }

  /** All block strings behind it are harmless too, and no quote stands directly behind it. */
  predicate BackOk(b: Back) {
    && GapOk(b.gap) && (b.gap == [] ==> !BeginsQuote(BehindGap(b))) && SidesOk(b.sides, 1)
    && PiecesOk(b.pieces, "") && HarmlessPieces(b.pieces, 0, "")
  }

  function Verdict(defs: seq<Definition>): bool { IsReadOnly(Scan(DocumentText([], defs), 0)) }

  /** The document is classified as if all its block strings were harmless. */
  ghost predicate IsRight(defs: seq<Definition>) {
    Verdict(defs) <==> DeclaredReadOnly(defs) && !StrayName(defs)
  }

  // ---- pieces and their text ----

  lemma {:induction false} TextConcat(ps: seq<Piece>, qs: seq<Piece>)
    ensures PiecesText(ps + qs) == PiecesText(ps) + PiecesText(qs)
  {
    if ps == [] {
      assert ps + qs == qs;
    } else {
      ConsConcat(ps, qs);
      ConsText(ps[0], ps[1..] + qs);
      TextConcat(ps[1..], qs);
      Regroup3(TokenText(ps[0].token), GapText(ps[0].gap), PiecesText(ps[1..]), PiecesText(qs));
    }
  }

  lemma ConsConcat(ps: seq<Piece>, qs: seq<Piece>)
    requires ps != []
    ensures ps + qs == [ps[0]] + (ps[1..] + qs)
  {
  }

  lemma ConsText(p: Piece, rest: seq<Piece>)
    ensures PiecesText([p] + rest) == TokenText(p.token) + (GapText(p.gap) + PiecesText(rest))
  {
    var ps := [p] + rest;
    assert ps[0] == p && ps[1..] == rest;
  }

  lemma TextConcatBefore(ps: seq<Piece>, qs: seq<Piece>, after: string)
    ensures PiecesText(ps + qs) + after == PiecesText(ps) + (PiecesText(qs) + after)
  {
    TextConcat(ps, qs);
    JoinTexts(PiecesText(ps), PiecesText(qs), after);
  }

  lemma PiecesParts(ps: seq<Piece>, after: string)
    requires ps != [] && PiecesOk(ps, after)
    ensures TokenOk(ps[0].token) && GapOk(ps[0].gap) && PiecesOk(ps[1..], after)
    ensures ps[0].gap == [] ==> Separate(ps[0].token, PiecesText(ps[1..]) + after)
  {
  }

  lemma {:induction false} OkConcat(ps: seq<Piece>, qs: seq<Piece>, after: string)
    requires PiecesOk(ps, PiecesText(qs) + after) && PiecesOk(qs, after)
    ensures PiecesOk(ps + qs, after)
  {
    if ps == [] {
      assert ps + qs == qs;
    } else {
      var first, rest := ps[0], ps[1..];
      PiecesParts(ps, PiecesText(qs) + after);
      OkConcat(rest, qs, after);
      TextConcatBefore(rest, qs, after);
      PiecesCons(first, rest + qs, after);
      ConsConcat(ps, qs);
    }
  }

  lemma HarmlessCons(p: Piece, rest: seq<Piece>, depth: nat, after: string)
    requires HarmlessToken(p.token, depth) && HarmlessPieces(rest, depth, after)
    requires ClosedBefore(p, depth, PiecesText(rest) + after)
    ensures HarmlessPieces([p] + rest, depth, after)
  {
    var ps := [p] + rest;
    assert ps[0] == p && ps[1..] == rest;
  }

  lemma HarmlessParts(ps: seq<Piece>, depth: nat, after: string)
    requires ps != [] && HarmlessPieces(ps, depth, after)
    ensures HarmlessToken(ps[0].token, depth) && HarmlessPieces(ps[1..], depth, after)
    ensures ClosedBefore(ps[0], depth, PiecesText(ps[1..]) + after)
  {
  }

  lemma {:induction false} HarmlessConcat(ps: seq<Piece>, qs: seq<Piece>, depth: nat, after: string)
    requires HarmlessPieces(ps, depth, PiecesText(qs) + after) && HarmlessPieces(qs, depth, after)
    ensures HarmlessPieces(ps + qs, depth, after)
  {
    if ps == [] {
      assert ps + qs == qs;
    } else {
      var first, rest := ps[0], ps[1..];
      HarmlessParts(ps, depth, PiecesText(qs) + after);
      HarmlessConcat(rest, qs, depth, after);
      TextConcatBefore(rest, qs, after);
      HarmlessCons(first, rest + qs, depth, after);
      ConsConcat(ps, qs);
    }
  }

  /** Pieces that are good in front of a character are so in front of any text it begins. */
  lemma FrontStays(ps: seq<Piece>, depth: nat, next: string, text: string)
    requires PiecesOk(ps, next) && HarmlessPieces(ps, depth, next) && |next| == 1 && text != "" && text[0] == next[0]
    ensures PiecesOk(ps, text) && HarmlessPieces(ps, depth, text)
  {
    assert text == next + text[1..];
    MoreText(ps, next, text[1..]);
    MoreHarmless(ps, depth, next, text[1..]);
  }

  // ---- documents whose block strings are all harmless ----

  lemma NestedStarts(levels: seq<Level>, sides: seq<Side>, core: Piece, rest: string)
    requires |levels| == |sides| && core.token.Block?
    ensures var text := PiecesText([Nested(levels, sides, core)]) + rest; text != "" && text[0] == NextText(levels)[0]
  {
    var p := Nested(levels, sides, core);
    assert [p] + [] == [p];
    ConsText(p, []);
    assert TokenText(p.token)[0] == NextText(levels)[0];
  }

  lemma InnerStarts(levels: seq<Level>, sides: seq<Side>, core: Piece)
    requires |levels| == |sides| && core.token.Block?
    ensures var text := PiecesText([Nested(levels, sides, core)]); text != "" && text[0] == NextText(levels)[0]
  {
    NestedStarts(levels, sides, core, "");
  }

  lemma {:induction false} NestedIsOk(levels: seq<Level>, sides: seq<Side>, core: Piece, depth: nat)
    requires |levels| == |sides| && LevelsOk(levels, depth + 1) && SidesOk(sides, depth + 1)
    requires core.token.Block? && TokenOk(core.token) && GapOk(core.gap)
    requires core.gap == [] && sides != [] ==> !BeginsQuote(PiecesText(sides[|sides| - 1].fields) + "}")
    ensures var p := Nested(levels, sides, core);
            && TokenOk(p.token) && GapOk(p.gap) && (levels != [] ==> p.token.Braces?)
            && (HarmlessToken(core.token, depth + |levels|) ==> HarmlessToken(p.token, depth))
    decreases |levels|
  {
    if levels != [] {
      var inner := Nested(levels[1..], sides[1..], core);
      NestedIsOk(levels[1..], sides[1..], core, depth + 1);
      InnerStarts(levels[1..], sides[1..], core);
      InnerIsOk(levels[0].before, inner, sides[0].fields, depth + 1, NextText(levels[1..]), "}",
                HarmlessToken(core.token, depth + |levels|));
    }
  }

  lemma InnerIsOk(before: seq<Piece>, p: Piece, fields: seq<Piece>, depth: nat, next: string, after: string,
                  harmless: bool)
    requires PiecesOk(before, next) && HarmlessPieces(before, depth, next) && |next| == 1
    requires PiecesText([p]) != "" && PiecesText([p])[0] == next[0]
    requires TokenOk(p.token) && GapOk(p.gap)
    requires p.token.Braces? || (p.token.Block? && (p.gap == [] ==> !BeginsQuote(PiecesText(fields) + after)))
    requires harmless ==> HarmlessToken(p.token, depth)
    requires PiecesOk(fields, after) && HarmlessPieces(fields, depth, after)
    ensures PiecesOk(before + ([p] + fields), after)
    ensures harmless ==> HarmlessPieces(before + ([p] + fields), depth, after)
  {
    var rest := [p] + fields;
    PiecesCons(p, fields, after);
    TextConcat([p], fields);
    FrontStays(before, depth, next, PiecesText(rest) + after);
    OkConcat(before, rest, after);
    if harmless {
      HarmlessCons(p, fields, depth, after);
      HarmlessConcat(before, rest, depth, after);
    }
  }

  /** The tokens of such a document are printed like any other, and when the block string is
      harmless as well, all of its block strings are. */
  lemma DocumentIsOk(f: Front, items: seq<BlockItem>, b: Back)
    requires FrontOk(f) && BackOk(b) && |f.levels| == |b.sides| && LegalBlock(items, 0)
    ensures PiecesOk(Tokens(f, items, b), "")
    ensures IsHarmless(items, |f.levels|) ==> HarmlessPieces(Tokens(f, items, b), 0, "")
  {
    var core := Piece(Block(items), b.gap);
    NestedIsOk(f.levels, b.sides, core, 0);
    assert PiecesText(b.pieces) + "" == PiecesText(b.pieces);
    InnerStarts(f.levels, b.sides, core);
    InnerIsOk(FrontPieces(f), Nested(f.levels, b.sides, core), b.pieces, 0, NextText(f.levels), "",
              IsHarmless(items, |f.levels|));
  }

  lemma HarmlessIsRight(f: Front, items: seq<BlockItem>, b: Back, defs: seq<Definition>)
    requires FrontOk(f) && BackOk(b) && LegalBlock(items, 0) && IsHarmless(items, |f.levels|)
    requires IsDocument(defs, f, items, b)
    ensures IsRight(defs)
  {
    DocumentIsOk(f, items, b);
    Classification([], defs);
  }

  // ---- the text around the block string ----

  function OpenText(levels: seq<Level>): string {
    if levels == [] then ""
    else "{" + (GapText(levels[0].lead) + (PiecesText(levels[0].before) + OpenText(levels[1..])))
  }

  function CloseText(sides: seq<Side>): string {
    if sides == [] then ""
    else CloseText(sides[1..]) + (PiecesText(sides[0].fields) + ("}" + GapText(sides[0].end)))
  }

  function BackText(b: Back): string { GapText(b.gap) + (CloseText(b.sides) + PiecesText(b.pieces)) }

  function PieceText(p: Piece): string { TokenText(p.token) + GapText(p.gap) }

  lemma OnePieceText(p: Piece)
    ensures PiecesText([p]) == PieceText(p)
  {
    assert [p] + [] == [p];
    ConsText(p, []);
    assert GapText(p.gap) + "" == GapText(p.gap);
  }

  lemma RegroupInner(b: string, o: string, c: string, l: string, f: string)
    ensures b + ((o + (c + l)) + f) == (b + o) + (c + (l + f))
  {
    JoinTexts(o, c + l, f);
    JoinTexts(c, l, f);
    JoinTexts(b, o, c + (l + f));
  }

  lemma RegroupOuter(a: string, g: string, x: string, y: string, z: string, e: string)
    ensures (a + (g + ((x + y) + z))) + e == (a + (g + x)) + (y + (z + e))
  {
    JoinTexts(a, g + ((x + y) + z), e);
    JoinTexts(g, (x + y) + z, e);
    JoinTexts(x + y, z, e);
    JoinTexts(x, y, z + e);
    JoinTexts(g, x, y + (z + e));
    JoinTexts(a, g + x, y + (z + e));
  }

  lemma {:induction false} NestedText(levels: seq<Level>, sides: seq<Side>, core: Piece)
    requires |levels| == |sides|
    ensures PieceText(Nested(levels, sides, core)) == OpenText(levels) + (PieceText(core) + CloseText(sides))
    decreases |levels|
  {
    if levels == [] {
      assert "" + (PieceText(core) + "") == PieceText(core);
    } else {
      var inner := Nested(levels[1..], sides[1..], core);
      NestedText(levels[1..], sides[1..], core);
      InnerText(levels[0].before, inner, sides[0].fields);
      NestedStep(GapText(levels[0].lead), PiecesText(levels[0].before), OpenText(levels[1..]), PieceText(core),
                 CloseText(sides[1..]), PiecesText(sides[0].fields), GapText(sides[0].end));
    }
  }

  lemma InnerText(before: seq<Piece>, p: Piece, fields: seq<Piece>)
    ensures PiecesText(before + ([p] + fields)) == PiecesText(before) + (PieceText(p) + PiecesText(fields))
  {
    TextConcat(before, [p] + fields);
    TextConcat([p], fields);
    OnePieceText(p);
  }

  lemma NestedStep(g: string, b: string, o: string, c: string, l: string, f: string, e: string)
    ensures ("{" + (g + ((b + ((o + (c + l)) + f)) + "}"))) + e
         == ("{" + (g + (b + o))) + (c + (l + (f + ("}" + e))))
  {
    RegroupInner(b, o, c, l, f);
    RegroupOuter("{", g, b + o, c + (l + f), "}", e);
    JoinTexts(c, l + f, "}" + e);
    JoinTexts(l, f, "}" + e);
  }

  lemma DocumentTextIs(defs: seq<Definition>, f: Front, items: seq<BlockItem>, b: Back)
    requires IsDocument(defs, f, items, b)
    ensures DocumentText([], defs)
         == PiecesText(FrontPieces(f)) + (OpenText(f.levels) + (TokenText(Block(items)) + BackText(b)))
  {
    var core := Piece(Block(items), b.gap);
    var p := Nested(f.levels, b.sides, core);
    assert GapText([]) + PiecesText(DocumentPieces(defs)) == PiecesText(DocumentPieces(defs));
    TextConcat(FrontPieces(f), [p] + b.pieces);
    TextConcat([p], b.pieces);
    OnePieceText(p);
    NestedText(f.levels, b.sides, core);
    RegroupBack(OpenText(f.levels), TokenText(core.token), GapText(b.gap), CloseText(b.sides), PiecesText(b.pieces));
  }

  lemma RegroupBack(o: string, t: string, g: string, l: string, p: string)
    ensures (o + ((t + g) + l)) + p == o + (t + (g + (l + p)))
  {
    JoinTexts(o, (t + g) + l, p);
    JoinTexts(t + g, l, p);
    JoinTexts(t, g, l + p);
  }

  // ---- scanning up to the block string ----

  function OpenKinds(levels: seq<Level>, depth: nat): seq<OperationType>
    decreases |levels|
  {
    if levels == [] then []
    else AtDepth([Query], depth) + (SeenPieces(levels[0].before, depth + 1) + OpenKinds(levels[1..], depth + 1))
  }

  lemma OpenStarts(levels: seq<Level>, text: string)
    requires text != "" && text[0] == '"'
    ensures OpenText(levels) + text != "" && (OpenText(levels) + text)[0] == NextText(levels)[0]
  {
    if levels == [] {
      assert "" + text == text;
    }
  }

  /** The selection set opens, and `rest` stands behind its first pieces. */
  function LevelText(level: Level, rest: string): string {
    "{" + (GapText(level.lead) + (PiecesText(level.before) + rest))
  }

  function LevelKinds(level: Level, depth: nat, rest: seq<OperationType>): seq<OperationType> {
    AtDepth([Query], depth) + (SeenPieces(level.before, depth + 1) + rest)
  }

  /** A scanner enters the level and finds what is to be seen of it. */
  ghost predicate Enters(scan: (string, nat) -> seq<OperationType>, level: Level, depth: nat, next: string)
    requires next != ""
  {
    forall rest {:trigger LevelText(level, rest)} ::
      rest != "" && rest[0] == next[0] ==>
        scan(LevelText(level, rest), depth) == LevelKinds(level, depth, scan(rest, depth + 1))
  }

  ghost predicate EntersAll(scan: (string, nat) -> seq<OperationType>, levels: seq<Level>, depth: nat)
    decreases |levels|
  {
    levels == []
    || (Enters(scan, levels[0], depth, NextText(levels[1..])) && EntersAll(scan, levels[1..], depth + 1))
  }

  lemma {:induction false} EntersThrough(scan: (string, nat) -> seq<OperationType>, levels: seq<Level>, depth: nat,
                                         text: string)
    requires EntersAll(scan, levels, depth) && text != "" && text[0] == '"'
    ensures scan(OpenText(levels) + text, depth) == OpenKinds(levels, depth) + scan(text, depth + |levels|)
    decreases |levels|
  {
    if levels == [] {
      EntersNone(scan, depth, text);
    } else {
      EntersThrough(scan, levels[1..], depth + 1, text);
      EntersFirst(scan, levels, depth, text);
      OneLevelMore(levels, depth, scan(text, depth + |levels|));
    }
  }

  lemma EntersNone(scan: (string, nat) -> seq<OperationType>, depth: nat, text: string)
    ensures scan(OpenText([]) + text, depth) == OpenKinds([], depth) + scan(text, depth)
  {
    assert OpenText([]) + text == text;
    assert OpenKinds([], depth) + scan(text, depth) == scan(text, depth);
  }

  lemma OneLevelMore(levels: seq<Level>, depth: nat, last: seq<OperationType>)
    requires levels != []
    ensures LevelKinds(levels[0], depth, OpenKinds(levels[1..], depth + 1) + last) == OpenKinds(levels, depth) + last
  {
    JoinEntered(AtDepth([Query], depth), SeenPieces(levels[0].before, depth + 1), OpenKinds(levels[1..], depth + 1),
                last);
  }

  lemma EntersFirst(scan: (string, nat) -> seq<OperationType>, levels: seq<Level>, depth: nat, text: string)
    requires levels != [] && EntersAll(scan, levels, depth) && text != "" && text[0] == '"'
    ensures scan(OpenText(levels) + text, depth)
         == LevelKinds(levels[0], depth, scan(OpenText(levels[1..]) + text, depth + 1))
  {
    var level, rest := levels[0], levels[1..];
    OpenStarts(rest, text);
    RegroupOpen(GapText(level.lead), PiecesText(level.before), OpenText(rest), text);
    assert OpenText(levels) + text == LevelText(level, OpenText(rest) + text);
  }

  lemma JoinEntered(q: seq<OperationType>, seen: seq<OperationType>, more: seq<OperationType>, last: seq<OperationType>)
    ensures q + (seen + (more + last)) == (q + (seen + more)) + last
  {
    JoinKinds(seen, more, last);
    JoinKinds(q, seen + more, last);
  }

  lemma {:induction false} ScanEnters(levels: seq<Level>, depth: nat)
    requires LevelsOk(levels, depth + 1)
    ensures EntersAll(Scan, levels, depth)
    decreases |levels|
  {
    if levels != [] {
      var level, next := levels[0], NextText(levels[1..]);
      forall rest | rest != "" && rest[0] == next[0]
        ensures Scan(LevelText(level, rest), depth) == LevelKinds(level, depth, Scan(rest, depth + 1))
      {
        ScanLevel(level, depth, next, rest);
      }
      ScanEnters(levels[1..], depth + 1);
    }
  }

  lemma ScanInto(levels: seq<Level>, depth: nat, text: string)
    requires LevelsOk(levels, depth + 1) && text != "" && text[0] == '"'
    ensures Scan(OpenText(levels) + text, depth) == OpenKinds(levels, depth) + Scan(text, depth + |levels|)
  {
    ScanEnters(levels, depth);
    EntersThrough(Scan, levels, depth, text);
  }

  lemma ScanLevel(level: Level, depth: nat, next: string, rest: string)
    requires GapOk(level.lead) && PiecesOk(level.before, next) && HarmlessPieces(level.before, depth + 1, next)
    requires |next| == 1 && rest != "" && rest[0] == next[0]
    ensures Scan(LevelText(level, rest), depth) == LevelKinds(level, depth, Scan(rest, depth + 1))
  {
    FrontStays(level.before, depth + 1, next, rest);
    ScanOpen(GapText(level.lead) + (PiecesText(level.before) + rest), depth);
    ScanGap(level.lead, PiecesText(level.before) + rest, depth + 1);
    ScanPieces(level.before, rest, depth + 1);
  }

  lemma RegroupOpen(g: string, b: string, o: string, text: string)
    ensures ("{" + (g + (b + o))) + text == "{" + (g + (b + (o + text)))
  {
    JoinTexts("{", g + (b + o), text);
    JoinTexts(g, b + o, text);
    JoinTexts(b, o, text);
  }

  lemma {:induction false} OpenKindsRead(levels: seq<Level>, depth: nat)
    requires LevelsOk(levels, depth + 1)
    ensures !Writes(OpenKinds(levels, depth))
    ensures levels != [] && depth == 0 ==> Query in OpenKinds(levels, depth)
    decreases |levels|
  {
    if levels != [] {
      var seen, more := SeenPieces(levels[0].before, depth + 1), OpenKinds(levels[1..], depth + 1);
      SeenPiecesIff(levels[0].before, depth + 1, NextText(levels[1..]));
      OpenKindsRead(levels[1..], depth + 1);
      WritesConcat(seen, more);
      WritesConcat(AtDepth([Query], depth), seen + more);
      if depth == 0 {
        assert ([Query] + (seen + more))[0] == Query;
      }
    }
  }

  /** What the scanner finds in front of the block string. */
  function FrontKinds(f: Front): seq<OperationType> { SeenPieces(FrontPieces(f), 0) + OpenKinds(f.levels, 0) }

  lemma FrontKindsRead(f: Front)
    requires FrontOk(f)
    ensures !Writes(FrontKinds(f))
    ensures f.levels != [] ==> Query in FrontKinds(f)
  {
    SeenPiecesIff(FrontPieces(f), 0, NextText(f.levels));
    OpenKindsRead(f.levels, 0);
    WritesConcat(SeenPieces(FrontPieces(f), 0), OpenKinds(f.levels, 0));
  }

  lemma ScanDocument(defs: seq<Definition>, f: Front, items: seq<BlockItem>, b: Back)
    requires FrontOk(f) && IsDocument(defs, f, items, b)
    ensures Scan(DocumentText([], defs), 0) == FrontKinds(f) + Found(Run(Behind(items, |f.levels|), BackText(b)))
  {
    var block := TokenText(Block(items));
    var text := block + BackText(b);
    DocumentTextIs(defs, f, items, b);
    assert block[0] == '"' && text[0] == '"';
    ScanFront(f, text);
    ScanAfter(block, BackText(b), |f.levels|);
  }

  lemma ScanFront(f: Front, text: string)
    requires FrontOk(f) && text != "" && text[0] == '"'
    ensures Scan(PiecesText(FrontPieces(f)) + (OpenText(f.levels) + text), 0) == FrontKinds(f) + Scan(text, |f.levels|)
  {
    ScanFrontText(FrontPieces(f), f.levels, text);
  }

  lemma ScanFrontText(front: seq<Piece>, levels: seq<Level>, text: string)
    requires PiecesOk(front, NextText(levels)) && HarmlessPieces(front, 0, NextText(levels)) && LevelsOk(levels, 1)
    requires text != "" && text[0] == '"'
    ensures Scan(PiecesText(front) + (OpenText(levels) + text), 0)
         == (SeenPieces(front, 0) + OpenKinds(levels, 0)) + Scan(text, |levels|)
  {
    OpenStarts(levels, text);
    ScanFrontPieces(front, NextText(levels), OpenText(levels) + text);
    JoinFront(PiecesText(front), OpenText(levels) + text, levels, text, SeenPieces(front, 0));
  }

  lemma JoinFront(front: string, rest: string, levels: seq<Level>, text: string, seen: seq<OperationType>)
    requires LevelsOk(levels, 1) && text != "" && text[0] == '"' && rest == OpenText(levels) + text
    requires Scan(front + rest, 0) == seen + Scan(rest, 0)
    ensures Scan(front + rest, 0) == (seen + OpenKinds(levels, 0)) + Scan(text, |levels|)
  {
    ScanInto(levels, 0, text);
    JoinScans(Scan(front + rest, 0), seen, Scan(rest, 0), OpenKinds(levels, 0), Scan(text, |levels|));
  }

  lemma JoinScans(all: seq<OperationType>, a: seq<OperationType>, rest: seq<OperationType>, b: seq<OperationType>,
                  c: seq<OperationType>)
    requires all == a + rest && rest == b + c
    ensures all == (a + b) + c
  {
  }

  lemma ScanFrontPieces(ps: seq<Piece>, next: string, text: string)
    requires PiecesOk(ps, next) && HarmlessPieces(ps, 0, next) && |next| == 1 && text != "" && text[0] == next[0]
    ensures Scan(PiecesText(ps) + text, 0) == SeenPieces(ps, 0) + Scan(text, 0)
  {
    FrontStays(ps, 0, next, text);
    ScanPieces(ps, text, 0);
  }

  lemma ScanAfter(block: string, back: string, depth: nat)
    ensures Scan(block + back, depth) == Found(Run(Run(State(Code, depth, []), block), back))
  {
    ScanIsRun(block + back, depth, []);
    assert [] + Scan(block + back, depth) == Scan(block + back, depth);
    RunConcat(State(Code, depth, []), block, back);
  }

  lemma VerdictIs(defs: seq<Definition>, f: Front, items: seq<BlockItem>, b: Back)
    requires FrontOk(f) && IsDocument(defs, f, items, b)
    ensures var found := Found(Run(Behind(items, |f.levels|), BackText(b)));
            Verdict(defs) <==> (Query in FrontKinds(f) || Query in found) && !Writes(found)
  {
    ScanDocument(defs, f, items, b);
    FrontKindsRead(f);
    WritesConcat(FrontKinds(f), Found(Run(Behind(items, |f.levels|), BackText(b))));
  }

  lemma TokensKinds(f: Front, items: seq<BlockItem>, b: Back)
    requires |f.levels| == |b.sides| && !Writes(PiecesKinds(FrontPieces(f)))
    ensures Tokens(f, items, b) != []
    ensures Writes(PiecesKinds(Tokens(f, items, b))) <==> Writes(PiecesKinds(b.pieces))
  {
    var p := Nested(f.levels, b.sides, Piece(Block(items), b.gap));
    KindsConcat(FrontPieces(f), [p] + b.pieces);
    KindsConcat([p], b.pieces);
    OneKind(p);
    WritesConcat(PiecesKinds(FrontPieces(f)), PiecesKinds([p] + b.pieces));
    WritesConcat(PiecesKinds([p]), PiecesKinds(b.pieces));
  }

  /** What the tokens behind decide of the whole document. */
  lemma DeclaredBehind(defs: seq<Definition>, f: Front, items: seq<BlockItem>, b: Back)
    requires FrontOk(f) && IsDocument(defs, f, items, b)
    ensures DeclaredReadOnly(defs) && !StrayName(defs) <==> !Writes(PiecesKinds(b.pieces))
  {
    TokensKinds(f, items, b);
    assert defs != [];
    DeclaredKinds(defs);
  }

  // ---- documents that show a block string to be harmful ----

  function Uniform(n: nat, fields: seq<Piece>): seq<Side> {
    if n == 0 then [] else [Side(fields, [])] + Uniform(n - 1, fields)
  }

  function Closers(n: nat, word: string): string { if n == 0 then "" else word + ("}" + Closers(n - 1, word)) }

  lemma {:induction false} UniformLength(n: nat, fields: seq<Piece>)
    ensures |Uniform(n, fields)| == n
  {
    if n > 0 {
      UniformLength(n - 1, fields);
    }
  }

  lemma {:induction false} UniformOk(n: nat, fields: seq<Piece>, depth: nat)
    requires PiecesOk(fields, "}") && PlainPieces(fields)
    ensures SidesOk(Uniform(n, fields), depth)
    decreases n
  {
    if n > 0 {
      PlainPiecesAreHarmless(fields, depth, "}");
      UniformOk(n - 1, fields, depth + 1);
      assert Uniform(n, fields)[1..] == Uniform(n - 1, fields);
    }
  }

  lemma {:induction false} UniformText(n: nat, fields: seq<Piece>)
    ensures CloseText(Uniform(n, fields)) == Closers(n, PiecesText(fields))
  {
    if n > 0 {
      UniformText(n - 1, fields);
      assert Uniform(n, fields)[1..] == Uniform(n - 1, fields);
      assert "}" + GapText([]) == "}";
      ClosersEnd(n - 1, PiecesText(fields));
    }
  }

  lemma {:induction false} ClosersEnd(n: nat, word: string)
    ensures Closers(n, word) + (word + "}") == Closers(n + 1, word)
  {
    if n == 0 {
      assert "" + (word + "}") == word + ("}" + "");
    } else {
      ClosersEnd(n - 1, word);
      JoinTexts(word, "}" + Closers(n - 1, word), word + "}");
      JoinTexts("}", Closers(n - 1, word), word + "}");
    }
  }

  /** The selection set of a definition with the block string in its head. */
  const EMPTY_SET: Piece := Piece(Braces([], []), [])

  function EndPieces(f: Front, later: seq<Definition>): seq<Piece> {
    if f.levels == [] then [EMPTY_SET] + DocumentPieces(later) else DocumentPieces(later)
  }

  function Ending(f: Front, fields: seq<Piece>, later: seq<Definition>): Back {
    Back([Blank(' ')], Uniform(|f.levels|, fields), EndPieces(f, later))
  }

  /** The definition that holds the block string, completed. */
  function Completed(f: Front, items: seq<BlockItem>, fields: seq<Piece>): Definition
    requires f.levels == [] ==> !f.definition.Shorthand?
  {
    var core := Piece(Block(items), [Blank(' ')]);
    if f.levels == [] then f.definition.(head := f.definition.head + [core], lead := [], inner := [], gap := [])
    else
      UniformLength(|f.levels|, fields);
      var set_ := Nested(f.levels, Uniform(|f.levels|, fields), core);
      f.definition.(lead := set_.token.lead, inner := set_.token.inner, gap := set_.gap)
  }

  function Document(f: Front, items: seq<BlockItem>, fields: seq<Piece>, later: seq<Definition>): seq<Definition>
    requires f.levels == [] ==> !f.definition.Shorthand?
  {
    f.earlier + ([Completed(f, items, fields)] + later)
  }

  lemma {:induction false} DocumentConcat(one: seq<Definition>, two: seq<Definition>)
    ensures DocumentPieces(one + two) == DocumentPieces(one) + DocumentPieces(two)
  {
    if one == [] {
      assert one + two == two;
    } else {
      assert (one + two)[0] == one[0] && (one + two)[1..] == one[1..] + two;
      DocumentConcat(one[1..], two);
    }
  }

  lemma DefinitionIs(d: Definition)
    ensures DefinitionPieces(d) == HeadPieces(d) + [Piece(Braces(d.lead, d.inner), d.gap)]
  {
  }

  lemma CompletedIs(f: Front, items: seq<BlockItem>, fields: seq<Piece>)
    requires f.levels == [] ==> !f.definition.Shorthand?
    ensures |Uniform(|f.levels|, fields)| == |f.levels|
    ensures var p := Nested(f.levels, Uniform(|f.levels|, fields), Piece(Block(items), [Blank(' ')]));
            DefinitionPieces(Completed(f, items, fields))
            == HeadPieces(f.definition) + if f.levels == [] then [p] + [EMPTY_SET] else [p]
  {
    UniformLength(|f.levels|, fields);
    var d := Completed(f, items, fields);
    var core := Piece(Block(items), [Blank(' ')]);
    DefinitionIs(d);
    if f.levels == [] {
      assert HeadPieces(d) == HeadPieces(f.definition) + [core];
    } else {
      var p := Nested(f.levels, Uniform(|f.levels|, fields), core);
      assert HeadPieces(d) == HeadPieces(f.definition);
    }
  }

  lemma RegroupPieces(a: seq<Piece>, b: seq<Piece>, c: seq<Piece>, e: seq<Piece>)
    ensures a + ((b + c) + e) == (a + b) + (c + e)
  {
  }

  lemma RegroupPairs(a: seq<Piece>, b: seq<Piece>, c: seq<Piece>, d: seq<Piece>, e: seq<Piece>)
    ensures a + ((b + (c + d)) + e) == (a + b) + (c + (d + e))
  {
  }

  lemma DocumentIs(f: Front, items: seq<BlockItem>, fields: seq<Piece>, later: seq<Definition>)
    requires f.levels == [] ==> !f.definition.Shorthand?
    ensures IsDocument(Document(f, items, fields, later), f, items, Ending(f, fields, later))
  {
    var d := Completed(f, items, fields);
    var rest := [d] + later;
    CompletedIs(f, items, fields);
    DocumentConcat(f.earlier, rest);
    assert rest[0] == d && rest[1..] == later;
    var p := [Nested(f.levels, Uniform(|f.levels|, fields), Piece(Block(items), [Blank(' ')]))];
    if f.levels == [] {
      RegroupPairs(DocumentPieces(f.earlier), HeadPieces(f.definition), p, [EMPTY_SET], DocumentPieces(later));
    } else {
      RegroupPieces(DocumentPieces(f.earlier), HeadPieces(f.definition), p, DocumentPieces(later));
    }
  }

  lemma EndingIsOk(f: Front, fields: seq<Piece>, later: seq<Definition>)
    requires PiecesOk(fields, "}") && PlainPieces(fields)
    requires PiecesOk(DocumentPieces(later), "") && PlainPieces(DocumentPieces(later))
    ensures BackOk(Ending(f, fields, later))
  {
    UniformOk(|f.levels|, fields, 1);
    var ps := DocumentPieces(later);
    if f.levels == [] {
      PiecesCons(EMPTY_SET, ps, "");
    }
    PlainPiecesAreHarmless(EndPieces(f, later), 0, "");
  }

  lemma EndKinds(f: Front, later: seq<Definition>)
    ensures Writes(PiecesKinds(EndPieces(f, later))) <==> Writes(PiecesKinds(DocumentPieces(later)))
  {
    if f.levels == [] {
      KindsConcat([EMPTY_SET], DocumentPieces(later));
      OneKind(EMPTY_SET);
      WritesConcat([Query], PiecesKinds(DocumentPieces(later)));
    }
  }

  /** `mutation m{c}` */
  function SomeMutation(): Definition {
    Operation(Mutation, [Blank(' ')], [Piece(Name("m"), [])], [], [Piece(Name("c"), [])], [])
  }

  lemma SelectionStarts(lead: seq<Ignored>, inner: seq<Piece>, gap: seq<Ignored>, rest: string)
    ensures var s := PiecesText([Piece(Braces(lead, inner), gap)]) + rest; s != "" && s[0] == '{'
  {
    var p := Piece(Braces(lead, inner), gap);
    assert TokenText(p.token)[0] == '{';
    assert PiecesText([p])[0] == '{';
  }

  lemma SomeMutationIsOk()
    ensures PiecesOk(DocumentPieces([SomeMutation()]), "") && PlainPieces(DocumentPieces([SomeMutation()]))
    ensures Writes(PiecesKinds(DocumentPieces([SomeMutation()])))
  {
    var d := SomeMutation();
    SomeMutationPieces();
    var defs := [d];
    assert defs[1..] == [] && DefinitionPieces(d) + [] == DefinitionPieces(d);
    DefinitionKinds(d);
  }

  lemma SomeMutationPieces()
    ensures PiecesOk(DefinitionPieces(SomeMutation()), "") && PlainPieces(DefinitionPieces(SomeMutation()))
  {
    var d := SomeMutation();
    var selection := Piece(Braces([], d.inner), []);
    PiecesCons(d.inner[0], [], "}");
    assert [d.inner[0]] + [] == d.inner;
    PiecesCons(selection, [], "");
    assert [selection] + [] == [selection];
    SelectionStarts([], d.inner, [], "");
    PiecesCons(d.head[0], [selection], "");
    assert [d.head[0]] + [selection] == d.head + [selection];
    KeywordIsName(Mutation);
    PiecesCons(Piece(Name(Keyword(Mutation)), d.space), d.head + [selection], "");
  }

  // ---- the ending is not seen inside a string or comment ----

  predicate AllTame(s: string) { forall i :: 0 <= i < |s| ==> IsTame(s[i]) }

  lemma TameConcat(s: string, t: string)
    requires AllTame(s) && AllTame(t)
    ensures AllTame(s + t)
  {
  }

  lemma TameSelection(inner: seq<Piece>)
    requires AllTame(PiecesText(inner))
    ensures AllTame(TokenText(Braces([], inner)))
  {
    TameConcat(PiecesText(inner), "}");
    TameConcat(GapText([]), PiecesText(inner) + "}");
    TameConcat("{", GapText([]) + (PiecesText(inner) + "}"));
  }

  lemma SpaceText()
    ensures GapText([Blank(' ')]) == " "
  {
    var gap := [Blank(' ')];
    assert gap[1..] == [];
  }

  lemma OnePieceTame(p: Piece, rest: seq<Piece>)
    requires AllTame(TokenText(p.token)) && AllTame(GapText(p.gap)) && AllTame(PiecesText(rest))
    ensures AllTame(PiecesText([p] + rest))
  {
    ConsText(p, rest);
    TameConcat(GapText(p.gap), PiecesText(rest));
    TameConcat(TokenText(p.token), GapText(p.gap) + PiecesText(rest));
  }

  lemma MutationTextIsTame()
    ensures AllTame(PiecesText(DefinitionPieces(SomeMutation())))
  {
    var d := SomeMutation();
    var selection := Piece(Braces([], d.inner), []);
    var keyword := Piece(Name(Keyword(Mutation)), d.space);
    OnePieceTame(d.inner[0], []);
    assert [d.inner[0]] + [] == d.inner;
    TameSelection(d.inner);
    OnePieceTame(selection, []);
    assert [selection] + [] == [selection];
    OnePieceTame(d.head[0], [selection]);
    assert [d.head[0]] + [selection] == d.head + [selection];
    SpaceText();
    OnePieceTame(keyword, d.head + [selection]);
  }

  lemma {:induction false} ClosersAreTame(n: nat, word: string)
    requires AllTame(word)
    ensures AllTame(Closers(n, word))
  {
    if n > 0 {
      ClosersAreTame(n - 1, word);
      TameConcat("}", Closers(n - 1, word));
      TameConcat(word, "}" + Closers(n - 1, word));
    }
  }

  lemma LaterIsTame(f: Front, later: seq<Definition>)
    requires later == [] || later == [SomeMutation()]
    ensures AllTame(PiecesText(EndPieces(f, later)))
  {
    var ps := DocumentPieces(later);
    if later != [] {
      assert later[0] == SomeMutation() && later[1..] == [] && DocumentPieces([]) == [];
      assert ps == DefinitionPieces(SomeMutation()) + [];
      assert DefinitionPieces(SomeMutation()) + [] == DefinitionPieces(SomeMutation());
      MutationTextIsTame();
    }
    if f.levels == [] {
      TameSelection([]);
      OnePieceTame(EMPTY_SET, ps);
    }
  }

  lemma EndingIsTame(f: Front, later: seq<Definition>)
    requires later == [] || later == [SomeMutation()]
    ensures AllTame(BackText(Ending(f, [], later)))
  {
    var n := |f.levels|;
    UniformText(n, []);
    ClosersAreTame(n, "");
    LaterIsTame(f, later);
    SpaceText();
    TameConcat(Closers(n, ""), PiecesText(EndPieces(f, later)));
    TameConcat(" ", Closers(n, "") + PiecesText(EndPieces(f, later)));
  }

  // ---- the ending, read too deep or not deep enough ----

  lemma {:induction false} ClosersGone(scan: (string, nat) -> seq<OperationType>, n: nat, rest: string, depth: nat)
    requires n <= depth && forall s, d: nat :: scan("}" + s, d + 1) == scan(s, d)
    ensures scan(Closers(n, "") + rest, depth) == scan(rest, depth - n)
    decreases n
  {
    if n == 0 {
      assert "" + rest == rest;
    } else {
      ClosersText(n, "", rest);
      assert "" + ("}" + (Closers(n - 1, "") + rest)) == "}" + (Closers(n - 1, "") + rest);
      assert scan("}" + (Closers(n - 1, "") + rest), (depth - 1) + 1) == scan(Closers(n - 1, "") + rest, depth - 1);
      ClosersGone(scan, n - 1, rest, depth - 1);
    }
  }

  lemma ScanClosers(n: nat, rest: string, depth: nat)
    requires n <= depth
    ensures Scan(Closers(n, "") + rest, depth) == Scan(rest, depth - n)
  {
    var scan := (s: string, d: nat) => Scan(s, d);
    forall s, d: nat
      ensures scan("}" + s, d + 1) == scan(s, d)
    {
      ScanClose(s, d);
    }
    ClosersGone(scan, n, rest, depth);
  }

  lemma OutsideBack(q: State, b: Back)
    requires IsOutside(q.mode) && b.gap == [Blank(' ')]
    ensures Found(Run(q, BackText(b))) == q.kinds + Scan(CloseText(b.sides) + PiecesText(b.pieces), q.depth)
  {
    SpaceText();
    assert GapOk(b.gap);
    OutsideScan(q, BackText(b));
    ScanGap(b.gap, CloseText(b.sides) + PiecesText(b.pieces), q.depth);
  }

  /** Read too deep, the ending shows the scanner nothing. */
  lemma TooDeep(f: Front, q: State, later: seq<Definition>)
    requires IsOutside(q.mode) && q.depth > |f.levels|
    requires PiecesOk(DocumentPieces(later), "") && PlainPieces(DocumentPieces(later))
    ensures var found := Found(Run(q, BackText(Ending(f, [], later))));
            && (Writes(found) <==> Writes(q.kinds)) && (Query in q.kinds ==> Query in found)
            && (later == [] ==> found == q.kinds)
  {
    var depth := q.depth - |f.levels|;
    OutsideBack(q, Ending(f, [], later));
    DeepScan(f, later, q.depth);
    if later == [] {
      EmptyEnd(f, depth);
    }
    NothingWritten(q.kinds, SeenPieces(EndPieces(f, later), depth));
  }

  lemma NothingWritten(kinds: seq<OperationType>, more: seq<OperationType>)
    requires !Writes(more)
    ensures (Writes(kinds + more) <==> Writes(kinds)) && (Query in kinds ==> Query in kinds + more)
    ensures more == [] ==> kinds + more == kinds
  {
    WritesConcat(kinds, more);
  }

  lemma DeepScan(f: Front, later: seq<Definition>, depth: nat)
    requires depth > |f.levels| && PiecesOk(DocumentPieces(later), "") && PlainPieces(DocumentPieces(later))
    ensures var b := Ending(f, [], later);
            Scan(CloseText(b.sides) + PiecesText(b.pieces), depth) == SeenPieces(b.pieces, depth - |f.levels|)
    ensures !Writes(SeenPieces(EndPieces(f, later), depth - |f.levels|))
  {
    EndingText(f, later);
    ScanClosers(|f.levels|, PiecesText(EndPieces(f, later)), depth);
    ScanEnd(f, later, depth - |f.levels|);
  }

  lemma EndingText(f: Front, later: seq<Definition>)
    ensures var b := Ending(f, [], later);
            CloseText(b.sides) + PiecesText(b.pieces) == Closers(|f.levels|, "") + PiecesText(EndPieces(f, later))
  {
    UniformText(|f.levels|, []);
  }

  lemma ScanEnd(f: Front, later: seq<Definition>, depth: nat)
    requires depth > 0 && PiecesOk(DocumentPieces(later), "") && PlainPieces(DocumentPieces(later))
    ensures Scan(PiecesText(EndPieces(f, later)), depth) == SeenPieces(EndPieces(f, later), depth)
    ensures !Writes(SeenPieces(EndPieces(f, later), depth))
  {
    var ps := EndPieces(f, later);
    EndingIsOk(f, [], later);
    PlainEnd(f, later);
    PlainPiecesAreHarmless(ps, depth, "");
    ScanPieces(ps, "", depth);
    assert PiecesText(ps) + "" == PiecesText(ps) && SeenPieces(ps, depth) + [] == SeenPieces(ps, depth);
    SeenPiecesIff(ps, depth, "");
  }

  lemma PlainEnd(f: Front, later: seq<Definition>)
    requires PlainPieces(DocumentPieces(later))
    ensures PlainPieces(EndPieces(f, later))
  {
    var ps := DocumentPieces(later);
    if f.levels == [] {
      var all := [EMPTY_SET] + ps;
      assert all[0] == EMPTY_SET && all[1..] == ps;
    }
  }

  lemma EmptyEnd(f: Front, depth: nat)
    requires depth > 0
    ensures SeenPieces(EndPieces(f, []), depth) == []
  {
    var ps := EndPieces(f, []);
    if f.levels == [] {
      assert ps == [EMPTY_SET] + DocumentPieces([]) == [EMPTY_SET] && ps[1..] == [];
      assert SeenPieces([], depth + 1) == [];
      assert SeenToken(EMPTY_SET.token, depth) == [] + [];
    } else {
      assert ps == DocumentPieces([]) == [];
    }
  }

  function MutationField(): seq<Piece> { [Piece(Name(Keyword(Mutation)), [])] }

  lemma MutationFieldIsOk()
    ensures PiecesOk(MutationField(), "}") && PlainPieces(MutationField())
    ensures PiecesText(MutationField()) == Keyword(Mutation)
  {
    var p := Piece(Name(Keyword(Mutation)), []);
    KeywordIsName(Mutation);
    PiecesCons(p, [], "}");
    assert [p] + [] == [p];
    OnePieceText(p);
    assert Keyword(Mutation) + "" == Keyword(Mutation);
  }

  lemma ScanField(word: string, rest: string, depth: nat)
    requires TokenOk(Name(word)) && NameKind(word) == [Mutation]
    ensures Scan(word + ("}" + rest), depth) == AtDepth([Mutation], depth) + Scan("}" + rest, depth)
  {
    ScanName(word, "}" + rest, depth);
  }

  lemma ClosersText(n: nat, word: string, rest: string)
    requires n > 0
    ensures Closers(n, word) + rest == word + ("}" + (Closers(n - 1, word) + rest))
  {
    JoinTexts(word, "}" + Closers(n - 1, word), rest);
    JoinTexts("}", Closers(n - 1, word), rest);
  }

  lemma OneSetMore(word: string, after: string, depth: nat)
    requires TokenOk(Name(word)) && NameKind(word) == [Mutation]
    ensures Writes(Scan(word + ("}" + after), depth)) <==> depth == 0 || Writes(Scan(after, depth - 1))
  {
    ScanField(word, after, depth);
    WritesConcat(AtDepth([Mutation], depth), Scan("}" + after, depth));
    if depth > 0 {
      ScanClose(after, depth - 1);
    }
  }

  /** Read not deep enough, a field with that name in every selection set is seen once. */
  lemma {:induction false} SeenOnce(sees: (string, nat) -> bool, n: nat, word: string, rest: string, depth: nat)
    requires depth < n
    requires forall s, d: nat :: sees(word + ("}" + s), d) <==> d == 0 || sees(s, d - 1)
    ensures sees(Closers(n, word) + rest, depth)
    decreases n
  {
    ClosersText(n, word, rest);
    if depth > 0 {
      SeenOnce(sees, n - 1, word, rest, depth - 1);
    }
  }

  ghost predicate SeesWrite(s: string, depth: nat) { Writes(Scan(s, depth)) }

  lemma OneSetSeen(word: string)
    requires TokenOk(Name(word)) && NameKind(word) == [Mutation]
    ensures forall s, d: nat :: SeesWrite(word + ("}" + s), d) <==> d == 0 || SeesWrite(s, d - 1)
  {
    forall s, d: nat
      ensures SeesWrite(word + ("}" + s), d) <==> d == 0 || SeesWrite(s, d - 1)
    {
      OneSetMore(word, s, d);
    }
  }

  lemma FieldIsSeen(n: nat, word: string, rest: string, depth: nat)
    requires depth < n && TokenOk(Name(word)) && NameKind(word) == [Mutation]
    ensures Writes(Scan(Closers(n, word) + rest, depth))
  {
    OneSetSeen(word);
    SeenOnce(SeesWrite, n, word, rest, depth);
    assert SeesWrite(Closers(n, word) + rest, depth);
  }

  // ---- harmless block strings, exactly ----

  /** The block string leaves the scanner in a string or comment, or too deep. */
  predicate Hides(items: seq<BlockItem>, depth: nat) {
    var q := Behind(items, depth);
    !Writes(q.kinds) && (IsInside(q.mode) || (IsOutside(q.mode) && q.depth > depth))
  }

  lemma HiddenEnd(f: Front, items: seq<BlockItem>, later: seq<Definition>)
    requires Hides(items, |f.levels|) && (later == [] || later == [SomeMutation()])
    ensures var q := Behind(items, |f.levels|);
            var found := Found(Run(q, BackText(Ending(f, [], later))));
            !Writes(found) && (Query in q.kinds ==> Query in found) && (later == [] ==> found == q.kinds)
  {
    var q := Behind(items, |f.levels|);
    if IsInside(q.mode) {
      EndingIsTame(f, later);
      InsideStaysInside(q, BackText(Ending(f, [], later)));
    } else {
      SomeMutationIsOk();
      TooDeep(f, q, later);
    }
  }

  /** Then a mutation behind it is not seen, if a selection set was. */
  lemma MutationIsHidden(f: Front, items: seq<BlockItem>)
    requires FrontOk(f) && Hides(items, |f.levels|)
    requires Query in FrontKinds(f) || Query in Behind(items, |f.levels|).kinds
    ensures BackOk(Ending(f, [], [SomeMutation()]))
    ensures var defs := Document(f, items, [], [SomeMutation()]); Verdict(defs) && !DeclaredReadOnly(defs)
  {
    var defs := Document(f, items, [], [SomeMutation()]);
    SomeMutationIsOk();
    EndingIsOk(f, [], [SomeMutation()]);
    DocumentIs(f, items, [], [SomeMutation()]);
    HiddenEnd(f, items, [SomeMutation()]);
    VerdictIs(defs, f, items, Ending(f, [], [SomeMutation()]));
    assert defs[|f.earlier| + 1] == SomeMutation();
  }

  /** Otherwise the selection set itself is not seen. */
  lemma SelectionIsHidden(f: Front, items: seq<BlockItem>)
    requires FrontOk(f) && Hides(items, |f.levels|)
    requires Query !in FrontKinds(f) && Query !in Behind(items, |f.levels|).kinds
    ensures BackOk(Ending(f, [], []))
    ensures var defs := Document(f, items, [], []); !Verdict(defs) && DeclaredReadOnly(defs) && !StrayName(defs)
  {
    var defs := Document(f, items, [], []);
    EndingIsOk(f, [], []);
    DocumentIs(f, items, [], []);
    HiddenEnd(f, items, []);
    VerdictIs(defs, f, items, Ending(f, [], []));
    DeclaredBehind(defs, f, items, Ending(f, [], []));
    EndKinds(f, []);
  }

  /** The block string ends braces too many, or shows the scanner a keyword: a document that only
      reads is not classified as read-only. */
  lemma ReadingIsRefused(f: Front, items: seq<BlockItem>)
    requires FrontOk(f)
    requires var q := Behind(items, |f.levels|);
             Writes(q.kinds) || (IsOutside(q.mode) && q.depth < |f.levels|)
    ensures BackOk(Ending(f, MutationField(), []))
    ensures var defs := Document(f, items, MutationField(), []);
            !Verdict(defs) && DeclaredReadOnly(defs) && !StrayName(defs)
  {
    var q := Behind(items, |f.levels|);
    var b := Ending(f, MutationField(), []);
    var defs := Document(f, items, MutationField(), []);
    MutationFieldIsOk();
    EndingIsOk(f, MutationField(), []);
    DocumentIs(f, items, MutationField(), []);
    VerdictIs(defs, f, items, b);
    DeclaredBehind(defs, f, items, b);
    EndKinds(f, []);
    if Writes(q.kinds) {
      RunKeepsKinds(q, BackText(b));
      WritesPrefix(q.kinds, Found(Run(q, BackText(b))));
    } else {
      OutsideBack(q, b);
      UniformText(|f.levels|, MutationField());
      KeywordIsName(Mutation);
      KeywordKind(Mutation);
      FieldIsSeen(|f.levels|, Keyword(Mutation), PiecesText(b.pieces), q.depth);
      WritesConcat(q.kinds, Scan(CloseText(b.sides) + PiecesText(b.pieces), q.depth));
    }
  }

  lemma WritesPrefix(one: seq<OperationType>, two: seq<OperationType>)
    requires one <= two && Writes(one)
    ensures Writes(two)
  {
    assert two == one + two[|one|..];
    WritesConcat(one, two[|one|..]);
  }

  /** Block strings, exactly: wherever it stands, in the head of a definition or in selection sets
      however deep, and whatever stands before it, a block string is harmless if and only if every
      document that goes on behind it is classified as it should be. */
  lemma HarmlessIff(f: Front, items: seq<BlockItem>)
    requires FrontOk(f) && LegalBlock(items, 0)
    ensures IsHarmless(items, |f.levels|) <==>
            forall b, defs :: BackOk(b) && IsDocument(defs, f, items, b) ==> IsRight(defs)
  {
    if IsHarmless(items, |f.levels|) {
      forall b, defs | BackOk(b) && IsDocument(defs, f, items, b)
        ensures IsRight(defs)
      {
        HarmlessIsRight(f, items, b, defs);
      }
    } else {
      WrongDocument(f, items);
    }
  }

  lemma WrongDocument(f: Front, items: seq<BlockItem>)
    requires FrontOk(f) && !IsHarmless(items, |f.levels|)
    ensures exists b, defs :: BackOk(b) && IsDocument(defs, f, items, b) && !IsRight(defs)
  {
    var q := Behind(items, |f.levels|);
    var block := TokenText(Block(items));
    assert block == TRIPLE + (BlockText(items) + TRIPLE) && block[|block| - 1] == '"';
    BehindQuote(State(Code, |f.levels|, []), block);
    if Writes(q.kinds) || (IsOutside(q.mode) && q.depth < |f.levels|) {
      ReadingIsRefused(f, items);
      DocumentIs(f, items, MutationField(), []);
    } else if Query in FrontKinds(f) || Query in q.kinds {
      MutationIsHidden(f, items);
      DocumentIs(f, items, [], [SomeMutation()]);
    } else {
      SelectionIsHidden(f, items);
      DocumentIs(f, items, [], []);
    }
  }

  // ---- how many escapes ----

  /** Characters that mean nothing to the scanner on their own. */
  predicate IsInert(item: BlockItem) {
    item.EscapedTriple? || (item.c != '"' && item.c != '#' && item.c != '{' && item.c != '}')
  }

  predicate AllInert(items: seq<BlockItem>) { forall i :: 0 <= i < |items| ==> IsInert(items[i]) }

  function Escapes(items: seq<BlockItem>): nat {
    if items == [] then 0 else (if items[0].EscapedTriple? then 1 else 0) + Escapes(items[1..])
  }

  /** In a block string, or in code, inside braces. */
  predicate IsAt(q: State, inBlock: bool, depth: nat) {
    q.depth == depth > 0 && q.kinds == [] && (if inBlock then q.mode == InBlock(0) else q.mode.Code? || q.mode.InName?)
  }

  lemma StepInert(q: State, c: char, inBlock: bool, depth: nat)
    requires IsAt(q, inBlock, depth) && c != '"' && c != '#' && c != '{' && c != '}'
    ensures IsAt(Step(q, c), inBlock, depth)
  {
  }

  /** An escaped triple quote ends the block string or opens one. */
  lemma RunEscape(q: State, inBlock: bool, depth: nat)
    requires IsAt(q, inBlock, depth)
    ensures IsAt(Run(q, "\\" + TRIPLE), !inBlock, depth)
  {
    var s := "\\" + TRIPLE;
    assert s[0] == '\\' && s[1..] == TRIPLE;
    StepInert(q, '\\', inBlock, depth);
    if inBlock {
      QuotesClose(depth, []);
    } else {
      QuotesOpen(Step(q, '\\'));
    }
  }

  lemma {:induction false} RunInert(q: State, items: seq<BlockItem>, inBlock: bool, depth: nat)
    requires IsAt(q, inBlock, depth) && AllInert(items)
    ensures IsAt(Run(q, BlockText(items)), inBlock == (Escapes(items) % 2 == 0), depth)
    decreases |items|
  {
    if items != [] {
      var rest := BlockText(items[1..]);
      match items[0] {
        case Raw(c) =>
          StepInert(q, c, inBlock, depth);
          assert BlockText(items)[0] == c && BlockText(items)[1..] == rest;
          RunInert(Step(q, c), items[1..], inBlock, depth);
        case EscapedTriple =>
          RunEscape(q, inBlock, depth);
          RunConcat(q, "\\" + TRIPLE, rest);
          RunInert(Run(q, "\\" + TRIPLE), items[1..], !inBlock, depth);
      }
    }
  }

  /** In selection sets, for block strings of inert characters, it is the number of escaped triple
      quotes that decides, at every depth. */
  lemma HarmlessIffEven(items: seq<BlockItem>, depth: nat)
    requires AllInert(items) && depth > 0
    ensures IsHarmless(items, depth) <==> Escapes(items) % 2 == 0
    ensures Escapes(items) % 2 == 1 ==> Hides(items, depth)
  {
    var q := State(Code, depth, []);
    var text := BlockText(items);
    RunConcat(q, TRIPLE, text + TRIPLE);
    QuotesOpen(q);
    var inside := State(InBlock(0), depth, []);
    RunConcat(inside, text, TRIPLE);
    RunInert(inside, items, true, depth);
    if Escapes(items) % 2 == 0 {
      QuotesClose(depth, []);
    } else {
      QuotesOpen(Run(inside, text));
    }
  }

  /** In any selection set of any document that reads up to it, an odd number of escaped triple
      quotes hides what stands behind: a document with a mutation is classified as read-only. */
  lemma OddEscapesHideMutation(f: Front, items: seq<BlockItem>)
    requires FrontOk(f) && f.levels != [] && AllInert(items) && Escapes(items) % 2 == 1
    ensures var defs := Document(f, items, [], [SomeMutation()]); Verdict(defs) && !DeclaredReadOnly(defs)
  {
    HarmlessIffEven(items, |f.levels|);
    FrontKindsRead(f);
    MutationIsHidden(f, items);
  }

  /** A closing brace between two escaped triple quotes. */
  const BRACE_BLOCK: seq<BlockItem> := [EscapedTriple, Raw('}'), EscapedTriple]

  /** It is a legal block string and ends one brace too many. */
  lemma BraceEndsSelection(depth: nat)
    requires depth > 0
    ensures LegalBlock(BRACE_BLOCK, 0) && Behind(BRACE_BLOCK, depth) == State(Code, depth - 1, [])
  {
    var escape := "\\" + TRIPLE;
    var text := escape + ("}" + escape);
    assert BRACE_BLOCK[1..] == [Raw('}'), EscapedTriple] && BRACE_BLOCK[1..][1..] == [EscapedTriple];
    assert BRACE_BLOCK[1..][1..][1..] == [];
    assert BlockText(BRACE_BLOCK) == text;
    var q := State(Code, depth, []);
    RunConcat(q, TRIPLE, text + TRIPLE);
    QuotesOpen(q);
    var inside := State(InBlock(0), depth, []);
    RunConcat(inside, text, TRIPLE);
    RunConcat(inside, escape, "}" + escape);
    RunEscape(inside, true, depth);
    BraceThenEscape(Run(inside, escape), depth);
    QuotesClose(depth - 1, []);
  }

  lemma BraceThenEscape(q: State, depth: nat)
    requires IsAt(q, false, depth)
    ensures Run(q, "}" + ("\\" + TRIPLE)) == State(InBlock(0), depth - 1, [])
  {
    var s := "}" + ("\\" + TRIPLE);
    assert s[0] == '}' && s[1..] == "\\" + TRIPLE && s[1..][0] == '\\' && s[1..][1..] == TRIPLE;
    var closed := State(Code, depth - 1, []);
    assert Step(q, '}') == closed && Step(closed, '\\') == closed;
    QuotesOpen(closed);
  }
}
