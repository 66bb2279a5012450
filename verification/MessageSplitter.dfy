/** Splitting a long message into chunks, at line ends where possible. Lengths count UTF-16
    code units, as JavaScript strings do. */
module MessageSplitter {

  type Unit = n: nat | n < 0x1_0000

  type Text = seq<Unit>

  const MAX_LEN: nat := 4000
  const NEWLINE: Unit := 10

  /** `lastIndexOf("\n", from)` */
  function LastNewline(text: Text, from: nat): (i: int)
    requires from < |text|
    ensures -1 <= i <= from
    ensures i >= 0 ==> text[i] == NEWLINE
    ensures forall k :: i < k <= from ==> text[k] != NEWLINE
  {
    if text[from] == NEWLINE then from else if from == 0 then -1 else LastNewline(text, from - 1)
  }

  /** How much of the remaining text the next chunk takes. */
  function Cut(remaining: Text): (cut: nat)
    requires remaining != []
    ensures 1 <= cut <= |remaining|
  {
    if |remaining| <= MAX_LEN then |remaining|
    else
      var nl := LastNewline(remaining, MAX_LEN);
      if 2 * nl > MAX_LEN then nl + 1 else MAX_LEN
  }

  function ChunksOf(remaining: Text): seq<Text>
    decreases |remaining|
  {
    if remaining == [] then []
    else [remaining[..Cut(remaining)]] + ChunksOf(remaining[Cut(remaining)..])
  }

  function Chunks(text: Text): seq<Text> {
    if |text| <= MAX_LEN then [text] else ChunksOf(text)
  }

  /** The chunking of the `/send` handler. */
  method Split(text: Text) returns (chunks: seq<Text>)
    ensures chunks == Chunks(text)
  {
    chunks := [];
    if |text| <= MAX_LEN {
      chunks := [text];
    } else {
      var remaining := text;
      while |remaining| > 0
        invariant chunks + ChunksOf(remaining) == ChunksOf(text)
        decreases |remaining|
      {
        var cut := if MAX_LEN < |remaining| then MAX_LEN else |remaining|;
        if cut < |remaining| {
          var nl := LastNewline(remaining, cut);
          if 2 * nl > cut {
            cut := nl + 1;
          }
        }
        assert cut == Cut(remaining);
        ghost var rest := ChunksOf(remaining[cut..]);
        assert chunks + ([remaining[..cut]] + rest) == (chunks + [remaining[..cut]]) + rest;
        chunks := chunks + [remaining[..cut]];
        remaining := remaining[cut..];
      }
    }
  }

  function Concat(chunks: seq<Text>): Text {
    if chunks == [] then [] else chunks[0] + Concat(chunks[1..])
  }

  /** What holds of every list of chunks, the last one excepted where it says so. */
  predicate WellSized(chunks: seq<Text>) {
    && (forall i :: 0 <= i < |chunks| ==> 1 <= |chunks[i]| <= MAX_LEN + 1)
    && (forall i :: 0 <= i < |chunks| - 1 ==> |chunks[i]| >= MAX_LEN / 2 + 2)
  }

  lemma {:induction false} ChunksOfConserve(remaining: Text)
    ensures Concat(ChunksOf(remaining)) == remaining
    decreases |remaining|
  {
    if remaining != [] {
      var cut := Cut(remaining);
      ChunksOfConserve(remaining[cut..]);
      ConcatCons(remaining[..cut], ChunksOf(remaining[cut..]));
      assert remaining[..cut] + remaining[cut..] == remaining;
    }
  }

  lemma ConcatCons(chunk: Text, rest: seq<Text>)
    ensures Concat([chunk] + rest) == chunk + Concat(rest)
  {
    assert ([chunk] + rest)[1..] == rest;
  }

  lemma CutSize(remaining: Text)
    requires remaining != []
    ensures Cut(remaining) <= MAX_LEN + 1
    ensures Cut(remaining) < |remaining| ==> Cut(remaining) >= MAX_LEN / 2 + 2
  {
  }

  lemma SizedCons(chunk: Text, rest: seq<Text>)
    requires WellSized(rest) && 1 <= |chunk| <= MAX_LEN + 1 && (rest != [] ==> |chunk| >= MAX_LEN / 2 + 2)
    ensures WellSized([chunk] + rest)
  {
  }

  lemma {:induction false} ChunksOfAreSized(remaining: Text)
    ensures WellSized(ChunksOf(remaining))
    ensures remaining != [] <==> ChunksOf(remaining) != []
    decreases |remaining|
  {
    if remaining != [] {
      CutSize(remaining);
      ChunksOfAreSized(remaining[Cut(remaining)..]);
      SizedCons(remaining[..Cut(remaining)], ChunksOf(remaining[Cut(remaining)..]));
    }
  }

  lemma {:induction false} FewChunks(chunks: seq<Text>)
    requires chunks != [] && WellSized(chunks)
    ensures |Concat(chunks)| >= (|chunks| - 1) * (MAX_LEN / 2 + 2) + 1
    decreases |chunks|
  {
    var rest := chunks[1..];
    if rest == [] {
      assert |Concat(rest)| == 0;
    } else {
      SizedRest(chunks);
      FewChunks(rest);
    }
  }

  lemma SizedRest(chunks: seq<Text>)
    requires |chunks| > 1 && WellSized(chunks)
    ensures WellSized(chunks[1..])
  {
  }

  /** Message splitting: the chunks are the text, none is empty or has more than 4001 units,
      and all but the last have at least 2002, so there are few of them. */
  lemma SplittingConserves(text: Text)
    requires text != []
    ensures Concat(Chunks(text)) == text
    ensures forall i :: 0 <= i < |Chunks(text)| ==> 1 <= |Chunks(text)[i]| <= 4001
    ensures forall i :: 0 <= i < |Chunks(text)| - 1 ==> |Chunks(text)[i]| >= 2002
    ensures 1 <= |Chunks(text)| <= (|text| - 1) / 2002 + 1
  {
    ChunksOfConserve(text);
    ChunksOfAreSized(text);
    if |text| <= MAX_LEN {
      assert Concat([text]) == text + Concat([text][1..]) == text + [];
    } else {
      FewChunks(ChunksOf(text));
    }
  }

  /** Where a chunk ends: behind the last line end that lies in the second half of the limit,
      and only without one at the limit itself. `rest` is what the later chunks hold. */
  ghost predicate EndsWell(chunk: Text, rest: Text) {
    || rest == []
    || (|chunk| > MAX_LEN / 2 + 1 && chunk[|chunk| - 1] == NEWLINE
        && forall k :: 0 <= k < |rest| && k <= MAX_LEN - |chunk| ==> rest[k] != NEWLINE)
    || (|chunk| == MAX_LEN && rest[0] != NEWLINE
        && forall k :: MAX_LEN / 2 < k < MAX_LEN ==> chunk[k] != NEWLINE)
  }

  lemma CutEndsWell(remaining: Text)
    requires remaining != []
    ensures EndsWell(remaining[..Cut(remaining)], remaining[Cut(remaining)..])
  {
    var cut := Cut(remaining);
    if cut < |remaining| {
      var nl := LastNewline(remaining, MAX_LEN);
      if 2 * nl > MAX_LEN {
        var rest := remaining[cut..];
        assert forall k :: 0 <= k < |rest| ==> rest[k] == remaining[cut + k];
      }
    }
  }

  lemma {:induction false} ChunksEndWell(remaining: Text, i: nat)
    requires i < |ChunksOf(remaining)|
    ensures EndsWell(ChunksOf(remaining)[i], Concat(ChunksOf(remaining)[i + 1..]))
    decreases |remaining|
  {
    var cut := Cut(remaining);
    var chunks := ChunksOf(remaining);
    var later := ChunksOf(remaining[cut..]);
    assert chunks == [remaining[..cut]] + later;
    if i == 0 {
      assert chunks[1..] == later;
      ChunksOfConserve(remaining[cut..]);
      CutEndsWell(remaining);
    } else {
      ChunksEndWell(remaining[cut..], i - 1);
      assert chunks[i + 1..] == later[i..];
    }
  }

  lemma TornAtTheLimit(chunk: Text, rest: Text)
    requires EndsWell(chunk, rest) && rest != [] && chunk != [] && chunk[|chunk| - 1] != NEWLINE
    ensures |chunk| == MAX_LEN
  {
  }

  lemma {:induction false} LaterChunksHoldText(remaining: Text, i: nat)
    requires i + 1 < |ChunksOf(remaining)|
    ensures Concat(ChunksOf(remaining)[i + 1..]) != []
  {
    ChunksOfAreSized(remaining);
    var rest := ChunksOf(remaining)[i + 1..];
    assert rest[0] == ChunksOf(remaining)[i + 1] && rest[0] != [];
    assert Concat(rest) == rest[0] + Concat(rest[1..]);
  }

  /** A surrogate pair is torn apart only behind a chunk of exactly 4000 units. */
  lemma PairsAreTornAtTheLimitOnly(text: Text, i: nat)
    requires |text| > MAX_LEN && i + 1 < |Chunks(text)|
    requires Chunks(text)[i] != [] && 0xD800 <= Chunks(text)[i][|Chunks(text)[i]| - 1] <= 0xDBFF
    ensures |Chunks(text)[i]| == MAX_LEN
  {
    ChunksEndWell(text, i);
    LaterChunksHoldText(text, i);
    TornAtTheLimit(ChunksOf(text)[i], Concat(ChunksOf(text)[i + 1..]));
  }

  predicate IsHigh(unit: Unit) { 0xD800 <= unit <= 0xDBFF }

  predicate IsLow(unit: Unit) { 0xDC00 <= unit <= 0xDFFF }

  /** The border between two texts lies in a surrogate pair. */
  predicate Tears(chunk: Text, rest: Text) {
    chunk != [] && rest != [] && IsHigh(chunk[|chunk| - 1]) && IsLow(rest[0])
  }

  /** A pair lies across the limit, and no line end in the second half of it. */
  ghost predicate PairAtLimit(remaining: Text) {
    && |remaining| > MAX_LEN && IsHigh(remaining[MAX_LEN - 1]) && IsLow(remaining[MAX_LEN])
    && forall k :: MAX_LEN / 2 < k <= MAX_LEN ==> remaining[k] != NEWLINE
  }

  lemma CutTearsIff(remaining: Text)
    requires remaining != []
    ensures Tears(remaining[..Cut(remaining)], remaining[Cut(remaining)..]) <==> PairAtLimit(remaining)
  {
    if |remaining| > MAX_LEN {
      var nl := LastNewline(remaining, MAX_LEN);
      if 2 * nl > MAX_LEN {
        assert remaining[nl] == NEWLINE;
      }
    }
  }

  /** Each chunk is cut from what the chunks before it left. */
  lemma {:induction false} ChunkIsCut(remaining: Text, i: nat)
    requires i < |ChunksOf(remaining)|
    ensures var left := Concat(ChunksOf(remaining)[i..]);
            && left != [] && ChunksOf(remaining)[i] == left[..Cut(left)]
            && Concat(ChunksOf(remaining)[i + 1..]) == left[Cut(left)..]
    decreases |remaining|
  {
    var cut := Cut(remaining);
    var chunks, later := ChunksOf(remaining), ChunksOf(remaining[cut..]);
    assert chunks == [remaining[..cut]] + later;
    if i == 0 {
      assert chunks[0..] == chunks && chunks[1..] == later;
      ChunksOfConserve(remaining);
      ChunksOfConserve(remaining[cut..]);
    } else {
      ChunkIsCut(remaining[cut..], i - 1);
      assert chunks[i..] == later[i - 1..] && chunks[i + 1..] == later[i..];
    }
  }

  /** The end of a chunk tears a surrogate pair exactly when, in the text that was left for it, the
      pair lies across the limit and no line end lies at the indexes 2001 to 4000. */
  lemma PairIsTornIff(text: Text, i: nat)
    requires i < |Chunks(text)|
    ensures Tears(Chunks(text)[i], Concat(Chunks(text)[i + 1..])) <==> PairAtLimit(Concat(Chunks(text)[i..]))
  {
    if |text| <= MAX_LEN {
      assert Concat([text]) == text + Concat([text][1..]) == text + [];
      assert [text][0..] == [text];
    } else {
      ChunkIsCut(text, i);
      CutTearsIff(Concat(ChunksOf(text)[i..]));
    }
  }

  /** 3999 letters and one emoji, U+1F600: the emoji is torn into two chunks. */
  lemma TornEmoji()
    ensures var text := seq(3999, _ => 97) + [0xD83D, 0xDE00];
            Chunks(text) == [seq(3999, _ => 97) + [0xD83D], [0xDE00]]
  {
    var text: Text := seq(3999, _ => 97) + [0xD83D, 0xDE00];
    var low: Text := [0xDE00];
    assert Cut(text) == MAX_LEN && Cut(low) == 1;
    assert text[..MAX_LEN] == seq(3999, _ => 97) + [0xD83D] && text[MAX_LEN..] == low;
    assert low[..1] == low && low[1..] == [];
    assert ChunksOf(low) == [low] + ChunksOf([]);
  }
}
