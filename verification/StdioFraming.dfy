/** The incremental framer of an MCP stdio session: complete messages are cut out of a
    growing byte buffer, either one JSON text per line or a body behind a
    `Content-Length` header. */
module StdioFraming {
  import opened Results
  import opened Sequences
  import opened Text
  import opened Bytes

  const CR: byte := 13
  const LF: byte := 10
  const READ_SIZE: nat := 4096
  const USIZE_LIMIT: nat := 0x1_0000_0000_0000_0000

  datatype Id = Number(n: int) | Other(text: string)

  datatype Response = Response(id: Option<Id>, result: Option<string>, error: Option<string>)

  /** What an empty line is taken for. */
  const EMPTY_LINE := Response(None, None, None)

  datatype Failure =
    | HeaderEncoding
    | MissingLength
    | TooLarge(size: nat)
    | BadJson
    | Closed
    | BufferLimit

  /** The library code the framer calls: the UTF-8 check and the JSON reader. */
  datatype Codec = Codec(utf8: Bytes -> Option<string>, json: Bytes -> Option<Response>)

  // ---- try_parse_message ----

  predicate HeaderEndsAt(buf: Bytes, i: nat) {
    i + 4 <= |buf| && buf[i] == CR && buf[i + 1] == LF && buf[i + 2] == CR && buf[i + 3] == LF
  }

  ghost predicate NoHeaderEnd(buf: Bytes) { forall i: nat :: !HeaderEndsAt(buf, i) }

  /** The first CR LF CR LF. */
  function FindHeaderEnd(buf: Bytes): (r: Option<nat>)
    ensures r.None? ==> NoHeaderEnd(buf)
    ensures r.Some? ==> HeaderEndsAt(buf, r.value) && forall i: nat :: i < r.value ==> !HeaderEndsAt(buf, i)
  {
    if |buf| < 4 then None
    else if HeaderEndsAt(buf, 0) then Some(0)
    else
      var rest := FindHeaderEnd(buf[1..]);
      assert forall i: nat :: i > 0 ==> HeaderEndsAt(buf, i) == HeaderEndsAt(buf[1..], i - 1);
      match rest
      case Some(i) => Some(i + 1)
      case None => None
  }

  /** `str::lines` */
  function Lines(s: string): seq<string>
    decreases |s|
  {
    var i := IndexOf(s, '\n');
    if s == "" then []
    else if i == |s| then [s]
    else
      var line := s[..i];
      [if line != [] && line[i - 1] == '\r' then line[..i - 1] else line] + Lines(s[i + 1..])
  }

  function DigitsValue(s: string): nat
    requires AllDigits(s)
  {
    if s == "" then 0 else 10 * DigitsValue(s[..|s| - 1]) + ((s[|s| - 1] as int) - ('0' as int))
  }

  /** `parse::<usize>` on a 64-bit target */
  function ParseUsize(s: string): Option<nat> {
    var digits := if s != "" && s[0] == '+' then s[1..] else s;
    if digits == "" || !AllDigits(digits) then None
    else if DigitsValue(digits) >= USIZE_LIMIT then None
    else Some(DigitsValue(digits))
  }

  const LENGTH_FIELD := "content-length:"

  function LineLength(line: string): Option<nat> {
    var lower := Lower(line);
    if LENGTH_FIELD <= lower then ParseUsize(Trim(lower[|LENGTH_FIELD|..])) else None
  }

  function FirstLength(lines: seq<string>): Option<nat> {
    if lines == [] then None
    else if LineLength(lines[0]).Some? then LineLength(lines[0])
    else FirstLength(lines[1..])
  }

  function ParseContentLength(header: string): Option<nat> { FirstLength(Lines(header)) }

  /** A message and the number of bytes it used up, or nothing yet. */
  function TryParse(codec: Codec, buf: Bytes, max: nat): (r: Result<Option<(Response, nat)>, Failure>)
    ensures r.Ok? && r.value.Some? ==> 0 < r.value.value.1 <= |buf|
  {
    match FindHeaderEnd(buf)
    case Some(end) => TryParseFrame(codec, buf, end, max)
    case None => TryParseLine(codec, buf, max)
  }

  function TryParseFrame(codec: Codec, buf: Bytes, end: nat, max: nat): (r: Result<Option<(Response, nat)>, Failure>)
    requires end + 4 <= |buf|
    ensures r.Ok? && r.value.Some? ==> 0 < r.value.value.1 <= |buf|
  {
    match codec.utf8(buf[..end])
    case None => Err(HeaderEncoding)
    case Some(header) =>
      match ParseContentLength(header)
      case None => Err(MissingLength)
      case Some(length) =>
        if length > max then Err(TooLarge(length))
        else if |buf| < end + 4 + length then Ok(None)
        else
          match codec.json(buf[end + 4..end + 4 + length])
          case None => Err(BadJson)
          case Some(response) => Ok(Some((response, end + 4 + length)))
  }

  function TryParseLine(codec: Codec, buf: Bytes, max: nat): (r: Result<Option<(Response, nat)>, Failure>)
    ensures r.Ok? && r.value.Some? ==> 0 < r.value.value.1 <= |buf|
  {
    var end := IndexOf(buf, LF);
    if end == |buf| then Ok(None)
    else if end > max then Err(TooLarge(end))
    else if end == 0 then Ok(Some((EMPTY_LINE, 1)))
    else
      match codec.json(buf[..end])
      case None => Err(BadJson)
      case Some(response) => Ok(Some((response, end + 1)))
  }

  // ---- read_message ----

  /** `Waiting`: every read so far is used up and the next one has not come. */
  datatype Outcome = Got(response: Response) | Failed(failure: Failure) | Waiting

  datatype Received = Received(outcome: Outcome, buf: Bytes, incoming: seq<Bytes>)

  /** The next message, from the buffer and the reads to come (an empty read is end of file). */
  function Receive(codec: Codec, max: nat, buf: Bytes, incoming: seq<Bytes>): (r: Received)
    ensures |r.incoming| <= |incoming|
    decreases |incoming|
  {
    match TryParse(codec, buf, max)
    case Err(e) => Received(Failed(e), buf, incoming)
    case Ok(Some((response, used))) => Received(Got(response), buf[used..], incoming)
    case Ok(None) =>
      if incoming == [] then Received(Waiting, buf, incoming)
      else if incoming[0] == [] then Received(Failed(Closed), buf, incoming[1..])
      else if |buf + incoming[0]| > 2 * max then Received(Failed(BufferLimit), buf + incoming[0], incoming[1..])
      else Receive(codec, max, buf + incoming[0], incoming[1..])
  }

  lemma {:induction false} ReceiveConsumes(codec: Codec, max: nat, buf: Bytes, incoming: seq<Bytes>)
    ensures var r := Receive(codec, max, buf, incoming);
            r.outcome.Got? ==> |r.buf| + |Flatten(r.incoming)| < |buf| + |Flatten(incoming)|
    decreases |incoming|
  {
    if TryParse(codec, buf, max) == Ok(None) && incoming != [] && incoming[0] != [] {
      ReceiveConsumes(codec, max, buf + incoming[0], incoming[1..]);
    }
  }

  /** Reading a message loses and reorders no bytes: buffer and unread input together are a
      suffix of what they were. */
  lemma {:induction false} ReceiveKeepsStream(codec: Codec, max: nat, buf: Bytes, incoming: seq<Bytes>)
    returns (used: nat)
    ensures used <= |buf + Flatten(incoming)|
    ensures var r := Receive(codec, max, buf, incoming);
            && r.buf + Flatten(r.incoming) == (buf + Flatten(incoming))[used..]
            && (r.outcome.Got? <==> used > 0)
    decreases |incoming|
  {
    match TryParse(codec, buf, max) {
      case Err(_) => used := 0;
      case Ok(Some((_, size))) =>
        used := size;
        DropFromFirst(buf, Flatten(incoming), size);
      case Ok(None) =>
        used := 0;
        if incoming != [] {
          assert (buf + incoming[0]) + Flatten(incoming[1..]) == buf + Flatten(incoming);
          if incoming[0] != [] && |buf + incoming[0]| <= 2 * max {
            used := ReceiveKeepsStream(codec, max, buf + incoming[0], incoming[1..]);
          }
        }
    }
  }

  lemma DropFromFirst(one: Bytes, two: Bytes, k: nat)
    requires k <= |one|
    ensures one[k..] + two == (one + two)[k..]
  {
  }

  /** `read_message` until a reply with the expected id. */
  function AwaitReply(codec: Codec, max: nat, buf: Bytes, incoming: seq<Bytes>, id: nat): (r: Received)
    ensures r.outcome.Got? ==> r.outcome.response.id == Some(Number(id))
    decreases |buf| + |Flatten(incoming)|
  {
    var r := Receive(codec, max, buf, incoming);
    if r.outcome.Got? && r.outcome.response.id != Some(Number(id)) then
      ReceiveConsumes(codec, max, buf, incoming);
      AwaitReply(codec, max, r.buf, r.incoming, id)
    else r
  }

  class StdioSession {
    const codec: Codec
    const max: nat
    var buf: Bytes
    var incoming: seq<Bytes>

    constructor (codec: Codec, max: nat, incoming: seq<Bytes>)
      ensures this.codec == codec && this.max == max && buf == [] && this.incoming == incoming
    {
      this.codec, this.max, this.buf, this.incoming := codec, max, [], incoming;
    }

    method ReadMessage() returns (outcome: Outcome)
      modifies this
      ensures Received(outcome, buf, incoming) == Receive(codec, max, old(buf), old(incoming))
    {
      while true
        invariant Receive(codec, max, buf, incoming) == Receive(codec, max, old(buf), old(incoming))
        decreases |incoming|
      {
        match TryParse(codec, buf, max) {
          case Err(e) => return Failed(e);
          case Ok(Some((response, used))) =>
            buf := buf[used..];
            return Got(response);
          case Ok(None) =>
        }
        if incoming == [] {
          return Waiting;
        }
        var data := incoming[0];
        incoming := incoming[1..];
        if data == [] {
          return Failed(Closed);
        }
        buf := buf + data;
        if |buf| > 2 * max {
          return Failed(BufferLimit);
        }
      }
    }

    /** The loop of `send_request` after the request is written. */
    method AwaitReplyTo(id: nat) returns (outcome: Outcome)
      modifies this
      ensures Received(outcome, buf, incoming) == AwaitReply(codec, max, old(buf), old(incoming), id)
    {
      outcome := Waiting;
      while true
        invariant AwaitReply(codec, max, buf, incoming, id) == AwaitReply(codec, max, old(buf), old(incoming), id)
        decreases |buf| + |Flatten(incoming)|
      {
        ReceiveConsumes(codec, max, buf, incoming);
        outcome := ReadMessage();
        if !outcome.Got? || outcome.response.id == Some(Number(id)) {
          return;
        }
      }
    }
  }

  // ---- line-delimited streams ----

  function JoinLines(lines: seq<Bytes>): Bytes {
    if lines == [] then [] else lines[0] + [LF] + JoinLines(lines[1..])
  }

  predicate NoLf(s: Bytes) { forall k :: 0 <= k < |s| ==> s[k] != LF }

  predicate GoodLine(codec: Codec, max: nat, line: Bytes) {
    |line| <= max && NoLf(line) && (line != [] ==> codec.json(line).Some?)
  }

  function LineResponse(codec: Codec, line: Bytes): Response
    requires line != [] ==> codec.json(line).Some?
  {
    if line == [] then EMPTY_LINE else codec.json(line).value
  }

  predicate GoodReads(incoming: seq<Bytes>) {
    forall i :: 0 <= i < |incoming| ==> 1 <= |incoming[i]| <= READ_SIZE
  }

  /** A stream of good lines and the beginning of another one. */
  predicate GoodStream(codec: Codec, max: nat, lines: seq<Bytes>, tail: Bytes) {
    && (forall i :: 0 <= i < |lines| ==> GoodLine(codec, max, lines[i]))
    && |tail| <= max && NoLf(tail)
  }

  lemma SecondLineIsCr(lines: seq<Bytes>, tail: Bytes)
    requires NoLf(tail) && (lines != [] ==> NoLf(lines[0]))
    requires var s := JoinLines(lines) + tail; |s| >= 2 && s[0] == CR && s[1] == LF
    ensures lines != [] && lines[0] == [CR]
  {
    var s := JoinLines(lines) + tail;
    if lines == [] {
      assert false;
    } else {
      assert s == lines[0] + ([LF] + JoinLines(lines[1..]) + tail);
    }
  }

  /** Behind a CR LF, a further CR LF would be a line holding a single CR, which is no JSON
      text; so a stream of good lines contains no header end. */
  lemma {:induction false} LinesHaveNoHeaderEnd(codec: Codec, max: nat, lines: seq<Bytes>, tail: Bytes)
    requires GoodStream(codec, max, lines, tail) && codec.json([CR]).None?
    ensures NoHeaderEnd(JoinLines(lines) + tail)
  {
    var s := JoinLines(lines) + tail;
    if lines == [] {
      assert s == tail;
    } else {
      var line := lines[0];
      var rest := JoinLines(lines[1..]) + tail;
      assert s == line + [LF] + rest;
      LinesHaveNoHeaderEnd(codec, max, lines[1..], tail);
      forall i: nat
        ensures !HeaderEndsAt(s, i)
      {
        if i > |line| {
          assert HeaderEndsAt(s, i) ==> HeaderEndsAt(rest, i - |line| - 1);
        } else if HeaderEndsAt(s, i) {
          assert i + 1 == |line|;
          assert rest[0] == s[i + 2] && rest[1] == s[i + 3];
          assert lines[1..] != [] ==> GoodLine(codec, max, lines[1..][0]);
          SecondLineIsCr(lines[1..], tail);
          assert false;
        }
      }
    }
  }

  lemma FirstLine(buf: Bytes, s: Bytes, line: Bytes)
    requires buf <= s && line + [LF] <= s && NoLf(line)
    ensures IndexOf(buf, LF) == if |buf| > |line| then |line| else |buf|
    ensures |buf| > |line| ==> buf[..|line|] == line
  {
    assert s[|line|] == (line + [LF])[|line|] == LF;
    assert forall k :: 0 <= k < |line| ==> s[k] == (line + [LF])[k] == line[k];
    assert forall k :: 0 <= k < |buf| ==> buf[k] == s[k];
  }

  lemma BufferedPart(codec: Codec, max: nat, buf: Bytes, s: Bytes, lines: seq<Bytes>, tail: Bytes)
    requires codec.json([CR]).None? && GoodStream(codec, max, lines, tail)
    requires s == JoinLines(lines) + tail && buf <= s
    ensures FindHeaderEnd(buf).None?
  {
    LinesHaveNoHeaderEnd(codec, max, lines, tail);
    forall i: nat
      ensures !HeaderEndsAt(buf, i)
    {
      assert !HeaderEndsAt(s, i);
    }
  }

  lemma ParseLine(codec: Codec, max: nat, buf: Bytes, s: Bytes, lines: seq<Bytes>, tail: Bytes)
    requires codec.json([CR]).None? && GoodStream(codec, max, lines, tail) && lines != []
    requires s == JoinLines(lines) + tail && buf <= s
    ensures TryParse(codec, buf, max)
         == if |buf| > |lines[0]| then Ok(Some((LineResponse(codec, lines[0]), |lines[0]| + 1))) else Ok(None)
  {
    assert s == lines[0] + [LF] + (JoinLines(lines[1..]) + tail);
    BufferedPart(codec, max, buf, s, lines, tail);
    FirstLine(buf, s, lines[0]);
    assert GoodLine(codec, max, lines[0]);
  }

  /** One message: whatever is already buffered and however the rest is cut into reads. */
  lemma {:induction false} ReceiveLine(codec: Codec, max: nat, buf: Bytes, incoming: seq<Bytes>,
                                       lines: seq<Bytes>, tail: Bytes)
    requires READ_SIZE <= max && codec.json([CR]).None?
    requires GoodStream(codec, max, lines, tail) && GoodReads(incoming) && lines != []
    requires buf + Flatten(incoming) == JoinLines(lines) + tail
    ensures var r := Receive(codec, max, buf, incoming);
            && r.outcome == Got(LineResponse(codec, lines[0]))
            && GoodReads(r.incoming)
            && r.buf + Flatten(r.incoming) == JoinLines(lines[1..]) + tail
    decreases |incoming|
  {
    var s := JoinLines(lines) + tail;
    var line := lines[0];
    ParseLine(codec, max, buf, s, lines, tail);
    if |buf| > |line| {
      assert buf[|line| + 1..] + Flatten(incoming) == s[|line| + 1..];
      assert s[|line| + 1..] == JoinLines(lines[1..]) + tail;
    } else {
      assert incoming != [];
      assert buf + incoming[0] + Flatten(incoming[1..]) == s;
      ReceiveLine(codec, max, buf + incoming[0], incoming[1..], lines, tail);
    }
  }

  /** The outcomes of `n` successive calls of `read_message`. */
  function ReceiveMany(codec: Codec, max: nat, buf: Bytes, incoming: seq<Bytes>, n: nat): (outcomes: seq<Outcome>)
    ensures |outcomes| == n
    decreases n
  {
    if n == 0 then []
    else
      var r := Receive(codec, max, buf, incoming);
      [r.outcome] + ReceiveMany(codec, max, r.buf, r.incoming, n - 1)
  }

  /** Successive calls return exactly the messages of the lines, in order. */
  lemma {:induction false} ReceiveLines(codec: Codec, max: nat, buf: Bytes, incoming: seq<Bytes>,
                                        lines: seq<Bytes>, tail: Bytes)
    requires READ_SIZE <= max && codec.json([CR]).None?
    requires GoodStream(codec, max, lines, tail) && GoodReads(incoming)
    requires buf + Flatten(incoming) == JoinLines(lines) + tail
    ensures forall i :: 0 <= i < |lines| ==>
              ReceiveMany(codec, max, buf, incoming, |lines|)[i] == Got(LineResponse(codec, lines[i]))
    decreases |lines|
  {
    if lines != [] {
      ReceiveLine(codec, max, buf, incoming, lines, tail);
      var r := Receive(codec, max, buf, incoming);
      ReceiveLines(codec, max, r.buf, r.incoming, lines[1..], tail);
      forall i | 0 <= i < |lines|
        ensures ReceiveMany(codec, max, buf, incoming, |lines|)[i] == Got(LineResponse(codec, lines[i]))
      {
        if i > 0 {
          assert lines[i] == lines[1..][i - 1];
        }
      }
    }
  }

  /** Chunking independence: two ways of cutting one stream into reads give the same messages. */
  lemma ChunkingIndependence(codec: Codec, max: nat, one: seq<Bytes>, two: seq<Bytes>,
                             lines: seq<Bytes>, tail: Bytes)
    requires READ_SIZE <= max && codec.json([CR]).None?
    requires GoodStream(codec, max, lines, tail) && GoodReads(one) && GoodReads(two)
    requires Flatten(one) == Flatten(two) == JoinLines(lines) + tail
    ensures ReceiveMany(codec, max, [], one, |lines|) == ReceiveMany(codec, max, [], two, |lines|)
  {
    assert [] + Flatten(one) == Flatten(one) && [] + Flatten(two) == Flatten(two);
    ReceiveLines(codec, max, [], one, lines, tail);
    ReceiveLines(codec, max, [], two, lines, tail);
  }

  // ---- framed messages ----

  /** The header and the blank line behind it. */
  function Top(header: Bytes): Bytes { header + [CR, LF, CR, LF] }

  /** A header of any number of lines, none of them blank, that announces the length of the body,
      and a body the reader accepts. */
  ghost predicate GoodFrame(codec: Codec, max: nat, header: Bytes, body: Bytes) {
    && NoHeaderEnd(header + [CR, LF, CR])
    && codec.utf8(header).Some?
    && ParseContentLength(codec.utf8(header).value) == Some(|body|)
    && |body| <= max
    && codec.json(body).Some?
  }

  function Frame(header: Bytes, body: Bytes): Bytes { Top(header) + body }

  /** A complete frame is returned and used up, and nothing behind it is touched. */
  lemma FrameRoundTrip(codec: Codec, max: nat, header: Bytes, body: Bytes, rest: Bytes)
    requires GoodFrame(codec, max, header, body)
    ensures TryParse(codec, Frame(header, body) + rest, max)
         == Ok(Some((codec.json(body).value, |header| + 4 + |body|)))
  {
    var buf := Frame(header, body) + rest;
    HeaderEndAt(header, buf);
    assert buf[..|header|] == header;
    assert buf[|header| + 4..|header| + 4 + |body|] == body;
  }

  lemma HeaderEndAt(header: Bytes, buf: Bytes)
    requires NoHeaderEnd(header + [CR, LF, CR]) && Top(header) <= buf
    ensures FindHeaderEnd(buf) == Some(|header|)
  {
    var h := |header|;
    assert forall k :: 0 <= k < h + 4 ==> buf[k] == Top(header)[k];
    assert HeaderEndsAt(buf, h);
    NoEarlierEnd(header, buf, h + 4);
  }

  /** Up to the end of the blank line there is no other one. */
  lemma NoEarlierEnd(header: Bytes, buf: Bytes, n: nat)
    requires NoHeaderEnd(header + [CR, LF, CR]) && n <= |buf| && n <= |header| + 4
    requires forall k :: 0 <= k < n ==> buf[k] == Top(header)[k]
    ensures forall i: nat :: i < |header| && i + 4 <= n ==> !HeaderEndsAt(buf, i)
  {
    var most := header + [CR, LF, CR];
    forall i: nat | i < |header| && i + 4 <= n
      ensures !HeaderEndsAt(buf, i)
    {
      assert forall k :: i <= k < i + 4 ==> buf[k] == Top(header)[k] == most[k];
      assert !HeaderEndsAt(most, i);
    }
  }

  /** The length of the first line of the header, with its CR. */
  function FirstLineLength(header: Bytes): (n: nat)
    ensures n <= |header| + 1
  {
    assert Top(header)[|header| + 1] == LF;
    IndexOf(Top(header), LF)
  }

  /** The first line of the header, taken for a line-delimited message: an error as a rule, since
      it is no JSON text, but a message when it is one or is empty. */
  function FirstLineMessage(codec: Codec, max: nat, header: Bytes): Result<Response, Failure> {
    var n := FirstLineLength(header);
    if n > max then Err(TooLarge(n))
    else if n == 0 then Ok(EMPTY_LINE)
    else if codec.json(Top(header)[..n]).None? then Err(BadJson)
    else Ok(codec.json(Top(header)[..n]).value)
  }

  function Message(r: Result<Response, Failure>): Outcome { if r.Ok? then Got(r.value) else Failed(r.error) }

  /** What is made of every strict prefix of a frame. From the end of its first line to the end of
      the blank line that line is taken for a line-delimited message; at every other point the
      framer waits. */
  lemma FramePrefix(codec: Codec, max: nat, header: Bytes, body: Bytes, n: nat)
    requires GoodFrame(codec, max, header, body) && n < |Frame(header, body)|
    ensures TryParse(codec, Frame(header, body)[..n], max)
         == if FirstLineLength(header) < n < |header| + 4 then
              match FirstLineMessage(codec, max, header)
              case Err(e) => Err(e)
              case Ok(response) => Ok(Some((response, FirstLineLength(header) + 1)))
            else Ok(None)
  {
    var h := |header|;
    var buf := Frame(header, body)[..n];
    if n >= h + 4 {
      assert Top(header) == buf[..h + 4];
      HeaderEndAt(header, buf);
      assert buf[..h] == header;
    } else {
      HeaderPrefix(header, buf);
      var p := FirstLineLength(header);
      if p < n {
        assert buf[..p] == Top(header)[..p];
      }
    }
  }

  lemma HeaderPrefix(header: Bytes, buf: Bytes)
    requires NoHeaderEnd(header + [CR, LF, CR]) && |buf| < |header| + 4 && buf == Top(header)[..|buf|]
    ensures NoHeaderEnd(buf)
    ensures IndexOf(buf, LF) == if FirstLineLength(header) < |buf| then FirstLineLength(header) else |buf|
  {
    NoEarlierEnd(header, buf, |buf|);
    forall i: nat
      ensures !HeaderEndsAt(buf, i)
    {
    }
    var p := FirstLineLength(header);
    assert forall k :: 0 <= k < |buf| ==> buf[k] == Top(header)[k];
    assert p < |buf| ==> buf[p] == LF;
  }

  /** Some read ends when the buffer holds more than `low` and less than `high` bytes. */
  predicate CutsBetween(buf: Bytes, incoming: seq<Bytes>, low: nat, high: nat)
    decreases |incoming|
  {
    low < |buf| < high || (incoming != [] && CutsBetween(buf + incoming[0], incoming[1..], low, high))
  }

  lemma {:induction false} CutsAreAhead(buf: Bytes, incoming: seq<Bytes>, low: nat, high: nat)
    requires high <= |buf|
    ensures !CutsBetween(buf, incoming, low, high)
    decreases |incoming|
  {
    if incoming != [] {
      CutsAreAhead(buf + incoming[0], incoming[1..], low, high);
    }
  }

  /** A framed message is received if and only if no read ends between the end of the first line
      of its header and the end of the blank line; otherwise that line is taken for the message. */
  lemma {:induction false} FrameIsReceivedIff(codec: Codec, max: nat, header: Bytes, body: Bytes, rest: Bytes,
                                              buf: Bytes, incoming: seq<Bytes>)
    requires GoodFrame(codec, max, header, body)
    requires |header| + 4 + READ_SIZE <= max && GoodReads(incoming)
    requires buf + Flatten(incoming) == Frame(header, body) + rest
    ensures Receive(codec, max, buf, incoming).outcome
         == if CutsBetween(buf, incoming, FirstLineLength(header), |header| + 4) then
              Message(FirstLineMessage(codec, max, header))
            else Got(codec.json(body).value)
    decreases |incoming|
  {
    var frame := Frame(header, body);
    var all := frame + rest;
    assert buf == all[..|buf|];
    if |buf| >= |frame| {
      assert buf == frame + all[|frame|..|buf|];
      FrameRoundTrip(codec, max, header, body, all[|frame|..|buf|]);
      CutsAreAhead(buf, incoming, FirstLineLength(header), |header| + 4);
    } else {
      assert buf == frame[..|buf|];
      FramePrefix(codec, max, header, body, |buf|);
      if !(FirstLineLength(header) < |buf| < |header| + 4) {
        assert incoming != [];
        assert buf + incoming[0] + Flatten(incoming[1..]) == all;
        FrameIsReceivedIff(codec, max, header, body, rest, buf + incoming[0], incoming[1..]);
      }
    }
  }

  // ---- the header text ----

  lemma {:induction false} DecimalValue(n: nat)
    ensures DigitsValue(Decimal(n)) == n
  {
    var s := Decimal(n);
    if n >= 10 {
      DecimalValue(n / 10);
      assert s[..|s| - 1] == Decimal(n / 10);
    }
    assert s[|s| - 1] == '0' + (n % 10) as char;
  }

  lemma LowerField()
    ensures Lower("Content-Length:") == LENGTH_FIELD
  {
    var field := "Content-Length:";
    forall i | 0 <= i < |field|
      ensures LowerChar(field[i]) == LENGTH_FIELD[i]
    {
    }
  }

  lemma LowerDigits(digits: string)
    requires AllDigits(digits)
    ensures Lower(" " + digits) == " " + digits
  {
  }

  lemma LowerConcat(s: string, t: string)
    ensures Lower(s + t) == Lower(s) + Lower(t)
  {
  }

  lemma TrimStartSpaced(digits: string)
    requires digits != "" && AllDigits(digits)
    ensures TrimStart(" " + digits) == digits
  {
    var t := " " + digits;
    assert t[1..] == digits;
  }

  lemma TrimSpaced(digits: string)
    requires digits != "" && AllDigits(digits)
    ensures Trim(" " + digits) == digits
  {
    TrimStartSpaced(digits);
  }

  lemma OneLine(line: string)
    requires line != "" && forall i :: 0 <= i < |line| ==> line[i] != '\n'
    ensures Lines(line) == [line]
  {
  }

  lemma LengthLine(digits: string)
    requires digits != "" && AllDigits(digits)
    ensures LineLength("Content-Length:" + (" " + digits)) == ParseUsize(digits)
  {
    var value := " " + digits;
    LowerConcat("Content-Length:", value);
    LowerField();
    LowerDigits(digits);
    var lower := LENGTH_FIELD + value;
    assert lower[|LENGTH_FIELD|..] == value;
    TrimSpaced(digits);
  }

  lemma LengthHeader(line: string)
    requires line != "" && forall i :: 0 <= i < |line| ==> line[i] != '\n'
    ensures ParseContentLength(line) == LineLength(line)
  {
    OneLine(line);
    var lines := [line];
    assert Lines(line) == lines && lines[1..] == [] && FirstLength(lines[1..]) == None;
    assert FirstLength(lines) == LineLength(lines[0]);
  }

  /** The header line a framing server prints announces exactly its number. */
  lemma ContentLengthLine(n: nat)
    requires n < USIZE_LIMIT
    ensures ParseContentLength("Content-Length:" + (" " + Decimal(n))) == Some(n)
  {
    LengthHeader("Content-Length:" + (" " + Decimal(n)));
    LengthLine(Decimal(n));
    DecimalValue(n);
  }
}
