/** Collecting candidate records from the free text an optimizer printed: JSON values are
    found line by line and by scanning, records are searched in them, and an object may
    carry further text of the same kind. */
module RecordExtraction {
  import opened Results
  import opened Text
  import opened JsonValues

  const MAX_RECORDS: nat := 64
  const MAX_DEPTH: nat := 6

  datatype Record = Record(runId: string, surface: string, source: string, candidate: Json, details: string)

  /** The library code called: `json.loads`, `raw_decode`, the record normaliser, and the
      `json.dumps` text two records are compared by. */
  datatype Library = Library(
    loads: string -> Option<Json>,
    rawDecode: string -> Option<(Json, nat)>,
    normalize: (Json, string) -> Option<Record>,
    key: Record -> string)

  /** All strings in the value are shorter than `n`. */
  ghost predicate StringsBelow(v: Json, n: nat) {
    match v
    case JString(s) => |s| < n
    case JArray(items) => forall i :: 0 <= i < |items| ==> StringsBelow(items[i], n)
    case JObject(fields) => forall i :: 0 <= i < |fields| ==> StringsBelow(fields[i].1, n)
    case _ => true
  }

  /** A decoded string is shorter than its text, which has the quotes around it (section 7 of
      RFC 8259), and no more is decoded than is there. */
  ghost predicate Sound(lib: Library) {
    && (forall t :: lib.loads(t).Some? ==> StringsBelow(lib.loads(t).value, |t|))
    && (forall t :: lib.rawDecode(t).Some? ==>
          StringsBelow(lib.rawDecode(t).value.0, |t|) && lib.rawDecode(t).value.1 <= |t|)
  }

  lemma {:induction false} StringsBelowMore(v: Json, n: nat, m: nat)
    requires StringsBelow(v, n) && n <= m
    ensures StringsBelow(v, m)
  {
    match v {
      case JArray(items) =>
        forall i | 0 <= i < |items|
          ensures StringsBelow(items[i], m)
        {
          StringsBelowMore(items[i], n, m);
        }
      case JObject(fields) =>
        forall i | 0 <= i < |fields|
          ensures StringsBelow(fields[i].1, m)
        {
          StringsBelowMore(fields[i].1, n, m);
        }
      case _ =>
    }
  }

  ghost predicate AllBelow(values: seq<Json>, n: nat) {
    forall i :: 0 <= i < |values| ==> StringsBelow(values[i], n)
  }

  // ---- text ----

  predicate IsPySpace(c: char) { IsWhitespace(c) || 0x1C <= c as int <= 0x1F }

  /** `str.strip` */
  function Strip(s: string): (t: string)
    ensures |t| <= |s|
  {
    if s != "" && IsPySpace(s[0]) then Strip(s[1..])
    else if s != "" && IsPySpace(s[|s| - 1]) then Strip(s[..|s| - 1])
    else s
  }

  predicate IsLineEnd(c: char) {
    var n := c as int;
    0x0A <= n <= 0x0D || 0x1C <= n <= 0x1E || n == 0x85 || n == 0x2028 || n == 0x2029
  }

  function LineLength(s: string): (n: nat)
    ensures n <= |s|
  {
    if s == "" || IsLineEnd(s[0]) then 0 else 1 + LineLength(s[1..])
  }

  /** `str.splitlines` */
  function SplitLines(s: string): (lines: seq<string>)
    ensures forall i :: 0 <= i < |lines| ==> |lines[i]| <= |s|
    decreases |s|
  {
    var n := LineLength(s);
    if s == "" then []
    else if n == |s| then [s]
    else
      var end := if s[n] == '\r' && n + 1 < |s| && s[n + 1] == '\n' then n + 2 else n + 1;
      [s[..n]] + SplitLines(s[end..])
  }

  predicate Opens(c: char) { c == '{' || c == '[' }

  function LineValue(lib: Library, line: string): Option<Json> {
    var s := Strip(line);
    if s == "" || !Opens(s[0]) then None else lib.loads(s)
  }

  /** The values of the lines that are JSON objects or arrays. */
  function LineValues(lib: Library, lines: seq<string>): seq<Json> {
    if lines == [] then []
    else
      (match LineValue(lib, lines[0]) case Some(v) => [v] case None => []) + LineValues(lib, lines[1..])
  }

  function FirstOpen(raw: string, idx: nat): (start: nat)
    requires idx <= |raw|
    ensures idx <= start <= |raw|
    ensures start < |raw| ==> Opens(raw[start])
    ensures forall k :: idx <= k < start ==> !Opens(raw[k])
    decreases |raw| - idx
  {
    if idx == |raw| || Opens(raw[idx]) then idx else FirstOpen(raw, idx + 1)
  }

  function Max(a: nat, b: nat): nat { if a >= b then a else b }

  /** What the scan finds from index `idx` on, and where it goes on. */
  function NextValue(lib: Library, raw: string, idx: nat): (found: (Option<Json>, nat))
    requires idx < |raw|
    ensures idx < found.1
  {
    var start := FirstOpen(raw, idx);
    if start == |raw| then (None, |raw|)
    else
      match lib.rawDecode(raw[start..])
      case None => (None, start + 1)
      case Some((value, end)) => (Some(value), start + Max(end, 1))
  }

  /** The values `_iter_json_values` yields from index `idx` on. */
  function ScanValues(lib: Library, raw: string, idx: nat): seq<Json>
    decreases |raw| - idx
  {
    if idx >= |raw| then []
    else
      var (value, next) := NextValue(lib, raw, idx);
      (if value.Some? then [value.value] else []) + ScanValues(lib, raw, next)
  }

  method IterJsonValues(lib: Library, raw: string) returns (values: seq<Json>)
    ensures values == ScanValues(lib, raw, 0)
  {
    values := [];
    var idx := 0;
    while idx < |raw|
      invariant values + ScanValues(lib, raw, idx) == ScanValues(lib, raw, 0)
      decreases |raw| - idx
    {
      var value, next := ScanOnce(lib, raw, idx);
      if value.Some? {
        AppendOne(values, value.value, ScanValues(lib, raw, next));
        values := values + [value.value];
      }
      idx := next;
    }
  }

  /** One round of the loop. */
  method ScanOnce(lib: Library, raw: string, idx: nat) returns (value: Option<Json>, next: nat)
    requires idx < |raw|
    ensures idx < next
    ensures ScanValues(lib, raw, idx)
         == (if value.Some? then [value.value] else []) + ScanValues(lib, raw, next)
    ensures value.None? ==> ScanValues(lib, raw, idx) == ScanValues(lib, raw, next)
  {
    var start := FirstOpen(raw, idx);
    if start == |raw| {
      return None, |raw|;
    }
    match lib.rawDecode(raw[start..]) {
      case None => value, next := None, start + 1;
      case Some((found, end)) => value, next := Some(found), start + Max(end, 1);
    }
  }

  lemma AppendOne(values: seq<Json>, value: Json, rest: seq<Json>)
    ensures (values + [value]) + rest == values + ([value] + rest)
  {
  }

  function AllValues(lib: Library, raw: string): seq<Json> {
    LineValues(lib, SplitLines(raw)) + ScanValues(lib, raw, 0)
  }

  lemma {:induction false} LineValuesBelow(lib: Library, lines: seq<string>, n: nat)
    requires Sound(lib) && forall i :: 0 <= i < |lines| ==> |lines[i]| <= n
    ensures AllBelow(LineValues(lib, lines), n)
  {
    if lines != [] {
      LineValuesBelow(lib, lines[1..], n);
      var v := LineValue(lib, lines[0]);
      if v.Some? {
        StringsBelowMore(v.value, |Strip(lines[0])|, n);
      }
    }
  }

  lemma {:induction false} ScanValuesBelow(lib: Library, raw: string, idx: nat)
    requires Sound(lib)
    ensures AllBelow(ScanValues(lib, raw, idx), |raw|)
    decreases |raw| - idx
  {
    if idx < |raw| {
      var (value, next) := NextValue(lib, raw, idx);
      ScanValuesBelow(lib, raw, next);
      if value.Some? {
        NextValueBelow(lib, raw, idx);
      }
    }
  }

  lemma NextValueBelow(lib: Library, raw: string, idx: nat)
    requires Sound(lib) && idx < |raw| && NextValue(lib, raw, idx).0.Some?
    ensures StringsBelow(NextValue(lib, raw, idx).0.value, |raw|)
  {
    var start := FirstOpen(raw, idx);
    StringsBelowMore(NextValue(lib, raw, idx).0.value, |raw[start..]|, |raw|);
  }

  lemma AllValuesBelow(lib: Library, raw: string)
    requires Sound(lib)
    ensures AllBelow(AllValues(lib, raw), |raw|)
  {
    LineValuesBelow(lib, SplitLines(raw), |raw|);
    ScanValuesBelow(lib, raw, 0);
  }

  // ---- capped, order-preserving removal of duplicates ----

  function Keys(lib: Library, records: seq<Record>): set<string> {
    set i | 0 <= i < |records| :: lib.key(records[i])
  }

  function Take(records: seq<Record>): seq<Record> {
    if |records| <= MAX_RECORDS then records else records[..MAX_RECORDS]
  }

  /** Each record is added unless one with its key is already there; no cap. */
  function DedupOnto(lib: Library, target: seq<Record>, records: seq<Record>): (all: seq<Record>)
    ensures target <= all
    decreases |records|
  {
    if records == [] then target
    else if lib.key(records[0]) in Keys(lib, target) then DedupOnto(lib, target, records[1..])
    else DedupOnto(lib, target + [records[0]], records[1..])
  }

  /** `_append_unique_records`, which stops as soon as the cap is reached. */
  method AppendUniqueRecords(lib: Library, original: seq<Record>, records: seq<Record>) returns (target: seq<Record>)
    requires |original| < MAX_RECORDS
    ensures target == Take(DedupOnto(lib, original, records))
  {
    target := original;
    var seen := Keys(lib, target);
    for i := 0 to |records|
      invariant |target| < MAX_RECORDS && seen == Keys(lib, target)
      invariant DedupOnto(lib, target, records[i..]) == DedupOnto(lib, original, records)
    {
      var record := records[i];
      var key := lib.key(record);
      assert records[i..][0] == record && records[i..][1..] == records[i + 1..];
      if key !in seen {
        KeysAppend(lib, target, record);
        target := target + [record];
        seen := seen + {key};
        if |target| >= MAX_RECORDS {
          return;
        }
      }
    }
  }

  lemma KeysAppend(lib: Library, target: seq<Record>, record: Record)
    ensures Keys(lib, target + [record]) == Keys(lib, target) + {lib.key(record)}
  {
    var more := target + [record];
    assert more[|target|] == record;
    assert forall i :: 0 <= i < |target| ==> more[i] == target[i];
  }

  lemma {:induction false} DedupConcat(lib: Library, target: seq<Record>, one: seq<Record>, two: seq<Record>)
    ensures DedupOnto(lib, target, one + two) == DedupOnto(lib, DedupOnto(lib, target, one), two)
    decreases |one|
  {
    if one == [] {
      assert one + two == two;
    } else {
      assert (one + two)[1..] == one[1..] + two;
      DedupConcat(lib, if lib.key(one[0]) in Keys(lib, target) then target else target + [one[0]], one[1..], two);
    }
  }

  /** Adding in portions and stopping at the cap gives the first records of the whole. */
  lemma CapIsPrefix(lib: Library, target: seq<Record>, one: seq<Record>, two: seq<Record>)
    ensures |Take(DedupOnto(lib, target, one))| >= MAX_RECORDS ==>
              Take(DedupOnto(lib, target, one + two)) == Take(DedupOnto(lib, target, one))
    ensures |Take(DedupOnto(lib, target, one))| < MAX_RECORDS ==>
              DedupOnto(lib, target, one + two) == DedupOnto(lib, Take(DedupOnto(lib, target, one)), two)
  {
    DedupConcat(lib, target, one, two);
  }

  /** No two records share a key. */
  ghost predicate DistinctKeys(lib: Library, records: seq<Record>) {
    forall i, j :: 0 <= i < j < |records| ==> lib.key(records[i]) != lib.key(records[j])
  }

  /** Removing duplicates leaves distinct keys. */
  lemma {:induction false} DedupIsDistinct(lib: Library, target: seq<Record>, records: seq<Record>)
    requires DistinctKeys(lib, target)
    ensures DistinctKeys(lib, DedupOnto(lib, target, records))
    decreases |records|
  {
    if records != [] {
      if lib.key(records[0]) in Keys(lib, target) {
        DedupIsDistinct(lib, target, records[1..]);
      } else {
        DedupIsDistinct(lib, target + [records[0]], records[1..]);
      }
    }
  }

  /** Removing duplicates loses no key. */
  lemma {:induction false} DedupKeepsKeys(lib: Library, target: seq<Record>, records: seq<Record>)
    ensures Keys(lib, DedupOnto(lib, target, records)) == Keys(lib, target) + Keys(lib, records)
    decreases |records|
  {
    if records != [] {
      KeysCons(lib, records);
      if lib.key(records[0]) in Keys(lib, target) {
        DedupKeepsKeys(lib, target, records[1..]);
      } else {
        DedupKeepsKeys(lib, target + [records[0]], records[1..]);
        KeysAppend(lib, target, records[0]);
      }
    }
  }

  /** Record `p` is the first with its key, and no record of the target has it. */
  ghost predicate IsNew(lib: Library, target: seq<Record>, records: seq<Record>, p: nat)
    requires p < |records|
  {
    && lib.key(records[p]) !in Keys(lib, target)
    && forall i :: 0 <= i < p ==> lib.key(records[i]) != lib.key(records[p])
  }

  /** The positions of the records that are added. */
  ghost function NewPositions(lib: Library, target: seq<Record>, records: seq<Record>, from: nat): seq<nat>
    requires from <= |records|
    decreases |records| - from
  {
    if from == |records| then []
    else (if IsNew(lib, target, records, from) then [from] else []) + NewPositions(lib, target, records, from + 1)
  }

  function Pick(records: seq<Record>, at: seq<nat>): seq<Record>
    requires forall x :: 0 <= x < |at| ==> at[x] < |records|
  {
    seq(|at|, x requires 0 <= x < |at| => records[at[x]])
  }

  lemma {:induction false} NewPositionsAre(lib: Library, target: seq<Record>, records: seq<Record>, from: nat)
    requires from <= |records|
    ensures forall x :: 0 <= x < |NewPositions(lib, target, records, from)| ==>
              from <= NewPositions(lib, target, records, from)[x] < |records|
    ensures forall x, y :: 0 <= x < y < |NewPositions(lib, target, records, from)| ==>
              NewPositions(lib, target, records, from)[x] < NewPositions(lib, target, records, from)[y]
    ensures forall p :: from <= p < |records| ==>
              (p in NewPositions(lib, target, records, from) <==> IsNew(lib, target, records, p))
    decreases |records| - from
  {
    if from < |records| {
      NewPositionsAre(lib, target, records, from + 1);
    }
  }

  /** The records added are exactly those at the positions that hold a key for the first time,
      in their order. */
  lemma {:induction false} DedupMeaning(lib: Library, target: seq<Record>, records: seq<Record>, from: nat,
                                        now: seq<Record>)
    requires from <= |records|
    requires Keys(lib, now) == Keys(lib, target) + Keys(lib, records[..from])
    ensures forall x :: 0 <= x < |NewPositions(lib, target, records, from)| ==>
              NewPositions(lib, target, records, from)[x] < |records|
    ensures DedupOnto(lib, now, records[from..]) == now + Pick(records, NewPositions(lib, target, records, from))
    decreases |records| - from
  {
    NewPositionsAre(lib, target, records, from);
    if from < |records| {
      var later := NewPositions(lib, target, records, from + 1);
      NewPositionsAre(lib, target, records, from + 1);
      DedupStep(lib, target, records, from, now);
      if IsNew(lib, target, records, from) {
        DedupMeaning(lib, target, records, from + 1, now + [records[from]]);
        PickFirst(records, from, later, now);
      } else {
        DedupMeaning(lib, target, records, from + 1, now);
      }
    }
  }

  lemma PickFirst(records: seq<Record>, first: nat, later: seq<nat>, now: seq<Record>)
    requires first < |records| && forall x :: 0 <= x < |later| ==> later[x] < |records|
    ensures forall x :: 0 <= x < |[first] + later| ==> ([first] + later)[x] < |records|
    ensures (now + [records[first]]) + Pick(records, later) == now + Pick(records, [first] + later)
  {
  }

  /** A record is added exactly when it is new, and the keys seen stay in step. */
  lemma DedupStep(lib: Library, target: seq<Record>, records: seq<Record>, from: nat, now: seq<Record>)
    requires from < |records|
    requires Keys(lib, now) == Keys(lib, target) + Keys(lib, records[..from])
    ensures var next := if IsNew(lib, target, records, from) then now + [records[from]] else now;
            && DedupOnto(lib, now, records[from..]) == DedupOnto(lib, next, records[from + 1..])
            && Keys(lib, next) == Keys(lib, target) + Keys(lib, records[..from + 1])
  {
    assert records[from..][0] == records[from] && records[from..][1..] == records[from + 1..];
    PrefixKeys(lib, records, from);
    KeysAppend(lib, now, records[from]);
  }

  lemma PrefixKeys(lib: Library, records: seq<Record>, from: nat)
    requires from < |records|
    ensures Keys(lib, records[..from + 1]) == Keys(lib, records[..from]) + {lib.key(records[from])}
    ensures lib.key(records[from]) in Keys(lib, records[..from]) <==>
            exists i :: 0 <= i < from && lib.key(records[i]) == lib.key(records[from])
  {
    assert records[..from + 1] == records[..from] + [records[from]];
    KeysAppend(lib, records[..from], records[from]);
    var key := lib.key(records[from]);
    if i :| 0 <= i < from && lib.key(records[i]) == key {
      assert records[..from][i] == records[i];
    }
    if key in Keys(lib, records[..from]) {
      var i :| 0 <= i < from && lib.key(records[..from][i]) == key;
      assert records[..from][i] == records[i];
    }
  }

  lemma KeysCons(lib: Library, records: seq<Record>)
    requires records != []
    ensures Keys(lib, records) == {lib.key(records[0])} + Keys(lib, records[1..])
  {
    assert forall i :: 1 <= i < |records| ==> records[i] == records[1..][i - 1];
    assert forall i :: 0 <= i < |records| - 1 ==> records[1..][i] == records[i + 1];
  }

  // ---- the mutual recursion ----

  function FindField(fields: seq<(string, Json)>, name: string): Option<Json> {
    if fields == [] then None
    else if fields[0].0 == name then Some(fields[0].1)
    else FindField(fields[1..], name)
  }

  const JSONL_FIELD := "candidate_jsonl"

  lemma {:induction false} FieldBelow(fields: seq<(string, Json)>, name: string, n: nat)
    requires forall i :: 0 <= i < |fields| ==> StringsBelow(fields[i].1, n)
    ensures FindField(fields, name).Some? ==> StringsBelow(FindField(fields, name).value, n)
  {
    if fields != [] && fields[0].0 != name {
      FieldBelow(fields[1..], name, n);
    }
  }

  /** The first records, without duplicates, of all records of all values in the text. The
      text shrinks from a text to the texts in its values, and within one text the value
      shrinks; the depth counter plays no part. */
  function RecordsOfText(lib: Library, raw: string, runId: string): seq<Record>
    requires Sound(lib)
    decreases |raw|, 5
  {
    var text := Strip(raw);
    AllValuesBelow(lib, text);
    FirstOf(lib, [], AllValues(lib, text), runId, |text|)
  }

  /** What a text yields when `values` are still to be searched and `normalized` was found. */
  function FirstOf(lib: Library, normalized: seq<Record>, values: seq<Json>, runId: string, n: nat): seq<Record>
    requires Sound(lib) && AllBelow(values, n)
    decreases n, 4
  {
    Take(DedupOnto(lib, normalized, RecordsOfValues(lib, values, runId, n)))
  }

  function RecordsOfValues(lib: Library, values: seq<Json>, runId: string, n: nat): seq<Record>
    requires Sound(lib) && AllBelow(values, n)
    decreases n, 3, |values|
  {
    if values == [] then []
    else RecordsOfValue(lib, values[0], runId, 0, n) + RecordsOfValues(lib, values[1..], runId, n)
  }

  function RecordsOfValue(lib: Library, value: Json, runId: string, depth: nat, n: nat): seq<Record>
    requires Sound(lib) && StringsBelow(value, n)
    decreases n, 2, value, 1, 0
  {
    if depth > MAX_DEPTH then []
    else
      match value
      case JObject(fields) =>
        (match lib.normalize(value, runId)
         case Some(record) => [record]
         case None =>
           FieldBelow(fields, JSONL_FIELD, n);
           var jsonl := FindField(fields, JSONL_FIELD);
           (if jsonl.Some? && jsonl.value.JString? then RecordsOfText(lib, jsonl.value.s, runId) else [])
           + RecordsOfFields(lib, value, 0, runId, depth, n))
      case JArray(_) => RecordsOfItems(lib, value, 0, runId, depth, n, [])
      case _ => []
  }

  /** The records in the fields from the `k`-th on. */
  function RecordsOfFields(lib: Library, value: Json, k: nat, runId: string, depth: nat, n: nat): seq<Record>
    requires Sound(lib) && StringsBelow(value, n)
    requires value.JObject? && k <= |value.fields|
    decreases n, 2, value, 0, |value.fields| - k
  {
    if k == |value.fields| then []
    else
      var nested := value.fields[k].1;
      var rest := RecordsOfFields(lib, value, k + 1, runId, depth, n);
      if nested.JObject? || nested.JArray? then RecordsOfValue(lib, nested, runId, depth + 1, n) + rest else rest
  }

  lemma JoinRecords(one: seq<Record>, two: seq<Record>, three: seq<Record>)
    ensures one + (two + three) == (one + two) + three
  {
  }

  /** The items from the `k`-th on are searched until there are enough records. */
  function RecordsOfItems(lib: Library, value: Json, k: nat, runId: string, depth: nat, n: nat,
                          found: seq<Record>): seq<Record>
    requires Sound(lib) && StringsBelow(value, n)
    requires value.JArray? && k <= |value.items|
    decreases n, 2, value, 0, |value.items| - k
  {
    if k == |value.items| then found
    else
      var more := found + RecordsOfValue(lib, value.items[k], runId, depth + 1, n);
      if |more| >= MAX_RECORDS then more else RecordsOfItems(lib, value, k + 1, runId, depth, n, more)
  }

  /** `_candidate_records_from_value` */
  method CandidateRecordsFromValue(lib: Library, value: Json, runId: string, depth: nat, ghost n: nat)
      returns (records: seq<Record>)
    requires Sound(lib) && StringsBelow(value, n)
    ensures records == RecordsOfValue(lib, value, runId, depth, n)
    decreases n, 2, value, 1
  {
    records := [];
    if depth > MAX_DEPTH {
      return;
    }
    match value {
      case JObject(fields) =>
        match lib.normalize(value, runId) {
          case Some(record) => return [record];
          case None =>
            FieldBelow(fields, JSONL_FIELD, n);
            var jsonl := FindField(fields, JSONL_FIELD);
            if jsonl.Some? && jsonl.value.JString? {
              records := RecordsFromText(lib, jsonl.value.s, runId);
            }
            records := ExtendFromFields(lib, value, runId, depth, n, records);
        }
      case JArray(items) =>
        records := RecordsFromItems(lib, value, runId, depth, n);
      case _ =>
    }
  }

  /** The loop over `value.values()`. */
  method ExtendFromFields(lib: Library, value: Json, runId: string, depth: nat, ghost n: nat, original: seq<Record>)
      returns (records: seq<Record>)
    requires Sound(lib) && StringsBelow(value, n) && value.JObject?
    ensures records == original + RecordsOfFields(lib, value, 0, runId, depth, n)
    decreases n, 2, value, 0
  {
    records := original;
    for k := 0 to |value.fields|
      invariant records + RecordsOfFields(lib, value, k, runId, depth, n)
             == original + RecordsOfFields(lib, value, 0, runId, depth, n)
    {
      var nested := value.fields[k].1;
      if nested.JObject? || nested.JArray? {
        var more := CandidateRecordsFromValue(lib, nested, runId, depth + 1, n);
        ghost var rest := RecordsOfFields(lib, value, k + 1, runId, depth, n);
        JoinRecords(records, more, rest);
        records := records + more;
      }
    }
  }

  /** The loop over the items of a list, which breaks off when there are enough records. */
  method RecordsFromItems(lib: Library, value: Json, runId: string, depth: nat, ghost n: nat)
      returns (records: seq<Record>)
    requires Sound(lib) && StringsBelow(value, n) && value.JArray?
    ensures records == RecordsOfItems(lib, value, 0, runId, depth, n, [])
    decreases n, 2, value, 0
  {
    records := [];
    for k := 0 to |value.items|
      invariant RecordsOfItems(lib, value, k, runId, depth, n, records)
             == RecordsOfItems(lib, value, 0, runId, depth, n, [])
    {
      var more := CandidateRecordsFromValue(lib, value.items[k], runId, depth + 1, n);
      records := records + more;
      if |records| >= MAX_RECORDS {
        break;
      }
    }
  }

  /** One round of either loop: search a value, add its records, stop at the cap. */
  method AppendRecordsOf(lib: Library, original: seq<Record>, value: Json, runId: string, ghost n: nat,
                         ghost rest: seq<Json>)
      returns (normalized: seq<Record>)
    requires Sound(lib) && StringsBelow(value, n) && AllBelow(rest, n) && AllBelow([value] + rest, n)
    requires |original| < MAX_RECORDS
    ensures |normalized| >= MAX_RECORDS ==> normalized == FirstOf(lib, original, [value] + rest, runId, n)
    ensures |normalized| < MAX_RECORDS ==>
              FirstOf(lib, normalized, rest, runId, n) == FirstOf(lib, original, [value] + rest, runId, n)
    decreases n, 3, 0
  {
    var records := CandidateRecordsFromValue(lib, value, runId, 0, n);
    ghost var later := RecordsOfValues(lib, rest, runId, n);
    assert RecordsOfValues(lib, [value] + rest, runId, n) == records + later by {
      assert ([value] + rest)[0] == value && ([value] + rest)[1..] == rest;
    }
    CapIsPrefix(lib, original, records, later);
    normalized := AppendUniqueRecords(lib, original, records);
  }

  /** One round of the loop over the lines: `rest` are the values behind the line. */
  method AppendLine(lib: Library, original: seq<Record>, line: string, runId: string, ghost n: nat,
                    ghost rest: seq<Json>)
      returns (normalized: seq<Record>)
    requires Sound(lib) && AllBelow(rest, n) && |original| < MAX_RECORDS
    requires LineValue(lib, line).Some? ==>
               StringsBelow(LineValue(lib, line).value, n) && AllBelow([LineValue(lib, line).value] + rest, n)
    ensures var v := LineValue(lib, line);
            var values := if v.Some? then [v.value] + rest else rest;
            if |normalized| >= MAX_RECORDS then normalized == FirstOf(lib, original, values, runId, n)
            else FirstOf(lib, normalized, rest, runId, n) == FirstOf(lib, original, values, runId, n)
    decreases n, 3, 1
  {
    normalized := original;
    var text := Strip(line);
    if text != "" && Opens(text[0]) {
      var value := lib.loads(text);
      if value.Some? {
        normalized := AppendRecordsOf(lib, normalized, value.value, runId, n, rest);
      }
    }
  }

  /** The loop over the lines. */
  method RecordsFromLines(lib: Library, lines: seq<string>, runId: string, ghost n: nat, ghost scanned: seq<Json>)
      returns (normalized: seq<Record>)
    requires Sound(lib) && AllBelow(scanned, n) && forall i :: 0 <= i < |lines| ==> |lines[i]| <= n
    requires AllBelow(LineValues(lib, lines) + scanned, n)
    ensures |normalized| >= MAX_RECORDS ==>
              normalized == FirstOf(lib, [], LineValues(lib, lines) + scanned, runId, n)
    ensures |normalized| < MAX_RECORDS ==>
              FirstOf(lib, normalized, scanned, runId, n)
              == FirstOf(lib, [], LineValues(lib, lines) + scanned, runId, n)
    decreases n, 4
  {
    normalized := [];
    ghost var whole := FirstOf(lib, [], LineValues(lib, lines) + scanned, runId, n);
    for i := 0 to |lines|
      invariant |normalized| < MAX_RECORDS
      invariant AllBelow(LineValues(lib, lines[i..]) + scanned, n)
      invariant FirstOf(lib, normalized, LineValues(lib, lines[i..]) + scanned, runId, n) == whole
    {
      LinesStep(lib, lines, i, n, scanned);
      normalized := AppendLine(lib, normalized, lines[i], runId, n, LineValues(lib, lines[i + 1..]) + scanned);
      if |normalized| >= MAX_RECORDS {
        return;
      }
    }
    assert lines[|lines|..] == [] && LineValues(lib, []) + scanned == scanned;
  }

  lemma LinesStep(lib: Library, lines: seq<string>, i: nat, n: nat, scanned: seq<Json>)
    requires Sound(lib) && AllBelow(scanned, n) && i < |lines|
    requires forall i :: 0 <= i < |lines| ==> |lines[i]| <= n
    ensures AllBelow(LineValues(lib, lines[i + 1..]) + scanned, n)
    ensures var v := LineValue(lib, lines[i]);
            if v.None? then LineValues(lib, lines[i..]) + scanned == LineValues(lib, lines[i + 1..]) + scanned
            else
              && StringsBelow(v.value, n)
              && LineValues(lib, lines[i..]) + scanned == [v.value] + (LineValues(lib, lines[i + 1..]) + scanned)
  {
    LineValuesBelow(lib, lines[i + 1..], n);
    AllBelowConcat(LineValues(lib, lines[i + 1..]), scanned, n);
    LineValuesStep(lib, lines, i, scanned);
    if LineValue(lib, lines[i]).Some? {
      LineValueBelow(lib, lines[i], n);
    }
  }

  lemma AllBelowConcat(one: seq<Json>, two: seq<Json>, n: nat)
    requires AllBelow(one, n) && AllBelow(two, n)
    ensures AllBelow(one + two, n)
  {
  }

  lemma LineValueBelow(lib: Library, line: string, n: nat)
    requires Sound(lib) && |line| <= n && LineValue(lib, line).Some?
    ensures StringsBelow(LineValue(lib, line).value, n)
  {
    StringsBelowMore(LineValue(lib, line).value, |Strip(line)|, n);
  }

  lemma LineValuesStep(lib: Library, lines: seq<string>, i: nat, scanned: seq<Json>)
    requires i < |lines|
    ensures var v := LineValue(lib, lines[i]);
            var rest := LineValues(lib, lines[i + 1..]) + scanned;
            LineValues(lib, lines[i..]) + scanned == if v.Some? then [v.value] + rest else rest
  {
    assert lines[i..][0] == lines[i] && lines[i..][1..] == lines[i + 1..];
    var rest := LineValues(lib, lines[i + 1..]);
    var v := LineValue(lib, lines[i]);
    if v.Some? {
      assert ([v.value] + rest) + scanned == [v.value] + (rest + scanned);
    } else {
      assert [] + rest == rest;
    }
  }

  lemma SliceStep(values: seq<Json>, i: nat, n: nat)
    requires AllBelow(values, n) && i < |values|
    ensures values[i..] == [values[i]] + values[i + 1..]
    ensures StringsBelow(values[i], n) && AllBelow(values[i + 1..], n) && AllBelow([values[i]] + values[i + 1..], n)
  {
  }

  /** The loop over the scanned values. */
  method RecordsFromScan(lib: Library, original: seq<Record>, values: seq<Json>, runId: string, ghost n: nat)
      returns (normalized: seq<Record>)
    requires Sound(lib) && AllBelow(values, n) && |original| < MAX_RECORDS
    ensures normalized == FirstOf(lib, original, values, runId, n)
    decreases n, 4
  {
    normalized := original;
    for i := 0 to |values|
      invariant |normalized| < MAX_RECORDS
      invariant AllBelow(values[i..], n)
      invariant FirstOf(lib, normalized, values[i..], runId, n) == FirstOf(lib, original, values, runId, n)
    {
      SliceStep(values, i, n);
      normalized := AppendRecordsOf(lib, normalized, values[i], runId, n, values[i + 1..]);
      if |normalized| >= MAX_RECORDS {
        return;
      }
    }
  }

  /** `_records_from_text`: with its two early exits it still returns exactly the first records
      without duplicates of the whole. */
  method RecordsFromText(lib: Library, raw: string, runId: string) returns (normalized: seq<Record>)
    requires Sound(lib)
    ensures normalized == RecordsOfText(lib, raw, runId)
    decreases |raw|, 5
  {
    var text := Strip(raw);
    AllValuesBelow(lib, text);
    if text == "" {
      return [];
    }
    ScanValuesBelow(lib, text, 0);
    normalized := RecordsFromLines(lib, SplitLines(text), runId, |text|, ScanValues(lib, text, 0));
    if |normalized| >= MAX_RECORDS {
      return;
    }
    var values := IterJsonValues(lib, text);
    normalized := RecordsFromScan(lib, normalized, values, runId, |text|);
  }

  // ---- consequences ----

  /** The first records without duplicates, whatever the records: at most 64 of them, no two
      with one key, and every key unless 64 others came first. */
  lemma CappedDedup(lib: Library, records: seq<Record>)
    ensures var found := Take(DedupOnto(lib, [], records));
            && DistinctKeys(lib, found)
            && (|found| < MAX_RECORDS ==> Keys(lib, found) == Keys(lib, records))
    ensures var at := NewPositions(lib, [], records, 0);
            && (forall x :: 0 <= x < |at| ==> at[x] < |records|)
            && Take(DedupOnto(lib, [], records)) == Take(Pick(records, at))
  {
    DedupIsDistinct(lib, [], records);
    DedupKeepsKeys(lib, [], records);
    FirstOfEachKey(lib, records);
  }

  lemma FirstOfEachKey(lib: Library, records: seq<Record>)
    ensures var at := NewPositions(lib, [], records, 0);
            && (forall x :: 0 <= x < |at| ==> at[x] < |records|)
            && DedupOnto(lib, [], records) == Pick(records, at)
  {
    assert records[0..] == records && records[..0] == [];
    DedupMeaning(lib, [], records, 0, []);
    var picked := Pick(records, NewPositions(lib, [], records, 0));
    assert [] + picked == picked;
  }

  /** A text yields the first 64 new records of all its values. */
  lemma TextRecords(lib: Library, raw: string, runId: string)
    requires Sound(lib)
    ensures AllBelow(AllValues(lib, Strip(raw)), |Strip(raw)|)
    ensures var found := RecordsOfText(lib, raw, runId);
            var records := RecordsOfValues(lib, AllValues(lib, Strip(raw)), runId, |Strip(raw)|);
            && DistinctKeys(lib, found)
            && (|found| < MAX_RECORDS ==> Keys(lib, found) == Keys(lib, records))
            && var at := NewPositions(lib, [], records, 0);
            && (forall x :: 0 <= x < |at| ==> at[x] < |records|)
            && found == Take(Pick(records, at))
  {
    var text := Strip(raw);
    AllValuesBelow(lib, text);
    CappedDedup(lib, RecordsOfValues(lib, AllValues(lib, text), runId, |text|));
    assert RecordsOfText(lib, raw, runId) == FirstOf(lib, [], AllValues(lib, text), runId, |text|);
  }

  /** The search of an array counts duplicates: once its first items have given enough records,
      distinct or not, nothing behind them is looked at. */
  lemma {:induction false} ArrayStopsEarly(lib: Library, items: seq<Json>, more: seq<Json>, k: nat, runId: string,
                                           depth: nat, n: nat, found: seq<Record>)
    requires Sound(lib) && StringsBelow(JArray(items), n) && StringsBelow(JArray(items + more), n)
    requires |found| < MAX_RECORDS && k <= |items|
    requires |RecordsOfItems(lib, JArray(items), k, runId, depth, n, found)| >= MAX_RECORDS
    ensures RecordsOfItems(lib, JArray(items + more), k, runId, depth, n, found)
         == RecordsOfItems(lib, JArray(items), k, runId, depth, n, found)
    decreases |items| - k
  {
    var next := found + RecordsOfValue(lib, items[k], runId, depth + 1, n);
    assert (items + more)[k] == items[k];
    if |next| < MAX_RECORDS {
      ArrayStopsEarly(lib, items, more, k + 1, runId, depth, n, next);
    }
  }
}
