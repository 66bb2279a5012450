/** The master-password file `master.json`: its text, how it is loaded while another
    process may still be writing it, how it unlocks the encryption key, and the manager
    object that sets, changes and removes it. */
module MasterKey {
  import opened Results
  import opened Text
  import opened Bytes

  const KEY_LEN: nat := 32
  const READ_ATTEMPTS: nat := 20

  datatype Meta = Meta(
    salt: string,
    verificationSalt: string,
    verificationHash: string,
    version: nat,
    bootstrap: bool,
    installManaged: bool)

  datatype Failure = NotConfigured | Corrupt | Empty | BadHex | InvalidPassword | Io

  /** The library code the manager calls: Argon2id, the JSON printer and reader for the
      metadata, and the base64 text made from the keyfile. */
  datatype Library = Library(
    derive: (string, Bytes) -> Bytes,
    render: Meta -> string,
    parse: string -> Option<Meta>,
    bootstrapText: Bytes -> string)

  /** What is used of the library: for one salt, different passwords derive different keys;
      a printed text reads back; and no strict prefix of a printed text reads as metadata.
      The last two hold of JSON, see `JsonIsSound`. */
  ghost predicate Sound(lib: Library) {
    && (forall p, q, salt :: lib.derive(p, salt) == lib.derive(q, salt) ==> p == q)
    && (forall m: Meta :: IsHexMeta(m) ==> lib.parse(lib.render(m)) == Some(m) && !IsBlank(lib.render(m)))
    && (forall m: Meta, n: nat :: IsHexMeta(m) && n < |lib.render(m)| ==> lib.parse(lib.render(m)[..n]) == None)
  }

  // ---- hexadecimal ----

  predicate IsHex(s: string) { forall c :: c in s ==> IsDigit(c) || 'a' <= c <= 'f' }

  predicate IsHexMeta(m: Meta) { IsHex(m.salt) && IsHex(m.verificationSalt) && IsHex(m.verificationHash) }

  function HexDigit(n: nat): (c: char)
    requires n < 16
    ensures Nibble(c) == Some(n) && IsHex([c])
  {
    if n < 10 then '0' + n as char else 'a' + (n - 10) as char
  }

  /** The value of a digit, in either case. */
  function Nibble(c: char): Option<nat> {
    if IsDigit(c) then Some((c as int) - ('0' as int))
    else if 'a' <= c <= 'f' then Some((c as int) - ('a' as int) + 10)
    else if 'A' <= c <= 'F' then Some((c as int) - ('A' as int) + 10)
    else None
  }

  function Hex(bytes: Bytes): (s: string)
    ensures |s| == 2 * |bytes| && IsHex(s)
  {
    if bytes == [] then ""
    else [HexDigit(bytes[0] as int / 16), HexDigit(bytes[0] as int % 16)] + Hex(bytes[1..])
  }

  function Unhex(s: string): Option<Bytes> {
    if s == [] then Some([])
    else if |s| == 1 then None
    else
      match (Nibble(s[0]), Nibble(s[1]), Unhex(s[2..]))
      case (Some(hi), Some(lo), Some(rest)) =>
        assert hi < 16 && lo < 16;
        Some([(16 * hi + lo) as byte] + rest)
      case _ => None
  }

  lemma ByteOfNibbles(b: byte)
    ensures 16 * (b as int / 16) + b as int % 16 == b as int
    ensures Nibble(HexDigit(b as int / 16)) == Some(b as int / 16)
         && Nibble(HexDigit(b as int % 16)) == Some(b as int % 16)
  {
  }

  lemma UnhexStep(s: string, b: byte, rest: string)
    requires s == [HexDigit(b as int / 16), HexDigit(b as int % 16)] + rest && Unhex(rest).Some?
    ensures Unhex(s) == Some([b] + Unhex(rest).value)
  {
    ByteOfNibbles(b);
    assert s[2..] == rest;
  }

  lemma {:induction false} UnhexHex(bytes: Bytes)
    ensures Unhex(Hex(bytes)) == Some(bytes)
  {
    if bytes != [] {
      UnhexHex(bytes[1..]);
      UnhexStep(Hex(bytes), bytes[0], Hex(bytes[1..]));
      assert [bytes[0]] + bytes[1..] == bytes;
    }
  }

  // ---- the text of master.json ----

  function BoolText(b: bool): string { if b then "true" else "false" }

  function Field(name: string, value: string): string { "  \"" + name + "\": " + value }

  function Quoted(s: string): string { "\"" + s + "\"" }

  function Lines(lines: seq<string>): string {
    if lines == [] then "" else if |lines| == 1 then lines[0] + "\n" else lines[0] + ",\n" + Lines(lines[1..])
  }

  function MetaLines(m: Meta): seq<string> {
    [Field("salt", Quoted(m.salt)),
     Field("verification_salt", Quoted(m.verificationSalt)),
     Field("verification_hash", Quoted(m.verificationHash)),
     Field("version", Decimal(m.version)),
     Field("bootstrap", BoolText(m.bootstrap)),
     Field("install_managed", BoolText(m.installManaged))]
  }

  /** `serde_json::to_string_pretty` on the metadata. */
  function MetaText(m: Meta): string { "{\n" + Lines(MetaLines(m)) + "}" }

  predicate NoCloser(s: string) { '}' !in s && ']' !in s }

  lemma FieldNoCloser(name: string, value: string)
    requires NoCloser(name) && NoCloser(value)
    ensures NoCloser(Field(name, value)) && NoCloser(Quoted(value))
  {
  }

  lemma {:induction false} LinesNoCloser(lines: seq<string>)
    requires forall i :: 0 <= i < |lines| ==> NoCloser(lines[i])
    ensures NoCloser(Lines(lines))
  {
    if |lines| > 1 {
      LinesNoCloser(lines[1..]);
    }
  }

  lemma MetaLinesNoCloser(m: Meta)
    requires IsHexMeta(m)
    ensures forall i :: 0 <= i < |MetaLines(m)| ==> NoCloser(MetaLines(m)[i])
  {
    assert !IsDigit('}') && !IsDigit(']');
    FieldNoCloser("salt", m.salt);
    FieldNoCloser("salt", Quoted(m.salt));
    FieldNoCloser("verification_salt", m.verificationSalt);
    FieldNoCloser("verification_salt", Quoted(m.verificationSalt));
    FieldNoCloser("verification_hash", m.verificationHash);
    FieldNoCloser("verification_hash", Quoted(m.verificationHash));
    FieldNoCloser("version", Decimal(m.version));
    FieldNoCloser("bootstrap", BoolText(m.bootstrap));
    FieldNoCloser("install_managed", BoolText(m.installManaged));
  }

  lemma MetaTextClosesLast(m: Meta, n: nat)
    requires IsHexMeta(m) && n < |MetaText(m)|
    ensures NoCloser(MetaText(m)[..n])
  {
    var body := "{\n" + Lines(MetaLines(m));
    MetaLinesNoCloser(m);
    LinesNoCloser(MetaLines(m));
    assert MetaText(m)[..n] == body[..n];
  }

  lemma MetaTextNotBlank(m: Meta)
    ensures !IsBlank(MetaText(m))
  {
    var text := MetaText(m);
    assert text[0] == '{' && text[|text| - 1] == '}' && IsTrimmed(text);
  }

  /** The pretty-printed object is sound with every reader that reads it back and that, like
      JSON (section 2 of RFC 8259), accepts an object or array only once it is closed: the
      only closing bracket of the printed text is its last character. */
  lemma JsonIsSound(lib: Library)
    requires forall p, q, salt :: lib.derive(p, salt) == lib.derive(q, salt) ==> p == q
    requires forall m: Meta :: lib.render(m) == MetaText(m)
    requires forall m: Meta :: IsHexMeta(m) ==> lib.parse(lib.render(m)) == Some(m)
    requires forall t :: lib.parse(t).Some? ==> !NoCloser(t)
    ensures Sound(lib)
  {
    forall m: Meta | IsHexMeta(m)
      ensures !IsBlank(lib.render(m))
    {
      MetaTextNotBlank(m);
    }
    forall m: Meta, n: nat | IsHexMeta(m) && n < |lib.render(m)|
      ensures lib.parse(lib.render(m)[..n]) == None
    {
      MetaTextClosesLast(m, n);
    }
  }

  /** A prepared password: everything the committed file and the returned key follow from. */
  datatype Prepared = Prepared(
    password: string,
    encSalt: Bytes,
    verSalt: Bytes,
    bootstrap: bool,
    installManaged: bool)

  function PreparedKey(lib: Library, c: Prepared): Bytes { lib.derive(c.password, c.encSalt) }

  function PreparedMeta(lib: Library, c: Prepared): (m: Meta)
    ensures IsHexMeta(m)
  {
    Meta(Hex(c.encSalt), Hex(c.verSalt), Hex(lib.derive(c.password, c.verSalt)), 1, c.bootstrap, c.installManaged)
  }

  function PreparedText(lib: Library, c: Prepared): string { lib.render(PreparedMeta(lib, c)) }

  /** A torn `master.json`, that is a strict prefix of a committed text, never parses; the
      whole text parses to what was committed. */
  lemma PrefixParses(lib: Library, c: Prepared, n: nat)
    requires Sound(lib) && n <= |PreparedText(lib, c)|
    ensures lib.parse(PreparedText(lib, c)[..n])
         == if n == |PreparedText(lib, c)| then Some(PreparedMeta(lib, c)) else None
  {
    var text := PreparedText(lib, c);
    if n == |text| {
      assert text[..n] == text;
    }
  }

  // ---- unlocking ----

  function UnlockMeta(lib: Library, m: Meta, password: string): Result<Bytes, Failure> {
    match (Unhex(m.verificationSalt), Unhex(m.verificationHash))
    case (Some(verSalt), Some(expected)) =>
      if lib.derive(password, verSalt) != expected then Err(InvalidPassword)
      else
        (match Unhex(m.salt)
         case Some(encSalt) => Ok(lib.derive(password, encSalt))
         case None => Err(BadHex))
    case _ => Err(BadHex)
  }

  /** The committed metadata unlocks with exactly the committed password, and then to
      the key that was prepared with it. */
  lemma UnlockPrepared(lib: Library, c: Prepared, password: string)
    requires Sound(lib)
    ensures UnlockMeta(lib, PreparedMeta(lib, c), password)
         == if password == c.password then Ok(PreparedKey(lib, c)) else Err(InvalidPassword)
  {
    UnhexHex(c.encSalt);
    UnhexHex(c.verSalt);
    UnhexHex(lib.derive(c.password, c.verSalt));
  }

  // ---- loading while the file may still be changing ----

  /** What one attempt to read the file sees. */
  datatype Read = Missing | Content(text: string) | Failed

  function ReadMeta(lib: Library, read: Read): Result<Meta, Failure> {
    match read
    case Missing => Err(Io)
    case Failed => Err(Io)
    case Content(text) =>
      if IsBlank(text) then Err(Empty)
      else
        match lib.parse(text)
        case Some(m) => Ok(m)
        case None => Err(Corrupt)
  }

  /** The loop of `load_meta` over what its attempts see. */
  method LoadMeta(lib: Library, present: bool, seen: seq<Read>) returns (r: Result<Meta, Failure>)
    requires |seen| == READ_ATTEMPTS
    ensures !present ==> r == Err(NotConfigured)
    ensures present ==>
      exists k :: 0 <= k < |seen| && r == ReadMeta(lib, seen[k])
        && (forall j :: 0 <= j < k ==> ReadMeta(lib, seen[j]).Err? && !seen[j].Failed?)
        && (r.Ok? || seen[k].Failed? || k == |seen| - 1)
  {
    if !present {
      return Err(NotConfigured);
    }
    for attempt := 0 to READ_ATTEMPTS
      invariant forall j :: 0 <= j < attempt ==> ReadMeta(lib, seen[j]).Err? && !seen[j].Failed?
      invariant attempt < READ_ATTEMPTS
    {
      match seen[attempt] {
        case Content(text) =>
          if !IsBlank(text) {
            match lib.parse(text) {
              case Some(meta) => return Ok(meta);
              case None => if attempt == 19 { return Err(Corrupt); }
            }
          } else if attempt == 19 {
            return Err(Empty);
          }
        case Missing => if attempt == 19 { return Err(Io); }
        case Failed => return Err(Io);
      }
    }
    assert false;
  }

  lemma ReadOfPrefix(lib: Library, c: Prepared, text: string)
    requires Sound(lib) && text <= PreparedText(lib, c)
    ensures text == PreparedText(lib, c) ==> ReadMeta(lib, Content(text)) == Ok(PreparedMeta(lib, c))
    ensures text != PreparedText(lib, c) ==> ReadMeta(lib, Content(text)).Err?
  {
    PrefixParses(lib, c, |text|);
    assert PreparedText(lib, c)[..|text|] == text;
  }

  /** However the writes of one committed text and the reads interleave, `load_meta` either
      fails or returns the committed metadata, and it succeeds if no read fails and some
      attempt `i` sees the whole text. */
  lemma LoadedIsCommitted(lib: Library, c: Prepared, seen: seq<Read>, k: nat, i: nat)
    requires Sound(lib) && k < |seen| && i < |seen|
    requires forall j :: 0 <= j < |seen| ==>
               !seen[j].Failed? && (seen[j].Content? ==> seen[j].text <= PreparedText(lib, c))
    requires forall j :: 0 <= j < k ==> ReadMeta(lib, seen[j]).Err?
    requires ReadMeta(lib, seen[k]).Ok? || k == |seen| - 1
    ensures ReadMeta(lib, seen[k]).Ok? ==> ReadMeta(lib, seen[k]) == Ok(PreparedMeta(lib, c))
    ensures seen[i] == Content(PreparedText(lib, c)) ==> ReadMeta(lib, seen[k]) == Ok(PreparedMeta(lib, c))
  {
    if seen[k].Content? {
      ReadOfPrefix(lib, c, seen[k].text);
    }
    if seen[i] == Content(PreparedText(lib, c)) {
      ReadOfPrefix(lib, c, seen[i].text);
      assert k <= i;
    }
  }

  // ---- histories of one directory ----

  /** A call that may change `master.json`, or an attempt to unlock it. */
  datatype Call =
    | SetPassword(prepared: Prepared)
    | InitializeStartup(prepared: Prepared)
    | RemovePassword
    | Unlock(password: string)

  /** The text of `master.json` after the calls, from an empty directory. */
  function FileAfter(lib: Library, calls: seq<Call>): Option<string> {
    if calls == [] then None
    else
      var before := FileAfter(lib, calls[..|calls| - 1]);
      match calls[|calls| - 1]
      case SetPassword(c) => Some(PreparedText(lib, c))
      case InitializeStartup(c) => if before.Some? then before else Some(PreparedText(lib, c))
      case RemovePassword => None
      case Unlock(_) => before
  }

  /** The preparation in force after the calls, with no reference to any file: a call of
      `SetPassword` replaces it, `RemovePassword` ends it, and a startup initialisation
      counts only when none was in force. */
  function InForce(calls: seq<Call>): Option<Prepared> {
    if calls == [] then None
    else
      match calls[|calls| - 1]
      case SetPassword(c) => Some(c)
      case InitializeStartup(c) =>
        var before := InForce(calls[..|calls| - 1]);
        if before.Some? then before else Some(c)
      case RemovePassword => None
      case Unlock(_) => InForce(calls[..|calls| - 1])
  }

  function UnlockFile(lib: Library, file: Option<string>, password: string): Result<Bytes, Failure> {
    match file
    case None => Err(NotConfigured)
    case Some(text) =>
      match ReadMeta(lib, Content(text))
      case Ok(m) => UnlockMeta(lib, m, password)
      case Err(e) => Err(e)
  }

  lemma {:induction false} FileIsInForce(lib: Library, calls: seq<Call>)
    ensures FileAfter(lib, calls)
         == match InForce(calls) case None => None case Some(c) => Some(PreparedText(lib, c))
  {
    if calls == [] {
    } else {
      FileIsInForce(lib, calls[..|calls| - 1]);
    }
  }

  /** After every history of set, change, startup initialisation, removal and unlock, a
      password unlocks exactly when it is the one in force, and to the key prepared then. */
  lemma UnlockAfterHistory(lib: Library, calls: seq<Call>, password: string)
    requires Sound(lib)
    ensures UnlockFile(lib, FileAfter(lib, calls), password)
         == match InForce(calls)
            case None => Err(NotConfigured)
            case Some(c) => if password == c.password then Ok(PreparedKey(lib, c)) else Err(InvalidPassword)
  {
    FileIsInForce(lib, calls);
    match InForce(calls) {
      case None =>
      case Some(c) =>
        PrefixParses(lib, c, |PreparedText(lib, c)|);
        assert PreparedText(lib, c)[..|PreparedText(lib, c)|] == PreparedText(lib, c);
        UnlockPrepared(lib, c, password);
    }
  }

  /** A password that was changed or removed does not unlock again until it is set again. */
  lemma OldPasswordStaysDead(lib: Library, calls: seq<Call>, c: Prepared, previous: string, later: seq<string>)
    requires Sound(lib) && previous != c.password
    ensures UnlockFile(lib, FileAfter(lib, calls + [SetPassword(c)] + Unlocks(later)), previous) == Err(InvalidPassword)
    ensures UnlockFile(lib, FileAfter(lib, calls + [RemovePassword] + Unlocks(later)), previous) == Err(NotConfigured)
  {
    UnlocksChangeNothing(calls + [SetPassword(c)], later);
    UnlocksChangeNothing(calls + [RemovePassword], later);
    UnlockAfterHistory(lib, calls + [SetPassword(c)] + Unlocks(later), previous);
    UnlockAfterHistory(lib, calls + [RemovePassword] + Unlocks(later), previous);
  }

  function Unlocks(passwords: seq<string>): seq<Call> {
    seq(|passwords|, i requires 0 <= i < |passwords| => Unlock(passwords[i]))
  }

  lemma {:induction false} UnlocksChangeNothing(calls: seq<Call>, passwords: seq<string>)
    ensures InForce(calls + Unlocks(passwords)) == InForce(calls)
  {
    var all := calls + Unlocks(passwords);
    if passwords == [] {
      assert all == calls;
    } else {
      var shorter := passwords[..|passwords| - 1];
      assert all[..|all| - 1] == calls + Unlocks(shorter);
      UnlocksChangeNothing(calls, shorter);
    }
  }

  // ---- the manager ----

  class MasterPasswordManager {
    const lib: Library
    var metaFile: Option<string>
    ghost var calls: seq<Call>

    ghost predicate Valid()
      reads this
    {
      Sound(lib) && metaFile == FileAfter(lib, calls)
    }

    /** A manager for a directory in which `calls` were made before. */
    constructor (lib: Library, found: Option<string>, ghost calls: seq<Call>)
      requires Sound(lib) && found == FileAfter(lib, calls)
      ensures Valid() && this.lib == lib && this.calls == calls && metaFile == found
    {
      this.lib := lib;
      metaFile := found;
      this.calls := calls;
    }

    method IsPasswordSet() returns (isSet: bool)
      requires Valid()
      ensures isSet == InForce(calls).Some?
    {
      FileIsInForce(lib, calls);
      isSet := metaFile.Some?;
    }

    /** `commit_prepared_password`: the file is replaced atomically. */
    method CommitPreparedPassword(c: Prepared)
      requires Valid()
      modifies this
      ensures Valid() && calls == old(calls) + [SetPassword(c)]
    {
      metaFile := Some(PreparedText(lib, c));
      calls := calls + [SetPassword(c)];
    }

    method CommitPasswordRemoval()
      requires Valid()
      modifies this
      ensures Valid() && calls == old(calls) + [RemovePassword]
    {
      if metaFile.Some? {
        metaFile := None;
      }
      calls := calls + [RemovePassword];
    }

    /** `unlock`: the key comes back exactly for the password in force. */
    method UnlockKey(password: string) returns (r: Result<Bytes, Failure>)
      requires Valid()
      modifies this`calls
      ensures Valid() && calls == old(calls) + [Unlock(password)]
      ensures r == match InForce(old(calls))
                   case None => Err(NotConfigured)
                   case Some(c) => if password == c.password then Ok(PreparedKey(lib, c)) else Err(InvalidPassword)
    {
      UnlockAfterHistory(lib, calls, password);
      var file := if metaFile.Some? then Content(metaFile.value) else Missing;
      var loaded := LoadMeta(lib, metaFile.Some?, seq(READ_ATTEMPTS, _ => file));
      match loaded {
        case Err(e) => r := Err(e);
        case Ok(meta) => r := UnlockMeta(lib, meta, password);
      }
      calls := calls + [Unlock(password)];
      assert calls[..|calls| - 1] == old(calls);
    }

    /** `initialize_startup_password_if_needed` when no other process interferes. */
    method InitializeStartupPassword(password: string, encSalt: Bytes, verSalt: Bytes)
        returns (r: Result<Bytes, Failure>)
      requires Valid()
      modifies this
      ensures Valid()
      ensures InForce(calls).Some?
      ensures InForce(old(calls)).Some? ==> InForce(calls) == InForce(old(calls))
      ensures r == if password == InForce(calls).value.password then Ok(PreparedKey(lib, InForce(calls).value))
                   else Err(InvalidPassword)
    {
      FileIsInForce(lib, calls);
      if metaFile.Some? {
        ghost var before := calls;
        r := UnlockKey(password);
        InForceStep(before, Unlock(password));
      } else {
        var c := Prepared(password, encSalt, verSalt, false, true);
        InForceStep(calls, InitializeStartup(c));
        FileStep(lib, calls, InitializeStartup(c));
        metaFile := Some(PreparedText(lib, c));
        calls := calls + [InitializeStartup(c)];
        r := Ok(PreparedKey(lib, c));
      }
    }
  }

  lemma FileStep(lib: Library, calls: seq<Call>, call: Call)
    ensures FileAfter(lib, calls + [call])
         == if call.RemovePassword? then None
            else if call.Unlock? || (call.InitializeStartup? && FileAfter(lib, calls).Some?) then FileAfter(lib, calls)
            else Some(PreparedText(lib, call.prepared))
  {
    var all := calls + [call];
    assert all[..|all| - 1] == calls;
  }

  lemma InForceStep(calls: seq<Call>, call: Call)
    ensures InForce(calls + [call])
         == if call.RemovePassword? then None
            else if call.Unlock? || (call.InitializeStartup? && InForce(calls).Some?) then InForce(calls)
            else Some(call.prepared)
  {
    var all := calls + [call];
    assert all[..|all| - 1] == calls;
  }
}
