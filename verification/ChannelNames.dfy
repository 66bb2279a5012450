/** Ids of channels, keys of their credential fields, and the secret slots named by both. */
module ChannelNames {
  import opened Results
  import opened Text

  /** The two sanitizers differ in one place: an id takes white space for a separator. */
  datatype Kind = ChannelId | FieldKey

  function NextChar(kind: Kind, c: char): Option<char> {
    if IsAlphanumeric(c) then Some(LowerChar(c))
    else if c == '_' || c == '-' || c == '.' || (kind.ChannelId? && IsWhitespace(c)) then Some('_')
    else None
  }

  predicate IsSlugChar(c: char) { IsLower(c) || IsDigit(c) || c == '_' }

  /** Slug characters, no separator behind another. */
  predicate IsSqueezed(s: string) {
    && (forall i :: 0 <= i < |s| ==> IsSlugChar(s[i]))
    && (forall i :: 0 <= i < |s| - 1 ==> s[i] != '_' || s[i + 1] != '_')
  }

  /** The normal form: squeezed, and no separator at either end. */
  predicate IsSlug(s: string) {
    IsSqueezed(s) && (s == "" || (s[0] != '_' && s[|s| - 1] != '_'))
  }

  /** The characters kept, with runs of separators made one. */
  function Squeezed(kind: Kind, s: string, afterSep: bool): string {
    if s == "" then ""
    else
      match NextChar(kind, s[0])
      case None => Squeezed(kind, s[1..], afterSep)
      case Some(c) =>
        if c == '_' && afterSep then Squeezed(kind, s[1..], true)
        else [c] + Squeezed(kind, s[1..], c == '_')
  }

  lemma {:induction false} SqueezedForm(kind: Kind, s: string, afterSep: bool)
    ensures var t := Squeezed(kind, s, afterSep);
            && IsSqueezed(t)
            && (afterSep && t != "" ==> t[0] != '_')
            && (IsSqueezed(s) && (afterSep && s != "" ==> s[0] != '_') ==> t == s)
  {
    if s != "" {
      SqueezedForm(kind, s[1..], afterSep);
      SqueezedForm(kind, s[1..], true);
      SqueezedForm(kind, s[1..], false);
    }
  }

  function Sanitized(kind: Kind, value: string): string {
    TrimMatches(Squeezed(kind, Trim(value), false), '_')
  }

  function SanitizeId(value: string): string { Sanitized(ChannelId, value) }

  function SanitizeFieldKey(value: string): string { Sanitized(FieldKey, value) }

  /** `sanitize_id` and `sanitize_field_key` */
  method Sanitize(kind: Kind, value: string) returns (name: string)
    ensures name == Sanitized(kind, value)
  {
    var out := "";
    var lastWasSep := false;
    var trimmed := Trim(value);
    ghost var whole := Squeezed(kind, trimmed, false);
    assert trimmed[0..] == trimmed;
    for i := 0 to |trimmed|
      invariant out + Squeezed(kind, trimmed[i..], lastWasSep) == whole
    {
      SqueezedStep(kind, trimmed, i, lastWasSep, out);
      var next := NextChar(kind, trimmed[i]);
      if next.Some? {
        var c := next.value;
        if c == '_' {
          if lastWasSep {
            continue;
          }
          lastWasSep := true;
        } else {
          lastWasSep := false;
        }
        out := out + [c];
      }
    }
    assert out == whole;
    name := TrimMatches(out, '_');
  }

  lemma SqueezedStep(kind: Kind, s: string, i: nat, afterSep: bool, out: string)
    requires i < |s|
    ensures var next := NextChar(kind, s[i]);
            out + Squeezed(kind, s[i..], afterSep)
            == (if next.None? then out + Squeezed(kind, s[i + 1..], afterSep)
                else if next.value == '_' && afterSep then out + Squeezed(kind, s[i + 1..], true)
                else out + [next.value] + Squeezed(kind, s[i + 1..], next.value == '_'))
  {
    assert s[i..][0] == s[i] && s[i..][1..] == s[i + 1..];
  }

  lemma {:induction false} TrimmedStaysSqueezed(s: string)
    requires IsSqueezed(s)
    ensures IsSlug(TrimMatches(s, '_'))
    decreases |s|
  {
    if s != "" && s[0] == '_' {
      TrimmedStaysSqueezed(s[1..]);
    } else if s != "" && s[|s| - 1] == '_' {
      TrimmedStaysSqueezed(s[..|s| - 1]);
    }
  }

  /** Every name comes out in the normal form, and exactly the names in it come out as they
      were; so both sanitizers are idempotent. */
  lemma SanitizedIsSlug(kind: Kind, value: string)
    ensures IsSlug(Sanitized(kind, value))
    ensures Sanitized(kind, value) == value <==> IsSlug(value)
    ensures Sanitized(kind, Sanitized(kind, value)) == Sanitized(kind, value)
  {
    SanitizedForm(kind, value);
    if IsSlug(value) {
      SlugIsFixed(kind, value);
    }
    SlugIsFixed(kind, Sanitized(kind, value));
  }

  lemma SanitizedForm(kind: Kind, value: string)
    ensures IsSlug(Sanitized(kind, value))
  {
    SqueezedForm(kind, Trim(value), false);
    TrimmedStaysSqueezed(Squeezed(kind, Trim(value), false));
  }

  lemma SlugIsFixed(kind: Kind, value: string)
    requires IsSlug(value)
    ensures Sanitized(kind, value) == value
  {
    assert IsTrimmed(value) by {
      assert forall i :: 0 <= i < |value| ==> !IsWhitespace(value[i]);
    }
    SqueezedForm(kind, value, false);
  }

  // ---- letters are neither lost nor moved ----

  /** The letters and digits, in lower case. */
  function Letters(s: string): string {
    if s == "" then ""
    else (if IsAlphanumeric(s[0]) then [LowerChar(s[0])] else "") + Letters(s[1..])
  }

  lemma {:induction false} LettersConcat(s: string, t: string)
    ensures Letters(s + t) == Letters(s) + Letters(t)
  {
    if s == "" {
      assert s + t == t;
    } else {
      var first := if IsAlphanumeric(s[0]) then [LowerChar(s[0])] else "";
      LettersConcat(s[1..], t);
      assert (s + t)[0] == s[0] && (s + t)[1..] == s[1..] + t;
      assert first + (Letters(s[1..]) + Letters(t)) == (first + Letters(s[1..])) + Letters(t);
    }
  }

  lemma {:induction false} SqueezedLetters(kind: Kind, s: string, afterSep: bool)
    ensures Letters(Squeezed(kind, s, afterSep)) == Letters(s)
  {
    if s != "" {
      SqueezedLetters(kind, s[1..], afterSep);
      var next := NextChar(kind, s[0]);
      if next.Some? {
        var c := next.value;
        SqueezedLetters(kind, s[1..], true);
        SqueezedLetters(kind, s[1..], false);
        var rest := Squeezed(kind, s[1..], c == '_');
        assert ([c] + rest)[1..] == rest;
      }
    }
  }

  lemma {:induction false} LettersOfNone(s: string)
    requires forall i :: 0 <= i < |s| ==> !IsAlphanumeric(s[i])
    ensures Letters(s) == ""
  {
    if s != "" {
      LettersOfNone(s[1..]);
    }
  }

  lemma {:induction false} TrimMatchesLetters(s: string)
    ensures Letters(TrimMatches(s, '_')) == Letters(s)
    decreases |s|
  {
    if s != "" && s[0] == '_' {
      TrimMatchesLetters(s[1..]);
    } else if s != "" && s[|s| - 1] == '_' {
      TrimMatchesLetters(s[..|s| - 1]);
      assert s == s[..|s| - 1] + ['_'];
      LettersConcat(s[..|s| - 1], ['_']);
      LettersOfNone(['_']);
    }
  }

  lemma {:induction false} TrimStartLetters(s: string)
    ensures Letters(TrimStart(s)) == Letters(s)
  {
    if s != "" && IsWhitespace(s[0]) {
      TrimStartLetters(s[1..]);
    }
  }

  lemma {:induction false} TrimEndLetters(s: string)
    ensures Letters(TrimEnd(s)) == Letters(s)
  {
    if s != "" && IsWhitespace(s[|s| - 1]) {
      TrimEndLetters(s[..|s| - 1]);
      assert s == s[..|s| - 1] + [s[|s| - 1]];
      LettersConcat(s[..|s| - 1], [s[|s| - 1]]);
      LettersOfNone([s[|s| - 1]]);
    }
  }

  /** Sanitizing keeps every ASCII letter and digit, in order and in lower case, and nothing
      else but separators. */
  lemma SanitizedLetters(kind: Kind, value: string)
    ensures Letters(Sanitized(kind, value)) == Letters(value)
  {
    TrimStartLetters(value);
    TrimEndLetters(TrimStart(value));
    SqueezedLetters(kind, Trim(value), false);
    TrimMatchesLetters(Squeezed(kind, Trim(value), false));
  }

  // ---- slots ----

  /** The fixed parts of slot names: the prefix `custom_messaging_channel:` and the keys under
      which the parts of an OAuth flow are kept, `access_token`, `refresh_token`, `expires_at`,
      `client_id` and `client_secret`. Nothing depends on their spelling. */
  datatype Names = Names(prefix: string, access: string, refresh: string, expires: string, client: string,
                         secret: string)

  function AuthIntegrationId(names: Names, id: string): string { names.prefix + SanitizeId(id) }

  /** `storage_target` */
  function StorageTarget(names: Names, id: string, key: string): string {
    names.prefix + SanitizeId(id) + ":" + SanitizeFieldKey(key)
  }

  lemma JoinIsInjective(prefix: string, a: string, b: string, c: string, d: string)
    requires ':' !in a && ':' !in c
    ensures prefix + a + ":" + b == prefix + c + ":" + d <==> a == c && b == d
  {
    var s := prefix + a + ":" + b;
    var t := prefix + c + ":" + d;
    if s == t {
      assert s[|prefix|..] == a + [':'] + b;
      assert t[|prefix|..] == c + [':'] + d;
      SplitOnceAt(a, ':', b);
      SplitOnceAt(c, ':', d);
    }
  }

  /** Two slots are one exactly when channel and field are. */
  lemma StorageTargetIsInjective(names: Names, id: string, key: string, otherId: string, otherKey: string)
    ensures StorageTarget(names, id, key) == StorageTarget(names, otherId, otherKey)
            <==> SanitizeId(id) == SanitizeId(otherId) && SanitizeFieldKey(key) == SanitizeFieldKey(otherKey)
  {
    SanitizedForm(ChannelId, id);
    SanitizedForm(ChannelId, otherId);
    JoinIsInjective(names.prefix, SanitizeId(id), SanitizeFieldKey(key), SanitizeId(otherId),
                    SanitizeFieldKey(otherKey));
  }

  /** The slot lies in the namespace of the channel. */
  ghost predicate OwnSlot(names: Names, id: string, slot: string) {
    exists key :: slot == StorageTarget(names, id, key)
  }

  lemma OwnSlotsAreDisjoint(names: Names, id: string, otherId: string, slot: string)
    requires OwnSlot(names, id, slot) && OwnSlot(names, otherId, slot)
    ensures SanitizeId(id) == SanitizeId(otherId)
  {
    var key :| slot == StorageTarget(names, id, key);
    var otherKey :| slot == StorageTarget(names, otherId, otherKey);
    StorageTargetIsInjective(names, id, key, otherId, otherKey);
  }
}
