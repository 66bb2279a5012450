/** The string operations of Rust's standard library that the modelled code is
    written with: `trim`, `to_ascii_lowercase`, `split_once`, `starts_with`.
    A string is a sequence of Unicode scalar values. */
module Text {
  import opened Results
  import opened Sequences

  /** `char::is_whitespace`: the Unicode White_Space property. */
  predicate IsWhitespace(c: char) {
    var n := c as int;
    || 0x09 <= n <= 0x0D
    || n == 0x20 || n == 0x85 || n == 0xA0 || n == 0x1680
    || 0x2000 <= n <= 0x200A
    || n == 0x2028 || n == 0x2029 || n == 0x202F || n == 0x205F || n == 0x3000
  }

  predicate IsUpper(c: char) { 'A' <= c <= 'Z' }

  predicate IsLower(c: char) { 'a' <= c <= 'z' }

  predicate IsDigit(c: char) { '0' <= c <= '9' }

  predicate IsAlphabetic(c: char) { IsUpper(c) || IsLower(c) }

  predicate IsAlphanumeric(c: char) { IsAlphabetic(c) || IsDigit(c) }

  function LowerChar(c: char): char {
    if IsUpper(c) then (c as int + 32) as char else c
  }

  function UpperChar(c: char): char {
    if IsLower(c) then (c as int - 32) as char else c
  }

  /** `to_ascii_lowercase` */
  function Lower(s: string): (t: string)
    ensures |t| == |s|
    ensures forall i :: 0 <= i < |s| ==> t[i] == LowerChar(s[i])
  {
    seq(|s|, i requires 0 <= i < |s| => LowerChar(s[i]))
  }

  /** `to_ascii_uppercase` */
  function Upper(s: string): (t: string)
    ensures |t| == |s|
    ensures forall i :: 0 <= i < |s| ==> t[i] == UpperChar(s[i])
  {
    seq(|s|, i requires 0 <= i < |s| => UpperChar(s[i]))
  }

  predicate EqIgnoreCase(s: string, t: string) { Lower(s) == Lower(t) }

  predicate StartsWith(s: string, prefix: string) { prefix <= s }

  function TrimStart(s: string): (t: string)
    ensures |t| <= |s|
    ensures t == [] || !IsWhitespace(t[0])
  {
    if s != [] && IsWhitespace(s[0]) then TrimStart(s[1..]) else s
  }

  function TrimEnd(s: string): (t: string)
    ensures |t| <= |s| && (t == [] || (t[0] == s[0] && !IsWhitespace(t[|t| - 1])))
  {
    if s != [] && IsWhitespace(s[|s| - 1]) then TrimEnd(s[..|s| - 1]) else s
  }

  /** No white space at either end. */
  predicate IsTrimmed(s: string) {
    s == [] || (!IsWhitespace(s[0]) && !IsWhitespace(s[|s| - 1]))
  }

  function Trim(s: string): (t: string)
    ensures |t| <= |s| && IsTrimmed(t)
    ensures IsTrimmed(s) ==> t == s
  {
    TrimEnd(TrimStart(s))
  }

  lemma TrimSpace(value: string)
    requires IsTrimmed(value)
    ensures Trim([' '] + value) == value
  {
    var s := [' '] + value;
    assert s[1..] == value;
    assert TrimStart(s) == TrimStart(value);
    assert Trim(value) == value;
  }

  predicate IsBlank(s: string) { Trim(s) == [] }

  /** `split_once(c)`: around the first occurrence. */
  function SplitOnce(s: string, c: char): Option<(string, string)> {
    var i := IndexOf(s, c);
    if i < |s| then Some((s[..i], s[i + 1..])) else None
  }

  lemma {:induction false} SplitOnceAt(left: string, c: char, right: string)
    requires c !in left
    ensures SplitOnce(left + [c] + right, c) == Some((left, right))
  {
    var s := left + [c] + right;
    var i := IndexOf(s, c);
    assert s[|left|] == c;
    assert forall k :: 0 <= k < |left| ==> s[k] == left[k];
    assert i == |left|;
    assert s[..i] == left && s[i + 1..] == right;
  }

  /** `trim_matches(c)` for one character */
  function TrimMatches(s: string, c: char): (t: string)
    ensures |t| <= |s| && (t == [] || (t[0] != c && t[|t| - 1] != c))
    ensures s == [] || (s[0] != c && s[|s| - 1] != c) ==> t == s
    decreases |s|
  {
    if s == "" then ""
    else if s[0] == c then TrimMatches(s[1..], c)
    else if s[|s| - 1] == c then TrimMatches(s[..|s| - 1], c)
    else s
  }

  lemma {:induction false} TrimMatchesWithin(s: string, c: char)
    ensures forall i :: 0 <= i < |TrimMatches(s, c)| ==> TrimMatches(s, c)[i] in s
    decreases |s|
  {
    if s != "" && s[0] == c {
      TrimMatchesWithin(s[1..], c);
    } else if s != "" && s[|s| - 1] == c {
      TrimMatchesWithin(s[..|s| - 1], c);
    }
  }

  /** `contains` of a substring */
  predicate Contains(s: string, part: string) {
    part <= s || (s != "" && Contains(s[1..], part))
  }

  lemma TrimUpper(s: string)
    ensures Upper(Upper(s)) == Upper(s)
    ensures IsTrimmed(s) ==> IsTrimmed(Upper(s))
  {
    assert forall i :: 0 <= i < |s| ==> UpperChar(UpperChar(s[i])) == UpperChar(s[i]);
  }

  predicate AllDigits(s: string) { forall i :: 0 <= i < |s| ==> IsDigit(s[i]) }

  /** Decimal digits of a number, as `format!("{}", n)` prints them. */
  function Decimal(n: nat): (t: string)
    ensures t != [] && AllDigits(t)
  {
    var d := ['0' + (n % 10) as char];
    if n < 10 then d else Decimal(n / 10) + d
  }
}
