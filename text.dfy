/** Character and string helpers shared by the three components: ASCII case
    folding (the model of .NET `ToLower` and Python `str.lower`), Python's
    `str.strip`, search for a character, and the decimal text of an integer
    identifier (the model of .NET `Int32.ToString`). */
module Text {

  datatype Option<+T> = None | Some(value: T)

  /** ASCII lower-casing of one character. */
  function LowerChar(c: char): char {
    if 'A' <= c <= 'Z' then (c as int + 32) as char else c
  }

  /** ASCII lower-casing of a string, character by character. */
  function Lower(s: string): string {
    seq(|s|, i requires 0 <= i < |s| => LowerChar(s[i]))
  }

  /** `String.Replace` with a one-character pattern and replacement. */
  function ReplaceChar(s: string, from: char, to: char): string {
    seq(|s|, i requires 0 <= i < |s| => if s[i] == from then to else s[i])
  }

  predicate StartsWith(s: string, prefix: string) {
    |prefix| <= |s| && s[..|prefix|] == prefix
  }

  /** The characters Python's `str.isspace` accepts, and hence the ones
      `str.strip()` removes from both ends. */
  predicate IsPySpace(c: char) {
    || c == ' '
    || ('\t' <= c <= '\r')
    || ('\U{1C}' <= c <= '\U{1F}')
    || c == '\U{85}' || c == '\U{A0}' || c == '\U{1680}'
    || ('\U{2000}' <= c <= '\U{200A}')
    || c == '\U{2028}' || c == '\U{2029}' || c == '\U{202F}'
    || c == '\U{205F}' || c == '\U{3000}'
  }

  /** The number of whitespace characters at the start of `s`. */
  function LeadingSpaces(s: string): (k: nat)
    ensures k <= |s|
    ensures forall j :: 0 <= j < k ==> IsPySpace(s[j])
    ensures k < |s| ==> !IsPySpace(s[k])
  {
    if s != [] && IsPySpace(s[0]) then 1 + LeadingSpaces(s[1..]) else 0
  }

  /** The length of `s` without its trailing whitespace. */
  function TrailingStart(s: string): (k: nat)
    ensures k <= |s|
    ensures forall j :: k <= j < |s| ==> IsPySpace(s[j])
    ensures 0 < k ==> !IsPySpace(s[k - 1])
  {
    if s != [] && IsPySpace(s[|s| - 1]) then TrailingStart(s[..|s| - 1]) else |s|
  }

  /** Python's `str.strip()` with no argument: `s` without its leading and
      trailing whitespace. */
  function Strip(s: string): (r: string)
    ensures r != [] ==> !IsPySpace(r[0]) && !IsPySpace(r[|r| - 1])
    ensures exists i, j :: 0 <= i <= j <= |s| && r == s[i..j]
                           && (forall k :: 0 <= k < i ==> IsPySpace(s[k]))
                           && (forall k :: j <= k < |s| ==> IsPySpace(s[k]))
  {
    var a := LeadingSpaces(s);
    var t := s[a..];
    var b := TrailingStart(t);
    assert t[..b] == s[a..a + b];
    assert forall k :: a + b <= k < |s| ==> s[k] == t[k - a];
    t[..b]
  }

  /** A line made only of whitespace strips to the empty string. */
  lemma StripBlank(s: string)
    requires forall k :: 0 <= k < |s| ==> IsPySpace(s[k])
    ensures Strip(s) == []
  {
  }

  /** The position of the first occurrence of `c` in `s`, if any. */
  function FirstIndexOf(s: string, c: char): (r: Option<nat>)
    ensures r.None? <==> c !in s
    ensures r.Some? ==> r.value < |s| && s[r.value] == c && c !in s[..r.value]
  {
    if s == [] then None
    else if s[0] == c then Some(0)
    else match FirstIndexOf(s[1..], c)
      case None => None
      case Some(k) =>
        assert s[..k + 1] == [s[0]] + s[1..][..k];
        Some(k + 1)
  }

  lemma {:induction false} FirstIndexOfAfter(p: string, c: char, rest: string)
    requires c !in p
    ensures FirstIndexOf(p + [c] + rest, c) == Some(|p|)
  {
    var s := p + [c] + rest;
    assert s[|p|] == c && s[..|p|] == p;
  }

  function DigitChar(d: int): char
    requires 0 <= d < 10
  {
    ('0' as int + d) as char
  }

  /** The value of a string of decimal digits, most significant first. */
  function DigitsValue(s: string): int {
    if s == [] then 0 else 10 * DigitsValue(s[..|s| - 1]) + (s[|s| - 1] as int - '0' as int)
  }

  /** The value of an identifier's text: an optional minus sign, then digits. */
  function IdValue(s: string): int {
    if s != [] && s[0] == '-' then -DigitsValue(s[1..]) else DigitsValue(s)
  }

  /** Decimal digits of a natural number, most significant first, no leading zeros. */
  function NatText(n: nat): (r: string)
    ensures 1 <= |r| && (n >= 10 <==> |r| >= 2)
    ensures forall i :: 0 <= i < |r| ==> '0' <= r[i] <= '9'
    ensures r[0] == '0' <==> n == 0
  {
    if n < 10 then [DigitChar(n)] else NatText(n / 10) + [DigitChar(n % 10)]
  }

  /** The digits of `n` spell `n`. */
  lemma {:induction false} NatTextValue(n: nat)
    ensures DigitsValue(NatText(n)) == n
  {
    if n >= 10 {
      var r, q := NatText(n), NatText(n / 10);
      assert r == q + [DigitChar(n % 10)];
      assert r[..|r| - 1] == q;
      NatTextValue(n / 10);
    }
  }

  /** The text of an identifier as `Int32.ToString()` writes it: a minus sign
      for a negative identifier, then decimal digits without leading zeros. */
  function IdText(id: int): (r: string)
    ensures r != [] && (r[0] == '-' <==> id < 0)
    ensures forall i :: 0 <= i < |r| ==> r[i] == '-' || '0' <= r[i] <= '9'
    ensures forall i :: 0 < i < |r| ==> '0' <= r[i] <= '9'
    ensures var first := if id < 0 then 1 else 0; first < |r| && (r[first] == '0' ==> id == 0)
  {
    if id < 0 then "-" + NatText(-id) else NatText(id)
  }

  /** The text of an identifier reads back as the identifier's decimal value. */
  lemma IdTextValue(id: int)
    ensures IdValue(IdText(id)) == id
  {
    if id < 0 {
      assert IdText(id)[1..] == NatText(-id);
      NatTextValue(-id);
    } else {
      NatTextValue(id);
    }
  }

  /** Distinct identifiers have distinct texts, so `<id>.eml` names and
      `folder_map.tsv` keys never collide for distinct identifiers. */
  lemma IdTextInjective(a: int, b: int)
    requires IdText(a) == IdText(b)
    ensures a == b
  {
    IdTextValue(a);
    IdTextValue(b);
  }
}
