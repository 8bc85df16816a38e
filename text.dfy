/** String operations used by the browser code (`includes`, `toLowerCase`)
    and by the Go server (`strings.Contains`, `HasSuffix`, `TrimPrefix`,
    `TrimSuffix`, `TrimSpace`, `ToLower`, `%d`). Strings are sequences of
    Unicode scalar values. */
module Text {

  /** `sub` occurs in `s` at position `i`. */
  predicate OccursAt(s: string, sub: string, i: int) {
    0 <= i && i + |sub| <= |s| && s[i..i + |sub|] == sub
  }

  lemma OccursAtTail(s: string, sub: string, i: int)
    requires |s| > 0 && i >= 0
    ensures OccursAt(s[1..], sub, i) <==> OccursAt(s, sub, i + 1)
  {
    if 0 <= i && i + |sub| <= |s| - 1 {
      assert s[1..][i..i + |sub|] == s[i + 1..i + 1 + |sub|];
    }
  }

  /** `s.includes(sub)` / `strings.Contains(s, sub)`: some position of `s`
      starts an occurrence of `sub`. */
  function Contains(s: string, sub: string): (r: bool)
    ensures r <==> exists i :: OccursAt(s, sub, i)
    decreases |s|
  {
    if sub <= s then
      assert OccursAt(s, sub, 0);
      true
    else if |s| <= |sub| then
      assert forall i :: OccursAt(s, sub, i) ==> s[..|sub|] == sub;
      false
    else
      var r := Contains(s[1..], sub);
      assert r ==> exists i :: OccursAt(s, sub, i) by {
        if r {
          var i :| OccursAt(s[1..], sub, i);
          OccursAtTail(s, sub, i);
        }
      }
      assert (exists i :: OccursAt(s, sub, i)) ==> r by {
        if exists i :: OccursAt(s, sub, i) {
          var i :| OccursAt(s, sub, i);
          assert i != 0;
          OccursAtTail(s, sub, i - 1);
        }
      }
      r
  }

  /** `strings.HasSuffix(s, suffix)` */
  predicate HasSuffix(s: string, suffix: string) {
    |suffix| <= |s| && s[|s| - |suffix|..] == suffix
  }

  /** `strings.TrimPrefix(s, prefix)`: removes one leading `prefix`, if present. */
  function TrimPrefix(s: string, prefix: string): (r: string)
    ensures prefix <= s ==> s == prefix + r
    ensures !(prefix <= s) ==> r == s
  {
    if prefix <= s then s[|prefix|..] else s
  }

  /** `strings.TrimSuffix(s, suffix)`: removes one trailing `suffix`, if present. */
  function TrimSuffix(s: string, suffix: string): (r: string)
    ensures HasSuffix(s, suffix) ==> s == r + suffix
    ensures !HasSuffix(s, suffix) ==> r == s
  {
    if HasSuffix(s, suffix) then s[..|s| - |suffix|] else s
  }

  /** Lower-casing of one character, restricted to the ASCII letters. For every
      comparison this model makes (against 'image/jpeg', 'image/jpg',
      'image/png', 'application/pdf', '.pdf' and '.png') this gives the same
      verdict as full Unicode lower-casing: the only non-ASCII characters
      whose lower case is an ASCII letter are KELVIN SIGN (to 'k', absent from
      all of them) and, in Go only, LATIN CAPITAL LETTER I WITH DOT ABOVE (to
      'i', absent from '.pdf' and '.png'; JavaScript lower-cases it to two
      characters, which never match). */
  function LowerChar(c: char): char {
    if 'A' <= c <= 'Z' then (c as int + 32) as char else c
  }

  /** `s.toLowerCase()` / `strings.ToLower(s)`, character by character. */
  function ToLower(s: string): (r: string)
    ensures |r| == |s|
    ensures forall i :: 0 <= i < |s| ==> r[i] == LowerChar(s[i])
  {
    if s == [] then [] else [LowerChar(s[0])] + ToLower(s[1..])
  }

  /** Lower-casing twice is lower-casing once. */
  lemma {:induction false} ToLowerIdempotent(s: string)
    ensures ToLower(ToLower(s)) == ToLower(s)
  {
    if s != [] {
      ToLowerIdempotent(s[1..]);
    }
  }

  /** `unicode.IsSpace`: the characters with the Unicode White_Space property. */
  predicate IsSpace(c: char) {
    || '\t' <= c <= '\r'
    || c == ' '
    || c == '\U{0085}'
    || c == '\U{00A0}'
    || c == '\U{1680}'
    || '\U{2000}' <= c <= '\U{200A}'
    || c == '\U{2028}'
    || c == '\U{2029}'
    || c == '\U{202F}'
    || c == '\U{205F}'
    || c == '\U{3000}'
  }

  /** Removes all leading white space. */
  function TrimLeftSpace(s: string): (r: string)
    ensures |r| <= |s| && r == s[|s| - |r|..]
    ensures forall i :: 0 <= i < |s| - |r| ==> IsSpace(s[i])
    ensures r == [] || !IsSpace(r[0])
  {
    if s != [] && IsSpace(s[0]) then TrimLeftSpace(s[1..]) else s
  }

  /** Removes all trailing white space. */
  function TrimRightSpace(s: string): (r: string)
    ensures |r| <= |s| && r == s[..|r|]
    ensures forall i :: |r| <= i < |s| ==> IsSpace(s[i])
    ensures r == [] || !IsSpace(r[|r| - 1])
  {
    if s != [] && IsSpace(s[|s| - 1]) then TrimRightSpace(s[..|s| - 1]) else s
  }

  /** `strings.TrimSpace(s)` */
  function TrimSpace(s: string): string {
    TrimRightSpace(TrimLeftSpace(s))
  }

  /** A string that neither starts nor ends with white space. */
  predicate IsTrimmed(s: string) {
    s == [] || (!IsSpace(s[0]) && !IsSpace(s[|s| - 1]))
  }

  /** `TrimSpace` removes exactly the surrounding white space: what remains
      is trimmed, and a string that is already trimmed is left as it is. */
  lemma TrimSpaceSpec(s: string)
    ensures IsTrimmed(TrimSpace(s))
    ensures IsTrimmed(s) ==> TrimSpace(s) == s
  {
    var l := TrimLeftSpace(s);
    var r := TrimRightSpace(l);
    if r != [] {
      assert r[0] == l[0];
    }
  }

  function Digit(d: nat): (c: char)
    requires d < 10
  {
    ('0' as int + d) as char
  }

  predicate IsDigits(s: string) {
    forall i :: 0 <= i < |s| ==> '0' <= s[i] <= '9'
  }

  /** Go's `%d` and JavaScript's template rendering of a natural number. */
  function NatToString(n: nat): (r: string)
    ensures |r| >= 1 && IsDigits(r)
    ensures |r| > 1 ==> r[0] != '0'
  {
    if n < 10 then [Digit(n)] else NatToString(n / 10) + [Digit(n % 10)]
  }

  /** The number a string of decimal digits denotes. */
  function DecimalValue(s: string): nat
    requires IsDigits(s)
  {
    if s == [] then 0 else DecimalValue(s[..|s| - 1]) * 10 + (s[|s| - 1] as int - '0' as int)
  }

  /** Reading back a rendered number gives the number. */
  lemma {:induction false} NatToStringRoundTrip(n: nat)
    ensures DecimalValue(NatToString(n)) == n
  {
    if n >= 10 {
      NatToStringRoundTrip(n / 10);
      var r := NatToString(n);
      assert r[..|r| - 1] == NatToString(n / 10);
    }
  }

  /** `strings.Join(parts, sep)` / `parts.join(sep)` */
  function Join(parts: seq<string>, sep: string): string {
    if |parts| == 0 then ""
    else if |parts| == 1 then parts[0]
    else parts[0] + sep + Join(parts[1..], sep)
  }

  /** Joining one more part appends a separator and the part. */
  lemma {:induction false} JoinSnoc(parts: seq<string>, sep: string, last: string)
    requires |parts| > 0
    ensures Join(parts + [last], sep) == Join(parts, sep) + sep + last
  {
    if |parts| == 1 {
      assert (parts + [last])[1..] == [last];
    } else {
      assert (parts + [last])[1..] == parts[1..] + [last];
      JoinSnoc(parts[1..], sep, last);
    }
  }
}
