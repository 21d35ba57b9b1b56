/** The few `kotlin.text` operations the modelled code relies on, over `seq<char>`. */
module Text {
  import opened Wrappers

  /** `Char.isWhitespace()`: the Unicode space separators, the line and paragraph
      separators, and the ASCII controls tab, line feed, vertical tab, form feed,
      carriage return and the four information separators. */
  predicate IsWhitespace(c: char) {
    || c == ' ' || c == '\t' || c == '\n' || c == '\U{000B}' || c == '\U{000C}' || c == '\r'
    || ('\U{001C}' <= c <= '\U{001F}')
    || c == '\U{00A0}' || c == '\U{1680}' || ('\U{2000}' <= c <= '\U{200A}')
    || c == '\U{2028}' || c == '\U{2029}' || c == '\U{202F}' || c == '\U{205F}' || c == '\U{3000}'
  }

  /** `CharSequence.isBlank()`: empty or whitespace only. */
  predicate IsBlank(s: string) {
    forall i :: 0 <= i < |s| ==> IsWhitespace(s[i])
  }

  /** `isNullOrBlank()`. */
  predicate IsNullOrBlank(s: Option<string>) {
    s.None? || IsBlank(s.value)
  }

  /** `isNullOrEmpty()` (also `TextUtils.isEmpty`). */
  predicate IsNullOrEmpty(s: Option<string>) {
    s.None? || |s.value| == 0
  }

  /** `s.startsWith(prefix)`. */
  predicate StartsWith(s: string, prefix: string) {
    prefix <= s
  }

  /** `key` occurs in `s` at position `i`. */
  ghost predicate OccursAt(s: string, key: string, i: int) {
    0 <= i && i + |key| <= |s| && s[i..i + |key|] == key
  }

  /** `s.contains(key)`: a left-to-right search for `key`, true when some position holds it. */
  function Contains(s: string, key: string): (r: bool)
    ensures r <==> exists i :: OccursAt(s, key, i)
    decreases |s|
  {
    if key <= s then
      assert OccursAt(s, key, 0);
      true
    else if |s| == 0 then
      assert forall i :: !OccursAt(s, key, i);
      false
    else
      var r := Contains(s[1..], key);
      ShiftOccurrence(s, key);
      r
  }

  /** An occurrence in `s` past the first character is an occurrence in `s[1..]`. */
  lemma ShiftOccurrence(s: string, key: string)
    requires |s| > 0 && !(key <= s)
    ensures (exists i :: OccursAt(s, key, i)) <==> (exists i :: OccursAt(s[1..], key, i))
  {
    if exists i :: OccursAt(s, key, i) {
      var i :| OccursAt(s, key, i);
      assert s[1..][i - 1..i - 1 + |key|] == s[i..i + |key|];
      assert OccursAt(s[1..], key, i - 1);
    }
    if exists i :: OccursAt(s[1..], key, i) {
      var i :| OccursAt(s[1..], key, i);
      assert s[i + 1..i + 1 + |key|] == s[1..][i..i + |key|];
      assert OccursAt(s, key, i + 1);
    }
  }

  const INT_MIN: int := -0x8000_0000
  const INT_MAX: int := 0x7FFF_FFFF

  predicate IsDigit(c: char) {
    '0' <= c <= '9'
  }

  predicate AllDigits(s: string) {
    forall i :: 0 <= i < |s| ==> IsDigit(s[i])
  }

  function DigitValue(c: char): nat
    requires IsDigit(c)
  {
    c as int - '0' as int
  }

  /** The decimal value of a run of ASCII digits. */
  function DigitsValue(s: string): nat
    requires AllDigits(s)
  {
    if |s| == 0 then 0 else DigitsValue(s[..|s| - 1]) * 10 + DigitValue(s[|s| - 1])
  }

  /** `String.toInt()`: an optional `+` or `-`, then at least one decimal digit,
      and a value that fits a 32-bit `Int`; anything else throws (here: `None`). */
  function ParseInt(s: string): (r: Option<int>)
    ensures r.Some? ==> INT_MIN <= r.value <= INT_MAX
    ensures |s| == 0 ==> r.None?
    ensures r.Some? && AllDigits(s) ==> r.value == DigitsValue(s)
    ensures |s| > 0 && AllDigits(s) ==> (r.Some? <==> DigitsValue(s) <= INT_MAX)
    ensures |s| > 1 && s[0] == '+' && AllDigits(s[1..]) ==>
              r == if DigitsValue(s[1..]) <= INT_MAX then Some(DigitsValue(s[1..]) as int) else None
    ensures |s| > 1 && s[0] == '-' && AllDigits(s[1..]) ==>
              r == if DigitsValue(s[1..]) <= -INT_MIN then Some(0 - DigitsValue(s[1..]) as int) else None
    ensures |s| > 0 && !IsDigit(s[0]) && s[0] != '-' && s[0] != '+' ==> r.None?
    ensures |s| > 0 && !AllDigits(s[1..]) ==> r.None?
    ensures s == "-" || s == "+" ==> r.None?
  {
    if |s| == 0 then None
    else
      var signed := s[0] == '-' || s[0] == '+';
      var body := if signed then s[1..] else s;
      if |body| == 0 || !AllDigits(body) then None
      else
        var v: int := if s[0] == '-' then 0 - DigitsValue(body) as int else DigitsValue(body);
        if INT_MIN <= v <= INT_MAX then Some(v) else None
  }

  /** The decimal spelling of a natural number, without leading zeros. */
  function ShowNat(n: nat): (s: string)
    ensures |s| > 0 && AllDigits(s)
  {
    if n < 10 then [('0' as int + n) as char]
    else ShowNat(n / 10) + [('0' as int + n % 10) as char]
  }

  /** `Int.toString()`. */
  function ShowInt(v: int): string {
    if v < 0 then "-" + ShowNat(-v) else ShowNat(v)
  }

  lemma {:induction false} ShowNatValue(n: nat)
    ensures DigitsValue(ShowNat(n)) == n
  {
    var s := ShowNat(n);
    if n >= 10 {
      ShowNatValue(n / 10);
      assert s[..|s| - 1] == ShowNat(n / 10);
    }
  }

  /** Reading back what `Int.toString()` printed gives the same number. */
  lemma ParseShowInt(v: int)
    requires INT_MIN <= v <= INT_MAX
    ensures ParseInt(ShowInt(v)) == Some(v)
  {
    if v < 0 {
      ShowNatValue(-v);
      assert ShowInt(v)[1..] == ShowNat(-v);
    } else {
      ShowNatValue(v);
    }
  }
}
