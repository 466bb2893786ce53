/**
 * The handful of Python `str` operations the client relies on, stated on
 * `seq<char>`: `isspace`/`strip`, `upper`/`lower`, `startswith`, the `in`
 * substring test, `replace(old, "")`, `split(sep)[0]` and `int(text)`.
 */
module Text {
  import opened Wrappers

  /** The characters for which Python's `str.isspace()` holds. */
  predicate IsSpace(c: char) {
    c == ' ' || ('\t' <= c <= '\r') || ('\U{1C}' <= c <= '\U{1F}')
    || c == '\U{85}' || c == '\U{A0}' || c == '\U{1680}'
    || ('\U{2000}' <= c <= '\U{200A}') || c == '\U{2028}' || c == '\U{2029}'
    || c == '\U{202F}' || c == '\U{205F}' || c == '\U{3000}'
  }

  /** `s.lstrip()`. */
  function TrimStart(s: string): (r: string)
    ensures |r| <= |s|
  {
    if |s| > 0 && IsSpace(s[0]) then TrimStart(s[1..]) else s
  }

  /** `s.rstrip()`. */
  function TrimEnd(s: string): (r: string)
    ensures |r| <= |s|
  {
    if |s| > 0 && IsSpace(s[|s| - 1]) then TrimEnd(s[..|s| - 1]) else s
  }

  /** `s.strip()`. */
  function Strip(s: string): (r: string)
    ensures |r| <= |s|
  {
    TrimEnd(TrimStart(s))
  }

  /** `lstrip` drops the leading white space and nothing else. */
  lemma {:induction false} TrimStartMeaning(s: string)
    ensures var r := TrimStart(s);
            r == s[|s| - |r|..] && (r == [] || !IsSpace(r[0]))
            && forall i :: 0 <= i < |s| - |r| ==> IsSpace(s[i])
  {
    if |s| > 0 && IsSpace(s[0]) {
      TrimStartMeaning(s[1..]);
    }
  }

  /** `rstrip` drops the trailing white space and nothing else. */
  lemma {:induction false} TrimEndMeaning(s: string)
    ensures var r := TrimEnd(s);
            r == s[..|r|] && (r == [] || !IsSpace(r[|r| - 1]))
            && forall i :: |r| <= i < |s| ==> IsSpace(s[i])
  {
    if |s| > 0 && IsSpace(s[|s| - 1]) {
      TrimEndMeaning(s[..|s| - 1]);
    }
  }

  /**
   * `strip` leaves no white space at either end, and leaves a string that
   * has none there as it is.
   */
  lemma {:induction false} StripMeaning(s: string)
    ensures var r := Strip(s);
            r == [] || (!IsSpace(r[0]) && !IsSpace(r[|r| - 1]))
    ensures (s == [] || (!IsSpace(s[0]) && !IsSpace(s[|s| - 1]))) ==> Strip(s) == s
  {
    var t := TrimStart(s);
    TrimStartMeaning(s);
    TrimEndMeaning(t);
    var r := TrimEnd(t);
    if r != [] {
      assert r[0] == t[0];
    }
  }

  /**
   * One character of `str.upper()`, as far as it can decide equality with an
   * ASCII word: the ASCII letters, and the only two other characters whose
   * upper case is an ASCII letter (dotless i and long s).
   */
  function UpperChar(c: char): char {
    if 'a' <= c <= 'z' then (c as int - 32) as char
    else if c == '\U{131}' then 'I'
    else if c == '\U{17F}' then 'S'
    else c
  }

  function Upper(s: string): (r: string)
    ensures |r| == |s|
  {
    seq(|s|, i requires 0 <= i < |s| => UpperChar(s[i]))
  }

  /** One character of `str.lower()` on ASCII letters. */
  function LowerChar(c: char): char {
    if 'A' <= c <= 'Z' then (c as int + 32) as char else c
  }

  function Lower(s: string): (r: string)
    ensures |r| == |s|
  {
    seq(|s|, i requires 0 <= i < |s| => LowerChar(s[i]))
  }

  /** `s.startswith(p)`. */
  predicate StartsWith(s: string, p: string) {
    |p| <= |s| && s[..|p|] == p
  }

  /** `p in s` for strings: `p` occurs somewhere in `s`. */
  predicate Contains(s: string, p: string)
    decreases |s|
  {
    StartsWith(s, p) || (|s| > 0 && Contains(s[1..], p))
  }

  /** An occurrence at a known offset is an occurrence. */
  lemma {:induction false} ContainsAt(s: string, p: string, i: nat)
    requires i + |p| <= |s| && s[i..i + |p|] == p
    ensures Contains(s, p)
    decreases i
  {
    if i > 0 {
      assert s[1..][i - 1..i - 1 + |p|] == s[i..i + |p|];
      ContainsAt(s[1..], p, i - 1);
    }
  }

  /** `s.replace(p, "")`: every occurrence, scanning left to right without overlap. */
  function RemoveAll(s: string, p: string): (r: string)
    requires p != []
    ensures |r| <= |s|
    decreases |s|
  {
    if |s| == 0 then s
    else if StartsWith(s, p) then RemoveAll(s[|p|..], p)
    else [s[0]] + RemoveAll(s[1..], p)
  }

  /** A string without an occurrence is left as it is. */
  lemma {:induction false} RemoveAllAbsent(s: string, p: string)
    requires p != [] && !Contains(s, p)
    ensures RemoveAll(s, p) == s
    decreases |s|
  {
    if |s| > 0 {
      RemoveAllAbsent(s[1..], p);
      assert [s[0]] + s[1..] == s;
    }
  }

  /** `s.split(c)[0]`: the text before the first `c`, or all of `s`. */
  function BeforeFirst(s: string, c: char): (r: string)
    ensures |r| <= |s| && r == s[..|r|]
    ensures c !in r
    ensures |r| < |s| ==> s[|r|] == c
  {
    if |s| == 0 || s[0] == c then [] else [s[0]] + BeforeFirst(s[1..], c)
  }

  predicate IsDigit(c: char) {
    '0' <= c <= '9'
  }

  /** The body of a base-10 literal for `int()`: digits, single underscores between digits. */
  predicate DigitGroups(d: string) {
    && |d| > 0 && IsDigit(d[0]) && IsDigit(d[|d| - 1])
    && (forall i :: 0 <= i < |d| ==> IsDigit(d[i]) || d[i] == '_')
    && (forall i :: 0 <= i < |d| - 1 ==> d[i] == '_' ==> d[i + 1] != '_')
  }

  /** The value of digits and underscores, the underscores ignored. */
  function DigitsValue(d: string): nat
    requires forall i :: 0 <= i < |d| ==> IsDigit(d[i]) || d[i] == '_'
  {
    if |d| == 0 then 0
    else if d[|d| - 1] == '_' then DigitsValue(d[..|d| - 1])
    else 10 * DigitsValue(d[..|d| - 1]) + DigitValue(d[|d| - 1])
  }

  function DigitValue(c: char): nat
    requires IsDigit(c)
  {
    c as int - '0' as int
  }

  /** Python's `int(text)` in base 10 with ASCII digits; `None` where it raises `ValueError`. */
  function ParseInt(text: string): Option<int> {
    var t := Strip(text);
    if |t| > 0 && (t[0] == '+' || t[0] == '-') then
      if DigitGroups(t[1..]) then
        var magnitude: int := DigitsValue(t[1..]);
        Some(if t[0] == '-' then -magnitude else magnitude)
      else None
    else if DigitGroups(t) then Some(DigitsValue(t))
    else None
  }

  /** `str(n)` for a natural number. */
  function NatDecimal(n: nat): (r: string)
    ensures |r| > 0 && forall i :: 0 <= i < |r| ==> IsDigit(r[i])
  {
    if n < 10 then [('0' as int + n) as char]
    else NatDecimal(n / 10) + [('0' as int + n % 10) as char]
  }

  /** `str(n)`. */
  function Decimal(n: int): string {
    if n < 0 then "-" + NatDecimal(-n) else NatDecimal(n)
  }

  lemma {:induction false} NatDecimalValue(n: nat)
    ensures DigitGroups(NatDecimal(n)) && DigitsValue(NatDecimal(n)) == n
  {
    var d := NatDecimal(n);
    if n >= 10 {
      NatDecimalValue(n / 10);
      assert d[..|d| - 1] == NatDecimal(n / 10);
    }
  }

  /** What `str()` writes has no white space at either end. */
  lemma {:induction false} DecimalIsStripped(n: int)
    ensures Strip(Decimal(n)) == Decimal(n)
  {
    var s := Decimal(n);
    assert !IsSpace(s[0]) && !IsSpace(s[|s| - 1]);
    StripMeaning(s);
  }

  /** `int(str(n)) == n`: what `int()` reads back is what `str()` wrote. */
  lemma {:induction false} ParseDecimal(n: int)
    ensures ParseInt(Decimal(n)) == Some(n)
  {
    var s := Decimal(n);
    DecimalIsStripped(n);
    if n < 0 {
      var d := NatDecimal(-n);
      NatDecimalValue(-n);
      assert s[0] == '-' && s[1..] == d;
    } else {
      NatDecimalValue(n);
      assert IsDigit(s[0]);
    }
  }
}
