/**
 * The Python built-ins the book catalogue leans on, stated over plain values:
 * `str.isdigit`, the `\s` class of `re`, `str(int)`, `int(str)`, the values a
 * record dictionary holds, and a dictionary filled pair by pair.
 */
module Builtins {
  import opened Wrappers

  /** An ASCII decimal digit. */
  predicate IsDigit(c: char) {
    '0' <= c <= '9'
  }

  /** `s.isdigit()` restricted to ASCII digits: false on the empty string. */
  predicate IsDigitString(s: string) {
    |s| > 0 && forall i :: 0 <= i < |s| ==> IsDigit(s[i])
  }

  /** The characters `\s` matches in a `str` pattern (those for which `str.isspace()` holds). */
  predicate IsSpace(c: char) {
    || ('\U{9}' <= c <= '\U{D}')
    || ('\U{1C}' <= c <= '\U{20}')
    || c == '\U{85}' || c == '\U{A0}' || c == '\U{1680}'
    || ('\U{2000}' <= c <= '\U{200A}')
    || c == '\U{2028}' || c == '\U{2029}' || c == '\U{202F}' || c == '\U{205F}' || c == '\U{3000}'
  }

  function DigitChar(d: nat): (c: char)
    requires d < 10
    ensures IsDigit(c)
  {
    ('0' as int + d) as char
  }

  function DigitValue(c: char): (d: nat)
    requires IsDigit(c)
    ensures d < 10 && DigitChar(d) == c
  {
    c as int - '0' as int
  }

  /** Decimal digits of `n`, most significant first, without leading zeros. */
  function NatToString(n: nat): string
    decreases n
  {
    if n < 10 then [DigitChar(n)] else NatToString(n / 10) + [DigitChar(n % 10)]
  }

  /** The number a string of decimal digits denotes (0 for the empty string). */
  function DigitsValue(s: string): nat
    requires forall i :: 0 <= i < |s| ==> IsDigit(s[i])
    decreases |s|
  {
    if s == [] then 0 else DigitsValue(s[..|s| - 1]) * 10 + DigitValue(s[|s| - 1])
  }

  /** `str(i)` for an `int`. */
  function IntToString(i: int): string {
    if i < 0 then "-" + NatToString(-i) else NatToString(i)
  }

  /**
   * `int(s)` for a `str`: an optional sign followed by at least one decimal digit;
   * anything else is the `ValueError` case.
   */
  function ParseInt(s: string): Option<int> {
    if |s| > 0 && (s[0] == '-' || s[0] == '+') then
      if IsDigitString(s[1..]) then
        var n: int := DigitsValue(s[1..]);
        Some(if s[0] == '-' then -n else n)
      else None
    else if IsDigitString(s) then Some(DigitsValue(s))
    else None
  }

  lemma {:induction false} NatToStringValue(n: nat)
    ensures IsDigitString(NatToString(n))
    ensures DigitsValue(NatToString(n)) == n
    decreases n
  {
    if n >= 10 {
      NatToStringValue(n / 10);
      var s := NatToString(n / 10);
      var t := s + [DigitChar(n % 10)];
      assert t[..|t| - 1] == s;
    }
  }

  /** `int(str(i)) == i` for every integer. */
  lemma ParseIntOfIntToString(i: int)
    ensures ParseInt(IntToString(i)) == Some(i)
  {
    if i < 0 {
      NatToStringValue(-i);
      var s := IntToString(i);
      assert s[1..] == NatToString(-i);
    } else {
      NatToStringValue(i);
    }
  }

  /** A value a record dictionary holds: `None`, a `str` or an `int`. */
  datatype Value = Null | Str(s: string) | Int(i: int)

  /** `str(v)`. */
  function PyStr(v: Value): string {
    match v
    case Null => "None"
    case Str(s) => s
    case Int(i) => IntToString(i)
  }

  /** A text column's conversion of a value: `None` stays `None`, anything else becomes `str(v)`. */
  function ToText(v: Value): Option<string> {
    match v
    case Null => None
    case Str(s) => Some(s)
    case Int(i) => Some(IntToString(i))
  }

  /** `int(v)`: `None` on the `TypeError` and `ValueError` cases. */
  function ToInt(v: Value): Option<int> {
    match v
    case Null => None
    case Str(s) => ParseInt(s)
    case Int(i) => Some(i)
  }

  /** An optional text as a dictionary value. */
  function OptText(o: Option<string>): Value {
    match o
    case None => Null
    case Some(s) => Str(s)
  }

  /** An optional integer as a dictionary value. */
  function OptInt(o: Option<int>): Value {
    match o
    case None => Null
    case Some(i) => Int(i)
  }

  /** `ToInt` and `ToText` undo `str(...)` of every non-`None` value that came from a text or an integer column. */
  lemma ConversionsRoundTrip(v: Value)
    ensures v.Int? ==> ToInt(Str(PyStr(v))) == Some(v.i)
    ensures v.Str? ==> ToText(Str(PyStr(v))) == Some(v.s)
  {
    if v.Int? {
      ParseIntOfIntToString(v.i);
    }
  }

  type Pairs = seq<(string, Value)>

  /** A dictionary filled by `d[k] = v` for each pair in order: a later pair overrides an earlier one with the same key. */
  function ToFieldMap(pairs: Pairs): map<string, Value>
    decreases |pairs|
  {
    if pairs == [] then map[]
    else ToFieldMap(pairs[..|pairs| - 1])[pairs[|pairs| - 1].0 := pairs[|pairs| - 1].1]
  }

  /** The keys of the dictionary are exactly the keys of the pairs. */
  lemma {:induction false} ToFieldMapKeys(pairs: Pairs)
    ensures forall k :: k in ToFieldMap(pairs) <==> exists i :: 0 <= i < |pairs| && pairs[i].0 == k
    decreases |pairs|
  {
    if pairs != [] {
      var init := pairs[..|pairs| - 1];
      ToFieldMapKeys(init);
      forall k | k in ToFieldMap(pairs)
        ensures exists i :: 0 <= i < |pairs| && pairs[i].0 == k
      {
        if k != pairs[|pairs| - 1].0 {
          assert k in ToFieldMap(init);
          var i :| 0 <= i < |init| && init[i].0 == k;
          assert pairs[i].0 == k;
        }
      }
      forall k | exists i :: 0 <= i < |pairs| && pairs[i].0 == k
        ensures k in ToFieldMap(pairs)
      {
        var i :| 0 <= i < |pairs| && pairs[i].0 == k;
        if i < |init| {
          assert init[i].0 == k;
        }
      }
    }
  }

  /** A key maps to the value of the last pair that carries it. */
  lemma {:induction false} ToFieldMapLastWins(pairs: Pairs, i: nat)
    requires i < |pairs|
    requires forall j :: i < j < |pairs| ==> pairs[j].0 != pairs[i].0
    ensures pairs[i].0 in ToFieldMap(pairs) && ToFieldMap(pairs)[pairs[i].0] == pairs[i].1
    decreases |pairs|
  {
    if i < |pairs| - 1 {
      var init := pairs[..|pairs| - 1];
      ToFieldMapLastWins(init, i);
    }
  }
}
