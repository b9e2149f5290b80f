/**
 * The string primitives the PHP code relies on, restricted to ASCII:
 * `strtolower`/`Str::lower`, `strtoupper`, `ucwords`, integer interpolation
 * into strings, `is_numeric` and substring tests.
 */
module Text {

  predicate IsUpper(c: char) { 'A' <= c <= 'Z' }
  predicate IsLower(c: char) { 'a' <= c <= 'z' }
  predicate IsDigit(c: char) { '0' <= c <= '9' }

  function LowerChar(c: char): char {
    if IsUpper(c) then (c as int + 32) as char else c
  }

  function UpperChar(c: char): char {
    if IsLower(c) then (c as int - 32) as char else c
  }

  /** The word separators of PHP's `ucwords` default delimiter list. */
  predicate IsWordDelimiter(c: char) {
    c == ' ' || c == '\t' || c == '\r' || c == '\n' || c == '\U{000C}' || c == '\U{000B}'
  }

  /** ASCII `strtolower`: every letter A-Z becomes a-z, nothing else changes. */
  function Lower(s: string): (r: string)
    ensures |r| == |s|
    ensures forall i :: 0 <= i < |s| ==> r[i] == LowerChar(s[i])
  {
    if s == [] then [] else [LowerChar(s[0])] + Lower(s[1..])
  }

  /** ASCII `strtoupper`. */
  function Upper(s: string): (r: string)
    ensures |r| == |s|
    ensures forall i :: 0 <= i < |s| ==> r[i] == UpperChar(s[i])
  {
    if s == [] then [] else [UpperChar(s[0])] + Upper(s[1..])
  }

  /**
   * ASCII `ucwords`: the first character, and every character that follows a
   * delimiter, is upper-cased; all others are kept. `afterDelimiter` says
   * whether the character before `s` was a delimiter (true at the start).
   */
  function UcWordsFrom(s: string, afterDelimiter: bool): (r: string)
    ensures |r| == |s|
    ensures |s| > 0 ==> r[0] == (if afterDelimiter then UpperChar(s[0]) else s[0])
    ensures forall i :: 0 < i < |s| ==>
      r[i] == (if IsWordDelimiter(s[i - 1]) then UpperChar(s[i]) else s[i])
  {
    if s == [] then []
    else [if afterDelimiter then UpperChar(s[0]) else s[0]] + UcWordsFrom(s[1..], IsWordDelimiter(s[0]))
  }

  function UcWords(s: string): (r: string)
    ensures |r| == |s|
    ensures forall i :: 0 <= i < |s| ==>
      r[i] == (if i == 0 || IsWordDelimiter(s[i - 1]) then UpperChar(s[i]) else s[i])
  {
    UcWordsFrom(s, true)
  }

  lemma LowerOfUpperChar(c: char)
    ensures LowerChar(UpperChar(c)) == LowerChar(c)
  {
  }

  /** Lower-casing twice is lower-casing once. */
  lemma LowerIdempotent(s: string)
    ensures Lower(Lower(s)) == Lower(s)
  {
    assert forall i :: 0 <= i < |s| ==> Lower(Lower(s))[i] == Lower(s)[i];
  }

  /** `ucwords` only changes the case of letters: lower-casing undoes it. */
  lemma LowerUndoesUcWords(s: string)
    ensures Lower(UcWords(s)) == Lower(s)
  {
    forall i | 0 <= i < |s| ensures Lower(UcWords(s))[i] == Lower(s)[i] {
      var u := UcWords(s);
      LowerOfUpperChar(s[i]);
      if i == 0 || IsWordDelimiter(s[i - 1]) {
        assert u[i] == UpperChar(s[i]);
      } else {
        assert u[i] == s[i];
      }
    }
  }

  predicate StartsWith(s: string, prefix: string) {
    |prefix| <= |s| && s[..|prefix|] == prefix
  }

  /** SQL `LIKE '%sub%'` without wildcards inside `sub`: `sub` occurs in `s`. */
  predicate Contains(s: string, sub: string) {
    exists i :: 0 <= i <= |s| - |sub| && StartsWith(s[i..], sub)
  }

  predicate AllDigits(s: string) {
    forall i :: 0 <= i < |s| ==> IsDigit(s[i])
  }

  function DigitChar(d: nat): (c: char)
    requires d < 10
    ensures IsDigit(c)
  {
    ('0' as int + d) as char
  }

  function DigitValue(c: char): (d: nat)
    requires IsDigit(c)
    ensures d < 10
  {
    c as int - '0' as int
  }

  /** Decimal rendering of a natural number, as PHP interpolates an int. */
  function NatToString(n: nat): (r: string)
    ensures |r| > 0 && AllDigits(r)
    decreases n
  {
    if n < 10 then [DigitChar(n)] else NatToString(n / 10) + [DigitChar(n % 10)]
  }

  /** Decimal rendering of an integer, with a leading `-` when negative. */
  function IntToString(i: int): (r: string)
    ensures |r| > 0
    ensures i >= 0 <==> AllDigits(r)
  {
    if i >= 0 then NatToString(i)
    else
      var r := "-" + NatToString(-i);
      assert !IsDigit(r[0]);
      r
  }

  /** The value of a string of decimal digits (most significant first). */
  function ParseDigits(s: string): nat
    requires AllDigits(s)
  {
    if s == [] then 0 else ParseDigits(s[..|s| - 1]) * 10 + DigitValue(s[|s| - 1])
  }

  /** Parsing inverts rendering. */
  lemma {:induction false} ParseNatToString(n: nat)
    ensures ParseDigits(NatToString(n)) == n
    decreases n
  {
    var r := NatToString(n);
    if n >= 10 {
      ParseNatToString(n / 10);
      assert r[..|r| - 1] == NatToString(n / 10);
    }
  }
}
