/**
 * The text form of a board coordinate: a column letter followed by a
 * 1-based row number ("A7"). The row text is read the way
 * Integer.parseInt reads ASCII text: an optional sign, then decimal digits.
 */
module Coords {
  import opened Pieces

  predicate IsDigit(ch: char)
  {
    '0' <= ch <= '9'
  }

  predicate AllDigits(s: string)
  {
    forall i :: 0 <= i < |s| ==> IsDigit(s[i])
  }

  /**
   * The length of s as Java's String.length counts it, in UTF-16 code
   * units: a character above U+FFFF takes two.
   */
  function Utf16Length(s: string): (len: nat)
    ensures |s| <= len <= 2 * |s|
    ensures (forall i :: 0 <= i < |s| ==> s[i] as int < 0x1_0000) ==> len == |s|
  {
    if s == [] then 0
    else Utf16Length(s[..|s| - 1]) + (if s[|s| - 1] as int < 0x1_0000 then 1 else 2)
  }

  /** A character outside the Basic Multilingual Plane counts twice. */
  lemma Utf16LengthExamples()
    ensures Utf16Length("A1") == 2 && Utf16Length("A1\U{1F600}") == 4 && Utf16Length("\U{1F600}") == 2
  {
  }

  /** The value of a string of decimal digits (most significant first). */
  function DigitsValue(s: string): nat
    requires AllDigits(s)
  {
    if s == [] then 0 else 10 * DigitsValue(s[..|s| - 1]) + (s[|s| - 1] as int - '0' as int)
  }

  /** Integer.parseInt on ASCII text: an optional '+' or '-', then one or more digits. */
  function ParseInt(s: string): (r: Option<int>)
    ensures r.Some? <==> (|s| >= 1 && AllDigits(s)) || (|s| >= 2 && (s[0] == '+' || s[0] == '-') && AllDigits(s[1..]))
    ensures r.Some? && s[0] != '-' ==> r.value >= 0
    ensures r.Some? && s[0] == '-' ==> r.value <= 0
    ensures r.Some? && IsDigit(s[0]) ==> r.value == DigitsValue(s)
    ensures r.Some? && !IsDigit(s[0]) ==> r.value == (if s[0] == '-' then -1 else 1) * DigitsValue(s[1..])
  {
    if |s| >= 2 && (s[0] == '-' || s[0] == '+') && AllDigits(s[1..]) then
      var magnitude: int := DigitsValue(s[1..]);
      Some(if s[0] == '-' then -magnitude else magnitude)
    else if |s| >= 1 && AllDigits(s) then
      Some(DigitsValue(s))
    else
      None
  }

  /** The decimal rendering of n, without sign or leading zeros. */
  function Digits(n: nat): (s: string)
    ensures |s| >= 1 && AllDigits(s) && DigitsValue(s) == n
    ensures n < 10 ==> |s| == 1
    ensures 10 <= n < 100 ==> |s| == 2
  {
    if n < 10 then [('0' as int + n) as char]
    else Digits(n / 10) + [('0' as int + n % 10) as char]
  }

  /** Reading back a rendered number gives the number. */
  lemma ParseDigits(n: nat)
    ensures ParseInt(Digits(n)) == Some(n)
  {
    var s := Digits(n);
    assert IsDigit(s[0]);
  }

  /** Leading zeros do not change a digit string's value. */
  lemma {:induction false} LeadingZero(s: string)
    requires AllDigits(s)
    ensures AllDigits("0" + s) && DigitsValue("0" + s) == DigitsValue(s)
  {
    if s != [] {
      var t := "0" + s;
      assert t[..|t| - 1] == "0" + s[..|s| - 1];
      LeadingZero(s[..|s| - 1]);
    }
  }

  /** Signed and zero-padded renderings read back as the signed number. */
  lemma ParseSignedDigits(n: nat)
    ensures ParseInt("+" + Digits(n)) == Some(n)
    ensures ParseInt("-" + Digits(n)) == Some(-(n as int))
    ensures ParseInt("0" + Digits(n)) == Some(n)
  {
    var d := Digits(n);
    assert ("+" + d)[1..] == d && ("-" + d)[1..] == d;
    LeadingZero(d);
  }

  /** The text that names cell (row, col): its column letter and 1-based row number. */
  function FormatCoord(row: nat, col: nat): (coord: string)
    requires col < 26
    ensures |coord| >= 2 && coord[0] as int == 'A' as int + col
    ensures ParseInt(coord[1..]) == Some(row + 1)
    ensures Utf16Length(coord) == |coord|
  {
    ParseDigits(row + 1);
    var coord := [('A' as int + col) as char] + Digits(row + 1);
    assert coord[1..] == Digits(row + 1);
    assert forall i :: 1 <= i < |coord| ==> IsDigit(coord[i]);
    coord
  }
}
