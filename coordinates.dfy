/// Coordinate text: a shot is written as a row letter A..J followed by the
/// 1-based column number (`A5`, `J10`), and an opponent's reply is read back
/// with the pattern `([A-J])(\d+)`, leftmost match, digits taken greedily,
/// the row being the letter's code minus 65 and the column the decimal value
/// minus one.
module Coordinates {
  import opened Board

  predicate IsRowLetter(ch: char) {
    'A' <= ch <= 'J'
  }

  predicate IsDigit(ch: char) {
    '0' <= ch <= '9'
  }

  /** `String.fromCharCode(65 + row)`. */
  function RowLetter(row: int): (ch: char)
    requires 0 <= row < Size
    ensures IsRowLetter(ch) && ch as int - 65 == row
  {
    (65 + row) as char
  }

  function DigitChar(d: int): (ch: char)
    requires 0 <= d < 10
    ensures IsDigit(ch) && ch as int - 48 == d
  {
    (48 + d) as char
  }

  /** The decimal text of a non-negative number, as a template literal writes it. */
  function Decimal(n: nat): (s: string)
    ensures |s| > 0
    ensures forall i :: 0 <= i < |s| ==> IsDigit(s[i])
    ensures n < 10 ==> |s| == 1
    ensures 10 <= n < 100 ==> |s| == 2
  {
    if n < 10 then [DigitChar(n)] else Decimal(n / 10) + [DigitChar(n % 10)]
  }

  function DigitOf(ch: char): (d: nat)
    requires IsDigit(ch)
    ensures d < 10
  {
    ch as int - '0' as int
  }

  /** `parseInt` of a run of decimal digits. */
  function DigitsValue(s: string): nat
    requires forall i :: 0 <= i < |s| ==> IsDigit(s[i])
  {
    if s == [] then 0 else DigitsValue(s[..|s| - 1]) * 10 + DigitOf(s[|s| - 1])
  }

  /** Reading back the decimal text of a number gives the number. */
  lemma {:induction false} DecimalRoundTrip(n: nat)
    ensures DigitsValue(Decimal(n)) == n
  {
    if n >= 10 {
      var s := Decimal(n);
      assert s[..|s| - 1] == Decimal(n / 10);
      DecimalRoundTrip(n / 10);
    }
  }

  /** `${String.fromCharCode(65 + row)}${col + 1}`. */
  function FormatCoord(c: Coord): (s: string)
    requires InRange(c)
    ensures 2 <= |s| <= 3
    ensures IsRowLetter(s[0])
    ensures forall i :: 1 <= i < |s| ==> IsDigit(s[i])
  {
    [RowLetter(c.row)] + Decimal(c.col + 1)
  }

  /** The pattern `([A-J])(\d+)` can start at position `i` of `s`. */
  predicate MatchesAt(s: string, i: int) {
    0 <= i && i + 1 < |s| && IsRowLetter(s[i]) && IsDigit(s[i + 1])
  }

  /** The leftmost position at or after `from` where the pattern matches. */
  function FindMatch(s: string, from: nat): (r: Option<nat>)
    ensures r.Some? ==> from <= r.value && MatchesAt(s, r.value)
    ensures r.Some? ==> forall j :: from <= j < r.value ==> !MatchesAt(s, j)
    ensures r.None? ==> forall j :: from <= j < |s| ==> !MatchesAt(s, j)
    decreases |s| - from
  {
    if from + 1 >= |s| then None
    else if MatchesAt(s, from) then Some(from)
    else FindMatch(s, from + 1)
  }

  /** End of the greedy digit run `\d+` that starts at position `i`. */
  function DigitsEnd(s: string, i: nat): (e: nat)
    requires i <= |s|
    ensures i <= e <= |s|
    ensures forall k :: i <= k < e ==> IsDigit(s[k])
    ensures e == |s| || !IsDigit(s[e])
    decreases |s| - i
  {
    if i < |s| && IsDigit(s[i]) then DigitsEnd(s, i + 1) else i
  }

  /** The row and column an opponent's shot text names, before any range
      check: `None` when the pattern does not occur. */
  function ParseShot(s: string): (r: Option<Coord>)
    ensures r.Some? <==> exists i :: MatchesAt(s, i)
    ensures r.Some? ==> 0 <= r.value.row < Size && r.value.col >= -1
    ensures r.Some? ==>
              exists i :: && MatchesAt(s, i)
                          && (forall j :: 0 <= j < i ==> !MatchesAt(s, j))
                          && r.value == Coord(s[i] as int - 65, DigitsValue(s[i + 1..DigitsEnd(s, i + 1)]) - 1)
  {
    match FindMatch(s, 0)
    case None => None
    case Some(i) =>
      var e := DigitsEnd(s, i + 1);
      Some(Coord(s[i] as int - 65, DigitsValue(s[i + 1..e]) - 1))
  }

  /** Formatting a coordinate and parsing the text gives the coordinate back. */
  lemma FormatParseRoundTrip(c: Coord)
    requires InRange(c)
    ensures ParseShot(FormatCoord(c)) == Some(c)
  {
    var s := FormatCoord(c);
    assert MatchesAt(s, 0);
    assert FindMatch(s, 0) == Some(0);
    var e := DigitsEnd(s, 1);
    assert e == |s|;
    assert s[1..e] == Decimal(c.col + 1);
    DecimalRoundTrip(c.col + 1);
    assert s[0] as int - 65 == c.row;
  }

  /** Two different cells are never written the same way. */
  lemma FormatInjective(a: Coord, b: Coord)
    requires InRange(a) && InRange(b)
    ensures FormatCoord(a) == FormatCoord(b) ==> a == b
  {
    FormatParseRoundTrip(a);
    FormatParseRoundTrip(b);
  }
}
