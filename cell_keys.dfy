/**
 * History keys of the Battleship map. A cell (col, row) is recorded as the
 * string `col + "|" + row`, where each integer is rendered the way JavaScript
 * renders an integral number: decimal digits, with a leading '-' when negative.
 * The parser below is the inverse of that rendering; the round trip shows that
 * two different cells never share a key, so a set of keys is a set of cells.
 */
module CellKeys {
  import opened Wrappers

  predicate IsDigit(c: char) { '0' <= c <= '9' }

  predicate AllDigits(s: string) { forall i :: 0 <= i < |s| ==> IsDigit(s[i]) }

  function DigitChar(d: nat): (c: char)
    requires d < 10
    ensures IsDigit(c)
  {
    ('0' as int + d) as char
  }

  function DigitValue(c: char): (d: nat)
    requires IsDigit(c)
    ensures d < 10
  {
    c as int - '0' as int
  }

  /** Decimal digits of a non-negative integer, most significant first, no leading zeros. */
  function NatToDecimal(n: nat): (s: string)
    ensures |s| >= 1 && AllDigits(s)
    decreases n
  {
    if n < 10 then [DigitChar(n)] else NatToDecimal(n / 10) + [DigitChar(n % 10)]
  }

  function ParseNat(s: string): nat
    requires AllDigits(s)
  {
    if s == [] then 0 else ParseNat(s[..|s| - 1]) * 10 + DigitValue(s[|s| - 1])
  }

  lemma {:induction false} ParseNatRoundTrip(n: nat)
    ensures ParseNat(NatToDecimal(n)) == n
    decreases n
  {
    if n >= 10 {
      var s := NatToDecimal(n);
      assert s[..|s| - 1] == NatToDecimal(n / 10);
      ParseNatRoundTrip(n / 10);
    }
  }

  /** JavaScript's rendering of an integral number. */
  function IntToDecimal(i: int): (s: string)
    ensures |s| >= 1 && '|' !in s
  {
    if i < 0 then "-" + NatToDecimal(-i) else NatToDecimal(i)
  }

  function ParseInt(s: string): Option<int> {
    if |s| >= 2 && s[0] == '-' && AllDigits(s[1..]) then var n: int := ParseNat(s[1..]); Some(-n)
    else if |s| >= 1 && AllDigits(s) then Some(ParseNat(s))
    else None
  }

  lemma ParseIntRoundTrip(i: int)
    ensures ParseInt(IntToDecimal(i)) == Some(i)
  {
    var s := IntToDecimal(i);
    if i < 0 {
      assert s[1..] == NatToDecimal(-i);
      ParseNatRoundTrip(-i);
    } else {
      ParseNatRoundTrip(i);
    }
  }

  /** The key `col|row` under which radar and shot histories record a cell. */
  function CellKey(ixCol: int, ixRow: int): string {
    IntToDecimal(ixCol) + "|" + IntToDecimal(ixRow)
  }

  /** Position of the first occurrence of `ch` in `s`. */
  function IndexOf(s: string, ch: char): (r: Option<nat>)
    ensures r.Some? ==> r.value < |s| && s[r.value] == ch && ch !in s[..r.value]
    ensures r.None? ==> ch !in s
  {
    if s == [] then None
    else if s[0] == ch then Some(0)
    else match IndexOf(s[1..], ch)
      case None => None
      case Some(i) => assert s[..i + 1] == [s[0]] + s[1..][..i]; Some(i + 1)
  }

  /** Reads a history key back into the cell it names. */
  function ParseCellKey(key: string): Option<(int, int)> {
    match IndexOf(key, '|')
    case None => None
    case Some(bar) =>
      match (ParseInt(key[..bar]), ParseInt(key[bar + 1..]))
      case (Some(c), Some(r)) => Some((c, r))
      case _ => None
  }

  lemma CellKeyRoundTrip(ixCol: int, ixRow: int)
    ensures ParseCellKey(CellKey(ixCol, ixRow)) == Some((ixCol, ixRow))
  {
    var a, b := IntToDecimal(ixCol), IntToDecimal(ixRow);
    var key := CellKey(ixCol, ixRow);
    assert key[..|a|] == a;
    assert key[|a|] == '|';
    assert key[|a| + 1..] == b;
    var idx := IndexOf(key, '|');
    assert idx == Some(|a|);
    ParseIntRoundTrip(ixCol);
    ParseIntRoundTrip(ixRow);
  }

  /** Two cells share a history key exactly when they are the same cell. */
  lemma CellKeyInjective(c1: int, r1: int, c2: int, r2: int)
    ensures CellKey(c1, r1) == CellKey(c2, r2) <==> c1 == c2 && r1 == r2
  {
    CellKeyRoundTrip(c1, r1);
    CellKeyRoundTrip(c2, r2);
  }
}
