// Decimal integers as the controller prints and reads them: strconv.Itoa,
// strconv.Atoi and strconv.ParseInt(s, 10, 32).
module Decimal {
  import opened Wrappers

  const MIN_INT32: int := -0x8000_0000
  const MAX_INT32: int := 0x7fff_ffff

  predicate IsInt32(n: int) {
    MIN_INT32 <= n <= MAX_INT32
  }

  predicate IsDigit(c: char) {
    '0' <= c <= '9'
  }

  function DigitValue(c: char): (d: nat)
    requires IsDigit(c)
    ensures d < 10
  {
    c as int - '0' as int
  }

  function DigitChar(d: nat): (c: char)
    requires d < 10
    ensures IsDigit(c) && DigitValue(c) == d
  {
    ('0' as int + d) as char
  }

  /** The digits of a natural number, most significant first, without leading zeros. */
  function PrintNat(n: nat): (s: string)
    ensures s != []
    ensures forall i :: 0 <= i < |s| ==> IsDigit(s[i])
  {
    if n < 10 then [DigitChar(n)] else PrintNat(n / 10) + [DigitChar(n % 10)]
  }

  /** strconv.Itoa */
  function Itoa(n: int): (s: string)
    ensures s != []
  {
    if n < 0 then "-" + PrintNat(-n) else PrintNat(n)
  }

  /** The value of a non-empty run of digits, None for anything else. */
  function ParseNat(s: string): (r: Option<nat>)
  {
    if s == [] || !IsDigit(s[|s| - 1]) then None
    else if |s| == 1 then Some(DigitValue(s[0]))
    else
      match ParseNat(s[..|s| - 1])
      case None => None
      case Some(n) => Some(10 * n + DigitValue(s[|s| - 1]))
  }

  /** strconv.Atoi, for values of any size: an optional sign, then digits. */
  function Atoi(s: string): (r: Option<int>)
  {
    if s != [] && (s[0] == '-' || s[0] == '+') then
      match ParseNat(s[1..])
      case None => None
      case Some(n) => var magnitude: int := n; Some(if s[0] == '-' then -magnitude else magnitude)
    else
      match ParseNat(s)
      case None => None
      case Some(n) => Some(n)
  }

  /** strconv.ParseInt(s, 10, 32): out of range is an error, as a syntax error is. */
  function ParseInt32(s: string): (r: Option<int>)
    ensures r.Some? ==> IsInt32(r.value)
  {
    match Atoi(s)
    case Some(n) => if IsInt32(n) then Some(n) else None
    case None => None
  }

  predicate AllDigits(s: string) {
    s != [] && forall i :: 0 <= i < |s| ==> IsDigit(s[i])
  }

  lemma {:induction false} DigitsParse(s: string)
    ensures ParseNat(s).Some? <==> AllDigits(s)
  {
    if |s| > 1 {
      DigitsParse(s[..|s| - 1]);
      if AllDigits(s[..|s| - 1]) && IsDigit(s[|s| - 1]) {
        forall i | 0 <= i < |s| ensures IsDigit(s[i]) { if i < |s| - 1 { assert s[..|s| - 1][i] == s[i]; } }
      }
    }
  }

  /** A text reads as an integer if and only if it is digits behind at most one sign, and the
      sign is read. */
  lemma AtoiExactly(s: string)
    ensures Atoi(s).Some? <==> AllDigits(s) || (s != [] && (s[0] == '+' || s[0] == '-') && AllDigits(s[1..]))
    ensures s != [] && (s[0] == '+' || s[0] == '-') && AllDigits(s[1..]) ==>
              Atoi(s[1..]).Some? && Atoi(s[1..]).value >= 0 &&
              Atoi(s) == Some(if s[0] == '-' then -Atoi(s[1..]).value else Atoi(s[1..]).value)
  {
    DigitsParse(s);
    if s != [] { DigitsParse(s[1..]); }
  }

  lemma {:induction false} PrintThenParseNat(n: nat)
    ensures ParseNat(PrintNat(n)) == Some(n)
  {
    if n >= 10 {
      PrintThenParseNat(n / 10);
      var s := PrintNat(n);
      assert s[..|s| - 1] == PrintNat(n / 10);
    }
  }

  lemma PrintNatStartsWithDigit(n: nat)
    ensures PrintNat(n)[0] != '-' && PrintNat(n)[0] != '+'
  {
    assert IsDigit(PrintNat(n)[0]);
  }

  /** Printing an integer and reading it back is the identity. */
  lemma AtoiInvertsItoa(n: int)
    ensures Atoi(Itoa(n)) == Some(n)
  {
    var s := Itoa(n);
    if n < 0 {
      PrintThenParseNat(-n);
      assert s[0] == '-' && s[1..] == PrintNat(-n);
      assert ParseNat(s[1..]) == Some(-n);
    } else {
      PrintThenParseNat(n);
      PrintNatStartsWithDigit(n);
      assert ParseNat(s) == Some(n);
    }
  }

  lemma ParseInt32InvertsItoa(n: int)
    ensures ParseInt32(Itoa(n)) == (if IsInt32(n) then Some(n) else None)
  {
    AtoiInvertsItoa(n);
  }

  lemma ItoaInjective(m: int, n: int)
    requires Itoa(m) == Itoa(n)
    ensures m == n
  {
    AtoiInvertsItoa(m);
    AtoiInvertsItoa(n);
  }
}
