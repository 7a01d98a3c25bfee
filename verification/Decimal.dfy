/** Decimal shard IDs: strconv.Itoa on the numbers in use, and strconv.Atoi with its errors. */
module Decimal {
  import opened Options

  /** The range of Go's int on the platforms the operator is built for. */
  const INT_MAX := 0x7FFF_FFFF_FFFF_FFFF

  function Digit(d: int): (c: char)
    requires 0 <= d < 10
    ensures IsDigit(c) && DigitValue(c) == d
  {
    '0' + d as char
  }

  predicate IsDigit(c: char) {
    '0' <= c <= '9'
  }

  function DigitValue(c: char): (d: int)
    requires IsDigit(c)
    ensures 0 <= d < 10
  {
    c as int - '0' as int
  }

  function Itoa(n: nat): (s: string)
    ensures |s| > 0 && IsDigit(s[0])
  {
    if n < 10 then [Digit(n)] else Itoa(n / 10) + [Digit(n % 10)]
  }

  /** strconv.Itoa of n + 1, where n is an int and the sum wraps. */
  function PrintSuccessor(n: int): string {
    var m := if n + 1 > INT_MAX then n + 1 - 0x1_0000_0000_0000_0000 else n + 1;
    if m < 0 then "-" + Itoa(-m) else Itoa(m)
  }

  /** The value of a string of digits, if it is one. */
  function Digits(s: string): (r: Option<int>)
    ensures r.Some? ==> r.value >= 0
  {
    if |s| == 0 then Some(0)
    else if !IsDigit(s[|s| - 1]) then None
    else
      match Digits(s[..|s| - 1])
      case None => None
      case Some(high) => Some(10 * high + DigitValue(s[|s| - 1]))
  }

  /** An optional sign and at least one digit, within the range of int. */
  function Atoi(s: string): (r: Option<int>)
    ensures r.Some? ==> -INT_MAX - 1 <= r.value <= INT_MAX
  {
    var signed := |s| > 0 && (s[0] == '-' || s[0] == '+');
    var digits := if signed then s[1..] else s;
    if |digits| == 0 then None
    else
      match Digits(digits)
      case None => None
      case Some(n) =>
        if signed && s[0] == '-' then (if n <= INT_MAX + 1 then Some(-n) else None)
        else if n <= INT_MAX then Some(n) else None
  }

  lemma {:induction false} DigitsItoa(n: nat)
    ensures Digits(Itoa(n)) == Some(n)
  {
    var s := Itoa(n);
    if n < 10 {
      assert s[..0] == [];
    } else {
      DigitsItoa(n / 10);
      assert s[..|s| - 1] == Itoa(n / 10);
    }
  }

  /** Parsing a printed shard number gives it back. */
  lemma AtoiItoa(n: nat)
    requires n <= INT_MAX
    ensures Atoi(Itoa(n)) == Some(n)
  {
    DigitsItoa(n);
  }

  /** What is printed for the successor of an int is the next int, the largest being followed by the smallest. */
  lemma SuccessorReads(n: int)
    requires -1 <= n <= 0x7FFF_FFFF_FFFF_FFFF
    ensures Atoi(PrintSuccessor(n)) == Some(if n == 0x7FFF_FFFF_FFFF_FFFF then -0x8000_0000_0000_0000 else n + 1)
  {
    var m := if n == INT_MAX then 0x8000_0000_0000_0000 else n + 1;
    DigitsItoa(m);
    assert ("-" + Itoa(m))[1..] == Itoa(m);
  }

  lemma ItoaInjective(m: nat, n: nat)
    requires Itoa(m) == Itoa(n)
    ensures m == n
  {
    DigitsItoa(m);
    DigitsItoa(n);
  }

  // ---------------------------------------------------------------------------------------------------------------
  // Place values
  // ---------------------------------------------------------------------------------------------------------------

  function TenTo(k: nat): nat {
    if k == 0 then 1 else 10 * TenTo(k - 1)
  }

  predicate AllDigits(s: string) {
    forall i :: 0 <= i < |s| ==> '0' <= s[i] <= '9'
  }

  /** The value of a decimal numeral by the place of each digit, the first counting most. */
  function PlaceValue(s: string): nat
    requires AllDigits(s)
  {
    if |s| == 0 then 0 else (s[0] as int - '0' as int) * TenTo(|s| - 1) + PlaceValue(s[1..])
  }

  lemma {:induction false} PlaceValueSnoc(s: string, c: char)
    requires AllDigits(s) && '0' <= c <= '9'
    ensures PlaceValue(s + [c]) == 10 * PlaceValue(s) + (c as int - '0' as int)
  {
    if |s| == 0 {
      assert (s + [c])[1..] == [];
    } else {
      var d := s[0] as int - '0' as int;
      assert (s + [c])[1..] == s[1..] + [c];
      PlaceValueSnoc(s[1..], c);
      assert TenTo(|s|) == 10 * TenTo(|s| - 1);
      assert d * (10 * TenTo(|s| - 1)) == 10 * (d * TenTo(|s| - 1));
    }
  }

  /** A printed number is its decimal numeral: digits only, with their place values, and no leading zero. */
  lemma {:induction false} ItoaIsDecimal(n: nat)
    ensures AllDigits(Itoa(n)) && PlaceValue(Itoa(n)) == n
    ensures n > 0 ==> Itoa(n)[0] != '0'
    ensures n == 0 ==> Itoa(n) == "0"
  {
    if n < 10 {
      assert Itoa(n)[1..] == [];
    } else {
      ItoaIsDecimal(n / 10);
      PlaceValueSnoc(Itoa(n / 10), Digit(n % 10));
    }
  }

  lemma {:induction false} DigitsArePlaceValues(s: string)
    ensures Digits(s) == if AllDigits(s) then Some(PlaceValue(s)) else None
  {
    if |s| > 0 {
      var n := |s| - 1;
      DigitsArePlaceValues(s[..n]);
      assert s == s[..n] + [s[n]];
      if AllDigits(s) { PlaceValueSnoc(s[..n], s[n]); }
    }
  }

  /** What is read as a number: digits with an optional sign, at least one, with a value in the range of int. */
  lemma AtoiReads(s: string)
    ensures Atoi(s).Some? <==>
      && |s| > 0
      && var digits := if s[0] == '-' || s[0] == '+' then s[1..] else s;
         |digits| > 0 && AllDigits(digits)
         && PlaceValue(digits) <= if s[0] == '-' then 0x8000_0000_0000_0000 else 0x7FFF_FFFF_FFFF_FFFF
    ensures Atoi(s).Some? ==>
      Atoi(s).value == if s[0] == '-' then -(PlaceValue(s[1..]) as int)
                       else PlaceValue(if s[0] == '+' then s[1..] else s)
  {
    if |s| > 0 {
      DigitsArePlaceValues(if s[0] == '-' || s[0] == '+' then s[1..] else s);
    }
  }
}
