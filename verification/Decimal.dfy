/**
 The base-10 text form of big integers, as the service stores amounts in
 varchar columns: `String()` on the way in, `SetString(s, 10)` on the way out.
 */
module Decimal {
  import opened Common

  function Digit(d: nat): (c: char)
    requires d < 10
    ensures '0' <= c <= '9' && (c - '0') as nat == d
  {
    '0' + d as char
  }

  function PrintNat(n: nat): string {
    if n < 10 then [Digit(n)] else PrintNat(n / 10) + [Digit(n % 10)]
  }

  /** `big.Int.String`. */
  function Print(n: int): string {
    if n < 0 then "-" + PrintNat(-n) else PrintNat(n)
  }

  function ParseNat(s: string): Option<nat> {
    if |s| == 0 || !('0' <= s[|s| - 1] <= '9') then None
    else
      var d := (s[|s| - 1] - '0') as nat;
      if |s| == 1 then Some(d)
      else
        match ParseNat(s[..|s| - 1])
        case None => None
        case Some(n) => Some(10 * n + d)
  }

  /** `big.Int.SetString(s, 10)`: an optional sign, then one or more decimal digits. */
  function Parse(s: string): Option<int> {
    var signed := |s| > 0 && (s[0] == '-' || s[0] == '+');
    var magnitude := ParseNat(if signed then s[1..] else s);
    if magnitude.None? then None
    else
      var n: int := magnitude.value;
      Some(if signed && s[0] == '-' then -n else n)
  }

  lemma {:induction false} ParsePrintNat(n: nat)
    ensures ParseNat(PrintNat(n)) == Some(n)
    ensures |PrintNat(n)| > 0 && '0' <= PrintNat(n)[0] <= '9'
  {
    if n >= 10 {
      ParsePrintNat(n / 10);
      var s := PrintNat(n);
      assert s[..|s| - 1] == PrintNat(n / 10);
    }
  }

  lemma ParseUnsigned(s: string, n: nat)
    requires ParseNat(s) == Some(n) && |s| > 0 && '0' <= s[0] <= '9'
    ensures Parse(s) == Some(n)
  {}

  lemma ParseNegative(s: string, n: int)
    requires ParseNat(s).Some? && ParseNat(s).value == n
    ensures Parse("-" + s) == Some(-n)
  {
    assert ("-" + s)[1..] == s;
  }

  /** Reading back what was printed gives the same integer, for every integer. */
  lemma ParsePrint(n: int)
    ensures Parse(Print(n)) == Some(n)
  {
    var magnitude: nat := if n < 0 then -n else n;
    ParsePrintNat(magnitude);
    var s := PrintNat(magnitude);
    if n < 0 {
      ParseNegative(s, magnitude);
    } else {
      ParseUnsigned(s, magnitude);
    }
  }

  /** Different integers are stored as different strings. */
  lemma PrintInjective(m: int, n: int)
    requires Print(m) == Print(n)
    ensures m == n
  {
    ParsePrint(m);
    ParsePrint(n);
  }

  predicate AllDigits(s: string) {
    |s| > 0 && forall i | 0 <= i < |s| :: '0' <= s[i] <= '9'
  }

  /** A column is readable exactly when it is an optional sign followed by one or more digits. */
  lemma ParseAccepts(s: string)
    ensures Parse(s).Some? <==> AllDigits(s) || (|s| > 0 && (s[0] == '-' || s[0] == '+') && AllDigits(s[1..]))
  {
    var signed := |s| > 0 && (s[0] == '-' || s[0] == '+');
    ParseNatAccepts(if signed then s[1..] else s);
  }

  lemma {:induction false} ParseNatAccepts(s: string)
    ensures ParseNat(s).Some? <==> AllDigits(s)
  {
    if |s| > 1 {
      ParseNatAccepts(s[..|s| - 1]);
    }
  }

  /*--- Positional value ---*/

  function Pow10(k: nat): nat {
    if k == 0 then 1 else 10 * Pow10(k - 1)
  }

  function DigitValue(c: char): nat
    requires '0' <= c <= '9'
  {
    (c - '0') as nat
  }

  /** The sum over i of the digit at i times 10 to the power of the number of digits after it. */
  function Positional(s: string): nat
    requires forall i | 0 <= i < |s| :: '0' <= s[i] <= '9'
  {
    if s == [] then 0 else DigitValue(s[0]) * Pow10(|s| - 1) + Positional(s[1..])
  }

  lemma TenTimes(d: nat, p: nat)
    ensures d * (10 * p) == 10 * (d * p)
  {}

  lemma AtMostNine(d: nat, p: nat)
    requires d <= 9
    ensures d * p <= 9 * p
  {}

  /** One more digit at the end multiplies the rest by ten. */
  lemma {:induction false} PositionalSnoc(s: string, c: char)
    requires '0' <= c <= '9' && forall i | 0 <= i < |s| :: '0' <= s[i] <= '9'
    ensures Positional(s + [c]) == 10 * Positional(s) + DigitValue(c)
  {
    if s == [] {
      assert s + [c] == [c] && [c][1..] == [];
    } else {
      var d, k := DigitValue(s[0]), |s| - 1;
      PositionalSnoc(s[1..], c);
      assert (s + [c])[1..] == s[1..] + [c];
      TenTimes(d, Pow10(k));
    }
  }

  lemma {:induction false} ParseNatPositional(s: string)
    requires AllDigits(s)
    ensures ParseNat(s) == Some(Positional(s))
  {
    var init, c := s[..|s| - 1], s[|s| - 1];
    assert s == init + [c];
    PositionalSnoc(init, c);
    if |s| > 1 {
      ParseNatPositional(init);
    } else {
      assert init == [];
    }
  }

  /** Columns are read in base ten, with a sign in front. */
  lemma ParsePositional(s: string)
    requires AllDigits(s)
    ensures Parse(s) == Some(Positional(s)) && Parse("+" + s) == Some(Positional(s)) && Parse("-" + s) == Some(0 - Positional(s))
  {
    ParseNatPositional(s);
    assert ("-" + s)[1..] == s && ("+" + s)[1..] == s;
  }

  lemma {:induction false} PrintNatDigits(n: nat)
    ensures AllDigits(PrintNat(n)) && (|PrintNat(n)| > 1 ==> PrintNat(n)[0] != '0')
    ensures n > 0 ==> PrintNat(n)[0] != '0'
  {
    if n >= 10 { PrintNatDigits(n / 10); }
  }

  lemma {:induction false} PrintNatPositional(n: nat)
    ensures AllDigits(PrintNat(n)) && Positional(PrintNat(n)) == n
  {
    PrintNatDigits(n);
    if n >= 10 {
      PrintNatPositional(n / 10);
      PositionalSnoc(PrintNat(n / 10), Digit(n % 10));
    } else {
      assert [Digit(n)][1..] == [];
    }
  }

  /** A string of digits without a leading zero has a first digit's worth of its highest power. */
  lemma LeadingDigit(s: string)
    requires AllDigits(s) && s[0] != '0'
    ensures Positional(s) >= Pow10(|s| - 1)
  {
    assert DigitValue(s[0]) >= 1;
    assert DigitValue(s[0]) * Pow10(|s| - 1) >= Pow10(|s| - 1);
  }

  lemma {:induction false} BelowPower(s: string)
    requires forall i | 0 <= i < |s| :: '0' <= s[i] <= '9'
    ensures Positional(s) < Pow10(|s|)
  {
    if s != [] {
      BelowPower(s[1..]);
      AtMostNine(DigitValue(s[0]), Pow10(|s| - 1));
    }
  }

  lemma {:induction false} PowPositive(k: nat)
    ensures Pow10(k) >= 1
  {
    if k > 0 { PowPositive(k - 1); }
  }

  lemma PrintNatSnoc(m: nat, c: char)
    requires m > 0 && '0' <= c <= '9'
    ensures PrintNat(10 * m + DigitValue(c)) == PrintNat(m) + [c]
  {
    var n := 10 * m + DigitValue(c);
    assert n / 10 == m && n % 10 == DigitValue(c);
  }

  /** The only digits without a leading zero that stand for n are the ones printed. */
  lemma {:induction false} PrintNatOnly(s: string)
    requires AllDigits(s) && (|s| > 1 ==> s[0] != '0')
    ensures PrintNat(Positional(s)) == s
  {
    var init, c := s[..|s| - 1], s[|s| - 1];
    assert s == init + [c];
    PositionalSnoc(init, c);
    if |s| == 1 {
      assert init == [];
    } else {
      LeadingDigit(init);
      PowPositive(|init| - 1);
      PrintNatOnly(init);
      PrintNatSnoc(Positional(init), c);
    }
  }

  /**
   The text of a natural number is exactly its base-ten form: the digits without
   a leading zero whose positional value it is, as many as its size calls for.
   A negative number has a minus sign in front of that.
   */
  lemma PrintExact(n: nat, s: string)
    ensures s == Print(n) <==> AllDigits(s) && (|s| > 1 ==> s[0] != '0') && Positional(s) == n
    ensures s == Print(n) && |s| > 1 ==> Pow10(|s| - 1) <= n < Pow10(|s|)
    ensures n > 0 ==> Print(0 - n) == "-" + Print(n)
  {
    PrintNatDigits(n);
    PrintNatPositional(n);
    if AllDigits(s) && (|s| > 1 ==> s[0] != '0') {
      PrintNatOnly(s);
      if |s| > 1 { LeadingDigit(s); }
      BelowPower(s);
    }
  }
}
