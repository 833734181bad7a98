/**
 * PIN generation of GameStateService (GeneratePin, and the retry rule of
 * CreateGame). `Random.Next(100000, 999999)` is an input here: a draw is any
 * integer in [100000, 999999) (the upper bound is exclusive), and the PIN is
 * its `int.ToString()`.
 */
module Pins {

  const PinLow: int := 100000
  /** Exclusive, as in `Random.Next(minValue, maxValue)`. */
  const PinHigh: int := 999999

  predicate IsDigit(c: char)
  {
    '0' <= c <= '9'
  }

  predicate AllDigits(s: string)
  {
    forall i :: 0 <= i < |s| ==> IsDigit(s[i])
  }

  function DigitChar(d: nat): (c: char)
    requires d < 10
    ensures IsDigit(c) && c as int - '0' as int == d
  {
    ('0' as int + d) as char
  }

  function DigitValue(c: char): (d: nat)
    requires IsDigit(c)
    ensures d < 10 && DigitChar(d) == c
  {
    c as int - '0' as int
  }

  /** `int.ToString()` of a non-negative number: decimal digits, no leading zero. */
  function DecimalString(n: nat): (s: string)
    ensures |s| >= 1 && AllDigits(s)
    ensures n >= 10 ==> s[0] != '0'
    decreases n
  {
    if n < 10 then [DigitChar(n)] else DecimalString(n / 10) + [DigitChar(n % 10)]
  }

  /** The number a string of decimal digits denotes. */
  function ParseDecimal(s: string): nat
    requires AllDigits(s)
  {
    if s == [] then 0 else 10 * ParseDecimal(s[..|s| - 1]) + DigitValue(s[|s| - 1])
  }

  lemma {:induction false} ParseDecimalString(n: nat)
    ensures ParseDecimal(DecimalString(n)) == n
    decreases n
  {
    var s := DecimalString(n);
    if n >= 10 {
      ParseDecimalString(n / 10);
      assert s[..|s| - 1] == DecimalString(n / 10);
    }
  }

  function Pow10(k: nat): (p: nat)
    ensures p >= 1
  {
    if k == 0 then 1 else 10 * Pow10(k - 1)
  }

  lemma {:induction false} DecimalStringLength(n: nat, k: nat)
    requires Pow10(k) <= n < Pow10(k + 1)
    ensures |DecimalString(n)| == k + 1
    decreases k
  {
    if k > 0 {
      assert Pow10(k) == 10 * Pow10(k - 1);
      assert Pow10(k + 1) == 10 * Pow10(k);
      DecimalStringLength(n / 10, k - 1);
    }
  }

  /** GeneratePin for one draw of the random source: a 6-character string of digits that reads back as the draw. */
  function GeneratePin(draw: int): (pin: string)
    requires PinLow <= draw < PinHigh
    ensures |pin| == 6 && AllDigits(pin) && pin[0] != '0'
    ensures ParseDecimal(pin) == draw
  {
    assert Pow10(5) == PinLow && Pow10(6) == 1000000;
    DecimalStringLength(draw, 5);
    ParseDecimalString(draw);
    DecimalString(draw)
  }

  /** Two draws give the same PIN only if they are the same number. */
  lemma GeneratePinInjective(a: int, b: int)
    requires PinLow <= a < PinHigh && PinLow <= b < PinHigh
    ensures GeneratePin(a) == GeneratePin(b) <==> a == b
  {
  }

  /** Every draw is one `Random.Next(100000, 999999)` can return. */
  predicate ValidDraws(draws: seq<int>)
  {
    forall i :: 0 <= i < |draws| ==> PinLow <= draws[i] < PinHigh
  }

  /** Some draw gives a PIN not yet taken, so CreateGame's retry loop ends. */
  predicate HasFreeDraw(taken: set<string>, draws: seq<int>)
    requires ValidDraws(draws)
  {
    exists i :: 0 <= i < |draws| && GeneratePin(draws[i]) !in taken
  }

  /** The draw at which CreateGame's do-while loop stops: the first one whose PIN is free. */
  function FirstFreeDraw(taken: set<string>, draws: seq<int>): (k: nat)
    requires ValidDraws(draws) && HasFreeDraw(taken, draws)
    ensures k < |draws| && GeneratePin(draws[k]) !in taken
    ensures forall j :: 0 <= j < k ==> GeneratePin(draws[j]) in taken
  {
    if GeneratePin(draws[0]) !in taken then 0
    else
      assert HasFreeDraw(taken, draws[1..]) by {
        var i :| 0 <= i < |draws| && GeneratePin(draws[i]) !in taken;
        assert draws[1..][i - 1] == draws[i];
      }
      1 + FirstFreeDraw(taken, draws[1..])
  }
}
