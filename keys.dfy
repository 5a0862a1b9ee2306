/**
 * The string key that the analysis uses to decide whether a film is already
 * cached: the film's name followed by Python's `str()` of its year.
 */
module Keys {

  /** The decimal digit character for `d`. */
  function DigitChar(d: nat): (c: char)
    requires d < 10
    ensures '0' <= c <= '9'
  {
    (48 + d) as char
  }

  /** The value of a decimal digit character. */
  function DigitValue(c: char): (d: nat)
    requires '0' <= c <= '9'
    ensures d < 10
  {
    (c as int - 48) as nat
  }

  predicate IsDigits(s: string)
  {
    forall i :: 0 <= i < |s| ==> '0' <= s[i] <= '9'
  }

  /** Decimal notation of a natural number, without leading zeros. */
  function Digits(n: nat): string
  {
    if n < 10 then [DigitChar(n)] else Digits(n / 10) + [DigitChar(n % 10)]
  }

  /** Decimal notation is a non-empty string of digits, one digit long exactly below 10. */
  lemma {:induction false} DigitsAreDigits(n: nat)
    ensures 1 <= |Digits(n)| && IsDigits(Digits(n))
    ensures n < 10 <==> |Digits(n)| == 1
  {
    if n >= 10 {
      DigitsAreDigits(n / 10);
    }
  }

  /** Reads a non-empty string of decimal digits back as a number. */
  function ParseDigits(s: string): nat
    requires 1 <= |s| && IsDigits(s)
  {
    if |s| == 1 then DigitValue(s[0])
    else 10 * ParseDigits(s[..|s| - 1]) + DigitValue(s[|s| - 1])
  }

  /** Decimal notation loses nothing: reading it back gives the number. */
  lemma {:induction false} ParseDigitsOfDigits(n: nat)
    ensures 1 <= |Digits(n)| && IsDigits(Digits(n))
    ensures ParseDigits(Digits(n)) == n
  {
    DigitsAreDigits(n);
    if n >= 10 {
      var s := Digits(n);
      assert s[..|s| - 1] == Digits(n / 10);
      ParseDigitsOfDigits(n / 10);
    }
  }

  /** Python's `str()` of an integer. */
  function IntToString(y: int): string
    decreases if y < 0 then 1 - y else 0
  {
    if y < 0 then "-" + IntToString(-y) else Digits(y)
  }

  /** The years a film can carry in practice: four decimal digits. */
  predicate FourDigitYear(y: int)
  {
    1000 <= y <= 9999
  }

  /** A four-digit year renders as exactly four digits. */
  lemma FourDigitYearLength(y: int)
    requires FourDigitYear(y)
    ensures |IntToString(y)| == 4
  {
    var a := y / 10;
    var b := a / 10;
    var c := b / 10;
    assert Digits(y) == Digits(a) + [DigitChar(y % 10)];
    assert Digits(a) == Digits(b) + [DigitChar(a % 10)];
    assert Digits(b) == Digits(c) + [DigitChar(b % 10)];
  }

  /** The cache key of a film: `Name + str(Year)`. */
  function Key(name: string, year: int): string
  {
    name + IntToString(year)
  }

  /**
   * For four-digit years the concatenated key identifies the film: two keys
   * are equal exactly when names and years are.
   */
  lemma KeyInjective(n1: string, y1: int, n2: string, y2: int)
    requires FourDigitYear(y1) && FourDigitYear(y2)
    ensures Key(n1, y1) == Key(n2, y2) <==> n1 == n2 && y1 == y2
  {
    if Key(n1, y1) == Key(n2, y2) {
      FourDigitYearLength(y1);
      FourDigitYearLength(y2);
      var k := Key(n1, y1);
      assert |n1| == |n2|;
      assert n1 == k[..|n1|] == n2;
      assert IntToString(y1) == k[|n1|..] == IntToString(y2);
      ParseDigitsOfDigits(y1);
      ParseDigitsOfDigits(y2);
    }
  }

  /**
   * Without the four-digit condition the key is ambiguous: the film "A1" of
   * year 999 and the film "A" of year 1999 share one key.
   */
  lemma KeyCollision()
    ensures Key("A1", 999) == Key("A", 1999)
  {
    assert Digits(999) == "999" by {
      assert Digits(9) == "9";
      assert Digits(99) == Digits(9) + ['9'];
    }
    assert Digits(1999) == "1999" by {
      assert Digits(1) == "1";
      assert Digits(19) == Digits(1) + ['9'];
      assert Digits(199) == Digits(19) + ['9'];
    }
  }
}
