/** Numbers on the wire: how they are printed, digit by digit, and what is read. */
module WfdNumbers {
  import opened Machine
  import opened WfdText

  const DIGITS := "0123456789abcdef"

  predicate LowerDigits(s: string) {
    forall i :: 0 <= i < |s| ==> s[i] in DIGITS
  }

  /** The digits are lower-case, and the value of each is its place in the row. */
  lemma DigitsInOrder(d: nat)
    requires d < 16
    ensures DigitChar(d) == DIGITS[d] && DigitOf(DIGITS[d]) == d
  {
  }

  lemma LowerSnoc(s: string, d: nat)
    requires LowerDigits(s) && d < 16
    ensures LowerDigits(s + [DigitChar(d)])
  {
    DigitsInOrder(d);
  }

  lemma {:induction false} DigitsAreLower(n: nat, base: nat)
    requires base == 10 || base == 16
    ensures LowerDigits(Digits(n, base))
    decreases n
  {
    if n < base {
      LowerSnoc([], n);
      assert [] + [DigitChar(n)] == [DigitChar(n)];
    } else {
      DivideByBase(n, base);
      DigitsAreLower(n / base, base);
      LowerSnoc(Digits(n / base, base), n % base);
    }
  }

  lemma {:induction false} NoLeadingZero(n: nat, base: nat)
    requires n > 0 && (base == 10 || base == 16)
    ensures Digits(n, base)[0] != '0'
    decreases n
  {
    if n < base {
      DigitsInOrder(n);
    } else {
      DivideByBase(n, base);
      NoLeadingZero(n / base, base);
    }
  }

  /** printf with a width: the value in lower-case digits, at least that many, with leading
      zeros only to fill up. */
  lemma HexIsPrintf(n: U32, width: nat)
    requires width > 0
    ensures var s := Hex(n, width);
            && ValueOf(s, 16) == n && LowerDigits(s) && |s| >= width
            && (|s| > width ==> s[0] != '0')
  {
    PaddedValue(n, 16, width);
    DigitsAreLower(n, 16);
    if n > 0 { NoLeadingZero(n, 16); }
    var d := Digits(n, 16);
    if |d| < width {
      assert Hex(n, width) == Zeros(width - |d|) + d;
    } else if n == 0 {
      assert d == [DigitChar(0)];
    }
  }

  /** printf of a signed number: its digits without a leading zero, behind a minus when the
      32-bit word is negative. */
  lemma SignedIsPrintf(n: U32)
    ensures n < 0x8000_0000 ==> LowerDigits(Signed(n)) && ValueOf(Signed(n), 10) == n && (n > 0 ==> Signed(n)[0] != '0')
    ensures n >= 0x8000_0000 ==>
              Signed(n)[0] == '-' && LowerDigits(Signed(n)[1..]) && ValueOf(Signed(n)[1..], 10) == 0x1_0000_0000 - n
  {
    if n < 0x8000_0000 {
      DigitsAreLower(n, 10);
      if n > 0 { NoLeadingZero(n, 10); }
    } else {
      DigitsAreLower(TWO32 - n, 10);
      assert Signed(n)[1..] == Digits(TWO32 - n, 10);
    }
  }

  predicate AllBlank(s: string) {
    forall i :: 0 <= i < |s| ==> s[i] in " \t\n\r\U{0B}\U{0C}"
  }

  lemma {:induction false} BlanksSkipped(blanks: string, s: string)
    requires AllBlank(blanks) && (s == "" || !Blank(s[0]))
    ensures SkipBlanks(blanks + s) == s
  {
    if blanks == "" {
      assert "" + s == s;
    } else {
      assert (blanks + s)[1..] == blanks[1..] + s;
      BlanksSkipped(blanks[1..], s);
    }
  }

  /** The magnitude of digits with anything behind them that is no digit, and no hexadecimal
      prefix. */
  lemma DigitsCount(d: string, tail: string, base: nat)
    requires (base == 10 || base == 16) && d != "" && AllDigits(d, base)
    requires tail == "" || (DigitOf(tail[0]) >= base && tail[0] !in "xX")
    ensures Magnitude(d + tail, base) == ValueOf(d, base)
  {
    var s := d + tail;
    LeadingOf(d, tail, base);
    if HasHexPrefix(s) {
      if |d| >= 2 {
        assert s[1] == d[1] && DigitOf(d[1]) < 16;
      } else {
        assert s[1] == tail[0];
      }
    }
  }

  /** strtoul into a 32-bit field: blanks are skipped, a sign is taken, digits count, and
      what stands behind them does not; a minus negates in 64 bits, of which 32 are kept. */
  lemma StrToUlMeans(blanks: string, sign: string, d: string, tail: string, base: nat)
    requires AllBlank(blanks) && sign in {"", "+", "-"} && (base == 10 || base == 16)
    requires d != "" && AllDigits(d, base) && ValueOf(d, base) < 0x1_0000_0000_0000_0000
    requires tail == "" || (DigitOf(tail[0]) >= base && tail[0] !in "xX")
    ensures StrToUl(blanks + (sign + (d + tail)), base)
            == if sign == "-" then (0x1_0000_0000_0000_0000 - ValueOf(d, base)) % 0x1_0000_0000
               else ValueOf(d, base) % 0x1_0000_0000
  {
    var number := d + tail;
    assert DigitOf(d[0]) < base && number[0] == d[0];
    DigitsCount(d, tail, base);
    if sign == "" {
      assert sign + number == number;
    }
    BlanksSkipped(blanks, sign + number);
    SignTaken(blanks + (sign + number), sign, number, base);
  }

  lemma SignTaken(s: string, sign: string, number: string, base: nat)
    requires sign in {"", "+", "-"} && SkipBlanks(s) == sign + number
    requires number != "" && number[0] != '-' && number[0] != '+' && Magnitude(number, base) < TWO64
    ensures StrToUl(s, base)
            == if sign == "-" then (TWO64 - Magnitude(number, base)) % TWO32 else Magnitude(number, base) % TWO32
  {
    if sign == "" {
      assert sign + number == number;
    } else {
      assert (sign + number)[0] == sign[0] && (sign + number)[1..] == number;
    }
  }

  /** In hexadecimal a prefix may stand before the digits. */
  lemma HexPrefixSkipped(x: char, d: string)
    requires x in "xX" && d != "" && AllDigits(d, 16)
    ensures Magnitude("0" + [x] + d, 16) == ValueOf(d, 16)
  {
    var s := "0" + [x] + d;
    assert DigitOf(s[2]) < 16 && s[2..] == d;
    LeadingOf(d, "", 16);
    assert d + "" == d;
  }
}
