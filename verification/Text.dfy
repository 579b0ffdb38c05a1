/** Number conversions of C's printf and scanf families (sections 7.21.6.1 and 7.21.6.2 of C11),
    for `%d` and `%x` and 32-bit values. */
module Text {
  import opened Bits

  // ----- printing

  function DigitChar(k: nat): (c: char)
    requires k < 16
    ensures DigitValue(c) == k && IsDigit(c, 16) && (k < 10 ==> IsDigit(c, 10)) && c != 'x' && c != 'X'
  {
    ((if k < 10 then '0' as int else 'a' as int - 10) + k) as char
  }

  /** The digits of n, most significant first, without leading zeros. */
  function Digits(n: nat, base: nat): string
    requires base == 10 || base == 16
  {
    if n < base then [DigitChar(n)] else Digits(n / base, base) + [DigitChar(n % base)]
  }

  /** `%d` of a 32-bit word: the word is read as a signed number. */
  function SignedDec(x: Word): string {
    if x < 0x8000_0000 then Digits(x, 10) else "-" + Digits(U32 - x, 10)
  }

  // ----- scanning

  predicate IsSpace(c: char) {
    c == ' ' || '\t' <= c <= '\r'
  }

  predicate IsDigit(c: char, base: nat) {
    '0' <= c <= '9' || (base == 16 && ('a' <= c <= 'f' || 'A' <= c <= 'F'))
  }

  function DigitValue(c: char): nat {
    if '0' <= c <= '9' then c as int - '0' as int
    else if 'a' <= c <= 'f' then c as int - 'a' as int + 10
    else if 'A' <= c <= 'F' then c as int - 'A' as int + 10
    else 0
  }

  /** The end of the run of digits that starts at `from`. */
  function DigitsEnd(s: string, base: nat, from: nat): (n: nat)
    requires from <= |s|
    ensures from <= n <= |s|
    ensures forall i | from <= i < n :: IsDigit(s[i], base)
    ensures n < |s| ==> !IsDigit(s[n], base)
    decreases |s| - from
  {
    if from == |s| || !IsDigit(s[from], base) then from else DigitsEnd(s, base, from + 1)
  }

  function SpaceEnd(s: string, from: nat): (n: nat)
    requires from <= |s|
    ensures from <= n <= |s|
    decreases |s| - from
  {
    if from == |s| || !IsSpace(s[from]) then from else SpaceEnd(s, from + 1)
  }

  /** The number that the digits s[from..end] denote. */
  function Value(s: string, base: nat, from: nat, end: nat): nat
    requires end <= |s|
    decreases end
  {
    if end <= from then 0 else Value(s, base, from, end - 1) * base + DigitValue(s[end - 1])
  }

  /** A conversion: no match, a value the 32-bit object cannot represent (undefined in C),
      or a 32-bit word and the position behind it. */
  datatype Scan = NoMatch | Undefined | Scanned(word: Word, pos: nat)

  function ScanDigits(s: string, base: nat, negative: bool, from: nat): (r: Scan)
    requires from <= |s|
    ensures r.Scanned? ==> from < r.pos <= |s|
  {
    var end := DigitsEnd(s, base, from);
    var v := Value(s, base, from, end);
    if end == from then NoMatch
    else if base == 16 then
      if v >= U32 || (negative && v > 0) then Undefined else Scanned(v, end)
    else if negative then
      if v > 0x8000_0000 then Undefined else Scanned((U32 - v) % U32, end)
    else if v >= 0x8000_0000 then Undefined else Scanned(v, end)
  }

  /** `%x` (base 16) or `%d` (base 10) at position `from`: white space, a sign, for `%x` a 0x
      prefix, and digits. */
  function ScanNumber(s: string, base: nat, from: nat): (r: Scan)
    requires from <= |s|
    ensures r.Scanned? ==> from < r.pos <= |s|
  {
    var a := SpaceEnd(s, from);
    var signed := a < |s| && (s[a] == '+' || s[a] == '-');
    var b := if signed then a + 1 else a;
    var prefix := base == 16 && b + 1 < |s| && s[b] == '0' && (s[b + 1] == 'x' || s[b + 1] == 'X');
    ScanDigits(s, base, signed && s[a] == '-', if prefix then b + 2 else b)
  }

  // ----- facts

  function HexWord(n: Minor): (x: Word)
    ensures x == HexReading(n)
  {
    HexReadingFits(n);
    HexReading(n)
  }

  /** The text d stands at position `from` of s. */
  predicate At(s: string, from: nat, d: string) {
    from + |d| <= |s| && forall i | 0 <= i < |d| :: s[from + i] == d[i]
  }

  predicate Numeral(d: string, base: nat) {
    d != "" && forall i | 0 <= i < |d| :: IsDigit(d[i], base) && d[i] != 'x' && d[i] != 'X'
  }

  lemma {:induction false} DigitsAreNumeral(n: nat, base: nat)
    requires base == 10 || base == 16
    ensures Numeral(Digits(n, base), base)
  {
    if n >= base {
      DigitsAreNumeral(n / base, base);
    }
  }

  /** The value of a whole numeral. */
  function NumeralValue(d: string, base: nat): nat {
    Value(d, base, 0, |d|)
  }

  lemma {:induction false} ValueAt(s: string, base: nat, from: nat, d: string, n: nat)
    requires At(s, from, d) && n <= |d|
    ensures Value(s, base, from, from + n) == Value(d, base, 0, n)
  {
    if n > 0 {
      ValueAt(s, base, from, d, n - 1);
      assert s[from + (n - 1)] == d[n - 1];
    }
  }

  lemma ValueOfAppend(d: string, c: char, base: nat)
    ensures NumeralValue(d + [c], base) == NumeralValue(d, base) * base + DigitValue(c)
  {
    assert At(d + [c], 0, d);
    ValueAt(d + [c], base, 0, d, |d|);
  }

  lemma OneDigit(n: nat, base: nat)
    requires n < 16
    ensures NumeralValue([DigitChar(n)], base) == n
  {
    assert Value([DigitChar(n)], base, 0, 0) == 0;
  }

  /** Printing and reading back in the same base. */
  lemma {:induction false} DigitsValue(n: nat, base: nat)
    requires base == 10 || base == 16
    ensures NumeralValue(Digits(n, base), base) == n
  {
    if n >= base {
      ValueOfAppend(Digits(n / base, base), DigitChar(n % base), base);
      DigitsValue(n / base, base);
      if base == 10 {
        assert n / 10 * 10 + n % 10 == n;
      } else {
        assert n / 16 * 16 + n % 16 == n;
      }
    } else {
      OneDigit(n, base);
    }
  }

  /** Printing in a base gives each number its own text. */
  function Pow10(k: nat): nat {
    if k == 0 then 1 else 10 * Pow10(k - 1)
  }

  lemma {:induction false} DigitsLength(n: nat, k: nat)
    requires k > 0 && n < Pow10(k)
    ensures |Digits(n, 10)| <= k
  {
    if n >= 10 {
      assert k > 1 && n / 10 < Pow10(k - 1);
      DigitsLength(n / 10, k - 1);
    }
  }

  lemma DigitsInjective(m: nat, n: nat)
    requires Digits(m, 10) == Digits(n, 10)
    ensures m == n
  {
    DigitsValue(m, 10);
    DigitsValue(n, 10);
  }

  /** A number printed in decimal and read as hexadecimal. */
  function HexReading(n: nat): nat {
    if n < 10 then n else 16 * HexReading(n / 10) + n % 10
  }

  lemma {:induction false} DecimalReadAsHex(n: nat)
    ensures NumeralValue(Digits(n, 10), 16) == HexReading(n)
  {
    if n >= 10 {
      ValueOfAppend(Digits(n / 10, 10), DigitChar(n % 10), 16);
      DecimalReadAsHex(n / 10);
    } else {
      OneDigit(n, 16);
    }
  }

  /** The reading grows with the number, so different numbers stay different. */
  lemma {:induction false} HexReadingGrows(m: nat, n: nat)
    requires m < n
    ensures HexReading(m) < HexReading(n)
  {
    HexReadingBounds(m);
    if n >= 10 && m / 10 < n / 10 {
      HexReadingGrows(m / 10, n / 10);
    }
  }

  /** It is the number itself exactly for one-digit numbers. */
  lemma {:induction false} HexReadingBounds(n: nat)
    ensures HexReading(n) < 16 * HexReading(n / 10) + 16
    ensures HexReading(n) >= n
    ensures HexReading(n) == n <==> n < 10
  {
    if n >= 10 {
      HexReadingBounds(n / 10);
    }
  }

  /** One more digit multiplies the bound by 16. */
  lemma HexReadingStep(n: nat, bound: nat)
    requires HexReading(n / 10) < bound
    ensures HexReading(n) < 16 * bound
  {
    HexReadingBounds(n);
  }

  /** The minor numbers of Linux, below 2^20, have at most seven decimal digits, so their reading fits 32 bits. */
  lemma HexReadingFits(n: Minor)
    ensures HexReading(n) < 0x1000_0000
  {
    var a, b, c, d, e := n / 10, n / 10 / 10, n / 10 / 10 / 10, n / 10 / 10 / 10 / 10, n / 10 / 10 / 10 / 10 / 10;
    assert HexReading(e / 10) < 10;
    HexReadingStep(e, 16);
    HexReadingStep(d, 0x100);
    HexReadingStep(c, 0x1000);
    HexReadingStep(b, 0x1_0000);
    HexReadingStep(a, 0x10_0000);
    HexReadingStep(n, 0x100_0000);
  }

  /** Digits with something else behind them are taken whole. */
  lemma ScanDigitsAt(s: string, base: nat, negative: bool, from: nat, d: string)
    requires At(s, from, d) && Numeral(d, base)
    requires from + |d| == |s| || !IsDigit(s[from + |d|], base)
    ensures DigitsEnd(s, base, from) == from + |d|
    ensures Value(s, base, from, from + |d|) == NumeralValue(d, base)
  {
    ValueAt(s, base, from, d, |d|);
    forall i | from <= i < from + |d|
      ensures IsDigit(s[i], base)
    {
      assert s[from + (i - from)] == d[i - from];
    }
  }

  /** What comes before the digits: nothing, a minus sign, or 0x. */
  lemma ScanLead(s: string, base: nat, from: nat, negative: bool)
    requires from + 1 < |s|
    requires if negative then s[from] == '-' && base != 16 else IsDigit(s[from], base)
    ensures ScanNumber(s, base, from) ==
            ScanDigits(s, base, negative,
                       if negative then from + 1
                       else if base == 16 && s[from] == '0' && (s[from + 1] == 'x' || s[from + 1] == 'X') then from + 2
                       else from)
  {
    assert SpaceEnd(s, from) == from;
  }

  lemma AtTail(s: string, from: nat, a: string, b: string)
    requires At(s, from, a + b)
    ensures At(s, from, a) && At(s, from + |a|, b)
  {
    forall i | 0 <= i < |a|
      ensures s[from + i] == a[i]
    {
      assert (a + b)[i] == a[i];
    }
    forall i | 0 <= i < |b|
      ensures s[from + |a| + i] == b[i]
    {
      assert (a + b)[|a| + i] == b[i] && from + (|a| + i) == from + |a| + i;
    }
  }

  /** Reading `%d` back what `%d` printed, for every 32-bit word. */
  lemma ScanSignedDec(s: string, from: nat, x: Word)
    requires At(s, from, SignedDec(x))
    requires from + |SignedDec(x)| < |s| && s[from + |SignedDec(x)|] == ':'
    ensures ScanNumber(s, 10, from) == Scanned(x, from + |SignedDec(x)|)
  {
    if x < 0x8000_0000 {
      NumeralOf(x, 10);
      ScanPlain(s, 10, from, Digits(x, 10), x);
    } else {
      ScanMinus(s, from, Digits(U32 - x, 10), U32 - x);
    }
  }

  lemma NumeralOf(n: nat, base: nat)
    requires base == 10 || base == 16
    ensures Numeral(Digits(n, base), base) && NumeralValue(Digits(n, base), base) == n
  {
    DigitsAreNumeral(n, base);
    DigitsValue(n, base);
  }

  lemma ScanMinus(s: string, from: nat, d: string, v: nat)
    requires d == Digits(v, 10) && At(s, from, "-" + d) && 0 < v <= 0x8000_0000
    requires from + 1 + |d| < |s| && s[from + 1 + |d|] == ':'
    ensures ScanNumber(s, 10, from) == Scanned(U32 - v, from + 1 + |d|)
  {
    hide Digits, Value;
    NumeralOf(v, 10);
    AtTail(s, from, "-", d);
    assert s[from + 0] == "-"[0];
    ScanLead(s, 10, from, true);
    ScanDigitsAt(s, 10, true, from + 1, d);
  }

  lemma ScanPlain(s: string, base: nat, from: nat, d: string, v: nat)
    requires base == 10 || base == 16
    requires Numeral(d, base) && NumeralValue(d, base) == v
    requires At(s, from, d) && v < (if base == 10 then 0x8000_0000 else U32)
    requires from + |d| < |s| && s[from + |d|] == ':'
    ensures ScanNumber(s, base, from) == Scanned(v, from + |d|)
  {
    assert s[from + 0] == d[0];
    assert s[from + 1] == if |d| > 1 then d[1] else ':';
    ScanLead(s, base, from, false);
    ScanDigitsAt(s, base, false, from, d);
  }

  /** Reading `%x` back what `%x` printed behind "0x". */
  lemma ScanHex(s: string, from: nat, x: Word)
    requires At(s, from, "0x" + Digits(x, 16))
    requires from + 2 + |Digits(x, 16)| < |s| && s[from + 2 + |Digits(x, 16)|] == '\n'
    ensures ScanNumber(s, 16, from) == Scanned(x, from + 2 + |Digits(x, 16)|)
  {
    var d := Digits(x, 16);
    NumeralOf(x, 16);
    AtTail(s, from, "0x", d);
    assert s[from + 0] == "0x"[0] && s[from + 1] == "0x"[1];
    ScanLead(s, 16, from, false);
    ScanDigitsAt(s, 16, false, from + 2, d);
  }

  /** Reading with `%x` what `%d` printed: the hexadecimal reading of the decimal text. */
  lemma ScanDecimalAsHex(s: string, from: nat, x: Minor)
    requires At(s, from, Digits(x, 10))
    requires from + |Digits(x, 10)| < |s| && s[from + |Digits(x, 10)|] == ':'
    ensures ScanNumber(s, 16, from) == Scanned(HexWord(x), from + |Digits(x, 10)|)
  {
    DigitsAreNumeral(x, 10);
    DecimalReadAsHex(x);
    HexReadingFits(x);
    ScanPlain(s, 16, from, Digits(x, 10), HexReading(x));
  }

  // ----- other texts

  /** White space before a number is skipped, and only that. */
  lemma ScanSpaces(s: string)
    requires |s| == 4 && IsSpace(s[0]) && IsSpace(s[1]) && s[2] == '1' && s[3] == '2'
    ensures ScanNumber(s, 10, 0) == Scanned(12, 4)
  {
    assert SpaceEnd(s, 0) == SpaceEnd(s, 1) == SpaceEnd(s, 2) == 2;
    assert DigitsEnd(s, 10, 2) == DigitsEnd(s, 10, 3) == DigitsEnd(s, 10, 4) == 4;
    assert Value(s, 10, 2, 2) == 0 && Value(s, 10, 2, 3) == 1 && Value(s, 10, 2, 4) == 12;
  }

  /** A sign is taken: a plus changes nothing, a minus negates. */
  lemma ScanSigns(s: string)
    requires |s| == 2 && s[1] == '7'
    ensures s[0] == '+' ==> ScanNumber(s, 10, 0) == Scanned(7, 2)
    ensures s[0] == '-' ==> ScanNumber(s, 10, 0) == Scanned(0xFFFF_FFF9, 2)
    ensures s[0] == ':' ==> ScanNumber(s, 10, 0) == ScanNumber(s, 16, 0) == NoMatch
  {
    assert !IsSpace(s[0]) ==> SpaceEnd(s, 0) == 0;
    assert DigitsEnd(s, 10, 1) == DigitsEnd(s, 10, 2) == 2;
    assert Value(s, 10, 1, 1) == 0 && Value(s, 10, 1, 2) == 7;
  }

  /** `%x` takes digits of either case. */
  lemma ScanCases(s: string)
    requires |s| == 2 && s[0] == '1' && (s[1] == 'f' || s[1] == 'F')
    ensures ScanNumber(s, 16, 0) == Scanned(31, 2)
  {
    assert SpaceEnd(s, 0) == 0;
    assert DigitsEnd(s, 16, 0) == DigitsEnd(s, 16, 1) == DigitsEnd(s, 16, 2) == 2;
    assert Value(s, 16, 0, 0) == 0 && Value(s, 16, 0, 1) == 1 && Value(s, 16, 0, 2) == 31;
  }

  /** `%x` takes a prefix of either case. */
  lemma ScanPrefixes(s: string)
    requires |s| == 3 && s[0] == '0' && (s[1] == 'x' || s[1] == 'X') && s[2] == 'a'
    ensures ScanNumber(s, 16, 0) == Scanned(10, 3) && ScanNumber(s, 10, 0) == Scanned(0, 1)
  {
    assert SpaceEnd(s, 0) == 0;
    assert DigitsEnd(s, 16, 2) == DigitsEnd(s, 16, 3) == 3 && DigitsEnd(s, 10, 0) == DigitsEnd(s, 10, 1) == 1;
    assert Value(s, 16, 2, 2) == 0 && Value(s, 16, 2, 3) == 10 && Value(s, 10, 0, 0) == 0 && Value(s, 10, 0, 1) == 0;
  }

  /** A number that the 32-bit object cannot represent has no defined value. */
  lemma ScanLimits(n: nat)
    ensures var d := Digits(n, 10);
            && ScanDigits(d, 10, false, 0) == (if n <= 0x7FFF_FFFF then Scanned(n, |d|) else Undefined)
            && ScanDigits(d, 10, true, 0) == (if n == 0 then Scanned(0, |d|)
                                              else if n <= 0x8000_0000 then Scanned(0x1_0000_0000 - n, |d|)
                                              else Undefined)
    ensures var h := Digits(n, 16);
            ScanDigits(h, 16, false, 0) == if n <= 0xFFFF_FFFF then Scanned(n, |h|) else Undefined
  {
    hide Digits, DigitsEnd, Value;
    NumeralOf(n, 10);
    NumeralOf(n, 16);
    ScanDigitsAt(Digits(n, 10), 10, false, 0, Digits(n, 10));
    ScanDigitsAt(Digits(n, 16), 16, false, 0, Digits(n, 16));
  }
}
