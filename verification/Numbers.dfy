/** Unsigned numbers as `stream >> size_t` reads them and as a printer writes them. */
module Numbers {

  const SIZE_MAX: nat := 0xFFFF_FFFF_FFFF_FFFF

  predicate IsDigit(c: char) {
    '0' <= c <= '9'
  }

  predicate AllDigits(s: string) {
    forall i :: 0 <= i < |s| ==> IsDigit(s[i])
  }

  /** Where the run of digits that starts at `i` ends. */
  function DigitsEnd(s: string, i: nat): (j: nat)
    requires i <= |s|
    ensures i <= j <= |s|
    decreases |s| - i
  {
    if i == |s| || !IsDigit(s[i]) then i else DigitsEnd(s, i + 1)
  }

  function Digit(c: char): nat {
    if IsDigit(c) then c as int - '0' as int else 0
  }

  /** The number that the decimal digits of `s` from `i` up to `j` denote. */
  function Value(s: string, i: nat, j: nat): nat
    requires i <= j <= |s|
  {
    if i == j then 0 else 10 * Value(s, i, j - 1) + Digit(s[j - 1])
  }

  /** What one extraction makes of a word: the number stored, whether the stream fails,
      and how many characters of the word it takes from the stream. */
  datatype Scan = Scan(value: nat, bad: bool, used: nat)

  /**
   * The numeric extraction of the "C" locale in base ten: an optional sign, then digits, up to the
   * first character that is neither. No digits stores 0 and fails; too large a number stores
   * SIZE_MAX and fails; a minus sign negates modulo SIZE_MAX + 1.
   */
  function ScanSize(w: string): (r: Scan)
    ensures r.value <= SIZE_MAX && r.used <= |w|
  {
    var sign := if w != "" && (w[0] == '+' || w[0] == '-') then 1 else 0;
    var end := DigitsEnd(w, sign);
    var v := Value(w, sign, end);
    if end == sign then Scan(0, true, end)
    else if v > SIZE_MAX then Scan(SIZE_MAX, true, end)
    else Scan(if w[0] == '-' && v > 0 then SIZE_MAX + 1 - v else v, false, end)
  }

  function Decimal(n: nat): (s: string)
    ensures s != "" && AllDigits(s)
  {
    var digit := (n % 10 + '0' as int) as char;
    if n < 10 then [digit] else Decimal(n / 10) + [digit]
  }

  lemma {:induction false} ValueInside(a: string, s: string, b: string, j: nat)
    requires j <= |s|
    ensures Value(a + s + b, |a|, |a| + j) == Value(s, 0, j)
  {
    if j > 0 {
      ValueInside(a, s, b, j - 1);
    }
  }

  lemma {:induction false} ValueOfDecimal(n: nat)
    ensures Value(Decimal(n), 0, |Decimal(n)|) == n
  {
    if n >= 10 {
      var high, low := Decimal(n / 10), [(n % 10 + '0' as int) as char];
      ValueOfDecimal(n / 10);
      ValueInside("", high, low, |high|);
      assert "" + high + low == Decimal(n);
    }
  }

  lemma {:induction false} DigitsEndInside(a: string, s: string, b: string, i: nat)
    requires AllDigits(s) && i <= |s| && (b != "" ==> !IsDigit(b[0]))
    ensures DigitsEnd(a + s + b, |a| + i) == |a| + |s|
    decreases |s| - i
  {
    if i < |s| {
      assert IsDigit((a + s + b)[|a| + i]);
      DigitsEndInside(a, s, b, i + 1);
    }
  }

  predicate IsSign(sign: string) {
    sign == "" || sign == "+" || sign == "-"
  }

  /** How a word falls apart: a sign if there is one, all the digits behind it, and the rest. */
  predicate IsOperand(sign: string, digits: string, behind: string) {
    && IsSign(sign) && AllDigits(digits) && (behind != "" ==> !IsDigit(behind[0]))
    && (sign == digits == "" && behind != "" ==> behind[0] != '+' && behind[0] != '-')
  }

  lemma SignOf(sign: string, digits: string, behind: string)
    requires IsOperand(sign, digits, behind)
    ensures
      var w := sign + digits + behind;
      (w != "" && w[0] == '-' <==> sign == "-") && (w != "" && w[0] == '+' <==> sign == "+")
  {
    var w := sign + digits + behind;
    if sign == "" && w != "" {
      assert w[0] == if digits != "" then digits[0] else behind[0];
    }
  }

  /** What the extraction makes of any word: without digits it stores 0 and fails, a number that fits is
      stored modulo SIZE_MAX + 1, one that does not fit is stored as SIZE_MAX and fails; in all cases it
      takes the sign and the digits and nothing behind them. */
  lemma ScanOperand(sign: string, digits: string, behind: string)
    requires IsOperand(sign, digits, behind)
    ensures ScanSize(sign + digits + behind) ==
            var n, used := Value(digits, 0, |digits|), |sign| + |digits|;
            if digits == "" then Scan(0, true, used)
            else if n > SIZE_MAX then Scan(SIZE_MAX, true, used)
            else Scan(if sign == "-" && n > 0 then SIZE_MAX + 1 - n else n, false, used)
  {
    var w, k := sign + digits + behind, |sign|;
    SignOf(sign, digits, behind);
    DigitsEndInside(sign, digits, behind, 0);
    ValueInside(sign, digits, behind, |digits|);
    ScanParts(w, k, k + |digits|, Value(digits, 0, |digits|), sign == "-");
  }

  lemma ScanParts(w: string, k: nat, end: nat, n: nat, negative: bool)
    requires k == (if w != "" && (w[0] == '+' || w[0] == '-') then 1 else 0) && k <= end <= |w|
    requires DigitsEnd(w, k) == end && Value(w, k, end) == n && (negative <==> w != "" && w[0] == '-')
    ensures ScanSize(w) ==
            if end == k then Scan(0, true, end)
            else if n > SIZE_MAX then Scan(SIZE_MAX, true, end)
            else Scan(if negative && n > 0 then SIZE_MAX + 1 - n else n, false, end)
  {
  }

  /** Every word falls apart in this way, so that `ScanOperand` speaks of all words. */
  lemma EveryWordIsOperand(w: string) returns (sign: string, digits: string, behind: string)
    ensures w == sign + digits + behind && IsOperand(sign, digits, behind)
  {
    var k := if w != "" && (w[0] == '+' || w[0] == '-') then 1 else 0;
    var end := DigitsEnd(w, k);
    DigitsBefore(w, k);
    sign, digits, behind := w[..k], w[k..end], w[end..];
  }

  lemma {:induction false} DigitsBefore(s: string, i: nat)
    requires i <= |s|
    ensures forall j :: i <= j < DigitsEnd(s, i) ==> IsDigit(s[j])
    ensures DigitsEnd(s, i) < |s| ==> !IsDigit(s[DigitsEnd(s, i)])
    decreases |s| - i
  {
    if i < |s| && IsDigit(s[i]) {
      DigitsBefore(s, i + 1);
    }
  }

  /** A zero in front does not count. */
  lemma {:induction false} LeadingZero(s: string, j: nat)
    requires j <= |s|
    ensures Value("0" + s, 0, j + 1) == Value(s, 0, j)
  {
    if j > 0 {
      LeadingZero(s, j - 1);
    } else {
      assert Value("0" + s, 0, 0) == 0;
    }
  }

  /** A printed number, with any sign in front and anything but a digit behind, is read as that number
      modulo SIZE_MAX + 1 if it fits and fails as SIZE_MAX if not; what is behind it stays. */
  lemma ScanNumeral(sign: string, n: nat, behind: string)
    requires IsSign(sign) && (behind != "" ==> !IsDigit(behind[0]))
    ensures ScanSize(sign + Decimal(n) + behind) ==
            var used := |sign| + |Decimal(n)|;
            if n > SIZE_MAX then Scan(SIZE_MAX, true, used)
            else Scan(if sign == "-" && n > 0 then SIZE_MAX + 1 - n else n, false, used)
  {
    ScanOperand(sign, Decimal(n), behind);
    ValueOfDecimal(n);
  }

  /** Reading what was printed gives the number back and takes the whole word. */
  lemma ScanDecimal(n: nat)
    requires n <= SIZE_MAX
    ensures ScanSize(Decimal(n)) == Scan(n, false, |Decimal(n)|)
  {
    ScanNumeral("", n, "");
    assert "" + Decimal(n) + "" == Decimal(n);
  }
}
