/** C strings: printing numbers with printf conversions and reading them back. */
module Text {

  /** A C string holds no NUL before its end. */
  predicate NoNul(s: string) {
    '\0' !in s
  }

  type Key = s: string | NoNul(s) witness ""

  function DigitChar(d: nat): (c: char)
    requires d < 16
    ensures c != '\0' && c != '.' && c != '-' && c != ' '
  {
    if d < 10 then ('0' as int + d) as char else ('a' as int + d - 10) as char
  }

  /** The value of a digit in the given base, or -1. */
  function DigitValue(c: char, base: nat): (v: int)
    ensures v == -1 || 0 <= v < base
  {
    var v := if '0' <= c <= '9' then c as int - '0' as int
             else if 'a' <= c <= 'f' then c as int - 'a' as int + 10
             else if 'A' <= c <= 'F' then c as int - 'A' as int + 10
             else -1;
    if v < base then v else -1
  }

  /** Bases that are printed; the reader also knows octal. */
  predicate PrintBase(base: nat) {
    base == 10 || base == 16
  }

  lemma DivideByBase(n: nat, base: nat)
    requires PrintBase(base)
    ensures n == n / base * base + n % base && n % base < base
    ensures n >= base ==> 0 < n / base < n
  {
    if base == 10 {
    } else {
      assert n == n / 16 * 16 + n % 16;
    }
  }

  /** `%d` / `%lu` / `%x` on a non-negative value. */
  function PrintNat(n: nat, base: nat): (s: string)
    requires PrintBase(base)
    ensures |s| > 0 && AllDigits(s, base)
    ensures s[0] == '0' <==> n == 0
    ensures n == 0 ==> s == "0"
    decreases n
  {
    DivideByBase(n, base);
    if n < base then [DigitChar(n)] else PrintNat(n / base, base) + [DigitChar(n % base)]
  }

  predicate AllDigits(s: string, base: nat) {
    forall i :: 0 <= i < |s| ==> DigitValue(s[i], base) >= 0
  }

  /** `%d` / `%lld`. */
  function PrintInt(n: int): (s: string)
    ensures |s| > 0
  {
    if n < 0 then "-" + PrintNat(-n, 10) else PrintNat(n, 10)
  }

  /** `%#x`: zero prints without the prefix. */
  function PrintHex(n: nat): string {
    if n == 0 then "0" else "0x" + PrintNat(n, 16)
  }

  /** The value of the longest run of digits at the front, continuing from acc. */
  function ScanDigits(s: string, base: nat, acc: nat): nat {
    if s == "" || DigitValue(s[0], base) < 0 then acc
    else ScanDigits(s[1..], base, acc * base + DigitValue(s[0], base))
  }

  predicate IsSpace(c: char) {
    c == ' ' || '\t' <= c <= '\r'
  }

  function SkipSpace(s: string): string {
    if s != "" && IsSpace(s[0]) then SkipSpace(s[1..]) else s
  }

  function StripSign(s: string): (bool, string) {
    if s != "" && s[0] == '-' then (true, s[1..])
    else if s != "" && s[0] == '+' then (false, s[1..])
    else (false, s)
  }

  /** atoi, on values that fit. */
  function Atoi(s: string): int {
    var (neg, digits) := StripSign(SkipSpace(s));
    var v: int := ScanDigits(digits, 10, 0);
    if neg then -v else v
  }

  /** The magnitude strtoul and strtoll read with base 0: a prefix selects the base. */
  function ScanBase0(s: string): nat {
    if |s| >= 3 && s[0] == '0' && (s[1] == 'x' || s[1] == 'X') && DigitValue(s[2], 16) >= 0 then
      ScanDigits(s[2..], 16, 0)
    else if s != "" && s[0] == '0' then ScanDigits(s, 8, 0)
    else ScanDigits(s, 10, 0)
  }

  const ULONG_MAX: nat := 0xFFFF_FFFF_FFFF_FFFF
  const LLONG_MAX: nat := 0x7FFF_FFFF_FFFF_FFFF
  const INT_MAX: nat := 0x7FFF_FFFF

  /** strtoul(s, NULL, 0): saturates, and negates modulo 2^64. */
  function Strtoul(s: string): nat {
    var (neg, digits) := StripSign(SkipSpace(s));
    var v := ScanBase0(digits);
    if v > ULONG_MAX then ULONG_MAX
    else if neg && v > 0 then ULONG_MAX + 1 - v
    else v
  }

  /** strtoll(s, NULL, 0): saturates at both ends. */
  function Strtoll(s: string): int {
    var (neg, digits) := StripSign(SkipSpace(s));
    var v: int := ScanBase0(digits);
    if neg then (if v > LLONG_MAX + 1 then -(LLONG_MAX + 1) else -v)
    else if v > LLONG_MAX then LLONG_MAX else v
  }

  lemma {:induction false} ScanAppend(a: string, c: char, base: nat, acc: nat)
    requires AllDigits(a, base) && DigitValue(c, base) >= 0
    ensures ScanDigits(a + [c], base, acc) == ScanDigits(a, base, acc) * base + DigitValue(c, base)
    decreases |a|
  {
    var s := a + [c];
    if a == "" {
      ScanStep([c], c, "", base, acc, acc * base + DigitValue(c, base));
      assert s == [c];
    } else {
      var more := acc * base + DigitValue(a[0], base);
      ScanStep(s, a[0], a[1..] + [c], base, acc, more);
      ScanStep(a, a[0], a[1..], base, acc, more);
      ScanAppend(a[1..], c, base, more);
    }
  }

  lemma ScanStep(s: string, c: char, rest: string, base: nat, acc: nat, more: nat)
    requires s == [c] + rest && DigitValue(c, base) >= 0 && more == acc * base + DigitValue(c, base)
    ensures ScanDigits(s, base, acc) == ScanDigits(rest, base, more)
  {
    assert s[1..] == rest;
  }

  /** Reading digits undoes printing them. */
  lemma {:induction false} ScanPrint(n: nat, base: nat)
    requires PrintBase(base)
    ensures ScanDigits(PrintNat(n, base), base, 0) == n
    decreases n
  {
    DivideByBase(n, base);
    if n < base {
      var c := DigitChar(n);
      assert PrintNat(n, base) == "" + [c];
      ScanAppend("", c, base, 0);
    } else {
      ScanPrint(n / base, base);
      ScanAppend(PrintNat(n / base, base), DigitChar(n % base), base, 0);
    }
  }

  function Power(base: nat, k: nat): (p: nat)
    requires base > 0
    ensures p > 0
  {
    if k == 0 then 1 else base * Power(base, k - 1)
  }

  lemma DivideTwice(n: nat, a: nat, b: nat)
    requires a > 0 && b > 0
    ensures n / a / b == n / (a * b)
  {
    var m, q, r1, r0 := n / a, n / a / b, n / a % b, n % a;
    EuclidOf(n, a);
    EuclidOf(m, b);
    TimesSum(q, b, r1, a);
    Multiples(r1, b, a);
    QuotientIs(n, a * b, q, r1 * a + r0);
  }

  lemma EuclidOf(n: nat, m: nat)
    requires m > 0
    ensures n == n / m * m + n % m && n % m < m
  {
  }

  lemma TimesSum(q: nat, b: nat, r: nat, a: nat)
    ensures (q * b + r) * a == q * (a * b) + r * a
  {
    assert (q * b + r) * a == (q * b) * a + r * a;
    assert (q * b) * a == q * (b * a);
  }

  lemma Multiples(r: nat, b: nat, a: nat)
    requires r < b && a > 0
    ensures r * a + a <= a * b
  {
    assert (b - r - 1) * a >= 0;
    assert (b - r - 1) * a == b * a - r * a - a;
  }

  lemma QuotientIs(n: nat, m: nat, q: nat, r: nat)
    requires m > 0 && n == q * m + r && r < m
    ensures n / m == q
  {
    EuclidOf(n, m);
    var d := n / m;
    assert (q - d) * m == q * m - d * m;
    SmallMultiple(q - d, m);
  }

  lemma SmallMultiple(k: int, m: int)
    requires 0 - m < k * m < m
    ensures k == 0
  {
    assert (-k) * m == 0 - k * m;
    if k > 0 {
      AtLeastOnce(k, m);
    } else if k < 0 {
      AtLeastOnce(-k, m);
    }
  }

  lemma {:induction false} AtLeastOnce(k: nat, m: int)
    requires k > 0 && m > 0
    ensures k * m >= m
  {
    if k > 1 {
      AtLeastOnce(k - 1, m);
      assert k * m == (k - 1) * m + m;
    }
  }

  /** Digit i of `len` digits of v, the most significant first. */
  function NthDigit(v: nat, base: nat, len: nat, i: nat): (d: nat)
    requires base > 0 && i < len
    ensures d < base
  {
    v / Power(base, len - 1 - i) % base
  }

  /** s is the numeral of v: its digits, lower case and most significant first, without a leading zero. */
  ghost predicate Numeral(s: string, v: nat, base: nat)
    requires base == 10 || base == 16
  {
    && |s| > 0 && v < Power(base, |s|) && (|s| > 1 ==> s[0] != '0')
    && forall i :: 0 <= i < |s| ==> s[i] == "0123456789abcdef"[NthDigit(v, base, |s|, i)]
  }

  /** Numbers print as their numerals. */
  lemma {:induction false} PrintsNumeral(n: nat, base: nat)
    requires PrintBase(base)
    ensures Numeral(PrintNat(n, base), n, base)
    decreases n
  {
    DivideByBase(n, base);
    assert Power(base, 0) == 1 && Power(base, 1) == base;
    DigitIs(n % base);
    if n >= base {
      PrintsNumeral(n / base, base);
      OneMoreDigit(PrintNat(n / base, base), n, base, PrintNat(n, base));
    }
  }

  lemma OneMoreDigit(front: string, n: nat, base: nat, s: string)
    requires PrintBase(base) && n >= base && Numeral(front, n / base, base)
    requires s == front + [DigitChar(n % base)] && front[0] != '0'
    ensures Numeral(s, n, base)
  {
    forall i | 0 <= i < |s|
      ensures s[i] == "0123456789abcdef"[NthDigit(n, base, |s|, i)]
    {
      if i < |front| {
        NthDigitLower(n, base, |s|, i);
      } else {
        assert Power(base, 0) == 1;
        DigitIs(n % base);
      }
    }
    RoomForDigit(n, base, Power(base, |front|));
  }

  lemma NthDigitLower(n: nat, base: nat, len: nat, i: nat)
    requires base > 0 && i + 1 < len
    ensures NthDigit(n, base, len, i) == NthDigit(n / base, base, len - 1, i)
  {
    DivideTwice(n, base, Power(base, len - 2 - i));
  }

  lemma DigitIs(d: nat)
    requires d < 16
    ensures DigitChar(d) == "0123456789abcdef"[d]
  {
  }

  lemma RoomForDigit(n: nat, base: nat, p: nat)
    requires base > 0 && n / base < p
    ensures n < base * p
  {
    assert n == n / base * base + n % base;
    Multiples(n / base, p, base);
  }

  /** `%#x`: 0x and the hexadecimal numeral; zero is plain. */
  lemma PrintsHex(n: nat)
    ensures PrintHex(0) == "0"
    ensures n > 0 ==> |PrintHex(n)| > 2 && PrintHex(n)[..2] == "0x" && Numeral(PrintHex(n)[2..], n, 16)
  {
    PrintsNumeral(n, 16);
  }

  /** `%d`: a minus sign where it is due, and the decimal numeral. */
  lemma PrintsInt(n: int)
    ensures n >= 0 ==> Numeral(PrintInt(n), n, 10)
    ensures n < 0 ==> PrintInt(n)[0] == '-' && Numeral(PrintInt(n)[1..], -n, 10)
  {
    PrintsNumeral(if n < 0 then -n else n, 10);
  }

  /** A run of digits reads as the number with these digits, in any base. */
  lemma {:induction false} ScanIsNumber(s: string, base: nat)
    requires base > 0 && AllDigits(s, base)
    ensures var v := ScanDigits(s, base, 0);
            && v < Power(base, |s|)
            && forall i :: 0 <= i < |s| ==> NthDigit(v, base, |s|, i) == DigitValue(s[i], base)
    decreases |s|
  {
    if s != "" {
      var front, d := s[..|s| - 1], DigitValue(s[|s| - 1], base);
      assert s == front + [s[|s| - 1]];
      ScanIsNumber(front, base);
      ScanAppend(front, s[|s| - 1], base, 0);
      var v, high := ScanDigits(s, base, 0), ScanDigits(front, base, 0);
      QuotientIs(v, base, high, d);
      EuclidOf(v, base);
      Multiples(high, Power(base, |front|), base);
      forall i | 0 <= i < |s|
        ensures NthDigit(v, base, |s|, i) == DigitValue(s[i], base)
      {
        if i < |front| {
          NthDigitLower(v, base, |s|, i);
        } else {
          assert Power(base, 0) == 1;
        }
      }
    }
  }

  /** Whatever follows the digits is not read. */
  lemma {:induction false} ScanStops(s: string, rest: string, base: nat, acc: nat)
    requires AllDigits(s, base) && (rest != "" ==> DigitValue(rest[0], base) < 0)
    ensures ScanDigits(s + rest, base, acc) == ScanDigits(s, base, acc)
    decreases |s|
  {
    if s == "" {
      assert s + rest == rest;
    } else {
      assert (s + rest)[1..] == s[1..] + rest;
      ScanStops(s[1..], rest, base, acc * base + DigitValue(s[0], base));
    }
  }

  /** The prefix tells the base: 0x for sixteen, another 0 for eight, otherwise ten. */
  lemma PrefixTellsBase(s: string)
    requires s != ""
    ensures AllDigits(s, 16) ==> ScanBase0("0x" + s) == ScanBase0("0X" + s) == ScanDigits(s, 16, 0)
    ensures AllDigits(s, 8) ==> ScanBase0("0" + s) == ScanDigits(s, 8, 0)
    ensures AllDigits(s, 10) && s[0] != '0' ==> ScanBase0(s) == ScanDigits(s, 10, 0)
  {
    if AllDigits(s, 16) {
      assert ("0x" + s)[2..] == s && ("0X" + s)[2..] == s && ("0x" + s)[2] == s[0];
    }
    if AllDigits(s, 8) {
      assert ("0" + s)[1..] == s && ("0" + s)[1] == s[0];
    }
  }

  /** Space before a number is skipped and a sign is heeded. */
  lemma AtoiHeedsSign(s: string)
    requires s != "" && AllDigits(s, 10)
    ensures var v: int := ScanDigits(s, 10, 0);
            && Atoi(s) == Atoi(" " + s) == Atoi("+" + s) == v
            && Atoi("-" + s) == Atoi(" -" + s) == 0 - v
  {
    DigitsArePlain(s, 10);
    assert (" " + s)[1..] == s && ("+" + s)[1..] == s && ("-" + s)[1..] == s;
    assert (" -" + s)[1..] == "-" + s;
    assert ("+" + s)[0] == '+' && ("-" + s)[0] == '-' && (" " + s)[0] == ' ' && (" -" + s)[0] == ' ';
  }

  /** The same for strtoll and strtoul; strtoul negates modulo 2^64. */
  lemma StrtoHeedsSign(s: string)
    requires s != "" && AllDigits(s, 10) && s[0] != '0' && 0 < ScanDigits(s, 10, 0) <= LLONG_MAX
    ensures var v: int := ScanDigits(s, 10, 0);
            && Strtoll(s) == Strtoll("+" + s) == v && Strtoll("-" + s) == 0 - v
            && Strtoul(s) == Strtoul("+" + s) == v && Strtoul("-" + s) == ULONG_MAX + 1 - v
  {
    DigitsArePlain(s, 10);
    PrefixTellsBase(s);
    assert ("+" + s)[1..] == s && ("-" + s)[1..] == s;
    assert ("+" + s)[0] == '+' && ("-" + s)[0] == '-';
  }

  lemma DigitsArePlain(s: string, base: nat)
    requires AllDigits(s, base)
    ensures forall i :: 0 <= i < |s| ==> s[i] != '\0' && s[i] != '.' && s[i] != '-' && s[i] != '+' && !IsSpace(s[i])
  {
  }

  lemma AtoiPrintInt(n: int)
    ensures Atoi(PrintInt(n)) == n
    ensures NoNul(PrintInt(n))
    ensures '.' !in PrintInt(n)
  {
    var m: nat := if n < 0 then -n else n;
    var s := PrintNat(m, 10);
    DigitsArePlain(s, 10);
    ScanPrint(m, 10);
    if n < 0 {
      assert PrintInt(n)[0] == '-';
      assert PrintInt(n)[1..] == s;
    }
  }

  /** Decimal and %#x text of every value is re-read correctly with base 0. */
  lemma Base0Print(m: nat)
    ensures ScanBase0(PrintNat(m, 10)) == m
    ensures ScanBase0(PrintHex(m)) == m
    ensures NoNul(PrintHex(m))
  {
    ScanPrint(m, 10);
    ScanPrint(m, 16);
    if m == 0 {
      assert ScanDigits("0", 8, 0) == ScanDigits(("0")[1..], 8, 0) == 0;
    } else {
      var x := PrintNat(m, 16);
      DigitsArePlain(x, 16);
      assert PrintHex(m)[2..] == x;
      assert x[0] != '0';
      assert PrintHex(m)[2] == x[0];
    }
  }

  lemma StrtoulPrint(m: nat)
    requires m <= ULONG_MAX
    ensures Strtoul(PrintNat(m, 10)) == m
    ensures Strtoul(PrintHex(m)) == m
    ensures NoNul(PrintNat(m, 10))
  {
    Base0Print(m);
    DigitsArePlain(PrintNat(m, 10), 10);
    assert PrintHex(m)[0] == '0';
  }

  lemma StrtollPrint(n: int)
    requires -(LLONG_MAX + 1) <= n <= LLONG_MAX
    ensures Strtoll(PrintInt(n)) == n
  {
    var m: nat := if n < 0 then -n else n;
    Base0Print(m);
    DigitsArePlain(PrintNat(m, 10), 10);
    if n < 0 {
      assert PrintInt(n)[0] == '-';
      assert PrintInt(n)[1..] == PrintNat(m, 10);
    }
  }

  /** The decimal key of a rank. */
  function Dec(n: nat): (k: Key)
    ensures Atoi(k) == n
    ensures '.' !in k && |k| > 0
  {
    AtoiPrintInt(n);
    PrintInt(n)
  }

  /** The key is the canonical decimal of a rank below n. */
  predicate IsRank(k: string, n: nat) {
    var v := Atoi(k);
    0 <= v < n && k == Dec(v)
  }

  /** Text up to a dot determines both sides of it. */
  lemma {:induction false} SplitAtDot(a: string, b: string, c: string, d: string)
    requires '.' !in a && '.' !in c
    requires a + "." + b == c + "." + d
    ensures a == c && b == d
  {
    var l, r := a + "." + b, c + "." + d;
    assert l[|a|] == '.' && r[|c|] == '.';
    assert forall i :: 0 <= i < |a| ==> l[i] != '.';
    assert forall i :: 0 <= i < |c| ==> r[i] != '.';
    assert l[..|a|] == a && r[..|c|] == c;
    assert l[|a| + 1..] == b && r[|c| + 1..] == d;
  }

  function Pow10(k: nat): nat {
    if k == 0 then 1 else 10 * Pow10(k - 1)
  }

  lemma {:induction false} FewDigits(n: nat, k: nat)
    requires k > 0 && n < Pow10(k)
    ensures |PrintNat(n, 10)| <= k
    decreases k
  {
    DivideByBase(n, 10);
    if n >= 10 {
      assert Pow10(1) == 10;
      FewDigits(n / 10, k - 1);
    }
  }

  /** An int prints in at most ten digits. */
  lemma DecIsShort(n: nat)
    requires n <= INT_MAX
    ensures |Dec(n)| <= 10
  {
    assert Pow10(5) == 100000;
    assert Pow10(10) == 10000000000;
    FewDigits(n, 10);
  }
}
