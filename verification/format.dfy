/** The number and string formatting the report applies to its fields:
    `%X` and `%08X` (upper-case hexadecimal, zero-padded to width 8),
    `%d` (decimal) and `str.lstrip("0")` for firmware revisions. */
module Format {

  /** `c` is a digit of the given base (at most 16), letters upper-case only. */
  predicate IsDigit(c: char, base: nat) {
    || ('0' <= c <= '9' && (c as int - '0' as int) < base)
    || ('A' <= c <= 'F' && (c as int - 'A' as int) + 10 < base)
  }

  predicate AllDigits(s: string, base: nat) {
    forall i :: 0 <= i < |s| ==> IsDigit(s[i], base)
  }

  function DigitChar(d: nat): (c: char)
    requires d < 16
    ensures IsDigit(c, d + 1)
    ensures !IsDigit(c, d)
  {
    if d < 10 then ('0' as int + d) as char else ('A' as int + d - 10) as char
  }

  function DigitValue(c: char): (d: nat)
    requires IsDigit(c, 16)
    ensures d < 16 && DigitChar(d) == c
    ensures IsDigit(c, d + 1) && !IsDigit(c, d)
  {
    if '0' <= c <= '9' then c as int - '0' as int else c as int - 'A' as int + 10
  }

  function Pow(base: nat, k: nat): (p: nat)
    ensures base >= 1 ==> p >= 1
  {
    if k == 0 then 1 else base * Pow(base, k - 1)
  }

  /** The number a digit string denotes, most significant digit first. */
  function Value(s: string, base: nat): nat
    requires 2 <= base <= 16 && AllDigits(s, base)
    decreases |s|
  {
    if s == [] then 0 else Value(s[..|s| - 1], base) * base + DigitValue(s[|s| - 1])
  }

  lemma DigitInBase(d: nat, base: nat)
    requires d < base <= 16
    ensures IsDigit(DigitChar(d), base)
  {
  }

  /** The shortest numeral of `n` (what `%X` and `%d` print for a
      non-negative number); `NumeralValue` shows it denotes `n`. */
  function Numeral(n: nat, base: nat): (r: string)
    requires 2 <= base <= 16
    ensures |r| >= 1 && AllDigits(r, base)
    decreases n
  {
    if n < base then
      DigitInBase(n, base);
      [DigitChar(n)]
    else
      DivMod(n, base);
      DigitInBase(n % base, base);
      Numeral(n / base, base) + [DigitChar(n % base)]
  }

  function Zeros(k: nat): (z: string)
    ensures |z| == k && forall i :: 0 <= i < k ==> z[i] == '0'
  {
    seq(k, _ => '0')
  }

  /** `s` left-padded with '0' to at least `width` characters. */
  function ZeroPad(s: string, width: nat): (r: string)
    ensures |r| == if |s| >= width then |s| else width
    ensures r == Zeros(|r| - |s|) + s
  {
    if |s| >= width then s else Zeros(width - |s|) + s
  }

  /** Python's `"%08X" % n`. A negative number prints as '-' followed by
      its magnitude, zero-padded so that the whole field has width 8. */
  function Hex8(n: int): string {
    if n >= 0 then ZeroPad(Numeral(n, 16), 8) else "-" + ZeroPad(Numeral(-n, 16), 7)
  }

  /** What `%08X` prints: exactly eight hexadecimal digits for a 32-bit
      serial number, more (without a leading zero) from 2^32 on, and a sign
      followed by the digits of the magnitude for a negative number; in
      every case the digits denote the number. */
  lemma Hex8Value(n: int)
    ensures 0 <= n < 0x1_0000_0000 ==> |Hex8(n)| == 8
    ensures n >= 0 ==> |Hex8(n)| >= 8 && AllDigits(Hex8(n), 16) && Value(Hex8(n), 16) == n
    ensures n >= 0x1_0000_0000 ==> |Hex8(n)| > 8 && Hex8(n)[0] != '0'
    ensures n < 0 ==>
      |Hex8(n)| >= 8 && Hex8(n)[0] == '-' && AllDigits(Hex8(n)[1..], 16) && Value(Hex8(n)[1..], 16) == -n
    ensures -0x1000_0000 < n < 0 ==> |Hex8(n)| == 8
    ensures n <= -0x1000_0000 ==> |Hex8(n)| > 8 && Hex8(n)[1] != '0'
  {
    if n >= 0 {
      PaddedNumeral(n, 8);
      Width8(n);
    } else {
      Hex8Negative(n);
    }
  }

  /** The negative half of `Hex8Value`. */
  lemma Hex8Negative(n: int)
    requires n < 0
    ensures |Hex8(n)| >= 8 && Hex8(n)[0] == '-'
    ensures AllDigits(Hex8(n)[1..], 16) && Value(Hex8(n)[1..], 16) == -n
    ensures n > -0x1000_0000 <==> |Hex8(n)| == 8
    ensures n <= -0x1000_0000 ==> Hex8(n)[1] != '0'
  {
    var digits := ZeroPad(Numeral(-n, 16), 7);
    Pad7(-n);
    assert Hex8(n) == "-" + digits;
    assert Hex8(n)[1..] == digits;
  }

  /** Magnitudes printed after the sign: seven digits up to 16^7, more from there on. */
  lemma Pad7(m: nat)
    ensures AllDigits(ZeroPad(Numeral(m, 16), 7), 16) && Value(ZeroPad(Numeral(m, 16), 7), 16) == m
    ensures m < 0x1000_0000 <==> |ZeroPad(Numeral(m, 16), 7)| == 7
    ensures m >= 0x1000_0000 ==> ZeroPad(Numeral(m, 16), 7)[0] != '0'
  {
    PaddedNumeral(m, 7);
    Width7(m);
  }

  /** A zero-padded hexadecimal numeral still denotes its number. */
  lemma PaddedNumeral(n: nat, width: nat)
    ensures AllDigits(ZeroPad(Numeral(n, 16), width), 16)
    ensures Value(ZeroPad(Numeral(n, 16), width), 16) == n
  {
    var h := Numeral(n, 16);
    NumeralValue(n, 16);
    ValueLeadingZeros(|ZeroPad(h, width)| - |h|, h, 16);
  }

  lemma Pow16To8()
    ensures Pow(16, 8) == 0x1_0000_0000
  {
    assert Pow(16, 2) == 0x100;
    assert Pow(16, 4) == 0x1_0000 by {
      assert Pow(16, 3) == 16 * Pow(16, 2);
    }
    assert Pow(16, 6) == 0x100_0000 by {
      assert Pow(16, 5) == 16 * Pow(16, 4);
    }
    assert Pow(16, 7) == 16 * Pow(16, 6);
  }

  /** `%X` needs more than 8 digits exactly from 2^32 on, and a longer
      numeral has no leading zero. */
  lemma Width8(n: nat)
    ensures n < 0x1_0000_0000 <==> |Numeral(n, 16)| <= 8
    ensures n >= 0x1_0000_0000 ==> Numeral(n, 16)[0] != '0'
  {
    Pow16To8();
    NumeralLength(n, 16, 8);
    NumeralValue(n, 16);
  }

  /** The magnitude of a negative number fills the seven places after the
      sign exactly below 16^7; a longer numeral has no leading zero. */
  lemma Width7(n: nat)
    ensures n < 0x1000_0000 <==> |Numeral(n, 16)| <= 7
    ensures n >= 0x1000_0000 ==> Numeral(n, 16)[0] != '0'
  {
    Pow16To8();
    assert Pow(16, 8) == 16 * Pow(16, 7);
    NumeralLength(n, 16, 7);
    NumeralValue(n, 16);
  }

  /** Python's `"%d" % n` for a count. */
  function Decimal(n: nat): string {
    Numeral(n, 10)
  }

  /** The printed count denotes the count and has no leading zero, unless
      the count is zero and prints as "0". */
  lemma DecimalValue(n: nat)
    ensures |Decimal(n)| >= 1 && AllDigits(Decimal(n), 10) && Value(Decimal(n), 10) == n
    ensures Decimal(n)[0] == '0' ==> n == 0 && Decimal(n) == "0"
  {
    NumeralValue(n, 10);
  }

  /** Python's `s.lstrip("0")`: the leading run of '0' characters removed. */
  function StripLeadingZeros(s: string): (r: string)
    ensures |r| <= |s| && r == s[|s| - |r|..]
    ensures forall i :: 0 <= i < |s| - |r| ==> s[i] == '0'
    ensures r == [] || r[0] != '0'
    decreases |s|
  {
    if |s| > 0 && s[0] == '0' then StripLeadingZeros(s[1..]) else s
  }

  // ---------------------------------------------------------------------
  // Lemmas about numerals

  lemma DivMod(n: nat, base: nat)
    requires base >= 2
    ensures n == (n / base) * base + n % base && 0 <= n % base < base
    ensures n >= base ==> 1 <= n / base < n
  {
  }

  /** The numeral of `n` denotes `n` and has no leading zero unless it is "0". */
  lemma {:induction false} NumeralValue(n: nat, base: nat)
    requires 2 <= base <= 16
    ensures Value(Numeral(n, base), base) == n
    ensures Numeral(n, base)[0] == '0' ==> n == 0 && Numeral(n, base) == "0"
    decreases n
  {
    if n >= base {
      DivMod(n, base);
      var high := Numeral(n / base, base);
      var r := Numeral(n, base);
      assert r[..|r| - 1] == high;
      NumeralValue(n / base, base);
      assert Value(r, base) == Value(high, base) * base + n % base;
    }
  }

  lemma Regroup(x: int, p: int, y: int, base: int, d: int)
    ensures (x * p + y) * base + d == x * (base * p) + (y * base + d)
  {
    assert (x * p) * base == x * (base * p);
  }

  lemma {:induction false} ValueAppend(a: string, b: string, base: nat)
    requires 2 <= base <= 16 && AllDigits(a, base) && AllDigits(b, base)
    ensures AllDigits(a + b, base)
    ensures Value(a + b, base) == Value(a, base) * Pow(base, |b|) + Value(b, base)
    decreases |b|
  {
    if b == [] {
      assert a + b == a;
    } else {
      var b' := b[..|b| - 1];
      var d := DigitValue(b[|b| - 1]);
      assert (a + b)[..|a + b| - 1] == a + b';
      assert (a + b)[|a + b| - 1] == b[|b| - 1];
      ValueAppend(a, b', base);
      Regroup(Value(a, base), Pow(base, |b'|), Value(b', base), base, d);
    }
  }

  lemma {:induction false} ValueOfZeros(k: nat, base: nat)
    requires 2 <= base <= 16
    ensures AllDigits(Zeros(k), base) && Value(Zeros(k), base) == 0
  {
    if k > 0 {
      assert Zeros(k)[..k - 1] == Zeros(k - 1);
      ValueOfZeros(k - 1, base);
    }
  }

  /** Leading zeros do not change the value of a numeral. */
  lemma ValueLeadingZeros(k: nat, s: string, base: nat)
    requires 2 <= base <= 16 && AllDigits(s, base)
    ensures AllDigits(Zeros(k) + s, base) && Value(Zeros(k) + s, base) == Value(s, base)
  {
    ValueOfZeros(k, base);
    ValueAppend(Zeros(k), s, base);
  }

  lemma DivBelow(n: nat, base: nat, m: nat)
    requires base >= 1
    ensures n / base < m <==> n < m * base
  {
    var q, r := n / base, n % base;
    assert n == q * base + r && 0 <= r < base;
    if q < m {
      assert q + 1 <= m;
      assert (q + 1) * base <= m * base;
    } else {
      assert q * base >= m * base;
    }
  }

  /** The shortest numeral of `n` has at most `k` digits exactly when
      `n < base^k`. */
  lemma {:induction false} NumeralLength(n: nat, base: nat, k: nat)
    requires 2 <= base <= 16 && k >= 1
    ensures |Numeral(n, base)| <= k <==> n < Pow(base, k)
    decreases n
  {
    var p := Pow(base, k - 1);
    assert Pow(base, k) == base * p;
    if n < base {
      assert base * p >= base;
    } else {
      DivMod(n, base);
      var q := n / base;
      assert |Numeral(n, base)| == |Numeral(q, base)| + 1;
      DivBelow(n, base, p);
      assert p * base == base * p;
      if k == 1 {
        assert p == 1;
      } else {
        NumeralLength(q, base, k - 1);
      }
    }
  }

  /** Distinct numbers print differently under `%08X`, so element ids built
      from distinct serial numbers are distinct. */
  lemma Hex8Injective(a: int, b: int)
    requires Hex8(a) == Hex8(b)
    ensures a == b
  {
    Hex8Value(a);
    Hex8Value(b);
  }

  /** The decimal numeral of a count determines the count. */
  lemma DecimalInjective(a: nat, b: nat)
    requires Decimal(a) == Decimal(b)
    ensures a == b
  {
    DecimalValue(a);
    DecimalValue(b);
  }

  // ---------------------------------------------------------------------
  // Lemmas about `lstrip("0")`

  /** Stripping is characterised by its two properties: whatever drops a
      run of zeros and leaves no leading zero is `StripLeadingZeros`. */
  lemma {:induction false} StripLeadingZerosUnique(k: nat, t: string)
    requires t == [] || t[0] != '0'
    ensures StripLeadingZeros(Zeros(k) + t) == t
  {
    if k == 0 {
      assert Zeros(0) + t == t;
    } else {
      assert (Zeros(k) + t)[1..] == Zeros(k - 1) + t;
      StripLeadingZerosUnique(k - 1, t);
    }
  }

  lemma StripLeadingZerosIdempotent(s: string)
    ensures StripLeadingZeros(StripLeadingZeros(s)) == StripLeadingZeros(s)
  {
  }

  /** A revision with leading zeros loses them; one without is unchanged. */
  lemma StripLeadingZerosExample()
    ensures StripLeadingZeros("007.1") == "7.1"
  {
    assert Zeros(2) + "7.1" == "007.1";
    StripLeadingZerosUnique(2, "7.1");
  }

  lemma StripLeadingZerosUnchanged()
    ensures StripLeadingZeros("1.0") == "1.0"
  {
  }

  /** An all-zero revision strips to nothing. */
  lemma StripLeadingZerosAllZero()
    ensures StripLeadingZeros("000") == ""
  {
    assert "000"[1..] == "00";
    assert "00"[1..] == "0";
    assert "0"[1..] == "";
  }
}
