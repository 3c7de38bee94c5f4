/** Decimal numerals as Python writes and reads them: `str(n)`, `f"{n:06d}"` and `int(text)`. */
module Digits {
  import opened Wrappers

  predicate IsDigit(c: char) {
    '0' <= c <= '9'
  }

  predicate AllDigits(s: string) {
    forall i | 0 <= i < |s| :: IsDigit(s[i])
  }

  function DigitChar(d: nat): (c: char)
    requires d < 10
    ensures IsDigit(c) && DigitVal(c) == d
  {
    ('0' as int + d) as char
  }

  function DigitVal(c: char): (d: nat)
    requires IsDigit(c)
    ensures d < 10
  {
    c as int - '0' as int
  }

  /** The characters are the ten decimal digits, in order. */
  lemma DigitText(d: nat)
    requires d < 10
    ensures DigitChar(d) == "0123456789"[d]
  {
  }

  /** `str(n)` for a natural number. */
  function Str(n: nat): (s: string)
    ensures s != "" && AllDigits(s)
  {
    if n < 10 then [DigitChar(n)] else Str(n / 10) + [DigitChar(n % 10)]
  }

  /** `str(n)` for any integer. */
  function IntStr(n: int): string {
    if n < 0 then "-" + Str(-n) else Str(n)
  }

  /** The last `width` digits of `n`; for `n < 10^width` this is `f"{n:0{width}d}"`. */
  function Padded(n: nat, width: nat): (s: string)
    ensures |s| == width && AllDigits(s)
  {
    if width == 0 then "" else Padded(n / 10, width - 1) + [DigitChar(n % 10)]
  }

  /** The number a digit string denotes. */
  function Val(s: string): nat
    requires AllDigits(s)
  {
    if s == "" then 0 else 10 * Val(s[..|s| - 1]) + DigitVal(s[|s| - 1])
  }

  function Pow10(k: nat): (p: nat)
    ensures p > 0
  {
    if k == 0 then 1 else 10 * Pow10(k - 1)
  }

  lemma ValSnoc(s: string, c: char)
    requires AllDigits(s) && IsDigit(c)
    ensures AllDigits(s + [c]) && Val(s + [c]) == 10 * Val(s) + DigitVal(c)
  {
    assert (s + [c])[..|s|] == s;
  }

  lemma {:induction false} ValStr(n: nat)
    ensures Val(Str(n)) == n
  {
    if n >= 10 {
      ValStr(n / 10);
      ValSnoc(Str(n / 10), DigitChar(n % 10));
    }
  }

  lemma StrInjective(m: nat, n: nat)
    requires Str(m) == Str(n)
    ensures m == n
  {
    ValStr(m);
    ValStr(n);
  }

  /** Longer numbers never have shorter numerals: binding keys only gain digits. */
  lemma {:induction false} StrLengthMonotone(m: nat, n: nat)
    requires m <= n
    ensures |Str(m)| <= |Str(n)|
  {
    if n >= 10 && m >= 10 {
      StrLengthMonotone(m / 10, n / 10);
    }
  }

  lemma {:induction false} ValPadded(n: nat, width: nat)
    requires n < Pow10(width)
    ensures Val(Padded(n, width)) == n
  {
    if width > 0 {
      ValPadded(n / 10, width - 1);
      ValSnoc(Padded(n / 10, width - 1), DigitChar(n % 10));
    }
  }

  lemma {:induction false} ValBelow(s: string)
    requires AllDigits(s)
    ensures Val(s) < Pow10(|s|)
  {
    if s != "" {
      ValBelow(s[..|s| - 1]);
    }
  }

  /** Appending zeros scales a digit string. */
  lemma {:induction false} ValAppendZeros(s: string, zeros: string)
    requires AllDigits(s) && forall i | 0 <= i < |zeros| :: zeros[i] == '0'
    ensures AllDigits(s + zeros) && Val(s + zeros) == Val(s) * Pow10(|zeros|)
  {
    if zeros == "" {
      assert s + zeros == s;
    } else {
      var init := zeros[..|zeros| - 1];
      ValAppendZeros(s, init);
      ValSnoc(s + init, '0');
      assert s + zeros == s + init + ['0'];
      ScaleOnce(Val(s), |init|);
    }
  }

  lemma ScaleOnce(n: nat, k: nat)
    ensures 10 * (n * Pow10(k)) == n * Pow10(k + 1)
  {
  }

  /** Python's `int(text)` on ASCII text without underscores or spaces; `None` is ValueError. */
  function ParseInt(s: string): Option<int> {
    if s != "" && AllDigits(s) then Some(Val(s))
    else if |s| > 1 && s[0] == '-' && AllDigits(s[1..]) then var v: int := 0 - (Val(s[1..]) as int); Some(v)
    else if |s| > 1 && s[0] == '+' && AllDigits(s[1..]) then Some(Val(s[1..]))
    else None
  }

  lemma ParseIntStr(n: int)
    ensures ParseInt(IntStr(n)) == Some(n)
  {
    if n < 0 {
      ValStr(-n);
      assert IntStr(n)[1..] == Str(-n);
    } else {
      ValStr(n);
    }
  }
}
