/** Decimal digit strings and the numbers they spell. */
module Digits {
  predicate IsDigit(c: char) { '0' <= c <= '9' }

  predicate AllDigits(s: string) { forall i | 0 <= i < |s| :: IsDigit(s[i]) }

  function DigitOf(c: char): nat
    requires IsDigit(c)
  {
    c as int - '0' as int
  }

  function CharOf(n: nat): (c: char)
    requires n < 10
    ensures IsDigit(c) && DigitOf(c) == n
  {
    ('0' as int + n) as char
  }

  function Pow10(n: nat): (p: nat)
    ensures p > 0
  {
    if n == 0 then 1 else 10 * Pow10(n - 1)
  }

  /** The number a string of digits spells. */
  function ValueOf(s: string): nat
    requires AllDigits(s)
  {
    if s == "" then 0 else 10 * ValueOf(s[..|s| - 1]) + DigitOf(s[|s| - 1])
  }

  function Zeros(n: nat): (s: string)
    ensures |s| == n && AllDigits(s)
  {
    seq(n, _ => '0')
  }

  /** The last `n` digits of `v`, with leading zeros. */
  function DigitsOf(v: nat, n: nat): (s: string)
    ensures |s| == n && AllDigits(s)
  {
    if n == 0 then "" else DigitsOf(v / 10, n - 1) + [CharOf(v % 10)]
  }

  /** `v` without its last `n` digits. */
  function Dropped(v: nat, n: nat): nat {
    if n == 0 then v else Dropped(v / 10, n - 1)
  }

  /** The shortest decimal numeral of `v`. */
  function Dec(v: nat): (s: string)
    ensures s != "" && AllDigits(s)
  {
    if v < 10 then [CharOf(v)] else Dec(v / 10) + [CharOf(v % 10)]
  }

  function TrimZeros(s: string): (t: string)
    ensures |t| <= |s| && t == s[..|t|]
  {
    if s != "" && s[|s| - 1] == '0' then TrimZeros(s[..|s| - 1]) else s
  }

  function StripLeadingZeros(s: string): string {
    if s == "" then "0" else if s[0] == '0' then StripLeadingZeros(s[1..]) else s
  }

  // ---- Numerals and numbers

  lemma {:induction false} ValueIsBounded(s: string)
    requires AllDigits(s)
    ensures ValueOf(s) < Pow10(|s|)
  {
    if s != "" { ValueIsBounded(s[..|s| - 1]); }
  }

  lemma {:induction false} ValueOfJoined(a: string, b: string)
    requires AllDigits(a) && AllDigits(b)
    ensures ValueOf(a + b) == ValueOf(a) * Pow10(|b|) + ValueOf(b)
  {
    if b == "" {
      assert a + b == a;
    } else {
      var init, last := b[..|b| - 1], DigitOf(b[|b| - 1]);
      assert (a + b)[..|a + b| - 1] == a + init;
      ValueOfJoined(a, init);
      Shift(ValueOf(a), ValueOf(init), last, |init|);
    }
  }

  lemma {:induction false} PowersOfTen(a: nat, b: nat)
    ensures Pow10(a + b) == Pow10(a) * Pow10(b)
  {
    if a > 0 {
      PowersOfTen(a - 1, b);
      assert Pow10(a) * Pow10(b) == 10 * (Pow10(a - 1) * Pow10(b));
    }
  }

  lemma Shift(hi: nat, lo: nat, last: nat, n: nat)
    ensures 10 * (hi * Pow10(n) + lo) + last == hi * Pow10(n + 1) + (10 * lo + last)
  {
    var p := Pow10(n);
    assert 10 * (hi * p) == hi * (10 * p);
  }

  lemma {:induction false} ZerosAreNothing(n: nat)
    ensures ValueOf(Zeros(n)) == 0
  {
    if n > 0 {
      assert Zeros(n)[..n - 1] == Zeros(n - 1);
      ZerosAreNothing(n - 1);
    }
  }

  lemma AnotherDigit(s: string)
    requires AllDigits(s) && s != ""
    ensures ValueOf(s) / 10 == ValueOf(s[..|s| - 1]) && CharOf(ValueOf(s) % 10) == s[|s| - 1]
  {}

  /** The last `n` digits of what a string spells are its last `n` characters. */
  lemma {:induction false} DigitsSpellTheString(s: string, n: nat)
    requires AllDigits(s) && n <= |s|
    ensures DigitsOf(ValueOf(s), n) == s[|s| - n..]
  {
    if n > 0 {
      var init := s[..|s| - 1];
      DigitsSpellTheString(init, n - 1);
      AnotherDigit(s);
      assert s[|s| - n..] == init[|init| - (n - 1)..] + [s[|s| - 1]];
    }
  }

  /** And the others spell the rest. */
  lemma {:induction false} TheRestIsDropped(s: string, n: nat)
    requires AllDigits(s) && n <= |s|
    ensures Dropped(ValueOf(s), n) == ValueOf(s[..|s| - n])
  {
    if n == 0 {
      assert s[..|s|] == s;
    } else {
      var init := s[..|s| - 1];
      TheRestIsDropped(init, n - 1);
      AnotherDigit(s);
      assert s[..|s| - n] == init[..|init| - (n - 1)];
    }
  }

  /** A number is its leading part shifted, plus its last `n` digits. */
  lemma {:induction false} SplitAtDigit(v: nat, n: nat)
    ensures v == Dropped(v, n) * Pow10(n) + ValueOf(DigitsOf(v, n))
    ensures ValueOf(DigitsOf(v, n)) < Pow10(n)
  {
    ValueIsBounded(DigitsOf(v, n));
    if n > 0 {
      SplitAtDigit(v / 10, n - 1);
      assert DigitsOf(v, n)[..n - 1] == DigitsOf(v / 10, n - 1);
      Shift(Dropped(v, n), ValueOf(DigitsOf(v / 10, n - 1)), v % 10, n - 1);
    }
  }

  lemma {:induction false} ValueOfDec(v: nat)
    ensures ValueOf(Dec(v)) == v
    ensures v > 0 ==> Dec(v)[0] != '0'
  {
    if v < 10 {
      assert Dec(v)[..0] == "";
      assert ValueOf(Dec(v)) == 10 * ValueOf("") + v;
    } else {
      ValueOfDec(v / 10);
      assert Dec(v)[..|Dec(v)| - 1] == Dec(v / 10);
    }
  }

  lemma ALeadingZeroIsNothing(s: string)
    requires AllDigits(s) && s != "" && s[0] == '0'
    ensures ValueOf(s) == ValueOf(s[1..])
  {
    var zero := [s[0]];
    assert s == zero + s[1..];
    ValueOfJoined(zero, s[1..]);
    assert zero == Zeros(1);
    ZerosAreNothing(1);
  }

  /** A numeral without a leading zero is the shortest one of its value. */
  lemma {:induction false} UnpaddedIsDec(s: string)
    requires AllDigits(s) && s != "" && (s[0] != '0' || |s| == 1)
    ensures s == Dec(ValueOf(s))
    ensures s[0] != '0' ==> ValueOf(s) > 0
  {
    var init, last := s[..|s| - 1], DigitOf(s[|s| - 1]);
    assert s == init + [s[|s| - 1]];
    if |s| > 1 {
      UnpaddedIsDec(init);
      assert ValueOf(s) / 10 == ValueOf(init);
      assert CharOf(last) == s[|s| - 1];
    } else {
      assert ValueOf(init) == 0;
      assert CharOf(last) == s[0];
    }
  }

  lemma {:induction false} StrippedIsDec(s: string)
    requires AllDigits(s)
    ensures StripLeadingZeros(s) == Dec(ValueOf(s))
  {
    if s == "" {
      assert Dec(0) == "0";
    } else if s[0] == '0' {
      StrippedIsDec(s[1..]);
      ALeadingZeroIsNothing(s);
    } else {
      UnpaddedIsDec(s);
    }
  }

  // ---- Trailing zeros

  lemma {:induction false} TrimmedZerosWereZeros(s: string)
    ensures s == TrimZeros(s) + Zeros(|s| - |TrimZeros(s)|)
    ensures TrimZeros(s) != "" ==> TrimZeros(s)[|TrimZeros(s)| - 1] != '0'
  {
    if s != "" && s[|s| - 1] == '0' { TrimmedZerosWereZeros(s[..|s| - 1]); }
  }

  /** Appended zeros are trimmed away again. */
  lemma {:induction false} ZerosAreTrimmed(s: string, n: nat)
    ensures TrimZeros(s + Zeros(n)) == TrimZeros(s)
  {
    if n == 0 {
      assert s + Zeros(0) == s;
    } else {
      assert (s + Zeros(n))[..|s| + n - 1] == s + Zeros(n - 1);
      ZerosAreTrimmed(s, n - 1);
    }
  }

  /** Trimming before a cut changes nothing that is left after trimming the cut. */
  lemma TrimThenCut(s: string, t: string, zeros: nat, p: nat)
    requires s == t + Zeros(zeros) && p <= |s|
    ensures TrimZeros(t[..if |t| <= p then |t| else p]) == TrimZeros(s[..p])
  {
    if |t| <= p {
      assert s[..p] == t + Zeros(p - |t|);
      ZerosAreTrimmed(t, p - |t|);
      assert t[..|t|] == t;
    } else {
      assert s[..p] == t[..p];
    }
  }

  /** The first digits of a number's last `n` are the last digits of what is left of it. */
  lemma {:induction false} LeadingDigits(v: nat, n: nat, p: nat)
    requires p <= n
    ensures DigitsOf(v, n)[..p] == DigitsOf(Dropped(v, n - p), p)
    decreases n - p
  {
    if p == n {
      assert DigitsOf(v, n)[..n] == DigitsOf(v, n);
    } else {
      LeadingDigits(v / 10, n - 1, p);
      assert DigitsOf(v, n)[..p] == DigitsOf(v / 10, n - 1)[..p];
    }
  }

  lemma {:induction false} DroppedTwice(v: nat, a: nat, b: nat)
    ensures Dropped(Dropped(v, a), b) == Dropped(v, a + b)
    decreases a
  {
    if a > 0 { DroppedTwice(v / 10, a - 1, b); }
  }
}
