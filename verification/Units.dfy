/** Token units as a person types and reads them, and the base units that are signed. */
module Units {
  import opened Basics
  import opened Digits

  /** How many digits follow the point at most when space is short. */
  const DISPLAY_PLACES := 5

  /** 2 to the 256th: base units that do not fit below it are refused. */
  const LIMIT: nat := 0x1_0000000000000000_0000000000000000_0000000000000000_0000000000000000

  datatype AmountError = Empty | Negative | NotANumber | TooManyDecimals(given: nat, allowed: nat) | TooLarge

  predicate IsSpace(c: char) { c in {' ', '\t', '\n', '\r', 12 as char} }

  function Trim(s: string): (t: string)
    ensures t != "" ==> !IsSpace(t[0]) && !IsSpace(t[|t| - 1])
  {
    if s == "" then ""
    else if IsSpace(s[0]) then Trim(s[1..])
    else if IsSpace(s[|s| - 1]) then Trim(s[..|s| - 1])
    else s
  }

  /** Where the first point is, or the length. */
  function DotAt(t: string): (at: nat)
    ensures at <= |t| && (at < |t| ==> t[at] == '.')
    ensures forall k | 0 <= k < at :: t[k] != '.'
  {
    if t == "" || t[0] == '.' then 0 else 1 + DotAt(t[1..])
  }

  function IntPart(t: string): string { t[..DotAt(t)] }

  function FracPart(t: string): string { if DotAt(t) < |t| then t[DotAt(t) + 1..] else "" }

  /** Digits with at most one point among them, and at least one digit. */
  predicate IsNumeral(t: string) {
    AllDigits(IntPart(t)) && AllDigits(FracPart(t)) && (IntPart(t) != "" || FracPart(t) != "")
  }

  /** The base units a numeral stands for. */
  function Amount(t: string, d: nat): nat
    requires IsNumeral(t) && |FracPart(t)| <= d
  {
    ValueOf(IntPart(t)) * Pow10(d) + ValueOf(FracPart(t)) * Pow10(d - |FracPart(t)|)
  }

  /** What typing `input` means: an amount, or the first reason it is none. */
  function Parsed(input: string, d: nat): Result<nat, AmountError> {
    var t := Trim(input);
    if t == "" then Err(Empty)
    else if t[0] == '-' then Err(Negative)
    else if !IsNumeral(t) then Err(NotANumber)
    else if |FracPart(t)| > d then Err(TooManyDecimals(|FracPart(t)|, d))
    else if Amount(t, d) >= LIMIT then Err(TooLarge)
    else Ok(Amount(t, d))
  }

  function Frac(digits: string): string { if digits == "" then "" else "." + digits }

  /** The one numeral of `v` base units without a needless zero. */
  function Canonical(v: nat, d: nat): string {
    Dec(Dropped(v, d)) + Frac(TrimZeros(DigitsOf(v, d)))
  }

  /** The full rendering; there is none for anything but a string of digits. */
  function Exact(raw: string, d: nat): Option<string> {
    var t := Trim(raw);
    if t == "" || !AllDigits(t) then None else Some(Canonical(ValueOf(t), d))
  }

  // ---- Reading and writing

  method ParseUnits(input: string, decimals: nat) returns (r: Result<nat, AmountError>)
    ensures r == Parsed(input, decimals)
  {
    var t := Trim(input);
    if t == "" { return Err(Empty); }
    if t[0] == '-' { return Err(Negative); }
    var plain := OneDotAtMost(t);
    if !plain { return Err(NotANumber); }
    var intPart, fracPart := IntPart(t), FracPart(t);
    if intPart == "" && fracPart == "" { return Err(NotANumber); }
    if |fracPart| > decimals { return Err(TooManyDecimals(|fracPart|, decimals)); }
    var digits := intPart + fracPart;
    for i := |fracPart| to decimals
      invariant digits == intPart + (fracPart + Zeros(i - |fracPart|))
    {
      digits := digits + "0";
    }
    BufferIsAmount(t, decimals);
    var v := ValueOf(digits);
    return if v < LIMIT then Ok(v) else Err(TooLarge);
  }

  /** Nothing but digits, and no second point among them. */
  method OneDotAtMost(t: string) returns (ok: bool)
    ensures ok <==> AllDigits(IntPart(t)) && AllDigits(FracPart(t))
  {
    var dots := 0;
    for i := 0 to |t|
      invariant forall k | 0 <= k < i :: IsDigit(t[k]) || t[k] == '.'
      invariant dots == 0 <==> i <= DotAt(t)
      invariant dots == 1 ==> DotAt(t) < i && forall k | DotAt(t) < k < i :: t[k] != '.'
      invariant dots > 1 ==> exists k :: DotAt(t) < k < i && t[k] == '.'
    {
      if t[i] == '.' {
        dots := dots + 1;
      } else if !IsDigit(t[i]) {
        ABadCharacter(t, i);
        return false;
      }
    }
    ok := dots <= 1;
    if !ok {
      ghost var k :| DotAt(t) < k < |t| && t[k] == '.';
      ABadCharacter(t, k);
    }
  }

  method FormatExact(raw: string, decimals: nat) returns (r: Option<string>)
    ensures r == Exact(raw, decimals)
  {
    var digits := Trim(raw);
    if digits == "" || !AllDigits(digits) { return None; }
    if decimals == 0 {
      WholeIsCanonical(digits);
      return Some(StripLeadingZeros(digits));
    }
    var padded := "";
    var i := |digits|;
    while i < decimals + 1
      invariant i >= |digits| && padded == Zeros(i - |digits|) && (i <= decimals + 1 || i == |digits|)
      decreases decimals + 1 - i
    {
      padded := padded + "0";
      i := i + 1;
    }
    ghost var zeros := |padded|;
    padded := padded + digits;
    var split := |padded| - decimals;
    PaddedIsCanonical(digits, zeros, padded, decimals);
    return Some(StripLeadingZeros(padded[..split]) + Frac(TrimZeros(padded[split..])));
  }

  /** The bounded rendering: truncated, and a marker for what truncation would erase. */
  function FormatDisplay(raw: string, d: nat): Option<string> {
    var t := Trim(raw);
    if t == "" || !AllDigits(t) || ValueOf(t) >= LIMIT then None
    else Bounded(ValueOf(t), Exact(t, d), d)
  }

  /** `v` base units to at most `Places(d)` fraction digits, cut from their exact numeral. */
  function Bounded(v: nat, numeral: Option<string>, d: nat): Option<string> {
    if v == 0 then Some("0")
    else
      var p := Places(d);
      if p == 0 then Some(Dec(v))
      else
        // No amount reaches a threshold that does not fit.
        var threshold := if Pow10(d - p) < LIMIT then Some(Pow10(d - p)) else None;
        if threshold.None? || v < threshold.value then Some(Dust(p))
        else
          match numeral
          case None => None
          case Some(exact) => Some(Cut(exact, p))
  }

  /** The first `p` characters, or all of them. */
  function Head(s: string, p: nat): string { s[..if |s| <= p then |s| else p] }

  /** A numeral cut to `p` fraction digits, and trimmed again. */
  function Cut(exact: string, p: nat): string {
    if DotAt(exact) == |exact| then exact
    else
      var frac := FracPart(exact);
      IntPart(exact) + Frac(TrimZeros(Head(frac, p)))
  }

  function Places(d: nat): (p: nat)
    ensures p <= d
  {
    if d < DISPLAY_PLACES then d else DISPLAY_PLACES
  }

  function Dust(p: nat): string
    requires p > 0
  {
    "<0." + Zeros(p - 1) + "1"
  }

  // ---- What is read, said of the characters as they were typed

  predicate AllSpaces(s: string) { forall i | 0 <= i < |s| :: IsSpace(s[i]) }

  /** Trimming takes away spaces at both ends. */
  lemma {:induction false} TrimmedIsTheMiddle(s: string) returns (a: string, b: string)
    ensures s == a + Trim(s) + b && AllSpaces(a) && AllSpaces(b)
  {
    if s == "" {
      a, b := "", "";
    } else if IsSpace(s[0]) {
      a, b := TrimmedIsTheMiddle(s[1..]);
      a := [s[0]] + a;
      assert s == [s[0]] + s[1..];
    } else if IsSpace(s[|s| - 1]) {
      a, b := TrimmedIsTheMiddle(s[..|s| - 1]);
      b := b + [s[|s| - 1]];
      assert s == s[..|s| - 1] + [s[|s| - 1]];
    } else {
      a, b := "", "";
      assert "" + s + "" == s;
    }
  }

  /** And nothing but them. */
  lemma {:induction false} TheMiddleIsTrimmed(a: string, t: string, b: string)
    requires AllSpaces(a) && AllSpaces(b) && (t == "" || (!IsSpace(t[0]) && !IsSpace(t[|t| - 1])))
    ensures Trim(a + t + b) == t
    decreases |a| + |b|
  {
    var s := a + t + b;
    if a != "" {
      assert s[0] == a[0] && s[1..] == a[1..] + t + b;
      TheMiddleIsTrimmed(a[1..], t, b);
    } else if b != "" {
      if t == "" {
        assert s == b && s[1..] == b[1..] + t + "";
        TheMiddleIsTrimmed(b[1..], t, "");
      } else {
        assert s[0] == t[0] && s[|s| - 1] == b[|b| - 1] && s[..|s| - 1] == a + t + b[..|b| - 1];
        TheMiddleIsTrimmed(a, t, b[..|b| - 1]);
      }
    } else {
      assert s == t;
    }
  }

  lemma OnlySpacesTrimAway(s: string)
    ensures Trim(s) == "" <==> AllSpaces(s)
  {
    var a, b := TrimmedIsTheMiddle(s);
    if Trim(s) == "" { assert s == a + b; }
    if AllSpaces(s) {
      TheMiddleIsTrimmed(s, "", "");
      assert s + "" + "" == s;
    }
  }

  /** These digits were typed, with a point between or after the whole ones or without, and spaces around. */
  ghost predicate Types(input: string, whole: string, frac: string) {
    && AllDigits(whole) && AllDigits(frac) && (whole != "" || frac != "")
    && exists a, dot, b :: Between(input, a, whole + dot + frac, b) && (dot == "." || (dot == "" && frac == ""))
  }

  predicate Between(input: string, a: string, t: string, b: string) {
    AllSpaces(a) && AllSpaces(b) && input == a + t + b
  }

  /** The parts of what was typed are the digits before and after the first point. */
  lemma TypedPartsAre(input: string, whole: string, frac: string)
    requires Types(input, whole, frac)
    ensures IsNumeral(Trim(input)) && IntPart(Trim(input)) == whole && FracPart(Trim(input)) == frac
    ensures Trim(input) != "" && Trim(input)[0] != '-'
  {
    var a, dot, b :| Between(input, a, whole + dot + frac, b) && (dot == "." || (dot == "" && frac == ""));
    var t := whole + dot + frac;
    assert t[0] == if whole != "" then whole[0] else dot[0];
    assert t[|t| - 1] == if frac != "" then frac[|frac| - 1] else if dot != "" then dot[0] else whole[|whole| - 1];
    TheMiddleIsTrimmed(a, t, b);
    forall k | 0 <= k < |whole| ensures t[k] != '.' { assert t[k] == whole[k]; }
    TheDotIs(t, |whole|);
    assert t[..|whole|] == whole;
    if dot == "." { assert t[|whole| + 1..] == frac; }
  }

  lemma NumeralsAreTyped(input: string)
    requires IsNumeral(Trim(input))
    ensures Types(input, IntPart(Trim(input)), FracPart(Trim(input)))
  {
    var t := Trim(input);
    var a, b := TrimmedIsTheMiddle(input);
    var dot := if DotAt(t) < |t| then "." else "";
    assert t == IntPart(t) + dot + FracPart(t) by {
      if DotAt(t) < |t| { assert t == t[..DotAt(t)] + [t[DotAt(t)]] + t[DotAt(t) + 1..]; }
    }
    assert Between(input, a, IntPart(t) + dot + FracPart(t), b);
  }

  /** The base units that digits before and after a point stand for: all of them as one number, shifted. */
  function Worth(whole: string, frac: string, d: nat): nat
    requires AllDigits(whole) && AllDigits(frac) && |frac| <= d
  {
    ValueOf(whole + frac) * Pow10(d - |frac|)
  }

  lemma WorthIsTheAmount(t: string, d: nat)
    requires IsNumeral(t) && |FracPart(t)| <= d
    ensures Worth(IntPart(t), FracPart(t), d) == Amount(t, d)
  {
    var whole, frac, p := ValueOf(IntPart(t)), FracPart(t), Pow10(d - |FracPart(t)|);
    ValueOfJoined(IntPart(t), frac);
    PowersOfTen(|frac|, d - |frac|);
    Distribute(whole, Pow10(|frac|), ValueOf(frac), p);
  }

  lemma Distribute(a: nat, q: nat, b: nat, p: nat)
    ensures (a * q + b) * p == a * (q * p) + b * p
  {}

  /** An amount is read exactly when a numeral that fits was typed, spaces or none around it, and it is what that stands for. */
  lemma WhatIsRead(input: string, d: nat, v: nat)
    ensures Parsed(input, d) == Ok(v) <==>
              v < TwoTo(256) && exists whole, frac :: Types(input, whole, frac) && |frac| <= d && Worth(whole, frac, d) == v
  {
    LimitIsAPower();
    if IsNumeral(Trim(input)) && |FracPart(Trim(input))| <= d { WorthIsTheAmount(Trim(input), d); }
    if Parsed(input, d) == Ok(v) {
      NumeralsAreTyped(input);
      assert Worth(IntPart(Trim(input)), FracPart(Trim(input)), d) == v;
    }
    if whole, frac :| Types(input, whole, frac) && |frac| <= d && Worth(whole, frac, d) == v && v < LIMIT {
      TypedPartsAre(input, whole, frac);
    }
  }

  /** And each refusal has its own reason among the characters; the last is for what is none of the others. */
  lemma WhatIsRefused(input: string, d: nat)
    ensures Parsed(input, d) == Err(Empty) <==> AllSpaces(input)
    ensures Parsed(input, d) == Err(Negative) <==> exists a, rest :: AllSpaces(a) && input == a + "-" + rest
    ensures forall given, allowed :: Parsed(input, d) == Err(TooManyDecimals(given, allowed)) <==>
              allowed == d < given && exists whole, frac :: Types(input, whole, frac) && |frac| == given
    ensures Parsed(input, d) == Err(TooLarge) <==>
              exists whole, frac :: Types(input, whole, frac) && |frac| <= d && Worth(whole, frac, d) >= TwoTo(256)
    ensures Parsed(input, d) == Err(NotANumber) <==>
              && !AllSpaces(input) && !(exists a, rest :: AllSpaces(a) && input == a + "-" + rest)
              && !(exists whole, frac :: Types(input, whole, frac))
  {
    LimitIsAPower();
    OnlySpacesTrimAway(input);
    WhatIsNegative(input);
    if IsNumeral(Trim(input)) { NumeralsAreTyped(input); }
    if IsNumeral(Trim(input)) && |FracPart(Trim(input))| <= d { WorthIsTheAmount(Trim(input), d); }
    forall whole, frac | Types(input, whole, frac)
      ensures IsNumeral(Trim(input)) && IntPart(Trim(input)) == whole && FracPart(Trim(input)) == frac
              && Trim(input) != "" && Trim(input)[0] != '-'
    {
      TypedPartsAre(input, whole, frac);
    }
  }

  lemma WhatIsNegative(input: string)
    ensures Trim(input) != "" && Trim(input)[0] == '-' <==> exists a, rest :: AllSpaces(a) && input == a + "-" + rest
  {
    if Trim(input) != "" && Trim(input)[0] == '-' {
      var a, b := TrimmedIsTheMiddle(input);
      var rest := Trim(input)[1..] + b;
      assert input == a + "-" + rest;
    }
    if a, rest :| AllSpaces(a) && input == a + "-" + rest {
      MinusComesFirst(a, rest);
    }
  }

  lemma {:induction false} MinusComesFirst(a: string, rest: string)
    requires AllSpaces(a)
    ensures Trim(a + "-" + rest) != "" && Trim(a + "-" + rest)[0] == '-'
  {
    var s := a + "-" + rest;
    if a == "" {
      FirstStays(s);
    } else {
      MinusComesFirst(a[1..], rest);
      assert s[0] == a[0] && s[1..] == a[1..] + "-" + rest;
    }
  }

  lemma {:induction false} FirstStays(s: string)
    requires s != "" && !IsSpace(s[0])
    ensures Trim(s) != "" && Trim(s)[0] == s[0]
  {
    if IsSpace(s[|s| - 1]) { FirstStays(s[..|s| - 1]); }
  }

  /** Writing out refuses exactly what is not a string of digits, spaces around it or none. */
  lemma WhatIsWritten(raw: string, d: nat)
    ensures Exact(raw, d).Some? <==> exists digits :: WholeTyped(raw, digits)
    ensures forall digits | WholeTyped(raw, digits) :: Exact(raw, d) == Some(Canonical(ValueOf(digits), d))
    ensures FormatDisplay(raw, d).Some? <==> exists digits :: WholeTyped(raw, digits) && ValueOf(digits) < TwoTo(256)
  {
    LimitIsAPower();
    var t := Trim(raw);
    forall digits | WholeTyped(raw, digits) ensures t == digits {
      var a, b :| Between(raw, a, digits, b);
      assert IsDigit(digits[0]) && IsDigit(digits[|digits| - 1]);
      TheMiddleIsTrimmed(a, digits, b);
    }
    if t != "" && AllDigits(t) {
      var a, b := TrimmedIsTheMiddle(raw);
      assert Between(raw, a, t, b) && WholeTyped(raw, t);
      if ValueOf(t) < LIMIT { WhatTheDisplayShows(raw, d); }
    }
  }

  ghost predicate WholeTyped(raw: string, digits: string) {
    digits != "" && AllDigits(digits) && exists a, b :: Between(raw, a, digits, b)
  }

  function TwoTo(n: nat): nat { if n == 0 then 1 else 2 * TwoTo(n - 1) }

  lemma {:induction false} PowersMultiply(a: nat, b: nat)
    ensures TwoTo(a + b) == TwoTo(a) * TwoTo(b)
  {
    if a > 0 {
      PowersMultiply(a - 1, b);
      assert TwoTo(a) * TwoTo(b) == 2 * (TwoTo(a - 1) * TwoTo(b));
    }
  }

  lemma Squared(n: nat, v: nat)
    requires TwoTo(n) == v
    ensures TwoTo(2 * n) == v * v
  {
    PowersMultiply(n, n);
  }

  lemma LimitIsAPower()
    ensures LIMIT == TwoTo(256)
  {
    assert TwoTo(4) == 16;
    Squared(4, 0x10);
    Squared(8, 0x100);
    Squared(16, 0x1_0000);
    Squared(32, 0x1_0000_0000);
    Squared(64, 0x1_0000_0000_0000_0000);
    Squared(128, 0x1_0000_0000_0000_0000_0000_0000_0000_0000);
  }

  // ---- Why the buffers spell the amounts

  lemma ABadCharacter(t: string, i: nat)
    requires i < |t| && !IsDigit(t[i]) && (t[i] == '.' ==> DotAt(t) < i)
    ensures !(AllDigits(IntPart(t)) && AllDigits(FracPart(t)))
  {
    if i < DotAt(t) {
      assert IntPart(t)[i] == t[i];
    } else if DotAt(t) < i {
      assert FracPart(t)[i - DotAt(t) - 1] == t[i];
    }
  }

  lemma BufferIsAmount(t: string, d: nat)
    requires IsNumeral(t) && |FracPart(t)| <= d
    ensures ValueOf(IntPart(t) + (FracPart(t) + Zeros(d - |FracPart(t)|))) == Amount(t, d)
    ensures ValueOf(FracPart(t) + Zeros(d - |FracPart(t)|)) == ValueOf(FracPart(t)) * Pow10(d - |FracPart(t)|)
  {
    var frac, zeros := FracPart(t), Zeros(d - |FracPart(t)|);
    ValueOfJoined(frac, zeros);
    ZerosAreNothing(|zeros|);
    ValueOfJoined(IntPart(t), frac + zeros);
  }

  lemma WholeIsCanonical(digits: string)
    requires AllDigits(digits)
    ensures StripLeadingZeros(digits) == Canonical(ValueOf(digits), 0)
  {
    StrippedIsDec(digits);
  }

  /** A string of digits cut `d` places from its end is its value's canonical form once trimmed. */
  lemma CutIsCanonical(s: string, d: nat)
    requires AllDigits(s) && d <= |s|
    ensures StripLeadingZeros(s[..|s| - d]) + Frac(TrimZeros(s[|s| - d..])) == Canonical(ValueOf(s), d)
  {
    DigitsSpellTheString(s, d);
    TheRestIsDropped(s, d);
    StrippedIsDec(s[..|s| - d]);
  }

  lemma PaddedIsCanonical(digits: string, zeros: nat, padded: string, d: nat)
    requires AllDigits(digits) && padded == Zeros(zeros) + digits && d <= |padded|
    ensures StripLeadingZeros(padded[..|padded| - d]) + Frac(TrimZeros(padded[|padded| - d..])) == Canonical(ValueOf(digits), d)
  {
    ValueOfJoined(Zeros(zeros), digits);
    ZerosAreNothing(zeros);
    CutIsCanonical(padded, d);
  }

  // ---- Reading undoes writing

  lemma NothingToTrim(t: string)
    requires t != "" && !IsSpace(t[0]) && !IsSpace(t[|t| - 1])
    ensures Trim(t) == t
  {}

  lemma {:induction false} TheDotIs(t: string, at: nat)
    requires at <= |t| && (at < |t| ==> t[at] == '.') && forall k | 0 <= k < at :: t[k] != '.'
    ensures DotAt(t) == at
  {
    if at > 0 { TheDotIs(t[1..], at - 1); }
  }

  /** The parts of a numeral put together from digits. */
  lemma PartsOf(t: string, whole: string, frac: string)
    requires AllDigits(whole) && AllDigits(frac) && whole != "" && t == whole + Frac(frac)
    ensures IntPart(t) == whole && FracPart(t) == frac && (DotAt(t) == |t| <==> frac == "")
  {
    assert DotAt(t) == |whole| by {
      forall k | 0 <= k < |whole| ensures t[k] != '.' { assert t[k] == whole[k]; }
      TheDotIs(t, |whole|);
    }
    SplitAtTheDot(t, whole, frac);
  }

  lemma SplitAtTheDot(t: string, whole: string, frac: string)
    requires t == whole + Frac(frac) && DotAt(t) == |whole|
    ensures IntPart(t) == whole && FracPart(t) == frac && (DotAt(t) == |t| <==> frac == "")
  {
    if frac == "" {
      assert t == whole && t[..|whole|] == whole;
    } else {
      assert t[..|whole|] == whole;
      assert t[|whole| + 1..] == frac;
    }
  }

  lemma NothingToTrimAround(t: string, whole: string, frac: string)
    requires AllDigits(whole) && AllDigits(frac) && whole != "" && t == whole + Frac(frac)
    ensures Trim(t) == t && IsDigit(t[0])
  {
    assert t[0] == whole[0];
    if frac != "" {
      assert t[|t| - 1] == frac[|frac| - 1];
    } else {
      assert t[|t| - 1] == whole[|whole| - 1];
    }
    NothingToTrim(t);
  }

  lemma ACanonicalNumeral(v: nat, d: nat)
    ensures var t := Canonical(v, d);
            && Trim(t) == t && IsNumeral(t) && IsDigit(t[0]) && |FracPart(t)| <= d
            && IntPart(t) == Dec(Dropped(v, d)) && FracPart(t) == TrimZeros(DigitsOf(v, d))
            && (DotAt(t) == |t| <==> FracPart(t) == "")
  {
    PartsOf(Canonical(v, d), Dec(Dropped(v, d)), TrimZeros(DigitsOf(v, d)));
    NothingToTrimAround(Canonical(v, d), Dec(Dropped(v, d)), TrimZeros(DigitsOf(v, d)));
  }

  lemma ACanonicalAmount(v: nat, d: nat)
    ensures IsNumeral(Canonical(v, d)) && |FracPart(Canonical(v, d))| <= d && Amount(Canonical(v, d), d) == v
  {
    var t := Canonical(v, d);
    ACanonicalNumeral(v, d);
    TrimmedZerosWereZeros(DigitsOf(v, d));
    AmountOfParts(t, IntPart(t), FracPart(t), DigitsOf(v, d), d);
    TheDigitsSpellIt(v, d);
  }

  lemma AmountOfParts(t: string, whole: string, frac: string, digits: string, d: nat)
    requires IsNumeral(t) && IntPart(t) == whole && FracPart(t) == frac && |frac| <= d
    requires AllDigits(digits) && digits == frac + Zeros(d - |frac|)
    ensures Amount(t, d) == ValueOf(whole + digits)
  {
    BufferIsAmount(t, d);
  }

  lemma TheDigitsSpellIt(v: nat, d: nat)
    ensures ValueOf(Dec(Dropped(v, d)) + DigitsOf(v, d)) == v
  {
    ValueOfJoined(Dec(Dropped(v, d)), DigitsOf(v, d));
    ValueOfDec(Dropped(v, d));
    SplitAtDigit(v, d);
  }

  /** Writing base units out in full and reading them back gives them back, for any number of decimals. */
  lemma ReadingUndoesWriting(v: nat, d: nat)
    requires v < LIMIT
    ensures Exact(Dec(v), d).Some? && Parsed(Exact(Dec(v), d).value, d) == Ok(v)
  {
    DigitsAreTrimmed(Dec(v));
    ValueOfDec(v);
    ACanonicalNumeral(v, d);
    ACanonicalAmount(v, d);
    ANumeralReads(Canonical(v, d), d, v);
  }

  lemma DigitsAreTrimmed(s: string)
    requires AllDigits(s)
    ensures Trim(s) == s
  {
    if s != "" { assert IsDigit(s[0]) && IsDigit(s[|s| - 1]); }
  }

  /** Writing out what was read gives the canonical form of what was typed. */
  lemma WritingNormalises(input: string, d: nat)
    requires Parsed(input, d).Ok?
    ensures var t := Trim(input);
            Exact(Dec(Parsed(input, d).value), d) == Some(StripLeadingZeros(IntPart(t)) + Frac(TrimZeros(FracPart(t))))
  {
    var t, v := Trim(input), Parsed(input, d).value;
    DigitsAreTrimmed(Dec(v));
    ValueOfDec(v);
    var whole, frac, zeros := IntPart(t), FracPart(t), Zeros(d - |FracPart(t)|);
    var s := whole + (frac + zeros);
    BufferIsAmount(t, d);
    CutIsCanonical(s, d);
    assert s[..|s| - d] == whole && s[|s| - d..] == frac + zeros;
    ZerosAreTrimmed(frac, |zeros|);
  }

  // ---- The bounded rendering

  /** The digits that survive the bounded rendering are those of the truncated amount. */
  lemma TruncatedIsCanonical(v: nat, d: nat, p: nat)
    requires p <= d
    ensures Cut(Canonical(v, d), p) == Canonical(Dropped(v, d - p), p)
  {
    var t, whole, kept := Canonical(v, d), Dec(Dropped(v, d)), TrimZeros(DigitsOf(Dropped(v, d - p), p));
    assert Cut(t, p) == whole + Frac(kept) by { CutAndTrimmed(v, d, p); }
    DroppedInAll(v, d, p);
    AssembledIs(Dropped(v, d - p), p, whole, kept);
  }

  lemma CutAndTrimmed(v: nat, d: nat, p: nat)
    requires p <= d
    ensures Cut(Canonical(v, d), p) == Dec(Dropped(v, d)) + Frac(TrimZeros(DigitsOf(Dropped(v, d - p), p)))
  {
    ItsParts(v, d);
    CutDigits(v, d, p);
    CutParts(Canonical(v, d), Dec(Dropped(v, d)), TrimZeros(DigitsOf(v, d)), TrimZeros(DigitsOf(Dropped(v, d - p), p)), p);
  }

  lemma DroppedInAll(v: nat, d: nat, p: nat)
    requires p <= d
    ensures Dropped(Dropped(v, d - p), p) == Dropped(v, d)
  {
    DroppedTwice(v, d - p, p);
  }

  lemma AssembledIs(v: nat, d: nat, whole: string, frac: string)
    requires whole == Dec(Dropped(v, d)) && frac == TrimZeros(DigitsOf(v, d))
    ensures Canonical(v, d) == whole + Frac(frac)
  {}

  lemma ItsParts(v: nat, d: nat)
    ensures IntPart(Canonical(v, d)) == Dec(Dropped(v, d))
    ensures FracPart(Canonical(v, d)) == TrimZeros(DigitsOf(v, d))
    ensures DotAt(Canonical(v, d)) == |Canonical(v, d)| <==> TrimZeros(DigitsOf(v, d)) == ""
  {
    ACanonicalNumeral(v, d);
  }

  lemma CutParts(t: string, whole: string, frac: string, kept: string, p: nat)
    requires IntPart(t) == whole && FracPart(t) == frac && (DotAt(t) == |t| <==> frac == "")
    requires TrimZeros(Head(frac, p)) == kept
    ensures Cut(t, p) == whole + Frac(kept)
  {
    if DotAt(t) == |t| { assert t[..|t|] == t; }
  }

  lemma CutDigits(v: nat, d: nat, p: nat)
    requires p <= d
    ensures var frac := TrimZeros(DigitsOf(v, d));
            TrimZeros(Head(frac, p)) == TrimZeros(DigitsOf(Dropped(v, d - p), p))
  {
    var digits := DigitsOf(v, d);
    TrimmedZerosWereZeros(digits);
    TrimThenCut(digits, TrimZeros(digits), d - |TrimZeros(digits)|, p);
    LeadingDigits(v, d, p);
  }

  /** Zero, dust, or the amount truncated: the three things the bounded rendering may say. */
  function Shown(v: nat, d: nat): string {
    var p := Places(d);
    if v == 0 then "0" else if v < Pow10(d - p) && p > 0 then Dust(p) else Canonical(Dropped(v, d - p), p)
  }

  lemma WhatTheDisplayShows(raw: string, d: nat)
    requires Trim(raw) != "" && AllDigits(Trim(raw)) && ValueOf(Trim(raw)) < LIMIT
    ensures FormatDisplay(raw, d) == Some(Shown(ValueOf(Trim(raw)), d))
  {
    var v := ValueOf(Trim(raw));
    DigitsAreTrimmed(Trim(raw));
    TruncatedIsCanonical(v, d, Places(d));
    NoDecimals(v);
    BoundedIsShown(v, Canonical(v, d), d);
  }

  lemma BoundedIsShown(v: nat, exact: string, d: nat)
    requires v < LIMIT && Cut(exact, Places(d)) == Canonical(Dropped(v, d - Places(d)), Places(d))
    requires Canonical(v, 0) == Dec(v)
    ensures Bounded(v, Some(exact), d) == Some(Shown(v, d))
  {}

  lemma NoDecimals(v: nat)
    ensures Canonical(v, 0) == Dec(v)
  {}

  /**
    * It shows `0` for nothing but zero and the dust marker for nothing but amounts below its
    * resolution, also where the resolution does not fit in 256 bits; anything else reads back
    * as at most the amount, and less than one unit of the last place below it.
    */
  lemma TheDisplayIsFaithful(raw: string, d: nat)
    requires Trim(raw) != "" && AllDigits(Trim(raw)) && ValueOf(Trim(raw)) < LIMIT
    ensures FormatDisplay(raw, d).Some? && Places(d) == if d < 5 then d else 5
    ensures IsFaithful(FormatDisplay(raw, d).value, ValueOf(Trim(raw)), d)
  {
    WhatTheDisplayShows(raw, d);
    ShownIsFaithful(ValueOf(Trim(raw)), d);
  }

  predicate IsFaithful(shown: string, v: nat, d: nat) {
    var p := Places(d);
    && (shown == "0" <==> v == 0)
    && (shown != "" && shown[0] == '<' <==> 0 < v < Pow10(d - p))
    && (0 < v < Pow10(d - p) ==> p > 0 && shown[0] == '<' && Parsed(shown[1..], p) == Ok(1))
    && (v >= Pow10(d - p) ==> ReadsJustBelow(shown, v, d, p))
  }

  /** Read at `p` places, it stands for at most `v` and for more than `v` less one unit of the last place. */
  predicate ReadsJustBelow(shown: string, v: nat, d: nat, p: nat)
    requires p <= d
  {
    && Parsed(shown, p).Ok?
    && Parsed(shown, p).value * Pow10(d - p) <= v < (Parsed(shown, p).value + 1) * Pow10(d - p)
  }

  lemma ShownIsFaithful(v: nat, d: nat)
    requires v < LIMIT
    ensures IsFaithful(Shown(v, d), v, d)
  {
    var p := Places(d);
    if v < Pow10(d - p) {
      SmallIsFaithful(v, d);
    } else {
      var n := Dropped(v, d - p);
      SplitAtDigit(v, d - p);
      AtMost(n, Pow10(d - p), v);
      TruncatedReadsBack(n, p);
      LargeIsFaithful(Canonical(n, p), v, d, n);
    }
  }

  lemma SmallIsFaithful(v: nat, d: nat)
    requires v < Pow10(d - Places(d))
    ensures IsFaithful(Shown(v, d), v, d)
  {
    if Places(d) > 0 { DustIsOneUnit(Places(d)); }
  }

  /** What the dust marker says the amount is below is one unit of the last place. */
  lemma DustIsOneUnit(p: nat)
    requires p > 0
    ensures Dust(p)[0] == '<' && Parsed(Dust(p)[1..], p) == Ok(1)
  {
    var frac, zeros := Zeros(p - 1) + "1", Zeros(p - 1);
    assert Dust(p)[1..] == "0" + Frac(frac);
    PartsOf("0" + Frac(frac), "0", frac);
    NothingToTrimAround("0" + Frac(frac), "0", frac);
    ValueOfJoined(zeros, "1");
    ZerosAreNothing(p - 1);
    assert "0" == Zeros(1) && "1"[..0] == "";
    ZerosAreNothing(1);
    assert ValueOf("1") == 1;
    ANumeralReads("0" + Frac(frac), p, 1);
  }

  lemma LargeIsFaithful(shown: string, v: nat, d: nat, n: nat)
    requires v >= Pow10(d - Places(d)) && Parsed(shown, Places(d)) == Ok(n)
    requires n * Pow10(d - Places(d)) <= v < (n + 1) * Pow10(d - Places(d))
    requires shown != "" && shown != "0" && IsDigit(shown[0])
    ensures IsFaithful(shown, v, d)
  {}

  lemma TruncatedReadsBack(n: nat, p: nat)
    requires 0 < n < LIMIT
    ensures Parsed(Canonical(n, p), p) == Ok(n)
    ensures Canonical(n, p) != "" && Canonical(n, p) != "0" && IsDigit(Canonical(n, p)[0])
  {
    var t := Canonical(n, p);
    ACanonicalNumeral(n, p);
    ACanonicalAmount(n, p);
    ANumeralReads(t, p, n);
    ZeroReads(p);
  }

  lemma ANumeralReads(t: string, d: nat, v: nat)
    requires Trim(t) == t && IsNumeral(t) && t != "" && t[0] != '-' && |FracPart(t)| <= d && Amount(t, d) == v < LIMIT
    ensures Parsed(t, d) == Ok(v)
  {}

  lemma AtMost(n: nat, q: nat, v: nat)
    requires q > 0 && n * q <= v < n * q + q
    ensures n <= v && n * q <= v < (n + 1) * q && (v >= q ==> n > 0)
  {}

  lemma ZeroReads(p: nat)
    ensures Parsed("0", p) == Ok(0)
  {
    PartsOf("0", "0", "");
    assert "0" == Zeros(1);
    ZerosAreNothing(1);
  }
}
