/** Turning a typed amount into base units of a token. */
module Amount {
  import opened Types
  import opened Decimal

  datatype Failure = InvalidValue | SyntaxError

  predicate IsSign(c: char) {
    c == '-' || c == '+'
  }

  /** `BigInt(s)` on text of digits and signs; no text at all is zero. */
  function BigInt(s: string): Option<int> {
    if AllDigits(s) then Some(Value(s))
    else if IsSign(s[0]) && |s| > 1 && AllDigits(s[1..]) then
      var magnitude: int := Value(s[1..]);
      Some(if s[0] == '-' then -magnitude else magnitude)
    else None
  }

  /** `!Number.isNaN(Number.parseFloat(s))` on text of digits, signs and points. */
  predicate ReadsAsNumber(s: string) {
    var digits := if s != "" && IsSign(s[0]) then s[1..] else s;
    digits != "" && (IsDigit(digits[0]) || (digits[0] == '.' && |digits| > 1 && IsDigit(digits[1])))
  }

  /** `padEnd(decimals, "0").slice(0, decimals)`. */
  function PadAndCut(s: string, decimals: nat): string {
    if |s| <= decimals then s + Zeros(decimals - |s|) else s[..decimals]
  }

  function BaseUnits(integerPart: string, fractionalPart: string, decimals: nat): Result<int, Failure> {
    match BigInt(integerPart)
    case None => Err(SyntaxError)
    case Some(whole) =>
      if fractionalPart == "" then Ok(Scaled(whole, decimals))
      else
        match BigInt(PadAndCut(fractionalPart, decimals))
        case None => Err(SyntaxError)
        case Some(frac) => Ok(Scaled(whole, decimals) + frac)
  }

  /** Only the first two pieces between points are looked at. */
  function ParseAmount(num: string, decimals: nat): Result<int, Failure> {
    if !ReadsAsNumber(num) then Err(InvalidValue)
    else
      var parts := Split(num, '.');
      BaseUnits(parts[0], if |parts| > 1 then parts[1] else "", decimals)
  }

  // ----- decimals --------------------------------------------------------------------------

  /** A decimal: digits before and after the point, and whether the point is written. */
  datatype Numeral = Numeral(whole: string, frac: string, point: bool)

  predicate Unsigned(n: Numeral) {
    AllDigits(n.whole) && AllDigits(n.frac) && (n.frac != "" ==> n.point)
  }

  function Text(n: Numeral): string {
    if n.point then n.whole + "." + n.frac else n.whole
  }

  /** The value of the numeral is `Digits(n)` divided by ten to the number of its decimal places. */
  function Digits(n: Numeral): nat
    requires Unsigned(n)
  {
    Value(n.whole + n.frac)
  }

  lemma PointIsNoDigit(s: string)
    requires AllDigits(s)
    ensures '.' !in s
  {
  }

  lemma TextSplits(n: Numeral)
    requires Unsigned(n)
    ensures Split(Text(n), '.') == if n.point then [n.whole, n.frac] else [n.whole]
    ensures ReadsAsNumber(Text(n)) <==> n.whole + n.frac != ""
  {
    PointIsNoDigit(n.whole);
    PointIsNoDigit(n.frac);
    if n.point {
      SplitAtFirst(n.whole, '.', n.frac);
      SplitWithout(n.frac, '.');
    } else {
      SplitWithout(n.whole, '.');
    }
  }

  /** The kept places of the fraction, as a number. */
  function Kept(frac: string, decimals: nat): nat
    requires AllDigits(frac)
  {
    Value(PadAndCut(frac, decimals))
  }

  /** `k` is `v` times ten to the power `decimals - places`, rounded down. */
  ghost predicate IsFloor(k: int, v: nat, decimals: nat, places: nat) {
    Scaled(k, places) <= Scaled(v, decimals) < Scaled(k + 1, places)
  }

  lemma PaddingMultiplies(frac: string, decimals: nat)
    requires AllDigits(frac) && |frac| <= decimals
    ensures Scaled(Kept(frac, decimals), |frac|) == Scaled(Value(frac), decimals)
  {
    var missing := decimals - |frac|;
    ValueOfConcat(frac, Zeros(missing));
    ValueOfZeros(missing);
    ScaledTwice(Value(frac), missing, |frac|);
  }

  lemma CuttingDivides(frac: string, decimals: nat)
    requires AllDigits(frac) && |frac| > decimals
    ensures Scaled(Kept(frac, decimals), |frac|) <= Scaled(Value(frac), decimals)
    ensures Scaled(Value(frac), decimals) < Scaled(Kept(frac, decimals), |frac|) + Scaled(1, |frac|)
  {
    hide Value;
    var kept, lost := frac[..decimals], frac[decimals..];
    assert frac == kept + lost;
    ValueOfConcat(kept, lost);
    ValueIsBelow(lost);
    ScaledIsLinear(Scaled(Value(kept), |lost|), Value(lost), decimals);
    ScaledTwice(Value(kept), |lost|, decimals);
    ScaledTwice(1, |lost|, decimals);
    ScaledIsMonotone(Value(lost), Scaled(1, |lost|), decimals);
    ScaledIsMonotone(-1, Value(lost), decimals);
    ScaledIsLinear(0, 0, decimals);
    ScaledIsMonotone(Value(lost), 0, decimals);
  }

  lemma BetweenIsFloor(k: int, v: nat, decimals: nat, places: nat)
    requires 0 <= Scaled(v, decimals) - Scaled(k, places) < Scaled(1, places)
    ensures IsFloor(k, v, decimals, places)
  {
    ScaledIsLinear(k, 1, places);
  }

  /** Cutting and padding a fraction scales it by a power of ten and rounds down. */
  lemma KeptIsFloor(frac: string, decimals: nat)
    requires AllDigits(frac)
    ensures IsFloor(Kept(frac, decimals), Value(frac), decimals, |frac|)
  {
    if |frac| <= decimals {
      PaddingMultiplies(frac, decimals);
      ScaledIsPositive(|frac|);
    } else {
      CuttingDivides(frac, decimals);
    }
    BetweenIsFloor(Kept(frac, decimals), Value(frac), decimals, |frac|);
  }

  lemma {:induction false} ScaledIsPositive(n: nat)
    ensures Scaled(1, n) > 0
  {
    if n > 0 {
      ScaledIsPositive(n - 1);
    }
  }

  lemma BigIntOfDigits(s: string)
    requires AllDigits(s)
    ensures BigInt(s) == Some(Value(s))
  {
  }

  lemma BigIntOfNegative(s: string)
    requires AllDigits(s)
    ensures BigInt("-" + s) == if s == "" then None else Some(-(Value(s) as int))
  {
    hide Value;
    assert ("-" + s)[1..] == s && !IsDigit(("-" + s)[0]);
  }

  lemma KeptOfNothing(decimals: nat)
    ensures Kept("", decimals) == 0
  {
    ValueOfZeros(decimals);
    assert "" + Zeros(decimals) == Zeros(decimals);
  }

  lemma UnsignedBaseUnits(whole: string, frac: string, decimals: nat)
    requires AllDigits(whole) && AllDigits(frac)
    ensures BaseUnits(whole, frac, decimals) == Ok(Scaled(Value(whole), decimals) + Kept(frac, decimals))
  {
    hide BigInt, Value;
    BigIntOfDigits(whole);
    BigIntOfDigits(PadAndCut(frac, decimals));
    if frac == "" {
      KeptOfNothing(decimals);
    }
  }

  function Units(n: Numeral, decimals: nat): int
    requires Unsigned(n)
  {
    Scaled(Value(n.whole), decimals) + Kept(n.frac, decimals)
  }

  lemma UnsignedReads(n: Numeral, decimals: nat)
    requires Unsigned(n)
    ensures ParseAmount(Text(n), decimals)
            == if n.whole + n.frac == "" then Err(InvalidValue) else BaseUnits(n.whole, n.frac, decimals)
  {
    TextSplits(n);
  }

  lemma ParsesUnsigned(n: Numeral, decimals: nat)
    requires Unsigned(n)
    ensures ParseAmount(Text(n), decimals)
            == if n.whole + n.frac == "" then Err(InvalidValue) else Ok(Units(n, decimals))
  {
    hide ParseAmount, BaseUnits;
    UnsignedReads(n, decimals);
    UnsignedBaseUnits(n.whole, n.frac, decimals);
  }

  lemma WholePart(a: nat, b: nat, k: int, decimals: nat, places: nat)
    requires IsFloor(k, b, decimals, places) && Scaled(a, places) >= 0
    ensures IsFloor(Scaled(a, decimals) + k, Scaled(a, places) + b, decimals, places)
  {
    hide Scaled;
    ScaledIsLinear(Scaled(a, decimals), k, places);
    ScaledIsLinear(Scaled(a, decimals), k + 1, places);
    ScaledIsLinear(Scaled(a, places), b, decimals);
    ScaledTwice(a, decimals, places);
    ScaledTwice(a, places, decimals);
  }

  lemma ScaledIsNat(v: nat, n: nat)
    ensures Scaled(v, n) >= 0
  {
    ScaledIsLinear(0, 0, n);
    ScaledIsMonotone(v, 0, n);
  }

  lemma UnitsAreFloor(n: Numeral, decimals: nat)
    requires Unsigned(n)
    ensures Units(n, decimals) >= 0 && IsFloor(Units(n, decimals), Digits(n), decimals, |n.frac|)
  {
    KeptIsFloor(n.frac, decimals);
    ValueOfConcat(n.whole, n.frac);
    ScaledIsNat(Value(n.whole), decimals);
    ScaledIsNat(Value(n.whole), |n.frac|);
    WholePart(Value(n.whole), Value(n.frac), Kept(n.frac, decimals), decimals, |n.frac|);
  }

  /** An unsigned decimal of any length parses to its value in base units, rounded down; text
      without a digit is refused. */
  lemma ParsedIsFloor(n: Numeral, decimals: nat)
    requires Unsigned(n)
    ensures var r := ParseAmount(Text(n), decimals);
            if n.whole + n.frac == "" then r == Err(InvalidValue)
            else r.Ok? && r.value >= 0 && IsFloor(r.value, Digits(n), decimals, |n.frac|)
  {
    ParsesUnsigned(n, decimals);
    UnitsAreFloor(n, decimals);
  }

  /** The numeral `a` is at most `b`. */
  ghost predicate AtMost(a: Numeral, b: Numeral)
    requires Unsigned(a) && Unsigned(b)
  {
    Scaled(Digits(a), |b.frac|) <= Scaled(Digits(b), |a.frac|)
  }

  lemma LiftOrder(v: int, m: nat, w: int, n: nat, more: nat)
    ensures Scaled(v, m) < Scaled(w, n) <==> Scaled(v, m + more) < Scaled(w, n + more)
  {
    ScaledTwice(v, m, more);
    ScaledTwice(w, n, more);
    ScaledIsMonotone(Scaled(v, m), Scaled(w, n), more);
  }

  lemma FloorsAreOrdered(k: int, l: int, v: nat, w: nat, decimals: nat, p: nat, q: nat)
    requires IsFloor(k, v, decimals, p) && IsFloor(l, w, decimals, q)
    requires Scaled(v, q) <= Scaled(w, p)
    ensures k <= l
  {
    hide Scaled;
    LiftOrder(v, decimals, k, p, q);
    LiftOrder(w, p, v, q, decimals);
    LiftOrder(w, decimals, l + 1, q, p);
    ScaledIsMonotone(k, l + 1, p + q);
  }

  /** A larger amount never parses to fewer base units, however either is written. */
  lemma ParsingIsMonotone(a: Numeral, b: Numeral, decimals: nat)
    requires Unsigned(a) && Unsigned(b) && a.whole + a.frac != "" && b.whole + b.frac != ""
    requires AtMost(a, b)
    ensures var x, y := ParseAmount(Text(a), decimals), ParseAmount(Text(b), decimals);
            x.Ok? && y.Ok? && x.value <= y.value
  {
    ParsedIsFloor(a, decimals);
    ParsedIsFloor(b, decimals);
    FloorsAreOrdered(ParseAmount(Text(a), decimals).value, ParseAmount(Text(b), decimals).value,
                     Digits(a), Digits(b), decimals, |a.frac|, |b.frac|);
  }

  /** Whatever follows a second point is ignored. */
  lemma LaterPointsAreIgnored(n: Numeral, rest: string, decimals: nat)
    requires Unsigned(n) && n.point && n.whole + n.frac != ""
    ensures ParseAmount(Text(n) + "." + rest, decimals) == ParseAmount(Text(n), decimals)
  {
    hide BaseUnits;
    PointIsNoDigit(n.whole);
    PointIsNoDigit(n.frac);
    TextSplits(n);
    var num := Text(n) + "." + rest;
    assert num == n.whole + ['.'] + (n.frac + ['.'] + rest);
    SplitAtFirst(n.whole, '.', n.frac + ['.'] + rest);
    SplitAtFirst(n.frac, '.', rest);
  }

  // ----- signed input ----------------------------------------------------------------------

  function Negated(r: Result<int, Failure>): Result<int, Failure> {
    if r.Ok? then Ok(-r.value) else r
  }

  lemma NegativeTextSplits(n: Numeral)
    requires Unsigned(n)
    ensures Split("-" + Text(n), '.') == if n.point then ["-" + n.whole, n.frac] else ["-" + n.whole]
    ensures ReadsAsNumber("-" + Text(n)) <==> n.whole + n.frac != ""
  {
    PointIsNoDigit(n.whole);
    PointIsNoDigit(n.frac);
    var num := "-" + Text(n);
    assert num[1..] == Text(n);
    if n.point {
      assert num == ("-" + n.whole) + ['.'] + n.frac;
      SplitAtFirst("-" + n.whole, '.', n.frac);
      SplitWithout(n.frac, '.');
    } else {
      SplitWithout("-" + n.whole, '.');
    }
  }

  lemma NegativeReads(n: Numeral, decimals: nat)
    requires Unsigned(n) && n.whole + n.frac != ""
    ensures ParseAmount("-" + Text(n), decimals) == BaseUnits("-" + n.whole, n.frac, decimals)
  {
    NegativeTextSplits(n);
  }

  lemma ParsesNegative(n: Numeral, decimals: nat)
    requires Unsigned(n) && n.whole + n.frac != ""
    ensures ParseAmount("-" + Text(n), decimals)
            == if n.whole == "" then Err(SyntaxError) else Ok(2 * Kept(n.frac, decimals) - Units(n, decimals))
  {
    hide ParseAmount, BaseUnits;
    NegativeReads(n, decimals);
    NegativeBaseUnits(n.whole, n.frac, decimals);
  }

  lemma NegativeBaseUnits(whole: string, frac: string, decimals: nat)
    requires AllDigits(whole) && AllDigits(frac)
    ensures BaseUnits("-" + whole, frac, decimals)
            == if whole == "" then Err(SyntaxError)
               else Ok(-Scaled(Value(whole), decimals) + Kept(frac, decimals))
  {
    hide BigInt, Value;
    BigIntOfNegative(whole);
    BigIntOfDigits(PadAndCut(frac, decimals));
    ScaledIsLinear(Value(whole), 0, decimals);
    if frac == "" {
      KeptOfNothing(decimals);
    }
  }

  /** A minus sign applies to the whole part only: the result is the opposite of the unsigned one
      exactly when there is a whole part and the places kept of the fraction are zero. */
  lemma NegativeIsOppositeIff(n: Numeral, decimals: nat)
    requires Unsigned(n) && n.whole + n.frac != ""
    ensures ParseAmount("-" + Text(n), decimals) == Negated(ParseAmount(Text(n), decimals))
            <==> n.whole != "" && Kept(n.frac, decimals) == 0
  {
    hide ParseAmount, Units, Kept, Text;
    ParsesUnsigned(n, decimals);
    ParsesNegative(n, decimals);
  }

  /** Minus one half of a token with one decimal place becomes plus five base units. */
  lemma MinusOneHalfBecomesPlusFive()
    ensures ParseAmount("-0.5", 1) == Ok(5)
  {
    var n := Numeral("0", "5", true);
    assert "-" + Text(n) == "-0.5";
    ParsesNegative(n, 1);
    assert "0"[..0] == "" && "5"[..0] == "" && PadAndCut("5", 1) == "5";
    assert Value("0") == 0 && Value("5") == 5;
  }

  /** A plus sign before a whole part changes nothing; without a whole part it is an error. */
  lemma PlusIsIgnored(n: Numeral, decimals: nat)
    requires Unsigned(n) && n.whole + n.frac != ""
    ensures ParseAmount("+" + Text(n), decimals)
            == if n.whole == "" then Err(SyntaxError) else ParseAmount(Text(n), decimals)
  {
    hide Value;
    PointIsNoDigit(n.whole);
    PointIsNoDigit(n.frac);
    TextSplits(n);
    var num := "+" + Text(n);
    assert num[1..] == Text(n) && !IsDigit("+"[0]);
    assert ("+" + n.whole)[1..] == n.whole;
    if n.point {
      assert num == ("+" + n.whole) + ['.'] + n.frac;
      SplitAtFirst("+" + n.whole, '.', n.frac);
      SplitWithout(n.frac, '.');
    } else {
      SplitWithout("+" + n.whole, '.');
    }
  }

  lemma SignedPlaces(frac: string, decimals: nat)
    requires AllDigits(frac)
    ensures BigInt(PadAndCut("-" + frac, decimals))
            == if decimals == 0 then Some(0)
               else if decimals == 1 then None
               else Some(-(Kept(frac, decimals - 1) as int))
  {
    assert BigInt("") == Some(0);
    hide Value;
    var cut := PadAndCut("-" + frac, decimals);
    if decimals > 0 {
      assert cut == "-" + PadAndCut(frac, decimals - 1);
      BigIntOfNegative(PadAndCut(frac, decimals - 1));
    } else {
      assert cut == "";
    }
  }

  /** A minus sign after the point is taken for a place of the fraction: the places that remain are
      subtracted, and with room for the sign alone it is an error. */
  lemma MinusAfterPointSubtracts(whole: string, frac: string, decimals: nat)
    requires AllDigits(whole) && AllDigits(frac) && whole != ""
    ensures ParseAmount(whole + ".-" + frac, decimals)
            == if decimals == 0 then Ok(Value(whole))
               else if decimals == 1 then Err(SyntaxError)
               else Ok(Scaled(Value(whole), decimals) - Kept(frac, decimals - 1))
  {
    hide Value, BigInt;
    var num := whole + ".-" + frac;
    PointIsNoDigit(whole);
    PointIsNoDigit(frac);
    assert num == whole + ['.'] + ("-" + frac);
    SplitAtFirst(whole, '.', "-" + frac);
    SplitWithout("-" + frac, '.');
    BigIntOfDigits(whole);
    SignedPlaces(frac, decimals);
  }
}
