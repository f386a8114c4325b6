/** Decimal numerals, and splitting text at a character. */
module Decimal {
  import opened Types

  predicate IsDigit(c: char) {
    '0' <= c <= '9'
  }

  predicate AllDigits(s: string) {
    forall i :: 0 <= i < |s| ==> IsDigit(s[i])
  }

  function DigitValue(c: char): nat
    requires IsDigit(c)
  {
    (c - '0') as nat
  }

  /** `v` times ten to the power `n`. */
  function Scaled(v: int, n: nat): int {
    if n == 0 then v else 10 * Scaled(v, n - 1)
  }

  function Value(s: string): nat
    requires AllDigits(s)
  {
    if s == "" then 0 else 10 * Value(s[..|s| - 1]) + DigitValue(s[|s| - 1])
  }

  function ToString(n: nat): (s: string)
    ensures s != "" && AllDigits(s)
  {
    var last := [('0' as int + n % 10) as char];
    if n < 10 then last else ToString(n / 10) + last
  }

  lemma {:induction false} ValueOfToString(n: nat)
    ensures Value(ToString(n)) == n
  {
    var s, last := ToString(n), [('0' as int + n % 10) as char];
    assert DigitValue(s[|s| - 1]) == n % 10;
    if n < 10 {
      assert s[..|s| - 1] == "";
    } else {
      ValueOfToString(n / 10);
      assert s[..|s| - 1] == ToString(n / 10);
    }
  }

  lemma {:induction false} ScaledTwice(v: int, m: nat, n: nat)
    ensures Scaled(Scaled(v, m), n) == Scaled(v, m + n)
  {
    if n > 0 {
      ScaledTwice(v, m, n - 1);
    }
  }

  lemma {:induction false} ScaledIsLinear(v: int, w: int, n: nat)
    ensures Scaled(v + w, n) == Scaled(v, n) + Scaled(w, n)
    ensures Scaled(-v, n) == -Scaled(v, n)
  {
    if n > 0 {
      ScaledIsLinear(v, w, n - 1);
    }
  }

  lemma {:induction false} ScaledIsMonotone(v: int, w: int, n: nat)
    ensures v < w <==> Scaled(v, n) < Scaled(w, n)
  {
    if n > 0 {
      ScaledIsMonotone(v, w, n - 1);
    }
  }

  lemma {:induction false} ValueOfConcat(s: string, t: string)
    requires AllDigits(s) && AllDigits(t)
    ensures AllDigits(s + t) && Value(s + t) == Scaled(Value(s), |t|) + Value(t)
  {
    if t == "" {
      assert s + t == s;
    } else {
      var front := t[..|t| - 1];
      ValueOfConcat(s, front);
      assert (s + t)[..|s + t| - 1] == s + front;
    }
  }

  lemma {:induction false} ValueIsBelow(s: string)
    requires AllDigits(s)
    ensures Value(s) < Scaled(1, |s|)
  {
    if s != "" {
      ValueIsBelow(s[..|s| - 1]);
    }
  }

  function Zeros(n: nat): (s: string)
    ensures |s| == n && AllDigits(s)
  {
    seq(n, _ => '0')
  }

  lemma {:induction false} ValueOfZeros(n: nat)
    ensures Value(Zeros(n)) == 0
  {
    if n > 0 {
      ValueOfZeros(n - 1);
      assert Zeros(n)[..n - 1] == Zeros(n - 1);
    }
  }

  // ----- splitting and joining -------------------------------------------------------------

  /** The pieces between occurrences of `c`; there is always at least one. */
  function Split(s: string, c: char): (parts: seq<string>)
    ensures parts != []
  {
    if s == "" then [""]
    else
      var rest := Split(s[1..], c);
      if s[0] == c then [""] + rest else [[s[0]] + rest[0]] + rest[1..]
  }

  function Join(parts: seq<string>, c: char): string {
    if parts == [] then ""
    else if |parts| == 1 then parts[0]
    else parts[0] + [c] + Join(parts[1..], c)
  }

  lemma {:induction false} SplitWithout(s: string, c: char)
    requires c !in s
    ensures Split(s, c) == [s]
  {
    if s != "" {
      SplitWithout(s[1..], c);
      assert [s[0]] + s[1..] == s;
    }
  }

  lemma {:induction false} SplitAtFirst(s: string, c: char, rest: string)
    requires c !in s
    ensures Split(s + [c] + rest, c) == [s] + Split(rest, c)
  {
    var whole := s + [c] + rest;
    if s == "" {
      assert whole[1..] == rest;
    } else {
      SplitAtFirst(s[1..], c, rest);
      assert whole[1..] == s[1..] + [c] + rest;
      assert [s[0]] + s[1..] == s;
      assert ([s[1..]] + Split(rest, c))[1..] == Split(rest, c);
    }
  }

  /** Splitting undoes joining of pieces the separator does not occur in. */
  lemma {:induction false} SplitOfJoin(parts: seq<string>, c: char)
    requires parts != [] && forall i :: 0 <= i < |parts| ==> c !in parts[i]
    ensures Split(Join(parts, c), c) == parts
  {
    if |parts| == 1 {
      SplitWithout(parts[0], c);
    } else {
      SplitOfJoin(parts[1..], c);
      SplitAtFirst(parts[0], c, Join(parts[1..], c));
    }
  }

  /** And joining undoes splitting, whose pieces never hold the separator. */
  lemma {:induction false} JoinOfSplit(s: string, c: char)
    ensures Join(Split(s, c), c) == s
    ensures forall i :: 0 <= i < |Split(s, c)| ==> c !in Split(s, c)[i]
  {
    if s != "" {
      JoinOfSplit(s[1..], c);
      var rest := Split(s[1..], c);
      assert [s[0]] + s[1..] == s;
      if s[0] == c {
        assert ([""] + rest)[1..] == rest;
      } else {
        var parts := [[s[0]] + rest[0]] + rest[1..];
        assert parts[1..] == rest[1..];
        assert |rest| > 1 ==>
            Join(parts, c) == [s[0]] + (rest[0] + [c] + Join(rest[1..], c));
      }
    }
  }
}
