/** Positional notation in any base: digit sequences, most significant first. */
module Positional {
  type byte = n: nat | n < 256

  type Bytes = seq<byte>

  ghost predicate DigitsIn(s: seq<nat>, base: nat) {
    forall i :: 0 <= i < |s| ==> s[i] < base
  }

  function Value(s: seq<nat>, base: nat): nat {
    if s == [] then 0 else Value(s[..|s| - 1], base) * base + s[|s| - 1]
  }

  /** The digits of `v` without leading zeros; none for 0. */
  ghost function Rep(v: nat, base: nat): seq<nat>
    requires base >= 2
  {
    if v == 0 then [] else Rep(v / base, base) + [v % base]
  }

  ghost predicate NoLeadingZero(s: seq<nat>) {
    s == [] || s[0] != 0
  }

  function Pow(base: nat, e: nat): nat {
    if e == 0 then 1 else base * Pow(base, e - 1)
  }

  lemma {:induction false} ProductMonotone(a: nat, b: nat, c: nat)
    requires a <= b
    ensures a * c <= b * c
    decreases c
  {
    if c > 0 {
      ProductMonotone(a, b, c - 1);
      assert a * c == a * (c - 1) + a && b * c == b * (c - 1) + b;
    }
  }

  lemma ProductZero(a: nat, b: nat)
    requires b >= 1 && a * b == 0
    ensures a == 0
  {
    ProductMonotone(1, b, a);
  }

  lemma ProductStep(p: nat, q: nat, c: nat)
    ensures p < q ==> p * c + c <= q * c
  {
    if p < q {
      ProductMonotone(p + 1, q, c);
      assert (p + 1) * c == p * c + c;
    }
  }

  /** Quotient and remainder are determined by the equation. */
  lemma DivModUnique(q: nat, r: nat, base: nat)
    requires base >= 2 && r < base
    ensures (q * base + r) / base == q && (q * base + r) % base == r
  {
    var n := q * base + r;
    var p := n / base;
    assert n == p * base + n % base;
    ProductStep(p, q, base);
    ProductStep(q, p, base);
  }

  lemma {:induction false} ValueZero(s: seq<nat>, base: nat)
    requires base >= 2
    ensures Value(s, base) == 0 <==> forall i :: 0 <= i < |s| ==> s[i] == 0
  {
    if s != [] {
      var front := s[..|s| - 1];
      ValueZero(front, base);
      if Value(s, base) == 0 {
        ProductZero(Value(front, base), base);
        forall i | 0 <= i < |s| ensures s[i] == 0 {
          if i < |s| - 1 { assert front[i] == 0; }
        }
      }
      if forall i :: 0 <= i < |s| ==> s[i] == 0 {
        assert forall i :: 0 <= i < |front| ==> front[i] == 0;
      }
    }
  }

  /** A number has one representation without leading zeros. */
  lemma {:induction false} RepOfValue(s: seq<nat>, base: nat)
    requires base >= 2 && DigitsIn(s, base) && NoLeadingZero(s)
    ensures Rep(Value(s, base), base) == s
  {
    if s != [] {
      var front, last := s[..|s| - 1], s[|s| - 1];
      DivModUnique(Value(front, base), last, base);
      ValueZero(s, base);
      RepOfValue(front, base);
      assert s == front + [last];
    }
  }

  /** Division by the base as an equation, so that proofs need not divide. */
  lemma Split(v: nat, base: nat) returns (q: nat, r: nat)
    requires base >= 2 && v > 0
    ensures q == v / base && r == v % base && Rep(v, base) == Rep(q, base) + [r]
    ensures q < v && r < base && q * base + r == v && (q == 0 ==> r > 0)
  {
    q, r := v / base, v % base;
    hide Rep;
    assert q * base + r == v;
    ProductMonotone(2, base, q);
    assert Rep(v, base) == Rep(q, base) + [r] by { RepUnfolds(v, base); }
  }

  lemma RepUnfolds(v: nat, base: nat)
    requires base >= 2 && v > 0
    ensures Rep(v, base) == Rep(v / base, base) + [v % base]
  {
  }

  lemma {:induction false} RepIsMinimal(v: nat, base: nat)
    requires base >= 2
    ensures DigitsIn(Rep(v, base), base) && NoLeadingZero(Rep(v, base))
    ensures Rep(v, base) == [] <==> v == 0
  {
    if v > 0 {
      var q, r := Split(v, base);
      hide Rep;
      RepIsMinimal(q, base);
    }
  }

  lemma {:induction false} RepHasValue(v: nat, base: nat)
    requires base >= 2
    ensures Value(Rep(v, base), base) == v
  {
    if v > 0 {
      var q, r := Split(v, base);
      hide Rep, Value;
      RepHasValue(q, base);
      ValueSnoc(Rep(q, base), r, base);
    }
  }

  lemma ValueOfRep(v: nat, base: nat)
    requires base >= 2
    ensures Value(Rep(v, base), base) == v && DigitsIn(Rep(v, base), base) && NoLeadingZero(Rep(v, base))
  {
    RepIsMinimal(v, base);
    RepHasValue(v, base);
  }

  lemma ValueSnoc(s: seq<nat>, d: nat, base: nat)
    ensures Value(s + [d], base) == Value(s, base) * base + d
  {
    assert (s + [d])[..|s|] == s;
  }

  lemma Regrouped(x: nat, y: nat, z: nat)
    ensures x * (y * z) == (x * y) * z
  {
  }

  lemma {:induction false} PowSum(base: nat, a: nat, b: nat)
    ensures Pow(base, a + b) == Pow(base, a) * Pow(base, b)
  {
    if a > 0 {
      PowSum(base, a - 1, b);
      Regrouped(base, Pow(base, a - 1), Pow(base, b));
    }
  }

  lemma RepSnoc(v: nat, r: nat, base: nat)
    requires base >= 2 && v > 0 && r < base
    ensures Rep(v * base + r, base) == Rep(v, base) + [r]
  {
    hide Rep;
    DivModUnique(v, r, base);
    ProductMonotone(1, v, base);
    RepUnfolds(v * base + r, base);
  }

  lemma LowPlace(low: nat, base: nat, p: nat) returns (q: nat, r: nat)
    requires base >= 2 && low < base * p
    ensures q < p && r < base && q * base + r == low
  {
    q, r := low / base, low % base;
    assert q * base + r == low;
    if q >= p {
      ProductMonotone(p, q, base);
    }
  }

  /** The leading digits of a number are those of what stands above the lower `k` places. */
  lemma {:induction false} LeadingDigits(top: nat, low: nat, base: nat, k: nat) returns (tail: seq<nat>)
    requires base >= 2 && top > 0 && low < Pow(base, k)
    ensures Rep(top * Pow(base, k) + low, base) == Rep(top, base) + tail && |tail| == k
  {
    hide Rep;
    if k == 0 {
      tail := [];
    } else {
      var p := Pow(base, k - 1);
      var q, r := LowPlace(low, base, p);
      var rest := LeadingDigits(top, q, base, k - 1);
      Distribute(top, p, q, base);
      PowPositive(base, k - 1);
      assert top * p > 0 by {
        if top * p == 0 { ProductZero(top, p); }
      }
      RepSnoc(top * p + q, r, base);
      tail := rest + [r];
    }
  }

  lemma {:induction false} PowPositive(base: nat, k: nat)
    requires base >= 1
    ensures Pow(base, k) >= 1
  {
    if k > 0 {
      PowPositive(base, k - 1);
      ProductMonotone(1, base, Pow(base, k - 1));
    }
  }

  lemma QuotientAndRemainder(v: nat, base: nat)
    requires base >= 2
    ensures v / base * base + v % base == v
  {
  }

  lemma {:induction false} LeadingZerosAreIdle(k: nat, s: seq<nat>, base: nat)
    requires base >= 2
    ensures Value(seq(k, _ => 0) + s, base) == Value(s, base)
  {
    var zeros: seq<nat> := seq(k, _ => 0);
    if s == [] {
      ValueZero(zeros + s, base);
    } else {
      LeadingZerosAreIdle(k, s[..|s| - 1], base);
      assert (zeros + s)[..|zeros + s| - 1] == zeros + s[..|s| - 1];
    }
  }

  /** The value grouped by its most significant digit. */
  lemma {:induction false} ValueCons(x: nat, s: seq<nat>, base: nat)
    ensures Value([x] + s, base) == x * Pow(base, |s|) + Value(s, base)
  {
    var t := [x] + s;
    if s == [] {
      assert t[..0] == [];
    } else {
      var front, last := s[..|s| - 1], s[|s| - 1];
      ValueCons(x, front, base);
      assert t[..|t| - 1] == [x] + front;
      var p := Pow(base, |front|);
      assert (x * p + Value(front, base)) * base == x * (base * p) + Value(front, base) * base by {
        Distribute(x, p, Value(front, base), base);
      }
    }
  }

  lemma Distribute(x: nat, p: nat, v: nat, base: nat)
    ensures (x * p + v) * base == x * (base * p) + v * base
  {
  }

  /** Digits fill at most their places. */
  lemma {:induction false} ValueBelowPow(s: seq<nat>, base: nat)
    requires base >= 2 && DigitsIn(s, base)
    ensures Value(s, base) < Pow(base, |s|)
  {
    if s != [] {
      var front := s[..|s| - 1];
      ValueBelowPow(front, base);
      ProductMonotone(Value(front, base) + 1, Pow(base, |front|), base);
      assert (Value(front, base) + 1) * base == Value(front, base) * base + base;
    }
  }

  /** How many zeros lead. */
  ghost function LeadingZeros(s: seq<nat>): (k: nat)
    ensures k <= |s|
  {
    if s != [] && s[0] == 0 then 1 + LeadingZeros(s[1..]) else 0
  }

  lemma {:induction false} SplitLeadingZeros(s: seq<nat>)
    ensures s == seq(LeadingZeros(s), _ => 0) + s[LeadingZeros(s)..]
    ensures NoLeadingZero(s[LeadingZeros(s)..])
  {
    if s != [] && s[0] == 0 {
      SplitLeadingZeros(s[1..]);
      var k := LeadingZeros(s[1..]);
      assert s[1..][k..] == s[k + 1..];
      assert s == [0] + s[1..];
      assert seq<nat>(k + 1, _ => 0) == [0] + seq<nat>(k, _ => 0);
    } else {
      assert s[0..] == s;
    }
  }

  lemma {:induction false} CountLeadingZeros(k: nat, s: seq<nat>)
    requires NoLeadingZero(s)
    ensures LeadingZeros(seq(k, _ => 0) + s) == k
  {
    if k > 0 {
      CountLeadingZeros(k - 1, s);
      assert (seq<nat>(k, _ => 0) + s)[1..] == seq<nat>(k - 1, _ => 0) + s;
    } else {
      assert seq<nat>(0, _ => 0) + s == s;
    }
  }
}
