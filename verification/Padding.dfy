/** Size buckets: the message ladder, Padmé, and the two length-prefixed paddings. */
module Padding {
  import opened Wrappers
  import opened Positional

  const PAD_BUCKETS: seq<nat> := [256, 1024, 4096, 16384, 65536]

  datatype Error = ShorterThanPrefix | PrefixExceedsBuffer

  // ── Words ─────────────────────────────────────────────────────────────────

  /** Position of the highest set bit: the word width less one less the leading zeros. */
  function Log2(n: nat): nat
    requires n >= 1
  {
    if n == 1 then 0 else 1 + Log2(n / 2)
  }

  /** Bitwise and, bit by bit. */
  function And(x: nat, y: nat): nat {
    if x == 0 then 0
    else (if x % 2 == 1 && y % 2 == 1 then 1 else 0) + 2 * And(x / 2, y / 2)
  }

  /** Bitwise complement in words of `w` bits. */
  function Not(x: nat, w: nat): nat
    requires x < Pow(2, w)
  {
    Pow(2, w) - 1 - x
  }

  lemma {:induction false} PowMonotone(a: nat, b: nat)
    requires a <= b
    ensures 1 <= Pow(2, a) <= Pow(2, b)
    decreases b
  {
    if a < b {
      PowMonotone(a, b - 1);
    } else if a > 0 {
      PowMonotone(a - 1, b - 1);
    }
  }

  lemma PowStrict(a: nat, b: nat)
    ensures a < b ==> 2 * Pow(2, a) <= Pow(2, b)
  {
    if a < b {
      PowMonotone(a + 1, b);
    }
  }

  lemma {:induction false} Log2Brackets(n: nat)
    requires n >= 1
    ensures Pow(2, Log2(n)) <= n < 2 * Pow(2, Log2(n))
  {
    if n > 1 {
      Log2Brackets(n / 2);
    }
  }

  lemma Log2IsUnique(n: nat, e: nat)
    requires n >= 1 && Pow(2, e) <= n < 2 * Pow(2, e)
    ensures Log2(n) == e
  {
    Log2Brackets(n);
    PowStrict(Log2(n), e);
    PowStrict(e, Log2(n));
  }

  lemma {:induction false} AndAllOnes(x: nat, w: nat)
    requires x < Pow(2, w)
    ensures And(x, Pow(2, w) - 1) == x
  {
    if x > 0 {
      assert Pow(2, w) == 2 * Pow(2, w - 1);
      AndAllOnes(x / 2, w - 1);
      assert (Pow(2, w) - 1) / 2 == Pow(2, w - 1) - 1;
    }
  }

  /** Masking off the low `k` bits rounds down to a multiple of 2^k. */
  lemma {:induction false} MaskRoundsDown(x: nat, k: nat, w: nat)
    requires x < Pow(2, w) && k <= w
    ensures 1 <= Pow(2, k) <= Pow(2, w)
    ensures And(x, Not(Pow(2, k) - 1, w)) == x / Pow(2, k) * Pow(2, k)
    decreases k
  {
    PowMonotone(k, w);
    PowMonotone(0, k);
    if k == 0 {
      AndAllOnes(x, w);
    } else {
      var p := Pow(2, k - 1);
      assert Pow(2, k) == 2 * p && Pow(2, w) == 2 * Pow(2, w - 1);
      hide Pow, And;
      MaskRoundsDown(x / 2, k - 1, w - 1);
      AndEven(x, Not(p - 1, w - 1));
      HalvesDivide(x, p);
    }
  }

  lemma AndEven(x: nat, y: nat)
    ensures And(x, 2 * y) == 2 * And(x / 2, y)
  {
    assert 2 * y / 2 == y && 2 * y % 2 == 0;
  }

  lemma HalvesDivide(x: nat, p: nat)
    requires p >= 1
    ensures x / (2 * p) == x / 2 / p
    ensures 2 * (x / 2 / p * p) == x / (2 * p) * (2 * p)
  {
    var q, r := x / 2 / p, x / 2 % p;
    assert x / 2 == q * p + r;
    assert x == q * (2 * p) + (2 * r + x % 2);
    DivModUnique(q, 2 * r + x % 2, 2 * p);
  }

  // ── Buckets ───────────────────────────────────────────────────────────────

  function RoundUp(n: nat, unit: nat): nat
    requires unit >= 1
  {
    (n + unit - 1) / unit * unit
  }

  /** The first rung of the ladder that is large enough, if any. */
  function Rung(needed: nat, i: nat): Option<nat>
    requires i <= |PAD_BUCKETS|
    decreases |PAD_BUCKETS| - i
  {
    if i == |PAD_BUCKETS| then None
    else if PAD_BUCKETS[i] >= needed then Some(PAD_BUCKETS[i])
    else Rung(needed, i + 1)
  }

  function MessageBucket(needed: nat): nat {
    match Rung(needed, 0)
    case Some(b) => b
    case None => RoundUp(needed, 65536)
  }

  /** How many low bits Padmé clears. */
  function LastBits(n: nat): nat
    requires n >= 2
  {
    var e := Log2(n);
    var s := Log2(e) + 1;
    if e >= s then e - s else 0
  }

  /** Padmé with machine words of `w` bits, as the program computes it. */
  function PadmeBucket(n: nat, w: nat): nat
    requires 2 * n < Pow(2, w)
  {
    if n < 2 then n
    else
      PadmeMaskFits(n, w);
      var mask := Pow(2, LastBits(n)) - 1;
      And(n + mask, Not(mask, w))
  }

  lemma PadmeMaskFits(n: nat, w: nat)
    requires n >= 2 && 2 * n < Pow(2, w)
    ensures LastBits(n) < w
    ensures 1 <= Pow(2, LastBits(n)) <= n && Pow(2, LastBits(n)) - 1 < Pow(2, w)
    ensures n + Pow(2, LastBits(n)) - 1 < Pow(2, w)
  {
    Log2Brackets(n);
    PowMonotone(LastBits(n), Log2(n));
    if LastBits(n) >= w {
      PowMonotone(w, LastBits(n));
    }
  }

  /** The add-and-mask step is rounding up to a multiple of the unit. */
  lemma PadmeRounds(n: nat, w: nat)
    requires n >= 2 && 2 * n < Pow(2, w)
    ensures Pow(2, LastBits(n)) >= 1
    ensures PadmeBucket(n, w) == RoundUp(n, Pow(2, LastBits(n)))
  {
    PadmeMaskFits(n, w);
    MaskRoundsDown(n + Pow(2, LastBits(n)) - 1, LastBits(n), w);
  }

  lemma RoundUpFacts(n: nat, unit: nat)
    requires unit >= 1
    ensures n <= RoundUp(n, unit) < n + unit
    ensures RoundUp(n, unit) % unit == 0
  {
    var q, r := (n + unit - 1) / unit, (n + unit - 1) % unit;
    assert n + unit - 1 == q * unit + r;
    if unit >= 2 { DivModUnique(q, 0, unit); }
  }

  /** The least multiple at or above `n`. */
  lemma RoundUpLeast(n: nat, unit: nat, m: nat)
    requires unit >= 1 && n <= m * unit
    ensures RoundUp(n, unit) <= m * unit
  {
    RoundUpFacts(n, unit);
    var q := (n + unit - 1) / unit;
    ProductStep(m, q, unit);
  }

  /** A unit of Padmé divides the power of two above. */
  lemma NextPowerIsMultiple(n: nat)
    requires n >= 2
    ensures 2 * Pow(2, Log2(n)) == Pow(2, Log2(n) + 1 - LastBits(n)) * Pow(2, LastBits(n))
  {
    var e, k := Log2(n), LastBits(n);
    assert k <= e && Pow(2, e + 1) == 2 * Pow(2, e);
    hide Log2, LastBits, Pow;
    PowSum(2, e + 1 - k, k);
  }

  lemma PadmeStaysBelowNextPower(n: nat, w: nat)
    requires n >= 2 && 2 * n < Pow(2, w)
    ensures n <= PadmeBucket(n, w) <= 2 * Pow(2, Log2(n))
  {
    var unit := Pow(2, LastBits(n));
    PadmeRounds(n, w);
    RoundUpFacts(n, unit);
    Log2Brackets(n);
    NextPowerIsMultiple(n);
    RoundUpLeast(n, unit, Pow(2, Log2(n) + 1 - LastBits(n)));
  }

  lemma PadmeMonotoneWithin(n: nat, m: nat, w: nat)
    requires 2 <= n <= m && 2 * m < Pow(2, w) && Log2(n) == Log2(m)
    ensures PadmeBucket(n, w) <= PadmeBucket(m, w)
  {
    assert LastBits(n) == LastBits(m);
    hide PadmeBucket, LastBits, Pow, RoundUp, Log2;
    PadmeRounds(n, w);
    PadmeRounds(m, w);
    RoundUpMonotone(n, m, Pow(2, LastBits(n)));
  }

  lemma RoundUpMonotone(n: nat, m: nat, unit: nat)
    requires n <= m && unit >= 1
    ensures RoundUp(n, unit) <= RoundUp(m, unit)
  {
    RoundUpFacts(m, unit);
    RoundUpLeast(n, unit, (m + unit - 1) / unit);
  }

  /** Larger inputs never get smaller buckets. */
  lemma PadmeMonotone(n: nat, m: nat, w: nat)
    requires n <= m && 2 * m < Pow(2, w)
    ensures PadmeBucket(n, w) <= PadmeBucket(m, w)
  {
    if n < 2 {
      assert PadmeBucket(n, w) == n;
      if m >= 2 { PadmeStaysBelowNextPower(m, w); }
    } else if Log2(n) == Log2(m) {
      PadmeMonotoneWithin(n, m, w);
    } else {
      hide PadmeBucket, LastBits;
      PadmeStaysBelowNextPower(n, w);
      PadmeStaysBelowNextPower(m, w);
      Log2Brackets(n);
      Log2Brackets(m);
      PowStrict(Log2(m), Log2(n));
      PowStrict(Log2(n), Log2(m));
    }
  }

  lemma MultipleStays(k: nat, unit: nat)
    requires unit >= 1
    ensures RoundUp(k * unit, unit) == k * unit
  {
    RoundUpFacts(k * unit, unit);
    RoundUpLeast(k * unit, unit, k);
  }

  /** Rounding a number that is already a multiple of its own unit changes nothing. */
  lemma PadmeFixes(p: nat, k: nat, w: nat)
    requires p >= 2 && 2 * p < Pow(2, w) && p == k * Pow(2, LastBits(p))
    ensures PadmeBucket(p, w) == p
  {
    PadmeRounds(p, w);
    hide PadmeBucket, LastBits, Pow;
    MultipleStays(k, Pow(2, LastBits(p)));
  }

  /** A rounding that stays between the same powers of two has the same unit. */
  lemma IdempotentBelow(n: nat, w: nat)
    requires n >= 2 && 4 * n < Pow(2, w)
    requires n <= PadmeBucket(n, w) < 2 * Pow(2, Log2(n)) && 2 * PadmeBucket(n, w) < Pow(2, w)
    ensures PadmeBucket(PadmeBucket(n, w), w) == PadmeBucket(n, w)
  {
    hide PadmeBucket, Pow, LastBits, Log2;
    var p := PadmeBucket(n, w);
    var q := PadmeIsMultiple(n, w);
    Log2Brackets(n);
    Log2IsUnique(p, Log2(n));
    SameBits(p, n);
    PadmeFixes(p, q, w);
  }

  lemma SameBits(p: nat, n: nat)
    requires p >= 2 && n >= 2 && Log2(p) == Log2(n)
    ensures LastBits(p) == LastBits(n)
  {
    hide Log2;
  }

  /** A rounding that reaches the next power of two stays there. */
  lemma IdempotentAtPower(e: nat, w: nat)
    requires 2 * Pow(2, e + 1) < Pow(2, w)
    ensures PadmeBucket(Pow(2, e + 1), w) == Pow(2, e + 1)
  {
    var p := Pow(2, e + 1);
    PowMonotone(0, e);
    Log2IsUnique(p, e + 1);
    PowSum(2, e + 1 - LastBits(p), LastBits(p));
    hide PadmeBucket;
    PadmeFixes(p, Pow(2, e + 1 - LastBits(p)), w);
  }

  /** A bucket is its own bucket. */
  lemma PadmeIdempotent(n: nat, w: nat)
    requires 4 * n < Pow(2, w)
    ensures 2 * PadmeBucket(n, w) < Pow(2, w)
    ensures PadmeBucket(PadmeBucket(n, w), w) == PadmeBucket(n, w)
  {
    if n < 2 {
      assert PadmeBucket(n, w) == n;
    } else {
      hide PadmeBucket, LastBits, Log2, Pow;
      PadmeStaysBelowNextPower(n, w);
      Log2Brackets(n);
      if PadmeBucket(n, w) < 2 * Pow(2, Log2(n)) {
        IdempotentBelow(n, w);
      } else {
        IdempotentAtPower(Log2(n), w);
      }
    }
  }

  /** The unit is at most 2^-s of the number, s the bits kept below the leading one. */
  lemma UnitShare(n: nat, s: nat)
    requires n >= 2 && s <= Log2(n) && LastBits(n) <= Log2(n) - s
    ensures Pow(2, LastBits(n)) * Pow(2, s) <= n
  {
    Log2Brackets(n);
    PowSum(2, LastBits(n), s);
    PowMonotone(LastBits(n) + s, Log2(n));
  }

  lemma Log2AtLeast(n: nat, e: nat)
    requires n >= Pow(2, e)
    ensures n >= 1 && Log2(n) >= e
  {
    PowMonotone(0, e);
    Log2Brackets(n);
    PowStrict(Log2(n), e);
  }

  /** For every size, the bucket is at most 12 percent above it. */
  lemma PadmeOverhead(n: nat, w: nat)
    requires 2 * n < Pow(2, w)
    ensures n <= PadmeBucket(n, w) && 100 * (PadmeBucket(n, w) - n) <= 12 * n
  {
    if n >= 256 {
      PadmeRounds(n, w);
      RoundUpFacts(n, Pow(2, LastBits(n)));
      assert Pow(2, 8) == 256 && Pow(2, 3) == 8 && Pow(2, 4) == 16;
      Log2AtLeast(n, 8);
      Log2AtLeast(Log2(n), 3);
      UnitShare(n, 4);
    } else if n >= 2 {
      SmallPadme(n, w);
    }
  }

  lemma SmallPadmeAt(n: nat, w: nat, e: nat, keep: nat, unit: nat)
    requires 2 <= n && 2 * n < Pow(2, w) && Pow(2, e) <= n < 2 * Pow(2, e) && e >= 1
    requires Log2(e) + 1 == keep && unit == Pow(2, if e >= keep then e - keep else 0)
    requires 100 * (unit - 1) <= 12 * Pow(2, e) || (e == 3 && unit == 2 && Pow(2, e) == 8)
    ensures n <= PadmeBucket(n, w) && 100 * (PadmeBucket(n, w) - n) <= 12 * n
  {
    Log2IsUnique(n, e);
    PadmeRounds(n, w);
    RoundUpFacts(n, unit);
    assert PadmeBucket(n, w) == RoundUp(n, unit);
    hide PadmeBucket, LastBits, Log2, Pow;
    if n == 8 && unit == 2 {
      MultipleStays(4, 2);
    }
  }

  lemma SmallPadme(n: nat, w: nat)
    requires 2 <= n < 256 && 2 * n < Pow(2, w)
    ensures n <= PadmeBucket(n, w) && 100 * (PadmeBucket(n, w) - n) <= 12 * n
  {
    assert Pow(2, 0) == 1 && Pow(2, 1) == 2 && Pow(2, 2) == 4 && Pow(2, 3) == 8;
    assert Pow(2, 4) == 16 && Pow(2, 5) == 32 && Pow(2, 6) == 64 && Pow(2, 7) == 128;
    assert Log2(1) == 0 && Log2(2) == 1 && Log2(3) == 1;
    assert Log2(4) == 2 && Log2(5) == 2 && Log2(6) == 2 && Log2(7) == 2;
    hide PadmeBucket, Log2, Pow;
    if n < 4 {
      SmallPadmeAt(n, w, 1, 1, 1);
    } else if n < 8 {
      SmallPadmeAt(n, w, 2, 2, 1);
    } else if n < 16 {
      SmallPadmeAt(n, w, 3, 2, 2);
    } else if n < 32 {
      SmallPadmeAt(n, w, 4, 3, 2);
    } else if n < 64 {
      SmallPadmeAt(n, w, 5, 3, 4);
    } else if n < 128 {
      SmallPadmeAt(n, w, 6, 3, 8);
    } else {
      SmallPadmeAt(n, w, 7, 3, 16);
    }
  }

  /** Where attachments use it, above 64 KiB, the overhead is below one part in 32. */
  lemma PadmeOverheadLarge(n: nat, w: nat)
    requires n > 65536 && 2 * n < Pow(2, w)
    ensures 32 * (PadmeBucket(n, w) - n) < n
  {
    PadmeRounds(n, w);
    RoundUpFacts(n, Pow(2, LastBits(n)));
    assert Pow(2, 4) == 16 && Pow(2, 5) == 32;
    PowSum(2, 8, 8);
    assert Pow(2, 8) == 256;
    Log2AtLeast(n, 16);
    Log2AtLeast(Log2(n), 4);
    UnitShare(n, 5);
  }

  function AttachmentBucket(needed: nat, w: nat): nat
    requires 2 * needed < Pow(2, w)
  {
    match Rung(needed, 0)
    case Some(b) => b
    case None => PadmeBucket(needed, w)
  }

  lemma RungFacts(needed: nat)
    ensures Rung(needed, 0).Some? <==> needed <= 65536
    ensures Rung(needed, 0).Some? ==> needed <= Rung(needed, 0).value <= 65536
  {
  }

  lemma RungMonotone(n: nat, m: nat)
    requires n <= m <= 65536
    ensures Rung(n, 0).Some? && Rung(m, 0).Some? && Rung(n, 0).value <= Rung(m, 0).value
  {
  }

  /** Attachment buckets hold what they must and grow with it, across the handoff from ladder to Padmé. */
  lemma AttachmentBucketMonotone(n: nat, m: nat, w: nat)
    requires n <= m && 2 * m < Pow(2, w)
    ensures n <= AttachmentBucket(n, w) <= AttachmentBucket(m, w)
  {
    RungFacts(n);
    RungFacts(m);
    if m <= 65536 {
      RungMonotone(n, m);
    } else {
      PadmeStaysBelowNextPower(m, w);
      if n > 65536 {
        PadmeStaysBelowNextPower(n, w);
        PadmeMonotone(n, m, w);
      }
    }
  }

  lemma MessageBucketMonotone(n: nat, m: nat)
    requires n <= m
    ensures n <= MessageBucket(n) <= MessageBucket(m)
  {
    RungFacts(n);
    RungFacts(m);
    RoundUpFacts(n, 65536);
    RoundUpFacts(m, 65536);
    if m <= 65536 {
      RungMonotone(n, m);
    } else if n > 65536 {
      RoundUpLeast(n, 65536, (m + 65535) / 65536);
    }
  }

  // ── Which buckets ─────────────────────────────────────────────────────────

  /** The sizes a padded message can have: the five rungs, and above them the multiples of 64 KiB. */
  ghost predicate IsMessageSize(b: nat) {
    b in {256, 1024, 4096, 16384, 65536} || (b > 65536 && b % 65536 == 0)
  }

  /** A message goes into the least of these sizes that holds it. */
  lemma MessageBucketExactly(needed: nat, b: nat)
    ensures IsMessageSize(MessageBucket(needed)) && needed <= MessageBucket(needed)
    ensures IsMessageSize(b) && needed <= b ==> MessageBucket(needed) <= b
  {
    RungIs(needed);
    if needed > 65536 {
      RoundUpFacts(needed, 65536);
      if IsMessageSize(b) && needed <= b {
        assert b == b / 65536 * 65536;
        RoundUpLeast(needed, 65536, b / 65536);
      }
    }
  }

  lemma RungIs(needed: nat)
    ensures Rung(needed, 0) ==
            if needed <= 256 then Some(256)
            else if needed <= 1024 then Some(1024)
            else if needed <= 4096 then Some(4096)
            else if needed <= 16384 then Some(16384)
            else if needed <= 65536 then Some(65536)
            else None
  {
    RungFrom(needed, 4);
    RungFrom(needed, 3);
    RungFrom(needed, 2);
    RungFrom(needed, 1);
    RungFrom(needed, 0);
    assert Rung(needed, 5) == None;
    hide Rung;
  }

  lemma RungFrom(needed: nat, i: nat)
    requires i < 5
    ensures |PAD_BUCKETS| == 5
    ensures Rung(needed, i) == if PAD_BUCKETS[i] >= needed then Some(PAD_BUCKETS[i]) else Rung(needed, i + 1)
  {
  }

  /** Attachments share the ladder with messages; above it they use Padmé. */
  lemma AttachmentBucketExactly(needed: nat, w: nat)
    requires 2 * needed < Pow(2, w)
    ensures AttachmentBucket(needed, w) == if needed <= 65536 then MessageBucket(needed) else PadmeBucket(needed, w)
  {
    RungFacts(needed);
  }

  /**
   How little a Padmé size tells: between 2^e and 2^(e+1) there are at most 2e + 1 of them, in equal steps. With
   `PadmeOverhead`, which bounds the steps from above, this fixes how many bits are cleared.
   */
  lemma PadmeTellsLittle(n: nat, w: nat) returns (k: nat)
    requires n >= 4 && 2 * n < Pow(2, w)
    ensures k <= 2 * Log2(n)
    ensures PadmeBucket(n, w) == Pow(2, Log2(n)) + k * Pow(2, LastBits(n))
  {
    hide PadmeBucket, LastBits, Log2, Pow;
    var q := PadmeIsMultiple(n, w);
    var keep := KeptAbove(n);
    k := StepsAbove(q, Pow(2, keep), Pow(2, LastBits(n)));
  }

  lemma PadmeIsMultiple(n: nat, w: nat) returns (q: nat)
    requires n >= 2 && 2 * n < Pow(2, w)
    ensures PadmeBucket(n, w) == q * Pow(2, LastBits(n)) && Pow(2, LastBits(n)) >= 1
    ensures Pow(2, Log2(n)) <= q * Pow(2, LastBits(n)) <= 2 * Pow(2, Log2(n))
  {
    Log2Brackets(n);
    hide PadmeBucket, LastBits, Log2, Pow;
    PadmeStaysBelowNextPower(n, w);
    PadmeRounds(n, w);
    var unit := Pow(2, LastBits(n));
    q := (n + unit - 1) / unit;
  }

  lemma KeptAbove(n: nat) returns (keep: nat)
    requires n >= 4
    ensures Pow(2, Log2(n)) == Pow(2, keep) * Pow(2, LastBits(n)) && Pow(2, keep) <= 2 * Log2(n)
  {
    var e := Log2(n);
    assert Pow(2, 2) == 4;
    Log2AtLeast(n, 2);
    KeptBits(e);
    keep := Log2(e) + 1;
    PowSum(2, keep, e - keep);
    assert LastBits(n) == e - keep;
    hide Pow, Log2, LastBits;
  }

  /** Padmé keeps one bit more than the exponent's own exponent. */
  lemma KeptBits(e: nat)
    requires e >= 2
    ensures var s := Log2(e) + 1; s <= e && Pow(2, s) <= 2 * e
  {
    Log2Brackets(e);
    Log2Small(e);
  }

  lemma {:induction false} Log2Small(e: nat)
    requires e >= 1
    ensures Log2(e) < e
  {
    if e > 1 {
      Log2Small(e / 2);
    }
  }

  lemma StepsAbove(q: nat, p: nat, unit: nat) returns (k: nat)
    requires unit >= 1 && p * unit <= q * unit <= 2 * (p * unit)
    ensures k <= p && q * unit == p * unit + k * unit
  {
    ProductOrder(p, q, unit);
    ProductOrder(q, 2 * p, unit);
    k := q - p;
  }

  lemma ProductOrder(a: nat, b: nat, unit: nat)
    requires unit >= 1 && a * unit <= b * unit
    ensures a <= b
  {
  }

  // ── Length-prefixed padding ───────────────────────────────────────────────

  /** `v` in `k` bytes, big-endian, higher bytes cut off. */
  function BigEndian(v: nat, k: nat): (s: seq<byte>)
    ensures |s| == k
  {
    if k == 0 then [] else BigEndian(v / 256, k - 1) + [v % 256]
  }

  lemma {:induction false} BigEndianReadsBack(v: nat, k: nat)
    requires v < Pow(256, k)
    ensures Value(BigEndian(v, k), 256) == v
  {
    if k > 0 {
      assert v / 256 < Pow(256, k - 1);
      BigEndianReadsBack(v / 256, k - 1);
      var s := BigEndian(v, k);
      assert s[..|s| - 1] == BigEndian(v / 256, k - 1);
    }
  }

  function Padded(prefix: nat, body: seq<byte>, target: nat): (s: seq<byte>)
    requires prefix + |body| <= target
    ensures |s| == target
  {
    BigEndian(|body|, prefix) + body + seq(target - prefix - |body|, _ => 0)
  }

  function Unpadded(prefix: nat, padded: seq<byte>): Result<seq<byte>, Error> {
    if |padded| < prefix then Err(ShorterThanPrefix)
    else
      var len := Value(padded[..prefix], 256);
      if prefix + len > |padded| then Err(PrefixExceedsBuffer) else Ok(padded[prefix..prefix + len])
  }

  function PadPlaintext(body: seq<byte>): seq<byte> {
    MessageBucketMonotone(4 + |body|, 4 + |body|);
    Padded(4, body, MessageBucket(4 + |body|))
  }

  function UnpadPlaintext(padded: seq<byte>): Result<seq<byte>, Error> {
    Unpadded(4, padded)
  }

  function PadAttachment(body: seq<byte>, w: nat): seq<byte>
    requires 2 * (8 + |body|) < Pow(2, w)
  {
    AttachmentBucketMonotone(8 + |body|, 8 + |body|, w);
    Padded(8, body, AttachmentBucket(8 + |body|, w))
  }

  function UnpadAttachment(padded: seq<byte>): Result<seq<byte>, Error> {
    Unpadded(8, padded)
  }

  lemma UnpaddedPadded(prefix: nat, body: seq<byte>, target: nat)
    requires prefix + |body| <= target && |body| < Pow(256, prefix)
    ensures Unpadded(prefix, Padded(prefix, body, target)) == Ok(body)
  {
    var s := Padded(prefix, body, target);
    BigEndianReadsBack(|body|, prefix);
    assert s[..prefix] == BigEndian(|body|, prefix);
  }

  /** Behind the length and the text there are only zeros. */
  lemma PaddedLayout(prefix: nat, body: seq<byte>, target: nat)
    requires prefix + |body| <= target && |body| < Pow(256, prefix)
    ensures var s := Padded(prefix, body, target);
            && Value(s[..prefix], 256) == |body| && s[prefix..prefix + |body|] == body
            && forall i :: prefix + |body| <= i < target ==> s[i] == 0
  {
    BigEndianReadsBack(|body|, prefix);
    assert Padded(prefix, body, target)[..prefix] == BigEndian(|body|, prefix);
  }

  lemma {:induction false} BigEndianIsUnique(s: seq<byte>)
    ensures BigEndian(Value(s, 256), |s|) == s
  {
    if s != [] {
      var front, last := s[..|s| - 1], s[|s| - 1];
      BigEndianIsUnique(front);
      DivModUnique(Value(front, 256), last, 256);
      assert s == front + [last];
    }
  }

  lemma LaidOutUnpads(prefix: nat, s: seq<byte>, body: seq<byte>)
    requires |body| < Pow(256, prefix) && BigEndian(|body|, prefix) + body <= s
    ensures Unpadded(prefix, s) == Ok(body)
  {
    hide Value, Pow, BigEndian;
    BigEndianReadsBack(|body|, prefix);
    var start := BigEndian(|body|, prefix) + body;
    assert s[..prefix] == start[..prefix] == BigEndian(|body|, prefix);
    assert s[prefix..prefix + |body|] == start[prefix..] == body;
  }

  lemma UnpadsLaidOut(prefix: nat, s: seq<byte>, body: seq<byte>)
    requires Unpadded(prefix, s) == Ok(body)
    ensures BigEndian(|body|, prefix) + body <= s
  {
    hide Value, BigEndian;
    BigEndianIsUnique(s[..prefix]);
    assert s[..prefix + |body|] == s[..prefix] + s[prefix..prefix + |body|];
  }

  /** A buffer unpads to a text exactly if it starts with the text's length and then the text. */
  lemma UnpadsExactly(prefix: nat, s: seq<byte>, body: seq<byte>)
    requires |body| < Pow(256, prefix)
    ensures Unpadded(prefix, s) == Ok(body) <==> BigEndian(|body|, prefix) + body <= s
    ensures Unpadded(prefix, s) == Err(ShorterThanPrefix) <==> |s| < prefix
  {
    if Unpadded(prefix, s) == Ok(body) {
      UnpadsLaidOut(prefix, s, body);
    }
    if BigEndian(|body|, prefix) + body <= s {
      LaidOutUnpads(prefix, s, body);
    }
  }

  /** Messages below 4 GiB come back whole, and their length shows only the bucket. */
  lemma PlaintextRoundTrip(body: seq<byte>)
    requires |body| < 0x1_0000_0000
    ensures UnpadPlaintext(PadPlaintext(body)) == Ok(body)
    ensures |PadPlaintext(body)| == MessageBucket(4 + |body|)
  {
    MessageBucketMonotone(4 + |body|, 4 + |body|);
    assert Pow(256, 4) == 0x1_0000_0000;
    UnpaddedPadded(4, body, MessageBucket(4 + |body|));
  }

  lemma AttachmentRoundTrip(body: seq<byte>, w: nat)
    requires 2 * (8 + |body|) < Pow(2, w) && w <= 64
    ensures UnpadAttachment(PadAttachment(body, w)) == Ok(body)
    ensures |PadAttachment(body, w)| == AttachmentBucket(8 + |body|, w)
  {
    AttachmentBucketMonotone(8 + |body|, 8 + |body|, w);
    PowMonotone(w, 64);
    Pow256Is2(8);
    UnpaddedPadded(8, body, AttachmentBucket(8 + |body|, w));
  }

  lemma {:induction false} Pow256Is2(k: nat)
    ensures Pow(256, k) == Pow(2, 8 * k)
  {
    if k > 0 {
      Pow256Is2(k - 1);
      PowSum(2, 8, 8 * (k - 1));
      assert Pow(2, 8) == 256;
    }
  }
}
