/** Base58 and did:key: the two in-place bignum loops, and what they do together. */
module Base58 {
  import opened Wrappers
  import opened Positional

  type u32 = n: nat | n < 0x1_0000_0000

  /** 58 characters: no 0, O, I or l. */
  const ALPHABET: string :=
    "123456789" + "ABCDEFGH" + "JKLMN" + "PQRSTUVWXYZ" + "abcdefghijk" + "mnopqrstuvwxyz"

  datatype Error = InvalidChar | NotDidKey | NotEd25519

  // ── Digits and characters ─────────────────────────────────────────────────

  /** The digit a character stands for, if it is in the alphabet. */
  function DigitOf(c: char): Option<nat> {
    IndexIn(ALPHABET, c)
  }

  function IndexIn(s: string, c: char): (r: Option<nat>)
    ensures r.Some? ==> r.value < |s| && s[r.value] == c
    ensures r.None? ==> c !in s
  {
    if s == "" then None
    else if s[0] == c then Some(0)
    else
      match IndexIn(s[1..], c)
      case None => None
      case Some(k) => Some(k + 1)
  }

  lemma {:induction false} IndexInDistinct(s: string, k: nat)
    requires k < |s| && forall i, j :: 0 <= i < j < |s| ==> s[i] != s[j]
    ensures IndexIn(s, s[k]) == Some(k)
  {
    if k > 0 {
      IndexInDistinct(s[1..], k - 1);
    }
  }

  /** Character `d` of the alphabet, by the runs of consecutive characters it consists of. */
  function CharOf(d: nat): char
    requires d < 58
  {
    if d < 9 then '1' + d as char
    else if d < 17 then 'A' + (d - 9) as char
    else if d < 22 then 'J' + (d - 17) as char
    else if d < 33 then 'P' + (d - 22) as char
    else if d < 44 then 'a' + (d - 33) as char
    else 'm' + (d - 44) as char
  }

  lemma AlphabetRuns(d: nat)
    requires d < 58
    ensures |ALPHABET| == 58 && ALPHABET[d] == CharOf(d)
  {
    assert d < 9 ==> ALPHABET[d] == "123456789"[d];
    assert 9 <= d < 17 ==> ALPHABET[d] == "ABCDEFGH"[d - 9];
    assert 17 <= d < 22 ==> ALPHABET[d] == "JKLMN"[d - 17];
    assert 22 <= d < 33 ==> ALPHABET[d] == "PQRSTUVWXYZ"[d - 22];
    assert 33 <= d < 44 ==> ALPHABET[d] == "abcdefghijk"[d - 33];
    assert 44 <= d ==> ALPHABET[d] == "mnopqrstuvwxyz"[d - 44];
  }

  lemma AlphabetIsInjective()
    ensures |ALPHABET| == 58
    ensures forall i, j :: 0 <= i < j < |ALPHABET| ==> ALPHABET[i] != ALPHABET[j]
  {
    forall i, j | 0 <= i < j < |ALPHABET| ensures ALPHABET[i] != ALPHABET[j] {
      AlphabetRuns(i);
      AlphabetRuns(j);
    }
  }

  /** Which characters: letters and digits except 0, O, I and l, in the order of their codes. */
  lemma AlphabetExactly(c: char)
    ensures c in ALPHABET <==> ('0' <= c <= '9' || 'A' <= c <= 'Z' || 'a' <= c <= 'z') && c !in "0OIl"
    ensures forall i, j :: 0 <= i < j < |ALPHABET| ==> ALPHABET[i] < ALPHABET[j]
  {
    forall i, j | 0 <= i < j < |ALPHABET| ensures ALPHABET[i] < ALPHABET[j] {
      AlphabetRuns(i);
      AlphabetRuns(j);
    }
    if c in ALPHABET {
      var d :| 0 <= d < |ALPHABET| && ALPHABET[d] == c;
      AlphabetRuns(d);
    }
    if ('0' <= c <= '9' || 'A' <= c <= 'Z' || 'a' <= c <= 'z') && c !in "0OIl" {
      var d := PlaceOf(c);
      AlphabetRuns(d);
    }
  }

  /** Where a character stands, counted within its run. */
  lemma PlaceOf(c: char) returns (d: nat)
    requires ('0' <= c <= '9' || 'A' <= c <= 'Z' || 'a' <= c <= 'z') && c !in "0OIl"
    ensures d < 58 && CharOf(d) == c
  {
    var i := c as int;
    d := if c <= '9' then i - '1' as int
         else if c <= 'H' then i - 'A' as int + 9
         else if c <= 'N' then i - 'J' as int + 17
         else if c <= 'Z' then i - 'P' as int + 22
         else if c <= 'k' then i - 'a' as int + 33
         else i - 'm' as int + 44;
  }

  lemma DigitOfAlphabet(d: nat)
    requires d < 58
    ensures |ALPHABET| == 58 && DigitOf(ALPHABET[d]) == Some(d)
  {
    AlphabetIsInjective();
    IndexInDistinct(ALPHABET, d);
  }

  // ── What the two loops compute ────────────────────────────────────────────

  ghost function Chars(digits: seq<nat>): string
    requires DigitsIn(digits, 58)
  {
    AlphabetIsInjective();
    seq(|digits|, i requires 0 <= i < |digits| => ALPHABET[digits[i]])
  }

  predicate AllValid(s: string) {
    forall i :: 0 <= i < |s| ==> DigitOf(s[i]).Some?
  }

  ghost function DigitsOf(s: string): (d: seq<nat>)
    requires AllValid(s)
  {
    seq(|s|, i requires 0 <= i < |s| => DigitOf(s[i]).value)
  }

  ghost function Zeros(k: nat): seq<nat> {
    seq(k, _ => 0)
  }

  /** The digits below the leading zeros: of a buffer that is all zeros, one 0 too many. */
  ghost function Body(buf: seq<byte>): seq<nat> {
    if buf == [] then []
    else if Value(buf, 256) == 0 then [0]
    else Rep(Value(buf, 256), 58)
  }

  lemma BodyIsDigits(buf: seq<byte>)
    ensures DigitsIn(Zeros(LeadingZeros(buf)) + Body(buf), 58)
  {
    ValueOfRep(Value(buf, 256), 58);
  }

  ghost function Encoded(buf: seq<byte>): string {
    BodyIsDigits(buf);
    Chars(Zeros(LeadingZeros(buf)) + Body(buf))
  }

  ghost function Decoded(s: string): Result<seq<nat>, Error> {
    if AllValid(s) then
      Ok(Zeros(LeadingZeros(DigitsOf(s))) + Rep(Value(DigitsOf(s), 58), 256))
    else Err(InvalidChar)
  }

  // ── Encoding ──────────────────────────────────────────────────────────────

  ghost function Rev<T>(s: seq<T>): seq<T> {
    if s == [] then [] else Rev(s[1..]) + [s[0]]
  }

  lemma {:induction false} RevAppend<T>(s: seq<T>, x: T)
    ensures Rev(s + [x]) == [x] + Rev(s)
  {
    if s == [] {
      assert s + [x] == [x] && [x][1..] == [];
    } else {
      RevAppend(s[1..], x);
      assert (s + [x])[1..] == s[1..] + [x];
    }
  }

  /** Long division, one more digit: the remainder carries into the next place. */
  lemma DivisionStep(b: seq<nat>, x: nat, q: seq<nat>, r: nat)
    requires Value(b, 256) == Value(q, 256) * 58 + r
    ensures var cur := r * 256 + x; Value(b + [x], 256) == Value(q + [cur / 58], 256) * 58 + cur % 58
  {
    var cur := r * 256 + x;
    assert (b + [x])[..|b|] == b && (q + [cur / 58])[..|q|] == q;
  }

  lemma CharsAppend(ds: seq<nat>, d: nat)
    requires DigitsIn(ds, 58) && d < 58
    ensures |ALPHABET| == 58 && DigitsIn(ds + [d], 58) && Chars(ds + [d]) == Chars(ds) + [ALPHABET[d]]
    ensures Chars([]) == "" && ALPHABET[0] == '1'
  {
    AlphabetIsInjective();
    AlphabetRuns(0);
  }

  /** Divide the big-endian number in `digits[start..]` by 58 in place. */
  method DivideBy58(digits: array<byte>, start: nat) returns (remainder: u32, newStart: nat)
    requires start < digits.Length
    modifies digits
    ensures remainder < 58
    ensures Value(old(digits[start..]), 256) == Value(digits[start..], 256) * 58 + remainder
    ensures start <= newStart <= digits.Length
    ensures forall i :: start <= i < newStart ==> digits[i] == 0
    ensures newStart < digits.Length ==> digits[newStart] != 0
  {
    ghost var before: seq<nat> := digits[start..];
    ghost var taken: seq<nat>, quotient: seq<nat> := [], [];
    assert Value(taken, 256) == 0;
    hide Value;
    remainder, newStart := 0, start;
    var seenNonzero := false;
    for i := start to digits.Length
      invariant remainder < 58
      invariant start <= newStart <= i
      invariant forall j :: i <= j < digits.Length ==> digits[j] == before[j - start]
      invariant taken == before[..i - start] && |quotient| == i - start
      invariant forall j :: 0 <= j < |quotient| ==> digits[start + j] == quotient[j]
      invariant Value(taken, 256) == Value(quotient, 256) * 58 + remainder
      invariant forall j :: start <= j < newStart ==> digits[j] == 0
      invariant if seenNonzero then newStart < i && digits[newStart] != 0 else newStart == i
    {
      DivisionStep(taken, before[i - start], quotient, remainder);
      var cur: u32 := remainder * 256 + digits[i];
      var q: u32 := cur / 58;
      remainder := cur % 58;
      digits[i] := q;
      if !seenNonzero {
        if q == 0 {
          newStart := i + 1;
        } else {
          seenNonzero := true;
        }
      }
      taken, quotient := taken + [before[i - start]], quotient + [q];
    }
    assert taken == before && quotient == digits[start..];
  }

  lemma DropLeadingZeros(s: seq<nat>, k: nat)
    requires k <= |s| && forall i :: 0 <= i < k ==> s[i] == 0
    ensures Value(s, 256) == Value(s[k..], 256)
  {
    LeadingZerosAreIdle(k, s[k..], 256);
    assert s == Zeros(k) + s[k..];
  }

  lemma RepStep(v: nat, r: nat, ds: seq<nat>)
    requires r < 58 && v * 58 + r > 0
    ensures Rep(v * 58 + r, 58) + Rev(ds) == Rep(v, 58) + Rev(ds + [r])
  {
    DivModUnique(v, r, 58);
    RevAppend(ds, r);
    assert Rep(v, 58) + [r] + Rev(ds) == Rep(v, 58) + ([r] + Rev(ds));
  }

  lemma NonzeroTopMeansPositive(s: seq<nat>)
    requires s != [] && s[0] != 0
    ensures Value(s, 256) > 0
  {
    ValueZero(s, 256);
  }

  /** How far the division loop has come: what is left of the number, and the digits produced so far. */
  ghost predicate Dividing(buf: seq<byte>, rest: seq<nat>, ds: seq<nat>) {
    && DigitsIn(ds, 58)
    && (if rest == [] then Body(buf) == Rev(ds)
        else if ds == [] then rest == buf
        else rest[0] != 0 && Body(buf) == Rep(Value(rest, 256), 58) + Rev(ds))
  }

  lemma DividingDone(buf: seq<byte>, rest: seq<nat>, ds: seq<nat>)
    requires Dividing(buf, rest, ds) && rest == []
    ensures Body(buf) == Rev(ds)
  {
  }

  lemma DividingStep(buf: seq<byte>, rest: seq<nat>, ds: seq<nat>, quotient: seq<nat>, r: nat, rest': seq<nat>)
    requires Dividing(buf, rest, ds) && rest != [] && r < 58
    requires Value(rest, 256) == Value(quotient, 256) * 58 + r
    requires Value(quotient, 256) == Value(rest', 256)
    requires rest' == [] || rest'[0] != 0
    ensures Dividing(buf, rest', ds + [r])
    ensures Value(rest', 256) < Value(rest, 256) || rest' == []
  {
    var v := Value(rest', 256);
    if rest' != [] { NonzeroTopMeansPositive(rest'); }
    if Value(rest, 256) == 0 {
      if ds != [] { NonzeroTopMeansPositive(rest); }
      assert ds + [r] == [0] && Rev([0]) == [0] by { assert [0][1..] == []; }
    } else {
      RepStep(v, r, ds);
      assert ds == [] ==> Rep(Value(rest, 256), 58) + Rev(ds) == Body(buf);
    }
  }

  method Encode(buf: seq<byte>) returns (s: string)
    ensures s == Encoded(buf)
  {
    if buf == [] {
      return "";
    }
    AlphabetIsInjective();
    var digits := new byte[|buf|](i requires 0 <= i < |buf| => buf[i]);
    var out: string := "";
    ghost var ds: seq<nat> := [];
    var start := 0;
    assert digits[0..] == buf;
    assert Dividing(buf, digits[start..], ds);
    CharsAppend([], 0);
    hide Chars, Dividing, Value, Encoded;
    while start < digits.Length
      invariant start <= digits.Length == |buf|
      invariant Dividing(buf, digits[start..], ds)
      invariant DigitsIn(ds, 58) && out == Chars(ds)
      decreases Value(digits[start..], 256), digits.Length - start
    {
      ghost var rest: seq<nat> := digits[start..];
      var remainder, newStart := DivideBy58(digits, start);
      ghost var quotient: seq<nat> := digits[start..];
      DropLeadingZeros(quotient, newStart - start);
      assert quotient[newStart - start..] == digits[newStart..];
      DividingStep(buf, rest, ds, quotient, remainder, digits[newStart..]);
      CharsAppend(ds, remainder);
      out := out + [ALPHABET[remainder]];
      ds := ds + [remainder];
      start := newStart;
    }
    assert Body(buf) == Rev(ds) by { DividingDone(buf, digits[start..], ds); }
    assert ds + Zeros(0) == ds;
    ghost var k;
    out, k := AppendOnes(buf, out, ds);
    s := Reverse(out);
    FinishEncoding(buf, ds, k);
  }

  /** A '1' for each leading zero byte. */
  method AppendOnes(buf: seq<byte>, digits: string, ghost ds: seq<nat>) returns (out: string, ghost zeros: nat)
    requires DigitsIn(ds + Zeros(0), 58) && digits == Chars(ds + Zeros(0))
    ensures zeros <= |buf| && (forall i :: 0 <= i < zeros ==> buf[i] == 0) && (zeros < |buf| ==> buf[zeros] != 0)
    ensures DigitsIn(ds + Zeros(zeros), 58) && out == Chars(ds + Zeros(zeros))
  {
    hide Chars;
    out := digits;
    var k := 0;
    while k < |buf| && buf[k] == 0
      invariant k <= |buf|
      invariant forall i :: 0 <= i < k ==> buf[i] == 0
      invariant DigitsIn(ds + Zeros(k), 58) && out == Chars(ds + Zeros(k))
    {
      assert ds + Zeros(k + 1) == ds + Zeros(k) + [0];
      CharsAppend(ds + Zeros(k), 0);
      out := out + ['1'];
      k := k + 1;
    }
    zeros := k;
  }

  method Reverse(s: string) returns (r: string)
    ensures r == Rev(s)
  {
    r := "";
    for i := 0 to |s|
      invariant r == Rev(s[..i])
    {
      assert s[..i + 1] == s[..i] + [s[i]];
      RevAppend(s[..i], s[i]);
      r := [s[i]] + r;
    }
    assert s[..|s|] == s;
  }

  lemma {:induction false} RevOfChars(d: seq<nat>)
    requires DigitsIn(d, 58)
    ensures DigitsIn(Rev(d), 58) && Chars(Rev(d)) == Rev(Chars(d))
  {
    if d != [] {
      RevOfChars(d[1..]);
      assert Chars(d)[1..] == Chars(d[1..]);
      assert Chars(Rev(d[1..]) + [d[0]]) == Chars(Rev(d[1..])) + [Chars(d)[0]];
    }
  }

  lemma {:induction false} RevConcatZeros(d: seq<nat>, k: nat)
    ensures Rev(d + Zeros(k)) == Zeros(k) + Rev(d)
  {
    if k == 0 {
      assert d + Zeros(0) == d;
    } else {
      RevConcatZeros(d, k - 1);
      assert d + Zeros(k) == d + Zeros(k - 1) + [0];
      RevAppend(d + Zeros(k - 1), 0);
      assert Zeros(k) == [0] + Zeros(k - 1);
    }
  }

  lemma FinishEncoding(buf: seq<byte>, ds: seq<nat>, k: nat)
    requires DigitsIn(ds, 58) && Body(buf) == Rev(ds) && k <= |buf|
    requires (forall i :: 0 <= i < k ==> buf[i] == 0) && (k < |buf| ==> buf[k] != 0)
    ensures DigitsIn(ds + Zeros(k), 58) && Rev(Chars(ds + Zeros(k))) == Encoded(buf)
  {
    assert buf == Zeros(k) + buf[k..];
    CountLeadingZeros(k, buf[k..]);
    RevOfChars(ds + Zeros(k));
    RevConcatZeros(ds, k);
  }

  // ── Decoding ──────────────────────────────────────────────────────────────

  /** One step of the multiply-and-add loop, from the right: the carry moves one place up. */
  lemma CarryStep(x: nat, v0: nat, digit: nat, carry: nat, p: nat, v: nat)
    requires v0 * 58 + digit == carry * p + v
    ensures var t := x * 58 + carry;
            (x * p + v0) * 58 + digit == (t / 256) * (256 * p) + ((t % 256) * p + v)
  {
    var t := x * 58 + carry;
    var hi, lo := t / 256, t % 256;
    assert t == hi * 256 + lo;
    calc {
      (x * p + v0) * 58 + digit;
      (x * p) * 58 + (v0 * 58 + digit);
      (x * p) * 58 + carry * p + v;
      == { assert (x * p) * 58 == (x * 58) * p; }
      (x * 58) * p + carry * p + v;
      == { assert (x * 58) * p + carry * p == (x * 58 + carry) * p; }
      t * p + v;
      == { assert (hi * 256 + lo) * p == (hi * 256) * p + lo * p; }
      (hi * 256) * p + lo * p + v;
      == { assert (hi * 256) * p == hi * (256 * p); }
      hi * (256 * p) + (lo * p + v);
    }
  }

  /** A digit `places` places up. */
  ghost function Shifted(c: nat, places: nat): nat {
    c * Pow(256, places)
  }

  /** acc * 58 + digit, in place; an accumulator without a leading zero keeps it that way. */
  method MultiplyAdd(acc0: seq<byte>, digit: nat) returns (acc: seq<byte>)
    requires digit < 58 && NoLeadingZero(acc0)
    ensures Value(acc, 256) == Value(acc0, 256) * 58 + digit
    ensures NoLeadingZero(acc)
  {
    acc := acc0;
    var carry: u32 := digit;
    var j := |acc|;
    assert acc0[j..] == [] && Shifted(carry, 0) == carry && Value([], 256) == 0;
    hide Value, Pow, Shifted;
    while j > 0
      invariant 0 <= j <= |acc| == |acc0|
      invariant carry < 58
      invariant acc[..j] == acc0[..j]
      invariant Value(acc0[j..], 256) * 58 + digit == Shifted(carry, |acc| - j) + Value(acc[j..], 256)
    {
      j := j - 1;
      ghost var tail, tail0 := acc[j + 1..], acc0[j + 1..];
      var v: u32 := acc[j] * 58 + carry;
      assert acc[j] == acc0[..j + 1][j] == acc0[j];
      assert acc0[j..] == [acc0[j]] + tail0;
      MultiplyStep(acc0[j], tail0, digit, carry, tail);
      acc := acc[j := v % 256];
      carry := v / 256;
      assert acc[j..] == [v % 256] + tail;
    }
    ZeroShifts(|acc|);
    assert acc0[0..] == acc0 && acc[0..] == acc;
    ghost var inPlace: seq<nat> := acc;
    while carry != 0
      invariant carry < 58
      invariant Value(acc0, 256) * 58 + digit == Shifted(carry, |acc|) + Value(acc, 256)
      invariant acc == inPlace || (carry == 0 && NoLeadingZero(acc))
      decreases carry
    {
      InsertStep(carry, acc);
      ZeroShifts(|acc| + 1);
      acc := [carry % 256] + acc;
      carry := carry / 256;
    }
    if acc == inPlace {
      TopStaysNonzero(acc0, digit, acc);
    }
  }

  lemma ZeroShifts(places: nat)
    ensures Shifted(0, places) == 0
  {
  }

  lemma MultiplyStep(x: nat, tail0: seq<nat>, digit: nat, carry: nat, tail: seq<nat>)
    requires |tail0| == |tail|
    requires Value(tail0, 256) * 58 + digit == Shifted(carry, |tail|) + Value(tail, 256)
    ensures var t := x * 58 + carry;
            Value([x] + tail0, 256) * 58 + digit == Shifted(t / 256, |tail| + 1) + Value([t % 256] + tail, 256)
  {
    var t, p := x * 58 + carry, Pow(256, |tail|);
    ValueCons(x, tail0, 256);
    ValueCons(t % 256, tail, 256);
    assert Pow(256, |tail| + 1) == 256 * p;
    CarryStep(x, Value(tail0, 256), digit, carry, p, Value(tail, 256));
    assert Shifted(t / 256, |tail| + 1) == (t / 256) * (256 * p);
    hide Value, Pow, Shifted;
  }

  lemma InsertStep(carry: nat, acc: seq<nat>)
    requires carry < 256
    ensures carry / 256 == 0
    ensures Value([carry % 256] + acc, 256) == Shifted(carry, |acc|) + Value(acc, 256)
  {
    ValueCons(carry, acc, 256);
    assert carry % 256 == carry;
    assert Shifted(carry, |acc|) == carry * Pow(256, |acc|);
    hide Value, Pow, Shifted;
  }

  lemma TopStaysNonzero(acc0: seq<nat>, digit: nat, acc: seq<nat>)
    requires NoLeadingZero(acc0) && |acc| == |acc0| && DigitsIn(acc, 256)
    requires Value(acc, 256) == Value(acc0, 256) * 58 + digit
    ensures NoLeadingZero(acc)
  {
    if acc != [] {
      assert acc == [acc[0]] + acc[1..] && acc0 == [acc0[0]] + acc0[1..];
      ValueCons(acc[0], acc[1..], 256);
      ValueCons(acc0[0], acc0[1..], 256);
      ValueBelowPow(acc[1..], 256);
      ProductMonotone(1, acc0[0], Pow(256, |acc0| - 1));
    }
  }

  /** The lookup table holds each character's digit, and 255 for characters outside the alphabet. */
  ghost predicate IsTable(t: seq<byte>) {
    && |t| == 128
    && forall c: char :: c as int < 128 ==> t[c as int] == if DigitOf(c).Some? then DigitOf(c).value else 255
  }

  method BuildTable() returns (table: array<byte>)
    ensures fresh(table) && IsTable(table[..])
  {
    AlphabetIsInjective();
    table := new byte[128](_ => 255);
    for i := 0 to |ALPHABET|
      invariant forall c: char :: c as int < 128 ==>
        table[c as int] == if DigitOf(c).Some? && DigitOf(c).value < i then DigitOf(c).value else 255
    {
      AlphabetRuns(i);
      DigitOfAlphabet(i);
      table[ALPHABET[i] as int] := i;
    }
  }

  lemma DigitsExtend(s: string, i: nat, d: nat)
    requires i < |s| && AllValid(s[..i]) && DigitOf(s[i]) == Some(d)
    ensures AllValid(s[..i + 1])
    ensures Value(DigitsOf(s[..i + 1]), 58) == Value(DigitsOf(s[..i]), 58) * 58 + d
  {
    assert s[..i + 1] == s[..i] + [s[i]];
    assert DigitsOf(s[..i + 1]) == DigitsOf(s[..i]) + [d];
    assert (DigitsOf(s[..i]) + [d])[..i] == DigitsOf(s[..i]);
  }

  lemma OneBadChar(s: string, i: nat)
    requires i < |s| && DigitOf(s[i]).None?
    ensures Decoded(s) == Err(InvalidChar)
  {
    hide DigitOf;
  }

  lemma DecodedOf(s: string, leadingOnes: nat, acc: seq<nat>)
    requires AllValid(s) && LeadingZeros(DigitsOf(s)) == leadingOnes
    requires DigitsIn(acc, 256) && NoLeadingZero(acc) && Value(acc, 256) == Value(DigitsOf(s), 58)
    ensures Decoded(s) == Ok(Zeros(leadingOnes) + acc)
  {
    RepOfValue(acc, 256);
  }

  method CountLeadingOnes(s: string) returns (k: nat)
    ensures AllValid(s) ==> k == LeadingZeros(DigitsOf(s))
  {
    k := 0;
    while k < |s| && s[k] == '1'
      invariant k <= |s|
      invariant forall j :: 0 <= j < k ==> s[j] == '1'
    {
      k := k + 1;
    }
    if AllValid(s) {
      OnesAreZeros(s, k);
    }
  }

  method Decode(s: string) returns (r: Result<seq<byte>, Error>)
    ensures r.Ok? <==> Decoded(s).Ok?
    ensures r.Ok? ==> r.value == Decoded(s).value
    ensures r.Err? ==> r.error == InvalidChar
  {
    if s == "" {
      assert DigitsOf(s) == [];
      return Ok([]);
    }
    var built := BuildTable();
    var table := built[..];
    var acc: seq<byte> := [];
    assert Value(DigitsOf(s[..0]), 58) == 0 && Value([], 256) == 0;
    hide DigitOf, DigitsOf, Value, Decoded;
    for i := 0 to |s|
      invariant AllValid(s[..i]) && NoLeadingZero(acc)
      invariant Value(acc, 256) == Value(DigitsOf(s[..i]), 58)
    {
      var c := s[i];
      if c as int >= 128 {
        NonAsciiIsInvalid(c);
        OneBadChar(s, i);
        return Err(InvalidChar);
      }
      var digit := table[c as int];
      DigitsAreSmall(c);
      if digit == 255 {
        OneBadChar(s, i);
        return Err(InvalidChar);
      }
      acc := MultiplyAdd(acc, digit);
      DigitsExtend(s, i, digit);
    }
    assert s[..|s|] == s;
    var leadingOnes := CountLeadingOnes(s);
    DecodedOf(s, leadingOnes, acc);
    r := Ok(seq<byte>(leadingOnes, _ => 0) + acc);
  }

  lemma NonAsciiIsInvalid(c: char)
    requires c as int >= 128
    ensures DigitOf(c).None?
  {
    AlphabetIsInjective();
    if DigitOf(c).Some? { AlphabetRuns(DigitOf(c).value); }
  }

  lemma DigitsAreSmall(c: char)
    ensures DigitOf(c).Some? ==> DigitOf(c).value < 58
    ensures c == '1' <==> DigitOf(c) == Some(0)
  {
    AlphabetIsInjective();
    DigitOfAlphabet(0);
    AlphabetRuns(0);
  }

  lemma OnesAreZeros(s: string, k: nat)
    requires AllValid(s) && k <= |s| && (forall j :: 0 <= j < k ==> s[j] == '1') && (k < |s| ==> s[k] != '1')
    ensures LeadingZeros(DigitsOf(s)) == k
  {
    var d := DigitsOf(s);
    forall j | 0 <= j < |s| ensures d[j] == 0 <==> s[j] == '1' {
      DigitsAreSmall(s[j]);
    }
    assert d == Zeros(k) + d[k..];
    CountLeadingZeros(k, d[k..]);
  }

  // ── Round trips ───────────────────────────────────────────────────────────

  lemma CharsReadBack(d: seq<nat>)
    requires DigitsIn(d, 58)
    ensures AllValid(Chars(d)) && DigitsOf(Chars(d)) == d
  {
    forall i | 0 <= i < |d| ensures DigitOf(Chars(d)[i]) == Some(d[i]) {
      DigitOfAlphabet(d[i]);
    }
  }

  lemma DigitsWriteBack(s: string)
    requires AllValid(s)
    ensures DigitsIn(DigitsOf(s), 58) && Chars(DigitsOf(s)) == s
  {
    forall i | 0 <= i < |s| ensures DigitsOf(s)[i] < 58 && ALPHABET[DigitsOf(s)[i]] == s[i] {
      DigitsAreSmall(s[i]);
    }
  }

  lemma AllZerosGrow(buf: seq<byte>)
    requires buf != [] && Value(buf, 256) == 0
    ensures Decoded(Encoded(buf)) == Ok(Zeros(|buf| + 1))
  {
    var n := |buf|;
    AllZeroDigits(buf);
    BodyIsDigits(buf);
    CharsReadBack(Zeros(n + 1));
    hide Body, Chars, Value, LeadingZeros;
    CountLeadingZeros(n + 1, []);
    assert Zeros(n + 1) + [] == Zeros(n + 1);
    ValueZero(Zeros(n + 1), 58);
    assert Rep(0, 256) == [];
  }

  lemma AllZeroDigits(buf: seq<byte>)
    requires buf != [] && Value(buf, 256) == 0
    ensures LeadingZeros(buf) == |buf| && Zeros(LeadingZeros(buf)) + Body(buf) == Zeros(|buf| + 1)
  {
    var lz := LeadingZeros(buf);
    ValueZero(buf, 256);
    SplitLeadingZeros(buf);
    hide Value, LeadingZeros;
    assert forall i :: 0 <= i < |buf| ==> buf[i] == 0;
  }

  lemma OthersReturn(buf: seq<byte>)
    requires buf == [] || Value(buf, 256) > 0
    ensures Decoded(Encoded(buf)) == Ok(buf)
  {
    var lz, v := LeadingZeros(buf), Value(buf, 256);
    var d := Zeros(lz) + Body(buf);
    BodyIsDigits(buf);
    CharsReadBack(d);
    SplitLeadingZeros(buf);
    LeadingZerosAreIdle(lz, buf[lz..], 256);
    RepOfValue(buf[lz..], 256);
    ValueOfRep(v, 58);
    assert Body(buf) == Rep(v, 58);
    hide Body, Rep, Value, LeadingZeros, DigitsOf, Chars;
    LeadingZerosAreIdle(lz, Rep(v, 58), 58);
    CountLeadingZeros(lz, Rep(v, 58));
  }

  /** Decoding an encoding gives the bytes back, except that an all-zero buffer comes back one byte longer. */
  lemma DecodedEncoded(buf: seq<byte>)
    ensures Decoded(Encoded(buf)) ==
              Ok(if buf != [] && Value(buf, 256) == 0 then Zeros(|buf| + 1) else buf)
  {
    hide Decoded, Encoded;
    if buf != [] && Value(buf, 256) == 0 {
      AllZerosGrow(buf);
    } else {
      OthersReturn(buf);
    }
  }

  /** The law of the pair, exactly: it round-trips iff the buffer is empty or has a non-zero byte. */
  lemma RoundTripsExactly(buf: seq<byte>)
    ensures Decoded(Encoded(buf)) == Ok(buf) <==> buf == [] || exists i :: 0 <= i < |buf| && buf[i] != 0
  {
    DecodedEncoded(buf);
    ValueZero(buf, 256);
    assert |Zeros(|buf| + 1)| == |buf| + 1;
  }

  /** Different strings never decode to the same bytes. */
  lemma DecodedInjective(s: string, t: string)
    requires Decoded(s).Ok? && Decoded(s) == Decoded(t)
    ensures s == t
  {
    DigitsWriteBack(s);
    DigitsWriteBack(t);
    DecodedDigitsInjective(DigitsOf(s), DigitsOf(t));
  }

  /** The leading zeros of the result and the value below them give the digits away. */
  lemma DecodedDigitsInjective(x: seq<nat>, y: seq<nat>)
    requires DigitsIn(x, 58) && DigitsIn(y, 58)
    requires Zeros(LeadingZeros(x)) + Rep(Value(x, 58), 256) == Zeros(LeadingZeros(y)) + Rep(Value(y, 58), 256)
    ensures x == y
  {
    var k, v, w := LeadingZeros(x), Value(x, 58), Value(y, 58);
    var bytes := Zeros(k) + Rep(v, 256);
    ValueOfRep(v, 256);
    ValueOfRep(w, 256);
    CountLeadingZeros(k, Rep(v, 256));
    CountLeadingZeros(LeadingZeros(y), Rep(w, 256));
    assert bytes[k..] == Rep(v, 256) && bytes[k..] == Rep(w, 256);
    SplitLeadingZeros(x);
    SplitLeadingZeros(y);
    hide Rep, Value, LeadingZeros;
    LeadingZerosAreIdle(k, x[k..], 58);
    LeadingZerosAreIdle(k, y[k..], 58);
    RepOfValue(x[k..], 58);
    RepOfValue(y[k..], 58);
  }

  // ── did:key ───────────────────────────────────────────────────────────────

  const DID_PREFIX: string := "did:key:z"

  method PublicKeyToDidKey(pk: seq<byte>) returns (did: string)
    requires |pk| == 32
    ensures did == DID_PREFIX + Encoded([0xed, 0x01] + pk)
  {
    var encoded := Encode([0xed, 0x01] + pk);
    did := DID_PREFIX + encoded;
  }

  /** The key a did:key string names, or why it names none. */
  ghost function NamedKey(did: string): Result<seq<nat>, Error> {
    if |did| < |DID_PREFIX| || did[..|DID_PREFIX|] != DID_PREFIX then Err(NotDidKey)
    else
      match Decoded(did[|DID_PREFIX|..])
      case Err(e) => Err(e)
      case Ok(bytes) =>
        if |bytes| != 34 || bytes[0] != 0xed || bytes[1] != 0x01 then Err(NotEd25519) else Ok(bytes[2..])
  }

  method DidKeyToPublicKey(did: string) returns (r: Result<seq<byte>, Error>)
    ensures r.Ok? <==> NamedKey(did).Ok?
    ensures r.Ok? ==> r.value == NamedKey(did).value
    ensures r.Err? ==> r.error == NamedKey(did).error
  {
    if |did| < |DID_PREFIX| || did[..|DID_PREFIX|] != DID_PREFIX {
      return Err(NotDidKey);
    }
    var decoded := Decode(did[|DID_PREFIX|..]);
    if decoded.Err? {
      return Err(decoded.error);
    }
    var bytes := decoded.value;
    if |bytes| != 34 || bytes[0] != 0xed || bytes[1] != 0x01 {
      return Err(NotEd25519);
    }
    return Ok(bytes[2..]);
  }

  /** Every 32-byte key survives the trip through its did:key. */
  lemma DidKeyRoundTrip(pk: seq<byte>)
    requires |pk| == 32
    ensures NamedKey(DID_PREFIX + Encoded([0xed, 0x01] + pk)) == Ok(pk)
  {
    var buf: seq<byte> := [0xed, 0x01] + pk;
    var did := DID_PREFIX + Encoded(buf);
    assert buf[0] != 0;
    RoundTripsExactly(buf);
    assert did[|DID_PREFIX|..] == Encoded(buf);
    assert buf[2..] == pk;
  }

  lemma PowersOf58()
    ensures Pow(58, 44) == 389790918707373377135528568990913592653094657612049369038476873218241589149696
  {
    assert Pow(58, 4) == 11316496;
    PowSum(58, 4, 4);
    PowSum(58, 8, 8);
    PowSum(58, 16, 16);
    PowSum(58, 32, 8);
    PowSum(58, 40, 4);
  }

  lemma PowersOf256()
    ensures Pow(256, 32) == 115792089237316195423570985008687907853269984665640564039457584007913129639936
    ensures Pow(256, 33) == 29642774844752946028434172162224104410437116074403984394101141506025761187823616
  {
    assert Pow(256, 4) == 4294967296;
    PowSum(256, 4, 4);
    PowSum(256, 8, 8);
    PowSum(256, 16, 16);
  }

  /** Every did:key of an Ed25519 key begins with the same four characters, and has 56 in all. */
  lemma DidKeyLooksLike(pk: seq<byte>)
    requires |pk| == 32
    ensures var did := DID_PREFIX + Encoded([0xed, 0x01] + pk);
            "did:key:z6Mk" <= did && |did| == 56
  {
    var digits := KeyDigits(pk);
    var encoded := Encoded([0xed, 0x01] + pk);
    assert encoded == Chars(digits);
    AlphabetRuns(5);
    AlphabetRuns(20);
    AlphabetRuns(43);
    assert encoded[0] == '6' && encoded[1] == 'M' && encoded[2] == 'k';
    assert (DID_PREFIX + encoded)[..12] == DID_PREFIX + encoded[..3];
    assert encoded[..3] == "6Mk";
  }

  lemma KeyDigits(pk: seq<byte>) returns (digits: seq<nat>)
    requires |pk| == 32
    ensures var buf := [0xed, 0x01] + pk;
            digits == Zeros(LeadingZeros(buf)) + Body(buf)
    ensures DigitsIn(digits, 58) && |digits| == 47 && digits[0] == 5 && digits[1] == 20 && digits[2] == 43
  {
    hide Rep, Value, Pow, Body;
    var buf := [0xed, 0x01] + pk;
    BodyIsDigits(buf);
    KeyValue(pk);
    var v := Value(buf, 256);
    var low := v - 18023 * Pow(58, 44);
    var tail := LeadingDigits(18023, low, 58, 44);
    TopDigits();
    digits := [5, 20, 43] + tail;
    BodyOfKey(pk);
  }

  lemma BodyOfKey(pk: seq<byte>)
    requires |pk| == 32 && Value([0xed, 0x01] + pk, 256) > 0
    ensures var buf := [0xed, 0x01] + pk;
            Zeros(LeadingZeros(buf)) + Body(buf) == Rep(Value(buf, 256), 58)
  {
    hide Value, Rep;
    assert Zeros(0) == [];
  }

  lemma TopDigits()
    ensures Rep(18023, 58) == [5, 20, 43]
  {
    assert Rep(5, 58) == [5];
    assert Rep(310, 58) == [5, 20];
  }

  lemma KeyValue(pk: seq<byte>)
    requires |pk| == 32
    ensures var v := Value([0xed, 0x01] + pk, 256);
            0xed01 * Pow(256, 32) <= v < 0xed02 * Pow(256, 32)
            && 18023 * Pow(58, 44) <= v < 18024 * Pow(58, 44)
  {
    assert [0xed, 0x01] + pk == [0xed] + ([0x01] + pk);
    ValueCons(0xed, [0x01] + pk, 256);
    ValueCons(0x01, pk, 256);
    ValueBelowPow(pk, 256);
    PowersOf256();
    PowersOf58();
    hide Value, Pow;
  }

  /** What is wrong with a string that names no key. */
  lemma NamedKeyErrors(did: string)
    ensures NamedKey(did) == Err(NotDidKey) <==> !("did:key:z" <= did)
    ensures NamedKey(did) == Err(InvalidChar) <==>
              "did:key:z" <= did && exists i :: 9 <= i < |did| && did[i] !in ALPHABET
    ensures NamedKey(did).Ok? ==> "did:key:z" <= did && |NamedKey(did).value| == 32
  {
    if "did:key:z" <= did {
      var rest := did[9..];
      forall i | 0 <= i < |rest| ensures DigitOf(rest[i]).Some? <==> rest[i] in ALPHABET {
      }
      assert AllValid(rest) <==> forall i :: 9 <= i < |did| ==> did[i] in ALPHABET by {
        assert forall i :: 9 <= i < |did| ==> did[i] == rest[i - 9];
        assert forall i :: 0 <= i < |rest| ==> rest[i] == did[i + 9];
      }
    }
    hide Rep, Value;
  }

  /** A key has one did:key string only: no two accepted strings name the same key. */
  lemma NamedKeyInjective(a: string, b: string)
    requires NamedKey(a).Ok? && NamedKey(a) == NamedKey(b)
    ensures a == b
  {
    var n := |DID_PREFIX|;
    var x, y := Decoded(a[n..]).value, Decoded(b[n..]).value;
    assert x == [0xed, 0x01] + x[2..] && y == [0xed, 0x01] + y[2..];
    DecodedInjective(a[n..], b[n..]);
    assert a == a[..n] + a[n..] && b == b[..n] + b[n..];
  }
}
