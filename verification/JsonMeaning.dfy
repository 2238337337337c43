/** Which values the canonical text determines: exactly, on integers; in meaning, away from zero. */
module JsonMeaning {
  import opened CanonicalJson

  /** No float anywhere, which is all the program's own bodies hold. */
  ghost predicate AllWhole(v: Json)
    decreases v
  {
    match v
    case Num(n) => n.Whole?
    case Arr(items) => forall i :: 0 <= i < |items| ==> AllWhole(items[i])
    case Obj(fields) => forall k :: k in fields ==> AllWhole(fields[k])
    case _ => true
  }

  lemma {:induction false} WholeIsCoerced(v: Json)
    requires AllWhole(v)
    ensures Coerced(v) == v
    decreases v
  {
    match v
    case Arr(items) =>
      forall i | 0 <= i < |items| ensures Coerced(items[i]) == items[i] {
        WholeIsCoerced(items[i]);
      }
      assert Coerced(v).items == items;
    case Obj(fields) =>
      forall k | k in fields ensures Coerced(fields[k]) == fields[k] {
        WholeIsCoerced(fields[k]);
      }
      assert Coerced(v).fields == fields;
    case _ =>
  }

  /** On values with integer numbers the text is the value, with object keys in any order. */
  lemma WholeCanonInjective(a: Json, b: Json)
    requires AllWhole(a) && AllWhole(b)
    ensures Canon(a) == Canon(b) <==> a == b
  {
    CanonInjective(a, b);
    WholeIsCoerced(a);
    WholeIsCoerced(b);
  }

  function RealOf(n: Number): real {
    match n
    case Whole(i) => i as real
    case Float(r) => r
  }

  /** What a value means: every number by its numerical value, whichever way it was written. */
  ghost function Meant(v: Json): Json
    decreases v
  {
    match v
    case Num(n) => Num(Float(RealOf(n)))
    case Arr(items) => Arr(seq(|items|, i requires 0 <= i < |items| => Meant(items[i])))
    case Obj(fields) => Obj(map k | k in fields :: Meant(fields[k]))
    case _ => v
  }

  /** No number in the value is zero, or is fractional or too large and so printed as zero. */
  ghost predicate NoZero(v: Json)
    decreases v
  {
    match v
    case Num(n) => WholeOf(n) != 0
    case Arr(items) => forall i :: 0 <= i < |items| ==> NoZero(items[i])
    case Obj(fields) => forall k :: k in fields ==> NoZero(fields[k])
    case _ => true
  }

  lemma {:induction false} NoZeroIsMeant(v: Json, w: Json)
    requires NoZero(v) && Coerced(w) == Coerced(v)
    ensures Meant(w) == Meant(v)
    decreases v
  {
    match v
    case Arr(items) =>
      assert |w.items| == |Coerced(w).items| == |items|;
      forall i | 0 <= i < |items| ensures Meant(w.items[i]) == Meant(items[i]) {
        assert Coerced(w).items[i] == Coerced(v).items[i];
        NoZeroIsMeant(items[i], w.items[i]);
      }
      assert Meant(w).items == Meant(v).items;
    case Obj(fields) =>
      assert w.fields.Keys == Coerced(w).fields.Keys == fields.Keys;
      forall k | k in fields ensures Meant(w.fields[k]) == Meant(fields[k]) {
        assert Coerced(w).fields[k] == Coerced(v).fields[k];
        NoZeroIsMeant(fields[k], w.fields[k]);
      }
      assert Meant(w).fields == Meant(v).fields;
    case _ =>
  }

  /** A zero anywhere can be exchanged for a fraction that prints as zero too. */
  lemma {:induction false} ZeroHasDouble(v: Json) returns (w: Json)
    requires !NoZero(v)
    ensures Coerced(w) == Coerced(v) && Meant(w) != Meant(v)
    decreases v
  {
    match v
    case Num(n) =>
      assert WholeOf(Float(0.5)) == 0 && WholeOf(Float(0.25)) == 0;
      w := Num(Float(if RealOf(n) == 0.5 then 0.25 else 0.5));
    case Arr(items) =>
      var i :| 0 <= i < |items| && !NoZero(items[i]);
      var x := ZeroHasDouble(items[i]);
      w := Arr(items[i := x]);
      assert Coerced(w).items == Coerced(v).items;
      assert Meant(w).items[i] != Meant(v).items[i];
    case Obj(fields) =>
      var k :| k in fields && !NoZero(fields[k]);
      var x := ZeroHasDouble(fields[k]);
      w := Obj(fields[k := x]);
      assert Coerced(w).fields == Coerced(v).fields;
      assert Meant(w).fields[k] != Meant(v).fields[k];
  }

  /** The text gives a value away exactly when no number in it prints as zero. */
  lemma TextDeterminesExactly(v: Json)
    ensures (forall w :: Canon(w) == Canon(v) ==> Meant(w) == Meant(v)) <==> NoZero(v)
  {
    if NoZero(v) {
      forall w | Canon(w) == Canon(v) ensures Meant(w) == Meant(v) {
        CanonInjective(w, v);
        NoZeroIsMeant(v, w);
      }
    } else {
      var w := ZeroHasDouble(v);
      CanonInjective(w, v);
    }
  }

  ghost predicate IsInteger(r: real, i: int) {
    i as real == r
  }

  ghost predicate Fits64(i: int) {
    -9223372036854775808 < i < 9223372036854775808
  }

  /** An integral float below 2^63 in size is printed as that integer, every other float as 0. */
  lemma FloatPrintsAs(r: real)
    ensures forall i :: IsInteger(r, i) && Fits64(i) ==> Canon(Num(Float(r))) == Decimal(i)
    ensures (forall i :: IsInteger(r, i) ==> !Fits64(i)) ==> Canon(Num(Float(r))) == "0"
  {
    DecimalZero();
    hide Digits, Decimal;
    assert IsInteger(r.Floor as real, r.Floor);
  }

  lemma DecimalZero()
    ensures Decimal(0) == "0"
  {
  }
}
