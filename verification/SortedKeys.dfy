/** The sorted list of an object's keys: strings ordered by code point, as the program sorts them. */
module SortedKeys {
  predicate AtMost(a: string, b: string) {
    a == "" || (b != "" && (a[0] < b[0] || (a[0] == b[0] && AtMost(a[1..], b[1..]))))
  }

  lemma {:induction false} AtMostReflexive(a: string)
    ensures AtMost(a, a)
  {
    if a != "" { AtMostReflexive(a[1..]); }
  }

  lemma {:induction false} AtMostTotal(a: string, b: string)
    ensures AtMost(a, b) || AtMost(b, a)
  {
    if a != "" && b != "" && a[0] == b[0] { AtMostTotal(a[1..], b[1..]); }
  }

  lemma {:induction false} AtMostAntisymmetric(a: string, b: string)
    requires AtMost(a, b) && AtMost(b, a)
    ensures a == b
  {
    if a != "" && b != "" {
      AtMostAntisymmetric(a[1..], b[1..]);
      assert a == [a[0]] + a[1..] && b == [b[0]] + b[1..];
    }
  }

  lemma {:induction false} AtMostTransitive(a: string, b: string, c: string)
    requires AtMost(a, b) && AtMost(b, c)
    ensures AtMost(a, c)
  {
    if a != "" && a[0] == b[0] && b[0] == c[0] { AtMostTransitive(a[1..], b[1..], c[1..]); }
  }

  /** The order of the program's strings, without recursion: a prefix first, else the first difference decides. */
  ghost predicate Precedes(a: string, b: string) {
    a < b || exists i: nat :: FirstDifference(a, b, i) && a[i] < b[i]
  }

  ghost predicate FirstDifference(a: string, b: string, i: nat) {
    i < |a| && i < |b| && a[..i] == b[..i] && a[i] != b[i]
  }

  lemma {:induction false} PrefixComesFirst(a: string, b: string)
    requires a < b
    ensures AtMost(a, b) && !AtMost(b, a)
  {
    if a != "" {
      assert a[0] == b[0] && a[1..] < b[1..];
      PrefixComesFirst(a[1..], b[1..]);
    }
  }

  lemma {:induction false} FirstDifferenceDecides(a: string, b: string, i: nat)
    requires FirstDifference(a, b, i) && a[i] < b[i]
    ensures AtMost(a, b) && !AtMost(b, a)
  {
    if i > 0 {
      assert a[0] == a[..i][0] == b[..i][0] == b[0];
      assert a[1..][..i - 1] == a[..i][1..] == b[..i][1..] == b[1..][..i - 1];
      FirstDifferenceDecides(a[1..], b[1..], i - 1);
    }
  }

  lemma {:induction false} Differ(a: string, b: string) returns (i: nat)
    requires !(a <= b) && !(b <= a)
    ensures FirstDifference(a, b, i)
  {
    if a[0] != b[0] {
      i := 0;
    } else {
      assert a == [a[0]] + a[1..] && b == [b[0]] + b[1..];
      i := Differ(a[1..], b[1..]);
      assert a[..i + 1] == [a[0]] + a[1..][..i] && b[..i + 1] == [b[0]] + b[1..][..i];
      i := i + 1;
    }
  }

  /** Which order it is. */
  lemma AtMostExactly(a: string, b: string)
    ensures AtMost(a, b) <==> a == b || Precedes(a, b)
  {
    if a == b {
      AtMostReflexive(a);
    } else if a < b {
      PrefixComesFirst(a, b);
    } else if b < a {
      PrefixComesFirst(b, a);
      forall k: nat | k < |a| && k < |b| ensures a[k] == b[k] {
      }
    } else {
      var i := Differ(a, b);
      if a[i] < b[i] {
        FirstDifferenceDecides(a, b, i);
      } else {
        FirstDifferenceDecides(b, a, i);
        forall k: nat | FirstDifference(a, b, k) ensures k == i {
          OneFirstDifference(a, b, i, k);
        }
      }
    }
  }

  lemma OneFirstDifference(a: string, b: string, i: nat, k: nat)
    requires FirstDifference(a, b, i) && FirstDifference(a, b, k)
    ensures i == k
  {
    if i < k {
      SameBefore(a, b, k, i);
    } else if k < i {
      SameBefore(a, b, i, k);
    }
  }

  lemma SameBefore(a: string, b: string, k: nat, m: nat)
    requires m < k && k < |a| && k < |b| && a[..k] == b[..k]
    ensures a[m] == b[m]
  {
    assert a[..k][m] == b[..k][m];
  }

  predicate IsLeast(k: string, keys: set<string>) {
    k in keys && forall j :: j in keys ==> AtMost(k, j)
  }

  lemma {:induction false} LeastExists(keys: set<string>)
    requires keys != {}
    ensures exists k :: IsLeast(k, keys)
  {
    var k :| k in keys;
    AtMostReflexive(k);
    if keys == {k} {
      assert IsLeast(k, keys);
    } else {
      LeastExists(keys - {k});
      var m :| IsLeast(m, keys - {k});
      AtMostTotal(k, m);
      if AtMost(k, m) {
        forall j | j in keys ensures AtMost(k, j) {
          if j != k { AtMostTransitive(k, m, j); }
        }
        assert IsLeast(k, keys);
      } else {
        assert IsLeast(m, keys);
      }
    }
  }

  lemma LeastIsUnique(keys: set<string>)
    ensures forall a, b :: IsLeast(a, keys) && IsLeast(b, keys) ==> a == b
  {
    forall a, b | IsLeast(a, keys) && IsLeast(b, keys) ensures a == b {
      AtMostAntisymmetric(a, b);
    }
  }

  /** Every key once, in order. */
  function Sorted(keys: set<string>): (ks: seq<string>)
    ensures forall k :: k in ks <==> k in keys
    ensures forall i, j :: 0 <= i < j < |ks| ==> ks[i] != ks[j] && AtMost(ks[i], ks[j])
  {
    if keys == {} then []
    else
      LeastExists(keys);
      LeastIsUnique(keys);
      var k :| IsLeast(k, keys);
      [k] + Sorted(keys - {k})
  }

  ghost predicate Ascending(ks: seq<string>) {
    forall i, j :: 0 <= i < j < |ks| ==> Precedes(ks[i], ks[j])
  }

  lemma SortedAscends(keys: set<string>)
    ensures Ascending(Sorted(keys))
  {
    var ks := Sorted(keys);
    forall i, j | 0 <= i < j < |ks| ensures Precedes(ks[i], ks[j]) {
      AtMostExactly(ks[i], ks[j]);
    }
  }

  /** A strictly ascending list is determined by its elements. */
  lemma {:induction false} AscendingIsUnique(a: seq<string>, b: seq<string>)
    requires Ascending(a) && Ascending(b) && forall k :: k in a <==> k in b
    ensures a == b
  {
    assert (a != [] ==> a[0] in a) && (b != [] ==> b[0] in b);
    if a != [] {
      FirstIsLeast(a, b[0]);
      FirstIsLeast(b, a[0]);
      AtMostAntisymmetric(a[0], b[0]);
      forall k ensures k in a[1..] <==> k in b[1..] {
        RestIsApart(a, k);
        RestIsApart(b, k);
      }
      AscendingIsUnique(a[1..], b[1..]);
    }
  }

  lemma FirstIsLeast(a: seq<string>, k: string)
    requires Ascending(a) && k in a
    ensures AtMost(a[0], k)
  {
    var i :| 0 <= i < |a| && a[i] == k;
    AtMostExactly(a[0], k);
  }

  lemma RestIsApart(a: seq<string>, k: string)
    requires Ascending(a) && a != []
    ensures Ascending(a[1..]) && (k in a[1..] <==> k in a && k != a[0])
  {
    forall i | 0 < i < |a| ensures a[0] != a[i] {
      AtMostExactly(a[0], a[i]);
      NotBeforeItself(a[0]);
    }
    assert a == [a[0]] + a[1..];
  }

  lemma NotBeforeItself(a: string)
    ensures !Precedes(a, a)
  {
  }

  lemma FirstCharDecides(a: string, b: string)
    requires a != "" && b != "" && a[0] < b[0]
    ensures Precedes(a, b)
  {
    assert FirstDifference(a, b, 0);
  }

  lemma SecondCharDecides(a: string, b: string)
    requires |a| >= 2 && |b| >= 2 && a[0] == b[0] && a[1] < b[1]
    ensures Precedes(a, b)
  {
    assert FirstDifference(a, b, 1);
  }

  /** So whoever lists a set of keys in ascending order has sorted it. */
  lemma SortedIs(keys: set<string>, ks: seq<string>)
    requires Ascending(ks) && forall k :: k in ks <==> k in keys
    ensures Sorted(keys) == ks
  {
    SortedAscends(keys);
    AscendingIsUnique(Sorted(keys), ks);
  }

  lemma {:induction false} SortedSize(keys: set<string>)
    ensures |Sorted(keys)| == |keys|
  {
    if keys != {} {
      var ks := Sorted(keys);
      SortedSize(keys - {ks[0]});
    }
  }
}
