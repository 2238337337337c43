/** What the stash of skipped keys holds, as a set of (chain, position) pairs. */
module SkippedKeys {
  import opened SymbolicCrypto
  import opened RatchetSpec

  type Place = (KeyId, nat)

  ghost function Places(s: seq<SkippedKey>): set<Place> {
    set k | k in s :: (k.dh, k.n)
  }

  ghost predicate Distinct(s: seq<SkippedKey>) {
    forall i, j :: 0 <= i < j < |s| ==> (s[i].dh, s[i].n) != (s[j].dh, s[j].n)
  }

  lemma PlacesConcat(a: seq<SkippedKey>, b: seq<SkippedKey>)
    ensures Places(a + b) == Places(a) + Places(b)
  {
    forall p | p in Places(a) + Places(b) ensures p in Places(a + b) {
      if p in Places(a) {
        var k :| k in a && p == (k.dh, k.n);
        assert k in a + b;
      } else {
        var k :| k in b && p == (k.dh, k.n);
        assert k in a + b;
      }
    }
  }

  lemma DistinctConcat(a: seq<SkippedKey>, b: seq<SkippedKey>)
    requires Distinct(a) && Distinct(b) && Places(a) !! Places(b)
    ensures Distinct(a + b)
  {
    forall i, j | 0 <= i < j < |a + b|
      ensures ((a + b)[i].dh, (a + b)[i].n) != ((a + b)[j].dh, (a + b)[j].n)
    {
      if i < |a| <= j {
        assert a[i] in a && b[j - |a|] in b;
        assert (a[i].dh, a[i].n) in Places(a);
        assert (b[j - |a|].dh, b[j - |a|].n) in Places(b);
      }
    }
  }

  lemma PlacesStash(dh: KeyId, ck: Term, from: nat, count: nat, now: int)
    ensures forall d, n :: (d, n) in Places(Stash(dh, ck, from, count, now)) <==> d == dh && from <= n < from + count
    ensures Distinct(Stash(dh, ck, from, count, now))
  {
    var s := Stash(dh, ck, from, count, now);
    forall n: nat | from <= n < from + count ensures (dh, n) in Places(s) {
      assert s[n - from] in s;
    }
  }

  lemma FindSkippedMeansPresent(s: seq<SkippedKey>, dh: KeyId, n: nat)
    ensures FindSkipped(s, dh, n) < |s| <==> (dh, n) in Places(s)
  {
    var pos := FindSkipped(s, dh, n);
    if pos < |s| {
      assert s[pos] in s;
    }
  }

  lemma PlacesRemoveAt(s: seq<SkippedKey>, pos: nat)
    requires pos < |s| && Distinct(s)
    ensures Distinct(RemoveAt(s, pos))
    ensures Places(RemoveAt(s, pos)) == Places(s) - {(s[pos].dh, s[pos].n)}
    ensures forall k :: k in RemoveAt(s, pos) ==> k in s
  {
    var r := RemoveAt(s, pos);
    forall p | p in Places(s) - {(s[pos].dh, s[pos].n)} ensures p in Places(r) {
      var i :| 0 <= i < |s| && p == (s[i].dh, s[i].n);
      assert s[i] == if i < pos then r[i] else r[i - 1];
      assert s[i] in r;
    }
    forall p | p in Places(r) ensures p in Places(s) - {(s[pos].dh, s[pos].n)} {
      var i :| 0 <= i < |r| && p == (r[i].dh, r[i].n);
      var j := if i < pos then i else i + 1;
      assert r[i] == s[j] && s[j] in s && j != pos;
    }
  }

  lemma {:induction false} RetainedKeepsDistinct(s: seq<SkippedKey>, cutoff: int)
    requires Distinct(s)
    ensures Distinct(Retained(s, cutoff))
    ensures forall k :: k in Retained(s, cutoff) ==> k in s
  {
    if s != [] {
      var rest := Retained(s[1..], cutoff);
      RetainedKeepsDistinct(s[1..], cutoff);
      forall k | k in rest ensures (k.dh, k.n) != (s[0].dh, s[0].n) {
        var j :| 0 <= j < |s[1..]| && s[1..][j] == k;
        assert s[j + 1] == k;
      }
    }
  }

  lemma EvictKeepsDistinct(s: seq<SkippedKey>, now: int)
    requires Distinct(s)
    ensures Distinct(Evict(s, now))
    ensures forall k :: k in Evict(s, now) ==> k in s
    ensures Places(Evict(s, now)) <= Places(s)
  {
    RetainedKeepsDistinct(s, now - SKIPPED_TTL_MS);
  }

  lemma {:induction false} RetainedConcat(a: seq<SkippedKey>, b: seq<SkippedKey>, cutoff: int)
    ensures Retained(a + b, cutoff) == Retained(a, cutoff) + Retained(b, cutoff)
  {
    if a == [] {
      assert a + b == b;
    } else {
      RetainedConcat(a[1..], b, cutoff);
      assert (a + b)[1..] == a[1..] + b;
    }
  }

  /** Still young enough, and fewer than the cap of such keys were stashed after it. */
  ghost predicate Outlives(s: seq<SkippedKey>, now: int, i: nat)
    requires i < |s|
  {
    s[i].storedAt >= now - SKIPPED_TTL_MS && |Retained(s[i + 1..], now - SKIPPED_TTL_MS)| < MAX_SKIPPED_KEYS
  }

  /** A stashed key is evicted exactly when it is older than the TTL, or the cap is filled by newer live keys. */
  lemma EvictsExactly(s: seq<SkippedKey>, now: int, i: nat)
    requires Distinct(s) && i < |s|
    ensures (s[i].dh, s[i].n) in Places(Evict(s, now)) <==> Outlives(s, now, i)
  {
    var cutoff := now - SKIPPED_TTL_MS;
    RetainedAround(s, cutoff, i);
    RetainedKeepsDistinct(s, cutoff);
    var live, before := Retained(s, cutoff), |Retained(s[..i], cutoff)|;
    if s[i].storedAt >= cutoff {
      PlaceOfSuffix(live, |live| - |Evict(s, now)|, before);
    } else {
      AbsentFromRetained(s, cutoff, i);
    }
  }

  /** What outlives eviction is still there, doubled places or not. */
  lemma OutlivesStays(s: seq<SkippedKey>, now: int, i: nat)
    requires i < |s| && Outlives(s, now, i)
    ensures s[i] in Evict(s, now) && (s[i].dh, s[i].n) in Places(Evict(s, now))
  {
    var cutoff := now - SKIPPED_TTL_MS;
    RetainedAround(s, cutoff, i);
    var live, before := Retained(s, cutoff), |Retained(s[..i], cutoff)|;
    assert live[before] == s[i];
    assert before >= |live| - |Evict(s, now)|;
    assert Evict(s, now)[before - (|live| - |Evict(s, now)|)] == s[i];
  }

  lemma RetainedAround(s: seq<SkippedKey>, cutoff: int, i: nat)
    requires i < |s|
    ensures Retained(s, cutoff) == Retained(s[..i], cutoff)
              + (if s[i].storedAt >= cutoff then [s[i]] else [])
              + Retained(s[i + 1..], cutoff)
  {
    assert s == s[..i] + ([s[i]] + s[i + 1..]);
    RetainedConcat(s[..i], [s[i]] + s[i + 1..], cutoff);
    assert ([s[i]] + s[i + 1..])[1..] == s[i + 1..];
  }

  lemma PlaceOfSuffix(s: seq<SkippedKey>, from: nat, i: nat)
    requires Distinct(s) && from <= |s| && i < |s|
    ensures (s[i].dh, s[i].n) in Places(s[from..]) <==> i >= from
  {
    if i >= from {
      assert s[from..][i - from] in s[from..];
    }
  }

  lemma AbsentFromRetained(s: seq<SkippedKey>, cutoff: int, i: nat)
    requires Distinct(s) && i < |s| && s[i].storedAt < cutoff
    ensures (s[i].dh, s[i].n) !in Places(Retained(s, cutoff))
  {
    RetainedKeepsDistinct(s, cutoff);
    RetainedAreLive(s, cutoff);
  }

  lemma {:induction false} RetainedAll(s: seq<SkippedKey>, cutoff: int)
    requires forall k :: k in s ==> k.storedAt >= cutoff
    ensures Retained(s, cutoff) == s
  {
    if s != [] {
      RetainedAll(s[1..], cutoff);
    }
  }

  lemma {:induction false} RetainedShrinks(s: seq<SkippedKey>, cutoff: int)
    ensures |Retained(s, cutoff)| <= |s|
  {
    if s != [] {
      RetainedShrinks(s[1..], cutoff);
    }
  }

  lemma {:induction false} RetainedAreLive(s: seq<SkippedKey>, cutoff: int)
    ensures forall k :: k in Retained(s, cutoff) ==> k.storedAt >= cutoff
  {
    if s != [] {
      RetainedAreLive(s[1..], cutoff);
    }
  }
}
