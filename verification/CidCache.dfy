/** The bounded first-in first-out cache in front of content fetches, and its agreement with the plain fetch. */
module CidCache {
  import opened Positional
  import opened Wrappers

  const MAX_ENTRIES: nat := 512
  const MAX_BYTES: nat := 8 * 1024 * 1024
  const MAX_ENTRY_BYTES: nat := 1024 * 1024
  const SEPARATOR: char := '\U{1F}'

  datatype Cache = Cache(entries: map<string, Bytes>, order: seq<string>, total: nat)

  const EMPTY: Cache := Cache(map[], [], 0)

  function Sum(order: seq<string>, entries: map<string, Bytes>): nat {
    if order == [] then 0
    else (if order[0] in entries then |entries[order[0]]| else 0) + Sum(order[1..], entries)
  }

  /** The order lists each entry once, and the total is what the entries hold. */
  ghost predicate Sound(c: Cache) {
    Distinct(c.order) && Listed(c.entries, c.order) && c.total == Sum(c.order, c.entries)
  }

  ghost predicate Distinct(order: seq<string>) {
    forall i, j :: 0 <= i < j < |order| ==> order[i] != order[j]
  }

  ghost predicate Listed(entries: map<string, Bytes>, order: seq<string>) {
    forall key :: key in entries <==> key in order
  }

  ghost predicate Bounded(c: Cache) {
    |c.order| <= 512 && c.total <= 8_388_608
  }

  // ── What the operations compute ───────────────────────────────────────────

  function Lookup(c: Cache, key: string): Option<Bytes> {
    if key in c.entries then Some(c.entries[key]) else None
  }

  predicate Full(c: Cache, len: nat) {
    |c.order| >= MAX_ENTRIES || c.total + len > MAX_BYTES
  }

  /** Without the oldest entry. */
  function Popped(c: Cache): Cache
    requires c.order != []
  {
    var size := if c.order[0] in c.entries then |c.entries[c.order[0]]| else 0;
    Cache(c.entries - {c.order[0]}, c.order[1..], if size <= c.total then c.total - size else 0)
  }

  function Evicted(c: Cache, len: nat): Cache
    decreases |c.order|
  {
    if c.order != [] && Full(c, len) then Evicted(Popped(c), len) else c
  }

  function WithEntry(c: Cache, key: string, bytes: Bytes): Cache {
    if |bytes| > MAX_ENTRY_BYTES || key in c.entries then c
    else
      var e := Evicted(c, |bytes|);
      Cache(e.entries[key := bytes], e.order + [key], e.total + |bytes|)
  }

  function Key(cid: string, path: Option<string>): string {
    if path.Some? then cid + [SEPARATOR] + path.value else cid
  }

  lemma {:induction false} SumDepends(order: seq<string>, a: map<string, Bytes>, b: map<string, Bytes>)
    requires forall i :: 0 <= i < |order| ==> (order[i] in a <==> order[i] in b)
    requires forall i :: 0 <= i < |order| && order[i] in a ==> a[order[i]] == b[order[i]]
    ensures Sum(order, a) == Sum(order, b)
  {
    if order != [] {
      SumDepends(order[1..], a, b);
    }
  }

  lemma {:induction false} SumSnoc(order: seq<string>, key: string, entries: map<string, Bytes>)
    requires key in entries
    ensures Sum(order + [key], entries) == Sum(order, entries) + |entries[key]|
  {
    if order == [] {
      assert [] + [key] == [key];
    } else {
      assert (order + [key])[1..] == order[1..] + [key];
      SumSnoc(order[1..], key, entries);
    }
  }

  lemma RestIsListed(order: seq<string>, entries: map<string, Bytes>)
    requires Distinct(order) && Listed(entries, order) && order != []
    ensures order[0] in entries && order[0] !in order[1..]
    ensures Distinct(order[1..]) && Listed(entries - {order[0]}, order[1..])
  {
    var oldest, rest := order[0], order[1..];
    assert oldest in order;
    forall key ensures key in entries - {oldest} <==> key in rest {
      assert order == [oldest] + rest;
    }
  }

  lemma PoppedIsSound(c: Cache)
    requires Sound(c) && c.order != []
    ensures c.order[0] in c.entries && |c.entries[c.order[0]]| <= c.total
    ensures Sound(Popped(c))
  {
    RestIsListed(c.order, c.entries);
    var oldest, rest := c.order[0], c.order[1..];
    forall i | 0 <= i < |rest| ensures rest[i] != oldest {
      assert rest[i] in rest;
    }
    hide Distinct, Listed;
    SumDepends(rest, c.entries, c.entries - {oldest});
  }

  lemma {:induction false} EvictedIsSound(c: Cache, len: nat)
    requires Sound(c)
    ensures Sound(Evicted(c, len)) && (Evicted(c, len).order == [] || !Full(Evicted(c, len), len))
    decreases |c.order|
  {
    if c.order != [] && Full(c, len) {
      PoppedIsSound(c);
      hide Sound, Popped;
      EvictedIsSound(Popped(c), len);
    }
  }

  lemma AddedIsSound(c: Cache, key: string, bytes: Bytes)
    requires Sound(c) && key !in c.entries
    ensures Sound(Cache(c.entries[key := bytes], c.order + [key], c.total + |bytes|))
  {
    SumDepends(c.order, c.entries, c.entries[key := bytes]);
    SumSnoc(c.order, key, c.entries[key := bytes]);
    hide Sum;
  }

  // ── The operations in place ───────────────────────────────────────────────

  class Store {
    var entries: map<string, Bytes>
    var order: seq<string>
    var total: nat

    function State(): Cache
      reads this
    {
      Cache(entries, order, total)
    }

    constructor ()
      ensures State() == EMPTY
    {
      entries, order, total := map[], [], 0;
    }

    method Get(key: string) returns (r: Option<Bytes>)
      ensures r == Lookup(State(), key)
    {
      r := if key in entries then Some(entries[key]) else None;
    }

    method Put(key: string, bytes: Bytes)
      requires Sound(State())
      modifies this
      ensures State() == WithEntry(old(State()), key, bytes)
    {
      if |bytes| > MAX_ENTRY_BYTES || key in entries {
        return;
      }
      ghost var was := State();
      while order != [] && (|order| >= MAX_ENTRIES || total + |bytes| > MAX_BYTES)
        invariant Sound(State()) && Evicted(State(), |bytes|) == Evicted(was, |bytes|)
        decreases |order|
      {
        PoppedIsSound(State());
        PopOldest();
      }
      total := total + |bytes|;
      order := order + [key];
      entries := entries[key := bytes];
    }

    method PopOldest()
      requires order != [] && (order[0] in entries ==> |entries[order[0]]| <= total)
      modifies this
      ensures State() == Popped(old(State()))
    {
      var oldest := order[0];
      order := order[1..];
      if oldest in entries {
        total := total - |entries[oldest]|;
        entries := entries - {oldest};
      }
    }

    /** One cached fetch; `answer` is what the content provider would say, and is asked for on a miss only. */
    method GetBytes(cid: string, path: Option<string>, answer: Result<Bytes, string>)
      returns (r: Result<Bytes, string>, asked: bool)
      requires Sound(State())
      modifies this
      ensures r == Cached(old(State()), Call(cid, path, answer))
      ensures State() == Remembered(old(State()), Call(cid, path, answer))
      ensures asked <==> Lookup(old(State()), Key(cid, path)).None?
    {
      var key := Key(cid, path);
      var hit := Get(key);
      if hit.Some? {
        return Ok(hit.value), false;
      }
      if answer.Err? {
        return answer, true;
      }
      Put(key, answer.value);
      return Ok(answer.value), true;
    }
  }

  datatype Call = Call(cid: string, path: Option<string>, answer: Result<Bytes, string>)

  function Cached(c: Cache, call: Call): Result<Bytes, string> {
    var hit := Lookup(c, Key(call.cid, call.path));
    if hit.Some? then Ok(hit.value) else call.answer
  }

  function Remembered(c: Cache, call: Call): Cache {
    if Lookup(c, Key(call.cid, call.path)).None? && call.answer.Ok?
    then WithEntry(c, Key(call.cid, call.path), call.answer.value)
    else c
  }

  // ── Soundness and bounds ──────────────────────────────────────────────────

  lemma {:induction false} EvictedIsPart(c: Cache, len: nat, key: string)
    requires key in Evicted(c, len).entries
    ensures key in c.entries && Evicted(c, len).entries[key] == c.entries[key]
    decreases |c.order|
  {
    if c.order != [] && Full(c, len) {
      EvictedIsPart(Popped(c), len, key);
    }
  }

  /** What is put is found, unless it is over 1 MiB or something was there; other entries stay or are evicted. */
  lemma PutIsFound(c: Cache, key: string, bytes: Bytes, other: string)
    requires Sound(c)
    ensures var next := WithEntry(c, key, bytes);
            && Lookup(next, key) == (if Lookup(c, key).Some? then Lookup(c, key)
                                     else if |bytes| <= 1_048_576 then Some(bytes) else None)
            && (other != key ==> Lookup(next, other) == Lookup(c, other) || Lookup(next, other) == None)
            && (next == c || next.order[|next.order| - 1..] == [key])
  {
    if |bytes| <= MAX_ENTRY_BYTES && key !in c.entries && other in Evicted(c, |bytes|).entries {
      EvictedIsPart(c, |bytes|, other);
    }
    hide Sound, Evicted;
  }

  lemma PutKeepsSound(c: Cache, key: string, bytes: Bytes)
    requires Sound(c) && Bounded(c)
    ensures Sound(WithEntry(c, key, bytes)) && Bounded(WithEntry(c, key, bytes))
  {
    if |bytes| <= MAX_ENTRY_BYTES && key !in c.entries {
      EvictedIsSound(c, |bytes|);
      var e := Evicted(c, |bytes|);
      if key in e.entries {
        EvictedIsPart(c, |bytes|, key);
      }
      assert e.order == [] ==> e.total == 0;
      AddedIsSound(e, key, bytes);
      hide Sound;
    }
  }

  /** Whether the newest entries, from position `d` on, leave room for `len` more bytes. */
  ghost predicate Fits(c: Cache, d: nat, len: nat)
    requires d <= |c.order|
  {
    |c.order| - d < 512 && Sum(c.order[d..], c.entries) + len <= 8_388_608
  }

  lemma FullMeansNoFit(c: Cache, len: nat)
    requires Sound(c)
    ensures Full(c, len) <==> !Fits(c, 0, len)
  {
    assert c.order[0..] == c.order;
  }

  lemma PoppedFits(c: Cache, i: nat, len: nat)
    requires Sound(c) && 0 < i <= |c.order|
    ensures Fits(c, i, len) <==> Fits(Popped(c), i - 1, len)
  {
    var p, rest := Popped(c), c.order[i..];
    assert rest == p.order[i - 1..];
    forall j | 0 <= j < |rest| ensures rest[j] != c.order[0] && rest[j] in c.entries {
      assert rest[j] == c.order[i + j];
      assert c.order[i + j] in c.order;
    }
    SumDepends(rest, c.entries, p.entries);
  }

  /** `e` is `c` without its `d` oldest entries. */
  ghost predicate WithoutOldest(c: Cache, d: nat, e: Cache) {
    && d <= |c.order| && e.order == c.order[d..]
    && forall key :: Lookup(e, key) == if key in c.order[..d] then None else Lookup(c, key)
  }

  lemma OneMoreOldest(c: Cache, d: nat, e: Cache)
    requires c.order != [] && WithoutOldest(Popped(c), d, e)
    ensures WithoutOldest(c, d + 1, e)
  {
    var p := Popped(c);
    assert p.order[d..] == c.order[d + 1..];
    assert c.order[..d + 1] == [c.order[0]] + p.order[..d];
    forall key ensures Lookup(e, key) == if key in c.order[..d + 1] then None else Lookup(c, key) {
      assert Lookup(p, key) == if key == c.order[0] then None else Lookup(c, key);
    }
  }

  lemma {:induction false} EvictsThePrefix(c: Cache, len: nat) returns (d: nat)
    ensures WithoutOldest(c, d, Evicted(c, len))
    decreases |c.order|
  {
    if c.order == [] || !Full(c, len) {
      d := 0;
      assert c.order[0..] == c.order;
    } else {
      d := EvictsThePrefix(Popped(c), len);
      OneMoreOldest(c, d, Evicted(c, len));
      d := d + 1;
    }
  }

  lemma {:induction false} EvictsTheFewest(c: Cache, len: nat, i: nat)
    requires Sound(c) && i <= |c.order|
    ensures var left := |Evicted(c, len).order|;
            && left <= |c.order|
            && (i < |c.order| - left ==> !Fits(c, i, len))
            && (i == |c.order| - left && left > 0 ==> Fits(c, i, len))
    decreases |c.order|
  {
    FullMeansNoFit(c, len);
    if c.order != [] && Full(c, len) {
      PoppedIsSound(c);
      if i > 0 {
        PoppedFits(c, i, len);
      }
      assert |Popped(c).order| == |c.order| - 1;
      hide Sound, Popped, Full, Fits;
      EvictsTheFewest(Popped(c), len, if i > 0 then i - 1 else 0);
    }
  }

  /** Eviction drops the fewest oldest entries that make room, and leaves the others as they were. */
  lemma EvictsOldestFirst(c: Cache, len: nat)
    requires Sound(c)
    ensures var e := Evicted(c, len);
            && |e.order| <= |c.order|
            && var d := |c.order| - |e.order|;
            && WithoutOldest(c, d, e)
            && (forall i: nat :: i < d ==> !Fits(c, i, len))
            && (d < |c.order| ==> Fits(c, d, len))
  {
    var d := EvictsThePrefix(c, len);
    assert WithoutOldest(c, |c.order| - |Evicted(c, len).order|, Evicted(c, len));
    hide Fits, Evicted, WithoutOldest, Sound;
    assert |Evicted(c, len).order| <= |c.order| by {
      EvictsTheFewest(c, len, 0);
    }
    forall i: nat | i <= |c.order| - |Evicted(c, len).order|
      ensures i < |c.order| - |Evicted(c, len).order| ==> !Fits(c, i, len)
      ensures i == |c.order| - |Evicted(c, len).order| && i < |c.order| ==> Fits(c, i, len)
    {
      EvictsTheFewest(c, len, i);
    }
  }

  // ── Runs ──────────────────────────────────────────────────────────────────

  ghost function After(run: seq<Call>, k: nat): Cache
    requires k <= |run|
  {
    if k == 0 then EMPTY else Remembered(After(run, k - 1), run[k - 1])
  }

  /** In whatever order fetches come and fail, the cache stays within its bounds and consistent. */
  lemma {:induction false} RunKeepsSound(run: seq<Call>, k: nat)
    requires k <= |run|
    ensures Sound(After(run, k)) && Bounded(After(run, k))
  {
    if k > 0 {
      RunKeepsSound(run, k - 1);
      var c, call := After(run, k - 1), run[k - 1];
      if call.answer.Ok? {
        PutKeepsSound(c, Key(call.cid, call.path), call.answer.value);
      }
    }
  }

  /** A fetch that succeeded with up to a megabyte answers the next one of the same cid and path by itself. */
  lemma FetchedIsCached(run: seq<Call>, k: nat, again: Call)
    requires k < |run| && run[k].answer.Ok? && |run[k].answer.value| <= 1_048_576
    requires again.cid == run[k].cid && again.path == run[k].path
    ensures Lookup(After(run, k + 1), Key(again.cid, again.path)).Some?
    ensures Cached(After(run, k + 1), again) == Cached(After(run, k), run[k])
    ensures Remembered(After(run, k + 1), again) == After(run, k + 1)
  {
    RunKeepsSound(run, k);
    var key := Key(run[k].cid, run[k].path);
    PutIsFound(After(run, k), key, run[k].answer.value, key);
  }

  /** Content addressing: a successful fetch returns the one content of that cid and path. CIDs hold no separator. */
  ghost predicate Immutable(run: seq<Call>) {
    && (forall j :: 0 <= j < |run| ==> SEPARATOR !in run[j].cid)
    && (forall i, j :: 0 <= i < |run| && 0 <= j < |run| ==> Agree(run[i], run[j]))
  }

  ghost predicate Agree(a: Call, b: Call) {
    a.cid == b.cid && a.path == b.path && a.answer.Ok? && b.answer.Ok? ==> a.answer == b.answer
  }

  lemma SeparatorAt(cid: string, path: Option<string>, i: nat)
    requires SEPARATOR !in cid && i < |Key(cid, path)|
    ensures i < |cid| ==> Key(cid, path)[i] != SEPARATOR
    ensures i == |cid| ==> Key(cid, path)[i] == SEPARATOR
  {
    assert i < |cid| ==> cid[i] in cid;
  }

  lemma KeyStartsNoShorter(cid: string, path: Option<string>, cid': string, path': Option<string>)
    requires SEPARATOR !in cid && SEPARATOR !in cid' && Key(cid, path) == Key(cid', path')
    ensures |cid| >= |cid'|
  {
    if |cid| < |Key(cid, path)| {
      SeparatorAt(cid, path, |cid|);
      SeparatorAt(cid', path', |cid|);
    }
  }

  /** The separator makes the key injective, on CIDs that do not contain it. */
  lemma KeyInjective(cid: string, path: Option<string>, cid': string, path': Option<string>)
    requires SEPARATOR !in cid && SEPARATOR !in cid'
    ensures Key(cid, path) == Key(cid', path') <==> cid == cid' && path == path'
  {
    var k, k' := Key(cid, path), Key(cid', path');
    if k == k' {
      KeyStartsNoShorter(cid, path, cid', path');
      KeyStartsNoShorter(cid', path', cid, path);
      assert cid == k[..|cid|] && cid' == k'[..|cid|];
      if path.Some? && path'.Some? {
        assert path.value == k[|cid| + 1..] && path'.value == k'[|cid| + 1..];
      }
    }
  }

  /** No pair of another CID free of separators, or of the same CID with another path, shares a key with this one. */
  ghost predicate KeysOwn(cid: string) {
    forall path: Option<string>, other, path': Option<string> {:trigger Key(cid, path), Key(other, path')} ::
      SEPARATOR !in other && Key(cid, path) == Key(other, path') ==> cid == other && path == path'
  }

  lemma {:induction false} FirstSeparator(cid: string) returns (i: nat)
    requires SEPARATOR in cid
    ensures i < |cid| && cid[i] == SEPARATOR && SEPARATOR !in cid[..i]
  {
    if cid[0] == SEPARATOR {
      i := 0;
    } else {
      assert cid == [cid[0]] + cid[1..];
      i := FirstSeparator(cid[1..]);
      assert cid[..i + 1] == [cid[0]] + cid[1..][..i];
      i := i + 1;
    }
  }

  /** A CID with a separator in it shares each of its keys, whatever the path, with a path of a shorter CID. */
  lemma SeparatorCollides(cid: string, path: Option<string>) returns (other: string, path': Option<string>)
    requires SEPARATOR in cid
    ensures SEPARATOR !in other && other != cid && Key(cid, path) == Key(other, path')
  {
    var i := FirstSeparator(cid);
    other := cid[..i];
    path' := Some(Key(cid, path)[i + 1..]);
    assert Key(cid, path) == cid[..i] + [SEPARATOR] + Key(cid, path)[i + 1..];
  }

  /** Exactly the CIDs without a separator have their keys to themselves. */
  lemma KeysOwnExactly(cid: string)
    ensures KeysOwn(cid) <==> SEPARATOR !in cid
  {
    if SEPARATOR in cid {
      var other, path' := SeparatorCollides(cid, None);
    } else {
      forall path: Option<string>, other, path': Option<string>
        | SEPARATOR !in other && Key(cid, path) == Key(other, path')
        ensures cid == other && path == path'
      {
        KeyInjective(cid, path, other, path');
      }
    }
  }

  /** Every entry came from an earlier successful fetch of its key. */
  lemma {:induction false} EntriesWereFetched(run: seq<Call>, k: nat, key: string)
    requires k <= |run| && key in After(run, k).entries
    ensures exists j :: 0 <= j < k && Key(run[j].cid, run[j].path) == key
                        && run[j].answer == Ok(After(run, k).entries[key])
  {
    var c, call := After(run, k - 1), run[k - 1];
    if key in c.entries {
      var misses := call.answer.Ok? && Lookup(c, Key(call.cid, call.path)).None?;
      if misses && key in Evicted(c, |call.answer.value|).entries {
        EvictedIsPart(c, |call.answer.value|, key);
      }
      EntriesWereFetched(run, k - 1, key);
    } else {
      assert Key(call.cid, call.path) == key by {
        if key in Evicted(c, |call.answer.value|).entries {
          EvictedIsPart(c, |call.answer.value|, key);
        }
      }
    }
  }

  /**
    * The cache is invisible: a cached fetch answers what the plain fetch answers, except that a failure may be
    * replaced by what an earlier fetch of the same cid and path returned.
    */
  lemma CacheRefinesFetch(run: seq<Call>, k: nat)
    requires k < |run| && Immutable(run)
    ensures var r := Cached(After(run, k), run[k]);
            && (run[k].answer.Ok? ==> r == run[k].answer)
            && (r.Err? ==> r == run[k].answer)
            && (r.Ok? ==> exists j :: 0 <= j <= k && run[j] == run[k].(answer := r))
  {
    var key := Key(run[k].cid, run[k].path);
    if key in After(run, k).entries {
      EntriesWereFetched(run, k, key);
      var j :| 0 <= j < k && Key(run[j].cid, run[j].path) == key && run[j].answer == Ok(After(run, k).entries[key]);
      KeyInjective(run[j].cid, run[j].path, run[k].cid, run[k].path);
    }
  }
}
