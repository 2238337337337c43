/** Fragmentation of oversized wires, and their reassembly out of any interleaving. */
module Frag {
  import opened Wrappers

  const CHUNK_BYTES: nat := 3000
  const REASSEMBLY_TTL_MS: int := 120_000
  const TAG: string := "hcfrag1"

  datatype Fragment = Fragment(t: string, id: string, i: nat, n: nat, d: string)

  /** What one gossip message parses as: a fragment, or anything else. Wires are ASCII. */
  datatype Content = Plain(wire: string) | Parsed(f: Fragment)

  datatype Partial = Partial(n: nat, parts: map<nat, string>, firstMs: int)

  // ── Splitting ─────────────────────────────────────────────────────────────

  function Count(len: nat): nat {
    (len + CHUNK_BYTES - 1) / CHUNK_BYTES
  }

  function Min(a: nat, b: nat): nat {
    if a <= b then a else b
  }

  function Chunk(wire: string, i: nat): (c: string)
    requires i < Count(|wire|)
    ensures 1 <= |c| <= CHUNK_BYTES
  {
    var start := i * CHUNK_BYTES;
    wire[start..Min(start + CHUNK_BYTES, |wire|)]
  }

  function Fragments(wire: string, id: string): seq<Content> {
    if |wire| <= CHUNK_BYTES then [Plain(wire)]
    else
      var n := Count(|wire|);
      seq(n, i requires 0 <= i < n => Parsed(Fragment(TAG, id, i, n, Chunk(wire, i))))
  }

  method SplitWire(wire: string, id: string) returns (out: seq<Content>)
    ensures out == Fragments(wire, id)
  {
    if |wire| <= CHUNK_BYTES {
      return [Plain(wire)];
    }
    var len := |wire|;
    var n := (len + CHUNK_BYTES - 1) / CHUNK_BYTES;
    out := [];
    for i := 0 to n
      invariant out == Fragments(wire, id)[..i]
    {
      var start := i * CHUNK_BYTES;
      var end := if start + CHUNK_BYTES <= len then start + CHUNK_BYTES else len;
      out := out + [Parsed(Fragment(TAG, id, i, n, wire[start..end]))];
    }
  }

  /** An oversized wire goes out in tagged, numbered fragments of 3000 characters, the last one with the rest. */
  lemma FragmentsAre(wire: string, id: string, i: nat)
    requires |wire| > 3000 && i < |Fragments(wire, id)|
    ensures var n, c := |Fragments(wire, id)|, Fragments(wire, id)[i];
            && 3000 * (n - 1) < |wire| <= 3000 * n
            && c.Parsed? && c.f.t == "hcfrag1" && c.f.id == id && c.f.i == i && c.f.n == n
            && c.f.d == wire[3000 * i..if i < n - 1 then 3000 * i + 3000 else |wire|]
  {
  }

  function Joined(parts: map<nat, string>, n: nat): string
    requires forall i :: 0 <= i < n ==> i in parts
  {
    if n == 0 then "" else Joined(parts, n - 1) + parts[n - 1]
  }

  ghost predicate HoldsChunks(parts: map<nat, string>, wire: string) {
    forall i :: i in parts ==> i < Count(|wire|) && parts[i] == Chunk(wire, i)
  }

  /** The chunks of a wire, in order, are the wire. */
  lemma {:induction false} ChunksConcatenate(parts: map<nat, string>, wire: string, k: nat)
    requires k <= Count(|wire|) && HoldsChunks(parts, wire) && forall i :: 0 <= i < k ==> i in parts
    ensures Joined(parts, k) == wire[..Min(k * CHUNK_BYTES, |wire|)]
    ensures k == Count(|wire|) ==> Joined(parts, k) == wire
  {
    if k > 0 {
      ChunksConcatenate(parts, wire, k - 1);
    }
    if k == Count(|wire|) {
      assert wire[..|wire|] == wire;
    }
  }

  // ── Reassembling ──────────────────────────────────────────────────────────

  function Fresh(buf: map<string, Partial>, now: int): map<string, Partial> {
    map id | id in buf && now - buf[id].firstMs < REASSEMBLY_TTL_MS :: buf[id]
  }

  predicate AllPresent(parts: map<nat, string>, n: nat) {
    forall i :: 0 <= i < n ==> i in parts
  }

  function WithPart(buf: map<string, Partial>, f: Fragment, now: int): Partial {
    var m := Fresh(buf, now);
    var p := if f.id in m then m[f.id] else Partial(f.n, map[], now);
    p.(parts := p.parts[f.i := f.d])
  }

  /** One tagged fragment: the wire it completes, if any, and the buffer afterwards. */
  function AfterFragment(buf: map<string, Partial>, f: Fragment, now: int): (Option<string>, map<string, Partial>) {
    var p := WithPart(buf, f, now);
    if |p.parts| == p.n && AllPresent(p.parts, p.n)
    then (Some(Joined(p.parts, p.n)), Fresh(buf, now) - {f.id})
    else (None, Fresh(buf, now)[f.id := p])
  }

  function AfterContent(buf: map<string, Partial>, c: Content, now: int): (Option<Content>, map<string, Partial>) {
    if c.Plain? || c.f.t != TAG then (Some(c), buf)
    else
      var (wire, after) := AfterFragment(buf, c.f, now);
      (if wire.Some? then Some(Plain(wire.value)) else None, after)
  }

  class Reassembler {
    var buf: map<string, Partial>

    constructor ()
      ensures buf == map[]
    {
      buf := map[];
    }

    method Reassemble(c: Content, now: int) returns (ready: Option<Content>)
      modifies this
      ensures (ready, buf) == AfterContent(old(buf), c, now)
    {
      if c.Plain? || c.f.t != TAG {
        return Some(c);
      }
      var f := c.f;
      buf := map id | id in buf && now - buf[id].firstMs < REASSEMBLY_TTL_MS :: buf[id];
      var p := if f.id in buf then buf[f.id] else Partial(f.n, map[], now);
      p := p.(parts := p.parts[f.i := f.d]);
      buf := buf[f.id := p];
      if |p.parts| != p.n {
        return None;
      }
      var wire := Join(p.parts, p.n);
      if wire.None? {
        return None;
      }
      buf := buf - {f.id};
      assert buf == Fresh(old(buf), now) - {f.id};
      return Some(Plain(wire.value));
    }

    /** The chunks in index order, or nothing if there is a gap. */
    static method Join(parts: map<nat, string>, n: nat) returns (wire: Option<string>)
      ensures wire.Some? <==> AllPresent(parts, n)
      ensures wire.Some? ==> wire.value == Joined(parts, n)
    {
      var text := "";
      for i := 0 to n
        invariant AllPresent(parts, i) && text == Joined(parts, i)
      {
        if i !in parts {
          return None;
        }
        text := text + parts[i];
      }
      return Some(text);
    }
  }

  /** Whatever is not a tagged fragment passes through and leaves the buffer alone. */
  lemma UntaggedPassesThrough(buf: map<string, Partial>, c: Content, now: int)
    ensures c.Plain? || c.f.t != "hcfrag1" <==> AfterContent(buf, c, now) == (Some(c), buf)
  {
    hide AfterFragment;
  }

  /** Nothing is buffered for longer than the TTL, and a set that comes back after it starts over. */
  lemma StaleSetsStartOver(buf: map<string, Partial>, f: Fragment, now: int)
    ensures var after := AfterFragment(buf, f, now).1;
            forall id :: id in after ==> now - after[id].firstMs < 120_000
    ensures (f.id in buf ==> now - buf[f.id].firstMs >= 120_000) ==>
              WithPart(buf, f, now) == Partial(f.n, map[f.i := f.d], now)
  {
  }

  // ── Genuine traffic ───────────────────────────────────────────────────────

  /** Arrival of fragment `i` of the wire known as `id`. */
  datatype Arrival = Arrival(id: string, i: nat, now: int)

  type Wires = map<string, string>

  ghost predicate Oversized(wires: Wires) {
    forall id :: id in wires ==> |wires[id]| > CHUNK_BYTES
  }

  ghost predicate GenuineArrival(wires: Wires, a: Arrival) {
    a.id in wires && a.i < Count(|wires[a.id]|)
  }

  ghost function FragmentOf(wires: Wires, a: Arrival): Fragment
    requires GenuineArrival(wires, a)
  {
    var n := Count(|wires[a.id]|);
    Fragment(TAG, a.id, a.i, n, Chunk(wires[a.id], a.i))
  }

  /** Buffers hold chunks of the wires they are named after, and none is complete. */
  ghost predicate BufferOk(wires: Wires, buf: map<string, Partial>) {
    forall id :: id in buf ==>
      && id in wires
      && buf[id].n == Count(|wires[id]|)
      && HoldsChunks(buf[id].parts, wires[id])
      && !AllPresent(buf[id].parts, buf[id].n)
  }

  /** Which indices are buffered for `id` at time `now`. */
  ghost function Got(buf: map<string, Partial>, id: string, now: int): set<nat> {
    if id in Fresh(buf, now) then buf[id].parts.Keys else {}
  }

  ghost function Indices(n: nat): (s: set<nat>)
    ensures forall i: nat :: i in s <==> i < n
  {
    if n == 0 then {} else Indices(n - 1) + {n - 1}
  }

  lemma {:induction false} IndicesCount(n: nat)
    ensures |Indices(n)| == n
  {
    if n > 0 {
      IndicesCount(n - 1);
    }
  }

  lemma SubsetOfSameSize(a: set<nat>, b: set<nat>)
    requires a <= b && |a| == |b|
    ensures a == b
  {
    if a != b {
      var x :| x in b && x !in a;
      assert a <= b - {x};
      SubsetIsSmaller(a, b - {x});
    }
  }

  lemma {:induction false} SubsetIsSmaller(a: set<nat>, b: set<nat>)
    requires a <= b
    ensures |a| <= |b|
  {
    if a != {} {
      var x :| x in a;
      SubsetIsSmaller(a - {x}, b - {x});
    }
  }

  /** Counting the parts is enough: with genuine indices, as many parts as chunks means all of them. */
  lemma CountingSuffices(parts: map<nat, string>, n: nat)
    requires forall i :: i in parts ==> i < n
    ensures |parts| == n <==> AllPresent(parts, n)
    ensures AllPresent(parts, n) <==> parts.Keys == Indices(n)
  {
    IndicesCount(n);
    assert |parts| == |parts.Keys|;
    assert parts.Keys <= Indices(n);
    if |parts| == n {
      SubsetOfSameSize(parts.Keys, Indices(n));
    }
    if AllPresent(parts, n) {
      assert parts.Keys == Indices(n);
    }
  }

  lemma PartFields(wires: Wires, buf: map<string, Partial>, a: Arrival)
    requires Oversized(wires) && GenuineArrival(wires, a) && BufferOk(wires, buf)
    ensures var p := WithPart(buf, FragmentOf(wires, a), a.now);
            && p.n == Count(|wires[a.id]|) && HoldsChunks(p.parts, wires[a.id])
            && p.parts.Keys == Got(buf, a.id, a.now) + {a.i}
            && p.firstMs == (if a.id in Fresh(buf, a.now) then buf[a.id].firstMs else a.now)
  {
    hide AllPresent, Chunk;
  }

  lemma PartIsGenuine(wires: Wires, buf: map<string, Partial>, a: Arrival)
    requires Oversized(wires) && GenuineArrival(wires, a) && BufferOk(wires, buf)
    ensures var p := WithPart(buf, FragmentOf(wires, a), a.now);
            && p.n == Count(|wires[a.id]|) && HoldsChunks(p.parts, wires[a.id])
            && p.parts.Keys == Got(buf, a.id, a.now) + {a.i}
            && p.firstMs == (if a.id in Fresh(buf, a.now) then buf[a.id].firstMs else a.now)
            && (|p.parts| == p.n <==> AllPresent(p.parts, p.n))
            && (AllPresent(p.parts, p.n) <==> Got(buf, a.id, a.now) + {a.i} == Indices(Count(|wires[a.id]|)))
            && (AllPresent(p.parts, p.n) ==> Joined(p.parts, p.n) == wires[a.id])
  {
    PartFields(wires, buf, a);
    var p := WithPart(buf, FragmentOf(wires, a), a.now);
    hide WithPart, FragmentOf, Got, Fresh, BufferOk, Chunk;
    CountingSuffices(p.parts, p.n);
    if AllPresent(p.parts, p.n) {
      ChunksConcatenate(p.parts, wires[a.id], p.n);
    }
  }

  /**
   One genuine arrival, whatever is buffered: the wire comes out exactly when its last missing
   index arrives, and it is the original wire.
   */
  lemma ArrivalReady(wires: Wires, buf: map<string, Partial>, a: Arrival)
    requires Oversized(wires) && GenuineArrival(wires, a) && BufferOk(wires, buf)
    ensures AfterFragment(buf, FragmentOf(wires, a), a.now).0 ==
              if Got(buf, a.id, a.now) + {a.i} == Indices(Count(|wires[a.id]|)) then Some(wires[a.id]) else None
  {
    PartIsGenuine(wires, buf, a);
    hide WithPart, FragmentOf, Got, Fresh, HoldsChunks, AllPresent, Joined, Indices, BufferOk;
  }

  /** And it adds its index to its own set, or clears a completed set, and touches no other. */
  lemma ArrivalBuffers(wires: Wires, buf: map<string, Partial>, a: Arrival)
    requires Oversized(wires) && GenuineArrival(wires, a) && BufferOk(wires, buf)
    ensures var (ready, after) := AfterFragment(buf, FragmentOf(wires, a), a.now);
            && (forall id :: id != a.id ==> (id in after <==> id in Fresh(buf, a.now)))
            && (forall id :: id != a.id && id in after ==> after[id] == buf[id])
            && (a.id in after <==> ready.None?)
            && (a.id in after ==>
                  && after[a.id].parts.Keys == Got(buf, a.id, a.now) + {a.i}
                  && after[a.id].firstMs == if a.id in Fresh(buf, a.now) then buf[a.id].firstMs else a.now)
  {
    PartIsGenuine(wires, buf, a);
    hide WithPart, FragmentOf, Got, HoldsChunks, AllPresent, Joined, Indices, BufferOk;
  }

  /** An incomplete set in the buffer: what has been collected, and since when. */
  ghost predicate Holds(buf: map<string, Partial>, id: string, got: set<nat>, since: int) {
    id in buf && buf[id].parts.Keys == got && buf[id].firstMs == since
  }

  /** The same, seen from one set: it collects its own indices and keeps its clock. */
  lemma ArrivalOnSet(wires: Wires, buf: map<string, Partial>, a: Arrival, id: string, got: set<nat>, since: int)
    requires Oversized(wires) && GenuineArrival(wires, a) && BufferOk(wires, buf) && id in wires
    requires if id in Fresh(buf, a.now) then Holds(buf, id, got, since)
             else got == {} && a.id == id && since == a.now
    requires got + (if a.id == id then {a.i} else {}) != Indices(Count(|wires[id]|))
    ensures var (ready, after) := AfterFragment(buf, FragmentOf(wires, a), a.now);
            && Holds(after, id, got + (if a.id == id then {a.i} else {}), since)
            && (a.id == id ==> ready.None?)
  {
    ArrivalBuffers(wires, buf, a);
    ArrivalReady(wires, buf, a);
    assert Got(buf, id, a.now) == got;
    assert a.id != id ==> got + {} == got;
    hide AfterFragment, FragmentOf, BufferOk, Oversized, GenuineArrival, Indices;
  }

  lemma ArrivalKeepsBuffer(wires: Wires, buf: map<string, Partial>, a: Arrival)
    requires Oversized(wires) && GenuineArrival(wires, a) && BufferOk(wires, buf)
    ensures BufferOk(wires, AfterFragment(buf, FragmentOf(wires, a), a.now).1)
  {
    PartIsGenuine(wires, buf, a);
    hide WithPart, FragmentOf, Got, HoldsChunks, AllPresent, Joined, Indices;
  }

  // ── Whole runs ────────────────────────────────────────────────────────────

  ghost predicate GenuineRun(wires: Wires, run: seq<Arrival>) {
    && Oversized(wires)
    && (forall j :: 0 <= j < |run| ==> GenuineArrival(wires, run[j]))
    && (forall j, k :: 0 <= j <= k < |run| ==> run[j].now <= run[k].now)
  }

  /** The buffer after the first `j` arrivals. */
  ghost function BufferAfter(wires: Wires, run: seq<Arrival>, j: nat): map<string, Partial>
    requires GenuineRun(wires, run) && j <= |run|
  {
    if j == 0 then map[]
    else AfterFragment(BufferAfter(wires, run, j - 1), FragmentOf(wires, run[j - 1]), run[j - 1].now).1
  }

  /** What arrival `j` makes ready. */
  ghost function ReadyAt(wires: Wires, run: seq<Arrival>, j: nat): Option<string>
    requires GenuineRun(wires, run) && j < |run|
  {
    AfterFragment(BufferAfter(wires, run, j), FragmentOf(wires, run[j]), run[j].now).0
  }

  /** The indices of `id` among arrivals `from .. to`. */
  ghost function Arrived(run: seq<Arrival>, id: string, from: nat, to: nat): set<nat>
    requires from <= to <= |run|
  {
    set j | from <= j < to && run[j].id == id :: run[j].i
  }

  lemma EmptyBufferOk(wires: Wires)
    ensures BufferOk(wires, map[])
  {
  }

  lemma {:induction false} RunKeepsBuffer(wires: Wires, run: seq<Arrival>, j: nat)
    requires GenuineRun(wires, run) && j <= |run|
    ensures BufferOk(wires, BufferAfter(wires, run, j))
  {
    hide AfterFragment, BufferOk;
    EmptyBufferOk(wires);
    if j > 0 {
      RunKeepsBuffer(wires, run, j - 1);
      ArrivalKeepsBuffer(wires, BufferAfter(wires, run, j - 1), run[j - 1]);
    }
  }

  /** From here on `id` starts afresh: nothing of it is buffered when arrival `first` comes in. */
  ghost predicate StartsAt(wires: Wires, run: seq<Arrival>, id: string, first: nat)
    requires GenuineRun(wires, run) && first < |run|
  {
    run[first].id == id && id !in Fresh(BufferAfter(wires, run, first), run[first].now)
  }

  lemma RunArrival(wires: Wires, run: seq<Arrival>, j: nat)
    requires GenuineRun(wires, run) && j < |run|
    ensures Oversized(wires) && GenuineArrival(wires, run[j])
  {
  }

  /** The run so far: set `id` starts at `first`, is in time up to `j`, and not complete by `upTo`. */
  ghost predicate Underway(wires: Wires, run: seq<Arrival>, id: string, first: nat, j: nat, upTo: nat) {
    && GenuineRun(wires, run) && first <= j < |run| && first <= upTo <= |run|
    && StartsAt(wires, run, id, first)
    && run[j].now - run[first].now < REASSEMBLY_TTL_MS
    && id in wires && Arrived(run, id, first, upTo) != Indices(Count(|wires[id]|))
  }

  ghost predicate Collected(wires: Wires, run: seq<Arrival>, id: string, first: nat, j: nat)
    requires GenuineRun(wires, run) && first <= j < |run|
  {
    && Holds(BufferAfter(wires, run, j + 1), id, Arrived(run, id, first, j + 1), run[first].now)
    && (run[j].id == id ==> ReadyAt(wires, run, j).None?)
  }

  /** What is buffered of `id` just before arrival `j`. */
  ghost predicate BufferedBefore(wires: Wires, run: seq<Arrival>, id: string, first: nat, j: nat)
    requires GenuineRun(wires, run) && first <= j < |run|
  {
    var buf := BufferAfter(wires, run, j);
    if id in Fresh(buf, run[j].now) then Holds(buf, id, Arrived(run, id, first, j), run[first].now)
    else Arrived(run, id, first, j) == {} && j == first && run[j].id == id
  }

  /** One arrival on, whichever set it belongs to. */
  lemma CollectOne(wires: Wires, run: seq<Arrival>, id: string, first: nat, j: nat)
    requires Underway(wires, run, id, first, j, j + 1) && BufferedBefore(wires, run, id, first, j)
    ensures Collected(wires, run, id, first, j)
  {
    hide Count, AfterFragment, BufferOk, StartsAt, Fresh, Got, Arrived, Indices, Holds, FragmentOf;
    RunArrival(wires, run, j);
    RunKeepsBuffer(wires, run, j);
    ArrivedNext(run, id, first, j);
    var buf, a, got := BufferAfter(wires, run, j), run[j], Arrived(run, id, first, j);
    assert BufferAfter(wires, run, j + 1) == AfterFragment(buf, FragmentOf(wires, a), a.now).1;
    ArrivalOnSet(wires, buf, a, id, got, run[first].now);
    hide GenuineRun, Oversized, GenuineArrival, BufferAfter, Underway;
  }

  /** Until a set completes, its buffer is what has arrived of it since its first fragment. */
  lemma {:induction false} Collecting(wires: Wires, run: seq<Arrival>, id: string, first: nat, j: nat)
    requires Underway(wires, run, id, first, j, j + 1)
    ensures Collected(wires, run, id, first, j)
    decreases j, 1
  {
    hide BufferedBefore, Collected;
    BufferedSoFar(wires, run, id, first, j, j + 1);
    CollectOne(wires, run, id, first, j);
  }

  lemma {:induction false} BufferedSoFar(wires: Wires, run: seq<Arrival>, id: string, first: nat, j: nat, upTo: nat)
    requires Underway(wires, run, id, first, j, upTo) && j <= upTo
    ensures BufferedBefore(wires, run, id, first, j)
    decreases j, 0
  {
    hide Count, BufferAfter, AfterFragment, Holds, Indices, StartsAt, GenuineArrival;
    if first < j {
      NotYetComplete(wires, run, id, first, j, upTo);
      assert run[j - 1].now <= run[j].now;
      Collecting(wires, run, id, first, j - 1);
      hide Arrived, GenuineRun, Fresh, Underway, ReadyAt;
      HeldIsFresh(BufferAfter(wires, run, j), id, Arrived(run, id, first, j), run[first].now, run[j].now);
    } else {
      NothingAtFirst(wires, run, id, first);
    }
  }

  lemma NothingAtFirst(wires: Wires, run: seq<Arrival>, id: string, first: nat)
    requires GenuineRun(wires, run) && first < |run| && StartsAt(wires, run, id, first)
    ensures BufferedBefore(wires, run, id, first, first)
  {
    hide GenuineRun, BufferAfter;
    assert Arrived(run, id, first, first) == {};
  }

  lemma HeldIsFresh(buf: map<string, Partial>, id: string, got: set<nat>, since: int, now: int)
    requires Holds(buf, id, got, since) && now - since < REASSEMBLY_TTL_MS
    ensures id in Fresh(buf, now)
  {
  }

  lemma ArrivedNext(run: seq<Arrival>, id: string, from: nat, to: nat)
    requires from <= to < |run|
    ensures Arrived(run, id, from, to + 1) == Arrived(run, id, from, to) + if run[to].id == id then {run[to].i} else {}
  {
  }

  lemma ArrivedInRange(wires: Wires, run: seq<Arrival>, id: string, from: nat, to: nat)
    requires GenuineRun(wires, run) && from <= to <= |run| && id in wires
    ensures Arrived(run, id, from, to) <= Indices(Count(|wires[id]|))
  {
  }

  /**
   Fragmentation is transparent: however the sets are interleaved, permuted and duplicated, a set
   whose fragments all arrive within the TTL of its first yields nothing before its last missing
   index, and then exactly the original wire.
   */
  lemma Transparent(wires: Wires, run: seq<Arrival>, id: string, first: nat, last: nat)
    requires Underway(wires, run, id, first, last, last)
    requires Arrived(run, id, first, last + 1) == Indices(Count(|wires[id]|))
    ensures ReadyAt(wires, run, last) == Some(wires[id])
    ensures forall j :: first <= j < last && run[j].id == id ==> ReadyAt(wires, run, j) == None
  {
    forall j | first <= j < last && run[j].id == id ensures ReadyAt(wires, run, j) == None {
      NothingYet(wires, run, id, first, j, last);
    }
    LastArrivalCompletes(wires, run, id, first, last);
  }

  lemma NothingYet(wires: Wires, run: seq<Arrival>, id: string, first: nat, j: nat, last: nat)
    requires Underway(wires, run, id, first, last, last) && first <= j < last && run[j].id == id
    ensures ReadyAt(wires, run, j) == None
  {
    NotYetComplete(wires, run, id, first, j + 1, last);
    assert run[j].now <= run[last].now;
    Collecting(wires, run, id, first, j);
  }

  lemma LastArrivalCompletes(wires: Wires, run: seq<Arrival>, id: string, first: nat, last: nat)
    requires Underway(wires, run, id, first, last, last)
    requires Arrived(run, id, first, last + 1) == Indices(Count(|wires[id]|))
    ensures ReadyAt(wires, run, last) == Some(wires[id])
  {
    RunArrival(wires, run, last);
    RunKeepsBuffer(wires, run, last);
    ArrivedNext(run, id, first, last);
    BufferedSoFar(wires, run, id, first, last, last);
    assert Got(BufferAfter(wires, run, last), id, run[last].now) == Arrived(run, id, first, last);
    hide AfterFragment, BufferOk, Oversized, GenuineArrival, StartsAt, Arrived, Indices, BufferAfter, Got;
    ArrivalReady(wires, BufferAfter(wires, run, last), run[last]);
  }

  lemma NotYetComplete(wires: Wires, run: seq<Arrival>, id: string, from: nat, j: nat, to: nat)
    requires GenuineRun(wires, run) && from <= j <= to <= |run| && id in wires
    requires Arrived(run, id, from, to) != Indices(Count(|wires[id]|))
    ensures Arrived(run, id, from, j) != Indices(Count(|wires[id]|))
  {
    ArrivedInRange(wires, run, id, from, to);
    assert Arrived(run, id, from, j) <= Arrived(run, id, from, to);
  }

  /** Not deduplicated: a set delivered in full a second time is handed over a second time. */
  lemma CompleteSetIsForgotten(wires: Wires, buf: map<string, Partial>, a: Arrival)
    requires Oversized(wires) && GenuineArrival(wires, a) && BufferOk(wires, buf)
    requires AfterFragment(buf, FragmentOf(wires, a), a.now).0.Some?
    ensures forall now :: Got(AfterFragment(buf, FragmentOf(wires, a), a.now).1, a.id, now) == {}
  {
    ArrivalBuffers(wires, buf, a);
    hide AfterFragment;
  }
}
