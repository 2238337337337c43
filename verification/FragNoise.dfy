/** Reassembly amid foreign traffic: noise under other ids is inert, and a bad index under a known id blocks it. */
module FragNoise {
  import opened Wrappers
  import opened Frag

  /** What a topic delivers: one of our fragments, or anything else. */
  datatype Traffic = Ours(a: Arrival) | Foreign(c: Content, at: int)

  function Time(t: Traffic): int {
    if t.Ours? then t.a.now else t.at
  }

  ghost function ContentOf(wires: Wires, t: Traffic): Content
    requires t.Ours? ==> GenuineArrival(wires, t.a)
  {
    if t.Ours? then Parsed(FragmentOf(wires, t.a)) else t.c
  }

  /** Ours are genuine, the rest is any content but a tagged fragment under one of our ids; time does not run back. */
  ghost predicate Mixed(wires: Wires, traffic: seq<Traffic>) {
    && Oversized(wires)
    && (forall j :: 0 <= j < |traffic| && traffic[j].Ours? ==> GenuineArrival(wires, traffic[j].a))
    && (forall j :: 0 <= j < |traffic| && traffic[j].Foreign? ==> IsForeign(wires, traffic[j].c))
    && (forall j, k :: 0 <= j <= k < |traffic| ==> Time(traffic[j]) <= Time(traffic[k]))
  }

  ghost predicate IsForeign(wires: Wires, c: Content) {
    c.Plain? || c.f.t != TAG || c.f.id !in wires
  }

  ghost function NoisyBuffer(wires: Wires, traffic: seq<Traffic>, k: nat): map<string, Partial>
    requires Mixed(wires, traffic) && k <= |traffic|
  {
    if k == 0 then map[]
    else AfterContent(NoisyBuffer(wires, traffic, k - 1), ContentOf(wires, traffic[k - 1]), Time(traffic[k - 1])).1
  }

  ghost function NoisyReady(wires: Wires, traffic: seq<Traffic>, k: nat): Option<Content>
    requires Mixed(wires, traffic) && k < |traffic|
  {
    AfterContent(NoisyBuffer(wires, traffic, k), ContentOf(wires, traffic[k]), Time(traffic[k])).0
  }

  /** The same traffic without the noise. */
  ghost function OursOnly(traffic: seq<Traffic>): seq<Arrival> {
    if traffic == [] then []
    else
      var last := traffic[|traffic| - 1];
      OursOnly(traffic[..|traffic| - 1]) + (if last.Ours? then [last.a] else [])
  }

  lemma {:induction false} OursPrefix(traffic: seq<Traffic>, k: nat)
    requires k <= |traffic|
    ensures OursOnly(traffic[..k]) <= OursOnly(traffic)
    ensures k < |traffic| && traffic[k].Ours? ==>
              var i := |OursOnly(traffic[..k])|; i < |OursOnly(traffic)| && OursOnly(traffic)[i] == traffic[k].a
    decreases |traffic|
  {
    var last := |traffic| - 1;
    if k == |traffic| {
      assert traffic[..k] == traffic;
    } else if k < last {
      OursPrefix(traffic[..last], k);
      assert traffic[..last][..k] == traffic[..k];
    }
  }

  lemma GenuineSnoc(wires: Wires, run: seq<Arrival>, a: Arrival)
    requires GenuineRun(wires, run) && GenuineArrival(wires, a) && forall i :: 0 <= i < |run| ==> run[i].now <= a.now
    ensures GenuineRun(wires, run + [a])
  {
    hide GenuineArrival, Oversized;
  }

  lemma MixedFront(wires: Wires, traffic: seq<Traffic>)
    requires Mixed(wires, traffic) && traffic != []
    ensures Mixed(wires, traffic[..|traffic| - 1])
    ensures |traffic| >= 2 ==> Time(traffic[|traffic| - 2]) <= Time(traffic[|traffic| - 1])
  {
    hide GenuineArrival, Oversized, IsForeign;
  }

  lemma {:induction false} OursAreGenuine(wires: Wires, traffic: seq<Traffic>)
    requires Mixed(wires, traffic)
    ensures GenuineRun(wires, OursOnly(traffic))
    ensures forall i :: 0 <= i < |OursOnly(traffic)| ==> OursOnly(traffic)[i].now <= Time(traffic[|traffic| - 1])
    decreases |traffic|
  {
    if traffic != [] {
      var last := |traffic| - 1;
      MixedFront(wires, traffic);
      if traffic[last].Ours? {
        OneOfOurs(wires, traffic, last);
      }
      hide Mixed, GenuineRun, GenuineArrival;
      OursAreGenuine(wires, traffic[..last]);
      if traffic[last].Ours? {
        GenuineSnoc(wires, OursOnly(traffic[..last]), traffic[last].a);
      } else {
        assert OursOnly(traffic) == OursOnly(traffic[..last]);
      }
    }
  }

  /** The two buffers hold the same live sets of ours. */
  ghost predicate SameLive(wires: Wires, noisy: map<string, Partial>, clean: map<string, Partial>, now: int) {
    forall id :: id in wires ==> LiveEntry(noisy, id, now) == LiveEntry(clean, id, now)
  }

  function LiveEntry(buf: map<string, Partial>, id: string, now: int): Option<Partial> {
    if id in buf && now - buf[id].firstMs < REASSEMBLY_TTL_MS then Some(buf[id]) else None
  }

  lemma SameLiveLater(wires: Wires, noisy: map<string, Partial>, clean: map<string, Partial>, now: int, later: int)
    requires SameLive(wires, noisy, clean, now) && now <= later
    ensures SameLive(wires, noisy, clean, later)
  {
    forall id | id in wires ensures LiveEntry(noisy, id, later) == LiveEntry(clean, id, later) {
      assert LiveEntry(noisy, id, now) == LiveEntry(clean, id, now);
    }
  }

  lemma ForeignIsInert(wires: Wires, noisy: map<string, Partial>, clean: map<string, Partial>, c: Content, now: int)
    requires SameLive(wires, noisy, clean, now) && IsForeign(wires, c)
    ensures SameLive(wires, AfterContent(noisy, c, now).1, clean, now)
  {
    var after := AfterContent(noisy, c, now).1;
    forall id | id in wires ensures LiveEntry(after, id, now) == LiveEntry(clean, id, now) {
      assert LiveEntry(noisy, id, now) == LiveEntry(clean, id, now);
    }
  }

  lemma OursActsAlike(wires: Wires, noisy: map<string, Partial>, clean: map<string, Partial>, a: Arrival)
    requires SameLive(wires, noisy, clean, a.now) && GenuineArrival(wires, a)
    ensures var f := FragmentOf(wires, a);
            && AfterFragment(noisy, f, a.now).0 == AfterFragment(clean, f, a.now).0
            && SameLive(wires, AfterFragment(noisy, f, a.now).1, AfterFragment(clean, f, a.now).1, a.now)
  {
    var f := FragmentOf(wires, a);
    assert LiveEntry(noisy, a.id, a.now) == LiveEntry(clean, a.id, a.now);
    assert WithPart(noisy, f, a.now) == WithPart(clean, f, a.now);
    hide FragmentOf, WithPart, Joined, AllPresent;
    var x, y := AfterFragment(noisy, f, a.now).1, AfterFragment(clean, f, a.now).1;
    forall id | id in wires ensures LiveEntry(x, id, a.now) == LiveEntry(y, id, a.now) {
      assert LiveEntry(noisy, id, a.now) == LiveEntry(clean, id, a.now);
    }
  }

  /** Where item `k` stands among ours. */
  ghost function Rank(traffic: seq<Traffic>, k: nat): nat
    requires k <= |traffic|
  {
    |OursOnly(traffic[..k])|
  }

  lemma RankNext(traffic: seq<Traffic>, k: nat)
    requires k < |traffic|
    ensures Rank(traffic, k + 1) == Rank(traffic, k) + (if traffic[k].Ours? then 1 else 0)
  {
    assert traffic[..k + 1][..k] == traffic[..k];
  }

  lemma TimeOrder(wires: Wires, traffic: seq<Traffic>, j: nat, k: nat)
    requires Mixed(wires, traffic) && j <= k < |traffic|
    ensures Time(traffic[j]) <= Time(traffic[k])
  {
  }

  lemma OneOfOurs(wires: Wires, traffic: seq<Traffic>, k: nat)
    requires Mixed(wires, traffic) && k < |traffic| && traffic[k].Ours?
    ensures Oversized(wires) && GenuineArrival(wires, traffic[k].a)
  {
  }

  lemma OursStep(wires: Wires, traffic: seq<Traffic>, k: nat, run: seq<Arrival>, i: nat)
    requires Mixed(wires, traffic) && k < |traffic| && traffic[k].Ours?
    requires GenuineRun(wires, run) && i < |run| && run[i] == traffic[k].a
    requires SameLive(wires, NoisyBuffer(wires, traffic, k), BufferAfter(wires, run, i), Time(traffic[k]))
    ensures SameLive(wires, NoisyBuffer(wires, traffic, k + 1), BufferAfter(wires, run, i + 1), Time(traffic[k]))
  {
    hide Mixed, GenuineRun, SameLive, AfterFragment, GenuineArrival, Oversized;
    OneOfOurs(wires, traffic, k);
    var noisy, clean, a := NoisyBuffer(wires, traffic, k), BufferAfter(wires, run, i), traffic[k].a;
    hide FragmentOf;
    assert NoisyBuffer(wires, traffic, k + 1) == AfterFragment(noisy, FragmentOf(wires, a), a.now).1;
    assert BufferAfter(wires, run, i + 1) == AfterFragment(clean, FragmentOf(wires, a), a.now).1;
    hide NoisyBuffer, BufferAfter;
    OursActsAlike(wires, noisy, clean, a);
  }

  lemma NoiseStep(wires: Wires, traffic: seq<Traffic>, k: nat, clean: map<string, Partial>)
    requires Mixed(wires, traffic) && k < |traffic| && traffic[k].Foreign?
    requires SameLive(wires, NoisyBuffer(wires, traffic, k), clean, Time(traffic[k]))
    ensures SameLive(wires, NoisyBuffer(wires, traffic, k + 1), clean, Time(traffic[k]))
  {
    hide AfterContent, SameLive;
    ForeignIsInert(wires, NoisyBuffer(wires, traffic, k), clean, traffic[k].c, Time(traffic[k]));
  }

  lemma NothingYet(wires: Wires, traffic: seq<Traffic>, now: int)
    requires Mixed(wires, traffic) && GenuineRun(wires, OursOnly(traffic))
    ensures Rank(traffic, 0) == 0
    ensures SameLive(wires, NoisyBuffer(wires, traffic, 0), BufferAfter(wires, OursOnly(traffic), 0), now)
  {
    hide Mixed, GenuineRun;
  }

  /** Whenever an item comes in, the noisy buffer and the clean one hold the same live sets. */
  lemma {:induction false} NoiseIsInert(wires: Wires, traffic: seq<Traffic>, k: nat, now: int)
    requires Mixed(wires, traffic) && k <= |traffic| && (k > 0 ==> Time(traffic[k - 1]) <= now)
    requires GenuineRun(wires, OursOnly(traffic))
    ensures Rank(traffic, k) <= |OursOnly(traffic)|
    ensures var run := OursOnly(traffic);
            SameLive(wires, NoisyBuffer(wires, traffic, k), BufferAfter(wires, run, Rank(traffic, k)), now)
  {
    hide Mixed, GenuineRun, SameLive, NoisyBuffer, BufferAfter, OursOnly, Rank;
    RankAmongOurs(traffic, k);
    if k == 0 {
      NothingYet(wires, traffic, now);
    } else {
      var run, i, at := OursOnly(traffic), Rank(traffic, k - 1), Time(traffic[k - 1]);
      RankAmongOurs(traffic, k - 1);
      RankNext(traffic, k - 1);
      if k > 1 {
        TimeOrder(wires, traffic, k - 2, k - 1);
      }
      NoiseIsInert(wires, traffic, k - 1, at);
      if traffic[k - 1].Ours? {
        OursStep(wires, traffic, k - 1, run, i);
      } else {
        NoiseStep(wires, traffic, k - 1, BufferAfter(wires, run, i));
      }
      SameLiveLater(wires, NoisyBuffer(wires, traffic, k), BufferAfter(wires, run, Rank(traffic, k)), at, now);
    }
  }

  lemma RankAmongOurs(traffic: seq<Traffic>, k: nat)
    requires k <= |traffic|
    ensures Rank(traffic, k) <= |OursOnly(traffic)|
    ensures k < |traffic| && traffic[k].Ours? ==>
              Rank(traffic, k) < |OursOnly(traffic)| && OursOnly(traffic)[Rank(traffic, k)] == traffic[k].a
  {
    OursPrefix(traffic, k);
  }

  /**
    * Whatever else the topic carries under other ids, each of our fragments makes ready exactly what it would
    * without the noise; so everything about genuine runs holds amid noise.
    */
  lemma NoiseChangesNothing(wires: Wires, traffic: seq<Traffic>, k: nat)
    requires Mixed(wires, traffic) && k < |traffic| && traffic[k].Ours?
    ensures GenuineRun(wires, OursOnly(traffic)) && Rank(traffic, k) < |OursOnly(traffic)|
    ensures var clean := ReadyAt(wires, OursOnly(traffic), Rank(traffic, k));
            NoisyReady(wires, traffic, k) == if clean.Some? then Some(Plain(clean.value)) else None
  {
    OursAreGenuine(wires, traffic);
    OursPrefix(traffic, k);
    NoiseIsInert(wires, traffic, k, Time(traffic[k]));
    var noisy := NoisyBuffer(wires, traffic, k);
    var clean := BufferAfter(wires, OursOnly(traffic), Rank(traffic, k));
    hide OursOnly, SameLive, AfterFragment, NoisyBuffer, BufferAfter;
    OursActsAlike(wires, noisy, clean, traffic[k].a);
  }

  // ── A whole set amid noise ────────────────────────────────────────────────

  ghost predicate OfSet(t: Traffic, id: string) {
    t.Ours? && t.a.id == id
  }

  /** One of the items `first` to `j` is fragment `i` of the set. */
  ghost predicate Brings(traffic: seq<Traffic>, id: string, i: nat, first: nat, j: nat)
    requires j < |traffic|
  {
    exists m :: first <= m <= j && OfSet(traffic[m], id) && traffic[m].a.i == i
  }

  /**
    * Nothing of the set is buffered when item `first` brings the first of it, and item `j` brings its last
    * missing index, within the TTL.
    */
  ghost predicate SetArrives(wires: Wires, traffic: seq<Traffic>, id: string, first: nat, j: nat) {
    && Mixed(wires, traffic) && first <= j < |traffic| && id in wires
    && OfSet(traffic[first], id) && OfSet(traffic[j], id)
    && LiveEntry(NoisyBuffer(wires, traffic, first), id, Time(traffic[first])).None?
    && Time(traffic[j]) - Time(traffic[first]) < REASSEMBLY_TTL_MS
    && (forall i: nat :: i < Count(|wires[id]|) ==> Brings(traffic, id, i, first, j))
    && (forall m :: first <= m < j && OfSet(traffic[m], id) ==> traffic[m].a.i != traffic[j].a.i)
  }

  lemma RankGrows(traffic: seq<Traffic>, k: nat, l: nat)
    requires k <= l <= |traffic|
    ensures Rank(traffic, k) <= Rank(traffic, l)
    ensures k < l && traffic[k].Ours? ==> Rank(traffic, k) < Rank(traffic, l)
  {
    OursPrefix(traffic[..l], k);
    assert traffic[..l][..k] == traffic[..k];
  }

  lemma {:induction false} Unrank(traffic: seq<Traffic>, p: nat) returns (m: nat)
    requires p < |OursOnly(traffic)|
    ensures m < |traffic| && traffic[m].Ours? && Rank(traffic, m) == p && OursOnly(traffic)[p] == traffic[m].a
    decreases |traffic|
  {
    var last := |traffic| - 1;
    if p < |OursOnly(traffic[..last])| {
      m := Unrank(traffic[..last], p);
      assert traffic[..last][..m] == traffic[..m];
    } else {
      m := last;
    }
  }

  /** Between two ranks lies an item between the two places. */
  lemma UnrankWithin(traffic: seq<Traffic>, p: nat, from: nat, upTo: nat) returns (m: nat)
    requires from <= upTo <= |traffic| && Rank(traffic, from) <= p < Rank(traffic, upTo)
    ensures from <= m < upTo && traffic[m].Ours? && p < |OursOnly(traffic)| && OursOnly(traffic)[p] == traffic[m].a
  {
    OursPrefix(traffic, upTo);
    m := Unrank(traffic, p);
    if m < from {
      RankGrows(traffic, m, from);
    }
    if m >= upTo {
      RankGrows(traffic, upTo, m);
    }
  }

  lemma {:induction false} UnseenIsUnbuffered(wires: Wires, run: seq<Arrival>, k: nat, id: string)
    requires GenuineRun(wires, run) && k <= |run| && forall p :: 0 <= p < k ==> run[p].id != id
    ensures id !in BufferAfter(wires, run, k)
  {
    if k > 0 {
      RunArrival(wires, run, k - 1);
      hide GenuineRun, AfterFragment, GenuineArrival, Oversized, Chunk, Count;
      UnseenIsUnbuffered(wires, run, k - 1, id);
      OthersStayOut(BufferAfter(wires, run, k - 1), FragmentOf(wires, run[k - 1]), run[k - 1].now, id);
    }
  }

  lemma OthersStayOut(buf: map<string, Partial>, f: Fragment, now: int, id: string)
    requires id !in buf && f.id != id
    ensures id !in AfterFragment(buf, f, now).1
  {
    hide WithPart, AllPresent, Joined;
  }

  lemma SetStarts(wires: Wires, traffic: seq<Traffic>, id: string, first: nat, j: nat)
    requires SetArrives(wires, traffic, id, first, j) && GenuineRun(wires, OursOnly(traffic))
    ensures Rank(traffic, first) < |OursOnly(traffic)| && StartsAt(wires, OursOnly(traffic), id, Rank(traffic, first))
  {
    if first > 0 {
      TimeOrder(wires, traffic, first - 1, first);
    }
    RankAmongOurs(traffic, first);
    NoiseIsInert(wires, traffic, first, Time(traffic[first]));
    var noisy := NoisyBuffer(wires, traffic, first);
    var clean := BufferAfter(wires, OursOnly(traffic), Rank(traffic, first));
    assert LiveEntry(noisy, id, Time(traffic[first])) == LiveEntry(clean, id, Time(traffic[first]));
    hide Mixed, GenuineRun, NoisyBuffer, BufferAfter, OursOnly, Rank, Brings;
  }

  /** A set of which nothing has come before is not buffered. */
  lemma UnseenIsNotLive(wires: Wires, traffic: seq<Traffic>, first: nat, id: string, now: int)
    requires Mixed(wires, traffic) && first <= |traffic| && id in wires
    requires forall m :: 0 <= m < first ==> !OfSet(traffic[m], id)
    requires first > 0 ==> Time(traffic[first - 1]) <= now
    ensures LiveEntry(NoisyBuffer(wires, traffic, first), id, now).None?
  {
    OursAreGenuine(wires, traffic);
    NoiseIsInert(wires, traffic, first, now);
    var run, f := OursOnly(traffic), Rank(traffic, first);
    forall p | 0 <= p < f ensures run[p].id != id {
      assert traffic[..0] == [];
      var m := UnrankWithin(traffic, p, 0, first);
    }
    UnseenIsUnbuffered(wires, run, f, id);
    var noisy, clean := NoisyBuffer(wires, traffic, first), BufferAfter(wires, run, f);
    assert LiveEntry(noisy, id, now) == LiveEntry(clean, id, now);
    hide Mixed, GenuineRun, NoisyBuffer, BufferAfter, OursOnly, Rank;
  }

  /** What item `m` brings has arrived among ours by the rank of `j`. */
  lemma BroughtHasArrived(traffic: seq<Traffic>, id: string, first: nat, j: nat, m: nat)
    requires first <= m <= j < |traffic| && OfSet(traffic[m], id) && traffic[j].Ours?
    ensures Rank(traffic, first) <= Rank(traffic, j) < |OursOnly(traffic)|
    ensures traffic[m].a.i in Arrived(OursOnly(traffic), id, Rank(traffic, first), Rank(traffic, j) + 1)
  {
    OursPrefix(traffic, j);
    OursPrefix(traffic, m);
    RankGrows(traffic, first, m);
    RankGrows(traffic, m, j);
    var p := Rank(traffic, m);
    assert OursOnly(traffic)[p].id == id;
    hide OursOnly;
  }

  lemma SetIsComplete(wires: Wires, traffic: seq<Traffic>, id: string, first: nat, j: nat)
    requires SetArrives(wires, traffic, id, first, j) && GenuineRun(wires, OursOnly(traffic))
    ensures var run, f, l := OursOnly(traffic), Rank(traffic, first), Rank(traffic, j);
            f <= l < |run| && Arrived(run, id, f, l + 1) == Indices(Count(|wires[id]|))
  {
    var run, f, l, n := OursOnly(traffic), Rank(traffic, first), Rank(traffic, j), Count(|wires[id]|);
    BroughtHasArrived(traffic, id, first, j, j);
    hide OursOnly, Rank;
    forall i | i in Indices(n) ensures i in Arrived(run, id, f, l + 1) {
      assert Brings(traffic, id, i, first, j);
      var m :| first <= m <= j && OfSet(traffic[m], id) && traffic[m].a.i == i;
      BroughtHasArrived(traffic, id, first, j, m);
    }
    assert Arrived(run, id, f, l + 1) <= Indices(n);
  }

  lemma LastWasMissing(wires: Wires, traffic: seq<Traffic>, id: string, first: nat, j: nat)
    requires SetArrives(wires, traffic, id, first, j)
    ensures var run, f, l := OursOnly(traffic), Rank(traffic, first), Rank(traffic, j);
            f <= l < |run| && Arrived(run, id, f, l) != Indices(Count(|wires[id]|))
  {
    var run, f, l := OursOnly(traffic), Rank(traffic, first), Rank(traffic, j);
    OursPrefix(traffic, j);
    RankGrows(traffic, first, j);
    hide OursOnly, Rank;
    forall p | f <= p < l && run[p].id == id ensures run[p].i != traffic[j].a.i {
      var m := UnrankWithin(traffic, p, first, j);
    }
    assert traffic[j].a.i !in Arrived(run, id, f, l);
    assert traffic[j].a.i in Indices(Count(|wires[id]|));
  }

  /**
    * Transparency on the open topic: whatever else arrives under other ids, a set of which every index arrives
    * within the TTL of its first fragment is ready, as the original wire, when the last missing index comes in.
    */
  lemma WholeSetIsReady(wires: Wires, traffic: seq<Traffic>, id: string, first: nat, j: nat)
    requires SetArrives(wires, traffic, id, first, j)
    ensures NoisyReady(wires, traffic, j) == Some(Plain(wires[id]))
  {
    var run, f, l := OursOnly(traffic), Rank(traffic, first), Rank(traffic, j);
    NoiseChangesNothing(wires, traffic, j);
    OursPrefix(traffic, first);
    OursPrefix(traffic, j);
    SetIsComplete(wires, traffic, id, first, j);
    LastWasMissing(wires, traffic, id, first, j);
    SetStarts(wires, traffic, id, first, j);
    hide StartsAt, Arrived, Indices, NoisyReady, ReadyAt, Mixed, Brings;
    Transparent(wires, run, id, f, l);
  }

  // ── A foreign fragment under a known id ───────────────────────────────────

  /** A set that holds an index outside its own count. */
  ghost predicate Blocked(buf: map<string, Partial>, id: string, since: int) {
    && id in buf && buf[id].firstMs == since
    && exists i :: i in buf[id].parts && i >= buf[id].n
  }

  lemma IndexOutsideNeverCompletes(p: Partial, i: nat)
    requires i in p.parts && i >= p.n
    ensures !(|p.parts| == p.n && AllPresent(p.parts, p.n))
  {
    IndicesCount(p.n);
    var others := p.parts.Keys - {i};
    assert |others| == |p.parts| - 1;
    if Indices(p.n) <= others {
      SubsetIsSmaller(Indices(p.n), others);
    } else {
      assert !AllPresent(p.parts, p.n);
    }
  }

  /** Any fragment with an index at or above the count of its set blocks the set. */
  lemma BadIndexBlocks(buf: map<string, Partial>, f: Fragment, now: int)
    requires f.i >= WithPart(buf, f, now).n
    ensures AfterFragment(buf, f, now).0.None?
    ensures Blocked(AfterFragment(buf, f, now).1, f.id, WithPart(buf, f, now).firstMs)
  {
    var p := WithPart(buf, f, now);
    assert f.i in p.parts;
    IndexOutsideNeverCompletes(p, f.i);
    hide AllPresent, Joined;
  }

  lemma BlockStays(buf: map<string, Partial>, c: Content, now: int, id: string, since: int)
    requires Blocked(buf, id, since) && now - since < REASSEMBLY_TTL_MS
    ensures Blocked(AfterContent(buf, c, now).1, id, since)
    ensures c.Parsed? && c.f.t == TAG && c.f.id == id ==> AfterContent(buf, c, now).0.None?
  {
    var i :| i in buf[id].parts && i >= buf[id].n;
    if c.Parsed? && c.f.t == TAG {
      var p := WithPart(buf, c.f, now);
      if c.f.id == id {
        assert i in p.parts;
        IndexOutsideNeverCompletes(p, i);
      }
    }
    hide AllPresent, Joined;
  }

  ghost function BufferFrom(buf: map<string, Partial>, run: seq<(Content, int)>, k: nat): map<string, Partial>
    requires k <= |run|
  {
    if k == 0 then buf else AfterContent(BufferFrom(buf, run, k - 1), run[k - 1].0, run[k - 1].1).1
  }

  /** A blocked set yields nothing, whatever arrives, until its first fragment is past the TTL. */
  lemma {:induction false} BlockedUntilExpiry(buf: map<string, Partial>, run: seq<(Content, int)>, k: nat, id: string,
                                              since: int)
    requires Blocked(buf, id, since) && k <= |run|
    requires forall j :: 0 <= j < |run| ==> run[j].1 - since < REASSEMBLY_TTL_MS
    ensures Blocked(BufferFrom(buf, run, k), id, since)
    ensures k < |run| && run[k].0.Parsed? && run[k].0.f.t == TAG && run[k].0.f.id == id ==>
              AfterContent(BufferFrom(buf, run, k), run[k].0, run[k].1).0.None?
  {
    if k > 0 {
      BlockedUntilExpiry(buf, run, k - 1, id, since);
      BlockStays(BufferFrom(buf, run, k - 1), run[k - 1].0, run[k - 1].1, id, since);
    }
    hide Blocked, AfterContent;
    if k < |run| {
      BlockStays(BufferFrom(buf, run, k), run[k].0, run[k].1, id, since);
    }
  }

  // ── A forged fragment with an index in range ──────────────────────────────

  /** The parts have the lengths of the wire's chunks, whatever is in them. */
  ghost predicate ChunkSized(parts: map<nat, string>, wire: string) {
    forall i :: 0 <= i < Count(|wire|) ==> i in parts && |parts[i]| == |Chunk(wire, i)|
  }

  function Position(wire: string, k: nat): nat {
    Min(k * CHUNK_BYTES, |wire|)
  }

  lemma ChunkIs(wire: string, i: nat)
    requires i < Count(|wire|)
    ensures Position(wire, i) <= Position(wire, i + 1) <= |wire|
    ensures Chunk(wire, i) == wire[Position(wire, i)..Position(wire, i + 1)]
    ensures |Chunk(wire, i)| == Position(wire, i + 1) - Position(wire, i)
  {
  }

  lemma {:induction false} JoinedLength(parts: map<nat, string>, wire: string, k: nat)
    requires ChunkSized(parts, wire) && k <= Count(|wire|)
    ensures |Joined(parts, k)| == Position(wire, k)
  {
    if k > 0 {
      ChunkIs(wire, k - 1);
      hide Position, Chunk, Count;
      JoinedLength(parts, wire, k - 1);
    }
  }

  lemma {:induction false} JoinedPrefix(parts: map<nat, string>, k: nat, n: nat)
    requires k <= n && forall i :: 0 <= i < n ==> i in parts
    ensures Joined(parts, k) <= Joined(parts, n)
    decreases n
  {
    if k < n {
      JoinedPrefix(parts, k, n - 1);
    }
  }

  lemma JoinedNext(parts: map<nat, string>, i: nat)
    requires forall k :: 0 <= k <= i ==> k in parts
    ensures Joined(parts, i + 1) == Joined(parts, i) + parts[i]
  {
  }

  lemma SliceOfPrefix(wire: string, front: string, part: string)
    requires front + part <= wire
    ensures part == wire[|front|..|front| + |part|]
  {
  }

  lemma ChunkSizedHasAll(parts: map<nat, string>, wire: string)
    requires ChunkSized(parts, wire)
    ensures forall k :: 0 <= k < Count(|wire|) ==> k in parts
  {
  }

  lemma JoinedGivesPart(parts: map<nat, string>, wire: string, i: nat)
    requires ChunkSized(parts, wire) && i < Count(|wire|) && Joined(parts, Count(|wire|)) == wire
    ensures parts[i] == Chunk(wire, i)
  {
    hide Position, Chunk, Count, ChunkSized, Joined;
    ChunkSizedHasAll(parts, wire);
    JoinedLength(parts, wire, i);
    JoinedLength(parts, wire, i + 1);
    JoinedPrefix(parts, i + 1, Count(|wire|));
    JoinedNext(parts, i);
    ChunkIs(wire, i);
    SliceOfPrefix(wire, Joined(parts, i), parts[i]);
  }

  /** A full set of chunk-sized parts joins to the wire exactly if every part is the wire's own chunk. */
  lemma JoinsToWireExactly(parts: map<nat, string>, wire: string)
    requires ChunkSized(parts, wire) && parts.Keys == Indices(Count(|wire|))
    ensures Joined(parts, Count(|wire|)) == wire <==> HoldsChunks(parts, wire)
  {
    var n := Count(|wire|);
    if Joined(parts, n) == wire {
      forall i | i in parts ensures i < n && parts[i] == Chunk(wire, i) {
        JoinedGivesPart(parts, wire, i);
      }
    }
    if HoldsChunks(parts, wire) {
      ChunksConcatenate(parts, wire, n);
    }
  }

  /** A fragment that completes a chunk-sized set hands over a text, and the wire exactly if no part is forged. */
  lemma CompletesExactly(buf: map<string, Partial>, f: Fragment, now: int, wire: string)
    requires var p := WithPart(buf, f, now);
             p.n == Count(|wire|) && p.parts.Keys == Indices(p.n) && ChunkSized(p.parts, wire)
    ensures var ready := AfterFragment(buf, f, now).0;
            ready.Some? && (ready.value == wire <==> HoldsChunks(WithPart(buf, f, now).parts, wire))
  {
    var p := WithPart(buf, f, now);
    IndicesCount(p.n);
    assert |p.parts| == |p.parts.Keys|;
    JoinsToWireExactly(p.parts, wire);
    hide WithPart, ChunkSized, HoldsChunks, Joined, Count;
  }

  /** The failing input: in place of the last missing fragment, one of its length with other bytes. */
  lemma ForgeryCompletes(wires: Wires, buf: map<string, Partial>, a: Arrival, d: string)
    requires Oversized(wires) && GenuineArrival(wires, a) && BufferOk(wires, buf)
    requires Got(buf, a.id, a.now) + {a.i} == Indices(Count(|wires[a.id]|))
    requires |d| == |Chunk(wires[a.id], a.i)| && d != Chunk(wires[a.id], a.i)
    ensures var ready := AfterFragment(buf, FragmentOf(wires, a).(d := d), a.now).0;
            ready.Some? && ready.value != wires[a.id]
  {
    var wire, forged := wires[a.id], FragmentOf(wires, a).(d := d);
    PartFields(wires, buf, a);
    ForgedPart(wires, buf, a, d);
    hide WithPart, BufferOk, Got, Chunk, Count, AfterFragment, FragmentOf;
    CompletesExactly(buf, forged, a.now, wire);
  }

  lemma ForgedPart(wires: Wires, buf: map<string, Partial>, a: Arrival, d: string)
    requires GenuineArrival(wires, a) && |d| == |Chunk(wires[a.id], a.i)| && d != Chunk(wires[a.id], a.i)
    requires var p := WithPart(buf, FragmentOf(wires, a), a.now);
             p.n == Count(|wires[a.id]|) && p.parts.Keys == Indices(p.n) && HoldsChunks(p.parts, wires[a.id])
    ensures var q := WithPart(buf, FragmentOf(wires, a).(d := d), a.now);
            && q.n == Count(|wires[a.id]|) && q.parts.Keys == Indices(q.n)
            && ChunkSized(q.parts, wires[a.id]) && !HoldsChunks(q.parts, wires[a.id])
  {
    hide HoldsChunks, ChunkSized, Chunk, Count, Indices;
    var p := WithPart(buf, FragmentOf(wires, a), a.now);
    assert WithPart(buf, FragmentOf(wires, a).(d := d), a.now) == p.(parts := p.parts[a.i := d]);
    OneForged(p.parts, wires[a.id], a.i, d);
  }

  lemma OneForged(parts: map<nat, string>, wire: string, i: nat, d: string)
    requires parts.Keys == Indices(Count(|wire|)) && HoldsChunks(parts, wire)
    requires i < Count(|wire|) && |d| == |Chunk(wire, i)| && d != Chunk(wire, i)
    ensures var forged := parts[i := d];
            forged.Keys == Indices(Count(|wire|)) && ChunkSized(forged, wire) && !HoldsChunks(forged, wire)
  {
    hide Chunk, Count;
    var forged := parts[i := d];
    forall k | 0 <= k < Count(|wire|) ensures k in forged && |forged[k]| == |Chunk(wire, k)| {
      assert k in Indices(Count(|wire|));
    }
    assert i in forged && forged[i] == d;
  }

  /** As long as the set is still open, the genuine fragment of the same index undoes the forgery. */
  lemma GenuineRepairs(wires: Wires, buf: map<string, Partial>, a: Arrival)
    requires GenuineArrival(wires, a) && LiveEntry(buf, a.id, a.now).Some?
    requires HoldsChunks(buf[a.id].parts - {a.i}, wires[a.id])
    ensures HoldsChunks(WithPart(buf, FragmentOf(wires, a), a.now).parts, wires[a.id])
  {
    var parts := WithPart(buf, FragmentOf(wires, a), a.now).parts;
    assert parts == buf[a.id].parts[a.i := Chunk(wires[a.id], a.i)];
    forall i | i in parts ensures i < Count(|wires[a.id]|) && parts[i] == Chunk(wires[a.id], i) {
      if i != a.i {
        assert i in buf[a.id].parts - {a.i};
      }
    }
  }
}
