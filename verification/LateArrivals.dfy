/**
 How long a message that was overtaken can still arrive: a side forgets a page it passed over only
 after the TTL, or after as many live pages were passed as it has room for.
 */
module LateArrivals {
  import opened Wrappers
  import opened SymbolicCrypto
  import opened RatchetSpec
  import opened SkippedKeys
  import opened Epochs
  import opened KeyAgreement
  import opened Receiver
  import opened Conversation
  import opened Runs
  import opened Guarantees

  const WEEK_MS: int := 604_800_000
  /** How many passed pages a side has room for, and how many one delivery may pass. */
  const ROOM: nat := 2000
  const REACH: nat := 1000

  /** A page that a delivery passed over, and when. */
  datatype Pass = Pass(place: Place, at: int)

  ghost function Gap(d: KeyId, from: nat, until: nat, now: int): (g: seq<Pass>)
    ensures |g| == SatSub(until, from)
  {
    seq(SatSub(until, from), i requires 0 <= i < SatSub(until, from) => Pass((d, from + i), now))
  }

  /** What is left of the chain being read, when a message of the next chain says where this one ended. */
  ghost function RestOfChain(st: RatchetState, pn: nat, now: int): seq<Pass> {
    if st.ckr.None? || st.dhrPub.None? then [] else Gap(st.dhrPub.value, st.nr, pn, now)
  }

  /** The pages between the reading head and the page that the header names. */
  ghost function PassedBy(st: RatchetState, hdr: Header, now: int): seq<Pass> {
    if (hdr.dh, hdr.n) in Places(st.skipped) then []
    else if st.dhrPub == Some(hdr.dh) then RestOfChain(st, hdr.n, now)
    else RestOfChain(st, hdr.pn, now) + Gap(hdr.dh, 0, hdr.n, now)
  }

  /** How many pages of the log were passed at `cutoff` or later. */
  ghost function Live(log: seq<Pass>, cutoff: int): nat {
    if log == [] then 0 else (if log[0].at >= cutoff then 1 else 0) + Live(log[1..], cutoff)
  }

  ghost function LiveAfter(log: seq<Pass>, i: nat, cutoff: int): nat
    requires i < |log|
  {
    Live(log[i + 1..], cutoff)
  }

  /** Passed more than a week ago, or 2000 pages passed after it are no older than that. */
  ghost predicate OverdueAt(log: seq<Pass>, i: nat, now: int)
    requires i < |log|
  {
    log[i].at < now - WEEK_MS || LiveAfter(log, i, now - WEEK_MS) >= ROOM
  }

  ghost predicate Overdue(log: seq<Pass>, p: Place, now: int) {
    exists i :: 0 <= i < |log| && log[i].place == p && OverdueAt(log, i, now)
  }

  lemma {:induction false} LiveConcat(a: seq<Pass>, b: seq<Pass>, cutoff: int)
    ensures Live(a + b, cutoff) == Live(a, cutoff) + Live(b, cutoff)
  {
    if a == [] {
      assert a + b == b;
    } else {
      assert (a + b)[1..] == a[1..] + b;
      LiveConcat(a[1..], b, cutoff);
    }
  }

  lemma {:induction false} LiveIsPart(log: seq<Pass>, cutoff: int)
    ensures Live(log, cutoff) <= |log|
  {
    if log != [] {
      LiveIsPart(log[1..], cutoff);
    }
  }

  /** What is overdue stays overdue as more pages are passed. */
  lemma OverdueGrows(log: seq<Pass>, more: seq<Pass>, p: Place, now: int)
    requires Overdue(log, p, now)
    ensures Overdue(log + more, p, now)
  {
    var i :| 0 <= i < |log| && log[i].place == p && OverdueAt(log, i, now);
    assert (log + more)[i + 1..] == log[i + 1..] + more;
    LiveConcat(log[i + 1..], more, now - WEEK_MS);
    assert OverdueAt(log + more, i, now);
  }

  // ── The stash against the log ─────────────────────────────────────────────

  ghost function PassOf(k: SkippedKey): Pass {
    Pass((k.dh, k.n), k.storedAt)
  }

  ghost function Entries(s: seq<SkippedKey>): seq<Pass> {
    seq(|s|, i requires 0 <= i < |s| => PassOf(s[i]))
  }

  ghost function LiveKeysAfter(s: seq<SkippedKey>, k: nat, cutoff: int): nat
    requires k < |s|
  {
    |Retained(s[k + 1..], cutoff)|
  }

  /** Stashed key `k` is page `i` of the log, and no fewer live pages follow there than live keys here. */
  ghost predicate Ranked(s: seq<SkippedKey>, k: nat, log: seq<Pass>, i: nat)
    requires k < |s| && i < |log|
  {
    && log[i] == PassOf(s[k])
    && forall cutoff :: LiveKeysAfter(s, k, cutoff) <= LiveAfter(log, i, cutoff)
  }

  ghost predicate HasRank(s: seq<SkippedKey>, k: nat, log: seq<Pass>)
    requires k < |s|
  {
    exists i :: 0 <= i < |log| && Ranked(s, k, log, i)
  }

  /** Every stashed key is in the log, in a place of no lower rank. */
  ghost predicate Tracked(s: seq<SkippedKey>, log: seq<Pass>) {
    forall k :: 0 <= k < |s| ==> HasRank(s, k, log)
  }

  lemma {:induction false} EntriesLive(s: seq<SkippedKey>, cutoff: int)
    ensures Live(Entries(s), cutoff) == |Retained(s, cutoff)|
  {
    if s != [] {
      assert Entries(s)[1..] == Entries(s[1..]);
      EntriesLive(s[1..], cutoff);
    }
  }

  lemma EntriesTrack(s: seq<SkippedKey>)
    ensures Tracked(s, Entries(s))
  {
    forall k | 0 <= k < |s| ensures HasRank(s, k, Entries(s)) {
      assert Entries(s)[k + 1..] == Entries(s[k + 1..]);
      forall cutoff ensures LiveKeysAfter(s, k, cutoff) <= LiveAfter(Entries(s), k, cutoff) {
        EntriesLive(s[k + 1..], cutoff);
      }
      assert Ranked(s, k, Entries(s), k);
    }
  }

  lemma OldStaysRanked(s: seq<SkippedKey>, k: nat, log: seq<Pass>, i: nat, added: seq<SkippedKey>)
    requires k < |s| && i < |log| && Ranked(s, k, log, i)
    ensures Ranked(s + added, k, log + Entries(added), i)
  {
    assert (s + added)[k + 1..] == s[k + 1..] + added;
    assert (log + Entries(added))[i + 1..] == log[i + 1..] + Entries(added);
    forall cutoff ensures LiveKeysAfter(s + added, k, cutoff) <= LiveAfter(log + Entries(added), i, cutoff) {
      assert LiveKeysAfter(s, k, cutoff) <= LiveAfter(log, i, cutoff);
      RetainedConcat(s[k + 1..], added, cutoff);
      LiveConcat(log[i + 1..], Entries(added), cutoff);
      EntriesLive(added, cutoff);
    }
  }

  lemma NewIsRanked(s: seq<SkippedKey>, log: seq<Pass>, added: seq<SkippedKey>, k: nat)
    requires k < |added|
    ensures Ranked(s + added, |s| + k, log + Entries(added), |log| + k)
  {
    var all, log', m, i := s + added, log + Entries(added), |s| + k, |log| + k;
    assert all[m + 1..] == added[k + 1..] && log'[i + 1..] == Entries(added[k + 1..]);
    forall cutoff ensures LiveKeysAfter(all, m, cutoff) <= LiveAfter(log', i, cutoff) {
      EntriesLive(added[k + 1..], cutoff);
    }
  }

  lemma AddedTrack(s: seq<SkippedKey>, log: seq<Pass>, added: seq<SkippedKey>)
    requires Tracked(s, log)
    ensures Tracked(s + added, log + Entries(added))
  {
    hide Ranked;
    var all, log' := s + added, log + Entries(added);
    forall k | 0 <= k < |all| ensures HasRank(all, k, log') {
      if k < |s| {
        assert HasRank(s, k, log);
        var i :| 0 <= i < |log| && Ranked(s, k, log, i);
        OldStaysRanked(s, k, log, i, added);
      } else {
        NewIsRanked(s, log, added, k - |s|);
      }
    }
  }

  /** Key `k` of the thinner list is key `j` of the other, with no more live keys behind it. */
  ghost predicate NoFuller(a: seq<SkippedKey>, k: nat, b: seq<SkippedKey>, j: nat)
    requires k < |a| && j < |b|
  {
    a[k] == b[j] && forall cutoff :: LiveKeysAfter(a, k, cutoff) <= LiveKeysAfter(b, j, cutoff)
  }

  ghost predicate IsFrom(a: seq<SkippedKey>, k: nat, b: seq<SkippedKey>)
    requires k < |a|
  {
    exists j :: 0 <= j < |b| && NoFuller(a, k, b, j)
  }

  ghost predicate Thinner(a: seq<SkippedKey>, b: seq<SkippedKey>) {
    forall k :: 0 <= k < |a| ==> IsFrom(a, k, b)
  }

  lemma NoFullerRanked(a: seq<SkippedKey>, k: nat, b: seq<SkippedKey>, j: nat, log: seq<Pass>, i: nat)
    requires k < |a| && j < |b| && i < |log| && NoFuller(a, k, b, j) && Ranked(b, j, log, i)
    ensures Ranked(a, k, log, i)
  {
    forall cutoff ensures LiveKeysAfter(a, k, cutoff) <= LiveAfter(log, i, cutoff) {
      assert LiveKeysAfter(a, k, cutoff) <= LiveKeysAfter(b, j, cutoff);
    }
  }

  lemma ThinnerTracks(a: seq<SkippedKey>, b: seq<SkippedKey>, log: seq<Pass>)
    requires Thinner(a, b) && Tracked(b, log)
    ensures Tracked(a, log)
  {
    hide NoFuller, Ranked;
    forall k | 0 <= k < |a| ensures HasRank(a, k, log) {
      assert IsFrom(a, k, b);
      var j :| 0 <= j < |b| && NoFuller(a, k, b, j);
      assert HasRank(b, j, log);
      var i :| 0 <= i < |log| && Ranked(b, j, log, i);
      NoFullerRanked(a, k, b, j, log, i);
    }
  }

  lemma {:induction false} RetainedTwice(s: seq<SkippedKey>, first: int, cutoff: int)
    ensures |Retained(Retained(s, first), cutoff)| <= |Retained(s, cutoff)|
  {
    if s != [] {
      RetainedTwice(s[1..], first, cutoff);
      if s[0].storedAt >= first {
        assert Retained(s, first)[1..] == Retained(s[1..], first);
      }
    }
  }

  lemma {:induction false} KeyInRetained(s: seq<SkippedKey>, first: int, k: nat) returns (j: nat)
    requires k < |Retained(s, first)|
    ensures j < |s| && NoFuller(Retained(s, first), k, s, j)
  {
    var kept, rest := Retained(s, first), Retained(s[1..], first);
    if s[0].storedAt >= first && k == 0 {
      j := 0;
      assert kept[1..] == rest;
      forall cutoff ensures LiveKeysAfter(kept, 0, cutoff) <= LiveKeysAfter(s, 0, cutoff) {
        RetainedTwice(s[1..], first, cutoff);
      }
    } else {
      var k' := if s[0].storedAt >= first then k - 1 else k;
      j := KeyInRetained(s[1..], first, k');
      assert kept[k + 1..] == rest[k' + 1..] && s[1..][j + 1..] == s[j + 2..];
      forall cutoff ensures LiveKeysAfter(kept, k, cutoff) <= LiveKeysAfter(s, j + 1, cutoff) {
        assert LiveKeysAfter(rest, k', cutoff) <= LiveKeysAfter(s[1..], j, cutoff);
      }
      j := j + 1;
    }
  }

  lemma EvictThins(s: seq<SkippedKey>, now: int)
    ensures Thinner(Evict(s, now), s)
  {
    var live, kept := Retained(s, now - SKIPPED_TTL_MS), Evict(s, now);
    forall k | 0 <= k < |kept| ensures IsFrom(kept, k, s) {
      var from := |live| - |kept|;
      var j := KeyInRetained(s, now - SKIPPED_TTL_MS, from + k);
      assert kept[k + 1..] == live[from + k + 1..];
      forall cutoff ensures LiveKeysAfter(kept, k, cutoff) <= LiveKeysAfter(s, j, cutoff) {
        assert LiveKeysAfter(live, from + k, cutoff) <= LiveKeysAfter(s, j, cutoff);
      }
      assert NoFuller(kept, k, s, j);
    }
  }

  lemma RemovalThins(s: seq<SkippedKey>, pos: nat)
    requires pos < |s|
    ensures Thinner(RemoveAt(s, pos), s)
  {
    var r := RemoveAt(s, pos);
    forall k | 0 <= k < |r| ensures IsFrom(r, k, s) {
      if k < pos {
        assert r[k + 1..] == s[k + 1..pos] + s[pos + 1..];
        assert s[k + 1..] == s[k + 1..pos] + ([s[pos]] + s[pos + 1..]);
        forall cutoff ensures LiveKeysAfter(r, k, cutoff) <= LiveKeysAfter(s, k, cutoff) {
          RetainedConcat(s[k + 1..pos], s[pos + 1..], cutoff);
          RetainedConcat(s[k + 1..pos], [s[pos]] + s[pos + 1..], cutoff);
          RetainedConcat([s[pos]], s[pos + 1..], cutoff);
        }
        assert NoFuller(r, k, s, k);
      } else {
        assert r[k + 1..] == s[k + 2..];
        assert NoFuller(r, k, s, k + 1);
      }
    }
  }

  // ── One skip, one step ────────────────────────────────────────────────────

  /** Only what is overdue is evicted. */
  lemma EvictedIsOverdue(s: seq<SkippedKey>, log: seq<Pass>, now: int, p: Place)
    requires Tracked(s, log) && p in Places(s) - Places(Evict(s, now))
    ensures Overdue(log, p, now)
  {
    var k :| 0 <= k < |s| && (s[k].dh, s[k].n) == p;
    if Outlives(s, now, k) {
      OutlivesStays(s, now, k);
    }
    assert HasRank(s, k, log);
    var i :| 0 <= i < |log| && Ranked(s, k, log, i);
    assert LiveKeysAfter(s, k, now - SKIPPED_TTL_MS) <= LiveAfter(log, i, now - SKIPPED_TTL_MS);
    assert OverdueAt(log, i, now);
  }

  ghost predicate AllOverdue(dropped: set<Place>, log: seq<Pass>, now: int) {
    forall p :: p in dropped ==> Overdue(log, p, now)
  }

  lemma StashIsGap(d: KeyId, ck: Term, from: nat, until: nat, now: int)
    ensures Entries(Stash(d, ck, from, SatSub(until, from), now)) == Gap(d, from, until, now)
  {
  }

  lemma SkipTracks(st: RatchetState, until: nat, now: int, log: seq<Pass>)
    requires Tracked(st.skipped, log) && SkipMessageKeys(st, until, now).Ok?
    ensures var after, log' := SkipMessageKeys(st, until, now).value, log + RestOfChain(st, until, now);
            Tracked(after.skipped, log') && AllOverdue(DroppedBySkip(st, until, now), log', now)
  {
    hide Stash, Evict, Overdue, Tracked, Gap;
    if st.ckr.Some? && st.dhrPub.Some? {
      var added := Stash(st.dhrPub.value, st.ckr.value, st.nr, SatSub(until, st.nr), now);
      StashIsGap(st.dhrPub.value, st.ckr.value, st.nr, until, now);
      AddedTrack(st.skipped, log, added);
      EvictThins(st.skipped + added, now);
      ThinnerTracks(Evict(st.skipped + added, now), st.skipped + added, log + Entries(added));
      forall p | p in DroppedBySkip(st, until, now) ensures Overdue(log + Entries(added), p, now) {
        EvictedIsOverdue(st.skipped + added, log + Entries(added), now, p);
      }
    } else {
      assert log + [] == log;
    }
  }

  lemma TurnTracks(st: RatchetState, hdr: Header, now: int, rnd: Randomness, log: seq<Pass>)
    requires Tracked(st.skipped, log) && Turn(st, hdr, now, rnd).Ok?
    ensures var turned, log' := Turn(st, hdr, now, rnd).value, log + RestOfChain(st, hdr.pn, now);
            && Tracked(turned.skipped, log') && AllOverdue(DroppedBySkip(st, hdr.pn, now), log', now)
            && turned.ckr.Some? && turned.dhrPub == Some(hdr.dh) && turned.nr == 0
  {
    hide Tracked, AllOverdue, Evict, Stash;
    var noted := if hdr.kemPub.Some? then st.(peerKemPub := hdr.kemPub) else st;
    SkipTracks(noted, hdr.pn, now, log);
    assert DroppedBySkip(noted, hdr.pn, now) == DroppedBySkip(st, hdr.pn, now);
    assert RestOfChain(noted, hdr.pn, now) == RestOfChain(st, hdr.pn, now);
  }

  lemma TakeKeyTracks(st: RatchetState, n: nat, now: int, log: seq<Pass>)
    requires Tracked(st.skipped, log) && TakeKey(st, n, now).Ok?
    ensures var after, log' := TakeKey(st, n, now).value.1, log + RestOfChain(st, n, now);
            Tracked(after.skipped, log') && AllOverdue(DroppedBySkip(st, n, now), log', now)
  {
    hide Tracked, AllOverdue, SkipMessageKeys, DroppedBySkip;
    SkipTracks(st, n, now, log);
  }

  lemma AllOverdueGrows(dropped: set<Place>, log: seq<Pass>, more: seq<Pass>, now: int)
    requires AllOverdue(dropped, log, now)
    ensures AllOverdue(dropped, log + more, now)
  {
    forall p | p in dropped ensures Overdue(log + more, p, now) {
      OverdueGrows(log, more, p, now);
    }
  }

  lemma StepTracks(st: RatchetState, hdr: Header, now: int, rnd: Randomness, log: seq<Pass>)
    requires Tracked(st.skipped, log) && StepRecv(st, hdr, now, rnd).Ok?
    ensures var after, log' := StepRecv(st, hdr, now, rnd).value.1, log + PassedBy(st, hdr, now);
            Tracked(after.skipped, log') && AllOverdue(DroppedByRecv(st, hdr, now, rnd), log', now)
  {
    hide Tracked, Turn, TakeKey, DroppedBySkip, Overdue, TotalSkip;
    FindSkippedMeansPresent(st.skipped, hdr.dh, hdr.n);
    var pos := FindSkipped(st.skipped, hdr.dh, hdr.n);
    if pos < |st.skipped| {
      RemovalThins(st.skipped, pos);
      ThinnerTracks(RemoveAt(st.skipped, pos), st.skipped, log);
      assert log + [] == log;
    } else if st.dhrPub == Some(hdr.dh) {
      TakeKeyTracks(st, hdr.n, now, log);
    } else {
      TurnTracks(st, hdr, now, rnd, log);
      var turned := Turn(st, hdr, now, rnd).value;
      var log1 := log + RestOfChain(st, hdr.pn, now);
      TakeKeyTracks(turned, hdr.n, now, log1);
      AllOverdueGrows(DroppedBySkip(st, hdr.pn, now), log1, Gap(hdr.dh, 0, hdr.n, now), now);
      assert log1 + Gap(hdr.dh, 0, hdr.n, now) == log + (RestOfChain(st, hdr.pn, now) + Gap(hdr.dh, 0, hdr.n, now));
    }
  }

  // ── Whole runs ────────────────────────────────────────────────────────────

  ghost function StashOf(c: World, who: nat): seq<SkippedKey> {
    if who in c.parties then c.parties[who].st.skipped else []
  }

  ghost function EvictedOf(c: World, who: nat): set<Place> {
    if who in c.parties then c.parties[who].evicted else {}
  }

  /** The pages that one event makes side `who` pass over. */
  ghost function Passes(c: World, ev: Event, who: nat): seq<Pass> {
    if ev.Deliver? && ev.who == who && !ev.crash && Commits(c, who, ev.w, ev.now)
    then PassedBy(c.parties[who].st, ev.w.hdr, ev.now)
    else []
  }

  /** Every page side `who` has passed over in the first `k` events, in order; before them, what it held already. */
  ghost function Log(c: World, evs: seq<Event>, who: nat, k: nat): seq<Pass>
    requires |c.h| >= 2 && k <= |evs|
  {
    if k == 0 then Entries(StashOf(c, who))
    else Log(c, evs, who, k - 1) + Passes(Run(c, evs[..k - 1]), evs[k - 1], who)
  }

  lemma RunNext(c: World, evs: seq<Event>, k: nat)
    requires |c.h| >= 2 && k < |evs|
    ensures Run(c, evs[..k + 1]) == Step(Run(c, evs[..k]), evs[k])
  {
    hide Step, Run, PossibleRun;
    assert evs[..k + 1] == evs[..k] + [evs[k]];
    RunConcat(c, evs[..k], [evs[k]]);
    RunOne(Run(c, evs[..k]), evs[k]);
  }

  lemma RunOne(c: World, ev: Event)
    requires |c.h| >= 2
    ensures Run(c, [ev]) == Step(c, ev)
  {
    hide Step, PossibleRun;
    assert [ev][1..] == [];
  }

  lemma CommittedStash(c: World, ev: Event)
    requires |c.h| >= 2 && ev.Deliver? && !ev.crash && Commits(c, ev.who, ev.w, ev.now)
    ensures var p, rnd := c.parties[ev.who], Mint(c.next);
            && StepRecv(p.st, ev.w.hdr, ev.now, rnd).Ok?
            && StashOf(Step(c, ev), ev.who) == StepRecv(p.st, ev.w.hdr, ev.now, rnd).value.1.skipped
            && EvictedOf(Step(c, ev), ev.who) == p.evicted + DroppedByRecv(p.st, ev.w.hdr, ev.now, rnd)
  {
    hide StepRecv, DroppedByRecv, Recorded;
  }

  lemma OthersKeepStash(c: World, ev: Event, who: nat)
    requires |c.h| >= 2 && Passes(c, ev, who) == []
    requires !(ev.Deliver? && ev.who == who && !ev.crash && Commits(c, who, ev.w, ev.now))
    ensures StashOf(Step(c, ev), who) == StashOf(c, who) && EvictedOf(Step(c, ev), who) == EvictedOf(c, who)
  {
    hide StepRecv, DroppedByRecv, Recorded;
  }

  ghost predicate MayForget(ev: Event, who: nat, log: seq<Pass>, p: Place) {
    ev.Deliver? && ev.who == who && Overdue(log, p, ev.now)
  }

  lemma EventTracks(c: World, ev: Event, who: nat, log: seq<Pass>)
    requires |c.h| >= 2 && Tracked(StashOf(c, who), log)
    ensures Tracked(StashOf(Step(c, ev), who), log + Passes(c, ev, who))
    ensures forall p :: p in EvictedOf(Step(c, ev), who) ==>
              p in EvictedOf(c, who) || MayForget(ev, who, log + Passes(c, ev, who), p)
  {
    hide Tracked, Step, Commits, StepRecv, DroppedByRecv, PassedBy, Overdue;
    if ev.Deliver? && ev.who == who && !ev.crash && Commits(c, who, ev.w, ev.now) {
      CommittedStash(c, ev);
      assert who in c.parties by { CommitsParty(c, who, ev.w, ev.now); }
      StepTracks(c.parties[who].st, ev.w.hdr, ev.now, Mint(c.next), log);
    } else {
      OthersKeepStash(c, ev, who);
      assert log + [] == log;
    }
  }

  lemma CommitsParty(c: World, who: nat, w: Wire, now: int)
    requires Commits(c, who, w, now)
    ensures who in c.parties
  {
    hide Receive;
  }

  lemma {:induction false} RunTracks(c: World, evs: seq<Event>, who: nat, k: nat)
    requires |c.h| >= 2 && k <= |evs|
    ensures Tracked(StashOf(Run(c, evs[..k]), who), Log(c, evs, who, k))
  {
    hide Tracked, Step, StashOf, Passes;
    if k == 0 {
      EntriesTrack(StashOf(c, who));
    } else {
      RunTracks(c, evs, who, k - 1);
      RunNext(c, evs, k - 1);
      EventTracks(Run(c, evs[..k - 1]), evs[k - 1], who, Log(c, evs, who, k - 1));
    }
  }

  /**
   A page is evicted only when it is overdue: at some delivery it had been passed more than seven days
   before, or 2000 pages younger than that had been passed after it.
   */
  lemma {:induction false} EvictedWasOverdue(c: World, evs: seq<Event>, who: nat, k: nat, p: Place) returns (j: nat)
    requires |c.h| >= 2 && k <= |evs|
    requires p in EvictedOf(Run(c, evs[..k]), who) && p !in EvictedOf(c, who)
    ensures j < k && MayForget(evs[j], who, Log(c, evs, who, j + 1), p)
  {
    hide Step, EvictedOf, MayForget, StashOf, Passes;
    if k == 0 {
      assert false;
    } else {
      RunNext(c, evs, k - 1);
      var before := Run(c, evs[..k - 1]);
      if p in EvictedOf(before, who) {
        j := EvictedWasOverdue(c, evs, who, k - 1, p);
      } else {
        RunTracks(c, evs, who, k - 1);
        EventTracks(before, evs[k - 1], who, Log(c, evs, who, k - 1));
        j := k - 1;
      }
    }
  }

  /** At no delivery of the run was the page overdue. */
  ghost predicate InTime(c: World, evs: seq<Event>, who: nat, p: Place)
    requires |c.h| >= 2
  {
    forall j :: 0 <= j < |evs| ==> !MayForget(evs[j], who, Log(c, evs, who, j + 1), p)
  }

  lemma InTimeIsKept(c: World, evs: seq<Event>, who: nat, p: Place)
    requires |c.h| >= 2 && p !in EvictedOf(c, who) && InTime(c, evs, who, p)
    ensures p !in EvictedOf(Run(c, evs), who)
  {
    hide EvictedOf, MayForget, Log, Run;
    assert evs[..|evs|] == evs;
    if p in EvictedOf(Run(c, evs[..|evs|]), who) {
      var j := EvictedWasOverdue(c, evs, who, |evs|, p);
      assert false;
    }
  }

  /**
   Late arrival, in terms of what happened: from an accepted invite on, whatever was reordered, lost, forged
   or delivered twice, a genuine message within the skip budget whose page is not overdue is accepted
   exactly if it has not been before.
   */
  lemma LateMessageOpens(legacy: bool, evs: seq<Event>, who: nat, w: Wire, now: int)
    requires PossibleRun(Start(legacy), evs) && InTime(Start(legacy), evs, who, (w.hdr.dh, w.hdr.n))
    requires var c := Run(Start(legacy), evs);
             who in c.parties && Unaltered(c, who, w) && TotalSkip(c.parties[who].st, w.hdr) <= REACH
    ensures var c := Run(Start(legacy), evs);
            Commits(c, who, w, now) <==> (w.hdr.dh, w.hdr.n) !in c.parties[who].consumed
  {
    NothingEvictedAtStart(legacy, who);
    hide Start, Run, PossibleRun, Unaltered, TotalSkip, Commits, InTime, Inv;
    ReachableInv(legacy, evs);
    InTimeIsKept(Start(legacy), evs, who, (w.hdr.dh, w.hdr.n));
    UnspentMessageOpens(Run(Start(legacy), evs), who, w, now);
  }

  lemma NothingEvictedAtStart(legacy: bool, who: nat)
    ensures |Start(legacy).h| >= 2 && EvictedOf(Start(legacy), who) == {} && StashOf(Start(legacy), who) == []
  {
  }

  lemma {:induction false} LogGrows(c: World, evs: seq<Event>, who: nat, j: nat, k: nat)
    requires |c.h| >= 2 && j <= k <= |evs|
    ensures Log(c, evs, who, j) <= Log(c, evs, who, k)
    decreases k
  {
    hide Run, Passes, StashOf;
    if j < k {
      LogGrows(c, evs, who, j, k - 1);
    }
  }

  ghost predicate AllWithin(log: seq<Pass>, since: int) {
    forall i :: 0 <= i < |log| ==> log[i].at >= since
  }

  /** With at most 2000 pages passed, none of them a week before any delivery, nothing is overdue. */
  lemma ShortGapsAreInTime(c: World, evs: seq<Event>, who: nat, since: int, p: Place)
    requires |c.h| >= 2 && |Log(c, evs, who, |evs|)| <= ROOM && AllWithin(Log(c, evs, who, |evs|), since)
    requires forall j :: 0 <= j < |evs| && evs[j].Deliver? && evs[j].who == who ==> evs[j].now - since <= WEEK_MS
    ensures InTime(c, evs, who, p)
  {
    hide Log, Passes;
    forall j | 0 <= j < |evs| ensures !MayForget(evs[j], who, Log(c, evs, who, j + 1), p) {
      var log := Log(c, evs, who, j + 1);
      LogGrows(c, evs, who, j + 1, |evs|);
      if MayForget(evs[j], who, log, p) {
        var i :| 0 <= i < |log| && log[i].place == p && OverdueAt(log, i, evs[j].now);
        assert log[i] == Log(c, evs, who, |evs|)[i];
        LiveIsPart(log[i + 1..], evs[j].now - WEEK_MS);
        assert false;
      }
    }
  }

  // ── Two messages the wrong way round ──────────────────────────────────────

  /** Reading a new page moves the head behind it. */
  lemma HeadBehind(st: RatchetState, hdr: Header, now: int, rnd: Randomness)
    requires StepRecv(st, hdr, now, rnd).Ok? && (hdr.dh, hdr.n) !in Places(st.skipped)
    requires st.dhrPub == Some(hdr.dh) ==> st.nr <= hdr.n
    ensures var after := StepRecv(st, hdr, now, rnd).value.1;
            after.dhrPub == Some(hdr.dh) && after.nr == hdr.n + 1
  {
    FindSkippedMeansPresent(st.skipped, hdr.dh, hdr.n);
    hide Evict, Stash;
  }

  /** The page before the one read is kept, if it was still unread. */
  lemma OvertakenIsKept(st: RatchetState, hdr: Header, now: int, rnd: Randomness, n: nat)
    requires StepRecv(st, hdr, now, rnd).Ok? && n < hdr.n && (hdr.dh, n) !in Places(st.skipped)
    requires st.dhrPub == Some(hdr.dh) ==> st.nr <= n && st.ckr.Some?
    ensures (hdr.dh, n) !in DroppedByRecv(st, hdr, now, rnd)
  {
    hide Evict, Stash;
    if st.dhrPub == Some(hdr.dh) {
      JustPassedStaysIfOk(st, hdr.n, now, n);
    } else if Turn(st, hdr, now, rnd).Ok? {
      var turned := Turn(st, hdr, now, rnd).value;
      JustPassedStaysIfOk(turned, hdr.n, now, n);
      OtherChainKeeps(st, hdr.pn, now, (hdr.dh, n));
    }
  }

  lemma JustPassedStaysIfOk(st: RatchetState, until: nat, now: int, n: nat)
    requires st.ckr.Some? && st.dhrPub.Some? && st.nr <= n < until
    ensures (st.dhrPub.value, n) !in DroppedBySkip(st, until, now)
  {
    if SkipMessageKeys(st, until, now).Ok? {
      JustPassedStays(st, until, now, n);
    }
    hide SkipMessageKeys;
  }

  lemma OtherChainKeeps(st: RatchetState, until: nat, now: int, p: Place)
    requires p !in Places(st.skipped) && st.dhrPub != Some(p.0)
    ensures p !in DroppedBySkip(st, until, now)
  {
    if st.ckr.Some? && st.dhrPub.Some? {
      var count := SatSub(until, st.nr);
      PlacesConcat(st.skipped, Stash(st.dhrPub.value, st.ckr.value, st.nr, count, now));
      PlacesStash(st.dhrPub.value, st.ckr.value, st.nr, count, now);
    }
    hide Stash, Evict;
  }

  /** The next page of a side is new to the other: not stashed, and not behind the head. */
  lemma NewPageAhead(h: History, next: nat, who: nat, q: Party)
    requires HistoryOk(h, next) && who < 2 && PartyOk(h, next, 1 - who, q) && SendEpoch(h, who) >= 1
    ensures var s := SendEpoch(h, who);
            && (forall n :: n >= h[s].len ==> (h[s].d, n) !in Places(q.st.skipped))
            && (q.st.dhrPub == Some(h[s].d) ==> q.st.nr <= h[s].len && q.st.ckr.Some?)
  {
    var s, r := SendEpoch(h, who), SendEpoch(h, 1 - who) - 1;
    forall n: nat | n >= h[s].len ensures (h[s].d, n) !in Places(q.st.skipped) {
      assert IsSeen(q.st.skipped, q.consumed + q.evicted, h[s].d, n)
        <==> Reached(s, r) && n < Bound(h, q.st.nr, r, s);
    }
    if q.st.dhrPub == Some(h[s].d) {
      assert r == s;
    }
  }

  /** Two texts sent in a row and delivered the other way round: both are accepted, and stored as they came. */
  ghost predicate BothArrive(c: World, who: nat, first: string, second: string, now: int, later: int)
    requires CanSend(c, who, first) && CanSend(Step(c, Send(who, first, false)), who, second)
  {
    var c1, w1 := Step(c, Send(who, first, false)), SealedWire(c, who, first);
    var c2, w2 := Step(c1, Send(who, second, false)), SealedWire(c1, who, second);
    var c3 := Step(c2, Deliver(1 - who, w2, now, false));
    var c4 := Step(c3, Deliver(1 - who, w1, later, false));
    && Commits(c2, 1 - who, w2, now) && Commits(c3, 1 - who, w1, later)
    && 1 - who in c4.parties
    && c4.parties[1 - who].conv == c.parties[1 - who].conv
         + [Stored(c.next + 1, Body(second)), Stored(c.next, Body(first))]
  }

  lemma SealedHeader(c: World, who: nat, text: string)
    requires CanSend(c, who, text)
    ensures var st, w, c1 := c.parties[who].st, SealedWire(c, who, text), Step(c, Send(who, text, false));
            && w.hdr.dh == st.dhsPub && w.hdr.n == st.ns
            && c1.parties.Keys == c.parties.Keys && c1.next == c.next + 1
            && c1.parties[who].st.dhsPub == st.dhsPub && c1.parties[who].st.ns == st.ns + 1
  {
    hide Numbered, Body;
  }

  /** The second message is on the page after the first. */
  lemma TwoPages(c: World, who: nat, first: string, second: string)
    requires Inv(c) && CanSend(c, who, first) && Body(second) != ""
    ensures var c1, w1 := Step(c, Send(who, first, false)), SealedWire(c, who, first);
            && Inv(c1) && CanSend(c1, who, second)
            && var w2 := SealedWire(c1, who, second);
            && w2.hdr.dh == w1.hdr.dh && w2.hdr.n == w1.hdr.n + 1 && c1.next == c.next + 1
  {
    SealedHeader(c, who, first);
    BothSidesThere(c, who);
    hide Inv, Step, BuildWire, SealedWire;
    StepKeepsInv(c, Send(who, first, false));
    SendingNeverFails(Step(c, Send(who, first, false)), who, second);
    SealedHeader(Step(c, Send(who, first, false)), who, second);
  }

  lemma BothSidesThere(c: World, who: nat)
    requires Inv(c) && who < 2 && who in c.parties && 1 - who in c.parties
    ensures c.parties.Keys == {0, 1}
  {
    hide HistoryOk, PartyOk, ConvOk;
  }

  /** Sending leaves the peer's earlier wires unaltered. */
  lemma SendKeepsUnaltered(c: World, who: nat, text: string, w: Wire)
    requires CanSend(c, who, text) && Unaltered(c, 1 - who, w) && w.ct.id != c.next
    ensures Unaltered(Step(c, Send(who, text, false)), 1 - who, w)
  {
    hide Numbered, Body;
  }

  /** Neither page of two sent in a row is stashed or behind the receiver's head before it gets one of them. */
  ghost predicate BothAhead(st: RatchetState, d: KeyId, n: nat) {
    && (d, n) !in Places(st.skipped) && (d, n + 1) !in Places(st.skipped)
    && (st.dhrPub == Some(d) ==> st.nr <= n && st.ckr.Some?)
  }

  lemma NextPagesAhead(c: World, who: nat)
    requires Inv(c) && who < 2 && who in c.parties && 1 - who in c.parties
    ensures BothAhead(c.parties[1 - who].st, c.parties[who].st.dhsPub, c.parties[who].st.ns)
  {
    hide Inv, HistoryOk, SentOk, Places, RecvOk;
    SendEpochIsReal(c, who);
    NewPageAhead(c.h, c.next, who, c.parties[1 - who]);
  }

  /** Once the second of two pages is read, the first is kept and in the budget. */
  lemma SecondKeepsFirst(c: World, who: nat, w: Wire, now: int, first: Header)
    requires |c.h| >= 2 && Commits(c, who, w, now) && BothAhead(c.parties[who].st, w.hdr.dh, first.n)
    requires first.dh == w.hdr.dh && w.hdr.n == first.n + 1
    requires (first.dh, first.n) !in c.parties[who].consumed && (first.dh, first.n) !in c.parties[who].evicted
    ensures var c' := Step(c, Deliver(who, w, now, false));
            && who in c'.parties && TotalSkip(c'.parties[who].st, first) <= MAX_SKIP
            && (first.dh, first.n) !in c'.parties[who].consumed && (first.dh, first.n) !in c'.parties[who].evicted
  {
    CommittedParts(c, who, w, now);
    hide Step, Commits, StepRecv, DroppedByRecv, Places;
    HeadBehind(c.parties[who].st, w.hdr, now, Mint(c.next));
    OvertakenIsKept(c.parties[who].st, w.hdr, now, Mint(c.next), first.n);
  }

  lemma CommittedParts(c: World, who: nat, w: Wire, now: int)
    requires |c.h| >= 2 && Commits(c, who, w, now)
    ensures var p, rnd, c' := c.parties[who], Mint(c.next), Step(c, Deliver(who, w, now, false));
            && who in c'.parties && StepRecv(p.st, w.hdr, now, rnd).Ok?
            && c'.parties[who].st == StepRecv(p.st, w.hdr, now, rnd).value.1
            && c'.parties[who].consumed == p.consumed + {(w.hdr.dh, w.hdr.n)}
            && c'.parties[who].evicted == p.evicted + DroppedByRecv(p.st, w.hdr, now, rnd)
  {
    hide StepRecv, DroppedByRecv, Recorded;
  }

  lemma DeliveryKeepsUnaltered(c: World, who: nat, w: Wire, now: int, other: Wire)
    requires |c.h| >= 2 && who < 2 && Unaltered(c, who, other)
    ensures Unaltered(Step(c, Deliver(who, w, now, false)), who, other)
  {
    hide Step;
    DeliveryLeavesPeer(c, who, w, now, false);
  }

  /** The receiver's half of it. */
  lemma SecondThenFirst(c: World, who: nat, w1: Wire, w2: Wire, now: int, later: int)
    requires Inv(c) && who < 2 && who in c.parties && Unaltered(c, who, w1) && Unaltered(c, who, w2)
    requires BothAhead(c.parties[who].st, w2.hdr.dh, w1.hdr.n) && w1.hdr.dh == w2.hdr.dh && w2.hdr.n == w1.hdr.n + 1
    requires TotalSkip(c.parties[who].st, w2.hdr) <= MAX_SKIP && w1.ct.id != w2.ct.id
    requires forall w :: w in {w1, w2} ==>
               && (w.hdr.dh, w.hdr.n) !in c.parties[who].consumed && (w.hdr.dh, w.hdr.n) !in c.parties[who].evicted
               && !HasId(c.parties[who].conv, w.ct.id)
    ensures |c.h| >= 2 && Commits(c, who, w2, now)
    ensures var c3 := Step(c, Deliver(who, w2, now, false));
            var c4 := Step(c3, Deliver(who, w1, later, false));
            && Commits(c3, who, w1, later) && who in c4.parties
            && c4.parties[who].conv == c.parties[who].conv
                 + [Stored(w2.ct.id, Clipped(w2.ct.inner.text)), Stored(w1.ct.id, Clipped(w1.ct.inner.text))]
  {
    hide Inv, Step, Unaltered, Commits, TotalSkip, BothAhead, HasId, Clipped;
    UnspentIsAppended(c, who, w2, now);
    UnalteredIsGenuine(c, who, w2);
    GenuineIsDeliverable(c, who, w2, now);
    StepKeepsInv(c, Deliver(who, w2, now, false));
    var c3 := Step(c, Deliver(who, w2, now, false));
    DeliveryKeepsUnaltered(c, who, w2, now, w1);
    SecondKeepsFirst(c, who, w2, now, w1.hdr);
    OneMoreId(c.parties[who].conv, w2.ct.id, Clipped(w2.ct.inner.text), w1.ct.id);
    UnspentIsAppended(c3, who, w1, later);
  }

  lemma UnalteredIsGenuine(c: World, who: nat, w: Wire)
    requires Unaltered(c, who, w)
    ensures Genuine(c, who, w.ct)
  {
  }

  lemma OneMoreId(conv: seq<Stored>, id: nat, text: string, other: nat)
    requires !HasId(conv, other) && other != id
    ensures !HasId(conv + [Stored(id, text)], other)
  {
  }

  /** A sealed text that the receiver has not seen. */
  ghost predicate Underway(c: World, who: nat, w: Wire, id: nat, text: string) {
    && who in c.parties && Unaltered(c, who, w) && w.ct.id == id && w.ct.inner.text == text
    && (w.hdr.dh, w.hdr.n) !in c.parties[who].consumed && (w.hdr.dh, w.hdr.n) !in c.parties[who].evicted
    && !HasId(c.parties[who].conv, id)
  }

  lemma SentIsUnderway(c: World, who: nat, text: string)
    requires Inv(c) && CanSend(c, who, text)
    ensures var c1 := Step(c, Send(who, text, false));
            && Inv(c1) && 1 - who in c1.parties && c1.parties[1 - who] == c.parties[1 - who]
            && Underway(c1, 1 - who, SealedWire(c, who, text), c.next, Body(text))
  {
    hide Inv, Step, SealedWire, Unaltered, HasId, Body, BuildWire;
    StepKeepsInv(c, Send(who, text, false));
    SentIsUnaltered(c, who, text);
    NewIdIsUnknown(c, 1 - who);
  }

  lemma StaysUnderway(c: World, who: nat, text: string, w: Wire, id: nat, sent: string)
    requires Inv(c) && CanSend(c, who, text) && Underway(c, 1 - who, w, id, sent) && id != c.next
    ensures Underway(Step(c, Send(who, text, false)), 1 - who, w, id, sent)
  {
    hide Inv, Step, SealedWire, Unaltered, HasId, Body, BuildWire, CanSend;
    SentIsUnaltered(c, who, text);
    SendKeepsUnaltered(c, who, text, w);
  }

  lemma SendingSides(c: World, who: nat, text: string)
    requires CanSend(c, who, text)
    ensures |c.h| >= 2 && who < 2 && who in c.parties && 1 - who in c.parties
  {
    hide BuildWire;
  }

  /**
   Out of order: of two messages sent one after the other the second may come first, and the first at
   any later time; both are accepted, and both texts are stored.
   */
  lemma OvertakenMessageArrives(c: World, who: nat, first: string, second: string, now: int, later: int)
    requires Inv(c) && CanSend(c, who, first) && Body(second) != ""
    requires var c1 := Step(c, Send(who, first, false));
             CanSend(c1, who, second) ==>
               TotalSkip(c.parties[1 - who].st, SealedWire(c1, who, second).hdr) <= REACH
    ensures CanSend(Step(c, Send(who, first, false)), who, second)
    ensures BothArrive(c, who, first, second, now, later)
  {
    hide Inv, Step, SealedWire, Underway, CanSend, Commits, TotalSkip, Body, BothAhead, Clipped;
    SendingSides(c, who, first);
    TwoPages(c, who, first, second);
    SealedHeader(c, who, first);
    var c1, w1 := Step(c, Send(who, first, false)), SealedWire(c, who, first);
    SentIsUnderway(c, who, first);
    SentIsUnderway(c1, who, second);
    StaysUnderway(c1, who, second, w1, c.next, Body(first));
    NextPagesAhead(c, who);
    ClippedOnce(first);
    ClippedOnce(second);
    UnderwayBothArrive(Step(c1, Send(who, second, false)), 1 - who, w1, SealedWire(c1, who, second), now, later,
                       c.next, Body(first), c1.next, Body(second));
  }

  lemma UnderwayBothArrive(c: World, who: nat, w1: Wire, w2: Wire, now: int, later: int, id1: nat, text1: string,
                           id2: nat, text2: string)
    requires Inv(c) && who < 2 && Underway(c, who, w1, id1, text1) && Underway(c, who, w2, id2, text2) && id1 != id2
    requires who in c.parties && BothAhead(c.parties[who].st, w2.hdr.dh, w1.hdr.n)
    requires w1.hdr.dh == w2.hdr.dh && w2.hdr.n == w1.hdr.n + 1 && TotalSkip(c.parties[who].st, w2.hdr) <= MAX_SKIP
    ensures |c.h| >= 2 && Commits(c, who, w2, now)
    ensures var c3 := Step(c, Deliver(who, w2, now, false));
            var c4 := Step(c3, Deliver(who, w1, later, false));
            && Commits(c3, who, w1, later) && who in c4.parties
            && c4.parties[who].conv == c.parties[who].conv + [Stored(id2, Clipped(text2)), Stored(id1, Clipped(text1))]
  {
    hide Inv, Step, Unaltered, Commits, TotalSkip, BothAhead, HasId, Clipped;
    SecondThenFirst(c, who, w1, w2, now, later);
  }
}
