/**
 The shared history of a conversation, and what it means for one side's ratchet to
 agree with it.

 The two sides take turns: every DH turn opens an epoch, even epochs belong to the
 inviter (side 0) and odd ones to the accepter (side 1). Epoch 0 is the inviter's
 published prekey, which carries no chain. Neither side stores this history; it is
 the yardstick against which both states are measured.
 */
module Epochs {
  import opened Wrappers
  import opened SymbolicCrypto
  import opened RatchetSpec
  import opened SkippedKeys

  /** One sending chain: its keys, the root it ends in, and how many messages it has numbered. */
  datatype Epoch = Epoch(d: KeyId, kemPub: Option<KeyId>, kemCt: Option<KemCt>, root: Term, chain: Term, len: nat)

  type History = seq<Epoch>

  /** The key that message `n` of epoch `e` is sealed under. */
  ghost function KeyAt(h: History, e: nat, n: nat): Term
    requires e < |h|
  {
    MessageKey(ChainAt(h[e].chain, n))
  }

  ghost function PrevLen(h: History, e: nat): nat
    requires e < |h|
  {
    if e >= 2 then h[e - 2].len else 0
  }

  /** The header that message `n` of epoch `e` carries. */
  ghost function HeaderAt(h: History, e: nat, n: nat): Header
    requires e < |h|
  {
    Header(h[e].d, PrevLen(h, e), n, h[e].kemCt, h[e].kemPub)
  }

  ghost function TurnSs(ct: Option<KemCt>): Option<Term> {
    if ct.Some? then Some(Encapsulated(ct.value)) else None
  }

  /** Every epoch's root and chain come from the previous root by one turn. */
  ghost predicate TurnsLink(h: History) {
    && |h| >= 2
    && RootDepth(h[0].root) == 0
    && h[0].len == 0
    && forall e :: 1 <= e < |h| ==>
         (h[e].root, h[e].chain) == KdfRoot(h[e - 1].root, Dh(h[e].d, h[e - 1].d), TurnSs(h[e].kemCt))
  }

  /** All ratchet keys were drawn from the `next` identifiers used so far, each once. */
  ghost predicate KeysFresh(h: History, next: nat) {
    && (forall e :: 0 <= e < |h| ==> h[e].d < next)
    && (forall e, f :: 0 <= e < f < |h| ==> h[e].d != h[f].d)
  }

  ghost predicate OtherSide(e: int, f: int) {
    e % 2 != f % 2
  }

  /** The two sides never hold the same rolling KEM key. */
  ghost predicate KemKeysApart(h: History) {
    forall e, f {:trigger OtherSide(e, f)} ::
      0 <= e < |h| && 0 <= f < |h| && OtherSide(e, f) && h[e].kemPub.Some? ==> h[e].kemPub != h[f].kemPub
  }

  /** Rolling KEM alignment across the whole history. */
  ghost predicate KemAligned(h: History, next: nat) {
    && |h| >= 2
    && h[0].kemPub.None? && h[0].kemCt.None?
    // a chain's ciphertext was made for the key the other side advertised just before
    && (forall e :: 1 <= e < |h| && h[e].kemCt.Some? ==>
          h[e - 1].kemPub == Some(h[e].kemCt.value.pk) && h[e].kemPub.Some?)
    // once a side advertises a rolling key it always does
    && (forall e :: 0 <= e && e + 2 < |h| && h[e].kemPub.Some? ==> h[e + 2].kemPub.Some?)
    // and once it has, every later turn of the other side is hybrid
    && (forall e :: 2 <= e && e + 1 < |h| && h[e].kemPub.Some? ==> h[e + 1].kemCt.Some?)
    && (forall e :: 0 <= e < |h| && h[e].kemPub.Some? ==> h[e].kemPub.value < next)
    && KemKeysApart(h)
  }

  ghost predicate HistoryOk(h: History, next: nat) {
    TurnsLink(h) && KeysFresh(h, next) && KemAligned(h, next)
  }

  lemma {:induction false} RootDepthIsEpoch(h: History, e: nat)
    requires TurnsLink(h) && e < |h|
    ensures RootDepth(h[e].root) == e
    ensures e >= 1 ==> RootDepth(h[e].chain) == e && ChainDepth(h[e].chain) == 0
  {
    if e > 0 {
      RootDepthIsEpoch(h, e - 1);
    }
  }

  /** No two messages of a conversation share a key. */
  lemma KeysDiffer(h: History, e: nat, n: nat, f: nat, m: nat)
    requires TurnsLink(h) && 1 <= e < |h| && 1 <= f < |h|
    ensures KeyAt(h, e, n) == KeyAt(h, f, m) <==> e == f && n == m
  {
    RootDepthIsEpoch(h, e);
    RootDepthIsEpoch(h, f);
    ChainAtDepths(h[e].chain, n);
    ChainAtDepths(h[f].chain, m);
  }

  // ── One side against the history ──────────────────────────────────────────

  /** Epochs of the other side that a state with receiving epoch `r` has reached. */
  ghost predicate Reached(e: int, r: int) {
    1 <= e <= r && (r - e) % 2 == 0
  }

  /** How far into epoch `e` the receiving side has advanced. */
  ghost function Bound(h: History, nr: nat, r: nat, e: nat): nat
    requires e < |h|
  {
    if e == r then nr else h[e].len
  }

  ghost predicate IsSeen(stash: seq<SkippedKey>, gone: set<Place>, d: KeyId, n: nat) {
    (d, n) in Places(stash) || (d, n) in gone
  }

  /** Exactly the positions below the reading head are stashed or gone. */
  ghost predicate SeenOk(h: History, r: nat, nr: nat, stash: seq<SkippedKey>, gone: set<Place>) {
    forall e, n: nat {:trigger IsSeen(stash, gone, h[e].d, n)} :: 0 <= e < |h| ==>
      (IsSeen(stash, gone, h[e].d, n) <==> Reached(e, r) && n < Bound(h, nr, r, e))
  }

  ghost predicate IsEpochKey(h: History, d: KeyId) {
    exists e :: 1 <= e < |h| && h[e].d == d
  }

  /** A stashed key belongs to an epoch, and is the key its message was sealed under. */
  ghost predicate StashOk(h: History, s: seq<SkippedKey>) {
    && (forall e, k {:trigger h[e].d, k in s} ::
          1 <= e < |h| && k in s && k.dh == h[e].d ==> k.mk == KeyAt(h, e, k.n))
    && (forall k :: k in s ==> IsEpochKey(h, k.dh))
  }

  /** The receiving half of a state; `gone` are the places consumed or evicted so far. */
  ghost predicate RecvOk(h: History, next: nat, r: nat, st: RatchetState, gone: set<Place>) {
    && r < |h|
    && st.dhrPub == Some(h[r].d)
    && (r == 0 ==> st.ckr.None? && st.nr == 0)
    && (r >= 1 ==> st.ckr == Some(ChainAt(h[r].chain, st.nr)))
    && |st.skipped| <= MAX_SKIPPED_KEYS
    && Distinct(st.skipped)
    && Places(st.skipped) !! gone
    && (forall p :: p in Places(st.skipped) || p in gone ==> p.0 < next)
    && StashOk(h, st.skipped)
    && SeenOk(h, r, st.nr, st.skipped, gone)
  }

  /** The sending half of a state whose current chain is epoch `s`. */
  ghost predicate SendOk(h: History, s: nat, st: RatchetState) {
    && 1 <= s < |h|
    && st.rk == h[s].root
    && st.dhsPriv == st.dhsPub == h[s].d
    && st.ns == h[s].len
    && st.cks == Some(ChainAt(h[s].chain, st.ns))
    && st.pn == PrevLen(h, s)
    && st.kemPriv == st.kemPub == h[s].kemPub
    && st.sendKemCt == h[s].kemCt
    && (st.peerKemPub.Some? <==> h[s].kemCt.Some?)
    && (st.peerKemPub.Some? ==> st.peerKemPub == h[s - 1].kemPub)
  }

  lemma HistoryHasFreshKeys(h: History, next: nat)
    requires HistoryOk(h, next)
    ensures KeysFresh(h, next)
  {
  }

  /** A side that sends in epoch `s` reads epoch `s - 1`: it is at most half a turn behind. */
  ghost predicate SideOk(h: History, next: nat, s: nat, st: RatchetState, gone: set<Place>) {
    && SendOk(h, s, st)
    && RecvOk(h, next, s - 1, st, gone)
    && st.nr <= h[s - 1].len
    && |h| <= s + 2
  }

  // ── Places a step evicts ──────────────────────────────────────────────────

  ghost function DroppedBySkip(st: RatchetState, until: nat, now: int): set<Place> {
    match SkipMessageKeys(st, until, now)
    case Err(_) => {}
    case Ok(after) =>
      if st.ckr.None? || st.dhrPub.None? then {}
      else Places(st.skipped + Stash(st.dhrPub.value, st.ckr.value, st.nr, SatSub(until, st.nr), now))
           - Places(after.skipped)
  }

  ghost function DroppedByRecv(st: RatchetState, hdr: Header, now: int, rnd: Randomness): set<Place> {
    if FindSkipped(st.skipped, hdr.dh, hdr.n) < |st.skipped| then {}
    else if st.dhrPub == Some(hdr.dh) then DroppedBySkip(st, hdr.n, now)
    else
      match Turn(st, hdr, now, rnd)
      case Err(_) => {}
      case Ok(turned) => DroppedBySkip(st, hdr.pn, now) + DroppedBySkip(turned, hdr.n, now)
  }

  /** A skip drops exactly the keys, old or just stashed, that are past the TTL or beyond the cap. */
  lemma DroppedExactly(st: RatchetState, until: nat, now: int, i: nat)
    requires SkipMessageKeys(st, until, now).Ok? && st.ckr.Some? && st.dhrPub.Some?
    requires var s := st.skipped + Stash(st.dhrPub.value, st.ckr.value, st.nr, SatSub(until, st.nr), now);
             Distinct(s) && i < |s|
    ensures var s := st.skipped + Stash(st.dhrPub.value, st.ckr.value, st.nr, SatSub(until, st.nr), now);
            (s[i].dh, s[i].n) in DroppedBySkip(st, until, now) <==> !Outlives(s, now, i)
  {
    var s := st.skipped + Stash(st.dhrPub.value, st.ckr.value, st.nr, SatSub(until, st.nr), now);
    EvictsExactly(s, now, i);
    assert s[i] in s;
    hide Outlives, Evict, Stash;
  }

  /** A page just passed survives the skip that passed it, so its message can still come. */
  lemma JustPassedStays(st: RatchetState, until: nat, now: int, n: nat)
    requires SkipMessageKeys(st, until, now).Ok? && st.ckr.Some? && st.dhrPub.Some? && st.nr <= n < until
    ensures (st.dhrPub.value, n) in Places(SkipMessageKeys(st, until, now).value.skipped)
  {
    var added := Stash(st.dhrPub.value, st.ckr.value, st.nr, SatSub(until, st.nr), now);
    var s, i := st.skipped + added, |st.skipped| + (n - st.nr);
    assert s[i] == added[n - st.nr];
    RetainedShrinks(s[i + 1..], now - SKIPPED_TTL_MS);
    OutlivesStays(s, now, i);
  }

  // ── What the receiving steps keep ─────────────────────────────────────────

  lemma StashIsChain(h: History, r: nat, st: RatchetState, count: nat, now: int)
    requires TurnsLink(h) && 1 <= r < |h| && st.ckr == Some(ChainAt(h[r].chain, st.nr))
    requires forall e, f :: 0 <= e < f < |h| ==> h[e].d != h[f].d
    ensures StashOk(h, Stash(h[r].d, st.ckr.value, st.nr, count, now))
  {
    var s := Stash(h[r].d, st.ckr.value, st.nr, count, now);
    forall e, k | 1 <= e < |h| && k in s && k.dh == h[e].d ensures k.mk == KeyAt(h, e, k.n) {
      var i :| 0 <= i < count && k == s[i];
      ChainAtAdds(h[r].chain, st.nr, i);
    }
  }

  /** The stash with the freshly skipped keys behind it, before anything is evicted. */
  lemma StashJoins(h: History, next: nat, r: nat, st: RatchetState, gone: set<Place>, count: nat, now: int)
    requires HistoryOk(h, next) && RecvOk(h, next, r, st, gone) && r >= 1
    ensures var added := Stash(h[r].d, st.ckr.value, st.nr, count, now);
            && Distinct(st.skipped + added) && StashOk(h, st.skipped + added)
            && Places(st.skipped + added) == Places(st.skipped) + Places(added)
            && Places(added) !! gone
            && (forall d, n :: (d, n) in Places(added) <==> d == h[r].d && st.nr <= n < st.nr + count)
  {
    var added := Stash(h[r].d, st.ckr.value, st.nr, count, now);
    PlacesConcat(st.skipped, added);
    PlacesStash(h[r].d, st.ckr.value, st.nr, count, now);
    forall n: nat | (h[r].d, n) in Places(added) ensures !IsSeen(st.skipped, gone, h[r].d, n) {
    }
    DistinctConcat(st.skipped, added);
    StashIsChain(h, r, st, count, now);
  }

  lemma SkipKeeps(h: History, next: nat, r: nat, st: RatchetState, gone: set<Place>, until: nat, now: int)
    requires HistoryOk(h, next) && RecvOk(h, next, r, st, gone)
    requires SkipMessageKeys(st, until, now).Ok?
    requires r == 0 ==> until == 0
    ensures var after := SkipMessageKeys(st, until, now).value;
            && RecvOk(h, next, r, after, gone + DroppedBySkip(st, until, now))
            && after.nr == st.nr + SatSub(until, st.nr)
            && after == st.(skipped := after.skipped, ckr := after.ckr, nr := after.nr)
  {
    hide TurnsLink, KemAligned, Evict, Stash;
    var after := SkipMessageKeys(st, until, now).value;
    var gone' := gone + DroppedBySkip(st, until, now);
    if r >= 1 {
      var count := SatSub(until, st.nr);
      var added := Stash(h[r].d, st.ckr.value, st.nr, count, now);
      StashJoins(h, next, r, st, gone, count, now);
      EvictKeepsDistinct(st.skipped + added, now);
      ChainAtAdds(h[r].chain, st.nr, count);
      assert Places(after.skipped) + gone' == Places(st.skipped) + Places(added) + gone;
      forall e, n: nat | 0 <= e < |h|
        ensures IsSeen(after.skipped, gone', h[e].d, n) <==> Reached(e, r) && n < Bound(h, after.nr, r, e)
      {
        assert IsSeen(after.skipped, gone', h[e].d, n)
          <==> IsSeen(st.skipped, gone, h[e].d, n) || (h[e].d, n) in Places(added);
      }
    } else {
      assert gone' == gone;
    }
  }

  /** The key found at `n` is the key message `n` was sealed under, and taking it consumes its place. */
  lemma TakeKeyKeeps(h: History, next: nat, r: nat, st: RatchetState, gone: set<Place>, n: nat, now: int)
    requires HistoryOk(h, next) && RecvOk(h, next, r, st, gone) && 1 <= r && st.nr <= n
    requires TakeKey(st, n, now).Ok?
    ensures var (mk, after) := TakeKey(st, n, now).value;
            && mk == KeyAt(h, r, n)
            && RecvOk(h, next, r, after, gone + DroppedBySkip(st, n, now) + {(h[r].d, n)})
            && after.nr == n + 1
            && after == st.(skipped := after.skipped, ckr := after.ckr, nr := after.nr)
  {
    SkipKeeps(h, next, r, st, gone, n, now);
    hide KemAligned, Evict, Stash, DroppedBySkip;
    var at := SkipMessageKeys(st, n, now).value;
    var after := TakeKey(st, n, now).value.1;
    var gone1 := gone + DroppedBySkip(st, n, now);
    var gone2 := gone1 + {(h[r].d, n)};
    assert !IsSeen(at.skipped, gone1, h[r].d, n);
    forall e, m: nat | 0 <= e < |h|
      ensures IsSeen(after.skipped, gone2, h[e].d, m) <==> Reached(e, r) && m < Bound(h, after.nr, r, e)
    {
      assert IsSeen(after.skipped, gone2, h[e].d, m) <==> IsSeen(at.skipped, gone1, h[e].d, m) || (e == r && m == n);
    }
  }

  /** A stashed key is right, and using it moves its place from the stash to the consumed ones. */
  lemma StashedKeeps(h: History, next: nat, r: nat, st: RatchetState, gone: set<Place>, e: nat, n: nat)
    requires HistoryOk(h, next) && RecvOk(h, next, r, st, gone) && 1 <= e < |h|
    requires FindSkipped(st.skipped, h[e].d, n) < |st.skipped|
    ensures var pos := FindSkipped(st.skipped, h[e].d, n);
            && st.skipped[pos].mk == KeyAt(h, e, n)
            && RecvOk(h, next, r, st.(skipped := RemoveAt(st.skipped, pos)), gone + {(h[e].d, n)})
  {
    var pos := FindSkipped(st.skipped, h[e].d, n);
    var after := st.(skipped := RemoveAt(st.skipped, pos));
    var gone' := gone + {(h[e].d, n)};
    PlacesRemoveAt(st.skipped, pos);
    assert st.skipped[pos] in st.skipped;
    assert (h[e].d, n) in Places(st.skipped);
    assert Places(after.skipped) + gone' == Places(st.skipped) + gone;
    forall f, m: nat | 0 <= f < |h|
      ensures IsSeen(after.skipped, gone', h[f].d, m) <==> Reached(f, r) && m < Bound(h, after.nr, r, f)
    {
      assert IsSeen(after.skipped, gone', h[f].d, m) <==> IsSeen(st.skipped, gone, h[f].d, m);
    }
  }

  // ── Growing the history ───────────────────────────────────────────────────

  /** The epoch that a state has just opened, as the history records it. */
  function OpenedEpoch(st: RatchetState): Epoch
    requires st.cks.Some?
  {
    Epoch(st.dhsPub, st.kemPub, st.sendKemCt, st.rk, st.cks.value, st.ns)
  }

  function Numbered(h: History, s: nat, len: nat): History
    requires s < |h|
  {
    h[s := h[s].(len := len)]
  }

  lemma NumberingKeepsHistory(h: History, next: nat, s: nat, len: nat)
    requires HistoryOk(h, next) && 1 <= s < |h|
    ensures HistoryOk(Numbered(h, s, len), next)
    ensures forall e, n: nat :: 0 <= e < |h| ==> KeyAt(Numbered(h, s, len), e, n) == KeyAt(h, e, n)
  {
  }

  lemma OwnerStays(h: History, h': History, d: KeyId)
    requires IsEpochKey(h, d) && |h| <= |h'| && forall e :: 0 <= e < |h| ==> h'[e].d == h[e].d
    ensures IsEpochKey(h', d)
  {
    var e :| 1 <= e < |h| && h[e].d == d;
    assert h'[e].d == d;
  }

  lemma ExtendingKeepsRecv(h: History, next: nat, r: nat, st: RatchetState, gone: set<Place>, ep: Epoch, next': nat)
    requires KeysFresh(h, next) && RecvOk(h, next, r, st, gone) && next <= ep.d < next'
    ensures RecvOk(h + [ep], next', r, st, gone)
  {
    var h' := h + [ep];
    forall e, n: nat | 0 <= e < |h'|
      ensures IsSeen(st.skipped, gone, h'[e].d, n) <==> Reached(e, r) && n < Bound(h', st.nr, r, e)
    {
      if e < |h| {
        assert IsSeen(st.skipped, gone, h'[e].d, n) <==> IsSeen(st.skipped, gone, h[e].d, n);
      }
    }
    forall e, k | 1 <= e < |h'| && k in st.skipped && k.dh == h'[e].d ensures k.mk == KeyAt(h', e, k.n) {
      assert (k.dh, k.n) in Places(st.skipped);
      assert k.dh == h[e].d;
    }
    forall k | k in st.skipped ensures IsEpochKey(h', k.dh) {
      OwnerStays(h, h', k.dh);
    }
  }

  // ── The turn ──────────────────────────────────────────────────────────────

  /** An honest turn is never refused, and its ciphertext opens under the current rolling key. */
  lemma TurnSecretAligned(h: History, next: nat, s: nat, st: RatchetState)
    requires HistoryOk(h, next) && SendOk(h, s, st) && s + 1 < |h|
    ensures TurnSecret(st, h[s + 1].kemCt) == Ok(TurnSs(h[s + 1].kemCt))
  {
  }

  /** What a newly opened epoch must satisfy for the history to stay well formed. */
  ghost predicate ExtendsHistory(h: History, next: nat, ep: Epoch, next': nat)
    requires |h| >= 2
  {
    var s := |h| - 2;
    && next <= ep.d < next'
    && (ep.root, ep.chain) == KdfRoot(h[s + 1].root, Dh(ep.d, h[s + 1].d), TurnSs(ep.kemCt))
    && (ep.kemCt.Some? <==> h[s + 1].kemPub.Some?)
    && (ep.kemCt.Some? ==>
          h[s + 1].kemPub == Some(ep.kemCt.value.pk) && ep.kemPub.Some? && next <= ep.kemPub.value < next')
    && (ep.kemCt.None? ==> ep.kemPub == h[s].kemPub)
  }

  lemma ExtensionKeepsLinks(h: History, next: nat, ep: Epoch, next': nat)
    requires TurnsLink(h) && KeysFresh(h, next) && ExtendsHistory(h, next, ep, next')
    ensures TurnsLink(h + [ep]) && KeysFresh(h + [ep], next')
  {
    var h' := h + [ep];
    forall e | 1 <= e < |h'|
      ensures (h'[e].root, h'[e].chain) == KdfRoot(h'[e - 1].root, Dh(h'[e].d, h'[e - 1].d), TurnSs(h'[e].kemCt))
    {
      assert h'[e - 1] == h[e - 1];
      assert e < |h| ==> h'[e] == h[e];
    }
  }

  lemma ExtensionKeepsDistinctKemKeys(h: History, next: nat, ep: Epoch, next': nat)
    requires KemAligned(h, next) && ExtendsHistory(h, next, ep, next')
    ensures KemKeysApart(h + [ep])
  {
    var h', last := h + [ep], |h|;
    forall e, f | 0 <= e < |h'| && 0 <= f < |h'| && OtherSide(e, f) && h'[e].kemPub.Some?
      ensures h'[e].kemPub != h'[f].kemPub
    {
      if e < last && f < last {
        assert h'[e] == h[e] && h'[f] == h[f];
      } else if e < last {
        assert h'[e] == h[e] && OtherSide(e, last - 2);
      } else {
        assert h'[f] == h[f] && OtherSide(last - 2, f);
      }
    }
  }

  lemma ExtensionKeepsKem(h: History, next: nat, ep: Epoch, next': nat)
    requires KemAligned(h, next) && next < next' && ExtendsHistory(h, next, ep, next')
    ensures KemAligned(h + [ep], next')
  {
    var h', last := h + [ep], |h|;
    assert h'[last] == ep && h'[last - 1] == h[last - 1] && h'[last - 2] == h[last - 2];
    ExtensionKeepsDistinctKemKeys(h, next, ep, next');
    forall e | 0 <= e && e + 2 < |h'| && h'[e].kemPub.Some? ensures h'[e + 2].kemPub.Some? {
      assert h'[e] == h[e];
    }
    forall e | 2 <= e && e + 1 < |h'| && h'[e].kemPub.Some? ensures h'[e + 1].kemCt.Some? {
      assert h'[e] == h[e];
    }
    hide KemKeysApart, OtherSide;
  }

  lemma ExtensionKeepsHistory(h: History, next: nat, ep: Epoch, next': nat)
    requires HistoryOk(h, next) && next < next' && ExtendsHistory(h, next, ep, next')
    ensures HistoryOk(h + [ep], next')
  {
    hide TurnsLink, KeysFresh, KemAligned, ExtendsHistory;
    ExtensionKeepsLinks(h, next, ep, next');
    ExtensionKeepsKem(h, next, ep, next');
  }

  /** Noting the key that came with the turn leaves the state knowing exactly that key. */
  lemma NotedKemKey(h: History, next: nat, s: nat, st: RatchetState)
    requires HistoryOk(h, next) && SendOk(h, s, st) && s + 1 < |h|
    ensures var noted := if h[s + 1].kemPub.Some? then st.(peerKemPub := h[s + 1].kemPub) else st;
            noted == st.(peerKemPub := h[s + 1].kemPub)
  {
    if h[s + 1].kemPub.None? && st.peerKemPub.Some? {
      assert h[s - 1].kemPub.Some?;
      assert h[(s - 1) + 2].kemPub.Some?;
    }
  }

  lemma TurnOpensEpoch(h: History, next: nat, s: nat, st: RatchetState, turned: RatchetState, next': nat)
    requires HistoryOk(h, next) && SendOk(h, s, st) && s + 2 == |h| && next' == next + 3
    requires turned == DhRatchet(st.(peerKemPub := h[s + 1].kemPub), h[s + 1].d, TurnSs(h[s + 1].kemCt),
                                 Randomness(next, next + 1, next + 2))
    ensures turned.cks.Some?
    ensures ExtendsHistory(h, next, OpenedEpoch(turned), next')
    ensures SendOk(h + [OpenedEpoch(turned)], s + 2, turned)
    ensures turned.ckr == Some(h[s + 1].chain) && turned.dhrPub == Some(h[s + 1].d) && turned.nr == 0
    ensures turned.skipped == st.skipped && turned.ns == 0
  {
    assert KdfRoot(h[s].root, Dh(h[s + 1].d, h[s].d), TurnSs(h[s + 1].kemCt)) == (h[s + 1].root, h[s + 1].chain);
  }
}
