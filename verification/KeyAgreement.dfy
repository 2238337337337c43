/**
 One honest delivery: when the receiving side finds the key its peer used, and that
 both sides still agree with the shared history afterwards.
 */
module KeyAgreement {
  import opened Wrappers
  import opened SymbolicCrypto
  import opened RatchetSpec
  import opened SkippedKeys
  import opened Epochs

  function Mint(next: nat): Randomness {
    Randomness(next, next + 1, next + 2)
  }

  /** Stashed, or within MAX_SKIP of the reading head, counting the rest of the old chain on a turn. */
  ghost predicate Openable(h: History, s: nat, st: RatchetState, e: nat, n: nat)
    requires 1 <= s && e < |h| && s - 1 < |h|
  {
    || (h[e].d, n) in Places(st.skipped)
    || (e + 1 == s && st.nr <= n <= st.nr + MAX_SKIP)
    || (e == s + 1 && h[s - 1].len - st.nr + n <= MAX_SKIP)
  }

  /** The receiver's step hands out exactly the key that message `n` of epoch `e` was sealed under. */
  ghost predicate Opens(h: History, st: RatchetState, e: nat, n: nat, now: int, rnd: Randomness)
    requires e < |h|
  {
    var r := StepRecv(st, HeaderAt(h, e, n), now, rnd);
    r.Ok? && r.value.0 == KeyAt(h, e, n)
  }

  /** The history after a delivery: one epoch longer if the delivery turned the ratchet. */
  function Recorded(h: History, before: RatchetState, after: RatchetState): History {
    if after.dhsPub != before.dhsPub && after.cks.Some? then h + [OpenedEpoch(after)] else h
  }

  ghost predicate AgreesAfter(h: History, next: nat, s: nat, st: RatchetState, gone: set<Place>, e: nat, n: nat,
                              now: int)
    requires e < |h|
  {
    var hdr := HeaderAt(h, e, n);
    var r := StepRecv(st, hdr, now, Mint(next));
    && r.Ok?
    && var after := r.value.1;
    && var h' := Recorded(h, st, after);
    && HistoryOk(h', next + 3)
    && SideOk(h', next + 3, if |h'| > |h| then s + 2 else s, after,
              gone + DroppedByRecv(st, hdr, now, Mint(next)) + {(h[e].d, n)})
  }

  lemma WiderNext(h: History, next: nat, next': nat)
    requires HistoryOk(h, next) && next <= next'
    ensures HistoryOk(h, next')
  {
  }

  lemma WiderRecv(h: History, next: nat, next': nat, r: nat, st: RatchetState, gone: set<Place>)
    requires RecvOk(h, next, r, st, gone) && next <= next'
    ensures RecvOk(h, next', r, st, gone)
  {
  }

  /** A delivery that opens no epoch: enough that the receiving half is in order. */
  lemma SameEpochAgrees(h: History, next: nat, s: nat, st: RatchetState, gone: set<Place>, e: nat, n: nat, now: int,
                        after: RatchetState, gone': set<Place>)
    requires HistoryOk(h, next) && SideOk(h, next, s, st, gone) && e < |h|
    requires StepRecv(st, HeaderAt(h, e, n), now, Mint(next)) == Ok((KeyAt(h, e, n), after))
    requires after == st.(skipped := after.skipped, ckr := after.ckr, nr := after.nr)
    requires after.nr <= h[s - 1].len && RecvOk(h, next, s - 1, after, gone')
    requires gone' == gone + DroppedByRecv(st, HeaderAt(h, e, n), now, Mint(next)) + {(h[e].d, n)}
    ensures Opens(h, st, e, n, now, Mint(next)) && AgreesAfter(h, next, s, st, gone, e, n, now)
  {
    hide StepRecv, DroppedByRecv, HistoryOk, RecvOk;
    WiderNext(h, next, next + 3);
    WiderRecv(h, next, next + 3, s - 1, after, gone');
    assert Recorded(h, st, after) == h;
    assert SendOk(h, s, after);
  }

  lemma StashedOpens(h: History, next: nat, s: nat, st: RatchetState, gone: set<Place>, e: nat, n: nat, now: int)
    requires HistoryOk(h, next) && SideOk(h, next, s, st, gone) && 1 <= e < |h|
    requires (h[e].d, n) in Places(st.skipped)
    ensures Opens(h, st, e, n, now, Mint(next)) && AgreesAfter(h, next, s, st, gone, e, n, now)
  {
    hide HistoryOk, RecvOk, AgreesAfter, Evict;
    FindSkippedMeansPresent(st.skipped, h[e].d, n);
    StashedKeeps(h, next, s - 1, st, gone, e, n);
    var pos := FindSkipped(st.skipped, h[e].d, n);
    var after := st.(skipped := RemoveAt(st.skipped, pos));
    assert gone + DroppedByRecv(st, HeaderAt(h, e, n), now, Mint(next)) + {(h[e].d, n)} == gone + {(h[e].d, n)};
    SameEpochAgrees(h, next, s, st, gone, e, n, now, after, gone + {(h[e].d, n)});
  }

  /** In the current receiving chain: the key iff the position is ahead and within MAX_SKIP. */
  lemma CurrentEpochOpens(h: History, next: nat, s: nat, st: RatchetState, gone: set<Place>, n: nat, now: int)
    requires HistoryOk(h, next) && SideOk(h, next, s, st, gone) && s >= 2 && n < h[s - 1].len
    requires (h[s - 1].d, n) !in Places(st.skipped)
    ensures Opens(h, st, s - 1, n, now, Mint(next)) <==> Openable(h, s, st, s - 1, n)
    ensures Openable(h, s, st, s - 1, n) ==> AgreesAfter(h, next, s, st, gone, s - 1, n, now)
  {
    FindSkippedMeansPresent(st.skipped, h[s - 1].d, n);
    if n < st.nr {
      // the step succeeds, but with the key at nr
      KeysDiffer(h, s - 1, n, s - 1, st.nr);
    } else if n <= st.nr + MAX_SKIP {
      TakeKeyKeeps(h, next, s - 1, st, gone, n, now);
      var after := TakeKey(st, n, now).value.1;
      SameEpochAgrees(h, next, s, st, gone, s - 1, n, now, after,
                      gone + DroppedBySkip(st, n, now) + {(h[s - 1].d, n)});
    }
  }

  /** Turning keeps the receiving side in order: the old chain is finished, the new one untouched. */
  lemma TurnKeepsRecv(h: History, next: nat, s: nat, at: RatchetState, turned: RatchetState, gone: set<Place>)
    requires HistoryOk(h, next) && 1 <= s && s + 1 < |h| && RecvOk(h, next, s - 1, at, gone)
    requires at.nr == h[s - 1].len
    requires turned.ckr == Some(h[s + 1].chain) && turned.dhrPub == Some(h[s + 1].d) && turned.nr == 0
    requires turned.skipped == at.skipped
    ensures RecvOk(h, next, s + 1, turned, gone)
  {
    forall e, n: nat | 0 <= e < |h|
      ensures IsSeen(turned.skipped, gone, h[e].d, n) <==> Reached(e, s + 1) && n < Bound(h, 0, s + 1, e)
    {
      assert IsSeen(at.skipped, gone, h[e].d, n) <==> Reached(e, s - 1) && n < Bound(h, at.nr, s - 1, e);
    }
  }

  /** A turn onto a genuine header is a skip to the old chain's end and then the DH ratchet. */
  lemma TurnUnfolds(h: History, next: nat, s: nat, st: RatchetState, n: nat, now: int)
    requires HistoryOk(h, next) && SendOk(h, s, st) && s + 1 < |h|
    requires SkipMessageKeys(st.(peerKemPub := h[s + 1].kemPub), PrevLen(h, s + 1), now).Ok?
    ensures var at := SkipMessageKeys(st.(peerKemPub := h[s + 1].kemPub), PrevLen(h, s + 1), now).value;
            Turn(st, HeaderAt(h, s + 1, n), now, Mint(next))
              == Ok(DhRatchet(at, h[s + 1].d, TurnSs(h[s + 1].kemCt), Mint(next)))
    ensures DroppedBySkip(st.(peerKemPub := h[s + 1].kemPub), PrevLen(h, s + 1), now)
         == DroppedBySkip(st, PrevLen(h, s + 1), now)
  {
    hide DhRatchet, HistoryOk;
    assert TurnSecret(st, h[s + 1].kemCt) == Ok(TurnSs(h[s + 1].kemCt)) by {
      TurnSecretAligned(h, next, s, st);
    }
    assert (if h[s + 1].kemPub.Some? then st.(peerKemPub := h[s + 1].kemPub) else st)
        == st.(peerKemPub := h[s + 1].kemPub) by {
      NotedKemKey(h, next, s, st);
    }
  }

  /** The turn itself: onto the peer's chain, with a fresh epoch of our own behind it. */
  lemma TurnAgrees(h: History, next: nat, s: nat, st: RatchetState, gone: set<Place>, n: nat, now: int)
    requires HistoryOk(h, next) && SideOk(h, next, s, st, gone) && s + 1 < |h|
    requires h[s - 1].len - st.nr <= MAX_SKIP
    ensures var hdr := HeaderAt(h, s + 1, n);
            var r := Turn(st, hdr, now, Mint(next));
            && r.Ok?
            && var turned := r.value;
            && turned.cks.Some? && turned.nr == 0 && turned.dhsPub != st.dhsPub
            && var h' := h + [OpenedEpoch(turned)];
            && HistoryOk(h', next + 3)
            && SendOk(h', s + 2, turned)
            && RecvOk(h', next + 3, s + 1, turned, gone + DroppedBySkip(st, hdr.pn, now))
  {
    hide Turn, DhRatchet, DroppedBySkip;
    var pn := PrevLen(h, s + 1);
    var noted := st.(peerKemPub := h[s + 1].kemPub);
    var gone1 := gone + DroppedBySkip(noted, pn, now);
    assert RecvOk(h, next, s - 1, noted, gone);
    SkipKeeps(h, next, s - 1, noted, gone, pn, now);
    var at := SkipMessageKeys(noted, pn, now).value;
    TurnUnfolds(h, next, s, st, n, now);
    var turned := DhRatchet(at, h[s + 1].d, TurnSs(h[s + 1].kemCt), Mint(next));
    TurnedAgrees(h, next, s, st, at, turned, gone1);
  }

  lemma TurnedAgrees(h: History, next: nat, s: nat, st: RatchetState, at: RatchetState, turned: RatchetState,
                     gone: set<Place>)
    requires HistoryOk(h, next) && SendOk(h, s, st) && s + 2 == |h|
    requires at == st.(peerKemPub := h[s + 1].kemPub, skipped := at.skipped, ckr := at.ckr, nr := at.nr)
    requires RecvOk(h, next, s - 1, at, gone) && at.nr == h[s - 1].len
    requires turned == DhRatchet(at, h[s + 1].d, TurnSs(h[s + 1].kemCt), Mint(next))
    ensures turned.cks.Some? && turned.nr == 0 && turned.dhsPub != st.dhsPub
    ensures HistoryOk(h + [OpenedEpoch(turned)], next + 3)
    ensures SendOk(h + [OpenedEpoch(turned)], s + 2, turned)
    ensures RecvOk(h + [OpenedEpoch(turned)], next + 3, s + 1, turned, gone)
  {
    hide DhRatchet, RecvOk, HistoryOk;
    HistoryHasFreshKeys(h, next);
    var before := at.(peerKemPub := st.peerKemPub);
    assert SendOk(h, s, before);
    assert at == before.(peerKemPub := h[s + 1].kemPub);
    TurnOpensEpoch(h, next, s, before, turned, next + 3);
    TurnKeepsRecv(h, next, s, at, turned, gone);
    ExtensionKeepsHistory(h, next, OpenedEpoch(turned), next + 3);
    ExtendingKeepsRecv(h, next, s + 1, turned, gone, OpenedEpoch(turned), next + 3);
  }

  /** The first message of the peer's next epoch to arrive turns the ratchet iff the skip is in budget. */
  lemma NextEpochOpens(h: History, next: nat, s: nat, st: RatchetState, gone: set<Place>, n: nat, now: int)
    requires HistoryOk(h, next) && SideOk(h, next, s, st, gone) && s + 1 < |h| && n < h[s + 1].len
    ensures Opens(h, st, s + 1, n, now, Mint(next)) <==> Openable(h, s, st, s + 1, n)
    ensures Openable(h, s, st, s + 1, n) ==> AgreesAfter(h, next, s, st, gone, s + 1, n, now)
  {
    hide Turn, TakeKey;
    var hdr := HeaderAt(h, s + 1, n);
    assert !IsSeen(st.skipped, gone, h[s + 1].d, n);
    FindSkippedMeansPresent(st.skipped, h[s + 1].d, n);
    if h[s - 1].len - st.nr + n <= MAX_SKIP {
      TurnAgrees(h, next, s, st, gone, n, now);
      var turned := Turn(st, hdr, now, Mint(next)).value;
      TurnedDelivers(h, next, s, st, gone, n, now, turned);
    }
  }

  lemma TurnedDelivers(h: History, next: nat, s: nat, st: RatchetState, gone: set<Place>, n: nat, now: int,
                       turned: RatchetState)
    requires SideOk(h, next, s, st, gone) && s + 1 < |h| && n < h[s + 1].len && n <= MAX_SKIP
    requires turned.cks.Some? && turned.nr == 0 && turned.dhsPub != st.dhsPub
    requires HistoryOk(h + [OpenedEpoch(turned)], next + 3)
    requires SendOk(h + [OpenedEpoch(turned)], s + 2, turned)
    requires RecvOk(h + [OpenedEpoch(turned)], next + 3, s + 1, turned,
                    gone + DroppedBySkip(st, PrevLen(h, s + 1), now))
    requires StepRecv(st, HeaderAt(h, s + 1, n), now, Mint(next)) == TakeKey(turned, n, now)
    requires DroppedByRecv(st, HeaderAt(h, s + 1, n), now, Mint(next))
          == DroppedBySkip(st, PrevLen(h, s + 1), now) + DroppedBySkip(turned, n, now)
    ensures Opens(h, st, s + 1, n, now, Mint(next))
    ensures AgreesAfter(h, next, s, st, gone, s + 1, n, now)
  {
    hide StepRecv, DroppedByRecv, DroppedBySkip, HistoryOk;
    var h' := h + [OpenedEpoch(turned)];
    var gone1 := gone + DroppedBySkip(st, PrevLen(h, s + 1), now);
    TakeKeyKeeps(h', next + 3, s + 1, turned, gone1, n, now);
    assert h'[s + 1] == h[s + 1];
    var after := TakeKey(turned, n, now).value.1;
    assert OpenedEpoch(after) == OpenedEpoch(turned);
    assert Recorded(h, st, after) == h';
    assert SendOk(h', s + 2, after);
    assert gone1 + DroppedBySkip(turned, n, now) + {(h[s + 1].d, n)}
        == gone + (DroppedBySkip(st, PrevLen(h, s + 1), now) + DroppedBySkip(turned, n, now)) + {(h[s + 1].d, n)};
  }

  /** A key of an epoch before the current one that is no longer stashed stays closed. */
  lemma OldEpochStaysClosed(h: History, next: nat, s: nat, st: RatchetState, gone: set<Place>, e: nat, n: nat, now: int)
    requires HistoryOk(h, next) && SideOk(h, next, s, st, gone) && 1 <= e && e + 1 < s
    requires (h[e].d, n) !in Places(st.skipped)
    ensures !Opens(h, st, e, n, now, Mint(next))
  {
    var hdr := HeaderAt(h, e, n);
    FindSkippedMeansPresent(st.skipped, h[e].d, n);
    var r := StepRecv(st, hdr, now, Mint(next));
    if r.Ok? {
      // the step turned the root onto a dead key: its chain hangs below our current root
      var turned := Turn(st, hdr, now, Mint(next)).value;
      var count := SatSub(n, 0);
      ChainAtDepths(turned.ckr.value, count);
      RootDepthIsEpoch(h, s);
      RootDepthIsEpoch(h, e);
      ChainAtDepths(h[e].chain, n);
    }
  }

  /**
   The central theorem of the ratchet. Whatever was reordered, lost or duplicated before,
   a genuine message opens exactly when its key is stashed or lies within the skip budget;
   it then opens under the very key it was sealed under, and both sides stay in agreement.
   */
  lemma GenuineDelivery(h: History, next: nat, s: nat, st: RatchetState, gone: set<Place>, e: nat, n: nat, now: int)
    requires HistoryOk(h, next) && SideOk(h, next, s, st, gone)
    requires 1 <= e < |h| && (e - s) % 2 == 1 && n < h[e].len
    ensures Opens(h, st, e, n, now, Mint(next)) <==> Openable(h, s, st, e, n)
    ensures Openable(h, s, st, e, n) ==> AgreesAfter(h, next, s, st, gone, e, n, now)
  {
    if (h[e].d, n) in Places(st.skipped) {
      StashedOpens(h, next, s, st, gone, e, n, now);
    } else if e + 1 == s {
      CurrentEpochOpens(h, next, s, st, gone, n, now);
    } else if e == s + 1 {
      NextEpochOpens(h, next, s, st, gone, n, now);
    } else {
      OldEpochStaysClosed(h, next, s, st, gone, e, n, now);
    }
  }

  /** In terms of what happened: a key neither consumed nor evicted opens, unless it is too far ahead. */
  lemma UnspentKeyOpens(h: History, next: nat, s: nat, st: RatchetState, gone: set<Place>, e: nat, n: nat, now: int)
    requires HistoryOk(h, next) && SideOk(h, next, s, st, gone)
    requires 1 <= e < |h| && (e - s) % 2 == 1 && n < h[e].len
    requires TotalSkip(st, HeaderAt(h, e, n)) <= MAX_SKIP
    ensures Opens(h, st, e, n, now, Mint(next)) <==> (h[e].d, n) !in gone
  {
    GenuineDelivery(h, next, s, st, gone, e, n, now);
    UnspentMeansOpenable(h, next, s, st, gone, e, n);
  }

  lemma UnspentMeansOpenable(h: History, next: nat, s: nat, st: RatchetState, gone: set<Place>, e: nat, n: nat)
    requires HistoryOk(h, next) && SideOk(h, next, s, st, gone)
    requires 1 <= e < |h| && (e - s) % 2 == 1 && n < h[e].len
    requires TotalSkip(st, HeaderAt(h, e, n)) <= MAX_SKIP
    ensures Openable(h, s, st, e, n) <==> (h[e].d, n) !in gone
  {
    assert IsSeen(st.skipped, gone, h[e].d, n) <==> Reached(e, s - 1) && n < Bound(h, st.nr, s - 1, e);
    assert (h[e].d, n) in Places(st.skipped) ==> (h[e].d, n) !in gone;
  }
}
