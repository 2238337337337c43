/**
 The ratchet as the program runs it: one mutable record that every step updates
 in place. Each method is proved against the function of the same name in
 RatchetSpec. A failed step promises nothing about the fields, because callers
 only ever run steps that can fail on a clone.
 */
module Ratchet {
  import opened Wrappers
  import opened SymbolicCrypto
  import Spec = RatchetSpec
  import opened RatchetSpec

  class DoubleRatchet {
    var rk: Term
    var cks: Option<Term>
    var ckr: Option<Term>
    var dhsPriv: KeyId
    var dhsPub: KeyId
    var dhrPub: Option<KeyId>
    var ns: nat
    var nr: nat
    var pn: nat
    var skipped: seq<SkippedKey>
    var kemPriv: Option<KeyId>
    var kemPub: Option<KeyId>
    var peerKemPub: Option<KeyId>
    var sendKemCt: Option<KemCt>
    /** How often the chain KDF has run, for the work bound. */
    ghost var kdfCkCalls: nat

    function State(): RatchetState
      reads this
    {
      RatchetState(rk, cks, ckr, dhsPriv, dhsPub, dhrPub, ns, nr, pn, skipped,
                   kemPriv, kemPub, peerKemPub, sendKemCt)
    }

    constructor (st: RatchetState)
      ensures State() == st && kdfCkCalls == 0
    {
      rk, cks, ckr := st.rk, st.cks, st.ckr;
      dhsPriv, dhsPub, dhrPub := st.dhsPriv, st.dhsPub, st.dhrPub;
      ns, nr, pn, skipped := st.ns, st.nr, st.pn, st.skipped;
      kemPriv, kemPub, peerKemPub, sendKemCt := st.kemPriv, st.kemPub, st.peerKemPub, st.sendKemCt;
      kdfCkCalls := 0;
    }

    /** The receiving half of a turn: a new receiving chain, hybrid iff a KEM secret came with it. */
    method TurnReceiving(dhPub: KeyId, recvSs: Option<Term>)
      modifies this`pn, this`ns, this`nr, this`dhrPub, this`ckr, this`rk
      ensures State() == Spec.TurnReceiving(old(State()), dhPub, recvSs)
    {
      var (rk1, ckrNew) := KdfRoot(rk, Dh(dhsPriv, dhPub), recvSs);
      pn := ns;
      ns := 0;
      nr := 0;
      dhrPub := Some(dhPub);
      ckr := Some(ckrNew);
      rk := rk1;
    }

    /** The sending half: a fresh key pair, and a fresh KEM pair iff the peer's KEM key is known. */
    method MintSending(dhPub: KeyId, rnd: Randomness)
      modifies this`kemPriv, this`kemPub, this`sendKemCt, this`rk, this`cks, this`dhsPriv, this`dhsPub
      ensures State() == Spec.MintSending(old(State()), dhPub, rnd)
    {
      hide KdfRk, KdfRkHybrid, Dh, Encapsulated;
      if peerKemPub.Some? {
        var ct := KemCt(peerKemPub.value, rnd.enc);
        var (rk2, cksNew) := KdfRkHybrid(rk, Dh(rnd.dh, dhPub), Encapsulated(ct));
        kemPriv, kemPub, sendKemCt := Some(rnd.kem), Some(rnd.kem), Some(ct);
        rk, cks := rk2, Some(cksNew);
      } else {
        var (rk2, cksNew) := KdfRk(rk, Dh(rnd.dh, dhPub));
        sendKemCt := None;
        rk, cks := rk2, Some(cksNew);
      }
      dhsPriv, dhsPub := rnd.dh, rnd.dh;
    }

    method DhRatchet(dhPub: KeyId, recvSs: Option<Term>, rnd: Randomness)
      modifies this
      ensures State() == Spec.DhRatchet(old(State()), dhPub, recvSs, rnd)
      ensures kdfCkCalls == old(kdfCkCalls)
    {
      TurnReceiving(dhPub, recvSs);
      MintSending(dhPub, rnd);
    }

    method EvictSkipped(now: int)
      modifies this`skipped
      ensures skipped == Evict(old(skipped), now)
    {
      skipped := Retained(skipped, now - SKIPPED_TTL_MS);
      if |skipped| > MAX_SKIPPED_KEYS {
        var drop := |skipped| - MAX_SKIPPED_KEYS;
        skipped := skipped[drop..];
      }
    }

    method SkipMessageKeys(until: nat, now: int) returns (err: Option<RatchetError>)
      modifies this`skipped, this`ckr, this`nr, this`kdfCkCalls
      ensures match Spec.SkipMessageKeys(old(State()), until, now)
              case Ok(st) => err.None? && State() == st
              case Err(e) => err == Some(e) && State() == old(State())
      ensures kdfCkCalls <= old(kdfCkCalls) + SatSub(until, old(nr))
      ensures err.Some? ==> kdfCkCalls == old(kdfCkCalls)
    {
      hide Evict;
      if until > nr + MAX_SKIP {
        return Some(SkipPastMax);
      }
      if ckr.None? {
        return None;
      }
      if dhrPub.None? {
        return Some(SkipWithoutDhr);
      }
      var dhr, ck := dhrPub.value, ckr.value;
      ghost var from, ck0, before := nr, ck, skipped;
      while nr < until
        invariant from <= nr && (nr <= until || nr == from)
        invariant ck == ChainAt(ck0, nr - from)
        invariant skipped == before + Stash(dhr, ck0, from, nr - from, now)
        invariant kdfCkCalls == old(kdfCkCalls) + nr - from
      {
        var (mk, next) := KdfCk(ck);
        kdfCkCalls := kdfCkCalls + 1;
        skipped := skipped + [SkippedKey(dhr, nr, mk, now)];
        ck := next;
        nr := nr + 1;
      }
      ckr := Some(ck);
      EvictSkipped(now);
      return None;
    }

    method TrySkipped(dh: KeyId, n: nat) returns (mk: Option<Term>)
      modifies this`skipped
      ensures var pos := FindSkipped(old(skipped), dh, n);
              if pos < |old(skipped)|
              then mk == Some(old(skipped)[pos].mk) && skipped == RemoveAt(old(skipped), pos)
              else mk == None && skipped == old(skipped)
    {
      var pos := FindSkipped(skipped, dh, n);
      if pos < |skipped| {
        mk := Some(skipped[pos].mk);
        skipped := RemoveAt(skipped, pos);
      } else {
        mk := None;
      }
    }

    method StepSend() returns (r: Result<(Term, Header), RatchetError>)
      modifies this
      ensures match Spec.StepSend(old(State()))
              case Ok((mk, hdr, st)) => r == Ok((mk, hdr)) && State() == st
              case Err(e) => r == Err(e) && State() == old(State())
    {
      if cks.None? {
        return Err(NoSendingChain);
      }
      var (mk, next) := KdfCk(cks.value);
      kdfCkCalls := kdfCkCalls + 1;
      cks := Some(next);
      var hdr := Header(dhsPub, pn, ns, sendKemCt, kemPub);
      ns := ns + 1;
      return Ok((mk, hdr));
    }

    /** Finish the old receiving chain at the header's `pn`, then turn onto its key. */
    method Turn(hdr: Header, now: int, rnd: Randomness) returns (err: Option<RatchetError>)
      modifies this
      ensures match Spec.Turn(old(State()), hdr, now, rnd)
              case Ok(st) => err.None? && State() == st
              case Err(e) => err == Some(e)
      ensures kdfCkCalls <= old(kdfCkCalls) + SatSub(hdr.pn, old(nr))
    {
      var ss: Option<Term> := None;
      if hdr.kemCt.Some? {
        if kemPriv.None? {
          return Some(NoRollingKemPrivate);
        }
        ss := Some(Decapsulate(hdr.kemCt.value, kemPriv.value));
      } else if peerKemPub.Some? {
        return Some(DowngradeRefused);
      }
      if hdr.kemPub.Some? {
        peerKemPub := hdr.kemPub;
      }
      err := SkipMessageKeys(hdr.pn, now);
      if err.Some? {
        return err;
      }
      DhRatchet(hdr.dh, ss, rnd);
    }

    /** Skip within the current chain to `n` and take the key found there. */
    method TakeKey(n: nat, now: int) returns (r: Result<Term, RatchetError>)
      modifies this
      ensures match Spec.TakeKey(old(State()), n, now)
              case Ok((mk, st)) => r == Ok(mk) && State() == st
              case Err(e) => r == Err(e)
      ensures kdfCkCalls <= old(kdfCkCalls) + SatSub(n, old(nr)) + 1
    {
      var err := SkipMessageKeys(n, now);
      if err.Some? {
        return Err(err.value);
      }
      if ckr.None? {
        return Err(NoReceivingChain);
      }
      var (mk, next) := KdfCk(ckr.value);
      kdfCkCalls := kdfCkCalls + 1;
      ckr := Some(next);
      nr := nr + 1;
      return Ok(mk);
    }

    /**
     Whatever the cleartext header claims, at most MAX_SKIP + 1 chain steps run: the
     old chain and the new one share one budget.
     */
    method StepRecv(hdr: Header, now: int, rnd: Randomness) returns (r: Result<Term, RatchetError>)
      modifies this
      ensures match Spec.StepRecv(old(State()), hdr, now, rnd)
              case Ok((mk, st)) => r == Ok(mk) && State() == st
              case Err(e) => r == Err(e)
      ensures kdfCkCalls <= old(kdfCkCalls) + MAX_SKIP + 1
    {
      var stashed := TrySkipped(hdr.dh, hdr.n);
      if stashed.Some? {
        return Ok(stashed.value);
      }
      var newEpoch := dhrPub != Some(hdr.dh);
      var oldSkip := if newEpoch then SatSub(hdr.pn, nr) else 0;
      var start := if newEpoch then 0 else nr;
      var total := oldSkip + SatSub(hdr.n, start);
      if total > MAX_SKIP {
        return Err(CombinedSkipPastMax);
      }
      if newEpoch {
        var err := Turn(hdr, now, rnd);
        if err.Some? {
          return Err(err.value);
        }
      }
      r := TakeKey(hdr.n, now);
    }
  }
}
