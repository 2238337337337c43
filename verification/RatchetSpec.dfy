/**
 The Double Ratchet as functions on values: what every step of the state machine
 computes. The imperative class in Ratchet.dfy is proved against these functions,
 and the whole-run theorems in Runs.dfy, Guarantees.dfy and Secrecy.dfy are about them.
 */
module RatchetSpec {
  import opened Wrappers
  import opened SymbolicCrypto

  const MAX_SKIP: nat := 1000
  const MAX_SKIPPED_KEYS: nat := 2000
  const SKIPPED_TTL_MS: int := 7 * 24 * 60 * 60 * 1000

  /** A message key derived early and stashed until its message arrives. */
  datatype SkippedKey = SkippedKey(dh: KeyId, n: nat, mk: Term, storedAt: int)

  /** The page header that rides on every ratchet message. */
  datatype Header = Header(dh: KeyId, pn: nat, n: nat, kemCt: Option<KemCt>, kemPub: Option<KeyId>)

  datatype RatchetState = RatchetState(
    rk: Term,
    cks: Option<Term>,
    ckr: Option<Term>,
    dhsPriv: KeyId,
    dhsPub: KeyId,
    dhrPub: Option<KeyId>,
    ns: nat,
    nr: nat,
    pn: nat,
    skipped: seq<SkippedKey>,
    kemPriv: Option<KeyId>,
    kemPub: Option<KeyId>,
    peerKemPub: Option<KeyId>,
    sendKemCt: Option<KemCt>)

  /** The randomness one DH turn draws: a ratchet key pair, an encapsulation, a KEM key pair. */
  datatype Randomness = Randomness(dh: KeyId, enc: nat, kem: KeyId)

  datatype RatchetError =
    | NoSendingChain
    | NoReceivingChain
    | SkipPastMax
    | SkipWithoutDhr
    | CombinedSkipPastMax
    | NoRollingKemPrivate
    | DowngradeRefused

  /**
   Saturating subtraction. The program's saturating additions need no counterpart: their
   results are only compared with numbers in u32 range, and there plain addition decides
   the same way.
   */
  function SatSub(a: nat, b: nat): nat {
    if a >= b then a - b else 0
  }

  /** The accepter's state: a sending chain at once, against the inviter's prekey. */
  function InitInitiator(sk: Term, peerPrekey: KeyId, rnd: Randomness): RatchetState {
    var (rk, cks) := KdfRk(sk, Dh(rnd.dh, peerPrekey));
    RatchetState(rk, Some(cks), None, rnd.dh, rnd.dh, Some(peerPrekey), 0, 0, 0, [],
                 Some(rnd.kem), Some(rnd.kem), None, None)
  }

  /** The inviter's state, turned once against the accepter's first ratchet key. */
  function InitResponder(sk: Term, prekey: KeyId, peerDh: KeyId, peerKem: Option<KeyId>, kem: KeyId, rnd: Randomness)
    : RatchetState
  {
    DhRatchet(RatchetState(sk, None, None, prekey, prekey, None, 0, 0, 0, [],
                           Some(kem), Some(kem), peerKem, None),
              peerDh, None, rnd)
  }

  /** Into the peer's new chain. */
  function TurnReceiving(st: RatchetState, dhPub: KeyId, recvSs: Option<Term>): RatchetState {
    var (rk, ckr) := KdfRoot(st.rk, Dh(st.dhsPriv, dhPub), recvSs);
    st.(pn := st.ns, ns := 0, nr := 0, dhrPub := Some(dhPub), ckr := Some(ckr), rk := rk)
  }

  /** Into a fresh chain of our own; the old private keys are overwritten. */
  function MintSending(st: RatchetState, dhPub: KeyId, rnd: Randomness): RatchetState {
    match st.peerKemPub
    case Some(peerKem) =>
      var ct := KemCt(peerKem, rnd.enc);
      var (rk, cks) := KdfRkHybrid(st.rk, Dh(rnd.dh, dhPub), Encapsulated(ct));
      st.(rk := rk, cks := Some(cks), dhsPriv := rnd.dh, dhsPub := rnd.dh,
          kemPriv := Some(rnd.kem), kemPub := Some(rnd.kem), sendKemCt := Some(ct))
    case None =>
      var (rk, cks) := KdfRk(st.rk, Dh(rnd.dh, dhPub));
      st.(rk := rk, cks := Some(cks), dhsPriv := rnd.dh, dhsPub := rnd.dh, sendKemCt := None)
  }

  function DhRatchet(st: RatchetState, dhPub: KeyId, recvSs: Option<Term>, rnd: Randomness): RatchetState {
    MintSending(TurnReceiving(st, dhPub, recvSs), dhPub, rnd)
  }

  /** The keys of positions `from .. from + count` of a receiving chain that stands at `from`. */
  function Stash(dh: KeyId, ck: Term, from: nat, count: nat, now: int): (s: seq<SkippedKey>)
    ensures |s| == count
  {
    seq(count, i requires 0 <= i < count => SkippedKey(dh, from + i, MessageKey(ChainAt(ck, i)), now))
  }

  function Retained(s: seq<SkippedKey>, cutoff: int): seq<SkippedKey> {
    if s == [] then []
    else if s[0].storedAt >= cutoff then [s[0]] + Retained(s[1..], cutoff)
    else Retained(s[1..], cutoff)
  }

  /** Expired keys go first, then the oldest beyond the cap. */
  function Evict(s: seq<SkippedKey>, now: int): (r: seq<SkippedKey>)
    ensures |r| <= MAX_SKIPPED_KEYS
  {
    var live := Retained(s, now - SKIPPED_TTL_MS);
    if |live| > MAX_SKIPPED_KEYS then live[|live| - MAX_SKIPPED_KEYS..] else live
  }

  function SkipMessageKeys(st: RatchetState, until: nat, now: int): Result<RatchetState, RatchetError> {
    if until > st.nr + MAX_SKIP then Err(SkipPastMax)
    else if st.ckr.None? then Ok(st)
    else if st.dhrPub.None? then Err(SkipWithoutDhr)
    else
      var count := SatSub(until, st.nr);
      Ok(st.(skipped := Evict(st.skipped + Stash(st.dhrPub.value, st.ckr.value, st.nr, count, now), now),
             ckr := Some(ChainAt(st.ckr.value, count)),
             nr := st.nr + count))
  }

  /** Position of the first stashed key for (dh, n); the length of `s` when there is none. */
  function FindSkipped(s: seq<SkippedKey>, dh: KeyId, n: nat): (pos: nat)
    ensures pos <= |s|
    ensures pos < |s| ==> s[pos].dh == dh && s[pos].n == n
    ensures forall i :: 0 <= i < pos ==> !(s[i].dh == dh && s[i].n == n)
  {
    if s == [] then 0
    else if s[0].dh == dh && s[0].n == n then 0
    else 1 + FindSkipped(s[1..], dh, n)
  }

  function RemoveAt<T>(s: seq<T>, pos: nat): seq<T>
    requires pos < |s|
  {
    s[..pos] + s[pos + 1..]
  }

  function StepSend(st: RatchetState): Result<(Term, Header, RatchetState), RatchetError> {
    match st.cks
    case None => Err(NoSendingChain)
    case Some(cks) =>
      var (mk, next) := KdfCk(cks);
      Ok((mk,
          Header(st.dhsPub, st.pn, st.ns, st.sendKemCt, st.kemPub),
          st.(cks := Some(next), ns := st.ns + 1)))
  }

  /** The KEM secret a turn folds in, or the reason to refuse the turn. */
  function TurnSecret(st: RatchetState, kemCt: Option<KemCt>): Result<Option<Term>, RatchetError> {
    match kemCt
    case Some(ct) =>
      if st.kemPriv.None? then Err(NoRollingKemPrivate)
      else Ok(Some(Decapsulate(ct, st.kemPriv.value)))
    case None =>
      if st.peerKemPub.Some? then Err(DowngradeRefused) else Ok(None)
  }

  /** Most chain steps the header can force: the rest of the old chain plus the new chain. */
  function TotalSkip(st: RatchetState, hdr: Header): nat {
    var newEpoch := st.dhrPub != Some(hdr.dh);
    var oldSkip := if newEpoch then SatSub(hdr.pn, st.nr) else 0;
    var start := if newEpoch then 0 else st.nr;
    oldSkip + SatSub(hdr.n, start)
  }

  /** Finish the old receiving chain at `pn`, then turn onto the header's key. */
  function Turn(st: RatchetState, hdr: Header, now: int, rnd: Randomness): Result<RatchetState, RatchetError> {
    match TurnSecret(st, hdr.kemCt)
    case Err(e) => Err(e)
    case Ok(ss) =>
      var noted := if hdr.kemPub.Some? then st.(peerKemPub := hdr.kemPub) else st;
      match SkipMessageKeys(noted, hdr.pn, now)
      case Err(e) => Err(e)
      case Ok(skippedTo) => Ok(DhRatchet(skippedTo, hdr.dh, ss, rnd))
  }

  /** Skip to `n` in the current receiving chain and take the key found there. */
  function TakeKey(st: RatchetState, n: nat, now: int): Result<(Term, RatchetState), RatchetError> {
    match SkipMessageKeys(st, n, now)
    case Err(e) => Err(e)
    case Ok(at) =>
      if at.ckr.None? then Err(NoReceivingChain)
      else
        var (mk, next) := KdfCk(at.ckr.value);
        Ok((mk, at.(ckr := Some(next), nr := at.nr + 1)))
  }

  function StepRecv(st: RatchetState, hdr: Header, now: int, rnd: Randomness)
    : Result<(Term, RatchetState), RatchetError>
  {
    var pos := FindSkipped(st.skipped, hdr.dh, hdr.n);
    if pos < |st.skipped| then
      Ok((st.skipped[pos].mk, st.(skipped := RemoveAt(st.skipped, pos))))
    else if TotalSkip(st, hdr) > MAX_SKIP then
      Err(CombinedSkipPastMax)
    else if st.dhrPub != Some(hdr.dh) then
      match Turn(st, hdr, now, rnd)
      case Err(e) => Err(e)
      case Ok(turned) => TakeKey(turned, hdr.n, now)
    else
      TakeKey(st, hdr.n, now)
  }
}
