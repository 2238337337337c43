/**
 What an attacker who steals one side's stored ratchet can compute: nothing already used, the
 peer's next epoch, and nothing from the turn after that on unless primitives are broken.

 Everything on the wire except the sealed payloads is public (ratchet keys, KEM keys,
 KEM ciphertexts, counters) and none of it is a secret term, so the attacker's knowledge
 is the stolen state. `dhBroken` and `kemBroken` grant in addition every X25519 or every
 ML-KEM secret.
 */
module Secrecy {
  import opened Wrappers
  import opened SymbolicCrypto
  import opened RatchetSpec
  import opened SkippedKeys
  import opened Epochs
  import opened KeyAgreement
  import opened Receiver
  import opened Conversation
  import opened Runs
  import opened Guarantees

  datatype Knowledge = Knowledge(terms: set<Term>, dhPrivs: set<KeyId>, kemPrivs: set<KeyId>,
                                 dhBroken: bool, kemBroken: bool)

  /** What can be computed: no derivation function can be inverted, so a term is built from its parts. */
  ghost predicate Derivable(k: Knowledge, t: Term) {
    t in k.terms ||
    match t
    case DhSecret(lo, hi) => k.dhBroken || lo in k.dhPrivs || hi in k.dhPrivs
    case KemSecret(pk, _) => k.kemBroken || pk in k.kemPrivs
    case KemRejected(sk, _) => k.kemBroken || sk in k.kemPrivs
    case RootInit(x3dh, kem) => Derivable(k, x3dh) && Derivable(k, kem)
    case RootKey(rk, dh, ss) => Derivable(k, rk) && Derivable(k, dh) && (ss.Some? ==> Derivable(k, ss.value))
    case ChainKey(rk, dh, ss) => Derivable(k, rk) && Derivable(k, dh) && (ss.Some? ==> Derivable(k, ss.value))
    case MessageKey(ck) => Derivable(k, ck)
    case NextChain(ck) => Derivable(k, ck)
  }

  /** A set of terms that contains the knowledge and every result of the program's functions on it. */
  ghost predicate Closed(k: Knowledge, known: iset<Term>) {
    && (forall t :: t in k.terms ==> t in known)
    && (forall a, b :: k.dhBroken || a in k.dhPrivs ==> Dh(a, b) in known)
    && (forall ct: KemCt :: k.kemBroken || ct.pk in k.kemPrivs ==> Encapsulated(ct) in known)
    && (forall sk, ct: KemCt :: k.kemBroken || sk in k.kemPrivs ==> Decapsulate(ct, sk) in known)
    && (forall x, y :: x in known && y in known ==> RootInit(x, y) in known)
    && (forall rk, dh :: rk in known && dh in known ==> KdfRk(rk, dh).0 in known && KdfRk(rk, dh).1 in known)
    && (forall rk, dh, ss :: rk in known && dh in known && ss in known
          ==> KdfRkHybrid(rk, dh, ss).0 in known && KdfRkHybrid(rk, dh, ss).1 in known)
    && (forall ck :: ck in known ==> KdfCk(ck).0 in known && KdfCk(ck).1 in known)
  }

  /** Terms that the derivation functions really produce. */
  ghost predicate Normal(t: Term) {
    match t
    case DhSecret(lo, hi) => lo <= hi
    case KemSecret(_, _) => true
    case KemRejected(sk, ct) => ct.pk != sk
    case RootInit(x3dh, kem) => Normal(x3dh) && Normal(kem)
    case RootKey(rk, dh, ss) => Normal(rk) && Normal(dh) && (ss.Some? ==> Normal(ss.value))
    case ChainKey(rk, dh, ss) => Normal(rk) && Normal(dh) && (ss.Some? ==> Normal(ss.value))
    case MessageKey(ck) => Normal(ck)
    case NextChain(ck) => Normal(ck)
  }

  /** What is derivable is closed under every function an attacker can apply... */
  lemma DerivableIsClosed(k: Knowledge)
    ensures Closed(k, iset t | Derivable(k, t))
  {
    forall rk, dh, ss | Derivable(k, rk) && Derivable(k, dh) && Derivable(k, ss)
      ensures Derivable(k, KdfRkHybrid(rk, dh, ss).0) && Derivable(k, KdfRkHybrid(rk, dh, ss).1)
    {
    }
  }

  /** ... and it is the least such set: nothing derivable escapes any closed set. */
  lemma {:induction false} DerivableIsLeast(k: Knowledge, known: iset<Term>, t: Term)
    requires Closed(k, known) && Derivable(k, t)
    requires Normal(t)
    ensures t in known
  {
    if t !in k.terms {
      match t
      case DhSecret(lo, hi) =>
        assert Dh(lo, hi) == t;
        assert Dh(hi, lo) == t;
      case KemSecret(pk, enc) => assert Encapsulated(KemCt(pk, enc)) == t;
      case KemRejected(sk, ct) => assert Decapsulate(ct, sk) == t;
      case RootInit(x, y) =>
        DerivableIsLeast(k, known, x);
        DerivableIsLeast(k, known, y);
      case RootKey(rk, dh, ss) =>
        DerivableIsLeast(k, known, rk);
        DerivableIsLeast(k, known, dh);
        if ss.Some? { DerivableIsLeast(k, known, ss.value); assert KdfRkHybrid(rk, dh, ss.value).0 == t; }
        else { assert KdfRk(rk, dh).0 == t; }
      case ChainKey(rk, dh, ss) =>
        DerivableIsLeast(k, known, rk);
        DerivableIsLeast(k, known, dh);
        if ss.Some? { DerivableIsLeast(k, known, ss.value); assert KdfRkHybrid(rk, dh, ss.value).1 == t; }
        else { assert KdfRk(rk, dh).1 == t; }
      case MessageKey(ck) =>
        DerivableIsLeast(k, known, ck);
        assert KdfCk(ck).0 == t;
      case NextChain(ck) =>
        DerivableIsLeast(k, known, ck);
        assert KdfCk(ck).1 == t;
    }
  }

  ghost function StolenTerms(st: RatchetState): set<Term> {
    {st.rk}
      + (if st.cks.Some? then {st.cks.value} else {})
      + (if st.ckr.Some? then {st.ckr.value} else {})
      + (set k | k in st.skipped :: k.mk)
  }

  /**
   One side's ratchet file in the attacker's hands, and with it, if `identity`, the inviter's long-term
   keys, which lie on the same device when the inviter is the victim. The accepter's long-term keys enter
   no ratchet secret at all.
   */
  ghost function Stolen(st: RatchetState, identity: bool, dhBroken: bool, kemBroken: bool): Knowledge {
    Knowledge(StolenTerms(st),
              {st.dhsPriv} + (if identity then {STATIC_X} else {}),
              (if st.kemPriv.Some? then {st.kemPriv.value} else {}) + (if identity then {STATIC_KEM} else {}),
              dhBroken, kemBroken)
  }

  /** The same with both primitives intact. */
  ghost function Seized(st: RatchetState, identity: bool): Knowledge {
    Stolen(st, identity, false, false)
  }

  lemma ChainsDiffer(h: History, e: nat, n: nat, f: nat, m: nat)
    requires TurnsLink(h) && 1 <= e < |h| && 1 <= f < |h|
    ensures ChainAt(h[e].chain, n) == ChainAt(h[f].chain, m) <==> e == f && n == m
  {
    KeysDiffer(h, e, n, f, m);
  }

  lemma ChainAtShape(h: History, e: nat, n: nat)
    requires TurnsLink(h) && 1 <= e < |h|
    ensures var t := ChainAt(h[e].chain, n); if n == 0 then t.ChainKey? else t.NextChain?
    ensures h[e].root.RootKey?
  {
    assert (h[e].root, h[e].chain) == KdfRoot(h[e - 1].root, Dh(h[e].d, h[e - 1].d), TurnSs(h[e].kemCt));
  }

  // ── Forward secrecy ───────────────────────────────────────────────────────

  /** No root but the current one is in the stolen file. */
  lemma OnlyCurrentRootStolen(h: History, next: nat, s: nat, st: RatchetState, gone: set<Place>, j: nat)
    requires HistoryOk(h, next) && SideOk(h, next, s, st, gone) && j < |h| && Rooted(h)
    ensures h[j].root in StolenTerms(st) ==> j == s
  {
    RootDepthIsEpoch(h, j);
    RootDepthIsEpoch(h, s);
    if j >= 1 { ChainAtShape(h, j, 0); }
    ChainAtShape(h, s, st.ns);
    if s >= 2 { ChainAtShape(h, s - 1, st.nr); }
    forall k | k in st.skipped ensures k.mk.MessageKey? {
      StashedIsMessageKey(h, st.skipped, k);
    }
  }

  lemma StashedIsMessageKey(h: History, stash: seq<SkippedKey>, k: SkippedKey)
    requires StashOk(h, stash) && k in stash
    ensures k.mk.MessageKey?
  {
    var e :| 1 <= e < |h| && h[e].d == k.dh;
    assert k.mk == KeyAt(h, e, k.n);
  }

  /** The bootstrap secret follows from the inviter's long-term keys, and from nothing less. */
  lemma BootRootExposure(h: History, next: nat, s: nat, st: RatchetState, gone: set<Place>, identity: bool)
    requires HistoryOk(h, next) && SideOk(h, next, s, st, gone) && Rooted(h)
    ensures Derivable(Seized(st, identity), h[0].root) <==> identity
  {
    OnlyCurrentRootStolen(h, next, s, st, gone, 0);
    NoSecretsStolen(h, next, s, st, gone);
    var k := Seized(st, identity);
    assert h[0].root == RootInit(Dh(BOOT_EPH, STATIC_X), Encapsulated(KemCt(STATIC_KEM, BOOT_ENC)));
    assert st.dhsPriv >= PREKEY;
    hide HistoryOk, SideOk, Rooted, StolenTerms;
  }

  lemma NoSecretsStolen(h: History, next: nat, s: nat, st: RatchetState, gone: set<Place>)
    requires HistoryOk(h, next) && SideOk(h, next, s, st, gone)
    ensures forall t :: t in StolenTerms(st) ==> !t.DhSecret? && !t.KemSecret? && !t.RootInit?
  {
    ChainAtShape(h, s, st.ns);
    if s >= 2 { ChainAtShape(h, s - 1, st.nr); }
    assert st.rk.RootKey?;
    forall k | k in st.skipped ensures k.mk.MessageKey? {
      StashedIsMessageKey(h, st.skipped, k);
    }
    hide HistoryOk, StashOk, SeenOk;
  }

  /** The DH secret of a turn up to the current one is in reach for the current one only. */
  lemma PastDhHidden(h: History, next: nat, s: nat, st: RatchetState, gone: set<Place>, identity: bool, j: nat)
    requires HistoryOk(h, next) && SideOk(h, next, s, st, gone) && Rooted(h) && 1 <= j <= s
    ensures Derivable(Seized(st, identity), Dh(h[j].d, h[j - 1].d)) <==> j == s
  {
    hide StolenTerms, RecvOk, TurnsLink, KemAligned;
    NoSecretsStolen(h, next, s, st, gone);
    assert st.dhsPriv == h[s].d && h[j].d >= PREKEY && h[j - 1].d >= PREKEY;
    hide SendOk;
  }

  /** Roots that have been turned past cannot be computed back, not even with the long-term keys. */
  lemma {:induction false} PastRootsHidden(h: History, next: nat, s: nat, st: RatchetState, gone: set<Place>,
                                           identity: bool, j: nat)
    requires HistoryOk(h, next) && SideOk(h, next, s, st, gone) && Rooted(h) && 1 <= j < s
    ensures !Derivable(Seized(st, identity), h[j].root)
  {
    OnlyCurrentRootStolen(h, next, s, st, gone, j);
    ChainStartsAtRoot(h, next, j);
    PastDhHidden(h, next, s, st, gone, identity, j);
    hide HistoryOk, SideOk, Rooted, StolenTerms;
  }

  /** Of all chain keys, the file holds the two reading and writing heads. */
  lemma StolenChains(h: History, next: nat, s: nat, st: RatchetState, gone: set<Place>, e: nat, n: nat)
    requires HistoryOk(h, next) && SideOk(h, next, s, st, gone) && 1 <= e < |h|
    ensures ChainAt(h[e].chain, n) in StolenTerms(st) <==> (e == s && n == st.ns) || (e + 1 == s && n == st.nr)
  {
    ChainsDiffer(h, e, n, s, st.ns);
    if s >= 2 { ChainsDiffer(h, e, n, s - 1, st.nr); }
    ChainAtShape(h, e, n);
    ChainAtShape(h, s, 0);
    forall x | x in st.skipped ensures x.mk.MessageKey? {
      StashedIsMessageKey(h, st.skipped, x);
    }
  }

  /** The first key of a chain up to the current one, from the root before it. */
  lemma ChainStartExposure(h: History, next: nat, s: nat, st: RatchetState, gone: set<Place>, identity: bool, e: nat)
    requires HistoryOk(h, next) && SideOk(h, next, s, st, gone) && Rooted(h) && 1 <= e <= s
    ensures Derivable(Seized(st, identity), h[e].chain) <==>
              h[e].chain in StolenTerms(st) || (identity && e == s == 1)
  {
    ChainStartsAtRoot(h, next, e);
    PastDhHidden(h, next, s, st, gone, identity, e);
    if e == 1 {
      BootRootExposure(h, next, s, st, gone, identity);
      assert h[1].kemCt.None? by { hide SideOk, Rooted; FirstTurnIsClassical(h, next); }
    } else {
      PastRootsHidden(h, next, s, st, gone, identity, e - 1);
    }
    hide HistoryOk, SideOk, Rooted, StolenTerms;
  }

  lemma FirstTurnIsClassical(h: History, next: nat)
    requires HistoryOk(h, next)
    ensures |h| >= 2 && h[1].kemCt.None?
  {
    assert h[1 - 1].kemPub.None?;
  }

  /** Exposed from the start: the accepter's first chain, to whoever adds the inviter's long-term keys. */
  predicate FromTheStart(identity: bool, e: nat, s: nat) {
    identity && e == s == 1
  }

  /** A chain can be followed from where the file stands, never back. */
  lemma {:induction false} ChainExposure(h: History, next: nat, s: nat, st: RatchetState, gone: set<Place>,
                                         identity: bool, e: nat, n: nat)
    requires HistoryOk(h, next) && SideOk(h, next, s, st, gone) && Rooted(h) && 1 <= e <= s
    ensures Derivable(Seized(st, identity), ChainAt(h[e].chain, n))
       <==> (e == s && n >= st.ns) || (e + 1 == s && n >= st.nr) || FromTheStart(identity, e, s)
    decreases n
  {
    StolenChains(h, next, s, st, gone, e, n);
    if n == 0 {
      ChainStartExposure(h, next, s, st, gone, identity, e);
      hide HistoryOk, SideOk, Rooted, StolenTerms, Derivable;
    } else {
      ChainExposure(h, next, s, st, gone, identity, e, n - 1);
      hide HistoryOk, SideOk, Rooted, StolenTerms;
    }
  }

  lemma ChainStartsAtRoot(h: History, next: nat, e: nat)
    requires HistoryOk(h, next) && 1 <= e < |h|
    ensures h[e].root == RootKey(h[e - 1].root, Dh(h[e].d, h[e - 1].d), TurnSs(h[e].kemCt))
    ensures h[e].chain == ChainKey(h[e - 1].root, Dh(h[e].d, h[e - 1].d), TurnSs(h[e].kemCt))
  {
    assert (h[e].root, h[e].chain) == KdfRoot(h[e - 1].root, Dh(h[e].d, h[e - 1].d), TurnSs(h[e].kemCt));
  }

  /** A message key in the stash is in there for its own page only. */
  lemma StashExposure(h: History, next: nat, s: nat, st: RatchetState, gone: set<Place>, e: nat, n: nat)
    requires HistoryOk(h, next) && SideOk(h, next, s, st, gone) && 1 <= e < |h|
    ensures KeyAt(h, e, n) in StolenTerms(st) <==> (h[e].d, n) in Places(st.skipped)
  {
    var key := KeyAt(h, e, n);
    ChainAtShape(h, s, st.ns);
    if s >= 2 { ChainAtShape(h, s - 1, st.nr); }
    assert st.rk == h[s].root && st.rk.RootKey?;
    if key in StolenTerms(st) {
      var k :| k in st.skipped && k.mk == key;
      var f :| 1 <= f < |h| && h[f].d == k.dh;
      KeysDiffer(h, e, n, f, k.n);
    }
    if (h[e].d, n) in Places(st.skipped) {
      var k :| k in st.skipped && (k.dh, k.n) == (h[e].d, n);
      assert k.mk == key;
    }
  }

  /**
   Forward secrecy, exactly: of all message keys up to the current epoch, the stolen file gives
   away those not yet sent, those not yet reached, and those still stashed, and no other. The
   inviter's long-term keys add nothing, except to an accepter's file still in its first epoch.
   */
  lemma ForwardSecrecy(h: History, next: nat, s: nat, st: RatchetState, gone: set<Place>, identity: bool,
                       e: nat, n: nat)
    requires HistoryOk(h, next) && SideOk(h, next, s, st, gone) && Rooted(h) && 1 <= e <= s
    ensures Derivable(Seized(st, identity), KeyAt(h, e, n)) <==>
              || (e == s && n >= st.ns)
              || (e + 1 == s && n >= st.nr)
              || (h[e].d, n) in Places(st.skipped)
              || FromTheStart(identity, e, s)
  {
    ChainExposure(h, next, s, st, gone, identity, e, n);
    StashExposure(h, next, s, st, gone, e, n);
    hide HistoryOk, SideOk, Rooted, StolenTerms;
  }

  // ── Healing after a compromise ────────────────────────────────────────────

  /** A later history of the same conversation. */
  ghost predicate Continues(h: History, h': History) {
    |h| <= |h'| && forall e :: 0 <= e < |h| ==> h'[e] == h[e].(len := h'[e].len)
  }

  /** What stands between an attacker and turn `e`: the DH secret, and the KEM secret if there is one. */
  ghost predicate TurnBroken(h: History, e: nat, dhBroken: bool, kemBroken: bool)
    requires e < |h|
  {
    dhBroken && (h[e].kemCt.None? || kemBroken)
  }

  /** The stolen file opens the epoch its owner's peer answers with, and nothing protects that one. */
  lemma NextEpochExposed(h: History, next: nat, s: nat, st: RatchetState, gone: set<Place>, h': History, next': nat,
                         identity: bool, dhBroken: bool, kemBroken: bool)
    requires HistoryOk(h, next) && SideOk(h, next, s, st, gone)
    requires HistoryOk(h', next') && Continues(h, h') && s + 1 < |h'|
    ensures Derivable(Stolen(st, identity, dhBroken, kemBroken), h'[s + 1].root)
  {
    var k := Stolen(st, identity, dhBroken, kemBroken);
    ChainStartsAtRoot(h', next', s + 1);
    assert h'[s].root == st.rk && h'[s].d == st.dhsPriv;
    assert st.kemPriv == h'[s].kemPub;
    assert h'[s + 1].kemCt.Some? ==> h'[(s + 1) - 1].kemPub == Some(h'[s + 1].kemCt.value.pk);
    assert st.rk in k.terms;
    hide HistoryOk, SideOk, Continues, StolenTerms;
    assert Derivable(k, Dh(h'[s + 1].d, h'[s].d));
    assert h'[s + 1].kemCt.Some? ==> Derivable(k, Encapsulated(h'[s + 1].kemCt.value));
  }

  /** The secrets of turn `s + 2`: fresh on both ends, so only broken primitives give them away. */
  lemma HealingSecrets(h: History, next: nat, s: nat, st: RatchetState, gone: set<Place>, h': History, next': nat,
                       identity: bool, dhBroken: bool, kemBroken: bool)
    requires HistoryOk(h, next) && SideOk(h, next, s, st, gone)
    requires HistoryOk(h', next') && Continues(h, h') && s + 2 < |h'| && Rooted(h')
    ensures var k := Stolen(st, identity, dhBroken, kemBroken);
            && (Derivable(k, Dh(h'[s + 2].d, h'[s + 1].d)) <==> dhBroken)
            && (h'[s + 2].kemCt.Some? ==> (Derivable(k, Encapsulated(h'[s + 2].kemCt.value)) <==> kemBroken))
  {
    hide HistoryOk, SideOk, Continues, StolenTerms, Rooted;
    NoSecretsStolen(h, next, s, st, gone);
    HealingKeys(h, next, s, st, gone, h', next');
  }

  /** Nothing the thief holds is a key of turn `s + 2`. */
  lemma HealingKeys(h: History, next: nat, s: nat, st: RatchetState, gone: set<Place>, h': History, next': nat)
    requires HistoryOk(h, next) && SideOk(h, next, s, st, gone)
    requires HistoryOk(h', next') && Continues(h, h') && s + 2 < |h'| && Rooted(h')
    ensures st.dhsPriv != h'[s + 1].d && st.dhsPriv != h'[s + 2].d
    ensures STATIC_X < h'[s + 1].d && STATIC_X < h'[s + 2].d
    ensures h'[s + 2].kemCt.Some? ==>
              var pk := h'[s + 2].kemCt.value.pk; STATIC_KEM < pk && st.kemPriv != Some(pk)
  {
    assert h'[s].d == h[s].d == st.dhsPriv && h'[s].kemPub == h[s].kemPub == st.kemPriv;
    hide RecvOk, TurnsLink;
    if h'[s + 2].kemCt.Some? {
      assert h'[(s + 2) - 1].kemPub == Some(h'[s + 2].kemCt.value.pk);
      assert OtherSide(s + 1, s);
    }
  }

  lemma HealingTurn(h: History, next: nat, s: nat, st: RatchetState, gone: set<Place>, h': History, next': nat,
                    identity: bool, dhBroken: bool, kemBroken: bool)
    requires HistoryOk(h, next) && SideOk(h, next, s, st, gone)
    requires HistoryOk(h', next') && Continues(h, h') && s + 2 < |h'| && Rooted(h')
    ensures TurnExposed(Stolen(st, identity, dhBroken, kemBroken), h', s + 2)
       <==> TurnBroken(h', s + 2, dhBroken, kemBroken)
  {
    hide HistoryOk, SideOk, Continues, StolenTerms, Derivable;
    HealingSecrets(h, next, s, st, gone, h', next', identity, dhBroken, kemBroken);
  }

  lemma StolenDepths(h: History, next: nat, s: nat, st: RatchetState, gone: set<Place>)
    requires HistoryOk(h, next) && SideOk(h, next, s, st, gone)
    ensures forall t :: t in StolenTerms(st) ==> RootDepth(t) <= s
  {
    RootDepthIsEpoch(h, s);
    RootDepthIsEpoch(h, s - 1);
    ChainAtDepths(h[s].chain, st.ns);
    ChainAtDepths(h[s - 1].chain, st.nr);
    forall k | k in st.skipped ensures RootDepth(k.mk) <= s {
      StashDepth(h, next, s, st, gone, k);
    }
  }

  lemma StashDepth(h: History, next: nat, s: nat, st: RatchetState, gone: set<Place>, k: SkippedKey)
    requires HistoryOk(h, next) && SideOk(h, next, s, st, gone) && k in st.skipped
    ensures RootDepth(k.mk) <= s
  {
    assert (k.dh, k.n) in Places(st.skipped);
    var f :| 1 <= f < |h| && h[f].d == k.dh;
    assert IsSeen(st.skipped, gone, h[f].d, k.n);
    RootDepthIsEpoch(h, f);
    ChainAtDepths(h[f].chain, k.n);
  }

  /** Later roots and chains are not in the file. */
  lemma LaterKeysNotStolen(h: History, next: nat, s: nat, st: RatchetState, gone: set<Place>, h': History, next': nat,
                           e: nat, n: nat)
    requires HistoryOk(h, next) && SideOk(h, next, s, st, gone)
    requires HistoryOk(h', next') && s < e < |h'|
    ensures h'[e].root !in StolenTerms(st)
    ensures ChainAt(h'[e].chain, n) !in StolenTerms(st)
    ensures KeyAt(h', e, n) !in StolenTerms(st)
  {
    StolenDepths(h, next, s, st, gone);
    RootDepthIsEpoch(h', e);
    ChainAtDepths(h'[e].chain, n);
    hide HistoryOk, SideOk, StolenTerms;
  }

  /** The secrets that turn `f` mixes in are within reach. */
  ghost predicate TurnExposed(k: Knowledge, h: History, f: int) {
    1 <= f < |h| &&
    Derivable(k, Dh(h[f].d, h[f - 1].d)) && (h[f].kemCt.Some? ==> Derivable(k, Encapsulated(h[f].kemCt.value)))
  }

  ghost predicate TurnsExposed(k: Knowledge, h: History, from: int, e: int) {
    forall f :: from <= f <= e ==> TurnExposed(k, h, f)
  }

  lemma TurnedRoot(k: Knowledge, h: History, next: nat, e: nat)
    requires HistoryOk(h, next) && 1 <= e < |h|
    ensures h[e].root !in k.terms ==>
              (Derivable(k, h[e].root) <==> Derivable(k, h[e - 1].root) && TurnExposed(k, h, e))
    ensures h[e].chain !in k.terms ==>
              (Derivable(k, h[e].chain) <==> Derivable(k, h[e - 1].root) && TurnExposed(k, h, e))
  {
    ChainStartsAtRoot(h, next, e);
    hide HistoryOk;
  }

  lemma OneTurnMore(k: Knowledge, h: History, from: int, e: int)
    requires from <= e
    ensures TurnsExposed(k, h, from, e) <==> TurnsExposed(k, h, from, e - 1) && TurnExposed(k, h, e)
  {
  }

  /** From epoch `s + 2` on, a root is within reach exactly if the secrets of every turn since are. */
  lemma {:induction false} LaterRootsHeal(h: History, next: nat, s: nat, st: RatchetState, gone: set<Place>,
                                          h': History, next': nat, e: nat,
                                          identity: bool, dhBroken: bool, kemBroken: bool)
    requires HistoryOk(h, next) && SideOk(h, next, s, st, gone)
    requires HistoryOk(h', next') && Continues(h, h') && s + 1 <= e < |h'|
    ensures var k := Stolen(st, identity, dhBroken, kemBroken);
            Derivable(k, h'[e].root) <==> TurnsExposed(k, h', s + 2, e)
    decreases e
  {
    var k := Stolen(st, identity, dhBroken, kemBroken);
    if e == s + 1 {
      NextEpochExposed(h, next, s, st, gone, h', next', identity, dhBroken, kemBroken);
    } else {
      LaterRootsHeal(h, next, s, st, gone, h', next', e - 1, identity, dhBroken, kemBroken);
      LaterKeysNotStolen(h, next, s, st, gone, h', next', e, 0);
      TurnedRoot(k, h', next', e);
      OneTurnMore(k, h', s + 2, e);
      hide HistoryOk, SideOk, Continues, StolenTerms, TurnsExposed, TurnExposed, Derivable;
    }
  }

  lemma {:induction false} LaterChainsHeal(h: History, next: nat, s: nat, st: RatchetState, gone: set<Place>,
                                           h': History, next': nat, e: nat, n: nat,
                                           identity: bool, dhBroken: bool, kemBroken: bool)
    requires HistoryOk(h, next) && SideOk(h, next, s, st, gone)
    requires HistoryOk(h', next') && Continues(h, h') && s + 2 <= e < |h'|
    ensures var k := Stolen(st, identity, dhBroken, kemBroken);
            Derivable(k, ChainAt(h'[e].chain, n)) <==> TurnsExposed(k, h', s + 2, e)
    decreases n
  {
    hide HistoryOk, SideOk, Continues, StolenTerms, TurnsExposed;
    var k := Stolen(st, identity, dhBroken, kemBroken);
    LaterKeysNotStolen(h, next, s, st, gone, h', next', e, n);
    if n == 0 {
      hide TurnExposed, Derivable;
      LaterRootsHeal(h, next, s, st, gone, h', next', e - 1, identity, dhBroken, kemBroken);
      TurnedRoot(k, h', next', e);
      OneTurnMore(k, h', s + 2, e);
    } else {
      LaterChainsHeal(h, next, s, st, gone, h', next', e, n - 1, identity, dhBroken, kemBroken);
    }
  }

  /**
   Post-compromise security, exactly: two turns after the theft a message key is within reach iff
   the secrets of every turn since are, and those of the first such turn only if X25519 is broken
   and, on a hybrid turn, ML-KEM is broken as well.
   */
  lemma PostCompromise(h: History, next: nat, s: nat, st: RatchetState, gone: set<Place>, h': History, next': nat,
                       e: nat, n: nat, identity: bool, dhBroken: bool, kemBroken: bool)
    requires HistoryOk(h, next) && SideOk(h, next, s, st, gone)
    requires HistoryOk(h', next') && Continues(h, h') && s + 2 <= e < |h'| && Rooted(h')
    ensures var k := Stolen(st, identity, dhBroken, kemBroken);
            && (Derivable(k, KeyAt(h', e, n)) <==> TurnsExposed(k, h', s + 2, e))
            && (TurnExposed(k, h', s + 2) <==> TurnBroken(h', s + 2, dhBroken, kemBroken))
  {
    hide HistoryOk, SideOk, Continues, StolenTerms, TurnsExposed, TurnExposed, TurnBroken, ChainAt;
    LaterKeysNotStolen(h, next, s, st, gone, h', next', e, n);
    LaterChainsHeal(h, next, s, st, gone, h', next', e, n, identity, dhBroken, kemBroken);
    HealingTurn(h, next, s, st, gone, h', next', identity, dhBroken, kemBroken);
  }

  // ── Over whole runs ───────────────────────────────────────────────────────

  /** In any reachable state, no key of a message this side has sealed is left on its device. */
  lemma SentKeysAreGone(c: World, who: nat, id: nat)
    requires Inv(c) && SealedBy(c, who, id)
    ensures !Derivable(Seized(c.parties[who].st, who == 0), c.parties[who].sent[id].ct.key)
  {
    hide ConvOk, SideOk, HistoryOk, SentEntryOk, Rooted, Derivable, Seized;
    SendEpochIsReal(c, who);
    SealedPage(c, who, id);
    assert Rooted(c.h);
    var p, s, x := c.parties[who], SendEpoch(c.h, who), c.parties[who].sent[id];
    OwnPageIsSpent(c.h, c.next, who, s, p.st, p.consumed + p.evicted, id, x);
  }

  lemma OwnPageIsSpent(h: History, next: nat, who: nat, s: nat, st: RatchetState, gone: set<Place>, id: nat, x: Sent)
    requires HistoryOk(h, next) && SideOk(h, next, s, st, gone) && Rooted(h)
    requires SentEntryOk(h, who, id, x) && s % 2 == who % 2 && who < 2
    ensures !Derivable(Seized(st, who == 0), x.ct.key)
  {
    OwnPageIsBehind(h, next, who, s, st, gone, id, x);
    hide HistoryOk, SideOk, Rooted, SentEntryOk, Derivable;
    ForwardSecrecy(h, next, s, st, gone, who == 0, x.e, x.n);
  }

  lemma OwnPageIsBehind(h: History, next: nat, who: nat, s: nat, st: RatchetState, gone: set<Place>, id: nat, x: Sent)
    requires SideOk(h, next, s, st, gone) && SentEntryOk(h, who, id, x) && s % 2 == who % 2 && who < 2
    ensures 1 <= x.e <= s && x.e + 1 != s && (x.e == s ==> x.n < st.ns) && (who == 0 ==> s != 1)
    ensures x.e < |h| && x.ct.key == KeyAt(h, x.e, x.n) && (h[x.e].d, x.n) !in Places(st.skipped)
  {
    assert !Reached(x.e, s - 1);
    assert !IsSeen(st.skipped, gone, h[x.e].d, x.n);
    hide StashOk, KeyAt;
  }

  /** Nor is any key of a message it has received: what was consumed cannot be recomputed. */
  lemma ReceivedKeysAreGone(c: World, who: nat, w: Wire)
    requires Inv(c) && who in c.parties && Unaltered(c, who, w)
    requires (w.hdr.dh, w.hdr.n) in c.parties[who].consumed
    ensures !Derivable(Seized(c.parties[who].st, who == 0), w.ct.key)
  {
    hide ConvOk, SideOk, HistoryOk, Rooted, Derivable, Seized, Unaltered;
    SendEpochIsReal(c, who);
    UnalteredPage(c, who, w);
    assert Rooted(c.h);
    var p, s, x := c.parties[who], SendEpoch(c.h, who), PeerSent(c, who)[w.ct.id];
    GonePageIsSpent(c.h, c.next, s, p.st, p.consumed + p.evicted, who == 0, x.e, x.n);
  }

  lemma GonePageIsSpent(h: History, next: nat, s: nat, st: RatchetState, gone: set<Place>, identity: bool, e: nat,
                        n: nat)
    requires HistoryOk(h, next) && SideOk(h, next, s, st, gone) && Rooted(h)
    requires 1 <= e < |h| && (h[e].d, n) in gone
    ensures !Derivable(Seized(st, identity), KeyAt(h, e, n))
  {
    assert IsSeen(st.skipped, gone, h[e].d, n) <==> Reached(e, s - 1) && n < Bound(h, st.nr, s - 1, e);
    ForwardSecrecy(h, next, s, st, gone, identity, e, n);
  }

  lemma StepContinues(c: World, ev: Event)
    requires |c.h| >= 2
    ensures Continues(c.h, Step(c, ev).h)
  {
    hide Receive, BuildWire, DroppedByRecv, Responder;
  }

  lemma {:induction false} RunContinues(c: World, evs: seq<Event>)
    requires |c.h| >= 2
    ensures Continues(c.h, Run(c, evs).h)
    decreases |evs|
  {
    hide Step;
    if evs != [] {
      StepContinues(c, evs[0]);
      RunContinues(Step(c, evs[0]), evs[1..]);
    }
  }

  lemma InvIsRooted(c: World)
    requires Inv(c)
    ensures |c.h| >= 2 && HistoryOk(c.h, c.next) && Rooted(c.h)
  {
    hide HistoryOk, Rooted, PartyOk, ConvOk;
  }

  /**
   Steal side `who`'s file at any moment of any run. Whatever happens afterwards, a message from its
   next but one epoch on is sealed under a key the thief can compute only if every turn from there on
   is exposed, the first of them by breaking the primitives it mixes.
   */
  lemma RunHeals(c: World, evs: seq<Event>, who: nat, e: nat, n: nat, identity: bool, dhBroken: bool, kemBroken: bool)
    requires Inv(c) && who in c.parties && PossibleRun(c, evs)
    requires SendEpoch(c.h, who) + 2 <= e < |Run(c, evs).h|
    ensures var k := Stolen(c.parties[who].st, identity, dhBroken, kemBroken);
            var h, heal := Run(c, evs).h, SendEpoch(c.h, who) + 2;
            && (Derivable(k, KeyAt(h, e, n)) <==> TurnsExposed(k, h, heal, e))
            && (TurnExposed(k, h, heal) <==> TurnBroken(h, heal, dhBroken, kemBroken))
  {
    hide Inv, HistoryOk, SideOk, Continues, Derivable, TurnsExposed, TurnExposed, TurnBroken, Rooted;
    hide Run, PossibleRun, KeyAt, Stolen, SentOk;
    SendEpochIsReal(c, who);
    RunKeepsInv(c, evs);
    RunContinues(c, evs);
    var p, c' := c.parties[who], Run(c, evs);
    InvIsRooted(c');
    PostCompromise(c.h, c.next, SendEpoch(c.h, who), p.st, p.consumed + p.evicted, c'.h, c'.next, e, n,
                   identity, dhBroken, kemBroken);
  }

  /** And the healing turn is hybrid whenever the peer has advertised a rolling key by then. */
  lemma HealingTurnIsHybrid(c: World, e: nat)
    requires Inv(c) && 3 <= e < |c.h|
    ensures c.h[e].kemCt.Some? <==> c.h[e - 1].kemPub.Some?
  {
    hide PartyOk, ConvOk;
    assert c.h[e - 1].kemPub.Some? ==> c.h[(e - 1) + 1].kemCt.Some?;
  }
}
