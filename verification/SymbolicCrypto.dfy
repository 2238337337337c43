/**
 The cryptography under the ratchet, as free terms.

 A key pair is an identifier: the private and the public half share it. Every
 derivation function builds a fresh constructor, so two keys are equal exactly
 when they were derived from equal inputs, and nothing can be taken apart. Only
 `Dh` identifies two different computations: both ends reach the same secret.
 */
module SymbolicCrypto {
  import opened Wrappers

  type KeyId = nat

  /** An ML-KEM ciphertext: the public key it was made for and the encapsulation's randomness. */
  datatype KemCt = KemCt(pk: KeyId, enc: nat)

  datatype Term =
    | DhSecret(lo: KeyId, hi: KeyId)
    | KemSecret(pk: KeyId, enc: nat)
    | KemRejected(sk: KeyId, ct: KemCt)
    | RootInit(x3dh: Term, kem: Term)
    | RootKey(rk: Term, dh: Term, ss: Option<Term>)
    | ChainKey(rk: Term, dh: Term, ss: Option<Term>)
    | MessageKey(ck: Term)
    | NextChain(ck: Term)

  function Dh(priv: KeyId, pub: KeyId): Term {
    if priv <= pub then DhSecret(priv, pub) else DhSecret(pub, priv)
  }

  /** The secret that the encapsulating side keeps. */
  function Encapsulated(ct: KemCt): Term {
    KemSecret(ct.pk, ct.enc)
  }

  /** Decapsulation never fails: a ciphertext for another key yields an unrelated secret. */
  function Decapsulate(ct: KemCt, sk: KeyId): Term {
    if ct.pk == sk then KemSecret(ct.pk, ct.enc) else KemRejected(sk, ct)
  }

  /** Root KDF of a classical turn: (new root, new chain). */
  function KdfRk(rk: Term, dh: Term): (Term, Term) {
    (RootKey(rk, dh, None), ChainKey(rk, dh, None))
  }

  /** Root KDF of a turn that folds in a KEM secret; its own domain, so it never meets `KdfRk`. */
  function KdfRkHybrid(rk: Term, dh: Term, ss: Term): (Term, Term) {
    (RootKey(rk, dh, Some(ss)), ChainKey(rk, dh, Some(ss)))
  }

  function KdfRoot(rk: Term, dh: Term, ss: Option<Term>): (Term, Term) {
    match ss
    case None => KdfRk(rk, dh)
    case Some(s) => KdfRkHybrid(rk, dh, s)
  }

  /** Chain KDF: (message key, next chain key). */
  function KdfCk(ck: Term): (Term, Term) {
    (MessageKey(ck), NextChain(ck))
  }

  /** The chain key `k` steps after `ck`. */
  function ChainAt(ck: Term, k: nat): Term {
    if k == 0 then ck else NextChain(ChainAt(ck, k - 1))
  }

  lemma {:induction false} ChainAtAdds(ck: Term, i: nat, j: nat)
    ensures ChainAt(ChainAt(ck, i), j) == ChainAt(ck, i + j)
  {
    if j > 0 {
      ChainAtAdds(ck, i, j - 1);
    }
  }

  /** How many root turns lie below a root, chain or message key. */
  ghost function RootDepth(t: Term): nat {
    match t
    case RootKey(rk, _, _) => 1 + RootDepth(rk)
    case ChainKey(rk, _, _) => 1 + RootDepth(rk)
    case MessageKey(ck) => RootDepth(ck)
    case NextChain(ck) => RootDepth(ck)
    case _ => 0
  }

  /** How many chain steps separate a chain key from the turn that started its chain. */
  ghost function ChainDepth(t: Term): nat {
    match t
    case NextChain(ck) => 1 + ChainDepth(ck)
    case _ => 0
  }

  lemma {:induction false} ChainAtDepths(ck: Term, k: nat)
    ensures RootDepth(ChainAt(ck, k)) == RootDepth(ck)
    ensures ChainDepth(ChainAt(ck, k)) == ChainDepth(ck) + k
  {
    if k > 0 {
      ChainAtDepths(ck, k - 1);
    }
  }
}
