/**
 Sending and receiving ratchet messages against the two files a contact has on disk:
 the ratchet state and the conversation.

 Sides are numbered: 0 is the inviter, 1 the accepter. A sealed payload opens exactly
 under the key it was sealed with; a signature names who produced it, or nobody.
 */
module Receiver {
  import opened Wrappers
  import opened SymbolicCrypto
  import opened RatchetSpec
  import opened Ratchet

  const MAX_TEXT: nat := 4096

  datatype Kind = Message | Handshake | Welcome

  /** The signed plaintext. `signer` is who really signed it; it verifies iff that is `sender`. */
  datatype Inner = Inner(kind: Kind, sender: nat, signer: Option<nat>, rh: Option<Header>, text: string)

  /** `id` stands for the hash of ciphertext and nonce, by which redeliveries are recognised. */
  datatype Ciphertext = Ciphertext(id: nat, key: Term, inner: Inner)

  /** What travels: a cleartext page header that anyone may rewrite, and the sealed payload. */
  datatype Wire = Wire(hdr: Header, ct: Ciphertext)

  datatype Stored = Stored(id: nat, text: string)

  datatype Refusal = Undecryptable | BadSignature | HeaderMismatch | WrongKind | WrongSender | EmptyBody

  datatype Verdict = Committed(appended: bool) | Redelivery | Refused(why: Refusal)

  datatype Outcome = Outcome(verdict: Verdict, st: RatchetState, conv: seq<Stored>)

  predicate Verifies(inner: Inner) {
    inner.signer == Some(inner.sender)
  }

  function Clipped(text: string): string {
    if |text| <= MAX_TEXT then text else text[..MAX_TEXT]
  }

  /** The characters of Unicode's White_Space property. */
  predicate IsSpace(c: char) {
    var i := c as int;
    || 9 <= i <= 13 || i == 0x20 || i == 0x85 || i == 0xA0 || i == 0x1680 || 0x2000 <= i <= 0x200A
    || i == 0x2028 || i == 0x2029 || i == 0x202F || i == 0x205F || i == 0x3000
  }

  /** The same 25 characters one by one, as the Unicode Character Database lists them. */
  const WHITE_SPACE: set<int> := {
    0x9, 0xA, 0xB, 0xC, 0xD, 0x20, 0x85, 0xA0, 0x1680, 0x2000, 0x2001, 0x2002, 0x2003, 0x2004, 0x2005, 0x2006, 0x2007,
    0x2008, 0x2009, 0x200A, 0x2028, 0x2029, 0x202F, 0x205F, 0x3000
  }

  lemma SpacesAre(c: char)
    ensures IsSpace(c) <==> c as int in WHITE_SPACE
  {
  }

  function TrimStart(text: string): string {
    if text != "" && IsSpace(text[0]) then TrimStart(text[1..]) else text
  }

  function TrimEnd(text: string): string {
    if text != "" && IsSpace(text[|text| - 1]) then TrimEnd(text[..|text| - 1]) else text
  }

  /** What is sent of a text the user typed. */
  function Body(text: string): string {
    Clipped(TrimEnd(TrimStart(text)))
  }

  /** A text is refused as empty exactly when it is blank. */
  lemma BlankIsEmpty(text: string)
    ensures Body(text) == "" <==> forall i :: 0 <= i < |text| ==> IsSpace(text[i])
  {
    TrimStartIs(text);
    TrimEndIs(TrimStart(text));
  }

  lemma {:induction false} TrimStartIs(text: string)
    ensures TrimStart(text) == "" <==> forall i :: 0 <= i < |text| ==> IsSpace(text[i])
    ensures TrimStart(text) != "" ==> !IsSpace(TrimStart(text)[0])
  {
    if text != "" && IsSpace(text[0]) {
      TrimStartIs(text[1..]);
      assert forall i :: 0 < i < |text| ==> text[i] == text[1..][i - 1];
    }
  }

  lemma {:induction false} TrimEndIs(text: string)
    requires text != "" ==> !IsSpace(text[0])
    ensures TrimEnd(text) == "" <==> text == ""
  {
    if text != "" && IsSpace(text[|text| - 1]) {
      TrimEndIs(text[..|text| - 1]);
    }
  }

  /** From `i` to `j` stands what is left of a text once the white space around it is gone. */
  ghost predicate IsCore(text: string, i: nat, j: nat) {
    && i <= j <= |text|
    && (forall k :: 0 <= k < i || j <= k < |text| ==> IsSpace(text[k]))
    && (i < j ==> !IsSpace(text[i]) && !IsSpace(text[j - 1]))
  }

  /** At most the first 4096 characters of that. */
  ghost function Cut(text: string, i: nat, j: nat): string
    requires i <= j <= |text|
  {
    text[i..if j - i <= 4096 then j else i + 4096]
  }

  lemma {:induction false} TrimStartCuts(text: string) returns (i: nat)
    ensures i <= |text| && TrimStart(text) == text[i..] && (i < |text| ==> !IsSpace(text[i]))
    ensures forall k :: 0 <= k < i ==> IsSpace(text[k])
  {
    i := 0;
    if text != "" && IsSpace(text[0]) {
      i := TrimStartCuts(text[1..]);
      assert forall k :: 0 < k < i + 1 ==> text[k] == text[1..][k - 1];
      i := i + 1;
    }
  }

  lemma {:induction false} TrimEndCuts(text: string) returns (j: nat)
    ensures j <= |text| && TrimEnd(text) == text[..j] && (j > 0 ==> !IsSpace(text[j - 1]))
    ensures forall k :: j <= k < |text| ==> IsSpace(text[k])
  {
    j := |text|;
    if text != "" && IsSpace(text[|text| - 1]) {
      j := TrimEndCuts(text[..|text| - 1]);
    }
  }

  /** What is sent is what was typed, without the white space around it and cut at 4096 characters. */
  lemma BodyIs(text: string) returns (i: nat, j: nat)
    ensures IsCore(text, i, j) && Body(text) == Cut(text, i, j)
  {
    i := TrimStartCuts(text);
    var rest := text[i..];
    var m := TrimEndCuts(rest);
    j := i + m;
    assert rest[..m] == text[i..j];
    forall k | j <= k < |text| ensures IsSpace(text[k]) {
      assert text[k] == rest[k - i];
    }
    if m > 0 {
      assert rest[m - 1] == text[j - 1];
    }
  }

  /** There is only one such stretch, unless the text is blank. */
  lemma CoreIsUnique(text: string, i: nat, j: nat, i': nat, j': nat)
    requires IsCore(text, i, j) && IsCore(text, i', j')
    ensures text[i..j] == text[i'..j']
  {
  }

  predicate HasId(conv: seq<Stored>, id: nat) {
    exists k :: 0 <= k < |conv| && conv[k].id == id
  }

  function StoreIncoming(conv: seq<Stored>, id: nat, text: string): seq<Stored> {
    if HasId(conv, id) then conv else conv + [Stored(id, Clipped(text))]
  }

  /** Every check after the decrypt, in the program's order. */
  function Vet(w: Wire, peer: nat): Option<Refusal> {
    var inner := w.ct.inner;
    if !Verifies(inner) then Some(BadSignature)
    else if inner.rh != Some(w.hdr) then Some(HeaderMismatch)
    else if inner.kind != Message then Some(WrongKind)
    else if inner.sender != peer then Some(WrongSender)
    else if inner.text == "" then Some(EmptyBody)
    else None
  }

  function NotOpened(conv: seq<Stored>, id: nat): Verdict {
    if HasId(conv, id) then Redelivery else Refused(Undecryptable)
  }

  /** What one delivery does to the two files. */
  function Receive(st: RatchetState, conv: seq<Stored>, peer: nat, w: Wire, now: int, rnd: Randomness): Outcome {
    match StepRecv(st, w.hdr, now, rnd)
    case Err(_) => Outcome(NotOpened(conv, w.ct.id), st, conv)
    case Ok((mk, advanced)) =>
      if mk != w.ct.key then Outcome(NotOpened(conv, w.ct.id), st, conv)
      else
        match Vet(w, peer)
        case Some(why) => Outcome(Refused(why), st, conv)
        case None =>
          Outcome(Committed(!HasId(conv, w.ct.id)), advanced, StoreIncoming(conv, w.ct.id, w.ct.inner.text))
  }

  /** Every verdict names what was really the matter, and nothing but a commit touches the files. */
  lemma VerdictIsTrue(st: RatchetState, conv: seq<Stored>, peer: nat, w: Wire, now: int, rnd: Randomness)
    ensures var out, inner, r := Receive(st, conv, peer, w, now, rnd), w.ct.inner, StepRecv(st, w.hdr, now, rnd);
            var unsealed := r.Ok? && r.value.0 == w.ct.key;
            && (out.verdict == Redelivery <==> !unsealed && HasId(conv, w.ct.id))
            && (out.verdict == Refused(Undecryptable) <==> !unsealed && !HasId(conv, w.ct.id))
            && (out.verdict == Refused(BadSignature) <==> unsealed && inner.signer != Some(inner.sender))
            && (out.verdict == Refused(HeaderMismatch) ==> unsealed && inner.rh != Some(w.hdr))
            && (out.verdict == Refused(WrongKind) ==> unsealed && inner.kind != Message)
            && (out.verdict == Refused(WrongSender) ==> unsealed && inner.sender != peer)
            && (out.verdict == Refused(EmptyBody) ==> unsealed && inner.text == "")
            && (out.verdict.Committed? <==>
                  unsealed && inner.signer == Some(peer) == Some(inner.sender) && inner.rh == Some(w.hdr)
                  && inner.kind == Message && inner.text != "")
            && (out.verdict.Committed? ==> (out.verdict.appended <==> !HasId(conv, w.ct.id)))
            && (!out.verdict.Committed? ==> out.st == st && out.conv == conv)
  {
    hide StepRecv, HasId, StoreIncoming;
  }

  /** The wire for one text, or why there is none; the advanced state goes to disk first. */
  function BuildWire(st: RatchetState, me: nat, text: string, id: nat): Result<(Wire, RatchetState), RatchetError> {
    match StepSend(st)
    case Err(e) => Err(e)
    case Ok((mk, hdr, advanced)) =>
      Ok((Wire(hdr, Ciphertext(id, mk, Inner(Message, me, Some(me), Some(hdr), text))), advanced))
  }

  /** The two files of one contact, as the program rewrites them. */
  class ContactStore {
    var ratchet: RatchetState
    var conv: seq<Stored>

    constructor (st: RatchetState)
      ensures ratchet == st && conv == []
    {
      ratchet, conv := st, [];
    }

    method StoreMessage(id: nat, text: string) returns (appended: bool)
      modifies this`conv
      ensures conv == StoreIncoming(old(conv), id, text)
      ensures appended == !HasId(old(conv), id)
    {
      if HasId(conv, id) {
        return false;
      }
      conv := conv + [Stored(id, Clipped(text))];
      return true;
    }

    /**
     The advance runs on a clone; plaintext is stored first and the advanced ratchet last.
     With `crash` the program dies between these two writes.
     */
    method ReceiveRatchetMessage(peer: nat, w: Wire, now: int, rnd: Randomness, crash: bool)
      returns (verdict: Verdict)
      modifies this
      ensures var out := Receive(old(ratchet), old(conv), peer, w, now, rnd);
              && verdict == out.verdict
              && conv == out.conv
              && ratchet == if crash then old(ratchet) else out.st
    {
      var clone := new DoubleRatchet(ratchet);
      var r := clone.StepRecv(w.hdr, now, rnd);
      if r.Err? || r.value != w.ct.key {
        return if HasId(conv, w.ct.id) then Redelivery else Refused(Undecryptable);
      }
      var inner := w.ct.inner;
      if !Verifies(inner) {
        return Refused(BadSignature);
      }
      if inner.rh != Some(w.hdr) {
        return Refused(HeaderMismatch);
      }
      if inner.kind != Message {
        return Refused(WrongKind);
      }
      if inner.sender != peer {
        return Refused(WrongSender);
      }
      if inner.text == "" {
        return Refused(EmptyBody);
      }
      var appended := StoreMessage(w.ct.id, inner.text);
      if !crash {
        ratchet := clone.State();
      }
      return Committed(appended);
    }

    /** The advanced state is on disk before the key is used; with `crash` nothing is ever sealed. */
    method SendRatchetMessage(me: nat, text: string, id: nat, crash: bool)
      returns (r: Result<Option<Wire>, RatchetError>)
      modifies this`ratchet
      ensures match BuildWire(old(ratchet), me, text, id)
              case Err(e) => r == Err(e) && ratchet == old(ratchet)
              case Ok((w, st)) => r == Ok(if crash then None else Some(w)) && ratchet == st
    {
      var clone := new DoubleRatchet(ratchet);
      var stepped := clone.StepSend();
      if stepped.Err? {
        return Err(stepped.error);
      }
      var (mk, hdr) := stepped.value;
      ratchet := clone.State();
      if crash {
        return Ok(None);
      }
      return Ok(Some(Wire(hdr, Ciphertext(id, mk, Inner(Message, me, Some(me), Some(hdr), text)))));
    }
  }
}
