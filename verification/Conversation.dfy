/**
 Whole runs of two parties over a network that reorders, loses, duplicates and forges.

 An event is atomic: a bootstrap, a send, or one delivery of any wire to one side, with
 an optional crash between the two storage writes. `h` is the yardstick of Epochs.dfy,
 recorded from the states as they turn; no step reads it except to record.
 */
module Conversation {
  import opened Wrappers
  import opened SymbolicCrypto
  import opened RatchetSpec
  import opened SkippedKeys
  import opened Epochs
  import opened KeyAgreement
  import opened Receiver

  /** A sealed message of one side, and the epoch it belongs to. */
  datatype Sent = Sent(e: nat, n: nat, ct: Ciphertext)

  /** One side: its two files, what it has sealed, and which keys it has used up or evicted. */
  datatype Party = Party(
    st: RatchetState,
    conv: seq<Stored>,
    sent: map<nat, Sent>,
    consumed: set<Place>,
    evicted: set<Place>)

  datatype World = World(h: History, parties: map<nat, Party>, next: nat)

  datatype Event =
    /** The inviter completes the handshake; an old accepter's handshake advertises no rolling key. */
    | Bootstrap(advertised: bool, legacy: bool)
    | Send(who: nat, text: string, crash: bool)
    | Deliver(who: nat, w: Wire, now: int, crash: bool)

  // Identifiers drawn before the conversation exists.
  const STATIC_X: KeyId := 0
  const BOOT_EPH: KeyId := 1
  const STATIC_KEM: KeyId := 2
  const BOOT_ENC: nat := 3
  const PREKEY: KeyId := 4

  function InitiatorSk(): Term {
    RootInit(Dh(BOOT_EPH, STATIC_X), Encapsulated(KemCt(STATIC_KEM, BOOT_ENC)))
  }

  function ResponderSk(): Term {
    RootInit(Dh(STATIC_X, BOOT_EPH), Decapsulate(KemCt(STATIC_KEM, BOOT_ENC), STATIC_KEM))
  }

  /** A state persisted before the hybrid upgrade holds no rolling KEM keys. */
  function WithoutKem(st: RatchetState, legacy: bool): RatchetState {
    if legacy then st.(kemPriv := None, kemPub := None) else st
  }

  /** The accepter has accepted the invite; the inviter has published only its prekey. */
  function Start(legacy: bool): World {
    var st := WithoutKem(InitInitiator(InitiatorSk(), PREKEY, Randomness(5, 6, 7)), legacy);
    var prekey := Epoch(PREKEY, None, None, InitiatorSk(), InitiatorSk(), 0);
    World([prekey, OpenedEpoch(st)], map[1 := Party(st, [], map[], {}, {})], 8)
  }

  /** The epoch a side sends in: the newest of its parity. */
  function SendEpoch(h: History, who: nat): nat
    requires |h| >= 2
  {
    if (|h| - 1) % 2 == who % 2 then |h| - 1 else |h| - 2
  }

  /** The inviter's state on completing the handshake: it knows the prekey and the accepter's epoch 1. */
  function Responder(h: History, next: nat, advertised: bool, legacy: bool): RatchetState
    requires |h| >= 2
  {
    WithoutKem(
      InitResponder(ResponderSk(), PREKEY, h[1].d,
                    if advertised && !legacy then h[1].kemPub else None, next, Mint(next + 1)),
      legacy)
  }

  function BootstrapStep(c: World, advertised: bool, legacy: bool): (c': World)
    requires |c.h| >= 2
    ensures |c'.h| >= 2
  {
    var st := Responder(c.h, c.next, advertised, legacy);
    if 0 in c.parties || |c.h| != 2 || st.cks.None? then c
    else World(c.h + [OpenedEpoch(st)], c.parties[0 := Party(st, [], map[], {}, {})], c.next + 4)
  }

  function SendStep(c: World, who: nat, text: string, crash: bool): (c': World)
    requires |c.h| >= 2
    ensures |c'.h| >= 2
  {
    if who !in c.parties || Body(text) == "" then c
    else
      var p, s := c.parties[who], SendEpoch(c.h, who);
      match BuildWire(p.st, who, Body(text), c.next)
      case Err(_) => c
      case Ok((w, st)) =>
        var sent := if crash then p.sent else p.sent[c.next := Sent(s, w.hdr.n, w.ct)];
        World(Numbered(c.h, s, st.ns), c.parties[who := p.(st := st, sent := sent)], c.next + 1)
  }

  ghost function DeliverStep(c: World, who: nat, w: Wire, now: int, crash: bool): (c': World)
    requires |c.h| >= 2
    ensures |c'.h| >= 2
  {
    if who !in c.parties then c
    else
      var p := c.parties[who];
      var out := Receive(p.st, p.conv, 1 - who % 2, w, now, Mint(c.next));
      if !out.verdict.Committed? then c
      else if crash then c.(parties := c.parties[who := p.(conv := out.conv)])
      else
        World(Recorded(c.h, p.st, out.st),
             c.parties[who := Party(out.st, out.conv, p.sent,
                                    p.consumed + {(w.hdr.dh, w.hdr.n)},
                                    p.evicted + DroppedByRecv(p.st, w.hdr, now, Mint(c.next)))],
             c.next + 3)
  }

  ghost function Step(c: World, ev: Event): (c': World)
    requires |c.h| >= 2
    ensures |c'.h| >= 2
  {
    match ev
    case Bootstrap(advertised, legacy) => BootstrapStep(c, advertised, legacy)
    case Send(who, text, crash) => SendStep(c, who, text, crash)
    case Deliver(who, w, now, crash) => DeliverStep(c, who, w, now, crash)
  }

  /** A sealed payload that the other side really produced. */
  ghost predicate Genuine(c: World, who: nat, ct: Ciphertext) {
    var peer := 1 - who % 2;
    peer in c.parties && ct.id in c.parties[peer].sent && c.parties[peer].sent[ct.id].ct == ct
  }

  /** The ratchet step for the wire's header yields the very key the payload is sealed under. */
  ghost predicate Unseals(c: World, who: nat, w: Wire, now: int) {
    && who in c.parties
    && var r := StepRecv(c.parties[who].st, w.hdr, now, Mint(c.next));
       r.Ok? && r.value.0 == w.ct.key
  }

  /**
   The network may deliver any wire at all, old payloads of the peer under other keys or headers
   included. It cannot sign for the other side under a key of this ratchet: what unseals here and
   carries the peer's signature is a payload the peer sealed in this conversation.
   */
  ghost predicate Deliverable(c: World, ev: Event) {
    (ev.Deliver? && Unseals(c, ev.who, ev.w, ev.now) && ev.w.ct.inner.signer == Some(1 - ev.who % 2)) ==>
      Genuine(c, ev.who, ev.w.ct)
  }

  ghost function Run(c: World, evs: seq<Event>): (c': World)
    requires |c.h| >= 2
    ensures |c'.h| >= 2
    decreases |evs|
  {
    if evs == [] then c else Run(Step(c, evs[0]), evs[1..])
  }

  /** Every event of the run is one the network could cause at that moment. */
  ghost predicate PossibleRun(c: World, evs: seq<Event>)
    requires |c.h| >= 2
    decreases |evs|
  {
    evs == [] || (Deliverable(c, evs[0]) && PossibleRun(Step(c, evs[0]), evs[1..]))
  }

  // ── The invariant ─────────────────────────────────────────────────────────

  ghost predicate SentEntryOk(h: History, who: nat, id: nat, x: Sent) {
    && 1 <= x.e < |h| && x.e % 2 == who % 2 && x.n < h[x.e].len
    && 0 < |x.ct.inner.text| <= MAX_TEXT
    && x.ct == Ciphertext(id, KeyAt(h, x.e, x.n),
                          Inner(Message, who, Some(who), Some(HeaderAt(h, x.e, x.n)), x.ct.inner.text))
  }

  /** No two sealed messages share a page, hence none share a key. */
  ghost predicate SentOk(h: History, next: nat, who: nat, sent: map<nat, Sent>) {
    && (forall id :: id in sent ==> id < next && SentEntryOk(h, who, id, sent[id]))
    && (forall i, j :: i in sent && j in sent && i != j ==> (sent[i].e, sent[i].n) != (sent[j].e, sent[j].n))
  }

  ghost predicate PartyOk(h: History, next: nat, who: nat, p: Party)
    requires |h| >= 2
  {
    && SideOk(h, next, SendEpoch(h, who), p.st, p.consumed + p.evicted)
    && SentOk(h, next, who, p.sent)
  }

  /** The conversation file holds genuine texts, each once, and every text whose key is spent. */
  ghost predicate ConvOk(h: History, p: Party, peerSent: map<nat, Sent>) {
    && (forall i, j :: 0 <= i < j < |p.conv| ==> p.conv[i].id != p.conv[j].id)
    && (forall k :: 0 <= k < |p.conv| ==>
          p.conv[k].id in peerSent && p.conv[k].text == peerSent[p.conv[k].id].ct.inner.text)
    && (forall id :: id in peerSent && peerSent[id].e < |h| && (h[peerSent[id].e].d, peerSent[id].n) in p.consumed
          ==> HasId(p.conv, id))
  }

  ghost function PeerSent(c: World, who: nat): map<nat, Sent> {
    if 1 - who % 2 in c.parties then c.parties[1 - who % 2].sent else map[]
  }

  /** The history starts at the prekey and the bootstrap secret, and avoids the keys behind that secret. */
  ghost predicate Rooted(h: History)
    requires |h| >= 2
  {
    && h[0].d == PREKEY && h[0].root == InitiatorSk()
    && (forall e :: 0 <= e < |h| ==> h[e].d >= PREKEY)
    && (forall e :: 0 <= e < |h| && h[e].kemPub.Some? ==> h[e].kemPub.value >= PREKEY)
  }

  ghost predicate Inv(c: World) {
    && |c.h| >= 2
    && HistoryOk(c.h, c.next)
    && 8 <= c.next
    && Rooted(c.h)
    && 1 in c.parties
    && (0 in c.parties <==> |c.h| >= 3)
    && (forall who :: who in c.parties ==> who < 2)
    && (forall who {:trigger PartyOk(c.h, c.next, who, c.parties[who])} ::
          who in c.parties ==> PartyOk(c.h, c.next, who, c.parties[who]))
    && (forall who {:trigger ConvOk(c.h, c.parties[who], PeerSent(c, who))} ::
          who in c.parties ==> ConvOk(c.h, c.parties[who], PeerSent(c, who)))
  }
}
