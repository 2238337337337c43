/** Every event keeps both sides in agreement with the shared history. */
module Runs {
  import opened Wrappers
  import opened SymbolicCrypto
  import opened RatchetSpec
  import opened SkippedKeys
  import opened Epochs
  import opened KeyAgreement
  import opened Receiver
  import opened Conversation

  /** How a history develops: epochs are appended, and only a side's newest epoch gains messages. */
  ghost predicate Grows(h: History, next: nat, h': History) {
    && |h| <= |h'|
    && (forall e :: 0 <= e < |h| ==>
          && h'[e] == h[e].(len := h'[e].len)
          && h[e].len <= h'[e].len
          && (e + 2 < |h| ==> h'[e].len == h[e].len))
    && (forall e :: |h| <= e < |h'| ==> h'[e].d >= next && KemFrom(h, next, h'[e], e))
  }

  /** A new epoch's rolling key is a new one, or still that of the side's epoch before. */
  ghost predicate KemFrom(h: History, next: nat, ep: Epoch, e: int) {
    ep.kemPub.Some? && ep.kemPub.value < next ==> 0 <= e - 2 < |h| && h[e - 2].kemPub == ep.kemPub
  }

  lemma SentGrows(h: History, next: nat, h': History, next': nat, who: nat, sent: map<nat, Sent>)
    requires SentOk(h, next, who, sent) && Grows(h, next, h') && next <= next'
    ensures SentOk(h', next', who, sent)
  {
    forall id | id in sent ensures SentEntryOk(h', who, id, sent[id]) {
      var x := sent[id];
      assert SentEntryOk(h, who, id, x);
      assert x.e >= 2 ==> h'[x.e - 2].len == h[x.e - 2].len;
    }
  }

  lemma RecvGrows(h: History, next: nat, h': History, next': nat, r: nat, st: RatchetState, gone: set<Place>)
    requires RecvOk(h, next, r, st, gone) && Grows(h, next, h') && next <= next'
    ensures RecvOk(h', next', r, st, gone)
  {
    forall e, n: nat | 0 <= e < |h'|
      ensures IsSeen(st.skipped, gone, h'[e].d, n) <==> Reached(e, r) && n < Bound(h', st.nr, r, e)
    {
      if e < |h| {
        assert IsSeen(st.skipped, gone, h[e].d, n) <==> Reached(e, r) && n < Bound(h, st.nr, r, e);
      }
    }
    forall e, k | 1 <= e < |h'| && k in st.skipped && k.dh == h'[e].d ensures k.mk == KeyAt(h', e, k.n) {
      assert (k.dh, k.n) in Places(st.skipped);
      assert k.dh == h[e].d;
    }
    forall k | k in st.skipped ensures IsEpochKey(h', k.dh) {
      OwnerStays(h, h', k.dh);
    }
  }

  lemma RootedGrows(h: History, next: nat, h': History)
    requires |h| >= 2 && Rooted(h) && Grows(h, next, h') && next >= 8
    ensures Rooted(h')
  {
  }

  /** The side that did not act stays in order. */
  lemma BystanderGrows(h: History, next: nat, h': History, next': nat, s: nat, st: RatchetState, gone: set<Place>)
    requires SideOk(h, next, s, st, gone) && Grows(h, next, h') && next <= next'
    requires h'[s].len == h[s].len && |h'| <= s + 2
    ensures SideOk(h', next', s, st, gone)
  {
    RecvGrows(h, next, h', next', s - 1, st, gone);
    assert s >= 2 ==> h'[s - 2].len == h[s - 2].len;
  }

  lemma ConvGrows(h: History, next: nat, h': History, p: Party, peerSent: map<nat, Sent>)
    requires ConvOk(h, p, peerSent) && Grows(h, next, h')
    requires forall id :: id in peerSent ==> peerSent[id].e < |h|
    ensures ConvOk(h', p, peerSent)
  {
  }

  // ── Start and bootstrap ───────────────────────────────────────────────────

  lemma StartHistoryOk(legacy: bool)
    ensures var c := Start(legacy);
            HistoryOk(c.h, c.next) && Rooted(c.h) && |c.h| == 2 && c.next == 8 && c.parties.Keys == {1}
  {
    var c := Start(legacy);
    assert c.h[1] == OpenedEpoch(c.parties[1].st);
  }

  lemma StartSendOk(legacy: bool)
    ensures SendOk(Start(legacy).h, 1, Start(legacy).parties[1].st)
  {
    var c := Start(legacy);
    assert c.h[1] == OpenedEpoch(c.parties[1].st);
  }

  lemma StartRecvOk(legacy: bool)
    ensures var c := Start(legacy);
            RecvOk(c.h, c.next, 0, c.parties[1].st, {}) && c.parties[1].st.nr <= c.h[0].len
  {
    hide InitiatorSk;
  }

  lemma StartInv(legacy: bool)
    ensures Inv(Start(legacy))
  {
    StartHistoryOk(legacy);
    StartSendOk(legacy);
    StartRecvOk(legacy);
    var c := Start(legacy);
    assert c.parties[1] == Party(c.parties[1].st, [], map[], {}, {});
    hide Start, HistoryOk, SendOk, RecvOk, Rooted;
    var p := c.parties[1];
    assert p.consumed + p.evicted == {};
  }

  /** The inviter's first turn lands on epoch 1 and opens epoch 2. */
  lemma ResponderTurned(h: History, next: nat, advertised: bool, legacy: bool)
    requires HistoryOk(h, next) && |h| == 2 && h[0].d == PREKEY && h[0].root == InitiatorSk()
    requires h[1].kemCt.None?
    ensures var st := Responder(h, next, advertised, legacy);
            && st.cks.Some?
            && st.ckr == Some(h[1].chain) && st.dhrPub == Some(h[1].d) && st.nr == 0 && st.skipped == []
            && SendOk(h + [OpenedEpoch(st)], 2, st)
            && var ep := OpenedEpoch(st);
            && ep.d == next + 1 && ep.len == 0
            && (ep.root, ep.chain) == KdfRoot(h[1].root, Dh(ep.d, h[1].d), TurnSs(ep.kemCt))
            && (ep.kemCt.Some? ==> h[1].kemPub == Some(ep.kemCt.value.pk) && ep.kemPub.Some?)
            && (ep.kemPub.Some? ==> next <= ep.kemPub.value < next + 4)
  {
    assert (h[1].root, h[1].chain) == KdfRoot(InitiatorSk(), Dh(h[1].d, PREKEY), None);
    assert InitiatorSk() == ResponderSk();
  }

  lemma SecondEpochKeepsHistory(h: History, next: nat, ep: Epoch)
    requires HistoryOk(h, next) && |h| == 2
    requires ep.d == next + 1
    requires (ep.root, ep.chain) == KdfRoot(h[1].root, Dh(ep.d, h[1].d), TurnSs(ep.kemCt))
    requires ep.kemCt.Some? ==> h[1].kemPub == Some(ep.kemCt.value.pk) && ep.kemPub.Some?
    requires ep.kemPub.Some? ==> next <= ep.kemPub.value < next + 4
    ensures HistoryOk(h + [ep], next + 4)
  {
    var h' := h + [ep];
    assert h'[0] == h[0] && h'[1] == h[1] && h'[2] == ep;
    forall e, f | 0 <= e < |h'| && 0 <= f < |h'| && OtherSide(e, f) && h'[e].kemPub.Some?
      ensures h'[e].kemPub != h'[f].kemPub
    {
    }
  }

  lemma BeforeBootstrap(c: World)
    requires Inv(c) && 0 !in c.parties
    ensures |c.h| == 2 && HistoryOk(c.h, c.next) && c.h[0].d == PREKEY && c.h[0].root == InitiatorSk()
    ensures c.h[1].kemCt.None? && 1 in c.parties
  {
    hide TurnsLink, KeysFresh, KemKeysApart, PartyOk, ConvOk;
    assert OtherSide(0, 1);
  }

  lemma FirstBootstrapKeeps(c: World, advertised: bool, legacy: bool)
    requires Inv(c) && 0 !in c.parties
    ensures Inv(BootstrapStep(c, advertised, legacy))
  {
    hide Inv, HistoryOk, PartyOk, ConvOk, SendOk, Responder, InitiatorSk, KdfRoot, Dh, TurnSs, BootstrapStep;
    BeforeBootstrap(c);
    BootstrapUnfolds(c, advertised, legacy);
    var p, st := c.parties[1], Responder(c.h, c.next, advertised, legacy);
    var c' := BootstrapStep(c, advertised, legacy);
    SecondEpochKeepsHistory(c.h, c.next, OpenedEpoch(st));
    BootstrapJoins(c, p, st, c');
  }

  lemma BootstrapKeeps(c: World, advertised: bool, legacy: bool)
    requires Inv(c)
    ensures Inv(BootstrapStep(c, advertised, legacy))
  {
    assert |c.h| >= 2;
    hide Inv, Responder;
    if 0 !in c.parties {
      FirstBootstrapKeeps(c, advertised, legacy);
    }
  }

  lemma BootstrapUnfolds(c: World, advertised: bool, legacy: bool)
    requires HistoryOk(c.h, c.next) && |c.h| == 2 && c.h[0].d == PREKEY && c.h[0].root == InitiatorSk()
    requires c.h[1].kemCt.None? && 0 !in c.parties
    ensures var st := Responder(c.h, c.next, advertised, legacy);
            && st.cks.Some?
            && BootstrapStep(c, advertised, legacy)
               == World(c.h + [OpenedEpoch(st)], c.parties[0 := Party(st, [], map[], {}, {})], c.next + 4)
            && st.ckr == Some(c.h[1].chain) && st.dhrPub == Some(c.h[1].d) && st.nr == 0 && st.skipped == []
            && SendOk(c.h + [OpenedEpoch(st)], 2, st)
            && var ep := OpenedEpoch(st);
            && ep.d == c.next + 1
            && (ep.root, ep.chain) == KdfRoot(c.h[1].root, Dh(ep.d, c.h[1].d), TurnSs(ep.kemCt))
            && (ep.kemCt.Some? ==> c.h[1].kemPub == Some(ep.kemCt.value.pk) && ep.kemPub.Some?)
            && (ep.kemPub.Some? ==> c.next <= ep.kemPub.value < c.next + 4)
  {
    ResponderTurned(c.h, c.next, advertised, legacy);
    hide HistoryOk, SendOk, Responder, InitiatorSk, KdfRoot, Dh, TurnSs;
  }

  lemma BootstrapGrows(h: History, next: nat, ep: Epoch)
    requires ep.d >= next && (ep.kemPub.Some? ==> ep.kemPub.value >= next)
    ensures Grows(h, next, h + [ep])
  {
  }

  lemma FreshReader(h: History, next: nat, st: RatchetState)
    requires |h| >= 3 && st.ckr == Some(h[1].chain) && st.dhrPub == Some(h[1].d) && st.nr == 0 && st.skipped == []
    ensures RecvOk(h, next, 1, st, {})
  {
  }

  /** The invariant for a world in which both sides exist, side by side. */
  lemma BothSides(c: World)
    requires HistoryOk(c.h, c.next) && 8 <= c.next && |c.h| >= 3
    requires Rooted(c.h)
    requires c.parties.Keys == {0, 1}
    requires PartyOk(c.h, c.next, 0, c.parties[0]) && PartyOk(c.h, c.next, 1, c.parties[1])
    requires ConvOk(c.h, c.parties[0], c.parties[1].sent) && ConvOk(c.h, c.parties[1], c.parties[0].sent)
    ensures Inv(c)
  {
    hide HistoryOk, PartyOk, ConvOk;
  }

  function FirstId(conv: seq<Stored>): Option<nat> {
    if conv == [] then None else Some(conv[0].id)
  }

  lemma NothingReadBeforeBootstrap(c: World)
    requires Inv(c) && 0 !in c.parties
    ensures c.parties[1].conv == []
  {
    var p := c.parties[1];
    assert ConvOk(c.h, p, PeerSent(c, 1));
    assert FirstId(p.conv) == None;
  }

  lemma BootstrapJoins(c: World, p: Party, st: RatchetState, c': World)
    requires Inv(c) && |c.h| == 2 && p == c.parties[1] && st.cks.Some?
    requires st.ckr == Some(c.h[1].chain) && st.dhrPub == Some(c.h[1].d) && st.nr == 0 && st.skipped == []
    requires OpenedEpoch(st).d == c.next + 1
    requires OpenedEpoch(st).kemPub.Some? ==> OpenedEpoch(st).kemPub.value >= c.next
    requires SendOk(c.h + [OpenedEpoch(st)], 2, st)
    requires c' == World(c.h + [OpenedEpoch(st)], c.parties[0 := Party(st, [], map[], {}, {})], c.next + 4)
    requires HistoryOk(c'.h, c'.next)
    ensures Inv(c')
  {
    hide HistoryOk, RecvOk, SendOk, Grows, SentOk;
    var q := c'.parties[0];
    BootstrapGrows(c.h, c.next, OpenedEpoch(st));
    NothingReadBeforeBootstrap(c);
    assert PartyOk(c.h, c.next, 1, p);
    BystanderGrows(c.h, c.next, c'.h, c'.next, 1, p.st, p.consumed + p.evicted);
    SentGrows(c.h, c.next, c'.h, c'.next, 1, p.sent);
    FreshReader(c'.h, c'.next, st);
    assert q.consumed + q.evicted == {};
    assert SentOk(c'.h, c'.next, 0, q.sent) by { NothingSent(c'.h, c'.next); }
    assert PartyOk(c'.h, c'.next, 0, q);
    RootedGrows(c.h, c.next, c'.h);
    BothSides(c');
  }

  lemma NothingSent(h: History, next: nat)
    ensures SentOk(h, next, 0, map[])
  {
  }

  // ── Sending ───────────────────────────────────────────────────────────────

  lemma NumberingGrows(h: History, next: nat, s: nat, len: nat)
    requires 1 <= s < |h| <= s + 2 && h[s].len <= len
    ensures Grows(h, next, Numbered(h, s, len))
  {
  }

  /** A send uses the next page of the side's newest epoch, whether or not the wire gets out. */
  lemma SendFacts(h: History, next: nat, who: nat, p: Party, text: string)
    requires HistoryOk(h, next) && PartyOk(h, next, who, p)
    ensures var s := SendEpoch(h, who);
            var r := BuildWire(p.st, who, text, next);
            && r.Ok?
            && var (w, st) := r.value;
            && st == p.st.(cks := st.cks, ns := h[s].len + 1)
            && w.hdr == HeaderAt(h, s, h[s].len)
            && w.ct == Ciphertext(next, KeyAt(h, s, h[s].len), Inner(Message, who, Some(who), Some(w.hdr), text))
            && SendOk(Numbered(h, s, st.ns), s, st)
  {
  }

  lemma SendKeepsParty(h: History, next: nat, who: nat, p: Party, st: RatchetState, x: Sent, crash: bool)
    requires HistoryOk(h, next) && PartyOk(h, next, who, p)
    requires var s := SendEpoch(h, who);
             && st == p.st.(cks := st.cks, ns := h[s].len + 1)
             && SendOk(Numbered(h, s, st.ns), s, st)
             && SentEntryOk(Numbered(h, s, st.ns), who, next, x) && x.e == s && x.n == h[s].len
    ensures var s := SendEpoch(h, who);
            PartyOk(Numbered(h, s, st.ns), next + 1, who,
                    p.(st := st, sent := if crash then p.sent else p.sent[next := x]))
  {
    hide HistoryOk;
    var s := SendEpoch(h, who);
    var h' := Numbered(h, s, st.ns);
    NumberingGrows(h, next, s, st.ns);
    SentGrows(h, next, h', next + 1, who, p.sent);
    RecvGrows(h, next, h', next + 1, s - 1, p.st, p.consumed + p.evicted);
    assert SideOk(h', next + 1, s, st, p.consumed + p.evicted);
    assert forall id :: id in p.sent ==> SentEntryOk(h, who, id, p.sent[id]);
    assert SentOk(h', next + 1, who, p.sent[next := x]);
  }

  /** A page that has just been numbered cannot have been read yet, nor its key evicted. */
  lemma NewPageUnread(h: History, next: nat, who: nat, q: Party)
    requires HistoryOk(h, next) && who < 2 && PartyOk(h, next, 1 - who, q)
    ensures var s := SendEpoch(h, who); (h[s].d, h[s].len) !in q.consumed && (h[s].d, h[s].len) !in q.evicted
  {
    var s, r := SendEpoch(h, who), SendEpoch(h, 1 - who) - 1;
    assert IsSeen(q.st.skipped, q.consumed + q.evicted, h[s].d, h[s].len)
      <==> Reached(s, r) && h[s].len < Bound(h, q.st.nr, r, s);
  }

  lemma SendKeepsConvs(h: History, next: nat, who: nat, p: Party, q: Party, h': History, sent': map<nat, Sent>, x: Sent)
    requires HistoryOk(h, next) && who < 2 && Grows(h, next, h')
    requires PartyOk(h, next, who, p) && PartyOk(h, next, 1 - who, q)
    requires ConvOk(h, p, q.sent) && ConvOk(h, q, p.sent)
    requires x.e == SendEpoch(h, who) && x.n == h[x.e].len
    requires sent' == p.sent || sent' == p.sent[next := x]
    ensures ConvOk(h', p, q.sent) && ConvOk(h', q, sent')
  {
    hide HistoryOk, SideOk;
    assert forall id :: id in q.sent ==> SentEntryOk(h, 1 - who, id, q.sent[id]);
    assert forall id :: id in p.sent ==> SentEntryOk(h, who, id, p.sent[id]);
    ConvGrows(h, next, h', p, q.sent);
    ConvGrows(h, next, h', q, p.sent);
    NewPageUnread(h, next, who, q);
  }

  lemma SendEpochIsReal(c: World, who: nat)
    requires Inv(c) && who in c.parties
    ensures who < 2 && 2 <= |c.h| && 1 <= SendEpoch(c.h, who) && |c.h| <= SendEpoch(c.h, who) + 2
    ensures SendEpoch(c.h, who) % 2 == who % 2
    ensures HistoryOk(c.h, c.next) && PartyOk(c.h, c.next, who, c.parties[who])
    ensures 1 - who in c.parties ==>
      |c.h| >= 3 && c.parties.Keys == {0, 1} && PartyOk(c.h, c.next, 1 - who, c.parties[1 - who])
    ensures 1 - who !in c.parties ==> c.parties == map[1 := c.parties[who]]
  {
    hide HistoryOk, SideOk, SentOk, ConvOk;
  }

  /** The page a send takes, and the world it leads to. */
  lemma SendStepFacts(c: World, who: nat, text: string, crash: bool)
    requires Inv(c) && who in c.parties && Body(text) != ""
    ensures var s, p := SendEpoch(c.h, who), c.parties[who];
            var r := BuildWire(p.st, who, Body(text), c.next);
            && r.Ok?
            && var (w, st) := r.value;
            var x := Sent(s, w.hdr.n, w.ct);
            && x.n == c.h[s].len && st.ns == x.n + 1
            && HistoryOk(Numbered(c.h, s, st.ns), c.next)
            && Grows(c.h, c.next, Numbered(c.h, s, st.ns))
            && SentEntryOk(Numbered(c.h, s, st.ns), who, c.next, x)
            && PartyOk(Numbered(c.h, s, st.ns), c.next + 1, who,
                       p.(st := st, sent := if crash then p.sent else p.sent[c.next := x]))
  {
    hide HistoryOk, SideOk, SentOk, ConvOk, Grows, SendOk, BuildWire;
    SendEpochIsReal(c, who);
    var p, s := c.parties[who], SendEpoch(c.h, who);
    SendFacts(c.h, c.next, who, p, Body(text));
    var (w, st) := BuildWire(p.st, who, Body(text), c.next).value;
    var x := Sent(s, w.hdr.n, w.ct);
    var h' := Numbered(c.h, s, st.ns);
    NumberingKeepsHistory(c.h, c.next, s, st.ns);
    NumberingGrows(c.h, c.next, s, st.ns);
    assert PrevLen(h', s) == PrevLen(c.h, s);
    assert SentEntryOk(h', who, c.next, x);
    SendKeepsParty(c.h, c.next, who, p, st, x, crash);
  }

  lemma SendKeeps(c: World, who: nat, text: string, crash: bool)
    requires Inv(c)
    ensures Inv(SendStep(c, who, text, crash))
  {
    hide Inv, HistoryOk, PartyOk, SentEntryOk, Grows, BuildWire;
    if who in c.parties && Body(text) != "" {
      SendEpochIsReal(c, who);
      SendStepFacts(c, who, text, crash);
      var p, s := c.parties[who], SendEpoch(c.h, who);
      var (w, st) := BuildWire(p.st, who, Body(text), c.next).value;
      var c' := SendStep(c, who, text, crash);
      WiderNext(c'.h, c.next, c'.next);
      SendJoins(c, who, p, st, Sent(s, w.hdr.n, w.ct), c');
    }
  }

  /** What the invariant says besides both sides being in order. */
  lemma InvParts(c: World, who: nat)
    requires Inv(c) && who in c.parties
    ensures |c.h| >= 2 && Rooted(c.h) && 8 <= c.next && who < 2 && (1 - who !in c.parties ==> |c.h| == 2)
    ensures 1 - who in c.parties ==>
              && ConvOk(c.h, c.parties[who], c.parties[1 - who].sent)
              && ConvOk(c.h, c.parties[1 - who], c.parties[who].sent)
  {
    hide HistoryOk, PartyOk, ConvOk, Rooted;
    assert ConvOk(c.h, c.parties[who], PeerSent(c, who));
    if 1 - who in c.parties {
      assert ConvOk(c.h, c.parties[1 - who], PeerSent(c, 1 - who));
    }
  }

  lemma SendJoins(c: World, who: nat, p: Party, st: RatchetState, x: Sent, c': World)
    requires Inv(c) && who in c.parties && p == c.parties[who]
    requires x.e == SendEpoch(c.h, who) && x.n == c.h[x.e].len && st.ns == x.n + 1
    requires HistoryOk(c'.h, c'.next) && Grows(c.h, c.next, c'.h) && c'.next == c.next + 1
    requires c'.h == Numbered(c.h, x.e, st.ns)
    requires who in c'.parties
    requires var p' := c'.parties[who];
             && c'.parties == c.parties[who := p']
             && p' == p.(st := st, sent := p'.sent)
             && (p'.sent == p.sent || p'.sent == p.sent[c.next := x])
             && PartyOk(c'.h, c'.next, who, p')
    ensures Inv(c')
  {
    hide Inv, HistoryOk, SideOk, SentOk, ConvOk, Grows, Rooted;
    SendEpochIsReal(c, who);
    InvParts(c, who);
    RootedGrows(c.h, c.next, c'.h);
    var p' := c'.parties[who];
    if 1 - who in c.parties {
      var q := c.parties[1 - who];
      SendEpochIsReal(c, 1 - who);
      var t := SendEpoch(c.h, 1 - who);
      BystanderGrows(c.h, c.next, c'.h, c'.next, t, q.st, q.consumed + q.evicted);
      SentGrows(c.h, c.next, c'.h, c'.next, 1 - who, q.sent);
      SendKeepsConvs(c.h, c.next, who, p, q, c'.h, p'.sent, x);
      SameConv(c'.h, p, p', q.sent);
      assert PartyOk(c'.h, c'.next, 1 - who, q);
      Both(c', who, p', q);
    } else {
      AloneSends(c, p, c', p');
    }
  }

  lemma Both(c: World, who: nat, p: Party, q: Party)
    requires HistoryOk(c.h, c.next) && 8 <= c.next && |c.h| >= 3 && who < 2
    requires Rooted(c.h)
    requires c.parties.Keys == {0, 1} && c.parties[who] == p && c.parties[1 - who] == q
    requires PartyOk(c.h, c.next, who, p) && PartyOk(c.h, c.next, 1 - who, q)
    requires ConvOk(c.h, p, q.sent) && ConvOk(c.h, q, p.sent)
    ensures Inv(c)
  {
    hide HistoryOk, PartyOk, ConvOk, Inv;
    BothSides(c);
  }

  lemma AloneSends(c: World, p: Party, c': World, p': Party)
    requires Inv(c) && c.parties == map[1 := p] && c'.parties == map[1 := p'] && |c'.h| == 2
    requires HistoryOk(c'.h, c'.next) && 8 <= c'.next && Grows(c.h, c.next, c'.h)
    requires PartyOk(c'.h, c'.next, 1, p') && p'.conv == p.conv
    ensures Inv(c')
  {
    hide HistoryOk, PartyOk;
    NothingReadBeforeBootstrap(c);
    RootedGrows(c.h, c.next, c'.h);
  }

  lemma SameConv(h: History, p: Party, p': Party, peerSent: map<nat, Sent>)
    requires ConvOk(h, p, peerSent) && p'.conv == p.conv && p'.consumed == p.consumed
    ensures ConvOk(h, p', peerSent)
  {
  }

  // ── Delivering ────────────────────────────────────────────────────────────

  /** What every committed delivery was: a page the peer really sealed, under its own key and header. */
  lemma CommitIsGenuine(c: World, who: nat, w: Wire, now: int, crash: bool)
    requires Inv(c) && who in c.parties && Deliverable(c, Deliver(who, w, now, crash))
    requires Receive(c.parties[who].st, c.parties[who].conv, 1 - who % 2, w, now, Mint(c.next)).verdict.Committed?
    ensures who < 2 && 1 - who in c.parties && w.ct.id in c.parties[1 - who].sent
    ensures var x := c.parties[1 - who].sent[w.ct.id];
            && SentEntryOk(c.h, 1 - who, w.ct.id, x) && x.ct == w.ct && w.hdr == HeaderAt(c.h, x.e, x.n)
            && Opens(c.h, c.parties[who].st, x.e, x.n, now, Mint(c.next))
  {
    hide Inv, HistoryOk, SideOk, StepRecv, Receive, Deliverable, Genuine;
    SendEpochIsReal(c, who);
    CommitIsSigned(c, who, w, now, crash);
    GenuineIsPage(c, who, w.ct);
  }

  /** What unseals and passes every check carries the peer's signature, so the peer sealed it. */
  lemma CommitIsSigned(c: World, who: nat, w: Wire, now: int, crash: bool)
    requires who < 2 && who in c.parties && Deliverable(c, Deliver(who, w, now, crash))
    requires Receive(c.parties[who].st, c.parties[who].conv, 1 - who % 2, w, now, Mint(c.next)).verdict.Committed?
    ensures Genuine(c, who, w.ct) && Vet(w, 1 - who) == None
    ensures var r := StepRecv(c.parties[who].st, w.hdr, now, Mint(c.next)); r.Ok? && r.value.0 == w.ct.key
  {
    hide StepRecv, Genuine;
    assert Vet(w, 1 - who) == None;
  }

  lemma GenuineIsPage(c: World, who: nat, ct: Ciphertext)
    requires Inv(c) && who in c.parties && Genuine(c, who, ct)
    ensures who < 2 && 1 - who in c.parties && ct.id in c.parties[1 - who].sent
    ensures SentEntryOk(c.h, 1 - who, ct.id, c.parties[1 - who].sent[ct.id]) && c.parties[1 - who].sent[ct.id].ct == ct
  {
    hide HistoryOk, SideOk, ConvOk, SentEntryOk;
    SendEpochIsReal(c, who);
  }

  lemma RecvKeyPair(st: RatchetState, hdr: Header, now: int, rnd: Randomness)
    requires StepRecv(st, hdr, now, rnd).Ok?
    ensures var after := StepRecv(st, hdr, now, rnd).value.1;
            && (after.dhsPub == st.dhsPub || (after.dhsPub == rnd.dh && after.ns == 0))
            && (after.kemPub == st.kemPub || after.kemPub == Some(rnd.kem))
  {
    hide Evict;
  }

  lemma RecordingGrows(h: History, next: nat, before: RatchetState, after: RatchetState)
    requires after.dhsPub == before.dhsPub || after.dhsPub == next
    requires after.kemPub == before.kemPub || (after.kemPub.Some? && after.kemPub.value >= next)
    requires |Recorded(h, before, after)| > |h| ==> |h| >= 2 && h[|h| - 2].kemPub == before.kemPub
    ensures Grows(h, next, Recorded(h, before, after))
  {
  }

  /** A delivered text is stored once, and only after that does its key count as spent. */
  lemma DeliverKeepsConv(h: History, next: nat, h': History, who: nat, p: Party, p': Party, q: Party, id: nat)
    requires KeysFresh(h, next) && Grows(h, next, h') && who < 2
    requires SentOk(h, next, 1 - who, q.sent) && ConvOk(h, p, q.sent) && id in q.sent
    requires p'.conv == StoreIncoming(p.conv, id, q.sent[id].ct.inner.text)
    requires p'.consumed == p.consumed || p'.consumed == p.consumed + {(h[q.sent[id].e].d, q.sent[id].n)}
    ensures ConvOk(h', p', q.sent)
  {
    assert SentEntryOk(h, 1 - who, id, q.sent[id]);
    NewConvIsGenuine(h, next, who, p, p', q, id);
    forall i | i in q.sent && q.sent[i].e < |h'| && (h'[q.sent[i].e].d, q.sent[i].n) in p'.consumed
      ensures HasId(p'.conv, i)
    {
      assert SentEntryOk(h, 1 - who, i, q.sent[i]);
      assert h'[q.sent[i].e].d == h[q.sent[i].e].d;
      SpentHasText(h, next, who, p, p', q, id, i);
    }
    hide HasId, StoreIncoming, SentOk, KeysFresh;
  }

  lemma NewConvIsGenuine(h: History, next: nat, who: nat, p: Party, p': Party, q: Party, id: nat)
    requires who < 2 && SentOk(h, next, 1 - who, q.sent) && ConvOk(h, p, q.sent) && id in q.sent
    requires p'.conv == StoreIncoming(p.conv, id, q.sent[id].ct.inner.text)
    ensures forall i, j :: 0 <= i < j < |p'.conv| ==> p'.conv[i].id != p'.conv[j].id
    ensures forall k :: 0 <= k < |p'.conv| ==>
              p'.conv[k].id in q.sent && p'.conv[k].text == q.sent[p'.conv[k].id].ct.inner.text
  {
    assert SentEntryOk(h, 1 - who, id, q.sent[id]);
    assert !HasId(p.conv, id) ==> forall k :: 0 <= k < |p.conv| ==> p.conv[k].id != id;
    hide SentOk, SentEntryOk;
  }

  /** Pages are distinct, so only the delivered wire's key can be newly spent. */
  lemma SpentHasText(h: History, next: nat, who: nat, p: Party, p': Party, q: Party, id: nat, i: nat)
    requires who < 2 && KeysFresh(h, next) && SentOk(h, next, 1 - who, q.sent) && ConvOk(h, p, q.sent)
    requires id in q.sent && i in q.sent && q.sent[i].e < |h| && q.sent[id].e < |h|
    requires p'.conv == StoreIncoming(p.conv, id, q.sent[id].ct.inner.text)
    requires (h[q.sent[i].e].d, q.sent[i].n) in p.consumed + {(h[q.sent[id].e].d, q.sent[id].n)}
    ensures HasId(p'.conv, i)
  {
    var x, y := q.sent[i], q.sent[id];
    assert SentEntryOk(h, 1 - who, i, x) && SentEntryOk(h, 1 - who, id, y);
    if (h[x.e].d, x.n) in p.consumed {
      var k :| 0 <= k < |p.conv| && p.conv[k].id == i;
      assert p'.conv[k].id == i;
    } else {
      assert i == id;
      assert HasId(p.conv, id) || p'.conv[|p.conv|].id == id;
    }
  }

  lemma SideHasKemKey(h: History, next: nat, s: nat, st: RatchetState, gone: set<Place>)
    requires SideOk(h, next, s, st, gone)
    ensures 1 <= s < |h| && h[s].kemPub == st.kemPub
  {
    hide RecvOk;
  }

  lemma CommittedParty(c: World, who: nat, w: Wire, now: int, x: Sent)
    requires Inv(c) && who in c.parties && who < 2 && 1 - who in c.parties
    requires SentEntryOk(c.h, 1 - who, w.ct.id, x) && w.hdr == HeaderAt(c.h, x.e, x.n)
    requires Opens(c.h, c.parties[who].st, x.e, x.n, now, Mint(c.next))
    ensures var p := c.parties[who];
            var after := StepRecv(p.st, w.hdr, now, Mint(c.next)).value.1;
            var h' := Recorded(c.h, p.st, after);
            && HistoryOk(h', c.next + 3)
            && Grows(c.h, c.next, h') && (forall e :: 0 <= e < |c.h| ==> h'[e] == c.h[e])
            && |h'| <= SendEpoch(c.h, 1 - who) + 2
            && PartyOk(h', c.next + 3, who,
                       p.(st := after, consumed := p.consumed + {(w.hdr.dh, w.hdr.n)},
                          evicted := p.evicted + DroppedByRecv(p.st, w.hdr, now, Mint(c.next))))
  {
    hide Inv, HistoryOk, SideOk, SentOk, ConvOk, StepRecv, DroppedByRecv, Grows, KeyAt, Openable;
    SendEpochIsReal(c, who);
    var p, s := c.parties[who], SendEpoch(c.h, who);
    var gone := p.consumed + p.evicted;
    GenuineDelivery(c.h, c.next, s, p.st, gone, x.e, x.n, now);
    var after := StepRecv(p.st, w.hdr, now, Mint(c.next)).value.1;
    var h' := Recorded(c.h, p.st, after);
    RecvKeyPair(p.st, w.hdr, now, Mint(c.next));
    TurnsOnlyWhenBehind(c.h, c.next, s, p.st, gone, x.e, x.n, now);
    SideHasKemKey(c.h, c.next, s, p.st, gone);
    RecordingGrows(c.h, c.next, p.st, after);
    SentGrows(c.h, c.next, h', c.next + 3, who, p.sent);
    assert SendEpoch(h', who) == if |h'| > |c.h| then s + 2 else s;
    var dropped := DroppedByRecv(p.st, w.hdr, now, Mint(c.next));
    assert (p.consumed + {(w.hdr.dh, w.hdr.n)}) + (p.evicted + dropped) == gone + dropped + {(w.hdr.dh, w.hdr.n)};
  }

  /** Only the side that is half a turn behind opens a new epoch. */
  lemma TurnsOnlyWhenBehind(h: History, next: nat, s: nat, st: RatchetState, gone: set<Place>, e: nat, n: nat, now: int)
    requires e < |h| && SideOk(h, next, s, st, gone) && AgreesAfter(h, next, s, st, gone, e, n, now)
    ensures var after := StepRecv(st, HeaderAt(h, e, n), now, Mint(next)).value.1;
            |Recorded(h, st, after)| > |h| ==> |h| == s + 2
  {
    hide HistoryOk, StepRecv, DroppedByRecv, RecvOk;
  }

  lemma DeliverKeeps(c: World, who: nat, w: Wire, now: int, crash: bool)
    requires Inv(c) && Deliverable(c, Deliver(who, w, now, crash))
    ensures Inv(DeliverStep(c, who, w, now, crash))
  {
    hide Inv, HistoryOk, PartyOk, SideOk, SentOk, ConvOk, StepRecv, DroppedByRecv, Grows, Deliverable, SentEntryOk;
    if who in c.parties {
      var p := c.parties[who];
      var out := Receive(p.st, p.conv, 1 - who % 2, w, now, Mint(c.next));
      if out.verdict.Committed? {
        CommitIsGenuine(c, who, w, now, crash);
        var x := c.parties[1 - who].sent[w.ct.id];
        SendEpochIsReal(c, who);
        if crash {
          StaysPut(c.h, c.next);
          ConvFileIsFree(c.h, c.next, who, p, out.conv);
        } else {
          CommittedParty(c, who, w, now, x);
          ConvFileIsFree(Recorded(c.h, p.st, out.st), c.next + 3, who,
                         p.(st := out.st, consumed := p.consumed + {(w.hdr.dh, w.hdr.n)},
                            evicted := p.evicted + DroppedByRecv(p.st, w.hdr, now, Mint(c.next))), out.conv);
        }
        DeliverJoins(c, who, w, out, x, DeliverStep(c, who, w, now, crash));
      }
    }
  }

  lemma StaysPut(h: History, next: nat)
    ensures Grows(h, next, h)
  {
  }

  lemma ConvFileIsFree(h: History, next: nat, who: nat, p: Party, conv: seq<Stored>)
    requires |h| >= 2 && PartyOk(h, next, who, p)
    ensures PartyOk(h, next, who, p.(conv := conv))
  {
    hide SideOk, SentOk;
  }

  lemma DeliverJoins(c: World, who: nat, w: Wire, out: Outcome, x: Sent, c': World)
    requires Inv(c) && who < 2 && who in c.parties && 1 - who in c.parties
    requires w.ct.id in c.parties[1 - who].sent && x == c.parties[1 - who].sent[w.ct.id] && x.ct == w.ct
    requires SentEntryOk(c.h, 1 - who, w.ct.id, x) && w.hdr == HeaderAt(c.h, x.e, x.n)
    requires out.conv == StoreIncoming(c.parties[who].conv, w.ct.id, w.ct.inner.text)
    requires HistoryOk(c'.h, c'.next) && c.next <= c'.next && Grows(c.h, c.next, c'.h)
    requires (forall e :: 0 <= e < |c.h| ==> c'.h[e] == c.h[e]) && |c'.h| <= SendEpoch(c.h, 1 - who) + 2
    requires who in c'.parties && |c'.h| >= |c.h| >= 2
    requires var p' := c'.parties[who];
             && c'.parties == c.parties[who := p']
             && p'.conv == out.conv && p'.sent == c.parties[who].sent
             && (|| p'.consumed == c.parties[who].consumed
                 || p'.consumed == c.parties[who].consumed + {(w.hdr.dh, w.hdr.n)})
             && PartyOk(c'.h, c'.next, who, p')
    ensures Inv(c')
  {
    hide Inv, HistoryOk, SideOk, SentOk, ConvOk, Grows, Rooted;
    SendEpochIsReal(c, who);
    InvParts(c, who);
    var p, p', q := c.parties[who], c'.parties[who], c.parties[1 - who];
    var t := SendEpoch(c.h, 1 - who);
    BystanderGrows(c.h, c.next, c'.h, c'.next, t, q.st, q.consumed + q.evicted);
    SentGrows(c.h, c.next, c'.h, c'.next, 1 - who, q.sent);
    assert KeysFresh(c.h, c.next) by { HistoryHasFreshKeys(c.h, c.next); }
    DeliverKeepsConv(c.h, c.next, c'.h, who, p, p', q, w.ct.id);
    SentWithin(c.h, c.next, who, p.sent);
    ConvGrows(c.h, c.next, c'.h, q, p.sent);
    assert PartyOk(c'.h, c'.next, 1 - who, q);
    RootedGrows(c.h, c.next, c'.h);
    Both(c', who, p', q);
  }

  lemma SentWithin(h: History, next: nat, who: nat, sent: map<nat, Sent>)
    requires SentOk(h, next, who, sent)
    ensures forall id :: id in sent ==> sent[id].e < |h|
  {
    assert forall id :: id in sent ==> SentEntryOk(h, who, id, sent[id]);
  }

  // ── Whole runs ────────────────────────────────────────────────────────────

  lemma StepKeepsInv(c: World, ev: Event)
    requires Inv(c) && Deliverable(c, ev)
    ensures Inv(Step(c, ev))
  {
    hide Inv, Deliverable;
    match ev
    case Bootstrap(advertised, legacy) => BootstrapKeeps(c, advertised, legacy);
    case Send(who, text, crash) => SendKeeps(c, who, text, crash);
    case Deliver(who, w, now, crash) => DeliverKeeps(c, who, w, now, crash);
  }

  /** The ping-pong invariant holds after any possible run, from any point where it held. */
  lemma {:induction false} RunKeepsInv(c: World, evs: seq<Event>)
    requires Inv(c) && PossibleRun(c, evs)
    ensures Inv(Run(c, evs))
    decreases |evs|
  {
    if evs != [] {
      StepKeepsInv(c, evs[0]);
      RunKeepsInv(Step(c, evs[0]), evs[1..]);
    }
  }

  lemma {:induction false} RunConcat(c: World, a: seq<Event>, b: seq<Event>)
    requires |c.h| >= 2
    ensures Run(c, a + b) == Run(Run(c, a), b)
    ensures PossibleRun(c, a + b) <==> PossibleRun(c, a) && PossibleRun(Run(c, a), b)
    decreases |a|
  {
    hide Step, Deliverable;
    if a == [] {
      assert a + b == b;
    } else {
      assert (a + b)[1..] == a[1..] + b;
      RunConcat(Step(c, a[0]), a[1..], b);
    }
  }
}
