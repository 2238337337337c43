/**
 What a conversation guarantees, stated for every run of Conversation.dfy: any number of
 events in any order, with a network that forges, reorders, loses and duplicates.
 */
module Guarantees {
  import opened Wrappers
  import opened SymbolicCrypto
  import opened RatchetSpec
  import opened SkippedKeys
  import opened Epochs
  import opened KeyAgreement
  import opened Receiver
  import opened Conversation
  import opened Runs

  /** Delivering `w` to side `who` now would open it, store it and move the ratchet on disk. */
  ghost predicate Commits(c: World, who: nat, w: Wire, now: int) {
    && who in c.parties
    && Receive(c.parties[who].st, c.parties[who].conv, 1 - who % 2, w, now, Mint(c.next)).verdict.Committed?
  }

  /** The peer's payload, under the header it was sealed with. */
  ghost predicate Unaltered(c: World, who: nat, w: Wire) {
    Genuine(c, who, w.ct) && w.ct.inner.rh == Some(w.hdr)
  }

  /** Every state that any run can reach from an accepted invite satisfies the invariant. */
  lemma ReachableInv(legacy: bool, evs: seq<Event>)
    requires PossibleRun(Start(legacy), evs)
    ensures Inv(Run(Start(legacy), evs))
  {
    StartInv(legacy);
    RunKeepsInv(Start(legacy), evs);
  }

  // ── Key agreement and forgery ─────────────────────────────────────────────

  lemma InvSize(c: World)
    requires Inv(c)
    ensures |c.h| >= 2
  {
  }

  /** What an unaltered payload is, page by page. */
  lemma UnalteredPage(c: World, who: nat, w: Wire)
    requires Inv(c) && who in c.parties && Unaltered(c, who, w)
    ensures who < 2 && 1 - who in c.parties && w.ct.id in c.parties[1 - who].sent
    ensures var x := PeerSent(c, who)[w.ct.id];
            && SentEntryOk(c.h, 1 - who, w.ct.id, x) && x.ct == w.ct && w.hdr == HeaderAt(c.h, x.e, x.n)
            && w.hdr.dh == c.h[x.e].d && w.hdr.n == x.n
  {
    hide HistoryOk, SideOk, ConvOk;
    SendEpochIsReal(c, who);
    assert SentEntryOk(c.h, 1 - who, w.ct.id, PeerSent(c, who)[w.ct.id]);
  }

  /** For an unaltered payload every check after the decrypt passes. */
  lemma UnalteredCommitsIffOpens(c: World, who: nat, w: Wire, now: int)
    requires Inv(c) && who in c.parties && Unaltered(c, who, w)
    requires PeerSent(c, who)[w.ct.id].e < |c.h|
    ensures var x := PeerSent(c, who)[w.ct.id];
            Commits(c, who, w, now) <==> Opens(c.h, c.parties[who].st, x.e, x.n, now, Mint(c.next))
  {
    hide HistoryOk, PartyOk, ConvOk, StepRecv, Inv;
    UnalteredPage(c, who, w);
    assert Vet(w, 1 - who) == None;
  }

  /**
   An exact account of acceptance: a wire is accepted iff it is the peer's own payload under
   its own header and its key is stashed or within the skip budget.
   */
  lemma AcceptedExactly(c: World, who: nat, w: Wire, now: int)
    requires Inv(c) && who in c.parties && Deliverable(c, Deliver(who, w, now, false))
    ensures Commits(c, who, w, now) <==>
              && Unaltered(c, who, w)
              && var x := PeerSent(c, who)[w.ct.id];
                 1 <= x.e < |c.h| && 1 <= SendEpoch(c.h, who) <= |c.h|
                 && Openable(c.h, SendEpoch(c.h, who), c.parties[who].st, x.e, x.n)
  {
    hide Inv, HistoryOk, SideOk, SentOk, ConvOk, StepRecv, Openable, Opens;
    SendEpochIsReal(c, who);
    var p, s := c.parties[who], SendEpoch(c.h, who);
    if Commits(c, who, w, now) {
      CommitIsGenuine(c, who, w, now, false);
    }
    if Unaltered(c, who, w) {
      hide Commits, Unaltered;
      UnalteredPage(c, who, w);
      UnalteredCommitsIffOpens(c, who, w, now);
      var x := PeerSent(c, who)[w.ct.id];
      GenuineDelivery(c.h, c.next, s, p.st, p.consumed + p.evicted, x.e, x.n, now);
    }
  }

  /** In terms of what happened to the key: unspent and within budget means it opens, and only then. */
  lemma UnspentMessageOpens(c: World, who: nat, w: Wire, now: int)
    requires Inv(c) && who in c.parties && Unaltered(c, who, w)
    requires TotalSkip(c.parties[who].st, w.hdr) <= MAX_SKIP
    ensures Commits(c, who, w, now) <==>
              (w.hdr.dh, w.hdr.n) !in c.parties[who].consumed && (w.hdr.dh, w.hdr.n) !in c.parties[who].evicted
  {
    hide Inv, HistoryOk, SideOk, SentOk, ConvOk, StepRecv, Openable, TotalSkip, Commits, Unaltered, Opens;
    SendEpochIsReal(c, who);
    var p, s := c.parties[who], SendEpoch(c.h, who);
    UnalteredPage(c, who, w);
    var x := PeerSent(c, who)[w.ct.id];
    UnalteredCommitsIffOpens(c, who, w, now);
    UnspentKeyOpens(c.h, c.next, s, p.st, p.consumed + p.evicted, x.e, x.n, now);
  }

  ghost predicate CanSend(c: World, who: nat, text: string) {
    && |c.h| >= 2 && who < 2 && who in c.parties && 1 - who in c.parties && Body(text) != ""
    && BuildWire(c.parties[who].st, who, Body(text), c.next).Ok?
  }

  /** What side `who` would put on the wire for `text` now. */
  ghost function SealedWire(c: World, who: nat, text: string): Wire
    requires CanSend(c, who, text)
  {
    BuildWire(c.parties[who].st, who, Body(text), c.next).value.0
  }

  /** Once both sides exist, either can always send. */
  lemma SendingNeverFails(c: World, who: nat, text: string)
    requires Inv(c) && c.parties.Keys == {0, 1} && who < 2 && Body(text) != ""
    ensures CanSend(c, who, text)
  {
    hide Inv, HistoryOk, PartyOk, SendOk, BuildWire, Body, Numbered, HeaderAt, KeyAt;
    SendEpochIsReal(c, who);
    SendFacts(c.h, c.next, who, c.parties[who], Body(text));
  }

  lemma SentIsUnaltered(c: World, who: nat, text: string)
    requires Inv(c) && CanSend(c, who, text)
    ensures var c', w := Step(c, Send(who, text, false)), SealedWire(c, who, text);
            && c'.parties.Keys == c.parties.Keys && c'.parties[1 - who] == c.parties[1 - who]
            && Unaltered(c', 1 - who, w) && w.ct.id == c.next && w.ct.inner.text == Body(text)
            && (w.hdr.dh, w.hdr.n) !in c.parties[1 - who].consumed
            && (w.hdr.dh, w.hdr.n) !in c.parties[1 - who].evicted
  {
    hide Inv, HistoryOk, PartyOk, SentEntryOk, Grows, Numbered;
    SendEpochIsReal(c, who);
    SendStepFacts(c, who, text, false);
    SendFacts(c.h, c.next, who, c.parties[who], Body(text));
    NewPageUnread(c.h, c.next, who, c.parties[1 - who]);
    hide BuildWire;
  }

  lemma NewIdIsUnknown(c: World, who: nat)
    requires Inv(c) && who in c.parties
    ensures !HasId(c.parties[who].conv, c.next)
  {
    var p := c.parties[who];
    assert ConvOk(c.h, p, PeerSent(c, who));
    assert c.next !in PeerSent(c, who) by {
      hide HistoryOk, SideOk, SentEntryOk, ConvOk;
      SendEpochIsReal(c, who);
    }
    hide HistoryOk, SideOk, SentOk;
  }

  lemma CommittedText(c: World, who: nat, w: Wire, now: int)
    requires |c.h| >= 2 && Commits(c, who, w, now)
    ensures var after := Step(c, Deliver(who, w, now, false));
            who in after.parties
            && after.parties[who].conv == StoreIncoming(c.parties[who].conv, w.ct.id, w.ct.inner.text)
  {
    hide StepRecv, DroppedByRecv, Recorded, StoreIncoming;
  }

  /** Send, deliver: the message is accepted on the other side, and `stored` appended there. */
  ghost predicate Arrives(c: World, who: nat, text: string, now: int, stored: string)
    requires CanSend(c, who, text)
  {
    var c', w := Step(c, Send(who, text, false)), SealedWire(c, who, text);
    && Commits(c', 1 - who, w, now)
    && var after := Step(c', Deliver(1 - who, w, now, false));
       1 - who in after.parties
       && after.parties[1 - who].conv == c.parties[1 - who].conv + [Stored(c.next, stored)]
  }

  /** An unspent page within the budget is accepted, and an unknown id is appended. */
  lemma UnspentIsAppended(c: World, who: nat, w: Wire, now: int)
    requires Inv(c) && who in c.parties && Unaltered(c, who, w)
    requires TotalSkip(c.parties[who].st, w.hdr) <= MAX_SKIP
    requires (w.hdr.dh, w.hdr.n) !in c.parties[who].consumed && (w.hdr.dh, w.hdr.n) !in c.parties[who].evicted
    requires !HasId(c.parties[who].conv, w.ct.id)
    ensures |c.h| >= 2 && Commits(c, who, w, now)
    ensures var after := Step(c, Deliver(who, w, now, false));
            who in after.parties
            && after.parties[who].conv == c.parties[who].conv + [Stored(w.ct.id, Clipped(w.ct.inner.text))]
  {
    InvSize(c);
    hide Inv, Unaltered, TotalSkip, Commits, Step, HasId;
    UnspentMessageOpens(c, who, w, now);
    CommittedText(c, who, w, now);
  }

  /**
   Liveness: from any reachable world, whatever was lost or is still under way, a message sent now is
   accepted when it arrives first, if the gap before it is within the skip budget; and its text is stored.
   */
  lemma FreshMessageArrives(c: World, who: nat, text: string, now: int)
    requires Inv(c) && CanSend(c, who, text)
    requires TotalSkip(c.parties[1 - who].st, SealedWire(c, who, text).hdr) <= MAX_SKIP
    ensures Arrives(c, who, text, now, Body(text))
  {
    hide Inv, Unaltered, TotalSkip, Commits, HasId, SealedWire, BuildWire, SendStep, DeliverStep, Body, Clipped;
    SentIsUnaltered(c, who, text);
    NewIdIsUnknown(c, 1 - who);
    StepKeepsInv(c, Send(who, text, false));
    ClippedOnce(text);
    hide Step;
    var c', w := Step(c, Send(who, text, false)), SealedWire(c, who, text);
    UnspentIsAppended(c', 1 - who, w, now);
  }

  lemma ClippedOnce(text: string)
    ensures Clipped(Body(text)) == Body(text)
  {
  }

  lemma StartHistory(legacy: bool)
    ensures var c := Start(legacy);
            && |c.h| == 2 && c.h[0].d == PREKEY && c.h[0].root == InitiatorSk() && c.h[0].len == 0
            && c.h[1].len == 0 && c.h[1].kemCt.None? && c.parties.Keys == {1}
  {
  }

  lemma HandshakeFrom(c: World, advertised: bool, legacy: bool)
    requires HistoryOk(c.h, c.next) && |c.h| == 2 && c.h[0].d == PREKEY && c.h[0].root == InitiatorSk()
    requires c.h[1].len == 0 && c.h[1].kemCt.None? && c.parties.Keys == {1}
    ensures var c' := Step(c, Bootstrap(advertised, legacy));
            c'.parties.Keys == {0, 1} && |c'.h| == 3 && c'.h[1].len == 0 && c'.h[2].len == 0
  {
    ResponderTurned(c.h, c.next, advertised, legacy);
    hide HistoryOk, Responder, SendOk, InitiatorSk;
  }

  lemma HandshakeDone(legacy: bool, advertised: bool)
    ensures var c := Step(Start(legacy), Bootstrap(advertised, legacy));
            && Inv(c) && c.parties.Keys == {0, 1} && |c.h| == 3 && c.h[1].len == 0 && c.h[2].len == 0
  {
    StartHistory(legacy);
    StartInv(legacy);
    hide HistoryOk, PartyOk, ConvOk, Start, BootstrapStep, SendOk, InitiatorSk;
    var c := Start(legacy);
    HandshakeFrom(c, advertised, legacy);
    hide Inv;
    BootstrapKeeps(c, advertised, legacy);
  }

  lemma FirstPage(h: History, next: nat, who: nat, q: Party)
    requires HistoryOk(h, next) && |h| == 3 && who < 2 && PartyOk(h, next, 1 - who, q)
    ensures TotalSkip(q.st, HeaderAt(h, SendEpoch(h, who), 0)) == 0
  {
    hide SentOk, SeenOk, StashOk, KemAligned;
  }

  lemma FirstPageSkipsNothing(c: World, who: nat, text: string)
    requires Inv(c) && CanSend(c, who, text) && |c.h| == 3 && c.h[1].len == 0 && c.h[2].len == 0
    ensures TotalSkip(c.parties[1 - who].st, SealedWire(c, who, text).hdr) == 0
  {
    hide Inv, HistoryOk, PartyOk, TotalSkip, BuildWire;
    SendEpochIsReal(c, who);
    SendFacts(c.h, c.next, who, c.parties[who], Body(text));
    FirstPage(c.h, c.next, who, c.parties[1 - who]);
  }

  /**
   In particular either side's first message after the handshake, hybrid or not: what is stored is the
   text as typed, without the white space around it and cut at 4096 characters.
   */
  lemma FirstMessageArrives(legacy: bool, advertised: bool, who: nat, text: string, now: int)
    returns (i: nat, j: nat)
    requires who < 2 && exists k :: 0 <= k < |text| && !IsSpace(text[k])
    ensures IsCore(text, i, j)
    ensures var c := Step(Start(legacy), Bootstrap(advertised, legacy));
            Inv(c) && CanSend(c, who, text) && Arrives(c, who, text, now, Cut(text, i, j))
  {
    BlankIsEmpty(text);
    i, j := BodyIs(text);
    hide Inv, CanSend, Arrives, Step, SealedWire, TotalSkip, Body, Cut, IsCore;
    HandshakeDone(legacy, advertised);
    var c := Step(Start(legacy), Bootstrap(advertised, legacy));
    SendingNeverFails(c, who, text);
    FirstPageSkipsNothing(c, who, text);
    FreshMessageArrives(c, who, text, now);
  }

  ghost predicate Forged(c: World, ev: Event) {
    ev.Deliver? && !Unaltered(c, ev.who, ev.w)
  }

  /** The same run without its forged deliveries. */
  ghost function WithoutForgeries(c: World, evs: seq<Event>): seq<Event>
    requires |c.h| >= 2
    decreases |evs|
  {
    if evs == [] then []
    else
      var rest := WithoutForgeries(Step(c, evs[0]), evs[1..]);
      if Forged(c, evs[0]) then rest else [evs[0]] + rest
  }

  lemma ForgeryIsIdle(c: World, ev: Event)
    requires Inv(c) && Deliverable(c, ev) && Forged(c, ev)
    ensures Step(c, ev) == c
  {
    hide Inv, Receive, Unaltered, Deliverable;
    if ev.who in c.parties {
      DeliverableEitherWay(c, ev.who, ev.w, ev.now, ev.crash, false);
      AcceptedExactly(c, ev.who, ev.w, ev.now);
    }
  }

  lemma DeliverableEitherWay(c: World, who: nat, w: Wire, now: int, crash: bool, crash': bool)
    requires Deliverable(c, Deliver(who, w, now, crash))
    ensures Deliverable(c, Deliver(who, w, now, crash'))
  {
  }

  /**
   Forged traffic changes nothing: taking every forged delivery out of a run, wherever it stood,
   leads to the same ratchets, the same conversations and the same history.
   */
  lemma {:induction false} ForgeriesChangeNothing(c: World, evs: seq<Event>)
    requires Inv(c) && PossibleRun(c, evs)
    ensures PossibleRun(c, WithoutForgeries(c, evs))
    ensures Run(c, WithoutForgeries(c, evs)) == Run(c, evs)
    decreases |evs|
  {
    InvSize(c);
    hide Inv, Step, Deliverable, Forged;
    if evs != [] {
      StepKeepsInv(c, evs[0]);
      ForgeriesChangeNothing(Step(c, evs[0]), evs[1..]);
      if Forged(c, evs[0]) {
        ForgeryIsIdle(c, evs[0]);
      } else {
        var rest := WithoutForgeries(Step(c, evs[0]), evs[1..]);
        assert ([evs[0]] + rest)[1..] == rest;
      }
    }
  }

  // ── Nothing opens twice ───────────────────────────────────────────────────

  lemma StepKeepsConsumed(c: World, ev: Event, who: nat)
    requires |c.h| >= 2 && who in c.parties
    ensures who in Step(c, ev).parties && c.parties[who].consumed <= Step(c, ev).parties[who].consumed
  {
    hide Receive, BuildWire, DroppedByRecv;
  }

  lemma {:induction false} RunKeepsConsumed(c: World, evs: seq<Event>, who: nat)
    requires |c.h| >= 2 && who in c.parties
    ensures who in Run(c, evs).parties && c.parties[who].consumed <= Run(c, evs).parties[who].consumed
    decreases |evs|
  {
    hide Step;
    if evs != [] {
      StepKeepsConsumed(c, evs[0], who);
      RunKeepsConsumed(Step(c, evs[0]), evs[1..], who);
    }
  }

  lemma ConsumedStaysClosed(c: World, who: nat, w: Wire, now: int)
    requires Inv(c) && who in c.parties && Deliverable(c, Deliver(who, w, now, false))
    requires (w.hdr.dh, w.hdr.n) in c.parties[who].consumed
    ensures !Commits(c, who, w, now)
  {
    hide HistoryOk, SideOk, ConvOk, StepRecv, Openable, TotalSkip;
    AcceptedExactly(c, who, w, now);
    if Unaltered(c, who, w) {
      SendEpochIsReal(c, who);
      var p, s := c.parties[who], SendEpoch(c.h, who);
      var x := PeerSent(c, who)[w.ct.id];
      assert SentEntryOk(c.h, 1 - who, w.ct.id, x);
      GoneMeansNotOpenable(c.h, c.next, s, p.st, p.consumed + p.evicted, x.e, x.n);
    }
  }

  lemma GoneMeansNotOpenable(h: History, next: nat, s: nat, st: RatchetState, gone: set<Place>, e: nat, n: nat)
    requires SideOk(h, next, s, st, gone) && 1 <= e < |h| && (h[e].d, n) in gone
    ensures !Openable(h, s, st, e, n)
  {
    assert IsSeen(st.skipped, gone, h[e].d, n) <==> Reached(e, s - 1) && n < Bound(h, st.nr, s - 1, e);
  }

  /** Once (dh, n) has been committed, no wire for it is ever accepted again, whatever happens between. */
  lemma OpensOnce(c: World, who: nat, w: Wire, now: int, evs: seq<Event>, again: Wire, later: int)
    requires Inv(c) && Deliverable(c, Deliver(who, w, now, false)) && Commits(c, who, w, now)
    requires PossibleRun(Step(c, Deliver(who, w, now, false)), evs)
    requires (again.hdr.dh, again.hdr.n) == (w.hdr.dh, w.hdr.n)
    requires Deliverable(Run(Step(c, Deliver(who, w, now, false)), evs), Deliver(who, again, later, false))
    ensures !Commits(Run(Step(c, Deliver(who, w, now, false)), evs), who, again, later)
  {
    hide Inv, Commits, Deliverable, Step, Run;
    InvSize(c);
    CommitConsumes(c, who, w, now);
    StepKeepsInv(c, Deliver(who, w, now, false));
    var c1 := Step(c, Deliver(who, w, now, false));
    RunKeepsInv(c1, evs);
    RunKeepsConsumed(c1, evs, who);
    ConsumedStaysClosed(Run(c1, evs), who, again, later);
  }

  /**
   The ratchet step alone is no protection against a replay: asked for a position it has passed,
   it does not fail but hands out the key at the reading head. Only the seal tells the difference.
   */
  lemma ReplayGetsTheKeyAtTheHead(h: History, next: nat, s: nat, st: RatchetState, gone: set<Place>, n: nat, now: int)
    requires HistoryOk(h, next) && SideOk(h, next, s, st, gone) && s >= 2
    requires n < st.nr && (h[s - 1].d, n) !in Places(st.skipped)
    ensures var r := StepRecv(st, HeaderAt(h, s - 1, n), now, Mint(next));
            r.Ok? && r.value.0 == KeyAt(h, s - 1, st.nr) && r.value.0 != KeyAt(h, s - 1, n)
  {
    hide HistoryOk;
    FindSkippedMeansPresent(st.skipped, h[s - 1].d, n);
    KeysDiffer(h, s - 1, n, s - 1, st.nr) by { assert TurnsLink(h) by { HistoryLinks(h, next); } }
  }

  lemma HistoryLinks(h: History, next: nat)
    requires HistoryOk(h, next)
    ensures TurnsLink(h)
  {
  }

  // ── Crashes ───────────────────────────────────────────────────────────────

  ghost predicate SealedBy(c: World, who: nat, id: nat) {
    who in c.parties && id in c.parties[who].sent
  }

  /**
   No page and no key is ever used for two payloads, by one side or across both, even when
   sends crash between persisting the advance and sealing.
   */
  lemma NoKeySealsTwice(c: World, i: nat, a: nat, j: nat, b: nat)
    requires Inv(c) && SealedBy(c, i, a) && SealedBy(c, j, b) && (i, a) != (j, b)
    ensures var x, y := c.parties[i].sent[a].ct, c.parties[j].sent[b].ct;
            && x.key != y.key
            && x.inner.rh.Some? && y.inner.rh.Some?
            && (x.inner.rh.value.dh, x.inner.rh.value.n) != (y.inner.rh.value.dh, y.inner.rh.value.n)
  {
    hide Inv, HistoryOk, SentEntryOk;
    SealedPage(c, i, a);
    SealedPage(c, j, b);
    var x, y := c.parties[i].sent[a], c.parties[j].sent[b];
    if i == j {
      SealedApart(c, i, a, b);
    }
    PagesDiffer(c.h, c.next, i, a, x, j, b, y);
  }

  lemma PagesDiffer(h: History, next: nat, i: nat, a: nat, x: Sent, j: nat, b: nat, y: Sent)
    requires HistoryOk(h, next) && SentEntryOk(h, i, a, x) && SentEntryOk(h, j, b, y) && i < 2 && j < 2
    requires i == j ==> (x.e, x.n) != (y.e, y.n)
    ensures x.ct.key != y.ct.key
    ensures x.ct.inner.rh.Some? && y.ct.inner.rh.Some?
    ensures (x.ct.inner.rh.value.dh, x.ct.inner.rh.value.n) != (y.ct.inner.rh.value.dh, y.ct.inner.rh.value.n)
  {
    HistoryLinks(h, next);
    HistoryHasFreshKeys(h, next);
    hide HistoryOk, TurnsLink;
    KeysDiffer(h, x.e, x.n, y.e, y.n);
  }

  lemma SealedPage(c: World, who: nat, id: nat)
    requires Inv(c) && SealedBy(c, who, id)
    ensures who < 2 && HistoryOk(c.h, c.next) && SentEntryOk(c.h, who, id, c.parties[who].sent[id])
  {
    hide HistoryOk, SideOk, ConvOk, SentEntryOk;
    assert PartyOk(c.h, c.next, who, c.parties[who]);
  }

  lemma SealedApart(c: World, who: nat, a: nat, b: nat)
    requires Inv(c) && SealedBy(c, who, a) && SealedBy(c, who, b) && a != b
    ensures (c.parties[who].sent[a].e, c.parties[who].sent[a].n) != (c.parties[who].sent[b].e, c.parties[who].sent[b].n)
  {
    hide HistoryOk, SideOk, ConvOk, SentEntryOk;
    assert PartyOk(c.h, c.next, who, c.parties[who]);
  }

  /**
   What is on disk at any moment, crashes included: the conversation holds exactly texts the
   peer sealed, none twice, and the ratchet has spent no sealed message's key without its
   text being stored.
   */
  lemma DiskIsFaithful(c: World, who: nat)
    requires Inv(c) && who in c.parties
    ensures var p := c.parties[who];
            && (forall i, j :: 0 <= i < j < |p.conv| ==> p.conv[i].id != p.conv[j].id)
            && (forall k :: 0 <= k < |p.conv| ==>
                  p.conv[k].id in PeerSent(c, who) && p.conv[k].text == PeerSent(c, who)[p.conv[k].id].ct.inner.text)
            && (forall w: Wire :: Unaltered(c, who, w) && (w.hdr.dh, w.hdr.n) in p.consumed ==> HasId(p.conv, w.ct.id))
  {
    var p := c.parties[who];
    assert ConvOk(c.h, p, PeerSent(c, who));
    forall w: Wire | Unaltered(c, who, w) && (w.hdr.dh, w.hdr.n) in p.consumed ensures HasId(p.conv, w.ct.id) {
      UnalteredPage(c, who, w);
    }
  }

  lemma StoringIsIdempotent(conv: seq<Stored>, id: nat, text: string)
    ensures HasId(StoreIncoming(conv, id, text), id)
    ensures StoreIncoming(StoreIncoming(conv, id, text), id, text) == StoreIncoming(conv, id, text)
  {
    if !HasId(conv, id) {
      assert StoreIncoming(conv, id, text)[|conv|].id == id;
    }
  }

  /** Receiving after the text is already stored changes the ratchet just as it would have. */
  lemma ReceiveAfterStoring(st: RatchetState, conv: seq<Stored>, peer: nat, w: Wire, now: int, later: int,
                            rnd: Randomness)
    requires Receive(st, conv, peer, w, now, rnd).verdict.Committed?
    ensures var stored := Receive(st, conv, peer, w, now, rnd).conv;
            var first, again := Receive(st, conv, peer, w, later, rnd), Receive(st, stored, peer, w, later, rnd);
            && first.verdict.Committed? && again.verdict.Committed?
            && first.st == again.st && first.conv == again.conv == stored
  {
    StepIsTimeless(st, w.hdr, now, later, rnd);
    StoringIsIdempotent(conv, w.ct.id, w.ct.inner.text);
    hide StepRecv, HasId, StoreIncoming;
  }

  /** A crash after storing and before committing is healed by redelivery, as if it had not happened. */
  lemma CrashHealsOnRedelivery(c: World, who: nat, w: Wire, now: int, later: int)
    requires |c.h| >= 2 && Commits(c, who, w, now)
    ensures Step(Step(c, Deliver(who, w, now, true)), Deliver(who, w, later, false))
         == Step(c, Deliver(who, w, later, false))
  {
    var p := c.parties[who];
    ReceiveAfterStoring(p.st, p.conv, 1 - who % 2, w, now, later, Mint(c.next));
    hide Receive, DroppedByRecv, Recorded;
    var c1 := Step(c, Deliver(who, w, now, true));
    assert c1.parties[who].st == p.st;
  }

  /** Whether a wire is accepted does not depend on the clock: time only evicts afterwards. */
  lemma CommitIsTimeless(c: World, who: nat, w: Wire, now: int, later: int)
    requires Inv(c) && Commits(c, who, w, now)
    ensures Commits(c, who, w, later)
  {
    hide Inv, StepRecv;
    StepIsTimeless(c.parties[who].st, w.hdr, now, later, Mint(c.next));
  }

  lemma StepIsTimeless(st: RatchetState, hdr: Header, now: int, later: int, rnd: Randomness)
    requires StepRecv(st, hdr, now, rnd).Ok?
    ensures StepRecv(st, hdr, later, rnd).Ok?
    ensures StepRecv(st, hdr, later, rnd).value.0 == StepRecv(st, hdr, now, rnd).value.0
  {
    hide Evict;
  }

  lemma CommitConsumes(c: World, who: nat, w: Wire, now: int)
    requires |c.h| >= 2 && Commits(c, who, w, now)
    ensures who in c.parties
    ensures var c1 := Step(c, Deliver(who, w, now, false));
            who in c1.parties && (w.hdr.dh, w.hdr.n) in c1.parties[who].consumed
  {
    hide Receive, DroppedByRecv, Recorded;
  }

  lemma RefusedIsIdle(c: World, who: nat, w: Wire, now: int, crash: bool)
    requires |c.h| >= 2 && !Commits(c, who, w, now)
    ensures Step(c, Deliver(who, w, now, crash)) == c
  {
    hide Receive, DroppedByRecv, Recorded;
  }

  /** Delivering an accepted wire again leaves everything as it is. */
  lemma RedeliveryIsIdle(c: World, who: nat, w: Wire, now: int, later: int)
    requires Inv(c) && Deliverable(c, Deliver(who, w, now, false)) && Commits(c, who, w, now)
    ensures var c1 := Step(c, Deliver(who, w, now, false));
            Step(c1, Deliver(who, w, later, false)) == c1
  {
    InvSize(c);
    hide Inv, Commits, Deliverable, Step;
    CommitConsumes(c, who, w, now);
    StepKeepsInv(c, Deliver(who, w, now, false));
    StaysDeliverable(c, who, w, now, later);
    var c1 := Step(c, Deliver(who, w, now, false));
    ConsumedStaysClosed(c1, who, w, later);
    RefusedIsIdle(c1, who, w, later, false);
  }

  lemma DeliveryLeavesPeer(c: World, who: nat, w: Wire, now: int, crash: bool)
    requires |c.h| >= 2 && who < 2
    ensures var c1 := Step(c, Deliver(who, w, now, crash));
            && (1 - who in c1.parties <==> 1 - who in c.parties)
            && (1 - who in c.parties ==> c1.parties[1 - who] == c.parties[1 - who])
  {
    hide Receive, DroppedByRecv, Recorded;
  }

  lemma GenuineStays(c: World, who: nat, w: Wire, now: int)
    requires |c.h| >= 2 && who < 2 && Genuine(c, who, w.ct)
    ensures Genuine(Step(c, Deliver(who, w, now, false)), who, w.ct)
  {
    hide Step;
    DeliveryLeavesPeer(c, who, w, now, false);
  }

  lemma CommitsOnlyGenuine(c: World, who: nat, w: Wire, now: int)
    requires Inv(c) && Deliverable(c, Deliver(who, w, now, false)) && Commits(c, who, w, now)
    ensures who < 2 && Genuine(c, who, w.ct)
  {
    hide Inv, Receive, Deliverable, Opens, SentEntryOk;
    CommitIsGenuine(c, who, w, now, false);
  }

  lemma StaysDeliverable(c: World, who: nat, w: Wire, now: int, later: int)
    requires |c.h| >= 2 && Inv(c) && Deliverable(c, Deliver(who, w, now, false)) && Commits(c, who, w, now)
    ensures Deliverable(Step(c, Deliver(who, w, now, false)), Deliver(who, w, later, false))
  {
    hide Inv, Step, Unseals, Commits, Genuine, Deliverable;
    CommitsOnlyGenuine(c, who, w, now);
    GenuineStays(c, who, w, now);
    GenuineIsDeliverable(Step(c, Deliver(who, w, now, false)), who, w, later);
  }

  lemma GenuineIsDeliverable(c: World, who: nat, w: Wire, now: int)
    requires Genuine(c, who, w.ct)
    ensures Deliverable(c, Deliver(who, w, now, false))
  {
    hide Genuine, Unseals;
  }

  // ── Rolling KEM: aligned, and never downgraded ────────────────────────────

  /**
   For any state and any header, honest or not: once the peer's rolling key is known it stays
   known, a turn without a ciphertext is refused, and the chain minted by a turn carries one.
   */
  lemma NoDowngrade(st: RatchetState, hdr: Header, now: int, rnd: Randomness)
    requires st.peerKemPub.Some? && StepRecv(st, hdr, now, rnd).Ok?
    ensures var after := StepRecv(st, hdr, now, rnd).value.1;
            && after.peerKemPub.Some?
            && (after.dhrPub != st.dhrPub ==>
                  hdr.kemCt.Some? && after.sendKemCt.Some? && after.kemPriv == Some(rnd.kem))
  {
    hide Evict;
  }

  lemma ReceiveKeepsPeerKem(st: RatchetState, conv: seq<Stored>, peer: nat, w: Wire, now: int, rnd: Randomness)
    requires st.peerKemPub.Some?
    ensures Receive(st, conv, peer, w, now, rnd).st.peerKemPub.Some?
  {
    hide StepRecv;
    if StepRecv(st, w.hdr, now, rnd).Ok? {
      NoDowngrade(st, w.hdr, now, rnd);
    }
  }

  lemma StepKeepsPeerKem(c: World, ev: Event, who: nat)
    requires |c.h| >= 2 && who in c.parties && c.parties[who].st.peerKemPub.Some?
    ensures who in Step(c, ev).parties && Step(c, ev).parties[who].st.peerKemPub.Some?
  {
    hide Receive, DroppedByRecv, Recorded, Responder;
    if ev.Deliver? {
      ReceiveKeepsPeerKem(c.parties[who].st, c.parties[who].conv, 1 - who % 2, ev.w, ev.now, Mint(c.next));
    }
  }

  /** Over a whole run: a side that has learned a rolling key never forgets it. */
  lemma {:induction false} RunKeepsPeerKem(c: World, evs: seq<Event>, who: nat)
    requires Inv(c) && PossibleRun(c, evs) && who in c.parties && c.parties[who].st.peerKemPub.Some?
    ensures who in Run(c, evs).parties && Run(c, evs).parties[who].st.peerKemPub.Some?
    decreases |evs|
  {
    InvSize(c);
    hide Inv, Step, Deliverable;
    if evs != [] {
      StepKeepsInv(c, evs[0]);
      StepKeepsPeerKem(c, evs[0], who);
      RunKeepsPeerKem(Step(c, evs[0]), evs[1..], who);
    }
  }

  /** A side's current chain is hybrid iff it knows a rolling key of the peer, and then for that very key. */
  lemma HybridChains(c: World, who: nat)
    requires Inv(c) && who in c.parties
    ensures var st := c.parties[who].st;
            && (st.sendKemCt.Some? <==> st.peerKemPub.Some?)
            && (st.sendKemCt.Some? ==> st.peerKemPub == Some(st.sendKemCt.value.pk))
  {
    assert PartyOk(c.h, c.next, who, c.parties[who]);
  }

  /** The inviter's first chain is hybrid exactly if the handshake advertised a rolling key, and then for that key. */
  lemma FirstChainIsHybrid(legacy: bool, advertised: bool)
    ensures var c := Step(Start(legacy), Bootstrap(advertised, legacy));
            && 0 in c.parties && |c.h| == 3
            && c.parties[0].st.sendKemCt == c.h[2].kemCt
            && (c.h[2].kemCt.Some? <==> advertised && !legacy)
            && (c.h[2].kemCt.Some? ==> c.h[1].kemPub == Some(c.h[2].kemCt.value.pk))
  {
  }

  /**
   Between honest sides the refusal never fires: whatever the peer's next turn carries, the
   receiver can use it, and a ciphertext decapsulates to the secret the peer folded in.
   */
  lemma HonestTurnIsUsable(c: World, who: nat, w: Wire)
    requires Inv(c) && who in c.parties && Unaltered(c, who, w)
    requires var x := PeerSent(c, who)[w.ct.id]; x.e == SendEpoch(c.h, who) + 1
    ensures TurnSecret(c.parties[who].st, w.hdr.kemCt) == Ok(TurnSs(w.hdr.kemCt))
  {
    hide Inv, PartyOk, ConvOk, SentOk, RecvOk, HistoryOk, SendOk, Unaltered, TurnSecret, KeyAt;
    UnalteredPage(c, who, w);
    SendEpochIsReal(c, who);
    SenderInOrder(c.h, c.next, who, c.parties[who]);
    TurnSecretAligned(c.h, c.next, SendEpoch(c.h, who), c.parties[who].st);
  }

  lemma SenderInOrder(h: History, next: nat, who: nat, p: Party)
    requires |h| >= 2 && PartyOk(h, next, who, p)
    ensures SendOk(h, SendEpoch(h, who), p.st)
  {
    hide SendOk, RecvOk, SentOk;
  }

  // ── Rolling KEM: every hybrid turn draws anew ─────────────────────────────

  /** What a turn of `h'` beyond `h` carries was drawn between `next` and `next'`. */
  ghost predicate TurnsDraw(h: History, next: nat, h': History, next': nat) {
    && |h| <= |h'|
    && (forall e :: 0 <= e < |h| ==> h'[e].kemPub == h[e].kemPub && h'[e].kemCt == h[e].kemCt)
    && (forall e :: |h| <= e < |h'| && h'[e].kemCt.Some? ==>
          h'[e].kemPub.Some? && next <= h'[e].kemPub.value && next <= h'[e].kemCt.value.enc < next')
  }

  /** A hybrid turn's rolling key and ciphertext appear in no earlier epoch. */
  ghost predicate KemDrawn(h: History, next: nat) {
    && (forall e :: 0 <= e < |h| && h[e].kemCt.Some? ==> h[e].kemCt.value.enc < next)
    && (forall e, f :: 0 <= e < f < |h| && h[f].kemCt.Some? ==>
          && h[f].kemPub != h[e].kemPub
          && (h[e].kemCt.Some? ==> h[f].kemCt.value.enc != h[e].kemCt.value.enc))
  }

  lemma RecvDraws(st: RatchetState, hdr: Header, now: int, rnd: Randomness)
    requires StepRecv(st, hdr, now, rnd).Ok?
    ensures var after := StepRecv(st, hdr, now, rnd).value.1;
            after.dhsPub != st.dhsPub && after.sendKemCt.Some? ==>
              after.kemPub == Some(rnd.kem) && after.sendKemCt.value.enc == rnd.enc
  {
    hide Evict, Stash;
  }

  lemma ResponderDraws(h: History, next: nat, advertised: bool, legacy: bool)
    requires |h| >= 2
    ensures var st := Responder(h, next, advertised, legacy);
            st.sendKemCt.Some? ==> st.kemPub == Some(next + 3) && st.sendKemCt.value.enc == next + 2
  {
  }

  lemma RecordingDraws(h: History, next: nat, st: RatchetState, hdr: Header, now: int)
    requires StepRecv(st, hdr, now, Mint(next)).Ok?
    ensures TurnsDraw(h, next, Recorded(h, st, StepRecv(st, hdr, now, Mint(next)).value.1), next + 3)
  {
    RecvDraws(st, hdr, now, Mint(next));
    hide StepRecv;
  }

  lemma StepDraws(c: World, ev: Event)
    requires |c.h| >= 2
    ensures TurnsDraw(c.h, c.next, Step(c, ev).h, Step(c, ev).next) && c.next <= Step(c, ev).next
  {
    hide TurnsDraw, DeliverStep, SendStep, BootstrapStep;
    match ev
    case Bootstrap(advertised, legacy) => BootstrapDraws(c, advertised, legacy);
    case Send(who, text, crash) => SendingDrawsNothing(c, who, text, crash);
    case Deliver(who, w, now, crash) => DeliveryDraws(c, who, w, now, crash);
  }

  lemma BootstrapDraws(c: World, advertised: bool, legacy: bool)
    requires |c.h| >= 2
    ensures var c' := BootstrapStep(c, advertised, legacy); TurnsDraw(c.h, c.next, c'.h, c'.next) && c.next <= c'.next
  {
    hide Responder;
    ResponderDraws(c.h, c.next, advertised, legacy);
  }

  lemma DeliveryDraws(c: World, who: nat, w: Wire, now: int, crash: bool)
    requires |c.h| >= 2
    ensures var c' := DeliverStep(c, who, w, now, crash); TurnsDraw(c.h, c.next, c'.h, c'.next) && c.next <= c'.next
  {
    NothingDrawn(c.h, c.next);
    hide TurnsDraw, StepRecv, DroppedByRecv, Recorded;
    if Commits(c, who, w, now) {
      RecordingDraws(c.h, c.next, c.parties[who].st, w.hdr, now);
    }
  }

  lemma NothingDrawn(h: History, next: nat)
    ensures TurnsDraw(h, next, h, next)
  {
  }

  lemma SendingDrawsNothing(c: World, who: nat, text: string, crash: bool)
    requires |c.h| >= 2
    ensures TurnsDraw(c.h, c.next, SendStep(c, who, text, crash).h, SendStep(c, who, text, crash).next)
    ensures c.next <= SendStep(c, who, text, crash).next
  {
    hide BuildWire;
  }

  lemma DrawnStays(h: History, next: nat, h': History, next': nat)
    requires KemAligned(h, next) && KemDrawn(h, next) && TurnsDraw(h, next, h', next') && next <= next'
    requires |h'| <= |h| + 1
    ensures KemDrawn(h', next')
  {
  }

  lemma OneEpochAtMost(c: World, ev: Event)
    requires |c.h| >= 2
    ensures |Step(c, ev).h| <= |c.h| + 1
  {
    hide StepRecv, DroppedByRecv, BuildWire, Responder;
  }

  lemma InvKemAligned(c: World)
    requires Inv(c)
    ensures |c.h| >= 2 && KemAligned(c.h, c.next)
  {
    hide TurnsLink, KemAligned, PartyOk, ConvOk, Rooted;
  }

  lemma {:induction false} RunDraws(c: World, evs: seq<Event>)
    requires Inv(c) && PossibleRun(c, evs) && KemDrawn(c.h, c.next)
    ensures var c' := Run(c, evs); KemDrawn(c'.h, c'.next)
    decreases |evs|
  {
    hide Inv, Step, KemDrawn, TurnsDraw, KemAligned, Deliverable;
    if evs != [] {
      InvKemAligned(c);
      StepDraws(c, evs[0]);
      OneEpochAtMost(c, evs[0]);
      StepKeepsInv(c, evs[0]);
      DrawnStays(c.h, c.next, Step(c, evs[0]).h, Step(c, evs[0]).next);
      RunDraws(Step(c, evs[0]), evs[1..]);
    }
  }

  lemma StartDrewNothing(legacy: bool)
    ensures KemDrawn(Start(legacy).h, Start(legacy).next)
  {
  }

  /** From an accepted invite on, no two hybrid turns share a rolling key or an encapsulation. */
  lemma HybridTurnsAreFresh(legacy: bool, evs: seq<Event>, e: nat, f: nat)
    requires PossibleRun(Start(legacy), evs) && e < f < |Run(Start(legacy), evs).h|
    requires Run(Start(legacy), evs).h[f].kemCt.Some?
    ensures var h := Run(Start(legacy), evs).h;
            h[f].kemPub != h[e].kemPub && h[f].kemCt != h[e].kemCt
  {
    StartInv(legacy);
    StartDrewNothing(legacy);
    hide Start, Inv, Run, PossibleRun;
    RunDraws(Start(legacy), evs);
  }

  // ── Bounded work and memory ───────────────────────────────────────────────

  /** After the combined check the per-chain check can never fire, whatever the header claims. */
  lemma InnerCapNeverFires(st: RatchetState, hdr: Header, now: int, rnd: Randomness)
    ensures StepRecv(st, hdr, now, rnd) != Err(SkipPastMax)
  {
    hide Evict;
  }

  /** At rest the stash holds at most MAX_SKIPPED_KEYS keys, no place twice. */
  lemma StashIsBounded(c: World, who: nat)
    requires Inv(c) && who in c.parties
    ensures |c.parties[who].st.skipped| <= MAX_SKIPPED_KEYS && Distinct(c.parties[who].st.skipped)
  {
    assert PartyOk(c.h, c.next, who, c.parties[who]);
  }
}
