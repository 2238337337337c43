/**
 From the sender's outbox to the receiver's conversation: one sealed wire, published any number of times,
 fragmented anew each time, mixed with other traffic, reassembled, and handed to the ratchet.
 */
module EndToEnd {
  import opened Wrappers
  import opened RatchetSpec
  import opened Epochs
  import opened KeyAgreement
  import opened Receiver
  import opened Conversation
  import opened Runs
  import opened Guarantees
  import opened Frag
  import opened FragNoise
  import Outbox

  /** How the receiver reads a ratchet wire from text, if it is one. */
  type Decoder = string -> Option<Wire>

  /** `id` names a copy of the text; the outbox makes a new one on each attempt. */
  ghost predicate IsCopy(wires: Wires, id: string, text: string) {
    id in wires && wires[id] == text
  }

  /** What an attempt of the outbox puts on the topic are genuine fragments of its own copy. */
  lemma AttemptsAreGenuine(wires: Wires, text: string, a: Outbox.Attempt, i: nat, now: int)
    requires Oversized(wires) && IsCopy(wires, a.fragmentId, text) && i < |Fragments(text, a.fragmentId)|
    ensures GenuineArrival(wires, Arrival(a.fragmentId, i, now))
    ensures Fragments(text, a.fragmentId)[i] == Parsed(FragmentOf(wires, Arrival(a.fragmentId, i, now)))
  {
  }

  /** Item `m` of the traffic is fragment `i` of what attempt `a` published. */
  ghost predicate Carries(wires: Wires, traffic: seq<Traffic>, m: nat, text: string, a: Outbox.Attempt, i: nat)
    requires Mixed(wires, traffic) && m < |traffic| && i < |Fragments(text, a.fragmentId)|
  {
    traffic[m].Ours? && ContentOf(wires, traffic[m]) == Fragments(text, a.fragmentId)[i]
  }

  ghost predicate CarriedWithin(wires: Wires, traffic: seq<Traffic>, first: nat, j: nat, text: string,
                                a: Outbox.Attempt, i: nat)
    requires Mixed(wires, traffic) && j < |traffic| && i < |Fragments(text, a.fragmentId)|
  {
    exists m :: first <= m <= j && Carries(wires, traffic, m, text, a, i)
  }

  /**
   One attempt gets through by item `j`: a short text as the one message it is; a long one when every
   fragment of it has come in, in any order and any number of times, within the TTL of the first, and
   none of it was buffered before.
   */
  ghost predicate GetsThrough(wires: Wires, traffic: seq<Traffic>, text: string, a: Outbox.Attempt, first: nat, j: nat)
  {
    && Mixed(wires, traffic) && first <= j < |traffic|
    && if |text| <= CHUNK_BYTES then traffic[j] == Foreign(Plain(text), Time(traffic[j]))
       else
         && IsCopy(wires, a.fragmentId, text)
         && OfSet(traffic[first], a.fragmentId) && OfSet(traffic[j], a.fragmentId)
         && LiveEntry(NoisyBuffer(wires, traffic, first), a.fragmentId, Time(traffic[first])).None?
         && Time(traffic[j]) - Time(traffic[first]) < REASSEMBLY_TTL_MS
         && (forall i: nat :: i < |Fragments(text, a.fragmentId)| ==>
               CarriedWithin(wires, traffic, first, j, text, a, i))
         && (forall m :: first <= m < j ==> ContentOf(wires, traffic[m]) != ContentOf(wires, traffic[j]))
  }

  lemma CarriedIsBrought(wires: Wires, traffic: seq<Traffic>, m: nat, text: string, a: Outbox.Attempt, i: nat)
    requires Mixed(wires, traffic) && m < |traffic| && IsCopy(wires, a.fragmentId, text)
    requires i < |Fragments(text, a.fragmentId)| && Carries(wires, traffic, m, text, a, i)
    ensures OfSet(traffic[m], a.fragmentId) && traffic[m].a.i == i
  {
    AttemptsAreGenuine(wires, text, a, i, 0);
  }

  /** Then the reassembler makes the text ready, whatever else the topic carries. */
  lemma ThroughIsReady(wires: Wires, traffic: seq<Traffic>, text: string, a: Outbox.Attempt, first: nat, j: nat)
    requires GetsThrough(wires, traffic, text, a, first, j)
    ensures NoisyReady(wires, traffic, j) == Some(Plain(text))
  {
    if |text| > CHUNK_BYTES {
      var id := a.fragmentId;
      forall i: nat | i < Count(|text|) ensures Brings(traffic, id, i, first, j) {
        assert CarriedWithin(wires, traffic, first, j, text, a, i);
        var m :| first <= m <= j && Carries(wires, traffic, m, text, a, i);
        CarriedIsBrought(wires, traffic, m, text, a, i);
      }
      forall m | first <= m < j && OfSet(traffic[m], id) ensures traffic[m].a.i != traffic[j].a.i {
        assert ContentOf(wires, traffic[m]) != ContentOf(wires, traffic[j]);
      }
      WholeSetIsReady(wires, traffic, id, first, j);
    }
  }

  /** The delivery that item `j` of the traffic leads to, if the reassembler makes a ratchet wire ready. */
  ghost function EventAt(wires: Wires, traffic: seq<Traffic>, j: nat, decode: Decoder, who: nat, crash: nat -> bool)
    : seq<Event>
    requires Mixed(wires, traffic) && j < |traffic|
  {
    match NoisyReady(wires, traffic, j)
    case Some(Plain(s)) =>
      if decode(s).Some? then [Deliver(who, decode(s).value, Time(traffic[j]), crash(j))] else []
    case _ => []
  }

  ghost function Events(wires: Wires, traffic: seq<Traffic>, k: nat, decode: Decoder, who: nat, crash: nat -> bool)
    : seq<Event>
    requires Mixed(wires, traffic) && k <= |traffic|
  {
    if k == 0 then []
    else Events(wires, traffic, k - 1, decode, who, crash) + EventAt(wires, traffic, k - 1, decode, who, crash)
  }

  /** A fragment of a copy makes ready the text itself or nothing. */
  lemma CopyIsTheWire(wires: Wires, traffic: seq<Traffic>, j: nat, text: string)
    requires Mixed(wires, traffic) && j < |traffic| && traffic[j].Ours? && IsCopy(wires, traffic[j].a.id, text)
    ensures NoisyReady(wires, traffic, j).Some? ==> NoisyReady(wires, traffic, j) == Some(Plain(text))
  {
    NoiseChangesNothing(wires, traffic, j);
    var run, i := OursOnly(traffic), Rank(traffic, j);
    RankAmongOurs(traffic, j);
    RunKeepsBuffer(wires, run, i);
    RunArrival(wires, run, i);
    ArrivalReady(wires, BufferAfter(wires, run, i), run[i]);
    hide AfterFragment, NoisyReady, BufferOk, BufferAfter;
  }

  // ── Runs in pieces ────────────────────────────────────────────────────────

  lemma StepKeepsStored(c: World, ev: Event, who: nat, id: nat)
    requires |c.h| >= 2 && who in c.parties && HasId(c.parties[who].conv, id)
    ensures who in Step(c, ev).parties && HasId(Step(c, ev).parties[who].conv, id)
  {
    hide StepRecv, BuildWire, Responder;
    var conv := c.parties[who].conv;
    var k :| 0 <= k < |conv| && conv[k].id == id;
    var next := Step(c, ev).parties[who].conv;
    assert conv <= next;
    assert next[k].id == id;
  }

  lemma {:induction false} RunKeepsStored(c: World, evs: seq<Event>, who: nat, id: nat)
    requires |c.h| >= 2 && who in c.parties && HasId(c.parties[who].conv, id)
    ensures who in Run(c, evs).parties && HasId(Run(c, evs).parties[who].conv, id)
    decreases |evs|
  {
    hide Step, HasId;
    if evs != [] {
      StepKeepsStored(c, evs[0], who, id);
      RunKeepsStored(Step(c, evs[0]), evs[1..], who, id);
    }
  }

  lemma {:induction false} EventsSplit(wires: Wires, traffic: seq<Traffic>, j: nat, k: nat, decode: Decoder, who: nat,
                                       crash: nat -> bool) returns (rest: seq<Event>)
    requires Mixed(wires, traffic) && j < k <= |traffic|
    ensures Events(wires, traffic, k, decode, who, crash)
         == Events(wires, traffic, j, decode, who, crash) + EventAt(wires, traffic, j, decode, who, crash) + rest
    decreases k
  {
    hide EventAt;
    if k == j + 1 {
      rest := [];
    } else {
      rest := EventsSplit(wires, traffic, j, k - 1, decode, who, crash);
      rest := rest + EventAt(wires, traffic, k - 1, decode, who, crash);
    }
  }

  // ── Stored at most once, and exactly once ─────────────────────────────────

  ghost predicate AtMostOnce(conv: seq<Stored>, id: nat) {
    forall i, j :: 0 <= i < |conv| && 0 <= j < |conv| && conv[i].id == conv[j].id == id ==> i == j
  }

  /**
   Whatever is re-sent, lost, duplicated, reordered or mixed in, and wherever the receiver crashes: the
   text of one wire is in the conversation at most once.
   */
  lemma ResendsStoreAtMostOnce(c: World, who: nat, wires: Wires, traffic: seq<Traffic>, decode: Decoder,
                               crash: nat -> bool, w: Wire)
    requires Inv(c) && who in c.parties && Mixed(wires, traffic)
    requires |c.h| >= 2 && PossibleRun(c, Events(wires, traffic, |traffic|, decode, who, crash))
    ensures var after := Run(c, Events(wires, traffic, |traffic|, decode, who, crash));
            who in after.parties && AtMostOnce(after.parties[who].conv, w.ct.id)
  {
    hide Inv, Events, Step;
    var evs := Events(wires, traffic, |traffic|, decode, who, crash);
    RunKeepsInv(c, evs);
    RunKeepsConsumed(c, evs, who);
    DiskIsFaithful(Run(c, evs), who);
  }

  lemma CommitStores(c: World, who: nat, w: Wire, now: int, crash: bool)
    requires |c.h| >= 2 && Commits(c, who, w, now)
    ensures var after := Step(c, Deliver(who, w, now, crash));
            who in after.parties && HasId(after.parties[who].conv, w.ct.id)
  {
    StoringIsIdempotent(c.parties[who].conv, w.ct.id, w.ct.inner.text);
    hide StepRecv, DroppedByRecv, Recorded, HasId, StoreIncoming;
  }

  lemma CommittedStaysStored(c: World, before: seq<Event>, ev: Event, rest: seq<Event>)
    requires |c.h| >= 2 && ev.Deliver? && Commits(Run(c, before), ev.who, ev.w, ev.now)
    ensures var after := Run(c, before + [ev] + rest);
            ev.who in after.parties && HasId(after.parties[ev.who].conv, ev.w.ct.id)
  {
    hide Commits, Step, HasId;
    var c1 := Run(c, before);
    RunConcat(c, before, [ev] + rest);
    assert before + [ev] + rest == before + ([ev] + rest);
    assert ([ev] + rest)[1..] == rest;
    CommitStores(c1, ev.who, ev.w, ev.now, ev.crash);
    RunKeepsStored(Step(c1, ev), rest, ev.who, ev.w.ct.id);
  }

  ghost predicate AllTo(evs: seq<Event>, who: nat) {
    forall k :: 0 <= k < |evs| ==> evs[k].Deliver? && evs[k].who == who
  }

  lemma AllToConcat(a: seq<Event>, b: seq<Event>, who: nat)
    requires AllTo(a, who) && AllTo(b, who)
    ensures AllTo(a + b, who)
  {
  }

  /** Deliveries to one side leave the other's party alone. */
  lemma {:induction false} DeliveriesLeavePeer(c: World, evs: seq<Event>, who: nat)
    requires |c.h| >= 2 && who < 2 && 1 - who in c.parties
    requires AllTo(evs, who)
    ensures 1 - who in Run(c, evs).parties && Run(c, evs).parties[1 - who] == c.parties[1 - who]
    decreases |evs|
  {
    hide Step;
    if evs != [] {
      DeliveryLeavesPeer(c, who, evs[0].w, evs[0].now, evs[0].crash);
      DeliveriesLeavePeer(Step(c, evs[0]), evs[1..], who);
    }
  }

  lemma {:induction false} EventsAreDeliveries(wires: Wires, traffic: seq<Traffic>, k: nat, decode: Decoder, who: nat,
                                               crash: nat -> bool)
    requires Mixed(wires, traffic) && k <= |traffic|
    ensures AllTo(Events(wires, traffic, k, decode, who, crash), who)
  {
    hide EventAt, Mixed, AllTo;
    if k == 0 {
      NoneIsAllTo(who);
    } else {
      EventsAreDeliveries(wires, traffic, k - 1, decode, who, crash);
      EventIsDelivery(wires, traffic, k - 1, decode, who, crash);
      AllToConcat(Events(wires, traffic, k - 1, decode, who, crash), EventAt(wires, traffic, k - 1, decode, who, crash),
                  who);
    }
  }

  lemma NoneIsAllTo(who: nat)
    ensures AllTo([], who)
  {
  }

  lemma EventIsDelivery(wires: Wires, traffic: seq<Traffic>, j: nat, decode: Decoder, who: nat, crash: nat -> bool)
    requires Mixed(wires, traffic) && j < |traffic|
    ensures AllTo(EventAt(wires, traffic, j, decode, who, crash), who)
  {
    hide NoisyReady, Mixed;
  }

  /** Deliveries to one side leave an unaltered wire unaltered. */
  lemma StaysUnaltered(c: World, evs: seq<Event>, who: nat, w: Wire)
    requires Inv(c) && |c.h| >= 2 && who in c.parties && Unaltered(c, who, w)
    requires AllTo(evs, who)
    ensures Unaltered(Run(c, evs), who, w)
  {
    hide Inv, Run, AllTo, SentEntryOk, Unaltered;
    UnalteredPage(c, who, w);
    DeliveriesLeavePeer(c, evs, who);
    SamePeerUnaltered(c, Run(c, evs), who, w);
  }

  lemma SamePeerUnaltered(c: World, c': World, who: nat, w: Wire)
    requires who < 2 && 1 - who in c.parties && 1 - who in c'.parties && c'.parties[1 - who] == c.parties[1 - who]
    requires Unaltered(c, who, w)
    ensures Unaltered(c', who, w)
  {
  }

  lemma SpentIsStored(c: World, who: nat, w: Wire)
    requires Inv(c) && who in c.parties && Unaltered(c, who, w)
    requires (w.hdr.dh, w.hdr.n) in c.parties[who].consumed
    ensures HasId(c.parties[who].conv, w.ct.id)
  {
    hide Inv, Unaltered, HasId;
    DiskIsFaithful(c, who);
  }

  lemma StoredThroughRest(c: World, before: seq<Event>, rest: seq<Event>, who: nat, id: nat)
    requires |c.h| >= 2 && who in Run(c, before).parties && HasId(Run(c, before).parties[who].conv, id)
    ensures who in Run(c, before + rest).parties && HasId(Run(c, before + rest).parties[who].conv, id)
  {
    hide Step, HasId, Run, PossibleRun;
    RunConcat(c, before, rest);
    RunKeepsStored(Run(c, before), rest, who, id);
  }

  /** After a delivery of an unaltered wire whose key waits, or was spent on it, its text is stored. */
  lemma UnevictedIsStored(c: World, before: seq<Event>, ev: Event, rest: seq<Event>)
    requires |c.h| >= 2 && Inv(c) && ev.Deliver? && ev.who in c.parties && Unaltered(c, ev.who, ev.w)
    requires PossibleRun(c, before) && AllTo(before, ev.who)
    requires KeyWaits(Run(c, before), ev.who, ev.w)
    ensures var after := Run(c, before + [ev] + rest);
            ev.who in after.parties && HasId(after.parties[ev.who].conv, ev.w.ct.id)
  {
    hide Inv, Run, PossibleRun, Commits, HasId, Unaltered, KeyWaits, AllTo;
    var who, w, c1 := ev.who, ev.w, Run(c, before);
    WaitingIsThere(c1, who, w);
    RunKeepsInv(c, before);
    StaysUnaltered(c, before, who, w);
    if (w.hdr.dh, w.hdr.n) in c1.parties[who].consumed {
      SpentIsStored(c1, who, w);
      assert before + [ev] + rest == before + ([ev] + rest);
      StoredThroughRest(c, before, [ev] + rest, who, w.ct.id);
    } else {
      WaitingCommits(c1, who, w, ev.now);
      CommittedStaysStored(c, before, ev, rest);
    }
  }

  lemma WaitingIsThere(c: World, who: nat, w: Wire)
    requires KeyWaits(c, who, w)
    ensures who in c.parties
  {
    hide TotalSkip;
  }

  /** The wire's key was not evicted, and the gap before it is within the skip budget. */
  ghost predicate KeyWaits(c: World, who: nat, w: Wire) {
    && who in c.parties
    && TotalSkip(c.parties[who].st, w.hdr) <= MAX_SKIP
    && (w.hdr.dh, w.hdr.n) !in c.parties[who].evicted
  }

  lemma WaitingCommits(c: World, who: nat, w: Wire, now: int)
    requires Inv(c) && who in c.parties && Unaltered(c, who, w) && KeyWaits(c, who, w)
    requires (w.hdr.dh, w.hdr.n) !in c.parties[who].consumed
    ensures Commits(c, who, w, now)
  {
    hide Inv, Unaltered, TotalSkip, Commits;
    UnspentMessageOpens(c, who, w, now);
  }

  /**
   Of a wire the peer really sealed, published over and over, it is enough that one attempt gets through
   while the key has neither been evicted nor gone out of budget: then its text is in the conversation,
   exactly once, whatever else arrives and wherever the receiver crashes.
   */
  lemma ResendsStoreExactlyOnce(c: World, who: nat, wires: Wires, traffic: seq<Traffic>, decode: Decoder,
                                crash: nat -> bool, text: string, a: Outbox.Attempt, first: nat, j: nat)
    requires |c.h| >= 2 && Inv(c) && who in c.parties
    requires decode(text).Some? && Unaltered(c, who, decode(text).value)
    requires GetsThrough(wires, traffic, text, a, first, j)
    requires PossibleRun(c, Events(wires, traffic, |traffic|, decode, who, crash))
    requires KeyWaits(Run(c, Events(wires, traffic, j, decode, who, crash)), who, decode(text).value)
    ensures var after, id := Run(c, Events(wires, traffic, |traffic|, decode, who, crash)), decode(text).value.ct.id;
            who in after.parties && HasId(after.parties[who].conv, id) && AtMostOnce(after.parties[who].conv, id)
  {
    hide GetsThrough, Mixed, NoisyReady, Inv, Events, EventAt, AllTo;
    hide Run, PossibleRun, HasId, AtMostOnce, KeyWaits, Unaltered;
    InTraffic(wires, traffic, text, a, first, j);
    ThroughIsReady(wires, traffic, text, a, first, j);
    var w := decode(text).value;
    var ev := Deliver(who, w, Time(traffic[j]), crash(j));
    ReadyIsDelivered(wires, traffic, j, decode, who, crash, text);
    var before := Events(wires, traffic, j, decode, who, crash);
    var rest := EventsSplit(wires, traffic, j, |traffic|, decode, who, crash);
    EventsAreDeliveries(wires, traffic, j, decode, who, crash);
    RunConcat(c, before, [ev] + rest);
    assert before + [ev] + rest == before + ([ev] + rest);
    UnevictedIsStored(c, before, ev, rest);
    ResendsStoreAtMostOnce(c, who, wires, traffic, decode, crash, w);
  }

  lemma InTraffic(wires: Wires, traffic: seq<Traffic>, text: string, a: Outbox.Attempt, first: nat, j: nat)
    requires GetsThrough(wires, traffic, text, a, first, j)
    ensures Mixed(wires, traffic) && first <= j < |traffic|
  {
  }

  lemma ReadyIsDelivered(wires: Wires, traffic: seq<Traffic>, j: nat, decode: Decoder, who: nat, crash: nat -> bool,
                         text: string)
    requires Mixed(wires, traffic) && j < |traffic| && decode(text).Some?
    requires NoisyReady(wires, traffic, j) == Some(Plain(text))
    ensures EventAt(wires, traffic, j, decode, who, crash)
         == [Deliver(who, decode(text).value, Time(traffic[j]), crash(j))]
  {
    hide NoisyReady;
  }

  // ── And nothing else ──────────────────────────────────────────────────────

  ghost predicate AllOf(evs: seq<Event>, who: nat, w: Wire) {
    forall k :: 0 <= k < |evs| ==> evs[k].Deliver? && evs[k].who == who && evs[k].w == w
  }

  /** The conversation as it was, or with the wire's text taken in. */
  ghost predicate AtMostAdded(before: seq<Stored>, after: seq<Stored>, w: Wire) {
    after == before || after == StoreIncoming(before, w.ct.id, w.ct.inner.text)
  }

  lemma DeliveryAdds(c: World, ev: Event)
    requires |c.h| >= 2 && ev.Deliver? && ev.who in c.parties
    ensures ev.who in Step(c, ev).parties
    ensures AtMostAdded(c.parties[ev.who].conv, Step(c, ev).parties[ev.who].conv, ev.w)
  {
    hide StepRecv, DroppedByRecv, Recorded, StoreIncoming;
  }

  lemma {:induction false} DeliveriesAddOnce(c: World, evs: seq<Event>, who: nat, w: Wire)
    requires |c.h| >= 2 && who in c.parties && AllOf(evs, who, w)
    ensures who in Run(c, evs).parties && AtMostAdded(c.parties[who].conv, Run(c, evs).parties[who].conv, w)
    decreases |evs|
  {
    hide Step, StoreIncoming;
    if evs != [] {
      DeliveryAdds(c, evs[0]);
      DeliveriesAddOnce(Step(c, evs[0]), evs[1..], who, w);
      StoringIsIdempotent(c.parties[who].conv, w.ct.id, w.ct.inner.text);
    }
  }

  /** Every set is a copy of the text, and nothing else on the topic reads as a ratchet wire. */
  ghost predicate OnlyCopies(wires: Wires, traffic: seq<Traffic>, decode: Decoder, text: string) {
    && (forall id :: id in wires ==> IsCopy(wires, id, text))
    && (forall j :: 0 <= j < |traffic| && traffic[j].Foreign? && traffic[j].c.Plain? && traffic[j].c.wire != text ==>
          decode(traffic[j].c.wire).None?)
  }

  /** What foreign content makes ready amid others is itself or nothing. */
  lemma ForeignPassesThrough(wires: Wires, traffic: seq<Traffic>, j: nat)
    requires Mixed(wires, traffic) && j < |traffic| && traffic[j].Foreign? && traffic[j].c.Plain?
    ensures NoisyReady(wires, traffic, j) == Some(traffic[j].c)
  {
    hide Mixed, NoisyBuffer;
  }

  lemma CopyEvents(wires: Wires, traffic: seq<Traffic>, j: nat, decode: Decoder, who: nat, crash: nat -> bool,
                   text: string)
    requires Mixed(wires, traffic) && j < |traffic| && OnlyCopies(wires, traffic, decode, text) && decode(text).Some?
    requires traffic[j].Ours? || traffic[j].c.Plain?
    ensures AllOf(EventAt(wires, traffic, j, decode, who, crash), who, decode(text).value)
  {
    if traffic[j].Ours? {
      OneOfOurs(wires, traffic, j);
      CopyIsTheWire(wires, traffic, j, text);
    } else {
      ForeignPassesThrough(wires, traffic, j);
    }
    hide NoisyReady, Mixed;
  }

  lemma {:induction false} OnlyCopyEvents(wires: Wires, traffic: seq<Traffic>, k: nat, decode: Decoder, who: nat,
                                          crash: nat -> bool, text: string)
    requires Mixed(wires, traffic) && k <= |traffic| && OnlyCopies(wires, traffic, decode, text) && decode(text).Some?
    requires forall j :: 0 <= j < |traffic| ==> traffic[j].Ours? || traffic[j].c.Plain?
    ensures AllOf(Events(wires, traffic, k, decode, who, crash), who, decode(text).value)
  {
    hide Mixed, OnlyCopies, EventAt;
    if k > 0 {
      OnlyCopyEvents(wires, traffic, k - 1, decode, who, crash, text);
      CopyEvents(wires, traffic, k - 1, decode, who, crash, text);
      assert Events(wires, traffic, k, decode, who, crash)
          == Events(wires, traffic, k - 1, decode, who, crash) + EventAt(wires, traffic, k - 1, decode, who, crash);
    }
  }

  /** Any number of copies of one wire, with any unreadable traffic among them, adds its text or nothing at all. */
  lemma CopiesAddOnlyTheText(c: World, who: nat, wires: Wires, traffic: seq<Traffic>, decode: Decoder,
                             crash: nat -> bool, text: string)
    requires |c.h| >= 2 && who in c.parties && Mixed(wires, traffic)
    requires OnlyCopies(wires, traffic, decode, text) && decode(text).Some?
    requires forall j :: 0 <= j < |traffic| ==> traffic[j].Ours? || traffic[j].c.Plain?
    ensures var after := Run(c, Events(wires, traffic, |traffic|, decode, who, crash));
            who in after.parties && AtMostAdded(c.parties[who].conv, after.parties[who].conv, decode(text).value)
  {
    hide Mixed, OnlyCopies, Events, Run, AtMostAdded;
    OnlyCopyEvents(wires, traffic, |traffic|, decode, who, crash, text);
    DeliveriesAddOnce(c, Events(wires, traffic, |traffic|, decode, who, crash), who, decode(text).value);
  }
}
