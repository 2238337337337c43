/** Pinning a contact's keys without a handshake, and who may replace a pin. */
module KeyPinning {
  import opened Wrappers
  import opened Contacts
  import QueueRotation

  /** The two public keys a peer is known by. */
  datatype Keys = Keys(x25519: string, mlKem: string)

  /** `name` to `ratchetCapable` stand for the fields a bootstrap of an existing contact never writes. */
  datatype Contact = Contact(
    did: string,
    name: string,
    unread: nat,
    rotatedAt: int,
    ratchetCapable: bool,
    keys: Option<Keys>,
    verified: bool,
    mode: Mode,
    status: Status,
    ticket: Option<string>,
    myQueue: Option<Queue>,
    recvPseudonym: Option<string>,
    theirQueue: Option<Queue>,
    sendPseudonym: Option<string>)

  /** One call, with the random strings it would draw. */
  datatype Call = Call(
    did: string,
    name: string,
    keys: Keys,
    ticket: Option<string>,
    verified: bool,
    queue: string,
    recvPseudonym: string,
    sendPseudonym: string)

  // ── What the operation computes ───────────────────────────────────────────

  function OrElse<T>(o: Option<T>, d: T): Option<T> {
    if o.Some? then o else Some(d)
  }

  /** The position of the first contact with this DID, or the length. */
  function IndexOf(list: seq<Contact>, did: string): (i: nat)
    ensures i <= |list|
    ensures i < |list| ==> list[i].did == did
    ensures forall j :: 0 <= j < i ==> list[j].did != did
  {
    if list == [] || list[0].did == did then 0 else 1 + IndexOf(list[1..], did)
  }

  /** Whether a call may touch a contact that has these keys with this trust. */
  predicate Accepts(c: Contact, call: Call) {
    c.keys.None? || (call.verified && !c.verified)
  }

  function Updated(c: Contact, call: Call, me: string): Contact
    requires Accepts(c, call)
  {
    if c.keys.None? then
      c.(keys := Some(call.keys), verified := call.verified, mode := Regular, status := Active,
         myQueue := OrElse(c.myQueue, Minted(call.queue)),
         recvPseudonym := OrElse(c.recvPseudonym, call.recvPseudonym),
         theirQueue := OrElse(c.theirQueue, Pair(call.did, me)),
         sendPseudonym := OrElse(c.sendPseudonym, call.sendPseudonym),
         ticket := if call.ticket.Some? then call.ticket else c.ticket)
    else if c.keys.value == call.keys then
      c.(verified := true, ticket := if c.ticket.None? then call.ticket else c.ticket)
    else
      c.(keys := Some(call.keys), verified := true, ticket := if call.ticket.Some? then call.ticket else c.ticket)
  }

  function NewContact(call: Call, me: string): Contact {
    Contact(call.did, call.name, 0, 0, false, Some(call.keys), call.verified, Regular, Active, call.ticket,
            Some(Minted(call.queue)), Some(call.recvPseudonym), Some(Pair(call.did, me)), Some(call.sendPseudonym))
  }

  function Bootstrapped(list: seq<Contact>, me: string, call: Call): seq<Contact> {
    var i := IndexOf(list, call.did);
    if call.did == "" || call.did == me then list
    else if i == |list| then list + [NewContact(call, me)]
    else if Accepts(list[i], call) then list[i := Updated(list[i], call, me)]
    else list
  }

  // ── The operation in place ────────────────────────────────────────────────

  class Book {
    const me: string
    var contacts: seq<Contact>

    constructor (me: string)
      ensures contacts == [] && this.me == me
    {
      this.me := me;
      contacts := [];
    }

    method Find(did: string) returns (i: nat)
      ensures i == IndexOf(contacts, did)
    {
      i := 0;
      while i < |contacts| && contacts[i].did != did
        invariant i <= |contacts| && forall j :: 0 <= j < i ==> contacts[j].did != did
      {
        i := i + 1;
      }
      FirstIsIndex(contacts, did, i);
    }

    /** Reports whether a contact was created or its pin changed. */
    method BootstrapFromKeys(call: Call) returns (changed: bool)
      modifies this
      ensures contacts == Bootstrapped(old(contacts), me, call)
      ensures changed <==> Pin(contacts, call.did) != Pin(old(contacts), call.did)
    {
      if call.did == "" || call.did == me {
        return false;
      }
      PinMoves(contacts, me, call, call.did);
      var i := Find(call.did);
      if i < |contacts| {
        var c := contacts[i];
        match c.keys
        case Some(existing) =>
          if existing.x25519 == call.keys.x25519 && existing.mlKem == call.keys.mlKem {
            if call.verified && !c.verified {
              c := c.(verified := true);
              if c.ticket.None? {
                c := c.(ticket := call.ticket);
              }
              contacts := contacts[i := c];
              return true;
            }
            return false;
          }
          if call.verified && !c.verified {
            c := c.(keys := Some(call.keys), verified := true);
            if call.ticket.Some? {
              c := c.(ticket := call.ticket);
            }
            contacts := contacts[i := c];
            return true;
          }
          return false;
        case None =>
          c := c.(keys := Some(call.keys), verified := call.verified, mode := Regular, status := Active);
          if c.myQueue.None? {
            c := c.(myQueue := Some(Minted(call.queue)));
          }
          if c.recvPseudonym.None? {
            c := c.(recvPseudonym := Some(call.recvPseudonym));
          }
          if c.theirQueue.None? {
            c := c.(theirQueue := Some(Pair(call.did, me)));
          }
          if c.sendPseudonym.None? {
            c := c.(sendPseudonym := Some(call.sendPseudonym));
          }
          if call.ticket.Some? {
            c := c.(ticket := call.ticket);
          }
          contacts := contacts[i := c];
          return true;
      }
      contacts := contacts + [NewContact(call, me)];
      changed := true;
    }
  }

  lemma {:induction false} FirstIsIndex(list: seq<Contact>, did: string, i: nat)
    requires i <= |list| && (i < |list| ==> list[i].did == did)
    requires forall j :: 0 <= j < i ==> list[j].did != did
    ensures i == IndexOf(list, did)
  {
    var k := IndexOf(list, did);
    assert !(k < i) && !(i < k);
  }

  // ── One call ──────────────────────────────────────────────────────────────

  datatype PinnedKeys = PinnedKeys(keys: Keys, verified: bool)

  /** What is pinned for a DID, by the contact that every lookup finds. */
  ghost function Pin(list: seq<Contact>, did: string): Option<PinnedKeys> {
    var i := IndexOf(list, did);
    if i < |list| && list[i].keys.Some? then Some(PinnedKeys(list[i].keys.value, list[i].verified)) else None
  }

  /** An absent pin is set, an unverified one gives way to a verified call, and no other ever changes. */
  ghost function MovedPin(p: Option<PinnedKeys>, call: Call): Option<PinnedKeys> {
    if p.None? || (!p.value.verified && call.verified) then Some(PinnedKeys(call.keys, call.verified)) else p
  }

  lemma PinMoves(list: seq<Contact>, me: string, call: Call, did: string)
    ensures Pin(Bootstrapped(list, me, call), did) ==
            if did == call.did && did != "" && did != me then MovedPin(Pin(list, did), call) else Pin(list, did)
  {
    IndexStays(list, me, call, did);
    hide IndexOf;
  }

  /** A lookup finds the contact where it was, or the one just added. */
  lemma IndexStays(list: seq<Contact>, me: string, call: Call, did: string)
    ensures var next, i := Bootstrapped(list, me, call), IndexOf(list, did);
            IndexOf(next, did) == if i == |list| && did != call.did then |next| else i
  {
    var next := Bootstrapped(list, me, call);
    var i := IndexOf(list, did);
    hide IndexOf;
    FirstIsIndex(next, did, if i == |list| && did != call.did then |next| else i);
  }

  ghost predicate V2Active(c: Contact) {
    c.keys.Some? && c.theirQueue.Some? && c.myQueue.Some?
  }

  /** A call reaches one contact at most; that one keeps its identity, history and whatever queues it had. */
  lemma OthersUntouched(list: seq<Contact>, me: string, call: Call, i: nat)
    requires i < |list|
    ensures var next := Bootstrapped(list, me, call);
            && |list| <= |next| <= |list| + 1
            && (i != IndexOf(list, call.did) ==> next[i] == list[i])
            && next[i].did == list[i].did && next[i].name == list[i].name
            && next[i].ratchetCapable == list[i].ratchetCapable && next[i].rotatedAt == list[i].rotatedAt
            && next[i].unread == list[i].unread
            && (list[i].myQueue.Some? ==> next[i].myQueue == list[i].myQueue)
            && (list[i].theirQueue.Some? ==> next[i].theirQueue == list[i].theirQueue)
            && (next[i].keys != list[i].keys && list[i].keys.None? ==> V2Active(next[i]))
  {
  }

  /** What one call leaves behind under its DID, if it may touch anything there. */
  lemma CalledContact(list: seq<Contact>, me: string, call: Call)
    requires call.did != "" && call.did != me
    ensures var next, i := Bootstrapped(list, me, call), IndexOf(list, call.did);
            && i < |next| && next[i].did == call.did
            && (i == |list| ==>
                  && next[i].name == call.name && next[i].unread == 0 && !next[i].ratchetCapable
                  && next[i].rotatedAt == 0 && next[i].ticket == call.ticket)
            && (i == |list| || list[i].keys.None? ==>
                  && next[i].mode == Regular && next[i].status == Active
                  && next[i].keys == Some(call.keys) && next[i].verified == call.verified)
  {
  }

  /** The contact under this DID before the call, as far as it had anything. */
  ghost function Had<T>(list: seq<Contact>, did: string, field: Contact -> Option<T>): Option<T> {
    var i := IndexOf(list, did);
    if i < |list| then field(list[i]) else None
  }

  /**
   Queues and pseudonyms after a first pin: what was there stays, the rest is drawn by the call; and what is
   published for a new contact goes to the very pair queue that its owner polls for us.
   */
  lemma FirstPinFillsQueues(list: seq<Contact>, me: string, call: Call)
    requires call.did != "" && call.did != me && Had(list, call.did, (c: Contact) => c.keys).None?
    ensures var next, i := Bootstrapped(list, me, call), IndexOf(list, call.did);
            && i < |next|
            && next[i].myQueue == OrElse(Had(list, call.did, (c: Contact) => c.myQueue), Minted(call.queue))
            && next[i].recvPseudonym == OrElse(Had(list, call.did, (c: Contact) => c.recvPseudonym), call.recvPseudonym)
            && next[i].sendPseudonym == OrElse(Had(list, call.did, (c: Contact) => c.sendPseudonym), call.sendPseudonym)
            && (Had(list, call.did, (c: Contact) => c.theirQueue).None? ==>
                  next[i].theirQueue == PolledFor(call.did, me))
  {
    PolledForIs(call.did, me);
  }

  /** The first topic that the profile `owner` polls for a Regular contact `did` it has no queue for. */
  ghost function PolledFor(owner: string, did: string): Option<Queue> {
    var c := QueueRotation.ContactState(did, Regular, Active, None, None, None, 0, 0, []);
    var topics := QueueRotation.TopicsOf(c, owner, 0);
    if topics != [] then Some(topics[0]) else None
  }

  lemma PolledForIs(owner: string, did: string)
    requires owner != ""
    ensures PolledFor(owner, did) == Some(Pair(owner, did))
  {
  }

  /** Tickets: a call with one sets it where the keys are new; where they are known it only fills a gap. */
  lemma TicketExactly(list: seq<Contact>, me: string, call: Call)
    requires call.did != "" && call.did != me && IndexOf(list, call.did) < |list|
    ensures var was, now := list[IndexOf(list, call.did)], Bootstrapped(list, me, call)[IndexOf(list, call.did)];
            && (now.keys != was.keys ==> now.ticket == if call.ticket.Some? then call.ticket else was.ticket)
            && (now.keys == was.keys && now.verified != was.verified ==>
                  now.ticket == if was.ticket.Some? then was.ticket else call.ticket)
            && (now.keys == was.keys && now.verified == was.verified ==> now == was)
  {
  }

  // ── Any sequence of calls ─────────────────────────────────────────────────

  ghost function After(list: seq<Contact>, me: string, calls: seq<Call>, k: nat): seq<Contact>
    requires k <= |calls|
  {
    if k == 0 then list else Bootstrapped(After(list, me, calls, k - 1), me, calls[k - 1])
  }

  /** The first of the first `k` calls about a DID; of the verified ones only, if asked. */
  ghost function First(calls: seq<Call>, k: nat, did: string, verifiedOnly: bool): (j: Option<nat>)
    requires k <= |calls|
    ensures j.Some? ==> j.value < k
  {
    if k == 0 then None
    else
      var earlier := First(calls, k - 1, did, verifiedOnly);
      if earlier.Some? then earlier
      else if calls[k - 1].did == did && (verifiedOnly ==> calls[k - 1].verified) then Some(k - 1)
      else None
  }

  /**
    * The closed form. A verified pin stands for good. Otherwise the first verified call decides; without one,
    * the pin that was there; without that, the first call.
    */
  ghost function FinalPin(p: Option<PinnedKeys>, calls: seq<Call>, k: nat, did: string): Option<PinnedKeys>
    requires k <= |calls|
  {
    var verified, any := First(calls, k, did, true), First(calls, k, did, false);
    if p.Some? && p.value.verified then p
    else if verified.Some? then Some(PinnedKeys(calls[verified.value].keys, true))
    else if p.Some? || any.None? then p
    else Some(PinnedKeys(calls[any.value].keys, false))
  }

  lemma {:induction false} VerifiedIsAny(calls: seq<Call>, k: nat, did: string)
    requires k <= |calls|
    ensures First(calls, k, did, true).Some? ==> First(calls, k, did, false).Some?
    ensures First(calls, k, did, true).Some? ==> calls[First(calls, k, did, true).value].verified
    ensures First(calls, k, did, true).None? && First(calls, k, did, false).Some? ==>
              !calls[First(calls, k, did, false).value].verified
  {
    if k > 0 {
      VerifiedIsAny(calls, k - 1, did);
    }
  }

  lemma FinalPinMoves(p: Option<PinnedKeys>, calls: seq<Call>, k: nat, did: string)
    requires 0 < k <= |calls|
    ensures var before := FinalPin(p, calls, k - 1, did);
            FinalPin(p, calls, k, did) == if calls[k - 1].did == did then MovedPin(before, calls[k - 1]) else before
  {
    VerifiedIsAny(calls, k - 1, did);
  }

  lemma {:induction false} PinningInClosedForm(list: seq<Contact>, me: string, calls: seq<Call>, k: nat, did: string)
    requires k <= |calls| && did != "" && did != me
    ensures Pin(After(list, me, calls, k), did) == FinalPin(Pin(list, did), calls, k, did)
  {
    if k > 0 {
      PinningInClosedForm(list, me, calls, k - 1, did);
      PinMoves(After(list, me, calls, k - 1), me, calls[k - 1], did);
      FinalPinMoves(Pin(list, did), calls, k, did);
      hide Pin, FinalPin, MovedPin;
    }
  }

  /** Calls about one DID never change another's contact, nor the empty one's or our own. */
  lemma {:induction false} OnlyCalledChange(list: seq<Contact>, me: string, calls: seq<Call>, k: nat, i: nat)
    requires k <= |calls| && i < |list|
    requires forall j :: 0 <= j < k && calls[j].did == list[i].did ==> calls[j].did == "" || calls[j].did == me
    ensures i < |After(list, me, calls, k)| && After(list, me, calls, k)[i] == list[i]
  {
    if k > 0 {
      OnlyCalledChange(list, me, calls, k - 1, i);
      OthersUntouched(After(list, me, calls, k - 1), me, calls[k - 1], i);
    }
  }

  ghost predicate DistinctDids(list: seq<Contact>) {
    forall i, j :: 0 <= i < j < |list| ==> list[i].did != list[j].did
  }

  /** Bootstrapping, unlike an incoming handshake, never lists a DID twice. */
  lemma {:induction false} DidsStayDistinct(list: seq<Contact>, me: string, calls: seq<Call>, k: nat)
    requires k <= |calls| && DistinctDids(list)
    ensures DistinctDids(After(list, me, calls, k))
  {
    if k > 0 {
      DidsStayDistinct(list, me, calls, k - 1);
    }
  }
}
