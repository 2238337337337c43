/** Continuous rotation of a contact's inbound queue, the grace list, and the topics polled. */
module QueueRotation {
  import opened Wrappers
  import opened Contacts

  const QUEUE_ROTATE_MSGS: nat := 200
  const QUEUE_ROTATE_MS: int := 7 * 24 * 60 * 60 * 1000
  const QUEUE_ROTATE_FLOOR_MS: int := 60 * 60 * 1000
  const QUEUE_GRACE_MS: int := 60 * 60 * 1000
  const U32_MAX: nat := 0xFFFF_FFFF

  datatype Retired = Retired(queue: Queue, pseudonym: string, retireAt: int)

  datatype ContactState = ContactState(
    did: string,
    mode: Mode,
    status: Status,
    myQueue: Option<Queue>,
    myPseudonym: Option<string>,
    theirQueue: Option<Queue>,
    rotatedAt: int,
    msgCount: nat,
    retired: seq<Retired>)

  // ── What the operations compute ───────────────────────────────────────────

  function Rotated(c: ContactState, now: int, queue: Queue, pseudonym: string): ContactState {
    var retired := if c.myQueue.Some?
                   then c.retired + [Retired(c.myQueue.value,
                                             if c.myPseudonym.Some? then c.myPseudonym.value else "anonymous", now)]
                   else c.retired;
    c.(retired := retired, myQueue := Some(queue), myPseudonym := Some(pseudonym), rotatedAt := now, msgCount := 0)
  }

  predicate InGrace(r: Retired, now: int) {
    now - r.retireAt < QUEUE_GRACE_MS
  }

  function Kept(rs: seq<Retired>, now: int): seq<Retired> {
    if rs == [] then []
    else (if InGrace(rs[0], now) then [rs[0]] else []) + Kept(rs[1..], now)
  }

  function Expired(rs: seq<Retired>, now: int): seq<Queue> {
    if rs == [] then []
    else (if InGrace(rs[0], now) then [] else [rs[0].queue]) + Expired(rs[1..], now)
  }

  /** The contact after counting one message, starting the clock and pruning; not yet rotated. */
  function Counted(c: ContactState, now: int): ContactState {
    c.(msgCount := if c.msgCount < U32_MAX then c.msgCount + 1 else U32_MAX,
       rotatedAt := if c.rotatedAt == 0 then now else c.rotatedAt,
       retired := Kept(c.retired, now))
  }

  predicate Due(c: ContactState, now: int) {
    var since := now - c.rotatedAt;
    since >= QUEUE_ROTATE_FLOOR_MS && (c.msgCount >= QUEUE_ROTATE_MSGS || since >= QUEUE_ROTATE_MS)
  }

  predicate Rotates(c: ContactState, now: int) {
    c.status == Active && c.myQueue.Some? && Due(Counted(c, now), now)
  }

  function MaybeRotated(c: ContactState, now: int, queue: Queue, pseudonym: string): ContactState {
    if c.status != Active || c.myQueue.None? then c
    else if Due(Counted(c, now), now) then Rotated(Counted(c, now), now, queue, pseudonym)
    else Counted(c, now)
  }

  /** Topics polled for one contact. */
  function TopicsOf(c: ContactState, myDid: string, now: int): seq<Queue> {
    (if c.mode == Regular && myDid != "" then [Pair(myDid, c.did)] else [])
      + (if c.myQueue.Some? then [c.myQueue.value] else [])
      + GraceQueues(c.retired, now)
  }

  /** The queues of the entries still in grace. */
  function GraceQueues(rs: seq<Retired>, now: int): seq<Queue> {
    QueuesOf(Kept(rs, now))
  }

  function QueuesOf(rs: seq<Retired>): seq<Queue> {
    seq(|rs|, i requires 0 <= i < |rs| => rs[i].queue)
  }

  predicate Owns(c: ContactState, queue: Queue, myDid: string) {
    || c.myQueue == Some(queue)
    || (exists k :: 0 <= k < |c.retired| && c.retired[k].queue == queue)
    || (c.mode == Regular && Pair(myDid, c.did) == queue)
  }

  /** The queue a message for this contact is published on. */
  function SendQueue(c: ContactState, myDid: string): Option<Queue> {
    if c.mode == Regular then Some(Pair(c.did, myDid)) else c.theirQueue
  }

  // ── The operations in place ───────────────────────────────────────────────

  class Contact {
    var did: string
    var mode: Mode
    var status: Status
    var myQueue: Option<Queue>
    var myPseudonym: Option<string>
    var theirQueue: Option<Queue>
    var rotatedAt: int
    var msgCount: nat
    var retired: seq<Retired>

    function State(): ContactState
      reads this
    {
      ContactState(did, mode, status, myQueue, myPseudonym, theirQueue, rotatedAt, msgCount, retired)
    }

    constructor (c: ContactState)
      ensures State() == c
    {
      did, mode, status, myQueue, myPseudonym := c.did, c.mode, c.status, c.myQueue, c.myPseudonym;
      theirQueue, rotatedAt, msgCount, retired := c.theirQueue, c.rotatedAt, c.msgCount, c.retired;
    }

    method Rotate(now: int, queue: Queue, pseudonym: string)
      modifies this
      ensures State() == Rotated(old(State()), now, queue, pseudonym)
    {
      if myQueue.Some? {
        var oldPseudonym := if myPseudonym.Some? then myPseudonym.value else "anonymous";
        retired := retired + [Retired(myQueue.value, oldPseudonym, now)];
      }
      myQueue := Some(queue);
      myPseudonym := Some(pseudonym);
      rotatedAt := now;
      msgCount := 0;
    }

    method PruneRetired(now: int) returns (expired: seq<Queue>)
      modifies this`retired
      ensures retired == Kept(old(retired), now)
      ensures expired == Expired(old(retired), now)
    {
      var kept := [];
      expired := [];
      for k := 0 to |retired|
        invariant retired == old(retired)
        invariant kept + Kept(retired[k..], now) == Kept(retired, now)
        invariant expired + Expired(retired[k..], now) == Expired(retired, now)
      {
        assert retired[k..][1..] == retired[k + 1..];
        if InGrace(retired[k], now) {
          kept := kept + [retired[k]];
        } else {
          expired := expired + [retired[k].queue];
        }
      }
      retired := kept;
    }

    method MaybeRotate(now: int, queue: Queue, pseudonym: string) returns (expired: seq<Queue>, rotated: bool)
      modifies this
      ensures State() == MaybeRotated(old(State()), now, queue, pseudonym)
      ensures rotated == Rotates(old(State()), now)
      ensures expired == if old(status == Active && myQueue.Some?) then Expired(old(retired), now) else []
    {
      if status != Active || myQueue.None? {
        return [], false;
      }
      if msgCount < U32_MAX {
        msgCount := msgCount + 1;
      } else {
        msgCount := U32_MAX;
      }
      if rotatedAt == 0 {
        rotatedAt := now;
      }
      expired := PruneRetired(now);
      var since := now - rotatedAt;
      rotated := since >= QUEUE_ROTATE_FLOOR_MS && (msgCount >= QUEUE_ROTATE_MSGS || since >= QUEUE_ROTATE_MS);
      if rotated {
        Rotate(now, queue, pseudonym);
      }
    }
  }

  // ── Runs ──────────────────────────────────────────────────────────────────

  /** One received message: when, and the queue and pseudonym to install if it triggers a rotation. */
  datatype Tick = Tick(now: int, queue: Queue, pseudonym: string)

  /** The clock counts from 1970 and does not run backwards. */
  ghost predicate ClockOk(run: seq<Tick>) {
    && (forall j :: 0 <= j < |run| ==> run[j].now > 0)
    && (forall j, k :: 0 <= j <= k < |run| ==> run[j].now <= run[k].now)
  }

  ghost function After(c: ContactState, run: seq<Tick>, k: nat): ContactState
    requires k <= |run|
  {
    if k == 0 then c
    else MaybeRotated(After(c, run, k - 1), run[k - 1].now, run[k - 1].queue, run[k - 1].pseudonym)
  }

  ghost predicate RotatesAt(c: ContactState, run: seq<Tick>, k: nat)
    requires k < |run|
  {
    Rotates(After(c, run, k), run[k].now)
  }

  /** A contact that has never rotated. */
  ghost predicate Unrotated(c: ContactState) {
    c.rotatedAt == 0 && c.retired == []
  }

  /** At most one queue is in grace, retired by the last rotation. */
  ghost predicate RotationOk(c: ContactState, now: int) {
    && 0 <= c.rotatedAt <= now
    && |c.retired| <= 1
    && (c.retired != [] ==> c.rotatedAt > 0 && c.retired[0].retireAt == c.rotatedAt)
  }

  lemma KeptOfAtMostOne(rs: seq<Retired>, now: int)
    requires |rs| <= 1
    ensures Kept(rs, now) == if rs != [] && InGrace(rs[0], now) then rs else []
  {
    if rs != [] {
      assert rs[1..] == [];
      assert rs == [rs[0]];
    }
  }

  /** A rotation is only due once the previous queue has left its grace window, so the list is empty again. */
  lemma StepKeepsRotationOk(c: ContactState, last: int, tick: Tick)
    requires RotationOk(c, last) && last <= tick.now && tick.now > 0
    ensures RotationOk(MaybeRotated(c, tick.now, tick.queue, tick.pseudonym), tick.now)
    ensures Rotates(c, tick.now) ==> Kept(c.retired, tick.now) == []
  {
    KeptOfAtMostOne(c.retired, tick.now);
  }

  ghost function Now(run: seq<Tick>, k: nat): int
    requires k <= |run|
  {
    if k == 0 then 0 else run[k - 1].now
  }

  /** Whatever the traffic, the grace list never holds more than one queue. */
  lemma {:induction false} AtMostOneRetired(c: ContactState, run: seq<Tick>, k: nat)
    requires Unrotated(c) && ClockOk(run) && k <= |run|
    ensures RotationOk(After(c, run, k), Now(run, k))
  {
    if k > 0 {
      AtMostOneRetired(c, run, k - 1);
      StepKeepsRotationOk(After(c, run, k - 1), Now(run, k - 1), run[k - 1]);
    }
  }

  /** After a rotation the clock stands at it until the next one. */
  lemma {:induction false} ClockHolds(c: ContactState, run: seq<Tick>, j: nat, k: nat)
    requires Unrotated(c) && ClockOk(run) && j < k <= |run| && RotatesAt(c, run, j)
    ensures After(c, run, k).rotatedAt >= run[j].now
    decreases k
  {
    AtMostOneRetired(c, run, k);
    if k > j + 1 {
      ClockHolds(c, run, j, k - 1);
      assert run[j].now <= run[k - 1].now;
    }
  }

  /** Two rotations of one contact are at least the floor apart. */
  lemma RotationsApart(c: ContactState, run: seq<Tick>, j: nat, k: nat)
    requires Unrotated(c) && ClockOk(run) && j < k < |run| && RotatesAt(c, run, j) && RotatesAt(c, run, k)
    ensures run[k].now - run[j].now >= QUEUE_ROTATE_FLOOR_MS
  {
    ClockHolds(c, run, j, k);
    assert run[j].now > 0;
  }

  ghost predicate QuietBetween(c: ContactState, run: seq<Tick>, j: nat, k: nat)
    requires k <= |run|
  {
    forall i :: j < i < k ==> !RotatesAt(c, run, i)
  }

  lemma {:induction false} QuietKeepsClock(c: ContactState, run: seq<Tick>, j: nat, k: nat)
    requires ClockOk(run) && j < k <= |run| && RotatesAt(c, run, j) && QuietBetween(c, run, j, k)
    ensures var s := After(c, run, k);
            && s.status == Active && s.myQueue.Some? && s.rotatedAt == run[j].now
            && s.msgCount == if k - j - 1 < U32_MAX then k - j - 1 else U32_MAX
    decreases k
  {
    if k > j + 1 {
      QuietKeepsClock(c, run, j, k - 1);
      assert !RotatesAt(c, run, k - 1);
      assert run[j].now > 0;
    }
  }

  /** The next rotation, read off the traffic alone: the floor has passed, and 200 messages or a week. */
  lemma RotatesExactly(c: ContactState, run: seq<Tick>, j: nat, k: nat)
    requires ClockOk(run) && j < k < |run| && RotatesAt(c, run, j) && QuietBetween(c, run, j, k)
    ensures var since := run[k].now - run[j].now;
            RotatesAt(c, run, k) <==>
            since >= QUEUE_ROTATE_FLOOR_MS && (k - j >= QUEUE_ROTATE_MSGS || since >= QUEUE_ROTATE_MS)
  {
    QuietKeepsClock(c, run, j, k);
    assert run[j].now > 0;
  }

  ghost function Capped(n: nat): nat {
    if n < U32_MAX then n else U32_MAX
  }

  /** Until the first rotation the clock stands at the first message, and every message counts. */
  lemma {:induction false} ClockStartsAtFirst(c: ContactState, run: seq<Tick>, k: nat)
    requires Unrotated(c) && c.status == Active && c.myQueue.Some? && c.msgCount <= U32_MAX
    requires ClockOk(run) && k <= |run|
    requires forall i :: 0 <= i < k ==> !RotatesAt(c, run, i)
    ensures After(c, run, k) == c.(rotatedAt := if k == 0 then 0 else run[0].now, msgCount := Capped(c.msgCount + k))
  {
    if k > 0 {
      ClockStartsAtFirst(c, run, k - 1);
      assert !RotatesAt(c, run, k - 1);
      assert run[0].now > 0;
    }
  }

  /**
   The first rotation, read off the traffic alone: the clock starts with the first message, so nothing rotates
   before the floor has passed since then, and after it once 200 messages are counted or a week is over.
   */
  lemma FirstRotationExactly(c: ContactState, run: seq<Tick>, k: nat)
    requires Unrotated(c) && c.status == Active && c.myQueue.Some? && c.msgCount <= U32_MAX
    requires ClockOk(run) && k < |run|
    requires forall i :: 0 <= i < k ==> !RotatesAt(c, run, i)
    ensures var since := run[k].now - run[0].now;
            RotatesAt(c, run, k) <==>
            since >= 3_600_000 && (c.msgCount + k + 1 >= 200 || since >= 604_800_000)
  {
    ClockStartsAtFirst(c, run, k);
    assert run[0].now > 0;
  }

  // ── What goes with a queue ────────────────────────────────────────────────

  ghost function OrAnonymous(p: Option<string>): string {
    if p.Some? then p.value else "anonymous"
  }

  /** The queue was there from the start, or came with a rotation, and the pseudonym with it. */
  ghost predicate CameWith(c: ContactState, run: seq<Tick>, k: nat, q: Queue, p: string)
    requires k <= |run|
  {
    || (c.myQueue == Some(q) && p == OrAnonymous(c.myPseudonym))
    || exists j :: 0 <= j < k && RotatesAt(c, run, j) && run[j].queue == q && run[j].pseudonym == p
  }

  lemma CameWithStays(c: ContactState, run: seq<Tick>, k: nat, q: Queue, p: string)
    requires 0 < k <= |run| && CameWith(c, run, k - 1, q, p)
    ensures CameWith(c, run, k, q, p)
  {
    hide RotatesAt;
  }

  lemma KeptArePart(rs: seq<Retired>, now: int, r: Retired)
    ensures r in Kept(rs, now) <==> r in rs && InGrace(r, now)
  {
    if rs != [] {
      KeptArePart(rs[1..], now, r);
      assert rs == [rs[0]] + rs[1..];
    }
  }

  /** A queue keeps the pseudonym it was installed with, current or in grace. */
  lemma {:induction false} PseudonymsStay(c: ContactState, run: seq<Tick>, k: nat)
    requires Unrotated(c) && c.status == Active && c.myQueue.Some? && k <= |run|
    ensures var s := After(c, run, k);
            && s.status == Active && s.myQueue.Some?
            && CameWith(c, run, k, s.myQueue.value, OrAnonymous(s.myPseudonym))
            && forall r :: r in s.retired ==> CameWith(c, run, k, r.queue, r.pseudonym)
  {
    if k > 0 {
      PseudonymsStay(c, run, k - 1);
      var was, s, tick := After(c, run, k - 1), After(c, run, k), run[k - 1];
      CameWithStays(c, run, k, was.myQueue.value, OrAnonymous(was.myPseudonym));
      forall r | r in s.retired ensures CameWith(c, run, k, r.queue, r.pseudonym) {
        KeptArePart(was.retired, tick.now, r);
        if r in was.retired {
          CameWithStays(c, run, k, r.queue, r.pseudonym);
        }
      }
      assert RotatesAt(c, run, k - 1) ==> s.myQueue == Some(tick.queue) && s.myPseudonym == Some(tick.pseudonym);
    }
  }

  // ── Which queues are polled ───────────────────────────────────────────────

  /** The queues installed in the first `k` steps, the initial one included. */
  ghost function Installed(c: ContactState, run: seq<Tick>, k: nat): set<Queue>
    requires k <= |run|
  {
    if k == 0 then (if c.myQueue.Some? then {c.myQueue.value} else {})
    else if RotatesAt(c, run, k - 1) then Installed(c, run, k - 1) + {run[k - 1].queue}
    else Installed(c, run, k - 1)
  }

  /** When a queue that was current was last replaced. */
  ghost function RetiredWhen(c: ContactState, run: seq<Tick>, k: nat, queue: Queue): Option<int>
    requires k <= |run|
  {
    if k == 0 then None
    else if RotatesAt(c, run, k - 1) && After(c, run, k - 1).myQueue == Some(queue) then Some(run[k - 1].now)
    else RetiredWhen(c, run, k - 1, queue)
  }

  /** Random queue ids: none is installed twice, and none collides with a pair queue. */
  ghost predicate FreshQueues(c: ContactState, run: seq<Tick>) {
    && (c.myQueue.Some? ==> c.myQueue.value.Minted?)
    && (forall j :: 0 <= j < |run| ==> run[j].queue.Minted? && c.myQueue != Some(run[j].queue))
    && (forall j, k :: 0 <= j < k < |run| ==> run[j].queue != run[k].queue)
  }

  lemma {:induction false} InstalledComeFrom(c: ContactState, run: seq<Tick>, k: nat, q: Queue)
    requires k <= |run| && q in Installed(c, run, k)
    ensures c.myQueue == Some(q) || exists j :: 0 <= j < k && run[j].queue == q
  {
    if k > 0 && q in Installed(c, run, k - 1) {
      InstalledComeFrom(c, run, k - 1, q);
    }
  }

  lemma NewQueueIsNew(c: ContactState, run: seq<Tick>, k: nat)
    requires k < |run| && FreshQueues(c, run)
    ensures run[k].queue !in Installed(c, run, k)
    ensures forall q :: q in Installed(c, run, k) ==> q.Minted?
  {
    forall q | q in Installed(c, run, k) ensures q != run[k].queue && q.Minted? {
      InstalledComeFrom(c, run, k, q);
    }
  }

  /** A queue that was replaced and is past its grace window. */
  ghost predicate Lapsed(when: Option<int>, now: int) {
    when.Some? && now - when.value >= 3_600_000
  }

  /** The grace list against the run: a replaced queue is on it with its own time, or has lapsed. */
  ghost predicate QueueOk(c: ContactState, run: seq<Tick>, k: nat, q: Queue)
    requires k <= |run|
  {
    var s := After(c, run, k);
    var when := RetiredWhen(c, run, k, q);
    && (s.myQueue == Some(q) <==> when.None?)
    && (forall i :: 0 <= i < |s.retired| && s.retired[i].queue == q ==> Some(s.retired[i].retireAt) == when)
    && (when.Some? ==> Lapsed(when, Now(run, k)) || exists i :: 0 <= i < |s.retired| && s.retired[i].queue == q)
  }

  /** The current queue and the grace list hold installed queues only, and nothing else was ever replaced. */
  ghost predicate QueuesKnown(c: ContactState, run: seq<Tick>, k: nat)
    requires k <= |run|
  {
    var s := After(c, run, k);
    && s.did == c.did && s.mode == c.mode && s.status == c.status
    && s.myQueue.Some? && s.myQueue.value in Installed(c, run, k)
    && (forall i :: 0 <= i < |s.retired| ==> s.retired[i].queue in Installed(c, run, k))
    && (forall q :: q !in Installed(c, run, k) ==> RetiredWhen(c, run, k, q).None?)
  }

  ghost predicate QueuesOk(c: ContactState, run: seq<Tick>, k: nat)
    requires k <= |run|
  {
    QueuesKnown(c, run, k) && forall q :: q in Installed(c, run, k) ==> QueueOk(c, run, k, q)
  }

  lemma StepKeepsQueuesKnown(c: ContactState, run: seq<Tick>, k: nat)
    requires 0 < k <= |run| && QueuesKnown(c, run, k - 1) && |After(c, run, k - 1).retired| <= 1
    ensures QueuesKnown(c, run, k)
  {
    KeptOfAtMostOne(After(c, run, k - 1).retired, run[k - 1].now);
  }

  lemma StepKeepsQueueOk(c: ContactState, run: seq<Tick>, k: nat, q: Queue)
    requires 0 < k <= |run| && ClockOk(run)
    requires QueuesOk(c, run, k - 1) && RotationOk(After(c, run, k - 1), Now(run, k - 1))
    requires c.status == Active && run[k - 1].queue !in Installed(c, run, k - 1) && q in Installed(c, run, k)
    ensures QueueOk(c, run, k, q)
  {
    var s, tick := After(c, run, k - 1), run[k - 1];
    KeptOfAtMostOne(s.retired, tick.now);
    StepKeepsRotationOk(s, Now(run, k - 1), tick);
    var next := After(c, run, k);
    assert next == MaybeRotated(s, tick.now, tick.queue, tick.pseudonym);
    if q in Installed(c, run, k - 1) {
      assert QueueOk(c, run, k - 1, q);
      if Rotates(s, tick.now) && s.myQueue == Some(q) {
        assert next.retired[0].queue == q;
      }
    }
  }

  lemma StepKeepsQueuesOk(c: ContactState, run: seq<Tick>, k: nat)
    requires 0 < k <= |run| && ClockOk(run) && FreshQueues(c, run)
    requires QueuesOk(c, run, k - 1) && RotationOk(After(c, run, k - 1), Now(run, k - 1)) && c.status == Active
    ensures QueuesOk(c, run, k)
  {
    NewQueueIsNew(c, run, k - 1);
    StepKeepsQueuesKnown(c, run, k);
    hide QueueOk, QueuesKnown, Installed, After, RotationOk, ClockOk, FreshQueues, Now;
    forall q | q in Installed(c, run, k) ensures QueueOk(c, run, k, q) {
      StepKeepsQueueOk(c, run, k, q);
    }
  }

  lemma {:induction false} QueuesStayOk(c: ContactState, run: seq<Tick>, k: nat)
    requires Unrotated(c) && c.status == Active && c.myQueue.Some? && FreshQueues(c, run) && ClockOk(run) && k <= |run|
    ensures QueuesOk(c, run, k)
  {
    if k > 0 {
      hide QueuesOk, After, RotationOk, ClockOk, FreshQueues, Now;
      QueuesStayOk(c, run, k - 1);
      AtMostOneRetired(c, run, k - 1);
      StepKeepsQueuesOk(c, run, k);
    }
  }

  lemma GraceQueuesNext(rs: seq<Retired>, now: int, q: Queue)
    requires rs != []
    ensures q in GraceQueues(rs, now) <==>
            (InGrace(rs[0], now) && rs[0].queue == q) || q in GraceQueues(rs[1..], now)
  {
    var kept, rest := Kept(rs, now), Kept(rs[1..], now);
    if InGrace(rs[0], now) {
      assert QueuesOf(kept) == [rs[0].queue] + QueuesOf(rest);
    } else {
      assert kept == rest;
    }
  }

  lemma {:induction false} GraceQueuesAre(rs: seq<Retired>, now: int, q: Queue)
    ensures q in GraceQueues(rs, now) <==> exists k :: 0 <= k < |rs| && rs[k].queue == q && InGrace(rs[k], now)
  {
    if rs != [] {
      GraceQueuesAre(rs[1..], now, q);
      GraceQueuesNext(rs, now, q);
      if exists k :: 0 <= k < |rs| && rs[k].queue == q && InGrace(rs[k], now) {
        var k :| 0 <= k < |rs| && rs[k].queue == q && InGrace(rs[k], now);
        assert k > 0 ==> rs[1..][k - 1] == rs[k];
      }
      if q in GraceQueues(rs[1..], now) {
        var k :| 0 <= k < |rs[1..]| && rs[1..][k].queue == q && InGrace(rs[1..][k], now);
        assert rs[k + 1] == rs[1..][k];
      }
    }
  }

  /** A queue ever installed is polled from then on until it is replaced and its grace window is over, and no longer. */
  lemma PolledExactly(c: ContactState, run: seq<Tick>, k: nat, q: Queue, myDid: string, at: int)
    requires Unrotated(c) && c.status == Active && c.myQueue.Some? && FreshQueues(c, run) && ClockOk(run)
    requires k <= |run| && Now(run, k) <= at && q in Installed(c, run, k)
    ensures q in TopicsOf(After(c, run, k), myDid, at) <==> !Lapsed(RetiredWhen(c, run, k, q), at)
  {
    QueuesStayOk(c, run, k);
    var s := After(c, run, k);
    assert QueueOk(c, run, k, q);
    InstalledComeFrom(c, run, k, q);
    assert q.Minted?;
    GraceQueuesAre(s.retired, at, q);
    var when := RetiredWhen(c, run, k, q);
    if when.Some? && !Lapsed(when, at) {
      var i :| 0 <= i < |s.retired| && s.retired[i].queue == q;
      assert InGrace(s.retired[i], at);
    }
  }

  lemma StepLeavesInGrace(s: ContactState, tick: Tick, r: Retired)
    requires s.status == Active && s.myQueue.Some?
    requires r in MaybeRotated(s, tick.now, tick.queue, tick.pseudonym).retired
    ensures InGrace(r, tick.now)
  {
    KeptArePart(s.retired, tick.now, r);
    hide Kept, Due;
  }

  lemma RetiredAreInGrace(c: ContactState, run: seq<Tick>, k: nat, r: Retired)
    requires Unrotated(c) && c.status == Active && c.myQueue.Some? && k <= |run| && r in After(c, run, k).retired
    ensures InGrace(r, Now(run, k))
  {
    if k > 0 {
      PseudonymsStay(c, run, k - 1);
      StepLeavesInGrace(After(c, run, k - 1), run[k - 1], r);
    }
    hide MaybeRotated, CameWith;
  }

  lemma {:induction false} ExpiredAre(rs: seq<Retired>, now: int, q: Queue)
    ensures q in Expired(rs, now) <==> exists r :: r in rs && r.queue == q && !InGrace(r, now)
  {
    if rs != [] {
      ExpiredAre(rs[1..], now, q);
      assert rs == [rs[0]] + rs[1..];
      var rest := Expired(rs[1..], now);
      assert InGrace(rs[0], now) ==> Expired(rs, now) == rest;
    }
  }

  /** A queue is reported as expired exactly by the first message after its grace window. */
  lemma ExpiredExactly(c: ContactState, run: seq<Tick>, k: nat, q: Queue)
    requires Unrotated(c) && c.status == Active && c.myQueue.Some? && FreshQueues(c, run) && ClockOk(run)
    requires k < |run| && q in Installed(c, run, k)
    ensures var when := RetiredWhen(c, run, k, q);
            q in Expired(After(c, run, k).retired, run[k].now)
            <==> Lapsed(when, run[k].now) && !Lapsed(when, Now(run, k))
  {
    QueuesStayOk(c, run, k);
    assert QueueOk(c, run, k, q);
    var rs := After(c, run, k).retired;
    ExpiredAre(rs, run[k].now, q);
    forall r | r in rs ensures InGrace(r, Now(run, k)) {
      RetiredAreInGrace(c, run, k, r);
    }
    hide After, RetiredWhen, Expired, FreshQueues, ClockOk;
    if exists i :: 0 <= i < |rs| && rs[i].queue == q {
      var i :| 0 <= i < |rs| && rs[i].queue == q;
      assert rs[i] in rs;
    }
  }

  /** Every topic polled for a contact passes the receiver's ownership check. */
  lemma PolledIsOwned(c: ContactState, myDid: string, now: int, q: Queue)
    requires q in TopicsOf(c, myDid, now)
    ensures Owns(c, q, myDid)
  {
    GraceQueuesAre(c.retired, now, q);
  }

  /**
   Which queues pass the ownership check, in full: of the installed ones those not yet reported as expired, no
   other minted one, and of the pair queues the contact's own in Regular mode.
   */
  lemma OwnedExactly(c: ContactState, run: seq<Tick>, k: nat, q: Queue, myDid: string)
    requires Unrotated(c) && c.status == Active && c.myQueue.Some? && FreshQueues(c, run) && ClockOk(run) && k <= |run|
    ensures Owns(After(c, run, k), q, myDid) <==>
            if q.Pair? then c.mode == Regular && q == Pair(myDid, c.did)
            else q in Installed(c, run, k) && !Lapsed(RetiredWhen(c, run, k, q), Now(run, k))
  {
    QueuesStayOk(c, run, k);
    var s := After(c, run, k);
    forall m | m in Installed(c, run, k) ensures m.Minted? {
      InstalledComeFrom(c, run, k, m);
    }
    if q in Installed(c, run, k) {
      assert QueueOk(c, run, k, q);
      forall r | r in s.retired ensures InGrace(r, Now(run, k)) {
        RetiredAreInGrace(c, run, k, r);
      }
      hide After, Installed, RetiredWhen, FreshQueues, ClockOk;
      if exists i :: 0 <= i < |s.retired| && s.retired[i].queue == q {
        var i :| 0 <= i < |s.retired| && s.retired[i].queue == q;
        assert s.retired[i] in s.retired;
      }
    }
  }

  /**
    * Whether what a peer sends is polled for. `c` is the recipient's record of the sender and `sender` the
    * sender's record of the recipient; `myDid` and `senderDid` are the two profiles' DIDs, which in Anonymous
    * mode are not the ones the records carry. An Anonymous sender uses a queue the recipient once installed.
    */
  lemma SendReachesExactly(c: ContactState, run: seq<Tick>, k: nat, myDid: string, sender: ContactState,
                           senderDid: string, at: int)
    requires Unrotated(c) && c.status == Active && c.myQueue.Some? && FreshQueues(c, run) && ClockOk(run)
    requires k <= |run| && Now(run, k) <= at && myDid != ""
    requires sender.mode == Anonymous ==> sender.theirQueue.Some? && sender.theirQueue.value in Installed(c, run, k)
    ensures SendQueue(sender, senderDid).value in TopicsOf(After(c, run, k), myDid, at) <==>
            if sender.mode == Regular then c.mode == Regular && sender.did == myDid && senderDid == c.did
            else !Lapsed(RetiredWhen(c, run, k, sender.theirQueue.value), at)
  {
    QueuesStayOk(c, run, k);
    var s := After(c, run, k);
    if sender.mode == Regular {
      var q := SendQueue(sender, senderDid).value;
      GraceQueuesAre(s.retired, at, q);
      forall m | m in Installed(c, run, k) ensures m.Minted? {
        InstalledComeFrom(c, run, k, m);
      }
    } else {
      PolledExactly(c, run, k, sender.theirQueue.value, myDid, at);
    }
  }

  /**
    * The mixed pairing, as a handshake sets it up: the Anonymous side's DID is an ephemeral one, the Regular side
    * files it under that and publishes on a pair queue of it, and the Anonymous side polls its minted queue only.
    */
  lemma MixedPairingIsDeaf(hex: string, now: int)
    ensures var recipient := ContactState("did:regular", Anonymous, Active, Some(Minted(hex)), None, None, 0, 0, []);
            var sender := ContactState("did:ephemeral", Regular, Active, None, None, Some(Minted(hex)), 0, 0, []);
            && SendQueue(sender, "did:regular") == Some(Pair("did:ephemeral", "did:regular"))
            && TopicsOf(recipient, "did:profile", now) == [Minted(hex)]
            && Pair("did:ephemeral", "did:regular") !in TopicsOf(recipient, "did:profile", now)
  {
  }
}
