/** The bounded retry queue behind every publish: enqueue, flush with backoff, purge. */
module Outbox {
  import opened Wrappers
  import Frag
  import Positional

  const MAX_ITEMS: nat := 1000
  const ATTEMPTS_MAX: nat := 12
  const BACKOFF_INITIAL_MS: nat := 5_000
  const BACKOFF_CAP_MS: nat := 60 * 60 * 1000
  const I64_MAX: nat := 0x7FFF_FFFF_FFFF_FFFF

  datatype Item = Item(
    id: nat,
    topic: string,
    sender: string,
    ts: int,
    wire: string,
    retries: nat,
    nextAttempt: int,
    boot: seq<string>)

  // ── The network's answers ─────────────────────────────────────────────────

  datatype Field = Text(s: string) | NotText

  /** A publish call fails, or answers with a `broadcast` field at the top, under `data`, or neither. */
  datatype Reply = Refused | Accepted(broadcast: Option<Field>, dataBroadcast: Option<Field>)

  /** One publish attempt: the answer to each fragment's call, and whether the topic has a neighbour afterwards. */
  datatype Attempt = Attempt(fragmentId: string, reply: nat -> Reply, hasPeer: bool)

  predicate SaysLocalOnly(r: Reply)
    requires r.Accepted?
  {
    var field := if r.broadcast.Some? then r.broadcast else r.dataBroadcast;
    field == Some(Text("local_only"))
  }

  predicate Crossed(r: Reply) {
    r.Accepted? && !SaysLocalOnly(r)
  }

  /** Answer by answer: only the text "local_only" counts against a publish, at the top or, with none there, below. */
  lemma CrossedExactly(r: Reply)
    ensures Crossed(r) <==>
            match r
            case Refused => false
            case Accepted(Some(top), _) => top != Text("local_only")
            case Accepted(None, below) => below != Some(Text("local_only"))
  {
  }

  /** Every fragment crossed, and a remote neighbour is there if one is expected. */
  predicate Confirmed(wire: string, boot: seq<string>, a: Attempt) {
    && (forall i :: 0 <= i < |Frag.Fragments(wire, a.fragmentId)| ==> Crossed(a.reply(i)))
    && (ExpectsRemote(boot) ==> a.hasPeer)
  }

  predicate ExpectsRemote(boot: seq<string>) {
    exists i :: 0 <= i < |boot| && boot[i] != ""
  }

  /** Publishes fragment by fragment and gives up at the first that does not cross. */
  method PublishWire(wire: string, a: Attempt) returns (ok: bool, crossed: seq<Frag.Content>)
    ensures crossed <= Frag.Fragments(wire, a.fragmentId)
    ensures forall i :: 0 <= i < |crossed| ==> Crossed(a.reply(i))
    ensures ok <==> crossed == Frag.Fragments(wire, a.fragmentId)
    ensures !ok ==> !Crossed(a.reply(|crossed|))
  {
    var fragments := Frag.SplitWire(wire, a.fragmentId);
    crossed := [];
    for i := 0 to |fragments|
      invariant crossed == fragments[..i]
      invariant forall j :: 0 <= j < i ==> Crossed(a.reply(j))
    {
      if !Crossed(a.reply(i)) {
        return false, crossed;
      }
      crossed := crossed + [fragments[i]];
    }
    ok := true;
  }

  // ── Backoff ───────────────────────────────────────────────────────────────

  function Saturated(v: nat): nat {
    if v <= I64_MAX then v else I64_MAX
  }

  /** With both saturating operations spelled out. */
  function BackoffFor(retries: nat): nat {
    var raw := Saturated(BACKOFF_INITIAL_MS * Saturated(Positional.Pow(2, retries)));
    if raw < BACKOFF_CAP_MS then raw else BACKOFF_CAP_MS
  }

  lemma {:induction false} PowAtLeast(k: nat, r: nat)
    requires k <= r
    ensures Positional.Pow(2, k) <= Positional.Pow(2, r)
    decreases r
  {
    if k < r {
      PowAtLeast(k, r - 1);
    }
  }

  /** Saturation never shows: the delay is the plain capped doubling, and the cap binds from the tenth retry on. */
  lemma BackoffIs(r: nat)
    ensures var raw := BACKOFF_INITIAL_MS * Positional.Pow(2, r);
            BackoffFor(r) == if raw < BACKOFF_CAP_MS then raw else BACKOFF_CAP_MS
    ensures BackoffFor(r) == BACKOFF_CAP_MS <==> r >= 10
  {
    PowersOfTwo();
    if r >= 10 {
      PowAtLeast(10, r);
    } else {
      PowAtLeast(r, 9);
    }
  }

  lemma PowersOfTwo()
    ensures Positional.Pow(2, 3) == 8 && Positional.Pow(2, 6) == 64
    ensures Positional.Pow(2, 9) == 512 && Positional.Pow(2, 10) == 1024
  {
    assert Positional.Pow(2, 3) == 8;
    assert Positional.Pow(2, 6) == 64;
    assert Positional.Pow(2, 9) == 512;
  }

  // ── What the operations compute ───────────────────────────────────────────

  datatype Fate = Waits | Delivered | Expired | Retried

  function FateOf(item: Item, a: Attempt, now: int): Fate {
    if item.nextAttempt > now then Waits
    else if Confirmed(item.wire, item.boot, a) then Delivered
    else if item.retries + 1 >= ATTEMPTS_MAX then Expired
    else Retried
  }

  predicate Stays(f: Fate) {
    f.Waits? || f.Retried?
  }

  function Advanced(item: Item, a: Attempt, now: int): Item {
    if FateOf(item, a, now).Waits? then item
    else item.(retries := item.retries + 1, nextAttempt := now + BackoffFor(item.retries + 1))
  }

  /** The queue after a flush at `now`, where `net` answers the attempt for each position. */
  function Flushed(items: seq<Item>, net: nat -> Attempt, now: int): seq<Item> {
    if items == [] then []
    else
      var last := |items| - 1;
      Flushed(items[..last], net, now)
        + (if Stays(FateOf(items[last], net(last), now)) then [Advanced(items[last], net(last), now)] else [])
  }

  function Enqueued(items: seq<Item>, item: Item): seq<Item> {
    (if |items| >= MAX_ITEMS then items[1..] else items) + [item]
  }

  function Purged(items: seq<Item>, topic: string): seq<Item> {
    if items == [] then []
    else
      var last := |items| - 1;
      Purged(items[..last], topic) + (if items[last].topic != topic then [items[last]] else [])
  }

  function NewItem(id: nat, topic: string, boot: seq<string>, sender: string, wire: string, now: int): Item {
    Item(id, topic, sender, now, wire, 0, now, boot)
  }

  // ── The operations in place ───────────────────────────────────────────────

  /** The stored queue. */
  class Queue {
    var file: seq<Item>

    constructor ()
      ensures file == []
    {
      file := [];
    }

    method Enqueue(id: nat, topic: string, boot: seq<string>, sender: string, wire: string, now: int)
      modifies this
      ensures file == Enqueued(old(file), NewItem(id, topic, boot, sender, wire, now))
    {
      var items := file;
      if |items| >= MAX_ITEMS {
        items := items[1..];
      }
      items := items + [Item(id, topic, sender, now, wire, 0, now, boot)];
      file := items;
    }

    method PublishOrEnqueue(id: nat, topic: string, boot: seq<string>, sender: string, wire: string, now: int,
                            a: Attempt)
      returns (delivered: bool)
      modifies this
      ensures delivered <==> Confirmed(wire, boot, a)
      ensures file == if delivered then old(file)
                      else Enqueued(old(file), NewItem(id, topic, boot, sender, wire, now))
    {
      var sent, crossed := PublishWire(wire, a);
      delivered := sent && (!ExpectsRemote(boot) || a.hasPeer);
      if !delivered {
        Enqueue(id, topic, boot, sender, wire, now);
      }
    }

    /** Rewrites the file only when something changed. */
    method Flush(now: int, net: nat -> Attempt)
      modifies this
      ensures file == Flushed(old(file), net, now)
    {
      var items := file;
      var next := [];
      var changed := false;
      for k := 0 to |items|
        invariant file == old(file) && next == Flushed(items[..k], net, now)
        invariant !changed ==> next == items[..k]
      {
        assert items[..k + 1][..k] == items[..k];
        var item := items[k];
        if item.nextAttempt > now {
          next := next + [item];
          continue;
        }
        var sent, crossed := PublishWire(item.wire, net(k));
        changed := true;
        if sent && (!ExpectsRemote(item.boot) || net(k).hasPeer) {
          continue;
        }
        item := item.(retries := item.retries + 1);
        if item.retries >= ATTEMPTS_MAX {
          continue;
        }
        item := item.(nextAttempt := now + BackoffFor(item.retries));
        next := next + [item];
      }
      assert items[..|items|] == items;
      assert next == Flushed(items, net, now);
      if changed {
        file := next;
      }
    }

    method PurgeTopic(topic: string)
      modifies this
      ensures file == Purged(old(file), topic)
    {
      var items := file;
      var kept := [];
      for k := 0 to |items|
        invariant kept == Purged(items[..k], topic)
      {
        assert items[..k + 1][..k] == items[..k];
        if items[k].topic != topic {
          kept := kept + [items[k]];
        }
      }
      assert items[..|items|] == items;
      file := kept;
    }
  }

  // ── One flush ─────────────────────────────────────────────────────────────

  /** The positions whose item stays. */
  ghost function Survivors(items: seq<Item>, net: nat -> Attempt, now: int): seq<nat> {
    if items == [] then []
    else
      var last := |items| - 1;
      Survivors(items[..last], net, now) + (if Stays(FateOf(items[last], net(last), now)) then [last] else [])
  }

  ghost predicate Increasing(s: seq<nat>, bound: nat) {
    && (forall i, j :: 0 <= i < j < |s| ==> s[i] < s[j])
    && (forall i :: 0 <= i < |s| ==> s[i] < bound)
  }

  /** `next` holds the items that stay, advanced, and `s` their old positions. */
  ghost predicate Tracks(s: seq<nat>, next: seq<Item>, items: seq<Item>, net: nat -> Attempt, now: int) {
    && Increasing(s, |items|) && |s| == |next|
    && (forall k :: 0 <= k < |s| ==> next[k] == Advanced(items[s[k]], net(s[k]), now))
    && (forall p: nat :: p < |items| ==> (p in s <==> Stays(FateOf(items[p], net(p), now))))
  }

  lemma TracksNothing(net: nat -> Attempt, now: int)
    ensures Tracks([], [], [], net, now)
  {
  }

  lemma TracksLeaver(s: seq<nat>, next: seq<Item>, items: seq<Item>, net: nat -> Attempt, now: int)
    requires items != [] && Tracks(s, next, items[..|items| - 1], net, now)
    requires !Stays(FateOf(items[|items| - 1], net(|items| - 1), now))
    ensures Tracks(s, next, items, net, now)
  {
    hide FateOf, Advanced, Stays;
  }

  lemma TracksStayer(s: seq<nat>, next: seq<Item>, items: seq<Item>, net: nat -> Attempt, now: int)
    requires items != [] && Tracks(s, next, items[..|items| - 1], net, now)
    requires Stays(FateOf(items[|items| - 1], net(|items| - 1), now))
    ensures var last := |items| - 1;
            Tracks(s + [last], next + [Advanced(items[last], net(last), now)], items, net, now)
  {
    hide FateOf, Advanced, Stays;
  }

  /** A flush keeps exactly the items that wait or failed short of the limit, in their old order. */
  lemma {:induction false} FlushKeepsOrder(items: seq<Item>, net: nat -> Attempt, now: int)
    ensures Tracks(Survivors(items, net, now), Flushed(items, net, now), items, net, now)
  {
    hide FateOf, Advanced, Stays, Tracks;
    if items == [] {
      TracksNothing(net, now);
    } else {
      var last := |items| - 1;
      FlushKeepsOrder(items[..last], net, now);
      var s, next := Survivors(items[..last], net, now), Flushed(items[..last], net, now);
      if Stays(FateOf(items[last], net(last), now)) {
        TracksStayer(s, next, items, net, now);
      } else {
        assert Flushed(items, net, now) == next && Survivors(items, net, now) == s;
        TracksLeaver(s, next, items, net, now);
      }
    }
  }

  /** The same message, whatever its retries. */
  ghost predicate SameMessage(x: Item, y: Item) {
    x.id == y.id && x.topic == y.topic && x.sender == y.sender && x.ts == y.ts && x.wire == y.wire && x.boot == y.boot
  }

  /** The attempt carried every fragment across, and there is a neighbour if one was named. */
  ghost predicate Reached(x: Item, a: Attempt) {
    && (forall i :: 0 <= i < |Frag.Fragments(x.wire, a.fragmentId)| ==> Crossed(a.reply(i)))
    && ((forall i :: 0 <= i < |x.boot| ==> x.boot[i] == "") || a.hasPeer)
  }

  ghost function Doubled(retries: nat): nat {
    var raw := 5_000 * Positional.Pow(2, retries);
    if raw < 3_600_000 then raw else 3_600_000
  }

  /** What becomes of item `x` in a flush, if it stays. */
  ghost predicate Carried(x: Item, y: Item, now: int) {
    && SameMessage(x, y)
    && (x.nextAttempt > now ==> y == x)
    && (x.nextAttempt <= now ==> y.retries == x.retries + 1 && y.nextAttempt == now + Doubled(x.retries + 1))
  }

  lemma AdvancedIsCarried(x: Item, a: Attempt, now: int)
    ensures Carried(x, Advanced(x, a, now), now)
    ensures Stays(FateOf(x, a, now)) <==> x.nextAttempt > now || (!Reached(x, a) && x.retries + 1 < 12)
  {
    BackoffIs(x.retries + 1);
    hide BackoffFor, Crossed;
  }

  /** A due item is dropped as delivered iff the attempt reached the peer, and given up on at its twelfth failure. */
  lemma FateExactly(x: Item, a: Attempt, now: int)
    ensures FateOf(x, a, now).Delivered? <==> x.nextAttempt <= now && Reached(x, a)
    ensures FateOf(x, a, now).Expired? <==> x.nextAttempt <= now && !Reached(x, a) && x.retries + 1 >= 12
  {
    hide Crossed;
  }

  /**
   A flush, position by position: an item stays iff it is not due, or was not delivered and has failed fewer than
   twelve times; it stays in its place among the others, with its contents, and waits twice as long as before.
   */
  lemma FlushedExactly(items: seq<Item>, net: nat -> Attempt, now: int)
    ensures var s, next := Survivors(items, net, now), Flushed(items, net, now);
            && Increasing(s, |items|) && |s| == |next|
            && (forall k :: 0 <= k < |s| ==> Carried(items[s[k]], next[k], now))
            && (forall p: nat :: p < |items| ==>
                  (p in s <==> items[p].nextAttempt > now || (!Reached(items[p], net(p)) && items[p].retries + 1 < 12)))
  {
    FlushKeepsOrder(items, net, now);
    var s, next := Survivors(items, net, now), Flushed(items, net, now);
    hide FateOf, Advanced, Stays, Survivors, Flushed, Carried, Reached, Increasing;
    SurvivorsWithin(s, items);
    forall k | 0 <= k < |s| ensures Carried(items[s[k]], next[k], now) {
      AdvancedIsCarried(items[s[k]], net(s[k]), now);
    }
    forall p: nat | p < |items|
      ensures p in s <==> items[p].nextAttempt > now || (!Reached(items[p], net(p)) && items[p].retries + 1 < 12)
    {
      AdvancedIsCarried(items[p], net(p), now);
    }
  }

  lemma SurvivorsWithin(s: seq<nat>, items: seq<Item>)
    requires Increasing(s, |items|)
    ensures forall k :: 0 <= k < |s| ==> s[k] < |items|
  {
  }

  ghost function Work(item: Item): nat {
    if item.retries < ATTEMPTS_MAX then ATTEMPTS_MAX - item.retries else 0
  }

  /** The attempts the queue can still cost. */
  ghost function Budget(items: seq<Item>): nat {
    if items == [] then 0 else Budget(items[..|items| - 1]) + Work(items[|items| - 1])
  }

  ghost function DueCount(items: seq<Item>, now: int): nat {
    if items == [] then 0
    else DueCount(items[..|items| - 1], now) + (if items[|items| - 1].nextAttempt <= now then 1 else 0)
  }

  lemma BudgetSnoc(items: seq<Item>, x: Item)
    ensures Budget(items + [x]) == Budget(items) + Work(x)
  {
    assert (items + [x])[..|items|] == items;
  }

  /** Whatever the network answers, each due item costs the budget at least one attempt. */
  lemma {:induction false} FlushSpends(items: seq<Item>, net: nat -> Attempt, now: int)
    requires forall i :: 0 <= i < |items| ==> items[i].retries < ATTEMPTS_MAX
    ensures Budget(Flushed(items, net, now)) + DueCount(items, now) <= Budget(items)
  {
    if items != [] {
      var last := |items| - 1;
      FlushSpends(items[..last], net, now);
      if Stays(FateOf(items[last], net(last), now)) {
        BudgetSnoc(Flushed(items[..last], net, now), Advanced(items[last], net(last), now));
      } else {
        assert Flushed(items, net, now) == Flushed(items[..last], net, now);
      }
    }
  }

  /** Purging matches whole topics only: nothing under `topic/` leaves, whatever the comment on it says. */
  lemma {:induction false} PurgeIsExact(items: seq<Item>, topic: string, x: Item)
    ensures x in Purged(items, topic) <==> x in items && x.topic != topic
  {
    if items != [] {
      var last := |items| - 1;
      PurgeIsExact(items[..last], topic, x);
      assert items == items[..last] + [items[last]];
    }
  }

  // ── Runs ──────────────────────────────────────────────────────────────────

  /** An unconfirmed publish, a flush, or a purge; a confirmed publish leaves the queue alone. */
  datatype Event =
    | Put(id: nat, topic: string, boot: seq<string>, sender: string, wire: string, now: int)
    | Flush(now: int, net: nat -> Attempt)
    | Purge(topic: string)

  ghost function Step(items: seq<Item>, e: Event): seq<Item> {
    match e
    case Put(id, topic, boot, sender, wire, now) => Enqueued(items, NewItem(id, topic, boot, sender, wire, now))
    case Flush(now, net) => Flushed(items, net, now)
    case Purge(topic) => Purged(items, topic)
  }

  ghost function After(run: seq<Event>, k: nat): seq<Item>
    requires k <= |run|
  {
    if k == 0 then [] else Step(After(run, k - 1), run[k - 1])
  }

  /** The least time that `r` failed attempts take. */
  ghost function Elapsed(r: nat): nat {
    if r == 0 then 0 else Elapsed(r - 1) + BackoffFor(r)
  }

  ghost predicate ItemOk(x: Item) {
    x.retries < ATTEMPTS_MAX && x.nextAttempt >= x.ts + Elapsed(x.retries)
  }

  ghost predicate QueueOk(items: seq<Item>) {
    |items| <= MAX_ITEMS && forall i :: 0 <= i < |items| ==> ItemOk(items[i])
  }

  lemma RetryKeepsItemOk(x: Item, a: Attempt, now: int)
    requires ItemOk(x) && Stays(FateOf(x, a, now))
    ensures ItemOk(Advanced(x, a, now))
  {
    hide Confirmed, BackoffFor;
  }

  lemma FlushKeepsQueueOk(items: seq<Item>, net: nat -> Attempt, now: int)
    requires QueueOk(items)
    ensures QueueOk(Flushed(items, net, now))
  {
    FlushKeepsOrder(items, net, now);
    var s, next := Survivors(items, net, now), Flushed(items, net, now);
    SurvivorsFit(s, |items|);
    hide ItemOk, FateOf, Advanced, Stays, Survivors, Flushed;
    forall k | 0 <= k < |next| ensures ItemOk(next[k]) {
      assert s[k] in s;
      RetryKeepsItemOk(items[s[k]], net(s[k]), now);
    }
  }

  lemma StepKeepsQueueOk(items: seq<Item>, e: Event)
    requires QueueOk(items)
    ensures QueueOk(Step(items, e))
  {
    hide Flushed;
    match e
    case Put(_, _, _, _, _, _) =>
    case Flush(now, net) => FlushKeepsQueueOk(items, net, now);
    case Purge(topic) =>
      PurgeShrinks(items, topic);
      forall i | 0 <= i < |Purged(items, topic)| ensures ItemOk(Purged(items, topic)[i]) {
        PurgeIsExact(items, topic, Purged(items, topic)[i]);
      }
  }

  lemma {:induction false} SurvivorsFit(s: seq<nat>, n: nat)
    requires Increasing(s, n)
    ensures |s| <= n
    decreases n
  {
    if s != [] {
      SurvivorsFit(s[..|s| - 1], s[|s| - 1]);
    }
  }

  lemma {:induction false} PurgeShrinks(items: seq<Item>, topic: string)
    ensures |Purged(items, topic)| <= |items|
  {
    if items != [] {
      PurgeShrinks(items[..|items| - 1], topic);
    }
  }

  /** At most a thousand items, each below its twelfth attempt and no earlier than its backoff allows. */
  lemma {:induction false} RunKeepsQueueOk(run: seq<Event>, k: nat)
    requires k <= |run|
    ensures QueueOk(After(run, k))
  {
    if k > 0 {
      RunKeepsQueueOk(run, k - 1);
      StepKeepsQueueOk(After(run, k - 1), run[k - 1]);
    }
  }

  /** Positions in a run, with the message each puts on the queue. */
  ghost predicate PutAs(run: seq<Event>, j: nat, x: Item)
    requires j < |run|
  {
    && run[j].Put? && x.id == run[j].id && x.topic == run[j].topic && x.boot == run[j].boot
    && x.sender == run[j].sender && x.wire == run[j].wire && x.ts == run[j].now
    && (x.retries == 0 ==> x.nextAttempt == run[j].now)
  }

  ghost predicate CameFrom(items: seq<Item>, run: seq<Event>, js: seq<nat>, k: nat)
    requires k <= |run|
  {
    Increasing(js, k) && |js| == |items| && forall i :: 0 <= i < |js| ==> PutAs(run, js[i], items[i])
  }

  ghost function Picked(js: seq<nat>, s: seq<nat>): seq<nat>
    requires forall i :: 0 <= i < |s| ==> s[i] < |js|
  {
    seq(|s|, i requires 0 <= i < |s| => js[s[i]])
  }

  /** A queue with some items gone and the others still the same messages has the same origins. */
  lemma ThinnedCameFrom(items: seq<Item>, next: seq<Item>, run: seq<Event>, js: seq<nat>, k: nat, s: seq<nat>)
    requires 0 < k <= |run| && CameFrom(items, run, js, k - 1)
    requires Increasing(s, |items|) && |s| == |next|
    requires forall i :: 0 <= i < |s| ==> SameMessage(items[s[i]], next[i])
    requires forall i :: 0 <= i < |s| ==> next[i].retries == 0 ==> items[s[i]] == next[i]
    ensures CameFrom(next, run, Picked(js, s), k)
  {
    forall i | 0 <= i < |s| ensures PutAs(run, js[s[i]], next[i]) {
      assert PutAs(run, js[s[i]], items[s[i]]);
    }
  }

  lemma {:induction false} PurgedPositions(items: seq<Item>, topic: string) returns (s: seq<nat>)
    ensures Increasing(s, |items|) && |s| == |Purged(items, topic)|
    ensures forall i :: 0 <= i < |s| ==> Purged(items, topic)[i] == items[s[i]]
  {
    s := [];
    if items != [] {
      var last := |items| - 1;
      s := PurgedPositions(items[..last], topic);
      if items[last].topic != topic {
        s := s + [last];
      }
    }
  }

  lemma PutCameFrom(items: seq<Item>, run: seq<Event>, js: seq<nat>, k: nat) returns (js': seq<nat>)
    requires 0 < k <= |run| && CameFrom(items, run, js, k - 1) && run[k - 1].Put?
    ensures CameFrom(Step(items, run[k - 1]), run, js', k)
  {
    js' := (if |items| >= MAX_ITEMS then js[1..] else js) + [k - 1];
  }

  /**
   The queue is at all times made of messages that were put on it, in the order they were put and with the
   contents they had; only the count of attempts and the time of the next one differ.
   */
  lemma {:induction false} QueueIsWhatWasPut(run: seq<Event>, k: nat) returns (js: seq<nat>)
    requires k <= |run|
    ensures CameFrom(After(run, k), run, js, k)
  {
    js := [];
    if k > 0 {
      js := QueueIsWhatWasPut(run, k - 1);
      var items := After(run, k - 1);
      hide CameFrom, Flushed, Purged, Enqueued, Survivors, Carried;
      match run[k - 1]
      case Put(_, _, _, _, _, _) => js := PutCameFrom(items, run, js, k);
      case Flush(now, net) => js := FlushCameFrom(items, run, js, k);
      case Purge(topic) => js := PurgeCameFrom(items, run, js, k);
    }
  }

  lemma FlushCameFrom(items: seq<Item>, run: seq<Event>, js: seq<nat>, k: nat) returns (js': seq<nat>)
    requires 0 < k <= |run| && CameFrom(items, run, js, k - 1) && run[k - 1].Flush?
    ensures CameFrom(Step(items, run[k - 1]), run, js', k)
  {
    var net, now := run[k - 1].net, run[k - 1].now;
    FlushedExactly(items, net, now);
    hide Flushed, Survivors, Reached, Doubled, PutAs;
    var s := Survivors(items, net, now);
    ThinnedCameFrom(items, Flushed(items, net, now), run, js, k, s);
    js' := Picked(js, s);
  }

  lemma PurgeCameFrom(items: seq<Item>, run: seq<Event>, js: seq<nat>, k: nat) returns (js': seq<nat>)
    requires 0 < k <= |run| && CameFrom(items, run, js, k - 1) && run[k - 1].Purge?
    ensures CameFrom(Step(items, run[k - 1]), run, js', k)
  {
    hide Purged, PutAs;
    var s := PurgedPositions(items, run[k - 1].topic);
    ThinnedCameFrom(items, Purged(items, run[k - 1].topic), run, js, k, s);
    js' := Picked(js, s);
  }

  lemma ElapsedAtLast()
    ensures Elapsed(11) == 12_310_000
  {
    PowersOfTwo();
    assert Elapsed(3) == 5_000 * 14;
    assert Elapsed(6) == 5_000 * 126;
    assert Elapsed(9) == 5_000 * 1022;
    BackoffIs(10);
    BackoffIs(11);
  }

  /** No message is given up on before its twelfth attempt, nor within 12 310 seconds of the first. */
  lemma ExpiryIsPatient(run: seq<Event>, k: nat, p: nat)
    requires k < |run| && run[k].Flush? && p < |After(run, k)|
    requires FateOf(After(run, k)[p], run[k].net(p), run[k].now).Expired?
    ensures After(run, k)[p].retries == ATTEMPTS_MAX - 1
    ensures run[k].now - After(run, k)[p].ts >= 12_310_000
  {
    RunKeepsQueueOk(run, k);
    ElapsedAtLast();
  }

  /** Flushes that find something due empty the queue within its budget, which is at most 12 000. */
  lemma {:induction false} FlushesDrain(run: seq<Event>, from: nat, k: nat)
    requires from <= k <= |run|
    requires forall j :: from <= j < k ==> run[j].Flush? && DueCount(After(run, j), run[j].now) > 0
    ensures Budget(After(run, k)) + (k - from) <= Budget(After(run, from)) <= ATTEMPTS_MAX * MAX_ITEMS
    decreases k
  {
    RunKeepsQueueOk(run, from);
    BudgetBound(After(run, from));
    if k > from {
      FlushesDrain(run, from, k - 1);
      RunKeepsQueueOk(run, k - 1);
      hide Budget, Flushed, DueCount, Enqueued, Purged;
      FlushSpends(After(run, k - 1), run[k - 1].net, run[k - 1].now);
    }
  }

  lemma {:induction false} BudgetBound(items: seq<Item>)
    ensures Budget(items) <= ATTEMPTS_MAX * |items|
  {
    if items != [] {
      BudgetBound(items[..|items| - 1]);
    }
  }

  // ── Where every message goes ──────────────────────────────────────────────

  ghost function Ids(items: seq<Item>): multiset<nat> {
    if items == [] then multiset{} else Ids(items[..|items| - 1]) + multiset{items[|items| - 1].id}
  }

  ghost function Fated(items: seq<Item>, net: nat -> Attempt, now: int, f: Fate): multiset<nat> {
    if items == [] then multiset{}
    else
      var last := |items| - 1;
      Fated(items[..last], net, now, f)
        + (if FateOf(items[last], net(last), now) == f then multiset{items[last].id} else multiset{})
  }

  ghost function PurgedIds(items: seq<Item>, topic: string): multiset<nat> {
    if items == [] then multiset{}
    else
      var last := |items| - 1;
      PurgedIds(items[..last], topic) + (if items[last].topic == topic then multiset{items[last].id} else multiset{})
  }

  datatype Ledger = Ledger(
    put: multiset<nat>,
    delivered: multiset<nat>,
    expired: multiset<nat>,
    evicted: multiset<nat>,
    purged: multiset<nat>)

  ghost function Booked(l: Ledger, items: seq<Item>, e: Event): Ledger {
    match e
    case Put(id, _, _, _, _, _) =>
      l.(put := l.put + multiset{id},
         evicted := l.evicted + if |items| >= MAX_ITEMS then multiset{items[0].id} else multiset{})
    case Flush(now, net) =>
      l.(delivered := l.delivered + Fated(items, net, now, Delivered),
         expired := l.expired + Fated(items, net, now, Expired))
    case Purge(topic) => l.(purged := l.purged + PurgedIds(items, topic))
  }

  ghost function LedgerAfter(run: seq<Event>, k: nat): Ledger
    requires k <= |run|
  {
    if k == 0 then Ledger(multiset{}, multiset{}, multiset{}, multiset{}, multiset{})
    else Booked(LedgerAfter(run, k - 1), After(run, k - 1), run[k - 1])
  }

  lemma IdsSnoc(items: seq<Item>, x: Item)
    ensures Ids(items + [x]) == Ids(items) + multiset{x.id}
  {
    assert (items + [x])[..|items|] == items;
  }

  lemma {:induction false} IdsCons(items: seq<Item>)
    requires items != []
    ensures Ids(items) == multiset{items[0].id} + Ids(items[1..])
  {
    var last := |items| - 1;
    if last > 0 {
      IdsCons(items[..last]);
      assert items[..last][1..] == items[1..][..last - 1];
    }
  }

  lemma LastFateBalances(kept: seq<Item>, x: Item, f: Fate, rest: multiset<nat>, a: multiset<nat>, b: multiset<nat>)
    requires rest == Ids(kept) + a + b
    ensures rest + multiset{x.id} ==
            Ids(kept + (if Stays(f) then [x] else []))
              + (a + if f.Delivered? then multiset{x.id} else multiset{})
              + (b + if f.Expired? then multiset{x.id} else multiset{})
  {
    if Stays(f) {
      IdsSnoc(kept, x);
    } else {
      assert kept + [] == kept;
    }
  }

  lemma {:induction false} FlushConserves(items: seq<Item>, net: nat -> Attempt, now: int)
    ensures Ids(items) ==
            Ids(Flushed(items, net, now)) + Fated(items, net, now, Delivered) + Fated(items, net, now, Expired)
  {
    if items != [] {
      var last := |items| - 1;
      FlushConserves(items[..last], net, now);
      var f, x := FateOf(items[last], net(last), now), Advanced(items[last], net(last), now);
      hide FateOf, Advanced;
      LastFateBalances(Flushed(items[..last], net, now), x, f, Ids(items[..last]),
                       Fated(items[..last], net, now, Delivered), Fated(items[..last], net, now, Expired));
    }
  }

  lemma {:induction false} PurgeConserves(items: seq<Item>, topic: string)
    ensures Ids(items) == Ids(Purged(items, topic)) + PurgedIds(items, topic)
  {
    if items != [] {
      var last := |items| - 1;
      PurgeConserves(items[..last], topic);
      if items[last].topic != topic {
        IdsSnoc(Purged(items[..last], topic), items[last]);
      } else {
        assert Purged(items, topic) == Purged(items[..last], topic);
      }
    }
  }

  ghost predicate Balanced(l: Ledger, items: seq<Item>) {
    l.put == Ids(items) + l.delivered + l.expired + l.evicted + l.purged
  }

  lemma StepConserves(l: Ledger, items: seq<Item>, e: Event)
    requires Balanced(l, items)
    ensures Balanced(Booked(l, items, e), Step(items, e))
  {
    hide Ids, Flushed, Purged, Fated, PurgedIds;
    match e
    case Put(id, topic, boot, sender, wire, now) =>
      var item := NewItem(id, topic, boot, sender, wire, now);
      if |items| >= MAX_ITEMS {
        IdsCons(items);
        IdsSnoc(items[1..], item);
      } else {
        IdsSnoc(items, item);
      }
    case Flush(now, net) => FlushConserves(items, net, now);
    case Purge(topic) => PurgeConserves(items, topic);
  }

  /** Every message put on the queue is there, delivered, given up on, pushed out or purged; exactly one of these. */
  lemma {:induction false} RunConserves(run: seq<Event>, k: nat)
    requires k <= |run|
    ensures Balanced(LedgerAfter(run, k), After(run, k))
  {
    if k > 0 {
      RunConserves(run, k - 1);
      StepConserves(LedgerAfter(run, k - 1), After(run, k - 1), run[k - 1]);
    }
  }
}
