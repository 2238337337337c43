/** The peer provider's durable broker: a log per topic and a cursor per consumer, saved to disk. */
module Broker {
  import opened Wrappers

  const DEFAULT_LIMIT: nat := 64

  datatype Msg = Msg(seqNo: nat, content: string, sender: string, ts: int, signature: string)

  datatype Topic = Topic(log: seq<Msg>, cursors: map<string, nat>)

  datatype State = State(topics: map<string, Topic>, nextSeq: nat)

  const EMPTY: State := State(map[], 0)

  function Entry(b: State, topic: string): Topic {
    if topic in b.topics then b.topics[topic] else Topic([], map[])
  }

  function Log(b: State, topic: string): seq<Msg> {
    Entry(b, topic).log
  }

  function Cursor(b: State, topic: string, consumer: string): nat {
    var t := Entry(b, topic);
    if consumer in t.cursors then t.cursors[consumer] else 0
  }

  // ── What the operations compute ───────────────────────────────────────────

  function Appended(b: State, topic: string, content: string, sender: string, ts: int, signature: string): State {
    var t := Entry(b, topic);
    State(b.topics[topic := t.(log := t.log + [Msg(b.nextSeq, content, sender, ts, signature)])], b.nextSeq + 1)
  }

  predicate Skipped(m: Msg, skip: Option<string>) {
    skip == Some(m.sender)
  }

  /** The messages a consumer with this filter sees. */
  function Visible(log: seq<Msg>, skip: Option<string>): seq<Msg> {
    if log == [] then []
    else
      var last := |log| - 1;
      Visible(log[..last], skip) + (if Skipped(log[last], skip) then [] else [log[last]])
  }

  /** A batch runs from the cursor to the first place where it is full, or to the end of the log. */
  predicate IsBatch(log: seq<Msg>, from: nat, limit: nat, skip: Option<string>, end: nat, out: seq<Msg>) {
    && from <= end <= |log|
    && out == Visible(log[from..end], skip)
    && |out| <= limit
    && (end == |log| || |out| == limit)
    && (from < end && |out| == limit ==> !Skipped(log[end - 1], skip))
  }

  /** Where the batch ends, having `got` messages and standing at `idx`. */
  function BatchEnd(log: seq<Msg>, idx: nat, got: nat, limit: nat, skip: Option<string>): (end: nat)
    ensures idx <= end && (idx <= |log| ==> end <= |log|)
    decreases |log| - idx
  {
    if idx < |log| && got < limit
    then BatchEnd(log, idx + 1, if Skipped(log[idx], skip) then got else got + 1, limit, skip)
    else idx
  }

  function Drained(b: State, topic: string, limit: nat, consumer: string, skip: Option<string>): State {
    var t := Entry(b, topic);
    var end := BatchEnd(t.log, Cursor(b, topic, consumer), 0, limit, skip);
    b.(topics := b.topics[topic := t.(cursors := t.cursors[consumer := end])])
  }

  function Batch(b: State, topic: string, limit: nat, consumer: string, skip: Option<string>): seq<Msg> {
    var log, from := Log(b, topic), Cursor(b, topic, consumer);
    var end := BatchEnd(log, from, 0, limit, skip);
    if from <= end <= |log| then Visible(log[from..end], skip) else []
  }

  lemma VisibleSnoc(log: seq<Msg>, m: Msg, skip: Option<string>)
    ensures Visible(log + [m], skip) == Visible(log, skip) + if Skipped(m, skip) then [] else [m]
  {
    assert (log + [m])[..|log|] == log;
  }

  lemma {:induction false} VisibleConcat(a: seq<Msg>, b: seq<Msg>, skip: Option<string>)
    ensures Visible(a + b, skip) == Visible(a, skip) + Visible(b, skip)
    decreases |b|
  {
    if b == [] {
      assert a + b == a;
    } else {
      var last := |b| - 1;
      VisibleConcat(a, b[..last], skip);
      assert (a + b)[..|a + b| - 1] == a + b[..last];
    }
  }

  lemma VisibleNext(log: seq<Msg>, from: nat, idx: nat, skip: Option<string>)
    requires from <= idx < |log|
    ensures Visible(log[from..idx + 1], skip)
            == Visible(log[from..idx], skip) + if Skipped(log[idx], skip) then [] else [log[idx]]
  {
    assert log[from..idx + 1] == log[from..idx] + [log[idx]];
    VisibleSnoc(log[from..idx], log[idx], skip);
  }

  /** Scanning on from `idx` ends where the batch is full or the log is over. */
  lemma {:induction false} BatchEndIs(log: seq<Msg>, from: nat, idx: nat, limit: nat, skip: Option<string>)
    requires from <= idx <= |log| && |Visible(log[from..idx], skip)| <= limit
    requires from < idx && |Visible(log[from..idx], skip)| == limit ==> !Skipped(log[idx - 1], skip)
    ensures var end := BatchEnd(log, idx, |Visible(log[from..idx], skip)|, limit, skip);
            end >= idx && IsBatch(log, from, limit, skip, end, Visible(log[from..end], skip))
    decreases |log| - idx
  {
    if idx < |log| && |Visible(log[from..idx], skip)| < limit {
      VisibleNext(log, from, idx, skip);
      BatchEndIs(log, from, idx + 1, limit, skip);
    }
  }

  lemma DrainGivesBatch(b: State, topic: string, limit: nat, consumer: string, skip: Option<string>)
    requires Cursor(b, topic, consumer) <= |Log(b, topic)|
    ensures var next := Drained(b, topic, limit, consumer, skip);
            && Log(next, topic) == Log(b, topic)
            && IsBatch(Log(b, topic), Cursor(b, topic, consumer), limit, skip,
                       Cursor(next, topic, consumer), Batch(b, topic, limit, consumer, skip))
  {
    var log, from := Log(b, topic), Cursor(b, topic, consumer);
    assert Visible(log[from..from], skip) == [];
    BatchEndIs(log, from, from, limit, skip);
  }

  // ── The operations in place ───────────────────────────────────────────────

  class Broker {
    var topics: map<string, Topic>
    var nextSeq: nat
    var saved: State

    function Now(): State
      reads this
    {
      State(topics, nextSeq)
    }

    constructor ()
      ensures Now() == EMPTY && saved == EMPTY
    {
      topics, nextSeq, saved := map[], 0, EMPTY;
    }

    method Append(topic: string, content: string, sender: string, ts: int, signature: string) returns (seqNo: nat)
      modifies this`topics, this`nextSeq
      ensures seqNo == old(nextSeq)
      ensures Now() == Appended(old(Now()), topic, content, sender, ts, signature)
    {
      seqNo := nextSeq;
      nextSeq := nextSeq + 1;
      var t := if topic in topics then topics[topic] else Topic([], map[]);
      topics := topics[topic := t.(log := t.log + [Msg(seqNo, content, sender, ts, signature)])];
    }

    static method ReadBatch(log: seq<Msg>, from: nat, limit: nat, skip: Option<string>)
      returns (idx: nat, out: seq<Msg>)
      requires from <= |log|
      ensures idx == BatchEnd(log, from, 0, limit, skip)
      ensures out == Visible(log[from..idx], skip)
    {
      idx := from;
      out := [];
      assert Visible(log[from..from], skip) == [];
      hide Visible, IsBatch;
      while idx < |log| && |out| < limit
        invariant from <= idx <= |log|
        invariant out == Visible(log[from..idx], skip)
        invariant BatchEnd(log, idx, |out|, limit, skip) == BatchEnd(log, from, 0, limit, skip)
      {
        var m := log[idx];
        VisibleNext(log, from, idx, skip);
        idx := idx + 1;
        if skip == Some(m.sender) {
          continue;
        }
        out := out + [m];
      }
    }

    method Drain(topic: string, limit: nat, consumer: string, skip: Option<string>) returns (out: seq<Msg>)
      requires Cursor(Now(), topic, consumer) <= |Log(Now(), topic)|
      modifies this`topics
      ensures Now() == Drained(old(Now()), topic, limit, consumer, skip)
      ensures out == Batch(old(Now()), topic, limit, consumer, skip)
    {
      hide Visible, BatchEnd;
      var t := if topic in topics then topics[topic] else Topic([], map[]);
      var idx := if consumer in t.cursors then t.cursors[consumer] else 0;
      idx, out := ReadBatch(t.log, idx, limit, skip);
      topics := topics[topic := t.(cursors := t.cursors[consumer := idx])];
    }

    /** Also what arrives from a remote peer: append, then save. */
    method GossipSend(topic: string, content: string, sender: string, ts: int, signature: string)
      returns (r: Result<nat, string>)
      modifies this
      ensures r.Ok? <==> topic != ""
      ensures r.Ok? ==> r.value == old(nextSeq)
      ensures World(Now(), saved) == Step(old(World(Now(), saved)), Send(topic, content, sender, ts, signature))
    {
      if topic == "" {
        return Err("gossip_send: missing topic");
      }
      var seqNo := Append(topic, content, sender, ts, signature);
      saved := Now();
      r := Ok(seqNo);
    }

    /** Saves only when something was handed out. */
    method GossipRecv(topic: string, limit: Option<nat>, consumer: string, skip: Option<string>)
      returns (r: Result<seq<Msg>, string>)
      requires Cursor(Now(), topic, consumer) <= |Log(Now(), topic)|
      modifies this
      ensures r.Ok? <==> topic != "" && consumer != ""
      ensures r.Ok? ==> r.value == HandedOut(old(World(Now(), saved)), Recv(topic, limit, consumer, skip))
      ensures World(Now(), saved) == Step(old(World(Now(), saved)), Recv(topic, limit, consumer, skip))
    {
      if topic == "" {
        return Err("gossip_recv: missing topic");
      }
      var n := Limit(limit);
      if consumer == "" {
        return Err("gossip_recv: missing consumer_id");
      }
      var messages := Drain(topic, n, consumer, skip);
      if messages != [] {
        saved := Now();
      }
      r := Ok(messages);
    }

    method Reload()
      modifies this
      ensures World(Now(), saved) == Step(old(World(Now(), saved)), Restart)
    {
      topics, nextSeq := saved.topics, saved.nextSeq;
    }
  }

  function Limit(limit: Option<nat>): (n: nat)
    ensures n >= 1
  {
    var n := if limit.Some? then limit.value else DEFAULT_LIMIT;
    if n >= 1 then n else 1
  }

  // ── Runs ──────────────────────────────────────────────────────────────────

  /** The broker in memory and its last saved copy. */
  datatype World = World(live: State, disk: State)

  datatype Op =
    | Send(topic: string, content: string, sender: string, ts: int, signature: string)
    | Recv(topic: string, limit: Option<nat>, consumer: string, skip: Option<string>)
    | Restart

  function Step(w: World, op: Op): World {
    match op
    case Send(topic, content, sender, ts, signature) =>
      if topic == "" then w
      else
        var b := Appended(w.live, topic, content, sender, ts, signature);
        World(b, b)
    case Recv(topic, limit, consumer, skip) =>
      if topic == "" || consumer == "" then w
      else
        var b := Drained(w.live, topic, Limit(limit), consumer, skip);
        World(b, if Batch(w.live, topic, Limit(limit), consumer, skip) != [] then b else w.disk)
    case Restart => World(w.disk, w.disk)
  }

  function HandedOut(w: World, op: Op): seq<Msg> {
    match op
    case Recv(topic, limit, consumer, skip) =>
      if topic == "" || consumer == "" then [] else Batch(w.live, topic, Limit(limit), consumer, skip)
    case _ => []
  }

  ghost function After(run: seq<Op>, k: nat): World
    requires k <= |run|
  {
    if k == 0 then World(EMPTY, EMPTY) else Step(After(run, k - 1), run[k - 1])
  }

  /** All that a consumer of a topic has been handed, batch after batch, restarts included. */
  ghost function Delivered(run: seq<Op>, k: nat, topic: string, consumer: string): seq<Msg>
    requires k <= |run|
  {
    if k == 0 then []
    else
      var op := run[k - 1];
      Delivered(run, k - 1, topic, consumer)
        + if op.Recv? && op.topic == topic && op.consumer == consumer then HandedOut(After(run, k - 1), op) else []
  }

  /** Every message ever sent to a topic, in order, numbered as it was appended. */
  ghost function Sent(run: seq<Op>, k: nat, topic: string): seq<Msg>
    requires k <= |run|
  {
    if k == 0 then []
    else if run[k - 1].Send? && run[k - 1].topic == topic && topic != ""
    then
      var op := run[k - 1];
      Sent(run, k - 1, topic) + [Msg(Sends(run, k - 1), op.content, op.sender, op.ts, op.signature)]
    else Sent(run, k - 1, topic)
  }

  ghost function Sends(run: seq<Op>, k: nat): nat
    requires k <= |run|
  {
    if k == 0 then 0 else Sends(run, k - 1) + if run[k - 1].Send? && run[k - 1].topic != "" then 1 else 0
  }

  /** Memory and disk hold the same logs, and every cursor lies within its log. */
  ghost predicate LogsOk(run: seq<Op>, k: nat, topic: string, consumer: string)
    requires k <= |run|
  {
    var w := After(run, k);
    && w.live.nextSeq == w.disk.nextSeq == Sends(run, k)
    && Log(w.live, topic) == Log(w.disk, topic) == Sent(run, k, topic)
    && Cursor(w.disk, topic, consumer) <= |Log(w.live, topic)|
    && Cursor(w.live, topic, consumer) <= |Log(w.live, topic)|
  }

  lemma AppendFrame(b: State, t: string, content: string, sender: string, ts: int, signature: string, topic: string,
                    consumer: string)
    ensures var next := Appended(b, t, content, sender, ts, signature);
            && Log(next, topic) == Log(b, topic)
                 + (if t == topic then [Msg(b.nextSeq, content, sender, ts, signature)] else [])
            && Cursor(next, topic, consumer) == Cursor(b, topic, consumer)
            && next.nextSeq == b.nextSeq + 1
  {
  }

  lemma DrainFrame(b: State, t: string, limit: nat, c: string, skip: Option<string>, topic: string, consumer: string)
    ensures var next := Drained(b, t, limit, c, skip);
            && Log(next, topic) == Log(b, topic)
            && (t != topic || c != consumer ==> Cursor(next, topic, consumer) == Cursor(b, topic, consumer))
            && next.nextSeq == b.nextSeq
  {
    hide BatchEnd;
  }

  lemma {:induction false} LogsStayOk(run: seq<Op>, k: nat, topic: string, consumer: string)
    requires k <= |run|
    ensures LogsOk(run, k, topic, consumer)
  {
    hide Appended, Drained, Batch, IsBatch;
    if k > 0 {
      LogsStayOk(run, k - 1, topic, consumer);
      var w := After(run, k - 1);
      hide Log, Cursor;
      match run[k - 1]
      case Restart =>
      case Send(t, content, sender, ts, signature) =>
        AppendFrame(w.live, t, content, sender, ts, signature, topic, consumer);
      case Recv(t, limit, c, skip) =>
        DrainFrame(w.live, t, Limit(limit), c, skip, topic, consumer);
        if t == topic && c == consumer {
          DrainGivesBatch(w.live, topic, Limit(limit), consumer, skip);
          DrainStaysInLog(w.live, topic, Limit(limit), consumer, skip);
        }
    }
  }

  lemma DrainStaysInLog(b: State, topic: string, limit: nat, consumer: string, skip: Option<string>)
    requires Cursor(b, topic, consumer) <= |Log(b, topic)|
    ensures var next := Drained(b, topic, limit, consumer, skip);
            Cursor(b, topic, consumer) <= Cursor(next, topic, consumer) <= |Log(b, topic)|
  {
    DrainGivesBatch(b, topic, limit, consumer, skip);
  }

  /** The consumer always asks with the same filter. */
  ghost predicate OneFilter(run: seq<Op>, topic: string, consumer: string, skip: Option<string>) {
    forall j :: 0 <= j < |run| && run[j].Recv? && run[j].topic == topic && run[j].consumer == consumer
                ==> run[j].skip == skip
  }

  /**
    * What a consumer has been handed is exactly the visible part of the log up to its cursor: in order, once,
    * with no gap. A restart may set the cursor back to the saved one, but only over messages it skips anyway.
    */
  lemma {:induction false} DeliveredExactly(run: seq<Op>, k: nat, topic: string, consumer: string, skip: Option<string>)
    requires k <= |run| && OneFilter(run, topic, consumer, skip)
    ensures LogsOk(run, k, topic, consumer)
    ensures var w, log := After(run, k), Sent(run, k, topic);
            && Delivered(run, k, topic, consumer) == Visible(log[..Cursor(w.live, topic, consumer)], skip)
            && Delivered(run, k, topic, consumer) == Visible(log[..Cursor(w.disk, topic, consumer)], skip)
  {
    LogsStayOk(run, k, topic, consumer);
    if k > 0 {
      DeliveredExactly(run, k - 1, topic, consumer, skip);
      StepDelivers(run, k, topic, consumer, skip);
    }
  }

  lemma StepDelivers(run: seq<Op>, k: nat, topic: string, consumer: string, skip: Option<string>)
    requires 0 < k <= |run| && OneFilter(run, topic, consumer, skip)
    requires LogsOk(run, k - 1, topic, consumer) && LogsOk(run, k, topic, consumer)
    requires var w, log := After(run, k - 1), Sent(run, k - 1, topic);
             && Delivered(run, k - 1, topic, consumer) == Visible(log[..Cursor(w.live, topic, consumer)], skip)
             && Delivered(run, k - 1, topic, consumer) == Visible(log[..Cursor(w.disk, topic, consumer)], skip)
    ensures var w, log := After(run, k), Sent(run, k, topic);
            && Delivered(run, k, topic, consumer) == Visible(log[..Cursor(w.live, topic, consumer)], skip)
            && Delivered(run, k, topic, consumer) == Visible(log[..Cursor(w.disk, topic, consumer)], skip)
  {
    var w, op, log := After(run, k - 1), run[k - 1], Sent(run, k - 1, topic);
    hide Appended, Drained, Log, Cursor, Batch, Visible;
    match op
    case Restart =>
    case Send(t, content, sender, ts, signature) =>
      AppendFrame(w.live, t, content, sender, ts, signature, topic, consumer);
      var live, disk := Cursor(w.live, topic, consumer), Cursor(w.disk, topic, consumer);
      assert Sent(run, k, topic)[..live] == log[..live] && Sent(run, k, topic)[..disk] == log[..disk];
    case Recv(t, limit, c, _) =>
      DrainFrame(w.live, t, Limit(limit), c, op.skip, topic, consumer);
      if t == topic && c == consumer && topic != "" && consumer != "" {
        BatchExtends(w.live, topic, Limit(limit), consumer, skip);
      }
  }

  /** A batch joins what lies before the cursor to what lies before the new one. */
  lemma BatchExtends(b: State, topic: string, limit: nat, consumer: string, skip: Option<string>)
    requires Cursor(b, topic, consumer) <= |Log(b, topic)|
    ensures var log, from, end := Log(b, topic), Cursor(b, topic, consumer),
                                  Cursor(Drained(b, topic, limit, consumer, skip), topic, consumer);
            && from <= end <= |log|
            && Visible(log[..end], skip) == Visible(log[..from], skip) + Batch(b, topic, limit, consumer, skip)
  {
    DrainGivesBatch(b, topic, limit, consumer, skip);
    var log, from := Log(b, topic), Cursor(b, topic, consumer);
    var end := Cursor(Drained(b, topic, limit, consumer, skip), topic, consumer);
    assert log[..end] == log[..from] + log[from..end];
    VisibleConcat(log[..from], log[from..end], skip);
  }

  // ── Sequence numbers ──────────────────────────────────────────────────────

  lemma {:induction false} NumbersBelow(run: seq<Op>, k: nat, topic: string, i: nat)
    requires k <= |run| && i < |Sent(run, k, topic)|
    ensures Sent(run, k, topic)[i].seqNo < Sends(run, k)
  {
    if k > 0 && i < |Sent(run, k - 1, topic)| {
      NumbersBelow(run, k - 1, topic, i);
    }
  }

  /** Sequence numbers are unique across all topics, and a topic's log is sorted by them. */
  lemma {:induction false} NumbersOrder(run: seq<Op>, k: nat, t: string, i: nat, u: string, j: nat)
    requires k <= |run| && i < |Sent(run, k, t)| && j < |Sent(run, k, u)|
    ensures Sent(run, k, t)[i].seqNo == Sent(run, k, u)[j].seqNo <==> t == u && i == j
    ensures t == u ==> (Sent(run, k, t)[i].seqNo < Sent(run, k, u)[j].seqNo <==> i < j)
  {
    if k > 0 {
      var n, m := |Sent(run, k - 1, t)|, |Sent(run, k - 1, u)|;
      if i < n && j < m {
        NumbersOrder(run, k - 1, t, i, u, j);
      } else if i < n {
        NumbersBelow(run, k - 1, t, i);
      } else if j < m {
        NumbersBelow(run, k - 1, u, j);
      }
    }
  }

  // ── What a call gets ──────────────────────────────────────────────────────

  /** The positions that a filter lets through: those of other senders than the skipped one, in order. */
  ghost predicate LetsThrough(log: seq<Msg>, skip: Option<string>, s: seq<nat>) {
    && (forall i, j :: 0 <= i < j < |s| ==> s[i] < s[j])
    && (forall p: nat :: p in s <==> p < |log| && skip != Some(log[p].sender))
  }

  lemma {:induction false} VisibleExactly(log: seq<Msg>, skip: Option<string>) returns (s: seq<nat>)
    ensures LetsThrough(log, skip, s) && |s| == |Visible(log, skip)|
    ensures forall i :: 0 <= i < |s| ==> s[i] < |log| && Visible(log, skip)[i] == log[s[i]]
  {
    s := [];
    if log != [] {
      var last := |log| - 1;
      var before := VisibleExactly(log[..last], skip);
      s := before;
      if skip != Some(log[last].sender) {
        s := before + [last];
      }
      forall p: nat ensures p in s <==> p < |log| && skip != Some(log[p].sender) {
        assert p in s <==> p in before || (p == last && skip != Some(log[last].sender));
      }
    }
  }

  /** How many messages a call asks for: 64 unless it says, and at least one. */
  ghost function Asked(limit: Option<nat>): nat {
    match limit
    case None => 64
    case Some(n) => if n == 0 then 1 else n
  }

  lemma BatchIsFront(log: seq<Msg>, from: nat, limit: nat, skip: Option<string>, end: nat, batch: seq<Msg>)
    requires IsBatch(log, from, limit, skip, end, batch)
    ensures var rest := Visible(log[from..], skip);
            batch == rest[..if limit < |rest| then limit else |rest|]
  {
    assert log[from..] == log[from..end] + log[end..];
    VisibleConcat(log[from..end], log[end..], skip);
    assert end == |log| ==> log[end..] == [];
  }

  /** A call gets the first so many of the messages after its cursor that its filter lets through. */
  lemma RecvGivesFirst(run: seq<Op>, k: nat, topic: string, limit: Option<nat>, consumer: string, skip: Option<string>)
    requires k <= |run| && topic != "" && consumer != ""
    ensures var w, log := After(run, k), Sent(run, k, topic);
            && Cursor(w.live, topic, consumer) <= |log|
            && var rest := Visible(log[Cursor(w.live, topic, consumer)..], skip);
               HandedOut(w, Recv(topic, limit, consumer, skip))
                 == rest[..if Asked(limit) < |rest| then Asked(limit) else |rest|]
  {
    LogsStayOk(run, k, topic, consumer);
    var b := After(run, k).live;
    DrainGivesBatch(b, topic, Limit(limit), consumer, skip);
    var end := Cursor(Drained(b, topic, Limit(limit), consumer, skip), topic, consumer);
    BatchIsFront(Log(b, topic), Cursor(b, topic, consumer), Limit(limit), skip, end,
                 Batch(b, topic, Limit(limit), consumer, skip));
    hide Visible, Batch, Drained, After, Sent, IsBatch;
  }

  // ── Catching up ───────────────────────────────────────────────────────────

  /** From `from` to `until`, nothing happens but this consumer draining this topic. */
  ghost predicate DrainsOnly(run: seq<Op>, from: nat, until: nat, topic: string, consumer: string)
    requires until <= |run|
  {
    forall j :: from <= j < until ==> run[j].Recv? && run[j].topic == topic && run[j].consumer == consumer
  }

  lemma VisiblePrefix(log: seq<Msg>, end: nat, skip: Option<string>)
    requires end <= |log|
    ensures Visible(log[..end], skip) <= Visible(log, skip)
  {
    assert log == log[..end] + log[end..];
    VisibleConcat(log[..end], log[end..], skip);
  }

  lemma DeliveredIsPrefix(run: seq<Op>, k: nat, topic: string, consumer: string, skip: Option<string>)
    requires k <= |run| && OneFilter(run, topic, consumer, skip)
    ensures Delivered(run, k, topic, consumer) <= Visible(Sent(run, k, topic), skip)
  {
    DeliveredExactly(run, k, topic, consumer, skip);
    VisiblePrefix(Sent(run, k, topic), Cursor(After(run, k).live, topic, consumer), skip);
  }

  /** One drain delivers something, or there is nothing more to deliver. */
  lemma DrainIsFull(run: seq<Op>, k: nat, topic: string, consumer: string, skip: Option<string>)
    requires 0 < k <= |run| && DrainsOnly(run, k - 1, k, topic, consumer) && OneFilter(run, topic, consumer, skip)
    requires topic != "" && consumer != ""
    ensures Sent(run, k, topic) == Sent(run, k - 1, topic)
    ensures var before, after := |Delivered(run, k - 1, topic, consumer)|, |Delivered(run, k, topic, consumer)|;
            before <= after && (after == |Visible(Sent(run, k, topic), skip)| || before < after)
  {
    LogsStayOk(run, k - 1, topic, consumer);
    DeliveredExactly(run, k, topic, consumer, skip);
    hide Visible, Drained, Batch, Log, Cursor;
    var b, log := After(run, k - 1).live, Sent(run, k, topic);
    DrainGivesBatch(b, topic, Limit(run[k - 1].limit), consumer, skip);
    assert log[..|log|] == log;
  }

  lemma {:induction false} DrainsProgress(run: seq<Op>, from: nat, until: nat, topic: string, consumer: string,
                                          skip: Option<string>)
    requires from <= until <= |run| && DrainsOnly(run, from, until, topic, consumer)
    requires OneFilter(run, topic, consumer, skip)
    requires topic != "" && consumer != ""
    ensures Sent(run, until, topic) == Sent(run, from, topic)
    ensures var before, after := |Delivered(run, from, topic, consumer)|, |Delivered(run, until, topic, consumer)|;
            after >= |Visible(Sent(run, until, topic), skip)| || after >= before + (until - from)
    decreases until
  {
    hide Visible, Delivered, OneFilter, Sent;
    if from < until {
      assert DrainsOnly(run, from, until - 1, topic, consumer) && DrainsOnly(run, until - 1, until, topic, consumer);
      hide DrainsOnly;
      DrainsProgress(run, from, until - 1, topic, consumer, skip);
      DrainIsFull(run, until, topic, consumer, skip);
    }
  }

  /** Draining again and again delivers everything the filter lets through, one message per call at the least. */
  lemma DrainsCatchUp(run: seq<Op>, from: nat, until: nat, topic: string, consumer: string, skip: Option<string>)
    requires from <= until <= |run| && DrainsOnly(run, from, until, topic, consumer)
    requires OneFilter(run, topic, consumer, skip)
    requires topic != "" && consumer != ""
    requires |Delivered(run, from, topic, consumer)| + (until - from) >= |Visible(Sent(run, from, topic), skip)|
    ensures Delivered(run, until, topic, consumer) == Visible(Sent(run, from, topic), skip)
  {
    DrainsProgress(run, from, until, topic, consumer, skip);
    DeliveredIsPrefix(run, until, topic, consumer, skip);
  }
}
