/** click_events and kafka_offsets of one consumer group and topic (internal/store/analytics.go). */
module ClickStore {

  /** The wire contract; `ts` in milliseconds. */
  datatype Event = Event(id: string, code: string, ts: int, referrer: string, userAgent: string)

  /** A record's value: an event, or bytes that do not decode. */
  datatype Value = Good(event: Event) | Malformed

  datatype Tables = Tables(clicks: map<string, Event>, offsets: map<nat, nat>)

  /** What the environment does to one transaction. */
  datatype Fault = NoFault | BeginFails | InsertFails | SaveFails | CommitFails | AckLost

  /** The transaction reached the database: committed, whether or not the answer came back. */
  predicate Landed(v: Value, f: Fault) {
    v.Good? && (f.NoFault? || f.AckLost?)
  }

  /** INSERT ... ON CONFLICT (event_id) DO NOTHING. */
  function Inserted(clicks: map<string, Event>, e: Event): map<string, Event> {
    if e.id in clicks then clicks else clicks[e.id := e]
  }

  /** The one transaction of `process`: the click and the next offset, together. */
  function Committed(t: Tables, p: nat, offset: nat, e: Event): Tables {
    Tables(Inserted(t.clicks, e), t.offsets[p := offset + 1])
  }

  /** The consecutive records of one partition, all committed, the first at `base`. */
  ghost function Drained(t: Tables, p: nat, base: nat, values: seq<Value>): Tables
    requires forall i :: 0 <= i < |values| ==> values[i].Good?
    decreases |values|
  {
    if values == [] then t
    else
      var n := |values| - 1;
      Committed(Drained(t, p, base, values[..n]), p, base + n, values[n].event)
  }

  class Postgres {
    var clicks: map<string, Event>
    var offsets: map<nat, nat>

    ghost function State(): Tables
      reads this
    {
      Tables(clicks, offsets)
    }

    constructor ()
      ensures State() == Tables(map[], map[])
    {
      clicks, offsets := map[], map[];
    }

    /** One record. Any early return rolls back. */
    method Process(p: nat, offset: nat, v: Value, f: Fault) returns (ok: bool)
      modifies this
      ensures ok <==> v.Good? && f.NoFault?
      ensures State() == if Landed(v, f) then Committed(old(State()), p, offset, v.event) else old(State())
      ensures v.Good? && (f.NoFault? || f.AckLost?) ==>
                && offsets == old(offsets)[p := offset + 1] && clicks.Keys == old(clicks).Keys + {v.event.id}
                && (forall id :: id in old(clicks) ==> clicks[id] == old(clicks)[id])
                && (v.event.id !in old(clicks) ==> clicks[v.event.id] == v.event)
      ensures v.Malformed? || !(f.NoFault? || f.AckLost?) ==> clicks == old(clicks) && offsets == old(offsets)
    {
      if v.Malformed? || f.BeginFails? {
        return false;
      }
      var txClicks, txOffsets := clicks, offsets;
      if f.InsertFails? {
        return false;
      }
      if v.event.id !in txClicks {
        txClicks := txClicks[v.event.id := v.event];
      }
      if f.SaveFails? {
        return false;
      }
      txOffsets := txOffsets[p := offset + 1];
      if f.CommitFails? {
        return false;
      }
      clicks, offsets := txClicks, txOffsets;
      ok := !f.AckLost?;
    }

    /** The offsets to seek to on assignment; a partition left out starts at the beginning. */
    method OnAssigned(parts: seq<nat>, failing: set<nat>) returns (seek: map<nat, nat>)
      ensures forall p :: p in seek <==> p in parts && p !in failing && p in offsets
      ensures forall p :: p in seek ==> seek[p] == offsets[p]
    {
      seek := map[];
      for i := 0 to |parts|
        invariant forall p :: p in seek <==> p in parts[..i] && p !in failing && p in offsets
        invariant forall p :: p in seek ==> seek[p] == offsets[p]
      {
        var p := parts[i];
        if p !in failing && p in offsets {
          seek := seek[p := offsets[p]];
        }
      }
      assert parts[..|parts|] == parts;
    }

    /** The record loop over one partition of a poll: in order, and out of the process at the first failure. */
    method Consume(p: nat, base: nat, values: seq<Value>, faults: seq<Fault>) returns (done: nat, exited: bool)
      requires |faults| == |values|
      modifies this
      ensures done <= |values| && (exited <==> done < |values|)
      ensures forall i :: 0 <= i < done ==> values[i].Good? && faults[i].NoFault?
      ensures exited ==> values[done].Malformed? || !faults[done].NoFault?
      ensures var t := Drained(old(State()), p, base, values[..done]);
              State() == if exited && Landed(values[done], faults[done])
                         then Committed(t, p, base + done, values[done].event) else t
    {
      done, exited := 0, false;
      while done < |values|
        invariant done <= |values|
        invariant forall i :: 0 <= i < done ==> values[i].Good? && faults[i].NoFault?
        invariant State() == Drained(old(State()), p, base, values[..done])
      {
        var ok := Process(p, base + done, values[done], faults[done]);
        if !ok {
          exited := true;
          return;
        }
        assert values[..done + 1][..done] == values[..done];
        done := done + 1;
      }
    }
  }
}

/**
 * The click pipeline from the log to Postgres (cmd/analytics): any number of consumers that are
 * assigned, seek, poll, process in order, fail, crash and restart. One step is one poll, one
 * callback or one transaction.
 */
module ClickConsumer {
  import opened Basics
  import opened ClickStore

  /** Polled records not yet processed: offsets [lo, hi) of a partition. */
  datatype Batch = Batch(lo: nat, hi: nat)

  /** A consumer's memory: where its client fetches next, and what it still has to process. */
  datatype Consumer = Consumer(pos: map<nat, nat>, batch: map<nat, Batch>)

  /** `high` is the high-water mark of each partition; `route` the producer's partitioner. */
  datatype State = State(log: seq<seq<Value>>, db: Tables, consumers: map<nat, Consumer>, high: seq<nat>, route: string -> nat)

  datatype Step =
    | Publish(p: nat, value: Value)
    | Start(c: nat)
    | Assign(c: nat, p: nat, loadFails: bool)
    | Revoke(c: nat, p: nat)
    | Poll(c: nat, upTo: map<nat, nat>)
    | MixedPoll(c: nat, upTo: map<nat, nat>)   // errors and records in one poll: the records are dropped
    | Process(c: nat, p: nat, fault: Fault)
    | Crash(c: nat)

  ghost function Init(partitions: nat, route: string -> nat): State {
    State(seq(partitions, _ => []), Tables(map[], map[]), map[], seq(partitions, _ => 0), route)
  }

  ghost predicate At(s: State, p: nat, i: nat) {
    p < |s.log| && i < |s.log[p]|
  }

  ghost predicate Idle(k: Consumer) {
    forall p :: p in k.batch ==> k.batch[p].lo >= k.batch[p].hi
  }

  ghost predicate Pollable(s: State, k: Consumer, upTo: map<nat, nat>) {
    Idle(k) && forall p :: p in upTo ==> p in k.pos && p < |s.log| && k.pos[p] <= upTo[p] <= |s.log[p]|
  }

  ghost predicate Enabled(s: State, step: Step) {
    match step
    case Publish(p, v) =>
      p < |s.log| && (v.Good? ==>
        && s.route(v.event.code) == p
        && forall q: nat, i: nat :: At(s, q, i) && s.log[q][i].Good? ==> s.log[q][i].event.id != v.event.id)
    case Start(c) => c !in s.consumers
    case Assign(c, p, _) => c in s.consumers && p < |s.log|
    case Revoke(c, p) => c in s.consumers
    case Poll(c, upTo) => c in s.consumers && Pollable(s, s.consumers[c], upTo)
    case MixedPoll(c, upTo) => c in s.consumers && Pollable(s, s.consumers[c], upTo)
    case Process(c, p, f) =>
      c in s.consumers && p in s.consumers[c].batch && At(s, p, s.consumers[c].batch[p].lo)
      && s.consumers[c].batch[p].lo < s.consumers[c].batch[p].hi
    case Crash(c) => c in s.consumers
  }

  ghost function Seek(s: State, p: nat, loadFails: bool): nat {
    if !loadFails && p in s.db.offsets then s.db.offsets[p] else 0
  }

  ghost function Put(s: State, c: nat, k: Consumer): State {
    s.(consumers := s.consumers[c := k])
  }

  ghost function Raise(high: seq<nat>, p: nat, mark: nat): seq<nat>
    requires p < |high|
  {
    if mark > high[p] then high[p := mark] else high
  }

  /** The tables and marks after one processed record. */
  ghost function Effect(s: State, p: nat, i: nat, f: Fault): State
    requires At(s, p, i) && p < |s.high|
  {
    var v := s.log[p][i];
    if Landed(v, f) then s.(db := Committed(s.db, p, i, v.event), high := Raise(s.high, p, i + 1)) else s
  }

  ghost function Apply(s: State, step: Step): State
    requires |s.high| == |s.log| && Enabled(s, step)
  {
    match step
    case Publish(p, v) => s.(log := s.log[p := s.log[p] + [v]])
    case Start(c) => Put(s, c, Consumer(map[], map[]))
    case Assign(c, p, fails) => var k := s.consumers[c]; Put(s, c, k.(pos := k.pos[p := Seek(s, p, fails)]))
    case Revoke(c, p) => var k := s.consumers[c]; Put(s, c, k.(pos := k.pos - {p}))
    case Poll(c, upTo) =>
      var k := s.consumers[c];
      Put(s, c, Consumer(k.pos + upTo, map p | p in upTo && p in k.pos :: Batch(k.pos[p], upTo[p])))
    case MixedPoll(c, upTo) => var k := s.consumers[c]; Put(s, c, Consumer(k.pos + upTo, map[]))
    case Process(c, p, f) =>
      var k := s.consumers[c];
      var b := k.batch[p];
      var s' := Effect(s, p, b.lo, f);
      if Landed(s.log[p][b.lo], f) && f.NoFault? then Put(s', c, k.(batch := k.batch[p := Batch(b.lo + 1, b.hi)]))
      else s'.(consumers := s.consumers - {c})
    case Crash(c) => s.(consumers := s.consumers - {c})
  }

  // ---- Invariant ----

  ghost predicate IdAt(s: State, p: nat, i: nat, id: string) {
    At(s, p, i) && s.log[p][i].Good? && s.log[p][i].event.id == id
  }

  ghost predicate LogInv(s: State) {
    && |s.high| == |s.log|
    && (forall p: nat, i: nat, q: nat, j: nat, id :: IdAt(s, p, i, id) && IdAt(s, q, j, id) ==> p == q && i == j)
    && (forall p: nat, i: nat :: At(s, p, i) && s.log[p][i].Good? ==> s.route(s.log[p][i].event.code) == p)
  }

  /** The record is below its partition's mark. */
  ghost predicate Below(s: State, p: nat, i: nat) {
    At(s, p, i) && p < |s.high| && i < s.high[p]
  }

  ghost predicate HasRow(s: State, p: nat, i: nat)
    requires At(s, p, i)
  {
    var v := s.log[p][i];
    v.Good? && v.event.id in s.db.clicks && s.db.clicks[v.event.id] == v.event
  }

  ghost predicate Backed(s: State, id: string) {
    exists p: nat, i: nat :: Below(s, p, i) && IdAt(s, p, i, id)
  }

  ghost function Sum(xs: seq<nat>): nat {
    if xs == [] then 0 else xs[0] + Sum(xs[1..])
  }

  /** click_events holds exactly the records below the marks. */
  ghost predicate RowsInv(s: State) {
    && (forall p: nat, i: nat :: Below(s, p, i) ==> HasRow(s, p, i))
    && (forall id :: id in s.db.clicks ==> Backed(s, id))
  }

  /** One row per record; marks are within the log and no stored offset is past its mark. */
  ghost predicate MarksInv(s: State) {
    && |s.high| == |s.log|
    && (forall p: nat :: p < |s.log| ==> s.high[p] <= |s.log[p]|)
    && |s.db.clicks| == Sum(s.high)
    && (forall p: nat :: p in s.db.offsets ==> p < |s.high| && s.db.offsets[p] <= s.high[p])
  }

  /** What a consumer has yet to process starts at or below the mark. */
  ghost predicate ConsumerInv(high: seq<nat>, k: Consumer) {
    && (forall p: nat :: p in k.batch ==> p < |high| && k.batch[p].lo <= high[p])
    && (forall p: nat :: p in k.pos ==> p < |high| && PosInv(high[p], k, p))
  }

  /** The client fetches from the mark or below it, or from the end of what it has yet to process. */
  ghost predicate PosInv(mark: nat, k: Consumer, p: nat)
    requires p in k.pos
  {
    k.pos[p] <= mark || (p in k.batch && k.pos[p] <= k.batch[p].hi)
  }

  ghost predicate ConsumersInv(s: State) {
    forall c :: c in s.consumers ==> ConsumerInv(s.high, s.consumers[c])
  }

  ghost predicate Inv(s: State) {
    LogInv(s) && RowsInv(s) && MarksInv(s) && ConsumersInv(s)
  }

  lemma {:induction false} SumRaise(xs: seq<nat>, p: nat)
    requires p < |xs|
    ensures Sum(xs[p := xs[p] + 1]) == Sum(xs) + 1
  {
    var ys := xs[p := xs[p] + 1];
    if p > 0 {
      SumRaise(xs[1..], p - 1);
      assert ys[1..] == xs[1..][p - 1 := xs[1..][p - 1] + 1];
    } else {
      assert ys[1..] == xs[1..];
    }
  }

  lemma {:induction false} SumZeros(xs: seq<nat>)
    requires forall i :: 0 <= i < |xs| ==> xs[i] == 0
    ensures Sum(xs) == 0
  {
    if xs != [] {
      SumZeros(xs[1..]);
    }
  }

  /** Rows stay right when the log only grows and the marks and rows stay. */
  lemma RowsFrame(s: State, s': State)
    requires RowsInv(s) && MarksInv(s) && s'.high == s.high && s'.db.clicks == s.db.clicks
    requires |s'.log| == |s.log| && forall p :: 0 <= p < |s.log| ==> s.log[p] <= s'.log[p]
    ensures RowsInv(s')
  {
    forall p: nat, i: nat | Below(s', p, i) ensures HasRow(s', p, i) {
      assert Below(s, p, i) && HasRow(s, p, i);
    }
    forall id | id in s'.db.clicks ensures Backed(s', id) {
      var p: nat, i: nat :| Below(s, p, i) && IdAt(s, p, i, id);
      assert Below(s', p, i) && IdAt(s', p, i, id);
    }
  }

  lemma PublishKeepsLog(s: State, p: nat, v: Value)
    requires LogInv(s) && Enabled(s, Publish(p, v))
    ensures LogInv(Apply(s, Publish(p, v)))
  {
    var s' := Apply(s, Publish(p, v));
    var new_ := |s.log[p]|;
    forall q: nat, i: nat | At(s', q, i)
      ensures (q == p && i == new_ && s'.log[q][i] == v) || (At(s, q, i) && s'.log[q][i] == s.log[q][i])
    {
    }
    forall q: nat, i: nat, q': nat, j: nat, id | IdAt(s', q, i, id) && IdAt(s', q', j, id)
      ensures q == q' && i == j
    {
      assert (q == p && i == new_) || IdAt(s, q, i, id);
      assert (q' == p && j == new_) || IdAt(s, q', j, id);
    }
  }

  /** A transaction on a record already below the mark changes no row, though it may move the stored offset back. */
  lemma ReplayKeeps(s: State, p: nat, i: nat, s': State)
    requires RowsInv(s) && MarksInv(s) && Below(s, p, i) && s.log[p][i].Good?
    requires s' == s.(db := Committed(s.db, p, i, s.log[p][i].event))
    ensures RowsInv(s') && MarksInv(s') && s'.db.clicks == s.db.clicks
  {
    assert HasRow(s, p, i);
    RowsFrame(s, s');
  }

  lemma NotYetStored(s: State, p: nat)
    requires LogInv(s) && RowsInv(s) && p < |s.log| && s.high[p] < |s.log[p]| && s.log[p][s.high[p]].Good?
    ensures s.log[p][s.high[p]].event.id !in s.db.clicks
  {
    var id := s.log[p][s.high[p]].event.id;
    if id in s.db.clicks {
      var q: nat, j: nat :| Below(s, q, j) && IdAt(s, q, j, id);
      assert IdAt(s, p, s.high[p], id);
      assert false;
    }
  }

  /** A transaction on the record at the mark adds its row and raises the mark. */
  lemma AdvanceKeepsRows(s: State, p: nat, s': State)
    requires LogInv(s) && RowsInv(s) && MarksInv(s)
    requires p < |s.log| && s.high[p] < |s.log[p]| && s.log[p][s.high[p]].Good?
    requires s' == s.(db := Committed(s.db, p, s.high[p], s.log[p][s.high[p]].event), high := s.high[p := s.high[p] + 1])
    ensures RowsInv(s')
  {
    var e := s.log[p][s.high[p]].event;
    NotYetStored(s, p);
    forall q: nat, j: nat | Below(s', q, j) ensures HasRow(s', q, j) {
      if !(q == p && j == s.high[p]) {
        assert Below(s, q, j) && HasRow(s, q, j);
      }
    }
    forall id | id in s'.db.clicks ensures Backed(s', id) {
      if id == e.id {
        assert Below(s', p, s.high[p]) && IdAt(s', p, s.high[p], id);
      } else {
        var q: nat, j: nat :| Below(s, q, j) && IdAt(s, q, j, id);
        assert Below(s', q, j) && IdAt(s', q, j, id);
      }
    }
  }

  lemma AdvanceKeepsMarks(s: State, p: nat, s': State)
    requires LogInv(s) && RowsInv(s) && MarksInv(s)
    requires p < |s.log| && s.high[p] < |s.log[p]| && s.log[p][s.high[p]].Good?
    requires s' == s.(db := Committed(s.db, p, s.high[p], s.log[p][s.high[p]].event), high := s.high[p := s.high[p] + 1])
    ensures MarksInv(s')
  {
    NotYetStored(s, p);
    SumRaise(s.high, p);
  }

  /** Any transaction that lands, on a record at or below the mark. */
  lemma LandingKeeps(s: State, p: nat, i: nat, s': State)
    requires LogInv(s) && RowsInv(s) && MarksInv(s) && At(s, p, i) && i <= s.high[p] && s.log[p][i].Good?
    requires s' == s.(db := Committed(s.db, p, i, s.log[p][i].event), high := Raise(s.high, p, i + 1))
    ensures RowsInv(s') && MarksInv(s')
  {
    if i < s.high[p] {
      ReplayKeeps(s, p, i, s');
    } else {
      AdvanceKeepsRows(s, p, s');
      AdvanceKeepsMarks(s, p, s');
    }
  }

  lemma LogFrame(s: State, s': State)
    requires LogInv(s) && s'.log == s.log && |s'.high| == |s.high| && s'.route == s.route
    ensures LogInv(s')
  {
    assert forall p: nat, i: nat, id :: IdAt(s', p, i, id) ==> IdAt(s, p, i, id);
    assert forall p: nat, i: nat :: At(s', p, i) ==> At(s, p, i);
  }

  /** Marks only rise, so every consumer stays in order; the one that processed moves up to the mark. */
  lemma ConsumersSurvive(s: State, high: seq<nat>)
    requires ConsumersInv(s) && |high| == |s.high| && forall p :: 0 <= p < |high| ==> s.high[p] <= high[p]
    ensures forall c :: c in s.consumers ==> ConsumerInv(high, s.consumers[c])
  {
    forall c | c in s.consumers ensures ConsumerInv(high, s.consumers[c]) {
      assert ConsumerInv(s.high, s.consumers[c]);
    }
  }

  lemma ConsumersApart(s: State, s': State)
    requires RowsInv(s) && MarksInv(s) && s' == s.(consumers := s'.consumers)
    ensures RowsInv(s') && MarksInv(s')
  {
    RowsFrame(s, s');
  }

  lemma ProcessKeepsRows(s: State, c: nat, p: nat, f: Fault)
    requires Inv(s) && Enabled(s, Process(c, p, f))
    ensures var s' := Apply(s, Process(c, p, f)); RowsInv(s') && MarksInv(s')
  {
    var lo := s.consumers[c].batch[p].lo;
    assert ConsumerInv(s.high, s.consumers[c]);
    var mid := Effect(s, p, lo, f);
    assert RowsInv(mid) && MarksInv(mid) by {
      if Landed(s.log[p][lo], f) {
        LandingKeeps(s, p, lo, mid);
      }
    }
    ConsumersApart(mid, Apply(s, Process(c, p, f)));
  }

  /** The consumer that processed moves up to the mark. */
  lemma ProcessedInOrder(high: seq<nat>, k: Consumer, p: nat)
    requires ConsumerInv(high, k) && p in k.batch && p < |high| && k.batch[p].lo < high[p]
    ensures ConsumerInv(high, k.(batch := k.batch[p := Batch(k.batch[p].lo + 1, k.batch[p].hi)]))
  {
    var k' := k.(batch := k.batch[p := Batch(k.batch[p].lo + 1, k.batch[p].hi)]);
    forall q: nat | q in k'.pos ensures q < |high| && PosInv(high[q], k', q) {
      assert PosInv(high[q], k, q);
    }
  }

  lemma EffectRaises(s: State, p: nat, i: nat, f: Fault)
    requires At(s, p, i) && p < |s.high|
    ensures var s' := Effect(s, p, i, f);
            && s'.consumers == s.consumers && |s'.high| == |s.high|
            && (forall q :: 0 <= q < |s.high| ==> s.high[q] <= s'.high[q])
            && (Landed(s.log[p][i], f) ==> i < s'.high[p])
  {
  }

  lemma ProcessKeepsConsumers(s: State, c: nat, p: nat, f: Fault)
    requires |s.high| == |s.log| && ConsumersInv(s) && Enabled(s, Process(c, p, f))
    ensures ConsumersInv(Apply(s, Process(c, p, f)))
  {
    hide Effect, ConsumerInv;
    var s' := Apply(s, Process(c, p, f));
    var k := s.consumers[c];
    EffectRaises(s, p, k.batch[p].lo, f);
    ConsumersSurvive(s, s'.high);
    if Landed(s.log[p][k.batch[p].lo], f) && f.NoFault? {
      ProcessedInOrder(s'.high, k, p);
    }
  }

  /** A poll is made only once the last one is drained, so it starts at or below the mark. */
  lemma PollKeeps(s: State, c: nat, upTo: map<nat, nat>)
    requires ConsumersInv(s) && Enabled(s, Poll(c, upTo)) && |s.high| == |s.log|
    ensures ConsumerInv(s.high, Apply(s, Poll(c, upTo)).consumers[c])
  {
    var k, k' := s.consumers[c], Apply(s, Poll(c, upTo)).consumers[c];
    assert ConsumerInv(s.high, k);
    forall p: nat | p in k.pos ensures p < |s.high| && k.pos[p] <= s.high[p] {
      assert PosInv(s.high[p], k, p);
    }
    forall p: nat | p in k'.pos ensures p < |s.high| && PosInv(s.high[p], k', p) {
      if p in upTo {
        assert p in k'.batch && k'.pos[p] == k'.batch[p].hi;
      }
    }
  }

  lemma AssignKeeps(s: State, c: nat, p: nat, fails: bool)
    requires MarksInv(s) && ConsumersInv(s) && Enabled(s, Assign(c, p, fails))
    ensures ConsumerInv(s.high, Apply(s, Assign(c, p, fails)).consumers[c])
  {
    var k, k' := s.consumers[c], Apply(s, Assign(c, p, fails)).consumers[c];
    assert ConsumerInv(s.high, k);
    forall q: nat | q in k'.pos ensures q < |s.high| && PosInv(s.high[q], k', q) {
      if q != p {
        assert PosInv(s.high[q], k, q);
      }
    }
  }

  lemma RevokeKeeps(s: State, c: nat, p: nat)
    requires ConsumersInv(s) && Enabled(s, Revoke(c, p)) && |s.high| == |s.log|
    ensures ConsumerInv(s.high, Apply(s, Revoke(c, p)).consumers[c])
  {
    var k, k' := s.consumers[c], Apply(s, Revoke(c, p)).consumers[c];
    assert ConsumerInv(s.high, k);
    forall q: nat | q in k'.pos ensures q < |s.high| && PosInv(s.high[q], k', q) {
      assert PosInv(s.high[q], k, q);
    }
  }

  lemma ConsumerStepKeeps(s: State, step: Step)
    requires MarksInv(s) && ConsumersInv(s) && Enabled(s, step)
    requires step.Start? || step.Assign? || step.Revoke? || step.Poll? || step.Crash?
    ensures ConsumersInv(Apply(s, step))
  {
    match step
    case Assign(c, p, fails) => AssignKeeps(s, c, p, fails);
    case Revoke(c, p) => RevokeKeeps(s, c, p);
    case Poll(c, upTo) => PollKeeps(s, c, upTo);
    case _ =>
  }

  lemma PublishKeeps(s: State, step: Step)
    requires Inv(s) && Enabled(s, step) && step.Publish?
    ensures Inv(Apply(s, step))
  {
    PublishKeepsLog(s, step.p, step.value);
    RowsFrame(s, Apply(s, step));
  }

  lemma ProcessKeeps(s: State, step: Step)
    requires Inv(s) && Enabled(s, step) && step.Process?
    ensures Inv(Apply(s, step))
  {
    hide RowsInv, MarksInv;
    LogFrame(s, Apply(s, step));
    ProcessKeepsRows(s, step.c, step.p, step.fault);
    ProcessKeepsConsumers(s, step.c, step.p, step.fault);
  }

  lemma Keeps(s: State, step: Step)
    requires Inv(s) && Enabled(s, step) && !step.MixedPoll?
    ensures Inv(Apply(s, step))
  {
    if step.Publish? {
      PublishKeeps(s, step);
    } else if step.Process? {
      ProcessKeeps(s, step);
    } else {
      LogFrame(s, Apply(s, step));
      ConsumersApart(s, Apply(s, step));
      ConsumerStepKeeps(s, step);
    }
  }

  // ---- Every run ----

  ghost predicate ValidRun(s: State, steps: seq<Step>)
    requires |s.high| == |s.log|
    decreases |steps|
  {
    steps == [] || (Enabled(s, steps[0]) && ValidRun(Apply(s, steps[0]), steps[1..]))
  }

  ghost function Reached(s: State, steps: seq<Step>): State
    requires |s.high| == |s.log| && ValidRun(s, steps)
    decreases |steps|
  {
    if steps == [] then s else Reached(Apply(s, steps[0]), steps[1..])
  }

  /** A poll carries errors or records, never both. */
  ghost predicate NoMixedPolls(steps: seq<Step>) {
    forall i :: 0 <= i < |steps| ==> !steps[i].MixedPoll?
  }

  lemma {:induction false} InvariantFrom(s: State, steps: seq<Step>)
    requires Inv(s) && ValidRun(s, steps) && NoMixedPolls(steps)
    ensures Inv(Reached(s, steps))
    decreases |steps|
  {
    if steps != [] {
      Keeps(s, steps[0]);
      InvariantFrom(Apply(s, steps[0]), steps[1..]);
    }
  }

  /**
   * Exactly once: after any run, click_events is the set of records below each partition's mark,
   * one row each and no gaps, and no stored offset or pending record is past its mark.
   */
  lemma ExactlyOnce(partitions: nat, route: string -> nat, steps: seq<Step>)
    requires ValidRun(Init(partitions, route), steps) && NoMixedPolls(steps)
    ensures Inv(Reached(Init(partitions, route), steps))
  {
    var s := Init(partitions, route);
    SumZeros(s.high);
    assert Inv(s);
    InvariantFrom(s, steps);
  }

  lemma Then(s: State, step: Step, rest: seq<Step>)
    requires |s.high| == |s.log| && Enabled(s, step) && ValidRun(Apply(s, step), rest)
    ensures ValidRun(s, [step] + rest) && Reached(s, [step] + rest) == Reached(Apply(s, step), rest)
  {
    assert ([step] + rest)[1..] == rest;
  }

  lemma {:induction false} Join(s: State, xs: seq<Step>, ys: seq<Step>)
    requires |s.high| == |s.log| && ValidRun(s, xs)
    requires |Reached(s, xs).high| == |Reached(s, xs).log| && ValidRun(Reached(s, xs), ys)
    ensures ValidRun(s, xs + ys) && Reached(s, xs + ys) == Reached(Reached(s, xs), ys)
    decreases |xs|
  {
    if xs == [] {
      assert xs + ys == ys;
    } else {
      Join(Apply(s, xs[0]), xs[1..], ys);
      assert xs + ys == [xs[0]] + (xs[1..] + ys);
      Then(s, xs[0], xs[1..] + ys);
    }
  }

  // ---- The record loop is a run of the protocol ----

  ghost function Loop(c: nat, p: nat, n: nat): seq<Step> {
    if n == 0 then [] else Loop(c, p, n - 1) + [Process(c, p, NoFault)]
  }

  /** The next n records of the batch can be processed. */
  ghost predicate Loopable(s: State, c: nat, p: nat, n: nat) {
    && |s.high| == |s.log| && c in s.consumers && p in s.consumers[c].batch && p < |s.log|
    && var b := s.consumers[c].batch[p];
       b.lo + n <= b.hi <= |s.log[p]| && forall i :: b.lo <= i < b.lo + n ==> s.log[p][i].Good?
  }

  /** From s to s' the consumer drained the next n records of its batch. */
  ghost predicate Looped(s: State, s': State, c: nat, p: nat, n: nat)
    requires Loopable(s, c, p, n)
  {
    var b := s.consumers[c].batch[p];
    && s'.log == s.log && |s'.high| == |s.high|
    && s'.db == Drained(s.db, p, b.lo, s.log[p][b.lo..b.lo + n])
    && c in s'.consumers && s'.consumers[c].pos == s.consumers[c].pos
    && p in s'.consumers[c].batch && s'.consumers[c].batch[p] == Batch(b.lo + n, b.hi)
  }

  lemma LoopStep(s: State, mid: State, c: nat, p: nat, n: nat)
    requires Loopable(s, c, p, n + 1) && Looped(s, mid, c, p, n)
    ensures Enabled(mid, Process(c, p, NoFault)) && Looped(s, Apply(mid, Process(c, p, NoFault)), c, p, n + 1)
  {
    var lo := s.consumers[c].batch[p].lo;
    var values := s.log[p][lo..lo + n + 1];
    assert values[..n] == s.log[p][lo..lo + n] && values[n] == s.log[p][lo + n];
  }

  /** Consume's fault-free iterations are Process steps: same tables, and the batch moves up by as many records. */
  lemma {:induction false} LoopIsRun(s: State, c: nat, p: nat, n: nat)
    requires Loopable(s, c, p, n)
    ensures ValidRun(s, Loop(c, p, n)) && Looped(s, Reached(s, Loop(c, p, n)), c, p, n)
    decreases n
  {
    if n > 0 {
      var step := Process(c, p, NoFault);
      LoopIsRun(s, c, p, n - 1);
      var mid := Reached(s, Loop(c, p, n - 1));
      LoopStep(s, mid, c, p, n - 1);
      hide Looped, Apply, Enabled;
      Then(mid, step, []);
      assert [step] + [] == [step];
      Join(s, Loop(c, p, n - 1), [step]);
    }
  }

  /** All of Consume's iterations over a batch: those that commit, and the failing one that ends the process. */
  ghost function ConsumeSteps(c: nat, p: nat, done: nat, failure: Option<Fault>): seq<Step> {
    Loop(c, p, done) + match failure case None => [] case Some(f) => [Process(c, p, f)]
  }

  /** The record after the next `done` fails with f. */
  ghost predicate FailsAt(s: State, c: nat, p: nat, done: nat, f: Fault) {
    && Loopable(s, c, p, done)
    && var b := s.consumers[c].batch[p];
       b.lo + done < b.hi && (s.log[p][b.lo + done].Malformed? || !f.NoFault?)
  }

  lemma FailingStep(s: State, mid: State, c: nat, p: nat, done: nat, f: Fault)
    requires FailsAt(s, c, p, done, f) && Looped(s, mid, c, p, done)
    ensures Enabled(mid, Process(c, p, f))
    ensures var i := s.consumers[c].batch[p].lo + done;
            var s' := Apply(mid, Process(c, p, f));
            && c !in s'.consumers
            && s'.db == if Landed(s.log[p][i], f) then Committed(mid.db, p, i, s.log[p][i].event) else mid.db
  {
  }

  /**
   * The whole loop is a run of the protocol and leads to the tables that Consume promises: those of
   * the records passed, plus the failed one exactly if its commit landed.
   */
  lemma ConsumeIsRun(s: State, c: nat, p: nat, done: nat, failure: Option<Fault>)
    requires Loopable(s, c, p, done) && (failure.Some? ==> FailsAt(s, c, p, done, failure.value))
    ensures ValidRun(s, ConsumeSteps(c, p, done, failure))
    ensures var lo := s.consumers[c].batch[p].lo;
            var t := Drained(s.db, p, lo, s.log[p][lo..lo + done]);
            var s' := Reached(s, ConsumeSteps(c, p, done, failure));
            && s'.db == (if failure.Some? && Landed(s.log[p][lo + done], failure.value)
                         then Committed(t, p, lo + done, s.log[p][lo + done].event) else t)
            && (c in s'.consumers <==> failure.None?)
  {
    LoopIsRun(s, c, p, done);
    if failure.None? {
      assert ConsumeSteps(c, p, done, failure) == Loop(c, p, done);
    } else {
      var step := Process(c, p, failure.value);
      var mid := Reached(s, Loop(c, p, done));
      FailingStep(s, mid, c, p, done, failure.value);
      hide Apply, Enabled;
      Then(mid, step, []);
      assert [step] + [] == [step];
      Join(s, Loop(c, p, done), [step]);
    }
  }

  // ---- Assignment follows the stored offsets ----

  /** One assignment callback, partition by partition. */
  ghost function Assigns(c: nat, parts: seq<nat>, failing: set<nat>): seq<Step>
    decreases |parts|
  {
    if parts == [] then [] else [Assign(c, parts[0], parts[0] in failing)] + Assigns(c, parts[1..], failing)
  }

  /** After it the consumer fetches each assigned partition from `start`, and nothing else has changed. */
  ghost predicate Assigned(s: State, s': State, c: nat, parts: seq<nat>, start: nat -> nat)
    requires c in s.consumers
  {
    && s' == s.(consumers := s'.consumers) && s'.consumers.Keys == s.consumers.Keys
    && (forall d :: d in s.consumers && d != c ==> s'.consumers[d] == s.consumers[d])
    && var k, k' := s.consumers[c], s'.consumers[c];
       && k'.batch == k.batch
       && (forall p :: p in k'.pos <==> p in k.pos || p in parts)
       && (forall p :: p in k'.pos ==> k'.pos[p] == if p in parts then start(p) else k.pos[p])
  }

  lemma AssignOne(s: State, s2: State, c: nat, parts: seq<nat>, failing: set<nat>, start: nat -> nat)
    requires |s.high| == |s.log| && c in s.consumers && parts != [] && parts[0] < |s.log|
    requires start(parts[0]) == Seek(s, parts[0], parts[0] in failing)
    requires Assigned(Apply(s, Assign(c, parts[0], parts[0] in failing)), s2, c, parts[1..], start)
    ensures Assigned(s, s2, c, parts, start)
  {
    assert forall p :: p in parts <==> p == parts[0] || p in parts[1..];
  }

  lemma {:induction false} AssignsRun(s: State, c: nat, parts: seq<nat>, failing: set<nat>, start: nat -> nat)
    requires |s.high| == |s.log| && c in s.consumers && forall p :: p in parts ==> p < |s.log|
    requires forall p :: p in parts ==> start(p) == Seek(s, p, p in failing)
    ensures ValidRun(s, Assigns(c, parts, failing))
    ensures Assigned(s, Reached(s, Assigns(c, parts, failing)), c, parts, start)
    decreases |parts|
  {
    if parts != [] {
      var step := Assign(c, parts[0], parts[0] in failing);
      assert parts[0] in parts && forall p :: p in parts[1..] ==> p in parts;
      var s1 := Apply(s, step);
      AssignsRun(s1, c, parts[1..], failing, start);
      Then(s, step, Assigns(c, parts[1..], failing));
      AssignOne(s, Reached(s1, Assigns(c, parts[1..], failing)), c, parts, failing, start);
    }
  }

  /**
   * An assignment callback is a run of Assign steps: with the seek map that OnAssigned promises, the
   * consumer goes on at the seek of each partition, or at its start if it has none.
   */
  lemma AssignmentIsRun(s: State, c: nat, parts: seq<nat>, failing: set<nat>, seek: map<nat, nat>)
    requires |s.high| == |s.log| && c in s.consumers && forall p :: p in parts ==> p < |s.log|
    requires forall p :: p in seek <==> p in parts && p !in failing && p in s.db.offsets
    requires forall p :: p in seek ==> seek[p] == s.db.offsets[p]
    ensures ValidRun(s, Assigns(c, parts, failing))
    ensures Assigned(s, Reached(s, Assigns(c, parts, failing)), c, parts, p => if p in seek then seek[p] else 0)
  {
    AssignsRun(s, c, parts, failing, p => if p in seek then seek[p] else 0);
  }

  // ---- A restart catches up ----

  /** A new consumer takes partition p from the stored offset, polls to the end and processes it all. */
  ghost function Restart(c: nat, p: nat, end: nat, n: nat): seq<Step> {
    [Start(c)] + ([Assign(c, p, false)] + ([Poll(c, map[p := end])] + Loop(c, p, n)))
  }

  lemma {:induction false} DrainedOffset(t: Tables, p: nat, base: nat, values: seq<Value>)
    requires forall i :: 0 <= i < |values| ==> values[i].Good?
    ensures var t' := Drained(t, p, base, values);
            t'.offsets == if values == [] then t.offsets else t.offsets[p := base + |values|]
    decreases |values|
  {
    if values != [] {
      DrainedOffset(t, p, base, values[..|values| - 1]);
    }
  }

  /** The consumer has polled partition p from `lo` to its end. */
  ghost predicate Polled(s: State, s': State, c: nat, p: nat, lo: nat)
    requires p < |s.log|
  {
    && s'.log == s.log && s'.db == s.db && s'.high == s.high && c in s'.consumers
    && s'.consumers[c].pos == map[p := |s.log[p]|] && s'.consumers[c].batch == map[p := Batch(lo, |s.log[p]|)]
  }

  lemma RestartPolls(s: State, c: nat, p: nat, rest: seq<Step>) returns (s3: State)
    requires MarksInv(s) && c !in s.consumers && p < |s.log|
    ensures Polled(s, s3, c, p, Seek(s, p, false)) && Seek(s, p, false) <= |s.log[p]| && |s3.high| == |s3.log|
    ensures ValidRun(s3, rest) ==>
              var steps := [Start(c)] + ([Assign(c, p, false)] + ([Poll(c, map[p := |s.log[p]|])] + rest));
              ValidRun(s, steps) && Reached(s, steps) == Reached(s3, rest)
  {
    var poll := Poll(c, map[p := |s.log[p]|]);
    var s1 := Apply(s, Start(c));
    var s2 := Apply(s1, Assign(c, p, false));
    assert s2.consumers[c] == Consumer(map[p := Seek(s, p, false)], map[]);
    s3 := Apply(s2, poll);
    assert s3.consumers[c].batch == map[p := Batch(Seek(s, p, false), |s.log[p]|)];
    assert s3.consumers[c].pos == map[p := |s.log[p]|];
    if ValidRun(s3, rest) {
      Then(s2, poll, rest);
      Then(s1, Assign(c, p, false), [poll] + rest);
      Then(s, Start(c), [Assign(c, p, false)] + ([poll] + rest));
    }
  }

  lemma {:induction false} LoopIsClean(c: nat, p: nat, n: nat)
    ensures NoMixedPolls(Loop(c, p, n))
  {
    if n > 0 {
      LoopIsClean(c, p, n - 1);
    }
  }

  lemma RestartIsClean(c: nat, p: nat, end: nat, n: nat)
    ensures NoMixedPolls(Restart(c, p, end, n))
  {
    LoopIsClean(c, p, n);
  }

  /** Every record of the partition has its row, and the consumer stands at the end with nothing pending. */
  ghost predicate CaughtUp(s: State, c: nat, p: nat) {
    && p < |s.log| && (forall i: nat :: i < |s.log[p]| ==> HasRow(s, p, i))
    && (s.log[p] != [] ==> p in s.db.offsets && s.db.offsets[p] == |s.log[p]|)
    && c in s.consumers && p in s.consumers[c].pos && s.consumers[c].pos[p] == |s.log[p]|
    && p in s.consumers[c].batch && s.consumers[c].batch[p].lo == |s.log[p]|
  }

  lemma DrainedToEnd(s: State, s3: State, s': State, c: nat, p: nat, lo: nat)
    requires p < |s.log| && lo <= |s.log[p]| && lo == Seek(s, p, false) && Polled(s, s3, c, p, lo)
    requires Loopable(s3, c, p, |s.log[p]| - lo) && Looped(s3, s', c, p, |s.log[p]| - lo)
    ensures s'.log == s.log && (s.log[p] != [] ==> p in s'.db.offsets && s'.db.offsets[p] == |s.log[p]|)
    ensures c in s'.consumers && s'.consumers[c].pos == map[p := |s.log[p]|]
    ensures p in s'.consumers[c].batch && s'.consumers[c].batch[p].lo == |s.log[p]|
  {
    var n := |s.log[p]| - lo;
    DrainedOffset(s3.db, p, lo, s3.log[p][lo..lo + n]);
  }

  lemma AllStored(s: State, p: nat)
    requires Inv(s) && p < |s.log| && (s.log[p] != [] ==> p in s.db.offsets && s.db.offsets[p] == |s.log[p]|)
    ensures forall i: nat :: i < |s.log[p]| ==> HasRow(s, p, i)
  {
    forall i: nat | i < |s.log[p]| ensures HasRow(s, p, i) {
      assert Below(s, p, i);
    }
  }

  /** How many records a consumer that starts up finds to process. */
  ghost function Backlog(s: State, p: nat): nat
    requires p < |s.log| && Seek(s, p, false) <= |s.log[p]|
  {
    |s.log[p]| - Seek(s, p, false)
  }

  lemma SeekInLog(s: State, p: nat)
    requires MarksInv(s) && p < |s.log|
    ensures Seek(s, p, false) <= |s.log[p]|
  {
  }

  lemma RestartRuns(s: State, c: nat, p: nat) returns (s3: State)
    requires MarksInv(s) && c !in s.consumers && p < |s.log| && forall i :: 0 <= i < |s.log[p]| ==> s.log[p][i].Good?
    requires Seek(s, p, false) <= |s.log[p]|
    ensures ValidRun(s, Restart(c, p, |s.log[p]|, Backlog(s, p))) && Polled(s, s3, c, p, Seek(s, p, false))
    ensures Loopable(s3, c, p, Backlog(s, p))
    ensures Looped(s3, Reached(s, Restart(c, p, |s.log[p]|, Backlog(s, p))), c, p, Backlog(s, p))
  {
    s3 := RestartPolls(s, c, p, Loop(c, p, Backlog(s, p)));
    LoopIsRun(s3, c, p, Backlog(s, p));
  }

  /**
   * From any state the protocol can be in, a consumer that starts up and meets no fault brings a
   * partition without malformed records fully up to date: Postgres alone tells it where to go on.
   */
  lemma RestartCatchesUp(s: State, c: nat, p: nat)
    requires Inv(s) && c !in s.consumers && p < |s.log| && forall i :: 0 <= i < |s.log[p]| ==> s.log[p][i].Good?
    ensures Seek(s, p, false) <= |s.log[p]|
    ensures var steps := Restart(c, p, |s.log[p]|, Backlog(s, p));
            ValidRun(s, steps) && CaughtUp(Reached(s, steps), c, p)
  {
    hide RowsInv, MarksInv, ConsumersInv, HasRow, Apply, Enabled, NoMixedPolls, Looped, Loopable, Polled, Loop;
    SeekInLog(s, p);
    var steps := Restart(c, p, |s.log[p]|, Backlog(s, p));
    RestartIsClean(c, p, |s.log[p]|, Backlog(s, p));
    var s3 := RestartRuns(s, c, p);
    hide Restart;
    InvariantFrom(s, steps);
    DrainedToEnd(s, s3, Reached(s, steps), c, p, Seek(s, p, false));
    AllStored(Reached(s, steps), p);
  }

  // ---- A stored offset can move backwards ----

  /** The step's transaction lands on a record of partition q whose next offset is below the stored one. */
  ghost predicate Rewinds(s: State, step: Step, q: nat) {
    && step.Process? && step.p == q && Enabled(s, step) && q in s.db.offsets
    && var lo := s.consumers[step.c].batch[q].lo;
       Landed(s.log[q][lo], step.fault) && lo + 1 < s.db.offsets[q]
  }

  /**
   * Exactly which steps move a stored offset back, and what that costs: the records between are all
   * below the mark, so every one of them has its row already.
   */
  lemma OffsetRegresses(s: State, step: Step, q: nat)
    requires Inv(s) && Enabled(s, step) && q in s.db.offsets
    ensures q in Apply(s, step).db.offsets
    ensures Apply(s, step).db.offsets[q] < s.db.offsets[q] <==> Rewinds(s, step, q)
    ensures forall i: nat :: At(s, q, i) && Apply(s, step).db.offsets[q] <= i < s.db.offsets[q] ==> HasRow(s, q, i)
  {
    BelowOffsetStored(s, q);
    if step.Process? {
      OffsetAfter(s, step.c, step.p, step.fault);
    } else {
      OnlyProcessWrites(s, step);
    }
    hide RowsInv, MarksInv, ConsumersInv, HasRow, Apply, Enabled;
  }

  lemma OnlyProcessWrites(s: State, step: Step)
    requires |s.high| == |s.log| && Enabled(s, step) && !step.Process?
    ensures Apply(s, step).db == s.db
  {
  }

  lemma OffsetAfter(s: State, c: nat, p: nat, f: Fault)
    requires |s.high| == |s.log| && Enabled(s, Process(c, p, f))
    ensures var lo := s.consumers[c].batch[p].lo;
            Apply(s, Process(c, p, f)).db.offsets == if Landed(s.log[p][lo], f) then s.db.offsets[p := lo + 1] else s.db.offsets
  {
  }

  lemma BelowOffsetStored(s: State, q: nat)
    requires Inv(s) && q in s.db.offsets
    ensures forall i: nat :: At(s, q, i) && i < s.db.offsets[q] ==> HasRow(s, q, i)
  {
    forall i: nat | At(s, q, i) && i < s.db.offsets[q] ensures HasRow(s, q, i) {
      assert Below(s, q, i);
    }
  }

  /** Two clicks published, and one consumer assigned their partition from the start. */
  ghost function TwoClicks(e: Event, e': Event): State {
    State([[Good(e), Good(e')]], Tables(map[], map[]), map[0 := Consumer(map[0 := 0], map[])], [0], _ => 0)
  }

  ghost function Opening(e: Event, e': Event): seq<Step> {
    [Publish(0, Good(e))] + ([Publish(0, Good(e'))] + ([Start(0)] + ([Assign(0, 0, false)] + [])))
  }

  lemma OpeningReaches(e: Event, e': Event)
    requires e.id != e'.id
    ensures ValidRun(Init(1, _ => 0), Opening(e, e')) && Reached(Init(1, _ => 0), Opening(e, e')) == TwoClicks(e, e')
  {
    var s0 := Init(1, _ => 0);
    assert s0.log == [[]] && s0.high == [0];
    var s1 := Apply(s0, Publish(0, Good(e)));
    assert s0.log[0] + [Good(e)] == [Good(e)] && s1.log == [[Good(e)]];
    var s2 := Apply(s1, Publish(0, Good(e')));
    assert [Good(e)] + [Good(e')] == [Good(e), Good(e')] && s2.log == [[Good(e), Good(e')]];
    var s3 := Apply(s2, Start(0));
    assert Apply(s3, Assign(0, 0, false)) == TwoClicks(e, e');
    Then(s3, Assign(0, 0, false), []);
    Then(s2, Start(0), [Assign(0, 0, false)] + []);
    Then(s1, Publish(0, Good(e')), [Start(0)] + ([Assign(0, 0, false)] + []));
    Then(s0, Publish(0, Good(e)), [Publish(0, Good(e'))] + ([Start(0)] + ([Assign(0, 0, false)] + [])));
  }

  /** Two consumers hold the same two records; one commits both, then the other commits the first. */
  ghost function Rebalance(): seq<Step> {
    [Start(1)] + ([Assign(1, 0, false)] + ([Poll(0, map[0 := 2])] + ([Poll(1, map[0 := 2])] + StaleCommit())))
  }

  ghost function StaleCommit(): seq<Step> {
    [Process(0, 0, NoFault)] + ([Process(0, 0, NoFault)] + ([Process(1, 0, NoFault)] + []))
  }

  /** Both consumers have polled both clicks and processed none. */
  ghost function BothPolled(e: Event, e': Event): State {
    var k := Consumer(map[0 := 2], map[0 := Batch(0, 2)]);
    TwoClicks(e, e').(consumers := map[0 := k, 1 := k])
  }

  lemma BothPoll(e: Event, e': Event)
    ensures var s := TwoClicks(e, e');
            && ValidRun(BothPolled(e, e'), StaleCommit()) ==>
               ValidRun(s, Rebalance()) && Reached(s, Rebalance()) == Reached(BothPolled(e, e'), StaleCommit())
  {
    var s := TwoClicks(e, e');
    var k := Consumer(map[0 := 2], map[0 := Batch(0, 2)]);
    var s1 := Apply(s, Start(1));
    var s2 := Apply(s1, Assign(1, 0, false));
    assert s2.consumers == map[0 := Consumer(map[0 := 0], map[]), 1 := Consumer(map[0 := 0], map[])];
    var s3 := Apply(s2, Poll(0, map[0 := 2]));
    assert s3.consumers[0].pos == k.pos && s3.consumers[0].batch == k.batch;
    assert s3.consumers[1] == Consumer(map[0 := 0], map[]);
    var s4 := Apply(s3, Poll(1, map[0 := 2]));
    assert s4.consumers[1].pos == k.pos && s4.consumers[1].batch == k.batch;
    assert s4.consumers == map[0 := k, 1 := k];
    assert s4 == BothPolled(e, e');
    if ValidRun(s4, StaleCommit()) {
      var rest3 := [Poll(1, map[0 := 2])] + StaleCommit();
      var rest2 := [Poll(0, map[0 := 2])] + rest3;
      Then(s3, Poll(1, map[0 := 2]), StaleCommit());
      Then(s2, Poll(0, map[0 := 2]), rest3);
      Then(s1, Assign(1, 0, false), rest2);
      Then(s, Start(1), [Assign(1, 0, false)] + rest2);
    }
  }

  lemma StaleCommitRewinds(e: Event, e': Event)
    requires e.id != e'.id
    ensures ValidRun(BothPolled(e, e'), StaleCommit())
    ensures Reached(BothPolled(e, e'), StaleCommit()).db == Tables(map[e.id := e, e'.id := e'], map[0 := 1])
  {
    var step := Process(0, 0, NoFault);
    var s := BothPolled(e, e');
    var s1 := Apply(s, step);
    assert s1.db == Tables(map[e.id := e], map[0 := 1]);
    var s2 := Apply(s1, step);
    assert s2.db == Tables(map[e.id := e, e'.id := e'], map[0 := 2]);
    assert s2.consumers[1] == s.consumers[1];
    Then(s2, Process(1, 0, NoFault), []);
    Then(s1, step, [Process(1, 0, NoFault)] + []);
    Then(s, step, [step] + ([Process(1, 0, NoFault)] + []));
  }

  /** Both clicks have their row, and the stored offset is back at 1. */
  ghost predicate MovedBack(steps: seq<Step>, e: Event, e': Event) {
    && ValidRun(Init(1, _ => 0), steps) && NoMixedPolls(steps)
    && Reached(Init(1, _ => 0), steps).db == Tables(map[e.id := e, e'.id := e'], map[0 := 1])
  }

  /** A run from the start in which a stale consumer moves the stored offset back. */
  lemma OffsetMovesBack(e: Event, e': Event)
    requires e.id != e'.id
    ensures exists steps :: MovedBack(steps, e, e')
  {
    hide Apply, Enabled, BothPolled;
    OpeningReaches(e, e');
    BothPoll(e, e');
    StaleCommitRewinds(e, e');
    Join(Init(1, _ => 0), Opening(e, e'), Rebalance());
    assert NoMixedPolls(Opening(e, e')) && NoMixedPolls(Rebalance());
    assert MovedBack(Opening(e, e') + Rebalance(), e, e');
  }

  // ---- A record that never commits is never passed ----

  /** The step's transaction on record k of partition p reaches the database. */
  ghost predicate Commits(s: State, step: Step, p: nat, k: nat) {
    && step.Process? && step.p == p && Enabled(s, step)
    && s.consumers[step.c].batch[p].lo == k && Landed(s.log[p][k], step.fault)
  }

  ghost predicate EverCommits(s: State, steps: seq<Step>, p: nat, k: nat)
    requires |s.high| == |s.log| && ValidRun(s, steps)
    decreases |steps|
  {
    steps != [] && (Commits(s, steps[0], p, k) || EverCommits(Apply(s, steps[0]), steps[1..], p, k))
  }

  lemma StepDoesNotPass(s: State, step: Step, p: nat, k: nat)
    requires |s.high| == |s.log| && ConsumersInv(s) && Enabled(s, step) && !Commits(s, step, p, k)
    requires p < |s.high| && s.high[p] <= k
    ensures p < |Apply(s, step).high| && Apply(s, step).high[p] <= k
  {
    if step.Process? {
      assert ConsumerInv(s.high, s.consumers[step.c]);
    }
  }

  lemma {:induction false} NeverPassedFrom(s: State, steps: seq<Step>, p: nat, k: nat)
    requires Inv(s) && ValidRun(s, steps) && NoMixedPolls(steps) && p < |s.high| && s.high[p] <= k
    requires !EverCommits(s, steps, p, k)
    ensures p < |Reached(s, steps).high| && Reached(s, steps).high[p] <= k
    decreases |steps|
  {
    if steps != [] {
      Keeps(s, steps[0]);
      StepDoesNotPass(s, steps[0], p, k);
      NeverPassedFrom(Apply(s, steps[0]), steps[1..], p, k);
    }
  }

  /** Nothing in partition p is past record k: not the mark, not the stored offset, not a pending batch. */
  ghost predicate NotPassed(s: State, p: nat, k: nat) {
    && p < |s.high| && s.high[p] <= k
    && (p in s.db.offsets ==> s.db.offsets[p] <= k)
    && (forall c :: c in s.consumers && p in s.consumers[c].batch ==> s.consumers[c].batch[p].lo <= k)
  }

  lemma BelowMarkNotPassed(s: State, p: nat, k: nat)
    requires Inv(s) && p < |s.high| && s.high[p] <= k
    ensures NotPassed(s, p, k)
  {
    forall c | c in s.consumers && p in s.consumers[c].batch ensures s.consumers[c].batch[p].lo <= k {
      assert ConsumerInv(s.high, s.consumers[c]);
    }
  }

  /** If no transaction on record (p, k) ever commits, no run of any consumers gets past it. */
  lemma NeverPassed(partitions: nat, route: string -> nat, steps: seq<Step>, p: nat, k: nat)
    requires ValidRun(Init(partitions, route), steps) && NoMixedPolls(steps) && p < partitions
    requires !EverCommits(Init(partitions, route), steps, p, k)
    ensures NotPassed(Reached(Init(partitions, route), steps), p, k)
  {
    var s := Init(partitions, route);
    SumZeros(s.high);
    NeverPassedFrom(s, steps, p, k);
    InvariantFrom(s, steps);
    BelowMarkNotPassed(Reached(s, steps), p, k);
  }

  /** A malformed record in particular stops its partition for good. */
  lemma PoisonPill(partitions: nat, route: string -> nat, steps: seq<Step>, p: nat, k: nat)
    requires ValidRun(Init(partitions, route), steps) && NoMixedPolls(steps)
    requires At(Reached(Init(partitions, route), steps), p, k)
    requires Reached(Init(partitions, route), steps).log[p][k].Malformed?
    ensures NotPassed(Reached(Init(partitions, route), steps), p, k)
  {
    ExactlyOnce(partitions, route, steps);
    var s := Reached(Init(partitions, route), steps);
    assert Below(s, p, k) ==> HasRow(s, p, k);
    BelowMarkNotPassed(s, p, k);
  }
}
