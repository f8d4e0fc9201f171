/**
 * Why a poll must not mix errors and records: the consumer drops the whole poll
 * (cmd/analytics/main.go) while its client has moved on.
 */
module MixedPolls {
  import opened Basics
  import opened ClickStore
  import opened ClickConsumer

  /** The stored offset is past a click that has no row. */
  ghost predicate PassedOver(s: State, p: nat, i: nat) {
    && At(s, p, i) && s.log[p][i].Good? && s.log[p][i].event.id !in s.db.clicks
    && p in s.db.offsets && i < s.db.offsets[p]
  }

  /** Some continuation, without another mixed poll, passes over a click. */
  ghost predicate CanPassOver(s: State)
    requires |s.high| == |s.log|
  {
    exists steps, p, i :: ValidRun(s, steps) && NoMixedPolls(steps) && PassedOver(Reached(s, steps), p, i)
  }

  /** Record x is there and cannot be processed. */
  ghost predicate Blocked(s: State, p: nat, x: nat) {
    At(s, p, x) && s.log[p][x].Malformed?
  }

  /** The poll carried click i of partition p, which is not stored, and what follows the poll can be processed. */
  ghost predicate Skips(s: State, upTo: map<nat, nat>, p: nat, i: nat) {
    && p in upTo && p < |s.high| && s.high[p] <= i < upTo[p]
    && At(s, p, i) && s.log[p][i].Good? && !Blocked(s, p, upTo[p])
  }

  // ---- A poll that skips nothing is harmless, in every continuation ----

  /** A consumer that goes on at x passes over nothing: all clicks before x are stored, or it cannot go on. */
  ghost predicate Safe(s: State, marks: seq<nat>, p: nat, x: nat) {
    p < |marks| && (x <= marks[p] || Blocked(s, p, x))
  }

  ghost predicate SafeConsumer(s: State, marks: seq<nat>, k: Consumer) {
    && (forall p: nat :: p in k.batch ==> Safe(s, marks, p, k.batch[p].lo))
    && (forall p: nat :: p in k.pos ==> SafePos(s, marks, k, p))
  }

  ghost predicate SafePos(s: State, marks: seq<nat>, k: Consumer, p: nat)
    requires p in k.pos
  {
    Safe(s, marks, p, k.pos[p]) || (p < |marks| && p in k.batch && k.pos[p] <= k.batch[p].hi && k.batch[p].lo < k.batch[p].hi)
  }

  ghost predicate Stored(s: State, marks: seq<nat>, p: nat, i: nat) {
    At(s, p, i) && p < |marks| && i < marks[p] && s.log[p][i].Good? ==> HasRow(s, p, i)
  }

  /** The row came from the log. */
  ghost predicate FromLog(s: State, id: string)
    requires id in s.db.clicks
  {
    exists p: nat, i: nat :: IdAt(s, p, i, id) && s.db.clicks[id] == s.log[p][i].event
  }

  ghost predicate RowsSafe(s: State, marks: seq<nat>) {
    && |marks| == |s.log| && (forall p :: 0 <= p < |marks| ==> marks[p] <= |s.log[p]|)
    && (forall p: nat, i: nat :: Stored(s, marks, p, i))
    && (forall id :: id in s.db.clicks ==> FromLog(s, id))
    && (forall p :: p in s.db.offsets ==> p < |marks| && s.db.offsets[p] <= marks[p])
  }

  ghost predicate ConsumersSafe(s: State, marks: seq<nat>) {
    forall c :: c in s.consumers ==> SafeConsumer(s, marks, s.consumers[c])
  }

  /** Like the invariant of exactly-once, for marks that may have jumped over malformed records. */
  ghost predicate AllSafe(s: State, marks: seq<nat>) {
    LogInv(s) && RowsSafe(s, marks) && ConsumersSafe(s, marks)
  }

  lemma NothingPassedOver(s: State, marks: seq<nat>, p: nat, i: nat)
    requires AllSafe(s, marks)
    ensures !PassedOver(s, p, i)
  {
    assert Stored(s, marks, p, i);
  }

  /** The log grew, the marks rose, and the consumers stayed. */
  lemma ConsumersFrame(s: State, s': State, marks: seq<nat>, marks': seq<nat>)
    requires ConsumersSafe(s, marks) && s'.consumers == s.consumers
    requires |s'.log| == |s.log| && forall p :: 0 <= p < |s.log| ==> s.log[p] <= s'.log[p]
    requires |marks'| == |marks| && forall p :: 0 <= p < |marks| ==> marks[p] <= marks'[p]
    ensures ConsumersSafe(s', marks')
  {
    assert forall p: nat, x: nat :: Safe(s, marks, p, x) ==> Safe(s', marks', p, x);
    forall c | c in s'.consumers ensures SafeConsumer(s', marks', s'.consumers[c]) {
      var k := s.consumers[c];
      assert SafeConsumer(s, marks, k);
      assert forall p: nat :: p in k.pos && SafePos(s, marks, k, p) ==> SafePos(s', marks', k, p);
    }
  }

  lemma RowsUntouched(s: State, s': State, marks: seq<nat>)
    requires RowsSafe(s, marks) && s'.db == s.db
    requires |s'.log| == |s.log| && forall p :: 0 <= p < |s.log| ==> s.log[p] <= s'.log[p]
    ensures RowsSafe(s', marks)
  {
    forall p: nat, i: nat ensures Stored(s', marks, p, i) {
      assert Stored(s, marks, p, i);
    }
    forall id | id in s'.db.clicks ensures FromLog(s', id) {
      var p: nat, i: nat :| IdAt(s, p, i, id) && s.db.clicks[id] == s.log[p][i].event;
      assert IdAt(s', p, i, id);
    }
  }

  lemma OthersApart(s: State, s': State, marks: seq<nat>)
    requires LogInv(s) && RowsSafe(s, marks) && s' == s.(consumers := s'.consumers) && ConsumersSafe(s', marks)
    ensures AllSafe(s', marks)
  {
    LogFrame(s, s');
    RowsUntouched(s, s', marks);
  }

  lemma PublishSafe(s: State, marks: seq<nat>, p: nat, v: Value)
    requires AllSafe(s, marks) && Enabled(s, Publish(p, v))
    ensures AllSafe(Apply(s, Publish(p, v)), marks)
  {
    var s' := Apply(s, Publish(p, v));
    PublishKeepsLog(s, p, v);
    RowsUntouched(s, s', marks);
    ConsumersFrame(s, s', marks, marks);
  }

  lemma PollSafe(s: State, marks: seq<nat>, c: nat, upTo: map<nat, nat>)
    requires ConsumersSafe(s, marks) && |s.high| == |s.log| && Enabled(s, Poll(c, upTo))
    ensures SafeConsumer(s, marks, Apply(s, Poll(c, upTo)).consumers[c])
  {
    var k, k' := s.consumers[c], Apply(s, Poll(c, upTo)).consumers[c];
    assert SafeConsumer(s, marks, k);
    forall p: nat | p in k.pos ensures Safe(s, marks, p, k.pos[p]) {
      assert SafePos(s, marks, k, p);
    }
    forall p: nat | p in k'.pos ensures SafePos(s, marks, k', p) {
      assert p in k.pos;
      if p in upTo && k.pos[p] < upTo[p] {
        assert k'.batch[p] == Batch(k.pos[p], upTo[p]);
      }
    }
  }

  lemma AssignSafe(s: State, marks: seq<nat>, c: nat, p: nat, fails: bool)
    requires RowsSafe(s, marks) && ConsumersSafe(s, marks) && |s.high| == |s.log| && Enabled(s, Assign(c, p, fails))
    ensures SafeConsumer(s, marks, Apply(s, Assign(c, p, fails)).consumers[c])
  {
    var k, k' := s.consumers[c], Apply(s, Assign(c, p, fails)).consumers[c];
    assert SafeConsumer(s, marks, k);
    forall q: nat | q in k'.pos ensures SafePos(s, marks, k', q) {
      assert q != p ==> SafePos(s, marks, k, q);
    }
  }

  lemma RevokeSafe(s: State, marks: seq<nat>, c: nat, p: nat)
    requires ConsumersSafe(s, marks) && |s.high| == |s.log| && Enabled(s, Revoke(c, p))
    ensures SafeConsumer(s, marks, Apply(s, Revoke(c, p)).consumers[c])
  {
    var k, k' := s.consumers[c], Apply(s, Revoke(c, p)).consumers[c];
    assert SafeConsumer(s, marks, k);
    forall q: nat | q in k'.pos ensures SafePos(s, marks, k', q) {
      assert SafePos(s, marks, k, q);
    }
  }

  lemma ConsumerStepSafe(s: State, marks: seq<nat>, step: Step)
    requires AllSafe(s, marks) && Enabled(s, step)
    requires step.Start? || step.Assign? || step.Revoke? || step.Poll? || step.Crash?
    ensures AllSafe(Apply(s, step), marks)
  {
    var s' := Apply(s, step);
    LogFrame(s, s');
    RowsUntouched(s, s', marks);
    match step {
      case Assign(c, p, fails) => AssignSafe(s, marks, c, p, fails);
      case Revoke(c, p) => RevokeSafe(s, marks, c, p);
      case Poll(c, upTo) => PollSafe(s, marks, c, upTo);
      case _ =>
    }
    forall c | c in s'.consumers ensures SafeConsumer(s', marks, s'.consumers[c]) {
      if c in s.consumers {
        assert SafeConsumer(s, marks, s.consumers[c]);
      }
      SameLog(s, s', marks, s'.consumers[c]);
    }
  }

  lemma SameLog(s: State, s': State, marks: seq<nat>, k: Consumer)
    requires s'.log == s.log
    ensures SafeConsumer(s, marks, k) <==> SafeConsumer(s', marks, k)
  {
    assert forall p: nat, x: nat :: Safe(s, marks, p, x) <==> Safe(s', marks, p, x);
    assert forall p: nat :: p in k.pos ==> (SafePos(s, marks, k, p) <==> SafePos(s', marks, k, p));
  }

  /** A commit at or below the mark: the row is new or was there already. */
  lemma LandingSafe(s: State, marks: seq<nat>, p: nat, i: nat, s': State)
    requires LogInv(s) && RowsSafe(s, marks) && At(s, p, i) && i <= marks[p] && s.log[p][i].Good?
    requires s'.log == s.log && s'.db == Committed(s.db, p, i, s.log[p][i].event)
    ensures RowsSafe(s', Raise(marks, p, i + 1))
  {
    var e := s.log[p][i].event;
    assert IdAt(s, p, i, e.id);
    if e.id in s.db.clicks {
      var q: nat, j: nat :| IdAt(s, q, j, e.id) && s.db.clicks[e.id] == s.log[q][j].event;
    }
    assert s'.db.clicks == s.db.clicks[e.id := e];
    var marks' := Raise(marks, p, i + 1);
    forall q: nat, j: nat ensures Stored(s', marks', q, j) {
      StoredStays(s, marks, p, i, s', q, j);
    }
    forall id | id in s'.db.clicks ensures FromLog(s', id) {
      if id == e.id {
        assert IdAt(s', p, i, id);
      } else {
        var q: nat, j: nat :| IdAt(s, q, j, id) && s.db.clicks[id] == s.log[q][j].event;
        assert IdAt(s', q, j, id);
      }
    }
  }

  lemma StoredStays(s: State, marks: seq<nat>, p: nat, i: nat, s': State, q: nat, j: nat)
    requires LogInv(s) && Stored(s, marks, q, j) && At(s, p, i) && p < |marks| && i <= marks[p] && s.log[p][i].Good?
    requires s'.log == s.log && s'.db.clicks == s.db.clicks[s.log[p][i].event.id := s.log[p][i].event]
    ensures Stored(s', Raise(marks, p, i + 1), q, j)
  {
    var id := s.log[p][i].event.id;
    assert IdAt(s, p, i, id);
    if At(s, q, j) && s.log[q][j].Good? && s.log[q][j].event.id == id {
      assert IdAt(s, q, j, id);
    }
  }

  lemma ProcessSafe(s: State, marks: seq<nat>, c: nat, p: nat, f: Fault) returns (marks': seq<nat>)
    requires AllSafe(s, marks) && Enabled(s, Process(c, p, f))
    ensures AllSafe(Apply(s, Process(c, p, f)), marks')
  {
    var s' := Apply(s, Process(c, p, f));
    var k := s.consumers[c];
    var lo := k.batch[p].lo;
    assert SafeConsumer(s, marks, k) && Safe(s, marks, p, lo);
    LogFrame(s, s');
    if Landed(s.log[p][lo], f) {
      marks' := Raise(marks, p, lo + 1);
      LandingSafe(s, marks, p, lo, s');
    } else {
      marks' := marks;
      RowsUntouched(s, s', marks);
    }
    ProcessedSafe(s, marks, marks', s', c, p, f);
  }

  lemma ProcessedSafe(s: State, marks: seq<nat>, marks': seq<nat>, s': State, c: nat, p: nat, f: Fault)
    requires AllSafe(s, marks) && Enabled(s, Process(c, p, f)) && s' == Apply(s, Process(c, p, f))
    requires p < |marks| && marks' == if Landed(s.log[p][s.consumers[c].batch[p].lo], f)
                                      then Raise(marks, p, s.consumers[c].batch[p].lo + 1) else marks
    ensures ConsumersSafe(s', marks')
  {
    var k := s.consumers[c];
    var mid := s'.(consumers := s.consumers);
    ConsumersFrame(s, mid, marks, marks');
    forall d | d in s'.consumers ensures SafeConsumer(s', marks', s'.consumers[d]) {
      assert SafeConsumer(mid, marks', mid.consumers[d]);
      if d == c {
        MovesUp(mid, marks', k, p);
      }
      SameLog(mid, s', marks', s'.consumers[d]);
    }
  }

  lemma MovesUp(s: State, marks: seq<nat>, k: Consumer, p: nat)
    requires SafeConsumer(s, marks, k) && p in k.batch && p < |marks| && k.batch[p].lo < marks[p]
    ensures SafeConsumer(s, marks, k.(batch := k.batch[p := Batch(k.batch[p].lo + 1, k.batch[p].hi)]))
  {
    var k' := k.(batch := k.batch[p := Batch(k.batch[p].lo + 1, k.batch[p].hi)]);
    forall q: nat | q in k'.pos ensures SafePos(s, marks, k', q) {
      assert SafePos(s, marks, k, q);
    }
  }

  lemma StepSafe(s: State, marks: seq<nat>, step: Step) returns (marks': seq<nat>)
    requires AllSafe(s, marks) && Enabled(s, step) && !step.MixedPoll?
    ensures AllSafe(Apply(s, step), marks')
  {
    marks' := marks;
    if step.Publish? {
      PublishSafe(s, marks, step.p, step.value);
    } else if step.Process? {
      marks' := ProcessSafe(s, marks, step.c, step.p, step.fault);
    } else {
      ConsumerStepSafe(s, marks, step);
    }
  }

  lemma {:induction false} SafeForever(s: State, marks: seq<nat>, steps: seq<Step>, p: nat, i: nat)
    requires AllSafe(s, marks) && ValidRun(s, steps) && NoMixedPolls(steps)
    ensures !PassedOver(Reached(s, steps), p, i)
    decreases |steps|
  {
    if steps == [] {
      NothingPassedOver(s, marks, p, i);
    } else {
      var marks' := StepSafe(s, marks, steps[0]);
      SafeForever(Apply(s, steps[0]), marks', steps[1..], p, i);
    }
  }

  /** The marks after a mixed poll that skips nothing: past the malformed records it carried. */
  ghost function JumpedMarks(s: State, upTo: map<nat, nat>): (marks: seq<nat>)
    ensures |marks| == |s.high|
  {
    seq(|s.high|, p requires 0 <= p < |s.high| =>
      if p in upTo && upTo[p] > s.high[p] && !Blocked(s, p, upTo[p]) then upTo[p] else s.high[p])
  }

  lemma JumpedRows(s: State, upTo: map<nat, nat>)
    requires Inv(s) && (forall p :: p in upTo ==> p < |s.log| && upTo[p] <= |s.log[p]|)
    requires forall p, i :: !Skips(s, upTo, p, i)
    ensures RowsSafe(s, JumpedMarks(s, upTo))
  {
    var marks := JumpedMarks(s, upTo);
    forall p: nat, i: nat ensures Stored(s, marks, p, i) {
      assert !Skips(s, upTo, p, i);
      assert Below(s, p, i) ==> HasRow(s, p, i);
    }
    forall id | id in s.db.clicks ensures FromLog(s, id) {
      var p: nat, i: nat :| Below(s, p, i) && IdAt(s, p, i, id);
      assert HasRow(s, p, i);
    }
  }

  lemma InOrderIsSafe(s: State, marks: seq<nat>, k: Consumer)
    requires ConsumerInv(s.high, k) && |marks| == |s.high| && forall p :: 0 <= p < |marks| ==> s.high[p] <= marks[p]
    ensures SafeConsumer(s, marks, k)
  {
    forall p: nat | p in k.pos ensures SafePos(s, marks, k, p) {
      assert PosInv(s.high[p], k, p);
    }
  }

  lemma DropperIsSafe(s: State, c: nat, upTo: map<nat, nat>)
    requires Inv(s) && Enabled(s, MixedPoll(c, upTo))
    ensures SafeConsumer(s, JumpedMarks(s, upTo), Apply(s, MixedPoll(c, upTo)).consumers[c])
  {
    var marks := JumpedMarks(s, upTo);
    var k, k' := s.consumers[c], Apply(s, MixedPoll(c, upTo)).consumers[c];
    assert ConsumerInv(s.high, k);
    forall p: nat | p in k'.pos ensures SafePos(s, marks, k', p) {
      assert PosInv(s.high[p], k, p);
      assert Safe(s, marks, p, k'.pos[p]);
    }
  }

  lemma AfterDrop(s: State, c: nat, upTo: map<nat, nat>)
    requires Inv(s) && Enabled(s, MixedPoll(c, upTo))
    ensures ConsumersSafe(Apply(s, MixedPoll(c, upTo)), JumpedMarks(s, upTo))
  {
    var s' := Apply(s, MixedPoll(c, upTo));
    var marks := JumpedMarks(s, upTo);
    DropperIsSafe(s, c, upTo);
    assert forall p :: 0 <= p < |marks| ==> s.high[p] <= marks[p];
    hide JumpedMarks, SafeConsumer;
    forall d | d in s'.consumers ensures SafeConsumer(s', marks, s'.consumers[d]) {
      if d != c {
        InOrderIsSafe(s, marks, s.consumers[d]);
      }
      SameLog(s, s', marks, s'.consumers[d]);
    }
  }

  lemma SkipsNothing(s: State, c: nat, upTo: map<nat, nat>)
    requires Inv(s) && Enabled(s, MixedPoll(c, upTo)) && forall p, i :: !Skips(s, upTo, p, i)
    ensures AllSafe(Apply(s, MixedPoll(c, upTo)), JumpedMarks(s, upTo))
  {
    hide JumpedMarks, ConsumersSafe, RowsSafe, RowsInv, MarksInv, ConsumersInv;
    AfterDrop(s, c, upTo);
    JumpedRows(s, upTo);
    OthersApart(s, Apply(s, MixedPoll(c, upTo)), JumpedMarks(s, upTo));
  }

  // ---- A poll that skips a click can have it passed over ----

  lemma UnstoredAbove(s: State, p: nat, i: nat)
    requires Inv(s) && At(s, p, i) && s.log[p][i].Good? && s.high[p] <= i
    ensures s.log[p][i].event.id !in s.db.clicks
  {
    var id := s.log[p][i].event.id;
    if id in s.db.clicks {
      var q: nat, j: nat :| Below(s, q, j) && IdAt(s, q, j, id);
      assert IdAt(s, p, i, id);
      assert false;
    }
  }

  /** The consumer is about to fetch record x, which can be processed, and click i before it is not stored. */
  ghost predicate AboutToPass(s: State, c: nat, p: nat, i: nat, x: nat) {
    && LogInv(s) && c in s.consumers && s.consumers[c].batch == map[] && p in s.consumers[c].pos
    && s.consumers[c].pos[p] == x && i < x && At(s, p, x) && s.log[p][x].Good?
    && s.log[p][i].Good? && s.log[p][i].event.id !in s.db.clicks
  }

  lemma Passes(s: State, c: nat, p: nat, i: nat, x: nat)
    requires AboutToPass(s, c, p, i, x)
    ensures CanPassOver(s)
  {
    var poll, process := Poll(c, map[p := x + 1]), Process(c, p, NoFault);
    var s1 := Apply(s, poll);
    assert s1.consumers[c].batch == map[p := Batch(x, x + 1)];
    var s2 := Apply(s1, process);
    Then(s1, process, []);
    Then(s, poll, [process] + []);
    assert IdAt(s, p, x, s.log[p][x].event.id) && IdAt(s, p, i, s.log[p][i].event.id);
    assert PassedOver(s2, p, i);
    var steps := [poll] + ([process] + []);
    assert NoMixedPolls(steps) && Reached(s, steps) == s2;
  }

  ghost function Ids(s: State): set<string> {
    set p: nat, i: nat | p < |s.log| && i < |s.log[p]| && s.log[p][i].Good? :: s.log[p][i].event.id
  }

  /** A click can always be published after click i of the same code. */
  lemma NextClick(s: State, p: nat, i: nat) returns (v: Value)
    requires LogInv(s) && At(s, p, i) && s.log[p][i].Good?
    ensures v.Good? && Enabled(s, Publish(p, v))
  {
    var id := FreshString(Ids(s));
    v := Good(s.log[p][i].event.(id := id));
    forall q: nat, j: nat | At(s, q, j) && s.log[q][j].Good? ensures s.log[q][j].event.id != id {
      assert s.log[q][j].event.id in Ids(s);
    }
  }

  lemma CanStillPass(s: State, step: Step)
    requires |s.high| == |s.log| && Enabled(s, step) && !step.MixedPoll? && CanPassOver(Apply(s, step))
    ensures CanPassOver(s)
  {
    var steps, p, i :| ValidRun(Apply(s, step), steps) && NoMixedPolls(steps) && PassedOver(Reached(Apply(s, step), steps), p, i);
    Then(s, step, steps);
    assert NoMixedPolls([step] + steps);
  }

  lemma SkippedIsPassed(s: State, c: nat, upTo: map<nat, nat>, p: nat, i: nat)
    requires Inv(s) && Enabled(s, MixedPoll(c, upTo)) && Skips(s, upTo, p, i)
    ensures CanPassOver(Apply(s, MixedPoll(c, upTo)))
  {
    var s' := Apply(s, MixedPoll(c, upTo));
    UnstoredAbove(s, p, i);
    LogFrame(s, s');
    if upTo[p] < |s.log[p]| {
      Passes(s', c, p, i, upTo[p]);
    } else {
      var v := NextClick(s', p, i);
      PublishKeepsLog(s', p, v);
      Passes(Apply(s', Publish(p, v)), c, p, i, upTo[p]);
      CanStillPass(s', Publish(p, v));
    }
  }

  /**
   * A dropped mixed poll can lead to a click being passed over, with no further fault of the kind, if
   * and only if it carried a click that is not stored and the record after the poll is not malformed.
   */
  lemma MixedPollBoundary(s: State, c: nat, upTo: map<nat, nat>)
    requires Inv(s) && Enabled(s, MixedPoll(c, upTo))
    ensures CanPassOver(Apply(s, MixedPoll(c, upTo))) <==> exists p, i :: Skips(s, upTo, p, i)
  {
    var s' := Apply(s, MixedPoll(c, upTo));
    if p, i :| Skips(s, upTo, p, i) {
      SkippedIsPassed(s, c, upTo, p, i);
    } else {
      SkipsNothing(s, c, upTo);
      forall steps, p, i | ValidRun(s', steps) && NoMixedPolls(steps) ensures !PassedOver(Reached(s', steps), p, i) {
        SafeForever(s', JumpedMarks(s, upTo), steps, p, i);
      }
    }
  }

  // ---- A run ----

  ghost predicate LosesClick(steps: seq<Step>, e: Event, e': Event) {
    && ValidRun(Init(1, _ => 0), steps)
    && var t := Reached(Init(1, _ => 0), steps).db;
       e.id !in t.clicks && e'.id in t.clicks && t.offsets == map[0 := 2]
  }

  ghost function Closing(): seq<Step> {
    [MixedPoll(0, map[0 := 1])] + ([Poll(0, map[0 := 2])] + ([Process(0, 0, NoFault)] + []))
  }

  lemma ClosingSkips(e: Event, e': Event)
    ensures ValidRun(TwoClicks(e, e'), Closing())
    ensures Reached(TwoClicks(e, e'), Closing()).db == Tables(map[e'.id := e'], map[0 := 2])
  {
    var s4 := TwoClicks(e, e');
    var s5 := Apply(s4, MixedPoll(0, map[0 := 1]));
    assert s5.consumers[0].pos == map[0 := 1] && s5.consumers[0].batch == map[];
    var s6 := Apply(s5, Poll(0, map[0 := 2]));
    assert s6.consumers[0].batch == map[0 := Batch(1, 2)];
    Then(s6, Process(0, 0, NoFault), []);
    Then(s5, Poll(0, map[0 := 2]), [Process(0, 0, NoFault)] + []);
    Then(s4, MixedPoll(0, map[0 := 1]), [Poll(0, map[0 := 2])] + ([Process(0, 0, NoFault)] + []));
  }

  /** One mixed poll, and a click is passed over: the next one is recorded and the offset is past both. */
  lemma MixedPollLosesClick(e: Event, e': Event)
    requires e.id != e'.id
    ensures exists steps :: LosesClick(steps, e, e')
  {
    OpeningReaches(e, e');
    ClosingSkips(e, e');
    Join(Init(1, _ => 0), Opening(e, e'), Closing());
    assert LosesClick(Opening(e, e') + Closing(), e, e');
  }
}
