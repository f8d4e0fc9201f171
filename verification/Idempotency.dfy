/**
 * Idempotent creates: createLink (internal/http/links.go) over the key map of
 * internal/idempotency. One step is one Redis command, one create or one reply; requests
 * interleave freely. Keys do not expire within a run.
 */
module IdempotentCreate {
  import opened Basics

  /** Where a request carrying an Idempotency-Key stands. */
  datatype Phase = Looking | Creating | Created(code: string) | Beaten(code: string) | Replaying(code: string)

  datatype Request = Request(key: string, phase: Phase)

  /** A link row, and the request that inserted it. */
  datatype Row = Row(key: string, rid: nat)

  /** A 201. `failOpen` marks one sent without the key map, after a Redis error. */
  datatype Reply = Reply(key: string, code: string, failOpen: bool)

  datatype State = State(keys: map<string, string>, rows: map<string, Row>, requests: map<nat, Request>,
                         nextRid: nat, replies: seq<Reply>)

  datatype Step =
    | Arrive(key: string)
    | Get(rid: nat)
    | GetFails(rid: nat)
    | Insert(rid: nat, code: string, reported: bool)   // svc.Create stored a row; its answer may be lost
    | InsertFails(rid: nat)
    | SetNX(rid: nat)
    | SetFails(rid: nat, applied: bool)
    | GetAgain(rid: nat)
    | GetAgainFails(rid: nat)
    | Replay(rid: nat, resolved: bool)
    | Abandon(rid: nat)                                // the client or the pod goes away

  ghost function Init(): State {
    State(map[], map[], map[], 0, [])
  }

  ghost predicate Enabled(s: State, step: Step) {
    match step
    case Arrive(_) => true
    case Get(r) => r in s.requests && s.requests[r].phase.Looking?
    case GetFails(r) => r in s.requests && s.requests[r].phase.Looking?
    case Insert(r, code, _) => r in s.requests && s.requests[r].phase.Creating? && code !in s.rows
    case InsertFails(r) => r in s.requests && s.requests[r].phase.Creating?
    case SetNX(r) => r in s.requests && s.requests[r].phase.Created?
    case SetFails(r, _) => r in s.requests && s.requests[r].phase.Created?
    case GetAgain(r) => r in s.requests && s.requests[r].phase.Beaten?
    case GetAgainFails(r) => r in s.requests && s.requests[r].phase.Beaten?
    case Replay(r, _) => r in s.requests && s.requests[r].phase.Replaying?
    case Abandon(r) => r in s.requests
  }

  ghost function Move(s: State, rid: nat, phase: Phase): State
    requires rid in s.requests
  {
    s.(requests := s.requests[rid := s.requests[rid].(phase := phase)])
  }

  ghost function End(s: State, rid: nat): State {
    s.(requests := s.requests - {rid})
  }

  ghost function Send(s: State, rid: nat, code: string, failOpen: bool): State
    requires rid in s.requests
  {
    End(s, rid).(replies := s.replies + [Reply(s.requests[rid].key, code, failOpen)])
  }

  ghost function Apply(s: State, step: Step): State
    requires Enabled(s, step)
  {
    match step
    case Arrive(key) => s.(requests := s.requests[s.nextRid := Request(key, Looking)], nextRid := s.nextRid + 1)
    case Get(r) =>
      var key := s.requests[r].key;
      Move(s, r, if key in s.keys then Replaying(s.keys[key]) else Creating)
    case GetFails(r) => Move(s, r, Creating)
    case Insert(r, code, reported) =>
      var s' := s.(rows := s.rows[code := Row(s.requests[r].key, r)]);
      if reported then Move(s', r, Created(code)) else End(s', r)
    case InsertFails(r) => End(s, r)
    case SetNX(r) =>
      var q := s.requests[r];
      if q.key in s.keys then Move(s, r, Beaten(q.phase.code))
      else Send(s, r, q.phase.code, false).(keys := s.keys[q.key := q.phase.code])
    case SetFails(r, applied) =>
      var q := s.requests[r];
      Send(s, r, q.phase.code, true).(keys := if applied && q.key !in s.keys then s.keys[q.key := q.phase.code] else s.keys)
    case GetAgain(r) =>
      var q := s.requests[r];
      if q.key in s.keys then Move(s, r, Replaying(s.keys[q.key])) else Send(s, r, q.phase.code, true)
    case GetAgainFails(r) => Send(s, r, s.requests[r].phase.code, true)
    case Replay(r, resolved) => if resolved then Send(s, r, s.requests[r].phase.code, false) else End(s, r)
    case Abandon(r) => End(s, r)
  }

  ghost predicate ValidRun(s: State, steps: seq<Step>)
    decreases |steps|
  {
    steps == [] || (Enabled(s, steps[0]) && ValidRun(Apply(s, steps[0]), steps[1..]))
  }

  ghost function Reached(s: State, steps: seq<Step>): State
    requires ValidRun(s, steps)
    decreases |steps|
  {
    if steps == [] then s else Reached(Apply(s, steps[0]), steps[1..])
  }

  ghost predicate RedisFault(step: Step) {
    step.GetFails? || step.SetFails? || step.GetAgainFails?
  }

  ghost predicate RedisAnswers(steps: seq<Step>) {
    forall i :: 0 <= i < |steps| ==> !RedisFault(steps[i])
  }

  /** Redis answers what comes after a create: the SETNX, and the GET of a request it beat. */
  ghost predicate RecordingAnswers(steps: seq<Step>) {
    forall i :: 0 <= i < |steps| ==> !steps[i].SetFails? && !steps[i].GetAgainFails?
  }

  // ---- Convergence ----

  ghost predicate Inv(s: State) {
    && (forall r :: r in s.requests ==> r < s.nextRid)
    && (forall r :: r in s.requests && s.requests[r].phase.Replaying? ==>
          s.requests[r].key in s.keys && s.keys[s.requests[r].key] == s.requests[r].phase.code)
    && (forall r :: r in s.requests && s.requests[r].phase.Beaten? ==> s.requests[r].key in s.keys)
    && (forall a :: a in s.replies && !a.failOpen ==> a.key in s.keys && s.keys[a.key] == a.code)
  }

  /** The first recorded code stays: SETNX never overwrites. */
  lemma KeyStays(s: State, step: Step, key: string)
    requires Enabled(s, step) && key in s.keys
    ensures key in Apply(s, step).keys && Apply(s, step).keys[key] == s.keys[key]
  {
  }

  lemma Keeps(s: State, step: Step)
    requires Inv(s) && Enabled(s, step)
    ensures Inv(Apply(s, step))
  {
    forall key | key in s.keys ensures key in Apply(s, step).keys && Apply(s, step).keys[key] == s.keys[key] {
      KeyStays(s, step, key);
    }
  }

  lemma {:induction false} InvariantFrom(s: State, steps: seq<Step>)
    requires Inv(s) && ValidRun(s, steps)
    ensures Inv(Reached(s, steps))
    decreases |steps|
  {
    if steps != [] {
      Keeps(s, steps[0]);
      InvariantFrom(Apply(s, steps[0]), steps[1..]);
    }
  }

  ghost predicate Agree(s: State, key: string) {
    forall a, b :: a in s.replies && b in s.replies && a.key == key && b.key == key ==> a.code == b.code
  }

  /** Every 201 sent for the key so far names the code recorded under it. */
  ghost predicate Recorded(s: State, key: string) {
    forall a :: a in s.replies && a.key == key ==> key in s.keys && s.keys[key] == a.code
  }

  lemma {:induction false} RecordedStays(s: State, steps: seq<Step>, key: string)
    requires Inv(s) && Recorded(s, key) && ValidRun(s, steps) && RecordingAnswers(steps)
    ensures Recorded(Reached(s, steps), key)
    decreases |steps|
  {
    if steps != [] {
      Keeps(s, steps[0]);
      RecordedStep(s, steps[0], key);
      RecordedStays(Apply(s, steps[0]), steps[1..], key);
    }
  }

  lemma RecordedStep(s: State, step: Step, key: string)
    requires Inv(s) && Recorded(s, key) && Enabled(s, step) && !step.SetFails? && !step.GetAgainFails?
    ensures Recorded(Apply(s, step), key)
  {
  }

  /**
   * With Redis answering once a row is stored, every 201 for a key carries one and the same code, in
   * any interleaving. A first GET that fails is tolerated.
   */
  lemma Converges(steps: seq<Step>, key: string)
    requires ValidRun(Init(), steps) && RecordingAnswers(steps)
    ensures Agree(Reached(Init(), steps), key)
  {
    RecordedStays(Init(), steps, key);
  }

  /** From s on, as long as Redis answers, all 201s for the key agree, those already sent included. */
  ghost predicate KeepsAgreeing(s: State, key: string) {
    forall steps :: ValidRun(s, steps) && RecordingAnswers(steps) ==> Agree(Reached(s, steps), key)
  }

  /** A request, by itself, that finds the key recorded. */
  ghost function Retry(rid: nat, key: string): seq<Step> {
    [Arrive(key)] + ([Get(rid)] + ([Replay(rid, true)] + []))
  }

  lemma RetryRun(s: State, key: string)
    requires key in s.keys
    ensures ValidRun(s, Retry(s.nextRid, key))
    ensures Reached(s, Retry(s.nextRid, key)).replies == s.replies + [Reply(key, s.keys[key], false)]
  {
    var r := s.nextRid;
    var s1 := Apply(s, Arrive(key));
    var s2 := Apply(s1, Get(r));
    Then(s2, Replay(r, true), []);
    Then(s1, Get(r), [Replay(r, true)] + []);
    Then(s, Arrive(key), [Get(r)] + ([Replay(r, true)] + []));
  }

  /** One more request, with no fault at all, is answered with another code. */
  lemma OneMoreDiverges(s: State, key: string, a: Reply) returns (steps: seq<Step>)
    requires Inv(s) && a in s.replies && a.key == key && !(key in s.keys && s.keys[key] == a.code)
    ensures ValidRun(s, steps) && RedisAnswers(steps) && !Agree(Reached(s, steps), key)
  {
    var b;
    if key in s.keys {
      steps, b := Retry(s.nextRid, key), Reply(key, s.keys[key], false);
      RetryRun(s, key);
    } else {
      var code := FreshString(s.rows.Keys + {a.code});
      steps, b := Solo(s.nextRid, key, code, SetNX(s.nextRid)), Reply(key, code, false);
      SoloRun(s, key, code);
    }
    var s' := Reached(s, steps);
    assert s'.replies == s.replies + [b];
    assert a in s'.replies && b in s'.replies;
  }

  /**
   * When convergence holds in spite of Redis faults so far: from any state on, the 201s of a key all
   * agree as long as Redis answers, if and only if each one already sent names the recorded code.
   * Otherwise one more request without any fault is enough for a second answer.
   */
  lemma ConvergesExactly(s: State, key: string)
    requires Inv(s)
    ensures KeepsAgreeing(s, key) <==> Recorded(s, key)
    ensures !Recorded(s, key) ==> exists steps :: ValidRun(s, steps) && RedisAnswers(steps) && !Agree(Reached(s, steps), key)
  {
    if Recorded(s, key) {
      forall steps | ValidRun(s, steps) && RecordingAnswers(steps) ensures Agree(Reached(s, steps), key) {
        RecordedStays(s, steps, key);
      }
    } else {
      var a :| a in s.replies && a.key == key && !(key in s.keys && s.keys[key] == a.code);
      var steps := OneMoreDiverges(s, key, a);
      assert RecordingAnswers(steps);
    }
  }

  /** Even through Redis faults, the 201s that went through the key map agree. */
  lemma RecordedAgree(steps: seq<Step>, a: Reply, b: Reply)
    requires ValidRun(Init(), steps) && a.key == b.key && !a.failOpen && !b.failOpen
    requires a in Reached(Init(), steps).replies && b in Reached(Init(), steps).replies
    ensures a.code == b.code
  {
    InvariantFrom(Init(), steps);
  }

  lemma Then(s: State, step: Step, rest: seq<Step>)
    requires Enabled(s, step) && ValidRun(Apply(s, step), rest)
    ensures ValidRun(s, [step] + rest) && Reached(s, [step] + rest) == Reached(Apply(s, step), rest)
  {
    assert ([step] + rest)[1..] == rest;
  }

  /** One request, by itself, that finds no key and stores `code`. */
  ghost function Solo(rid: nat, key: string, code: string, record: Step): seq<Step> {
    [Arrive(key)] + ([Get(rid)] + ([Insert(rid, code, true)] + ([record] + [])))
  }

  /** A SETNX that fails open leaves the key free, and the retry is answered with another link. */
  lemma FailOpenDiverges(key: string, a: string, b: string)
    requires a != b
    ensures exists steps :: ValidRun(Init(), steps) &&
              Reached(Init(), steps).replies == [Reply(key, a, true), Reply(key, b, false)]
  {
    var rest := Solo(1, key, b, SetNX(1));
    var s0 := Init();
    var s1 := Apply(s0, Arrive(key));
    var s2 := Apply(s1, Get(0));
    var s3 := Apply(s2, Insert(0, a, true));
    var s4 := Apply(s3, SetFails(0, false));
    assert s4 == State(map[], map[a := Row(key, 0)], map[], 1, [Reply(key, a, true)]);
    SoloRun(s4, key, b);
    Then(s3, SetFails(0, false), rest);
    Then(s2, Insert(0, a, true), [SetFails(0, false)] + rest);
    Then(s1, Get(0), [Insert(0, a, true)] + ([SetFails(0, false)] + rest));
    Then(s0, Arrive(key), [Get(0)] + ([Insert(0, a, true)] + ([SetFails(0, false)] + rest)));
  }

  lemma SoloRun(s: State, key: string, code: string)
    requires key !in s.keys && code !in s.rows
    ensures ValidRun(s, Solo(s.nextRid, key, code, SetNX(s.nextRid)))
    ensures Reached(s, Solo(s.nextRid, key, code, SetNX(s.nextRid))).replies == s.replies + [Reply(key, code, false)]
    ensures Reached(s, Solo(s.nextRid, key, code, SetNX(s.nextRid))).rows == s.rows[code := Row(key, s.nextRid)]
  {
    var r := s.nextRid;
    var s1 := Apply(s, Arrive(key));
    var s2 := Apply(s1, Get(r));
    var s3 := Apply(s2, Insert(r, code, true));
    Then(s3, SetNX(r), []);
    Then(s2, Insert(r, code, true), [SetNX(r)] + []);
    Then(s1, Get(r), [Insert(r, code, true)] + ([SetNX(r)] + []));
    Then(s, Arrive(key), [Get(r)] + ([Insert(r, code, true)] + ([SetNX(r)] + [])));
  }

  // ---- A request that comes after the winner creates nothing ----

  /** Of the requests for the key that arrived from `since` on, only those whose first GET failed reach the create. */
  ghost predicate LateQuiet(s: State, key: string, since: nat, steps: seq<Step>) {
    && key in s.keys && since <= s.nextRid
    && (forall r :: r in s.requests && r >= since && s.requests[r].key == key && GetFails(r) !in steps ==>
          s.requests[r].phase.Looking? || s.requests[r].phase.Replaying?)
    && (forall c :: c in s.rows && s.rows[c].key == key && s.rows[c].rid >= since ==> GetFails(s.rows[c].rid) in steps)
  }

  lemma LateQuietStays(s: State, step: Step, key: string, since: nat, steps: seq<Step>)
    requires LateQuiet(s, key, since, steps) && Enabled(s, step) && step in steps
    ensures LateQuiet(Apply(s, step), key, since, steps)
  {
  }

  lemma {:induction false} LateQuietFrom(s: State, rest: seq<Step>, key: string, since: nat, steps: seq<Step>)
    requires LateQuiet(s, key, since, steps) && ValidRun(s, rest) && forall step :: step in rest ==> step in steps
    ensures LateQuiet(Reached(s, rest), key, since, steps)
    decreases |rest|
  {
    if rest != [] {
      LateQuietStays(s, rest[0], key, since, steps);
      LateQuietFrom(Apply(s, rest[0]), rest[1..], key, since, steps);
    }
  }

  ghost predicate RowsBeforeNow(s: State) {
    forall c :: c in s.rows ==> s.rows[c].rid < s.nextRid
  }

  lemma {:induction false} RowsBeforeNowFrom(s: State, steps: seq<Step>)
    requires Inv(s) && RowsBeforeNow(s) && ValidRun(s, steps)
    ensures RowsBeforeNow(Reached(s, steps))
    decreases |steps|
  {
    if steps != [] {
      Keeps(s, steps[0]);
      RowsBeforeNowFrom(Apply(s, steps[0]), steps[1..]);
    }
  }

  /** Once a key is recorded, a request that arrives later with it inserts a row only if its first GET fails. */
  lemma LateCreatesNothing(steps: seq<Step>, more: seq<Step>, key: string, code: string)
    requires ValidRun(Init(), steps) && key in Reached(Init(), steps).keys
    requires ValidRun(Reached(Init(), steps), more)
    requires code in Reached(Reached(Init(), steps), more).rows
    requires Reached(Reached(Init(), steps), more).rows[code].key == key
    ensures var rid := Reached(Reached(Init(), steps), more).rows[code].rid;
            rid < Reached(Init(), steps).nextRid || GetFails(rid) in more
  {
    var s := Reached(Init(), steps);
    InvariantFrom(Init(), steps);
    RowsBeforeNowFrom(Init(), steps);
    LateQuietFrom(s, more, key, s.nextRid, more);
  }

  // ---- Sequential retries ----

  /** The client sends a key again only when it has no request with it in flight. */
  ghost predicate Sequential(s: State, step: Step) {
    step.Arrive? ==> forall r :: r in s.requests ==> s.requests[r].key != step.key
  }

  /** The step leaves behind a row that was stored for the key but never recorded under it. */
  ghost predicate Strands(s: State, step: Step, key: string) {
    && (step.Insert? || step.Abandon?) && step.rid in s.requests && s.requests[step.rid].key == key
    && (step.Insert? ==> !step.reported)
    && (step.Abandon? ==> s.requests[step.rid].phase.Created?)
  }

  ghost predicate SequentialRun(s: State, steps: seq<Step>)
    requires ValidRun(s, steps)
    decreases |steps|
  {
    steps == [] ||
    (Sequential(s, steps[0]) && !RedisFault(steps[0]) && SequentialRun(Apply(s, steps[0]), steps[1..]))
  }

  /** How many rows the run strands for the key. */
  ghost function Stranded(s: State, steps: seq<Step>, key: string): nat
    requires ValidRun(s, steps)
    decreases |steps|
  {
    if steps == [] then 0
    else (if Strands(s, steps[0], key) then 1 else 0) + Stranded(Apply(s, steps[0]), steps[1..], key)
  }

  ghost predicate Alone(s: State) {
    forall q, r :: q in s.requests && r in s.requests && s.requests[q].key == s.requests[r].key ==> q == r
  }

  ghost predicate RequestOk(s: State, r: nat)
    requires r in s.requests
  {
    var q := s.requests[r];
    match q.phase
    case Looking => true
    case Replaying(code) => q.key in s.keys && s.keys[q.key] == code
    case Creating => q.key !in s.keys
    case Created(code) => q.key !in s.keys && code in s.rows && s.rows[code].key == q.key
    case Beaten(_) => false
  }

  ghost predicate SequentialInv(s: State) {
    && Alone(s)
    && (forall r :: r in s.requests ==> r < s.nextRid && RequestOk(s, r))
    && (forall k :: k in s.keys ==> s.keys[k] in s.rows && s.rows[s.keys[k]].key == k)
    && (forall a :: a in s.replies ==> a.key in s.keys && s.keys[a.key] == a.code)
  }

  lemma SequentialKeeps(s: State, step: Step)
    requires SequentialInv(s) && Enabled(s, step) && Sequential(s, step) && !RedisFault(step)
    ensures SequentialInv(Apply(s, step))
  {
    var s' := Apply(s, step);
    if !step.Arrive? {
      assert RequestOk(s, step.rid);
    }
    forall r | r in s'.requests ensures r < s'.nextRid && RequestOk(s', r) {
      if r in s.requests {
        assert RequestOk(s, r);
      }
    }
  }

  /** The links a key has produced. */
  ghost function LinksIn(rows: map<string, Row>, key: string): set<string> {
    set c | c in rows && rows[c].key == key
  }

  ghost function LinksOf(s: State, key: string): set<string> {
    LinksIn(s.rows, key)
  }

  ghost predicate AboutToRecord(s: State, r: nat, key: string) {
    r in s.requests && s.requests[r].key == key && s.requests[r].phase.Created?
  }

  /** The key has a link it is recorded with, or a request about to record one. */
  ghost predicate Settled(s: State, key: string) {
    key in s.keys || exists r: nat :: AboutToRecord(s, r, key)
  }

  lemma AddedLink(rows: map<string, Row>, code: string, row: Row)
    requires code !in rows
    ensures |LinksIn(rows[code := row], row.key)| == |LinksIn(rows, row.key)| + 1
  {
    var before, after := LinksIn(rows, row.key), LinksIn(rows[code := row], row.key);
    assert code !in before;
    assert after == before + {code};
  }

  lemma InsertSettles(s: State, step: Step, key: string)
    requires SequentialInv(s) && Enabled(s, step) && step.Insert? && s.requests[step.rid].key == key
    ensures !Settled(s, key) && (Settled(Apply(s, step), key) <==> step.reported)
  {
    assert RequestOk(s, step.rid);
    assert step.reported ==> AboutToRecord(Apply(s, step), step.rid, key);
  }

  lemma AbandonUnsettles(s: State, step: Step, key: string)
    requires SequentialInv(s) && Enabled(s, step) && step.Abandon? && Strands(s, step, key)
    ensures Settled(s, key) && !Settled(Apply(s, step), key)
  {
    assert RequestOk(s, step.rid) && AboutToRecord(s, step.rid, key);
  }

  /** Every link of a key is stranded, recorded or about to be: the accounting of one step. */
  lemma LinksAccounted(s: State, step: Step, key: string)
    requires SequentialInv(s) && Enabled(s, step) && Sequential(s, step) && !RedisFault(step)
    ensures var s' := Apply(s, step);
            |LinksOf(s', key)| + (if Settled(s, key) then 1 else 0)
              == |LinksOf(s, key)| + (if Settled(s', key) then 1 else 0) + (if Strands(s, step, key) then 1 else 0)
  {
    if step.Insert? && s.requests[step.rid].key == key {
      AddedLink(s.rows, step.code, Row(key, step.rid));
      InsertSettles(s, step, key);
    } else {
      assert LinksOf(Apply(s, step), key) == LinksOf(s, key);
      if Strands(s, step, key) {
        AbandonUnsettles(s, step, key);
      } else {
        SettledStays(s, step, key);
      }
    }
  }

  lemma SettledStays(s: State, step: Step, key: string)
    requires SequentialInv(s) && Enabled(s, step) && !RedisFault(step) && !Strands(s, step, key)
    requires !(step.Insert? && s.requests[step.rid].key == key)
    ensures Settled(Apply(s, step), key) <==> Settled(s, key)
  {
    var s' := Apply(s, step);
    forall r: nat ensures AboutToRecord(s', r, key) ==> AboutToRecord(s, r, key) {
    }
    forall r: nat ensures AboutToRecord(s, r, key) ==> AboutToRecord(s', r, key) || key in s'.keys {
      if AboutToRecord(s, r, key) {
        assert RequestOk(s, r);
      }
    }
    if key !in s.keys && key in s'.keys {
      assert AboutToRecord(s, step.rid, key);
    }
  }

  lemma {:induction false} LinksAccountedFrom(s: State, steps: seq<Step>, key: string)
    requires SequentialInv(s) && ValidRun(s, steps) && SequentialRun(s, steps)
    ensures var s' := Reached(s, steps);
            && SequentialInv(s')
            && |LinksOf(s', key)| + (if Settled(s, key) then 1 else 0)
               == |LinksOf(s, key)| + (if Settled(s', key) then 1 else 0) + Stranded(s, steps, key)
    decreases |steps|
  {
    if steps != [] {
      SequentialKeeps(s, steps[0]);
      LinksAccounted(s, steps[0], key);
      LinksAccountedFrom(Apply(s, steps[0]), steps[1..], key);
    }
  }

  /**
   * Sequential retries with Redis answering: however often a key is sent, its links are the one it
   * is recorded with and those stranded by requests that stored a row and never came to record it.
   * So once the key has been answered with a 201, it has exactly the one link that every 201 names
   * if and only if nothing was stranded.
   */
  lemma SequentialRetries(steps: seq<Step>, key: string)
    requires ValidRun(Init(), steps) && SequentialRun(Init(), steps)
    ensures var s := Reached(Init(), steps);
            var stranded := Stranded(Init(), steps, key);
            && |LinksOf(s, key)| == stranded + (if Settled(s, key) then 1 else 0)
            && (forall a :: a in s.replies && a.key == key ==>
                  && a.code in LinksOf(s, key)
                  && |LinksOf(s, key)| == 1 + stranded
                  && (LinksOf(s, key) == {a.code} <==> stranded == 0))
  {
    LinksAccountedFrom(Init(), steps, key);
    assert LinksOf(Init(), key) == {};
    var s := Reached(Init(), steps);
    forall a | a in s.replies && a.key == key
      ensures a.code in LinksOf(s, key)
      ensures LinksOf(s, key) == {a.code} <==> |LinksOf(s, key)| == 1
    {
      if |LinksOf(s, key)| == 1 {
        OnlyMember(LinksOf(s, key), a.code);
      }
    }
  }

  /** A create whose answer is lost, and a retry: the key now has two links. */
  lemma StrandedDuplicates(key: string, a: string, b: string)
    requires a != b
    ensures exists steps :: ValidRun(Init(), steps) && SequentialRun(Init(), steps) &&
              LinksOf(Reached(Init(), steps), key) == {a, b}
  {
    var rest := Solo(1, key, b, SetNX(1));
    var s0 := Init();
    var s1 := Apply(s0, Arrive(key));
    var s2 := Apply(s1, Get(0));
    var s3 := Apply(s2, Insert(0, a, false));
    assert s3 == State(map[], map[a := Row(key, 0)], map[], 1, []);
    SoloRun(s3, key, b);
    SoloSequential(s3, key, b);
    Then(s2, Insert(0, a, false), rest);
    Then(s1, Get(0), [Insert(0, a, false)] + rest);
    Then(s0, Arrive(key), [Get(0)] + ([Insert(0, a, false)] + rest));
    var steps := [Arrive(key)] + ([Get(0)] + ([Insert(0, a, false)] + rest));
    ThenSequential(s2, Insert(0, a, false), rest);
    ThenSequential(s1, Get(0), [Insert(0, a, false)] + rest);
    ThenSequential(s0, Arrive(key), [Get(0)] + ([Insert(0, a, false)] + rest));
    assert LinksOf(Reached(s0, steps), key) == {a, b};
  }

  lemma ThenSequential(s: State, step: Step, rest: seq<Step>)
    requires Enabled(s, step) && ValidRun(Apply(s, step), rest) && ValidRun(s, [step] + rest)
    requires Sequential(s, step) && !RedisFault(step) && SequentialRun(Apply(s, step), rest)
    ensures SequentialRun(s, [step] + rest)
  {
    assert ([step] + rest)[1..] == rest;
  }

  lemma SoloSequential(s: State, key: string, code: string)
    requires s.requests == map[] && key !in s.keys && code !in s.rows
    ensures ValidRun(s, Solo(s.nextRid, key, code, SetNX(s.nextRid)))
    ensures SequentialRun(s, Solo(s.nextRid, key, code, SetNX(s.nextRid)))
  {
    var r := s.nextRid;
    SoloRun(s, key, code);
    var s1 := Apply(s, Arrive(key));
    var s2 := Apply(s1, Get(r));
    var s3 := Apply(s2, Insert(r, code, true));
    Then(s3, SetNX(r), []);
    ThenSequential(s3, SetNX(r), []);
    Then(s2, Insert(r, code, true), [SetNX(r)] + []);
    ThenSequential(s2, Insert(r, code, true), [SetNX(r)] + []);
    Then(s1, Get(r), [Insert(r, code, true)] + ([SetNX(r)] + []));
    ThenSequential(s1, Get(r), [Insert(r, code, true)] + ([SetNX(r)] + []));
    ThenSequential(s, Arrive(key), [Get(r)] + ([Insert(r, code, true)] + ([SetNX(r)] + [])));
  }

  lemma OnlyMember(links: set<string>, code: string)
    requires code in links && |links| == 1
    ensures links == {code}
  {
    assert |links - {code}| == 0;
  }

  // ---- The handler itself ----

  /** What the handler works on: the key map and the links table. */
  datatype Site = Site(keys: map<string, string>, links: map<string, string>) {
    /** Every recorded code is a link. */
    ghost predicate Valid() {
      forall k :: k in keys ==> keys[k] in links
    }
  }

  datatype Response = Created201(code: string, url: string) | ErrorResponse

  /** What svc.Create did: it stored a link under a new code, stored one without learning of it, or stored none. */
  datatype Creation = Stored(code: string) | StoredUnknown(code: string) | NotStored {
    ghost predicate New(links: map<string, string>) {
      NotStored? || code !in links
    }
  }

  /** Faults of the first GET, the SETNX and the second GET, and of the store when a code is resolved. */
  datatype Weather = Weather(getFails: bool, setNX: Trip, againFails: bool, storeDown: bool)

  function Resolved(links: map<string, string>, code: string, w: Weather): Response {
    if !w.storeDown && code in links then Created201(code, links[code]) else ErrorResponse
  }

  /** createLink once its link is stored: record the key, or answer for whoever recorded it first. */
  function Recording(site: Site, key: string, code: string, url: string, w: Weather): (Site, Response) {
    var own := Created201(code, url);
    var recorded := site.(keys := site.keys[key := code]);
    if key == "" then (site, own)
    else if key !in site.keys then (if w.setNX.Applied() then recorded else site, own)
    else if !w.setNX.Answered? || w.againFails then (site, own)
    else (site, Resolved(site.links, site.keys[key], w))
  }

  /** createLink from start to end. */
  function Handled(site: Site, key: string, url: string, c: Creation, w: Weather): (Site, Response) {
    if key != "" && !w.getFails && key in site.keys then (site, Resolved(site.links, site.keys[key], w))
    else match c
      case NotStored => (site, ErrorResponse)
      case StoredUnknown(code) => (site.(links := site.links[code := url]), ErrorResponse)
      case Stored(code) => Recording(site.(links := site.links[code := url]), key, code, url, w)
  }

  class Api {
    var keys: map<string, string>
    var links: map<string, string>

    ghost function State(): Site
      reads this
    {
      Site(keys, links)
    }

    constructor ()
      ensures State() == Site(map[], map[])
    {
      keys, links := map[], map[];
    }

    method CreateLink(key: string, url: string, c: Creation, w: Weather) returns (r: Response)
      requires c.New(links)
      modifies this
      ensures (State(), r) == Handled(old(State()), key, url, c, w)
      ensures old(State()).Valid() ==> State().Valid()
      ensures key == "" ==> keys == old(keys) && r == if c.Stored? then Created201(c.code, url) else ErrorResponse
      ensures key == "" ==> links == if c.NotStored? then old(links) else old(links)[c.code := url]
    {
      if key != "" && !w.getFails && key in keys {
        r := RespondWithCode(keys[key], w);
        return;
      }
      match c {
        case NotStored => return ErrorResponse;
        case StoredUnknown(code) =>
          links := links[code := url];
          return ErrorResponse;
        case Stored(code) =>
          links := links[code := url];
          if key != "" {
            var won := key !in keys;
            if won && w.setNX.Applied() {
              keys := keys[key := code];
            }
            if w.setNX.Answered? && !won && !w.againFails {
              r := RespondWithCode(keys[key], w);
              return;
            }
          }
          r := Created201(code, url);
      }
    }

    /** A replay looks the code up; it never answers 201 for a link that is not there. */
    method RespondWithCode(code: string, w: Weather) returns (r: Response)
      ensures r.Created201? ==> r.code == code && code in links && links[code] == r.url
      ensures r.Created201? <==> code in links && !w.storeDown
    {
      if w.storeDown || code !in links {
        return ErrorResponse;
      }
      r := Created201(code, links[code]);
    }
  }

  /** The guards that send a 201 without the key map: no recorded code was read, and the SETNX or the second GET failed. */
  predicate FailsOpen(site: Site, key: string, w: Weather) {
    && (w.getFails || key !in site.keys)
    && if key in site.keys then !w.setNX.Answered? || w.againFails else w.setNX.Unsent?
  }

  /** Other calls of the handler, under any keys and faults. */
  datatype Call = Call(key: string, url: string, c: Creation, w: Weather)

  ghost predicate Callable(site: Site, calls: seq<Call>)
    decreases |calls|
  {
    calls == [] || (calls[0].c.New(site.links) && Callable(Called(site, calls[0]), calls[1..]))
  }

  ghost function Called(site: Site, call: Call): Site {
    Handled(site, call.key, call.url, call.c, call.w).0
  }

  ghost function CalledAll(site: Site, calls: seq<Call>): Site
    requires Callable(site, calls)
    decreases |calls|
  {
    if calls == [] then site else CalledAll(Called(site, calls[0]), calls[1..])
  }

  ghost predicate Names(site: Site, key: string, code: string) {
    key in site.keys && site.keys[key] == code
  }

  /** A link keeps its URL, and whether a key names it never changes: new codes are never old ones. */
  lemma {:induction false} LinkStays(site: Site, calls: seq<Call>, key: string, code: string)
    requires code in site.links && Callable(site, calls)
    ensures var site' := CalledAll(site, calls);
            && code in site'.links && site'.links[code] == site.links[code]
            && (Names(site', key, code) <==> Names(site, key, code))
    decreases |calls|
  {
    if calls != [] {
      LinkStays(Called(site, calls[0]), calls[1..], key, code);
    }
  }

  /** After a 201 its link is there, and its key names it exactly if it did not fail open. */
  lemma AnsweredNames(site: Site, key: string, url: string, c: Creation, w: Weather)
    requires site.Valid() && key != "" && c.New(site.links)
    ensures var (site', r) := Handled(site, key, url, c, w);
            r.Created201? ==>
              && r.code in site'.links && site'.links[r.code] == r.url
              && (Names(site', key, r.code) <==> !FailsOpen(site, key, w))
  {
  }

  /**
   * The promise to a client that retries. After any 201 for a key, and any other calls since, a retry
   * that reaches Redis and the store gets the very same 201 back, whatever URL it carries, if and only
   * if the first answer did not fail open; and then the retry changes nothing.
   */
  lemma RetryRepeats(site: Site, first: Call, between: seq<Call>, retry: Call)
    requires site.Valid() && first.key != "" && first.c.New(site.links) && Callable(Called(site, first), between)
    requires var now := CalledAll(Called(site, first), between);
             && retry.key == first.key && !retry.w.getFails && !retry.w.storeDown && retry.c.New(now.links)
    ensures var r := Handled(site, first.key, first.url, first.c, first.w).1;
            var now := CalledAll(Called(site, first), between);
            var (after, r') := Handled(now, retry.key, retry.url, retry.c, retry.w);
            r.Created201? ==>
              && (r' == r <==> !FailsOpen(site, first.key, first.w))
              && (r' == r ==> after == now)
  {
    var (site1, r) := Handled(site, first.key, first.url, first.c, first.w);
    if r.Created201? {
      AnsweredNames(site, first.key, first.url, first.c, first.w);
      LinkStays(site1, between, first.key, r.code);
    }
  }

  /** A create without a key, whatever was called before it: its own link, its own URL, and no key touched. */
  lemma KeylessStandsAlone(site: Site, before: seq<Call>, call: Call)
    requires Callable(site, before) && call.key == ""
    ensures var now := CalledAll(site, before);
            var (after, r) := Handled(now, call.key, call.url, call.c, call.w);
            && after.keys == now.keys
            && after.links == (if call.c.NotStored? then now.links else now.links[call.c.code := call.url])
            && r == (if call.c.Stored? then Created201(call.c.code, call.url) else ErrorResponse)
  {
  }

  /** The link was stored by a call, reported to it, and carried by it. */
  ghost predicate StoredBy(call: Call, code: string, url: string) {
    call.c == Stored(code) && call.url == url
  }

  /** Every key names a link that a call with that very key stored. */
  ghost predicate Origin(site: Site, past: seq<Call>) {
    forall k :: k in site.keys ==>
      && k != "" && site.keys[k] in site.links
      && exists j :: 0 <= j < |past| && past[j].key == k && StoredBy(past[j], site.keys[k], site.links[site.keys[k]])
  }

  lemma OriginStep(site: Site, past: seq<Call>, call: Call)
    requires Origin(site, past) && call.c.New(site.links)
    ensures Origin(Called(site, call), past + [call])
  {
    var site', past' := Called(site, call), past + [call];
    assert past'[|past|] == call;
    forall k | k in site'.keys
      ensures k != "" && site'.keys[k] in site'.links
      ensures exists j :: 0 <= j < |past'| && past'[j].key == k && StoredBy(past'[j], site'.keys[k], site'.links[site'.keys[k]])
    {
      if k in site.keys {
        var j :| 0 <= j < |past| && past[j].key == k && StoredBy(past[j], site.keys[k], site.links[site.keys[k]]);
        assert past'[j] == past[j];
      }
    }
  }

  lemma {:induction false} OriginFrom(site: Site, past: seq<Call>, calls: seq<Call>)
    requires Origin(site, past) && Callable(site, calls)
    ensures Origin(CalledAll(site, calls), past + calls)
    decreases |calls|
  {
    if calls == [] {
      assert past + calls == past;
    } else {
      OriginStep(site, past, calls[0]);
      OriginFrom(Called(site, calls[0]), past + [calls[0]], calls[1..]);
      assert past + calls == past + [calls[0]] + calls[1..];
    }
  }

  /** A 201 names the call's own link, or the one its key names. */
  lemma AnswerCases(site: Site, call: Call)
    requires call.c.New(site.links)
    ensures var r := Handled(site, call.key, call.url, call.c, call.w).1;
            r.Created201? ==>
              || StoredBy(call, r.code, r.url)
              || (call.key != "" && Names(site, call.key, r.code) && (r.code in site.links ==> site.links[r.code] == r.url))
  {
  }

  lemma AnswerOrigin(site: Site, past: seq<Call>, call: Call)
    requires Origin(site, past) && call.c.New(site.links)
    ensures var r := Handled(site, call.key, call.url, call.c, call.w).1;
            r.Created201? ==>
              || StoredBy(call, r.code, r.url)
              || (call.key != "" &&
                  exists j :: 0 <= j < |past| && past[j].key == call.key && StoredBy(past[j], r.code, r.url))
  {
    AnswerCases(site, call);
    hide Handled;
    if call.key in site.keys {
      var k := call.key;
      var j :| 0 <= j < |past| && past[j].key == k && StoredBy(past[j], site.keys[k], site.links[site.keys[k]]);
    }
  }

  /**
   * No one is ever answered with someone else's link: after any calls under any faults, a 201 names
   * the link this call stored, with the URL it carried, or else one that an earlier call with the
   * same key stored, with the URL that one carried.
   */
  lemma AnswersOwnLink(before: seq<Call>, call: Call)
    requires Callable(Site(map[], map[]), before)
    requires call.c.New(CalledAll(Site(map[], map[]), before).links)
    ensures var r := Handled(CalledAll(Site(map[], map[]), before), call.key, call.url, call.c, call.w).1;
            r.Created201? ==>
              || StoredBy(call, r.code, r.url)
              || (call.key != "" &&
                  exists j :: 0 <= j < |before| && before[j].key == call.key && StoredBy(before[j], r.code, r.url))
  {
    OriginFrom(Site(map[], map[]), [], before);
    assert [] + before == before;
    hide CalledAll, Handled;
    AnswerOrigin(CalledAll(Site(map[], map[]), before), before, call);
  }

  /**
   * Redis never costs a client its answer: once a link is reported stored, only a replay that the
   * store cannot resolve is an error, and a handler that fails open answers with the link itself.
   */
  lemma RedisNeverRefuses(site: Site, call: Call)
    requires site.Valid() && call.c.Stored? && call.c.New(site.links)
    ensures var r := Handled(site, call.key, call.url, call.c, call.w).1;
            && (!call.w.storeDown ==> r.Created201?)
            && (FailsOpen(site, call.key, call.w) ==> r == Created201(call.c.code, call.url))
            && (call.key !in site.keys ==> r == Created201(call.c.code, call.url))
  {
  }

  /** The handler's steps once its row is stored. */
  ghost function RecordSteps(keys: map<string, string>, links: map<string, string>, key: string, rid: nat, w: Weather): seq<Step> {
    if !w.setNX.Answered? then [SetFails(rid, w.setNX.Applied())] + []
    else if key !in keys then [SetNX(rid)] + []
    else if w.againFails then [SetNX(rid)] + ([GetAgainFails(rid)] + [])
    else [SetNX(rid)] + ([GetAgain(rid)] + ([Replay(rid, Resolved(links, keys[key], w).Created201?)] + []))
  }

  /** Its steps once the first GET has answered or failed. */
  ghost function AfterGet(site: Site, key: string, rid: nat, url: string, c: Creation, w: Weather): seq<Step> {
    if !w.getFails && key in site.keys then [Replay(rid, Resolved(site.links, site.keys[key], w).Created201?)] + []
    else match c
      case NotStored => [InsertFails(rid)] + []
      case StoredUnknown(code) => [Insert(rid, code, false)] + []
      case Stored(code) =>
        [Insert(rid, code, true)] + RecordSteps(site.keys, site.links[code := url], key, rid, w)
  }

  /** All its steps, for a request with a key. */
  ghost function Handling(site: Site, key: string, rid: nat, url: string, c: Creation, w: Weather): seq<Step> {
    var get := if w.getFails then GetFails(rid) else Get(rid);
    [Arrive(key)] + ([get] + AfterGet(site, key, rid, url, c, w))
  }

  /** The protocol's state has this key map and exactly these links. */
  ghost predicate Shows(s: State, site: Site) {
    s.keys == site.keys && s.rows.Keys == site.links.Keys
  }

  /** s' is s after request rid ended with this outcome, all other requests untouched. */
  ghost predicate Ended(s: State, s': State, key: string, site: Site, r: Response) {
    && Shows(s', site) && s'.requests == s.requests
    && (r.ErrorResponse? ==> s'.replies == s.replies)
    && (r.Created201? ==> exists failOpen :: s'.replies == s.replies + [Reply(key, r.code, failOpen)])
  }

  lemma BeatenRuns(base: State, s: State, site: Site, rid: nat, key: string, code: string, url: string, w: Weather)
    requires rid !in base.requests && s.replies == base.replies && key in s.keys && key != "" && Shows(s, site)
    requires s.requests == base.requests[rid := Request(key, Beaten(code))] && w.setNX.Answered?
    ensures var rest := RecordSteps(site.keys, site.links, key, rid, w)[1..];
            && ValidRun(s, rest)
            && var (site', r) := Recording(site, key, code, url, w); Ended(base, Reached(s, rest), key, site', r)
  {
    if w.againFails {
      Then(s, GetAgainFails(rid), []);
      assert End(s, rid).requests == base.requests;
    } else {
      var s' := Apply(s, GetAgain(rid));
      var replay := Replay(rid, Resolved(site.links, site.keys[key], w).Created201?);
      Then(s', replay, []);
      Then(s, GetAgain(rid), [replay] + []);
      assert End(s', rid).requests == base.requests;
    }
  }

  lemma RecordingRuns(base: State, s: State, site: Site, rid: nat, key: string, code: string, url: string, w: Weather)
    requires rid !in base.requests && s.replies == base.replies && key != "" && Shows(s, site)
    requires s.requests == base.requests[rid := Request(key, Created(code))]
    ensures ValidRun(s, RecordSteps(site.keys, site.links, key, rid, w))
    ensures var (site', r) := Recording(site, key, code, url, w);
            Ended(base, Reached(s, RecordSteps(site.keys, site.links, key, rid, w)), key, site', r)
  {
    assert End(s, rid).requests == base.requests;
    if !w.setNX.Answered? {
      Then(s, SetFails(rid, w.setNX.Applied()), []);
    } else if key !in s.keys {
      Then(s, SetNX(rid), []);
    } else {
      var rest := RecordSteps(site.keys, site.links, key, rid, w)[1..];
      BeatenRuns(base, Apply(s, SetNX(rid)), site, rid, key, code, url, w);
      Then(s, SetNX(rid), rest);
      assert RecordSteps(site.keys, site.links, key, rid, w) == [SetNX(rid)] + rest;
    }
  }

  lemma StoredRuns(base: State, s: State, site: Site, rid: nat, key: string, url: string, c: Creation, w: Weather)
    requires rid !in base.requests && s.replies == base.replies && key != "" && Shows(s, site)
    requires s.requests == base.requests[rid := Request(key, Creating)] && (w.getFails || key !in site.keys)
    requires c.New(site.links) && !c.NotStored?
    ensures ValidRun(s, AfterGet(site, key, rid, url, c, w))
    ensures var (site', r) := Handled(site, key, url, c, w);
            Ended(base, Reached(s, AfterGet(site, key, rid, url, c, w)), key, site', r)
  {
    var site' := site.(links := site.links[c.code := url]);
    assert End(s, rid).requests == base.requests;
    if c.StoredUnknown? {
      Then(s, Insert(rid, c.code, false), []);
    } else {
      var insert := Insert(rid, c.code, true);
      RecordingRuns(base, Apply(s, insert), site', rid, key, c.code, url, w);
      Then(s, insert, RecordSteps(site'.keys, site'.links, key, rid, w));
    }
  }

  lemma AfterGetRuns(base: State, s: State, site: Site, rid: nat, key: string, url: string, c: Creation, w: Weather)
    requires rid !in base.requests && s.replies == base.replies && key != "" && Shows(s, site) && c.New(site.links)
    requires s.requests == base.requests[rid := Request(key, if !w.getFails && key in s.keys then Replaying(s.keys[key]) else Creating)]
    ensures ValidRun(s, AfterGet(site, key, rid, url, c, w))
    ensures var (site', r) := Handled(site, key, url, c, w);
            Ended(base, Reached(s, AfterGet(site, key, rid, url, c, w)), key, site', r)
  {
    if !w.getFails && key in s.keys {
      Then(s, Replay(rid, Resolved(site.links, site.keys[key], w).Created201?), []);
      assert End(s, rid).requests == base.requests;
    } else if c.NotStored? {
      Then(s, InsertFails(rid), []);
      assert End(s, rid).requests == base.requests;
    } else {
      StoredRuns(base, s, site, rid, key, url, c, w);
    }
  }

  /**
   * The handler run by itself is a run of the protocol, whatever is lost on the way, so every
   * guarantee above is a guarantee about it.
   */
  lemma HandlerIsRun(s: State, site: Site, key: string, url: string, c: Creation, w: Weather)
    requires Inv(s) && key != "" && Shows(s, site) && c.New(site.links)
    ensures var steps := Handling(site, key, s.nextRid, url, c, w);
            && ValidRun(s, steps)
            && var (site', r) := Handled(site, key, url, c, w); Ended(s, Reached(s, steps), key, site', r)
  {
    hide Ended, Handled, AfterGet;
    var rid := s.nextRid;
    var get := if w.getFails then GetFails(rid) else Get(rid);
    var s1 := Apply(s, Arrive(key));
    var s2 := Apply(s1, get);
    AfterGetRuns(s, s2, site, rid, key, url, c, w);
    Then(s1, get, AfterGet(site, key, rid, url, c, w));
    Then(s, Arrive(key), [get] + AfterGet(site, key, rid, url, c, w));
  }
}
