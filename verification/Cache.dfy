/** The read-through cache of internal/cache/store.go. Times are milliseconds. */
module CacheStore {
  import opened Basics

  /** Cached in place of a URL when the code is known to be absent. */
  const TOMBSTONE: string := "\0notfound"
  const NEGATIVE_TTL: int := 30_000

  datatype Answer = Found(url: string) | NotFound

  /** A Redis value under link:{code}. `readAt` remembers when the store gave it. */
  datatype Entry = Entry(val: string, expireAt: int, readAt: int)

  type Rows = map<string, string>
  type Entries = map<string, Entry>

  /** What normalizeURL guarantees of every stored URL. */
  predicate IsHttp(url: string) {
    "http://" <= url || "https://" <= url
  }

  function FromCached(val: string): Answer {
    if val == TOMBSTONE then NotFound else Found(val)
  }

  function ToCached(a: Answer): string {
    match a case Found(url) => url case NotFound => TOMBSTONE
  }

  function TtlOf(ttl: int, a: Answer): int {
    if a.Found? then ttl else NEGATIVE_TTL
  }

  function Lookup(rows: Rows, code: string): Answer {
    if code in rows then Found(rows[code]) else NotFound
  }

  predicate Live(entries: Entries, code: string, now: int) {
    code in entries && now < entries[code].expireAt
  }

  /** SET link:{code} with the TTL of the answer. */
  function Cached(entries: Entries, ttl: int, code: string, a: Answer, readAt: int, now: int): Entries {
    entries[code := Entry(ToCached(a), now + TtlOf(ttl, a), readAt)]
  }

  /** The tombstone never collides with a URL. */
  lemma RoundTrip(a: Answer)
    requires a.Found? ==> IsHttp(a.url)
    ensures FromCached(ToCached(a)) == a
  {
    if a.Found? {
      assert a.url[0] == 'h';
    }
  }

  datatype Result = Ok(url: string) | ErrNotFound | Failed

  /** The entry of a code after the store's answer was cached: what it says, and for exactly how long. */
  ghost predicate Remembers(entries: Entries, rows: Rows, ttl: int, code: string, now: int) {
    && code in entries
    && (forall t :: Live(entries, code, t) <==> t < now + if code in rows then ttl else 30_000)
    && entries[code].val == if code in rows then rows[code] else TOMBSTONE
  }

  datatype Deletion = Deleted | Missing | DeleteFailed

  /** One API instance, run without interleaving. What becomes of its commands is an input. */
  class CachingStore {
    const ttl: int
    var rows: Rows
    var entries: Entries

    constructor (ttl: int)
      ensures this.ttl == ttl && rows == map[] && entries == map[]
    {
      this.ttl := ttl;
      rows, entries := map[], map[];
    }

    /** Runs inside singleflight. A store failure is not cached; a failed SET is only logged. */
    method LoadAndCache(code: string, now: int, storeFails: bool, set_: Trip) returns (r: Result)
      modifies this`entries
      ensures r == if storeFails then Failed else if code in rows then Ok(rows[code]) else ErrNotFound
      ensures storeFails || !set_.Applied() ==> entries == old(entries)
      ensures !storeFails && set_.Applied() ==>
                && entries == Cached(old(entries), ttl, code, Lookup(rows, code), now, now)
                && Remembers(entries, rows, ttl, code, now)
    {
      if storeFails {
        return Failed;
      }
      if code !in rows {
        if set_.Applied() {
          entries := entries[code := Entry(TOMBSTONE, now + NEGATIVE_TTL, now)];
        }
        return ErrNotFound;
      }
      if set_.Applied() {
        entries := entries[code := Entry(rows[code], now + ttl, now)];
      }
      r := Ok(rows[code]);
    }

    method GetByCode(code: string, now: int, getFails: bool, storeFails: bool, set_: Trip) returns (r: Result)
      modifies this`entries
      ensures !getFails && old(Live(entries, code, now)) ==>
                && r == (if old(entries[code].val) == TOMBSTONE then ErrNotFound else Ok(old(entries[code].val)))
                && entries == old(entries)
      ensures getFails || !old(Live(entries, code, now)) ==>
                && r == (if storeFails then Failed else if code in rows then Ok(rows[code]) else ErrNotFound)
                && (storeFails || !set_.Applied() ==> entries == old(entries))
                && (!storeFails && set_.Applied() ==>
                      && entries == Cached(old(entries), ttl, code, Lookup(rows, code), now, now)
                      && Remembers(entries, rows, ttl, code, now))
    {
      if !getFails && code in entries && now < entries[code].expireAt {
        var val := entries[code].val;
        return if val == TOMBSTONE then ErrNotFound else Ok(val);
      }
      r := LoadAndCache(code, now, storeFails, set_);
    }

    method Invalidate(code: string, del: Trip) returns (ok: bool)
      modifies this`entries
      ensures ok == del.Answered? && entries == if del.Applied() then old(entries) - {code} else old(entries)
    {
      if del.Applied() {
        entries := entries - {code};
      }
      ok := del.Answered?;
    }

    /** The row first, then the cached redirect, best-effort; an error of the store ends it between the two. */
    method Delete(code: string, row: Trip, del: Trip) returns (r: Deletion)
      modifies this
      ensures r == if !row.Answered? then DeleteFailed else if code in old(rows) then Deleted else Missing
      ensures rows == if row.Applied() then old(rows) - {code} else old(rows)
      ensures entries == if r.Deleted? && del.Applied() then old(entries) - {code} else old(entries)
    {
      if row.Unsent? {
        return DeleteFailed;
      }
      var found := code in rows;
      rows := rows - {code};
      if row.AnswerLost? {
        return DeleteFailed;
      }
      if !found {
        return Missing;
      }
      var _ := Invalidate(code, del);
      r := Deleted;
    }
  }
}

/**
 * Any number of API instances sharing one Redis and one store. One step is one store or Redis
 * command; loads of different instances, creates, deletes and expiries interleave freely.
 */
module CacheProtocol {
  import opened CacheStore

  /** `ttl` of a cached link; `bound` the longest one load may take. */
  datatype Config = Config(ttl: int, bound: int)

  /** A load in flight: still reading the store, or holding the answer it read. */
  datatype Load = Reading(since: int) | Loaded(since: int, answer: Answer, readAt: int, cached: bool)

  /** The rows the store held from `at` until the next snapshot. */
  datatype Snapshot = Snapshot(at: int, rows: Rows)

  /** What a GetByCode call returned, other than an error: from the cache, or from a load. */
  datatype Reply = Reply(code: string, answer: Answer, at: int, hit: bool)

  /** `loads` is the singleflight group of every instance; `created` the URL each code was issued with. */
  datatype State = State(now: int, history: seq<Snapshot>, entries: Entries, loads: map<(nat, string), Load>,
                         created: Rows, replies: seq<Reply>)

  datatype Step =
    | Wait(ms: nat)
    | Create(code: string, url: string)
    | DeleteRow(code: string)
    | Invalidate(code: string)
    | Hit(code: string)
    | Begin(instance: nat, code: string)            // a miss, or a GET that failed
    | Read(instance: nat, code: string)
    | ReadFails(instance: nat, code: string)        // the load returns an error
    | Cache(instance: nat, code: string, applied: bool)
    | Finish(instance: nat, code: string)           // the leader and all who joined it
    | Sweep(code: string)                           // Redis drops an expired key

  ghost function Rows(s: State): CacheStore.Rows
    requires s.history != []
  {
    s.history[|s.history| - 1].rows
  }

  ghost function Init(): State {
    State(0, [Snapshot(0, map[])], map[], map[], map[], [])
  }

  ghost predicate Enabled(cfg: Config, s: State, step: Step)
    requires s.history != []
  {
    match step
    case Wait(ms) => forall l :: l in s.loads ==> s.now + ms <= s.loads[l].since + cfg.bound
    case Create(code, url) => code !in Rows(s) && IsHttp(url)
    case DeleteRow(code) => code in Rows(s)
    case Invalidate(_) => true
    case Hit(code) => Live(s.entries, code, s.now)
    case Begin(i, code) => (i, code) !in s.loads
    case Read(i, code) => (i, code) in s.loads && s.loads[(i, code)].Reading?
    case ReadFails(i, code) => (i, code) in s.loads && s.loads[(i, code)].Reading?
    case Cache(i, code, _) => (i, code) in s.loads && s.loads[(i, code)].Loaded? && !s.loads[(i, code)].cached
    case Finish(i, code) => (i, code) in s.loads && s.loads[(i, code)].Loaded? && s.loads[(i, code)].cached
    case Sweep(code) => code in s.entries && !Live(s.entries, code, s.now)
  }

  ghost function Apply(cfg: Config, s: State, step: Step): State
    requires s.history != [] && Enabled(cfg, s, step)
  {
    match step
    case Wait(ms) => s.(now := s.now + ms)
    case Create(code, url) =>
      s.(history := s.history + [Snapshot(s.now, Rows(s)[code := url])], created := s.created[code := url])
    case DeleteRow(code) => s.(history := s.history + [Snapshot(s.now, Rows(s) - {code})])
    case Invalidate(code) => s.(entries := s.entries - {code})
    case Hit(code) => s.(replies := s.replies + [Reply(code, FromCached(s.entries[code].val), s.now, true)])
    case Begin(i, code) => s.(loads := s.loads[(i, code) := Reading(s.now)])
    case Read(i, code) =>
      s.(loads := s.loads[(i, code) := Loaded(s.loads[(i, code)].since, Lookup(Rows(s), code), s.now, false)])
    case ReadFails(i, code) => s.(loads := s.loads - {(i, code)})
    case Cache(i, code, applied) =>
      var l := s.loads[(i, code)];
      s.(loads := s.loads[(i, code) := l.(cached := true)],
         entries := if applied then Cached(s.entries, cfg.ttl, code, l.answer, l.readAt, s.now) else s.entries)
    case Finish(i, code) =>
      s.(loads := s.loads - {(i, code)}, replies := s.replies + [Reply(code, s.loads[(i, code)].answer, s.now, false)])
    case Sweep(code) => s.(entries := s.entries - {code})
  }

  ghost predicate ValidRun(cfg: Config, s: State, steps: seq<Step>)
    requires s.history != []
    decreases |steps|
  {
    steps == [] || (Enabled(cfg, s, steps[0]) && ValidRun(cfg, Apply(cfg, s, steps[0]), steps[1..]))
  }

  ghost function Reached(cfg: Config, s: State, steps: seq<Step>): (s': State)
    requires s.history != [] && ValidRun(cfg, s, steps)
    ensures s'.history != [] && s.replies <= s'.replies
    decreases |steps|
  {
    if steps == [] then s else Reached(cfg, Apply(cfg, s, steps[0]), steps[1..])
  }

  // ---- What the store answered, and when ----

  /** Snapshot i is what the store held at instant t. */
  ghost predicate Holds(h: seq<Snapshot>, i: nat, t: int) {
    i < |h| && h[i].at <= t && (i + 1 < |h| ==> t <= h[i + 1].at)
  }

  /** At instant t the store's answer for the code was this one. */
  ghost predicate AnswerAt(h: seq<Snapshot>, code: string, a: Answer, t: int) {
    exists i: nat :: Holds(h, i, t) && Lookup(h[i].rows, code) == a
  }

  lemma AnswerNow(s: State, code: string)
    requires s.history != [] && s.history[|s.history| - 1].at <= s.now
    ensures AnswerAt(s.history, code, Lookup(Rows(s), code), s.now)
  {
    assert Holds(s.history, |s.history| - 1, s.now);
  }

  /** A later change of the store does not change what it answered before. */
  lemma AnswerStays(h: seq<Snapshot>, next: Snapshot, code: string, a: Answer, t: int)
    requires AnswerAt(h, code, a, t) && t <= next.at
    ensures AnswerAt(h + [next], code, a, t)
  {
    var i: nat :| Holds(h, i, t) && Lookup(h[i].rows, code) == a;
    assert Holds(h + [next], i, t);
  }

  // ---- Bounded staleness ----

  /**
   * How old an answer may be: one load, and if it came from the cache the configured TTL for a link
   * or 30 seconds for an absence.
   */
  ghost function MaxAge(cfg: Config, r: Reply): int {
    cfg.bound + if !r.hit then 0 else if r.answer.Found? then cfg.ttl else 30_000
  }

  /** The answer was the store's own at some instant no older than that. */
  ghost predicate NotTooStale(cfg: Config, h: seq<Snapshot>, r: Reply) {
    exists t :: r.at - MaxAge(cfg, r) <= t <= r.at && AnswerAt(h, r.code, r.answer, t)
  }

  ghost predicate HistoryInv(s: State) {
    && s.history != [] && s.history[|s.history| - 1].at <= s.now
    && (forall i, code :: 0 <= i < |s.history| && code in s.history[i].rows ==> IsHttp(s.history[i].rows[code]))
  }

  ghost predicate EntryInv(cfg: Config, s: State, code: string, e: Entry) {
    && e.readAt <= s.now
    && AnswerAt(s.history, code, FromCached(e.val), e.readAt)
    && e.expireAt <= e.readAt + cfg.bound + if e.val == TOMBSTONE then 30_000 else cfg.ttl
  }

  ghost predicate LoadInv(cfg: Config, s: State, code: string, l: Load) {
    && l.since <= s.now <= l.since + cfg.bound
    && (l.Loaded? ==>
          && l.since <= l.readAt <= s.now
          && AnswerAt(s.history, code, l.answer, l.readAt)
          && (l.answer.Found? ==> IsHttp(l.answer.url)))
  }

  ghost predicate Inv(cfg: Config, s: State) {
    && cfg.ttl >= 0 && cfg.bound >= 0
    && HistoryInv(s)
    && (forall code :: code in s.entries ==> EntryInv(cfg, s, code, s.entries[code]))
    && (forall i, code :: (i, code) in s.loads ==> LoadInv(cfg, s, code, s.loads[(i, code)]))
    && (forall r :: r in s.replies ==> r.at <= s.now && NotTooStale(cfg, s.history, r))
  }

  /** A change of the store: everything known about earlier answers stays known. */
  lemma StoreChangeKeeps(cfg: Config, s: State, s': State, rows: CacheStore.Rows)
    requires Inv(cfg, s) && s'.history == s.history + [Snapshot(s.now, rows)]
    requires s'.now == s.now && s'.entries == s.entries && s'.loads == s.loads && s'.replies == s.replies
    requires forall code :: code in rows ==> IsHttp(rows[code])
    ensures Inv(cfg, s')
  {
    var next := Snapshot(s.now, rows);
    forall code | code in s'.entries ensures EntryInv(cfg, s', code, s'.entries[code]) {
      var e := s.entries[code];
      assert EntryInv(cfg, s, code, e);
      AnswerStays(s.history, next, code, FromCached(e.val), e.readAt);
    }
    forall i, code | (i, code) in s'.loads ensures LoadInv(cfg, s', code, s'.loads[(i, code)]) {
      var l := s.loads[(i, code)];
      assert LoadInv(cfg, s, code, l);
      if l.Loaded? {
        AnswerStays(s.history, next, code, l.answer, l.readAt);
      }
    }
    forall r | r in s'.replies ensures NotTooStale(cfg, s'.history, r) {
      StaleStays(cfg, s.history, next, r);
    }
  }

  lemma StaleStays(cfg: Config, h: seq<Snapshot>, next: Snapshot, r: Reply)
    requires NotTooStale(cfg, h, r) && r.at <= next.at
    ensures NotTooStale(cfg, h + [next], r)
  {
    var t :| r.at - MaxAge(cfg, r) <= t <= r.at && AnswerAt(h, r.code, r.answer, t);
    AnswerStays(h, next, r.code, r.answer, t);
  }

  lemma WaitKeeps(cfg: Config, s: State, ms: nat)
    requires Inv(cfg, s) && Enabled(cfg, s, Wait(ms))
    ensures Inv(cfg, Apply(cfg, s, Wait(ms)))
  {
    var s' := Apply(cfg, s, Wait(ms));
    forall code | code in s'.entries ensures EntryInv(cfg, s', code, s'.entries[code]) {
      assert EntryInv(cfg, s, code, s.entries[code]);
    }
    forall i, code | (i, code) in s'.loads ensures LoadInv(cfg, s', code, s'.loads[(i, code)]) {
      assert LoadInv(cfg, s, code, s.loads[(i, code)]);
    }
  }

  /** Steps that touch only entries, loads and replies: check what they touch. */
  lemma Reassemble(cfg: Config, s: State, s': State)
    requires Inv(cfg, s) && s'.now == s.now && s'.history == s.history
    requires forall code :: code in s'.entries && (code !in s.entries || s'.entries[code] != s.entries[code]) ==>
               EntryInv(cfg, s, code, s'.entries[code])
    requires forall i, code :: (i, code) in s'.loads && ((i, code) !in s.loads || s'.loads[(i, code)] != s.loads[(i, code)]) ==>
               LoadInv(cfg, s, code, s'.loads[(i, code)])
    requires forall r :: r in s'.replies && r !in s.replies ==> r.at <= s.now && NotTooStale(cfg, s.history, r)
    ensures Inv(cfg, s')
  {
    forall code | code in s'.entries ensures EntryInv(cfg, s', code, s'.entries[code]) {
      assert EntryInv(cfg, s, code, s'.entries[code]);
    }
    forall i, code | (i, code) in s'.loads ensures LoadInv(cfg, s', code, s'.loads[(i, code)]) {
      assert LoadInv(cfg, s, code, s'.loads[(i, code)]);
    }
  }

  /** A cached answer outlives its read by at most one load and its TTL. */
  lemma CacheGood(cfg: Config, s: State, i: nat, code: string)
    requires Inv(cfg, s) && Enabled(cfg, s, Cache(i, code, true))
    ensures var l := s.loads[(i, code)];
            EntryInv(cfg, s, code, Cached(s.entries, cfg.ttl, code, l.answer, l.readAt, s.now)[code])
  {
    var l := s.loads[(i, code)];
    assert LoadInv(cfg, s, code, l);
    RoundTrip(l.answer);
  }

  lemma HitGood(cfg: Config, s: State, code: string)
    requires Inv(cfg, s) && Enabled(cfg, s, Hit(code))
    ensures NotTooStale(cfg, s.history, Reply(code, FromCached(s.entries[code].val), s.now, true))
  {
    assert EntryInv(cfg, s, code, s.entries[code]);
  }

  lemma FinishGood(cfg: Config, s: State, i: nat, code: string)
    requires Inv(cfg, s) && Enabled(cfg, s, Finish(i, code))
    ensures NotTooStale(cfg, s.history, Reply(code, s.loads[(i, code)].answer, s.now, false))
  {
    assert LoadInv(cfg, s, code, s.loads[(i, code)]);
  }

  lemma Keeps(cfg: Config, s: State, step: Step)
    requires Inv(cfg, s) && Enabled(cfg, s, step)
    ensures Inv(cfg, Apply(cfg, s, step))
  {
    var s' := Apply(cfg, s, step);
    match step
    case Wait(ms) => WaitKeeps(cfg, s, ms);
    case Create(code, url) => StoreChangeKeeps(cfg, s, s', Rows(s)[code := url]);
    case DeleteRow(code) => StoreChangeKeeps(cfg, s, s', Rows(s) - {code});
    case Hit(code) => HitGood(cfg, s, code); Reassemble(cfg, s, s');
    case Read(i, code) =>
      assert LoadInv(cfg, s, code, s.loads[(i, code)]);
      AnswerNow(s, code);
      Reassemble(cfg, s, s');
    case Cache(i, code, applied) =>
      assert LoadInv(cfg, s, code, s.loads[(i, code)]);
      if applied {
        CacheGood(cfg, s, i, code);
      }
      Reassemble(cfg, s, s');
    case Finish(i, code) => FinishGood(cfg, s, i, code); Reassemble(cfg, s, s');
    case _ => Reassemble(cfg, s, s');
  }

  lemma {:induction false} InvariantFrom(cfg: Config, s: State, steps: seq<Step>)
    requires Inv(cfg, s) && ValidRun(cfg, s, steps)
    ensures Inv(cfg, Reached(cfg, s, steps))
    decreases |steps|
  {
    if steps != [] {
      Keeps(cfg, s, steps[0]);
      InvariantFrom(cfg, Apply(cfg, s, steps[0]), steps[1..]);
    }
  }

  /**
   * Every answer of every run, a link or its absence, was the store's own answer at some instant
   * no older than one load, plus, for an answer out of the cache, the TTL of its kind.
   */
  lemma BoundedStaleness(cfg: Config, steps: seq<Step>, r: Reply)
    requires cfg.ttl >= 0 && cfg.bound >= 0 && ValidRun(cfg, Init(), steps)
    requires r in Reached(cfg, Init(), steps).replies
    ensures NotTooStale(cfg, Reached(cfg, Init(), steps).history, r)
  {
    InvariantFrom(cfg, Init(), steps);
  }

  // ---- A cached answer is served for its whole TTL ----

  /** The step drops or rewrites the code's entry before its time. */
  ghost predicate Disturbs(step: Step, code: string) {
    (step.Invalidate? || (step.Cache? && step.applied)) && step.code == code
  }

  lemma {:induction false} EntryStays(cfg: Config, s: State, steps: seq<Step>, code: string)
    requires s.history != [] && code in s.entries && ValidRun(cfg, s, steps)
    requires forall step :: step in steps ==> !Disturbs(step, code)
    ensures var s' := Reached(cfg, s, steps);
            && s.now <= s'.now
            && (s'.now < s.entries[code].expireAt ==> code in s'.entries && s'.entries[code] == s.entries[code])
    decreases |steps|
  {
    if steps != [] {
      assert !Disturbs(steps[0], code);
      var mid := Apply(cfg, s, steps[0]);
      if code in mid.entries {
        EntryStays(cfg, mid, steps[1..], code);
      } else {
        TimeGoesOn(cfg, mid, steps[1..]);
      }
    }
  }

  lemma {:induction false} TimeGoesOn(cfg: Config, s: State, steps: seq<Step>)
    requires s.history != [] && ValidRun(cfg, s, steps)
    ensures s.now <= Reached(cfg, s, steps).now
    decreases |steps|
  {
    if steps != [] {
      TimeGoesOn(cfg, Apply(cfg, s, steps[0]), steps[1..]);
    }
  }

  /**
   * A load that writes its answer to the cache: unless the entry is dropped or written again, in every
   * continuation the cache answers the code until exactly the TTL has passed, and with that answer.
   */
  lemma ServedForItsTtl(cfg: Config, s: State, i: nat, code: string, steps: seq<Step>)
    requires Inv(cfg, s) && Enabled(cfg, s, Cache(i, code, true))
    requires var s1 := Apply(cfg, s, Cache(i, code, true));
             ValidRun(cfg, s1, steps) && forall step :: step in steps ==> !Disturbs(step, code)
    ensures var answer := s.loads[(i, code)].answer;
            var s' := Reached(cfg, Apply(cfg, s, Cache(i, code, true)), steps);
            && (Enabled(cfg, s', Hit(code)) <==> s'.now < s.now + if answer.Found? then cfg.ttl else 30_000)
            && (Enabled(cfg, s', Hit(code)) ==>
                  Apply(cfg, s', Hit(code)).replies == s'.replies + [Reply(code, answer, s'.now, true)])
  {
    var s1 := Apply(cfg, s, Cache(i, code, true));
    var l := s.loads[(i, code)];
    assert LoadInv(cfg, s, code, l);
    RoundTrip(l.answer);
    EntryStays(cfg, s1, steps, code);
    EntryLapses(cfg, s1, steps, code);
  }

  /** And not a moment longer. */
  lemma {:induction false} EntryLapses(cfg: Config, s: State, steps: seq<Step>, code: string)
    requires s.history != [] && code in s.entries && ValidRun(cfg, s, steps)
    requires forall step :: step in steps ==> !Disturbs(step, code)
    ensures var s' := Reached(cfg, s, steps); code in s'.entries ==> s'.entries[code] == s.entries[code]
    decreases |steps|
  {
    if steps != [] {
      assert !Disturbs(steps[0], code);
      var mid := Apply(cfg, s, steps[0]);
      if code in mid.entries {
        EntryLapses(cfg, mid, steps[1..], code);
      } else {
        StaysAbsent(cfg, mid, steps[1..], code);
      }
    }
  }

  lemma {:induction false} StaysAbsent(cfg: Config, s: State, steps: seq<Step>, code: string)
    requires s.history != [] && code !in s.entries && ValidRun(cfg, s, steps)
    requires forall step :: step in steps ==> !Disturbs(step, code)
    ensures code !in Reached(cfg, s, steps).entries
    decreases |steps|
  {
    if steps != [] {
      assert !Disturbs(steps[0], code);
      StaysAbsent(cfg, Apply(cfg, s, steps[0]), steps[1..], code);
    }
  }

  // ---- A code's URL never changes ----

  /** No code is issued twice, not even after its link was deleted. */
  ghost predicate NoReissue(cfg: Config, s: State, steps: seq<Step>)
    requires s.history != [] && ValidRun(cfg, s, steps)
    decreases |steps|
  {
    steps == [] ||
    (&& (steps[0].Create? ==> steps[0].code !in s.created)
     && NoReissue(cfg, Apply(cfg, s, steps[0]), steps[1..]))
  }

  /** Every snapshot agrees with the URLs the codes were issued with. */
  ghost predicate Faithful(s: State) {
    forall i, code :: 0 <= i < |s.history| && code in s.history[i].rows ==>
      code in s.created && s.history[i].rows[code] == s.created[code]
  }

  lemma {:induction false} FaithfulFrom(cfg: Config, s: State, steps: seq<Step>)
    requires s.history != [] && Faithful(s) && ValidRun(cfg, s, steps) && NoReissue(cfg, s, steps)
    ensures Faithful(Reached(cfg, s, steps))
    decreases |steps|
  {
    if steps != [] {
      FaithfulFrom(cfg, Apply(cfg, s, steps[0]), steps[1..]);
    }
  }

  lemma AnswerCreated(s: State, code: string, a: Answer, t: int)
    requires Faithful(s) && AnswerAt(s.history, code, a, t) && a.Found?
    ensures code in s.created && a.url == s.created[code]
  {
    var i: nat :| Holds(s.history, i, t) && Lookup(s.history[i].rows, code) == a;
  }

  /** If codes are never reissued, a positive answer is always the URL the code was created with. */
  lemma AnswersAreCreated(cfg: Config, steps: seq<Step>, r: Reply)
    requires cfg.ttl >= 0 && cfg.bound >= 0 && ValidRun(cfg, Init(), steps) && NoReissue(cfg, Init(), steps)
    requires r in Reached(cfg, Init(), steps).replies && r.answer.Found?
    ensures var s := Reached(cfg, Init(), steps); r.code in s.created && r.answer.url == s.created[r.code]
  {
    var s := Reached(cfg, Init(), steps);
    BoundedStaleness(cfg, steps, r);
    FaithfulFrom(cfg, Init(), steps);
    var t :| AnswerAt(s.history, r.code, r.answer, t);
    AnswerCreated(s, r.code, r.answer, t);
  }

  // ---- When a deleted code is gone for good ----

  /** A load of the code read it before the delete and has not finished. */
  ghost predicate StaleLoad(s: State, i: nat, code: string) {
    (i, code) in s.loads && s.loads[(i, code)].Loaded? && s.loads[(i, code)].answer.Found?
  }

  /** Such a load that has yet to write what it read to the cache. */
  ghost predicate Recaching(s: State, i: nat, code: string) {
    StaleLoad(s, i, code) && !s.loads[(i, code)].cached
  }

  /** Issued and deleted, with nothing left that could answer it out of the cache. */
  ghost predicate Flushed(s: State, code: string)
    requires s.history != []
  {
    && code in s.created && code !in Rows(s)
    && (Live(s.entries, code, s.now) ==> FromCached(s.entries[code].val).NotFound?)
    && (forall i: nat :: !Recaching(s, i, code))
  }

  /** And nothing left that could answer it at all. */
  ghost predicate Gone(s: State, code: string)
    requires s.history != []
  {
    Flushed(s, code) && forall i: nat :: !StaleLoad(s, i, code)
  }

  ghost predicate Resolves(replies: seq<Reply>, code: string) {
    exists r :: r in replies && r.code == code && r.answer.Found?
  }

  /** No continuation that issues no code twice ever answers the code with a link again. */
  ghost predicate NeverResolvesAgain(cfg: Config, s: State, code: string)
    requires s.history != []
  {
    forall steps :: ValidRun(cfg, s, steps) && NoReissue(cfg, s, steps) ==>
      !Resolves(Reached(cfg, s, steps).replies[|s.replies|..], code)
  }

  lemma FlushedStays(cfg: Config, s: State, step: Step, code: string)
    requires s.history != [] && Flushed(s, code) && Enabled(cfg, s, step)
    requires step.Create? ==> step.code !in s.created
    ensures Apply(cfg, s, step).history != [] && Flushed(Apply(cfg, s, step), code)
  {
    var s' := Apply(cfg, s, step);
    forall i: nat ensures !Recaching(s', i, code) {
      assert !Recaching(s, i, code);
    }
    if step.Cache? && step.code == code {
      assert !Recaching(s, step.instance, code);
    }
  }

  lemma GoneStays(cfg: Config, s: State, step: Step, code: string)
    requires s.history != [] && Gone(s, code) && Enabled(cfg, s, step)
    requires step.Create? ==> step.code !in s.created
    ensures Apply(cfg, s, step).history != [] && Gone(Apply(cfg, s, step), code)
  {
    FlushedStays(cfg, s, step, code);
    var s' := Apply(cfg, s, step);
    forall i: nat ensures !StaleLoad(s', i, code) {
      assert !StaleLoad(s, i, code);
    }
  }

  lemma GoneAnswers(cfg: Config, s: State, step: Step, code: string)
    requires s.history != [] && Gone(s, code) && Enabled(cfg, s, step)
    ensures var replies := Apply(cfg, s, step).replies;
            s.replies <= replies && !Resolves(replies[|s.replies|..], code)
  {
    if step.Finish? && step.code == code {
      assert !StaleLoad(s, step.instance, code);
    }
  }

  lemma ResolvesSplit(xs: seq<Reply>, ys: seq<Reply>, code: string)
    requires !Resolves(xs, code) && !Resolves(ys, code)
    ensures !Resolves(xs + ys, code)
  {
  }

  lemma {:induction false} GoneForever(cfg: Config, s: State, steps: seq<Step>, code: string)
    requires s.history != [] && Gone(s, code) && ValidRun(cfg, s, steps) && NoReissue(cfg, s, steps)
    ensures var replies := Reached(cfg, s, steps).replies;
            s.replies <= replies && !Resolves(replies[|s.replies|..], code)
    decreases |steps|
  {
    hide Gone, Apply, Enabled;
    if steps != [] {
      var s' := Apply(cfg, s, steps[0]);
      GoneStays(cfg, s, steps[0], code);
      GoneAnswers(cfg, s, steps[0], code);
      GoneForever(cfg, s', steps[1..], code);
      var n, m, all := |s.replies|, |s'.replies|, Reached(cfg, s, steps).replies;
      ResolvesSplit(s'.replies[n..], all[m..], code);
      assert all[n..] == s'.replies[n..] + all[m..];
    }
  }

  lemma Then(cfg: Config, s: State, step: Step, rest: seq<Step>)
    requires s.history != [] && Enabled(cfg, s, step) && ValidRun(cfg, Apply(cfg, s, step), rest)
    ensures ValidRun(cfg, s, [step] + rest)
    ensures Reached(cfg, s, [step] + rest) == Reached(cfg, Apply(cfg, s, step), rest)
    ensures !step.Create? && NoReissue(cfg, Apply(cfg, s, step), rest) ==> NoReissue(cfg, s, [step] + rest)
  {
    assert ([step] + rest)[1..] == rest;
  }

  /** A stale load can still answer, by itself and at once. */
  lemma StaleLoadResolves(cfg: Config, s: State, i: nat, code: string)
    requires s.history != [] && StaleLoad(s, i, code)
    ensures !NeverResolvesAgain(cfg, s, code)
  {
    var answer := s.loads[(i, code)].answer;
    var finish := Finish(i, code);
    var reply := Reply(code, answer, s.now, false);
    var steps;
    if s.loads[(i, code)].cached {
      steps := [finish] + [];
      Then(cfg, s, finish, []);
    } else {
      var mid := Apply(cfg, s, Cache(i, code, false));
      steps := [Cache(i, code, false)] + ([finish] + []);
      Then(cfg, mid, finish, []);
      Then(cfg, s, Cache(i, code, false), [finish] + []);
    }
    assert ValidRun(cfg, s, steps) && NoReissue(cfg, s, steps);
    var replies := Reached(cfg, s, steps).replies;
    assert replies == s.replies + [reply];
    assert replies[|s.replies|..] == [reply];
    assert reply in replies[|s.replies|..];
  }

  /**
   * A deleted code whose cache entry has just been dropped never resolves again, in any
   * continuation, if and only if no load that read it before the delete is still in flight.
   */
  lemma DeleteIsFinal(cfg: Config, s: State, code: string)
    requires s.history != [] && code in s.created && code !in Rows(s)
    ensures var s' := Apply(cfg, s, Invalidate(code));
            NeverResolvesAgain(cfg, s', code) <==> forall i: nat :: !StaleLoad(s, i, code)
  {
    var s' := Apply(cfg, s, Invalidate(code));
    if i: nat :| StaleLoad(s, i, code) {
      assert StaleLoad(s', i, code);
      StaleLoadResolves(cfg, s', i, code);
    } else {
      assert Gone(s', code) by {
        forall i: nat ensures !StaleLoad(s', i, code) {
          assert !StaleLoad(s, i, code);
        }
      }
      forall steps | ValidRun(cfg, s', steps) && NoReissue(cfg, s', steps)
        ensures !Resolves(Reached(cfg, s', steps).replies[|s'.replies|..], code)
      {
        GoneForever(cfg, s', steps, code);
      }
    }
  }

  // ---- When the cache itself can bring a deleted code back ----

  /** A reply that resolves the code out of the cache. */
  ghost predicate Serves(r: Reply, code: string) {
    r.hit && r.code == code && r.answer.Found?
  }

  ghost predicate ServedFromCache(replies: seq<Reply>, code: string) {
    exists r :: r in replies && Serves(r, code)
  }

  /** No continuation that issues no code twice ever resolves the code out of the cache. */
  ghost predicate NeverServedAgain(cfg: Config, s: State, code: string)
    requires s.history != []
  {
    forall steps :: ValidRun(cfg, s, steps) && NoReissue(cfg, s, steps) ==>
      !ServedFromCache(Reached(cfg, s, steps).replies[|s.replies|..], code)
  }

  lemma FlushedAnswers(cfg: Config, s: State, step: Step, code: string)
    requires s.history != [] && Flushed(s, code) && Enabled(cfg, s, step)
    ensures var replies := Apply(cfg, s, step).replies;
            s.replies <= replies && !ServedFromCache(replies[|s.replies|..], code)
  {
  }

  lemma {:induction false} FlushedForever(cfg: Config, s: State, steps: seq<Step>, code: string)
    requires s.history != [] && Flushed(s, code) && ValidRun(cfg, s, steps) && NoReissue(cfg, s, steps)
    ensures var replies := Reached(cfg, s, steps).replies;
            s.replies <= replies && !ServedFromCache(replies[|s.replies|..], code)
    decreases |steps|
  {
    hide Flushed, Apply, Enabled;
    if steps != [] {
      var s' := Apply(cfg, s, steps[0]);
      FlushedStays(cfg, s, steps[0], code);
      FlushedAnswers(cfg, s, steps[0], code);
      FlushedForever(cfg, s', steps[1..], code);
      var n, m, all := |s.replies|, |s'.replies|, Reached(cfg, s, steps).replies;
      assert all[n..] == s'.replies[n..] + all[m..];
    }
  }

  /** A load that has yet to write its stale answer writes it, and the next request is served from the cache. */
  lemma RecachingServes(cfg: Config, s: State, i: nat, code: string)
    requires Inv(cfg, s) && cfg.ttl > 0 && Recaching(s, i, code)
    ensures !NeverServedAgain(cfg, s, code)
  {
    var l := s.loads[(i, code)];
    assert LoadInv(cfg, s, code, l);
    RoundTrip(l.answer);
    var mid := Apply(cfg, s, Cache(i, code, true));
    var steps := [Cache(i, code, true)] + ([Hit(code)] + []);
    Then(cfg, mid, Hit(code), []);
    Then(cfg, s, Cache(i, code, true), [Hit(code)] + []);
    var reply := Reply(code, l.answer, s.now, true);
    var replies := Reached(cfg, s, steps).replies;
    assert replies == s.replies + [reply];
    assert replies[|s.replies|..] == [reply];
    assert reply in replies[|s.replies|..] && Serves(reply, code);
  }

  /**
   * A deleted code whose cache entry has just been dropped never comes out of the cache again, in any
   * continuation, if and only if no load that read it before the delete has yet to write to the cache.
   */
  lemma DeleteClearsCache(cfg: Config, s: State, code: string)
    requires Inv(cfg, s) && cfg.ttl > 0 && code in s.created && code !in Rows(s)
    ensures var s' := Apply(cfg, s, Invalidate(code));
            NeverServedAgain(cfg, s', code) <==> forall i: nat :: !Recaching(s, i, code)
  {
    var s' := Apply(cfg, s, Invalidate(code));
    Keeps(cfg, s, Invalidate(code));
    if i: nat :| Recaching(s, i, code) {
      assert Recaching(s', i, code);
      RecachingServes(cfg, s', i, code);
    } else {
      assert Flushed(s', code) by {
        forall i: nat ensures !Recaching(s', i, code) {
          assert !Recaching(s, i, code);
        }
      }
      forall steps | ValidRun(cfg, s', steps) && NoReissue(cfg, s', steps)
        ensures !ServedFromCache(Reached(cfg, s', steps).replies[|s'.replies|..], code)
      {
        FlushedForever(cfg, s', steps, code);
      }
    }
  }

  /** A load reads the link, the link is deleted and its entry dropped, and then the load writes it back. */
  ghost function PutBack(code: string, url: string): seq<Step> {
    [Create(code, url)] + ([Begin(0, code)] + ([Read(0, code)] + ([DeleteRow(code)] + ([Invalidate(code)] + LateWrite(code)))))
  }

  ghost function LateWrite(code: string): seq<Step> {
    [Cache(0, code, true)] + ([Finish(0, code)] + ([Hit(code)] + []))
  }

  /** The code is deleted and its entry dropped, and the load still holds the link. */
  ghost predicate HeldOver(s: State, code: string, url: string) {
    && s.history != [] && code !in Rows(s) && s.entries == map[] && s.replies == [] && s.now == 0
    && s.loads == map[(0, code) := Loaded(0, Found(url), 0, false)]
  }

  lemma LateWriteServes(cfg: Config, s: State, code: string, url: string)
    requires cfg.ttl > 0 && IsHttp(url) && HeldOver(s, code, url)
    ensures ValidRun(cfg, s, LateWrite(code))
    ensures var s' := Reached(cfg, s, LateWrite(code));
            code !in Rows(s') && s'.replies == [Reply(code, Found(url), 0, false), Reply(code, Found(url), 0, true)]
  {
    RoundTrip(Found(url));
    var s1 := Apply(cfg, s, Cache(0, code, true));
    var s2 := Apply(cfg, s1, Finish(0, code));
    assert s2.replies == [Reply(code, Found(url), 0, false)];
    Then(cfg, s2, Hit(code), []);
    Then(cfg, s1, Finish(0, code), [Hit(code)] + []);
    Then(cfg, s, Cache(0, code, true), [Finish(0, code)] + ([Hit(code)] + []));
  }

  /** So a deleted code can resolve from the cache after its entry was dropped, in a run from the start. */
  lemma StaleLoadPutsBack(cfg: Config, code: string, url: string)
    requires cfg.ttl > 0 && IsHttp(url)
    ensures ValidRun(cfg, Init(), PutBack(code, url))
    ensures var s := Reached(cfg, Init(), PutBack(code, url));
            code !in Rows(s) && s.replies == [Reply(code, Found(url), 0, false), Reply(code, Found(url), 0, true)]
  {
    var s0 := Init();
    var s1 := Apply(cfg, s0, Create(code, url));
    var s2 := Apply(cfg, s1, Begin(0, code));
    var s3 := Apply(cfg, s2, Read(0, code));
    var s4 := Apply(cfg, s3, DeleteRow(code));
    var s5 := Apply(cfg, s4, Invalidate(code));
    assert Rows(s1) == map[code := url] && Rows(s5) == map[];
    assert HeldOver(s5, code, url);
    LateWriteServes(cfg, s5, code, url);
    var rest4 := [Invalidate(code)] + LateWrite(code);
    var rest3 := [DeleteRow(code)] + rest4;
    var rest2 := [Read(0, code)] + rest3;
    var rest1 := [Begin(0, code)] + rest2;
    Then(cfg, s4, Invalidate(code), LateWrite(code));
    Then(cfg, s3, DeleteRow(code), rest4);
    Then(cfg, s2, Read(0, code), rest3);
    Then(cfg, s1, Begin(0, code), rest2);
    Then(cfg, s0, Create(code, url), rest1);
  }
}
