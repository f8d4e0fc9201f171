/** Go's uint64 shift and or, on naturals. */
module Bits {

  const TWO_12: int := 0x1000
  const TWO_22: int := 0x40_0000
  const TWO_42: int := 0x400_0000_0000
  const TWO_64: int := 0x1_0000_0000_0000_0000

  function Pow2(k: nat): (p: nat)
    ensures p >= 1
  {
    if k == 0 then 1 else 2 * Pow2(k - 1)
  }

  /** Conversion to uint64; a negative value wraps round. */
  function U64(x: int): nat {
    x % TWO_64
  }

  function Shl(x: nat, k: nat): nat {
    U64(x * Pow2(k))
  }

  function Or(a: nat, b: nat): nat {
    if a == 0 && b == 0 then 0
    else (if a % 2 == 1 || b % 2 == 1 then 1 else 0) + 2 * Or(a / 2, b / 2)
  }

  lemma {:induction false} OrZero(a: nat)
    ensures Or(a, 0) == a
  {
    if a != 0 {
      OrZero(a / 2);
    }
  }

  /** Values in disjoint bits: or is addition. */
  lemma {:induction false} OrDisjoint(a: nat, k: nat, b: nat)
    requires b < Pow2(k)
    ensures Or(a * Pow2(k), b) == a * Pow2(k) + b
  {
    if k == 0 {
      OrZero(a);
    } else {
      var hi := a * Pow2(k - 1);
      assert a * Pow2(k) == 2 * hi;
      OrDisjoint(a, k - 1, b / 2);
    }
  }

  lemma {:induction false} Pow2Adds(j: nat, k: nat)
    ensures Pow2(j + k) == Pow2(j) * Pow2(k)
    decreases k
  {
    if k > 0 {
      Pow2Adds(j, k - 1);
      assert Pow2(j + k) == 2 * Pow2(j + k - 1);
    }
  }

  lemma Powers()
    ensures Pow2(10) == 1024 && Pow2(12) == TWO_12 && Pow2(22) == TWO_22
  {
    assert Pow2(5) == 32;
    Pow2Adds(5, 5);
    Pow2Adds(10, 2);
    Pow2Adds(10, 12);
  }
}

/** The id generator of internal/idgen/snowflake.go. */
module Snowflake {
  import opened Basics
  import opened Bits

  const WORKER_BITS: nat := 10
  const SEQUENCE_BITS: nat := 12
  const MAX_WORKER: nat := 1023
  const MAX_SEQUENCE: nat := 4095

  /** [ timestamp ][ worker ][ sequence ] merged into 64 bits. `ms` counts from the project epoch. */
  function Pack(ms: int, worker: nat, sequence: nat): nat {
    Or(Or(Shl(U64(ms), WORKER_BITS + SEQUENCE_BITS), Shl(worker, SEQUENCE_BITS)), sequence)
  }

  datatype Gen = Gen(worker: nat, sequence: nat, lastMs: int) {
    ghost predicate Valid() {
      worker <= MAX_WORKER && sequence <= MAX_SEQUENCE
    }
  }

  /** The guard of the branch that sleeps. */
  ghost predicate Exhausted(g: Gen, now: int) {
    now == g.lastMs && g.sequence == MAX_SEQUENCE
  }

  /** One call: the clock reads `now`, and `later` after the sleep if there is one. */
  function Next(g: Gen, now: int, later: int): (Gen, Option<nat>) {
    if now < g.lastMs then (g, None)
    else
      var g' :=
        if now == g.lastMs then
          if g.sequence + 1 > MAX_SEQUENCE then g.(sequence := 0, lastMs := later)
          else g.(sequence := g.sequence + 1)
        else g.(sequence := 0, lastMs := now);
      (g', Some(Pack(g'.lastMs, g'.worker, g'.sequence)))
  }

  datatype Outcome = ClockRegressed | EncodeFailed | Minted(code: string)

  class SnowflakeGenerator {
    const workerID: nat
    var sequence: nat
    var lastMs: int

    ghost function State(): Gen
      reads this
    {
      Gen(workerID, sequence, lastMs)
    }

    constructor (worker: nat)
      requires worker <= MAX_WORKER
      ensures State() == Gen(worker, 0, 0)
    {
      workerID, sequence, lastMs := worker, 0, 0;
    }

    /** `now` and `later` are the two clock readings less the epoch; `encode` is the sqids encoder. */
    method Generate(now: int, later: int, encode: nat -> Option<string>) returns (r: Outcome)
      requires State().Valid()
      modifies this
      ensures State().Valid()
      ensures var (g, id) := Next(old(State()), now, later);
              && State() == g
              && r == match id
                      case None => ClockRegressed
                      case Some(i) => match encode(i) case None => EncodeFailed case Some(c) => Minted(c)
    {
      var ms := now;
      if ms < lastMs {
        return ClockRegressed;
      }
      if ms == lastMs {
        sequence := sequence + 1;
        if sequence > MAX_SEQUENCE {
          ms := later;
          sequence := 0;
          lastMs := ms;
        }
      } else {
        sequence := 0;
        lastMs := ms;
      }
      var id := Or(Or(Shl(U64(ms), WORKER_BITS + SEQUENCE_BITS), Shl(workerID, SEQUENCE_BITS)), sequence);
      match encode(id) {
        case None => r := EncodeFailed;
        case Some(c) => r := Minted(c);
      }
    }
  }

  /** NewSnowflakeGenerator: null stands for its error. */
  method NewSnowflakeGenerator(worker: nat) returns (g: SnowflakeGenerator?)
    ensures g == null <==> worker > MAX_WORKER
    ensures g != null ==> fresh(g) && g.State() == Gen(worker, 0, 0) && g.State().Valid()
  {
    if worker > MAX_WORKER {
      return null;
    }
    g := new SnowflakeGenerator(worker);
  }

  // ---- Packing ----

  lemma TopField(ms: int)
    ensures U64(U64(ms) * TWO_22) == ms % TWO_42 * TWO_22
  {
    var q, p := ms / TWO_42, ms / TWO_64;
    assert U64(ms) * TWO_22 == ms % TWO_42 * TWO_22 + (q - p * TWO_22) * TWO_64;
    assert 0 <= ms % TWO_42 * TWO_22 < TWO_64;
  }

  /** What the shifts and ors compute, for every timestamp: the low 42 bits of it survive. */
  lemma PackIsSum(ms: int, worker: nat, sequence: nat)
    requires worker <= MAX_WORKER && sequence <= MAX_SEQUENCE
    ensures Pack(ms, worker, sequence) == ms % TWO_42 * TWO_22 + worker * TWO_12 + sequence
  {
    Powers();
    TopField(ms);
    var top := ms % TWO_42;
    assert Shl(U64(ms), 22) == top * TWO_22;
    assert Shl(worker, 12) == worker * TWO_12;
    OrDisjoint(top, 22, worker * TWO_12);
    var mid := top * 1024 + worker;
    assert top * TWO_22 + worker * TWO_12 == mid * Pow2(12);
    OrDisjoint(mid, 12, sequence);
  }

  /** The id unpacks to the fields it was made of. */
  lemma Unpacks(ms: int, worker: nat, sequence: nat)
    requires worker <= MAX_WORKER && sequence <= MAX_SEQUENCE
    ensures var id := Pack(ms, worker, sequence);
            && id / TWO_22 == ms % TWO_42
            && id / TWO_12 % 1024 == worker
            && id % TWO_12 == sequence
  {
    hide Pack;
    PackIsSum(ms, worker, sequence);
    var id, top := Pack(ms, worker, sequence), ms % TWO_42;
    assert id == (top * 1024 + worker) * TWO_12 + sequence;
    assert id / TWO_12 == top * 1024 + worker;
  }

  /** The timestamp survives packing exactly when it fits its field. */
  lemma TimestampFits(ms: int, worker: nat, sequence: nat)
    requires worker <= MAX_WORKER && sequence <= MAX_SEQUENCE
    ensures Pack(ms, worker, sequence) == ms * TWO_22 + worker * TWO_12 + sequence <==> 0 <= ms < TWO_42
  {
    hide Pack;
    PackIsSum(ms, worker, sequence);
    var kept := ms % TWO_42;
    assert kept == ms <==> 0 <= ms < TWO_42;
  }

  lemma SumOrder(worker: nat, ms: int, sequence: nat, ms': int, sequence': nat)
    requires sequence <= MAX_SEQUENCE && sequence' <= MAX_SEQUENCE
    ensures ms * TWO_22 + worker * TWO_12 + sequence < ms' * TWO_22 + worker * TWO_12 + sequence' <==>
            ms < ms' || (ms == ms' && sequence < sequence')
  {
  }

  lemma SumInjective(ms: int, worker: nat, sequence: nat, ms': int, worker': nat, sequence': nat)
    requires worker <= MAX_WORKER && worker' <= MAX_WORKER && sequence <= MAX_SEQUENCE && sequence' <= MAX_SEQUENCE
    requires ms * TWO_22 + worker * TWO_12 + sequence == ms' * TWO_22 + worker' * TWO_12 + sequence'
    ensures ms == ms' && worker == worker' && sequence == sequence'
  {
  }

  /** Ids of one worker order by millisecond, then by sequence. */
  lemma PackOrder(worker: nat, ms: int, sequence: nat, ms': int, sequence': nat)
    requires worker <= MAX_WORKER && sequence <= MAX_SEQUENCE && sequence' <= MAX_SEQUENCE
    requires 0 <= ms < TWO_42 && 0 <= ms' < TWO_42
    ensures Pack(ms, worker, sequence) < Pack(ms', worker, sequence') <==>
            ms < ms' || (ms == ms' && sequence < sequence')
  {
    hide Pack;
    TimestampFits(ms, worker, sequence);
    TimestampFits(ms', worker, sequence');
    SumOrder(worker, ms, sequence, ms', sequence');
  }

  /** Distinct fields give distinct ids. */
  lemma PackInjective(ms: int, worker: nat, sequence: nat, ms': int, worker': nat, sequence': nat)
    requires worker <= MAX_WORKER && worker' <= MAX_WORKER && sequence <= MAX_SEQUENCE && sequence' <= MAX_SEQUENCE
    requires 0 <= ms < TWO_42 && 0 <= ms' < TWO_42
    requires Pack(ms, worker, sequence) == Pack(ms', worker', sequence')
    ensures ms == ms' && worker == worker' && sequence == sequence'
  {
    hide Pack;
    TimestampFits(ms, worker, sequence);
    TimestampFits(ms', worker', sequence');
    SumInjective(ms, worker, sequence, ms', worker', sequence');
  }

  // ---- Runs of one generator ----

  datatype Call = Call(now: int, later: int)

  ghost function Mints(g: Gen, calls: seq<Call>): seq<nat>
    decreases |calls|
  {
    if calls == [] then []
    else
      var (g', id) := Next(g, calls[0].now, calls[0].later);
      (if id.Some? then [id.value] else []) + Mints(g', calls[1..])
  }

  /** Every reading after a sleep is later than the millisecond that ran out. */
  ghost predicate SleepsCross(g: Gen, calls: seq<Call>)
    decreases |calls|
  {
    calls == [] ||
    (&& (Exhausted(g, calls[0].now) ==> calls[0].later > g.lastMs)
     && SleepsCross(Next(g, calls[0].now, calls[0].later).0, calls[1..]))
  }

  /** Every timestamp that is packed fits its field. */
  ghost predicate Fits(g: Gen, calls: seq<Call>)
    decreases |calls|
  {
    0 <= g.lastMs < TWO_42 &&
    (calls == [] || Fits(Next(g, calls[0].now, calls[0].later).0, calls[1..]))
  }

  ghost predicate Increasing(ids: seq<nat>) {
    forall i, j :: 0 <= i < j < |ids| ==> ids[i] < ids[j]
  }

  ghost function Last(g: Gen): nat {
    Pack(g.lastMs, g.worker, g.sequence)
  }

  /** A minted id exceeds the previous one exactly when the sleep, if any, left the millisecond. */
  lemma NextIncreases(g: Gen, now: int, later: int)
    requires g.Valid() && 0 <= g.lastMs < TWO_42
    requires now >= g.lastMs && 0 <= Next(g, now, later).0.lastMs < TWO_42
    ensures Next(g, now, later).0.Valid() && Next(g, now, later).1 == Some(Last(Next(g, now, later).0))
    ensures Last(Next(g, now, later).0) > Last(g) <==> (Exhausted(g, now) ==> later > g.lastMs)
  {
    hide Pack;
    var g' := Next(g, now, later).0;
    PackOrder(g.worker, g.lastMs, g.sequence, g'.lastMs, g'.sequence);
  }

  lemma IncreasingCons(x: nat, y: nat, rest: seq<nat>)
    ensures Increasing([x, y] + rest) <==> x < y && Increasing([y] + rest)
  {
    var all, tail := [x, y] + rest, [y] + rest;
    assert all[0] == x && all[1] == y && all[1..] == tail;
    assert forall i :: 0 <= i < |tail| ==> tail[i] == all[i + 1];
    if x < y && Increasing(tail) {
      forall i, j | 0 <= i < j < |all| ensures all[i] < all[j] {
        if i == 0 && j > 1 {
          assert tail[0] < tail[j - 1];
        } else if i > 0 {
          assert tail[i - 1] < tail[j - 1];
        }
      }
    }
  }

  /** Over any calls, refused and exhausting ones included. */
  lemma {:induction false} IncreasingFrom(g: Gen, calls: seq<Call>)
    requires g.Valid() && Fits(g, calls)
    ensures Increasing([Last(g)] + Mints(g, calls)) <==> SleepsCross(g, calls)
    decreases |calls|
  {
    hide Pack;
    if calls != [] {
      var c, rest := calls[0], calls[1..];
      var (g', id) := Next(g, c.now, c.later);
      if c.now < g.lastMs {
        IncreasingFrom(g, rest);
        assert Mints(g, calls) == Mints(g, rest);
      } else {
        NextIncreases(g, c.now, c.later);
        IncreasingFrom(g', rest);
        IncreasingCons(Last(g), Last(g'), Mints(g', rest));
        assert [Last(g)] + Mints(g, calls) == [Last(g), Last(g')] + Mints(g', rest);
      }
    }
  }

  lemma {:induction false} FirstMint(g: Gen, calls: seq<Call>)
    requires g.Valid() && Fits(g, calls) && g.sequence < MAX_SEQUENCE
    ensures Increasing([Last(g)] + Mints(g, calls)) <==> Increasing(Mints(g, calls))
    decreases |calls|
  {
    hide Pack;
    if calls != [] {
      var c, rest := calls[0], calls[1..];
      if c.now < g.lastMs {
        FirstMint(g, rest);
        assert Mints(g, calls) == Mints(g, rest);
      } else {
        var g' := Next(g, c.now, c.later).0;
        NextIncreases(g, c.now, c.later);
        IncreasingCons(Last(g), Last(g'), Mints(g', rest));
        assert [Last(g)] + Mints(g, calls) == [Last(g), Last(g')] + Mints(g', rest);
        assert Mints(g, calls) == [Last(g')] + Mints(g', rest);
      }
    }
  }

  /** A new generator's ids strictly increase if and only if every sleep crosses into a later millisecond. */
  lemma StrictlyIncreasing(worker: nat, calls: seq<Call>)
    requires worker <= MAX_WORKER && Fits(Gen(worker, 0, 0), calls)
    ensures Increasing(Mints(Gen(worker, 0, 0), calls)) <==> SleepsCross(Gen(worker, 0, 0), calls)
  {
    IncreasingFrom(Gen(worker, 0, 0), calls);
    FirstMint(Gen(worker, 0, 0), calls);
  }

  // ---- What every call answers, told from the clock and the ids alone ----

  /** The generator before call i. */
  ghost function Standing(g: Gen, calls: seq<Call>, i: nat): Gen
    requires i <= |calls|
  {
    if i == 0 then g else var s := Standing(g, calls, i - 1); Next(s, calls[i - 1].now, calls[i - 1].later).0
  }

  /** The id each call answers with, None where it is refused. */
  ghost function Ids(g: Gen, calls: seq<Call>): seq<Option<nat>> {
    seq(|calls|, i requires 0 <= i < |calls| => Next(Standing(g, calls, i), calls[i].now, calls[i].later).1)
  }

  /** The clock reading that went into the last id before call i, 0 if there is none. */
  ghost function LastReading(ids: seq<Option<nat>>, calls: seq<Call>, i: nat): int
    requires |ids| == |calls| && i <= |calls|
    decreases i, 0
  {
    if i == 0 then 0
    else if ids[i - 1].Some? then Reading(ids, calls, i - 1) else LastReading(ids, calls, i - 1)
  }

  /** The low 12 bits of the last id before call i, 0 if there is none. */
  ghost function LastSequence(ids: seq<Option<nat>>, i: nat): nat
    requires i <= |ids|
  {
    if i == 0 then 0
    else if ids[i - 1].Some? then ids[i - 1].value % 4096 else LastSequence(ids, i - 1)
  }

  /** The reading call i goes by: the one after the sleep if the 4096 ids of its millisecond are spent. */
  ghost function Reading(ids: seq<Option<nat>>, calls: seq<Call>, i: nat): int
    requires |ids| == |calls| && i < |calls|
    decreases i, 1
  {
    if calls[i].now == LastReading(ids, calls, i) && LastSequence(ids, i) == 4095 then calls[i].later else calls[i].now
  }

  /** The answer of call i: refused exactly when the clock went back, else an id with these three fields. */
  ghost predicate AnswersReading(worker: nat, ids: seq<Option<nat>>, calls: seq<Call>, i: nat)
    requires |ids| == |calls| && i < |calls|
  {
    var last := LastReading(ids, calls, i);
    && (ids[i].None? <==> calls[i].now < last)
    && (ids[i].Some? ==>
          var id := ids[i].value;
          && id / TWO_22 == Reading(ids, calls, i) % TWO_42
          && id / TWO_12 % 1024 == worker
          && id % TWO_12 == if calls[i].now == last then (LastSequence(ids, i) + 1) % 4096 else 0)
  }

  lemma NextAnswers(g: Gen, now: int, later: int)
    requires g.Valid()
    ensures var (g', id) := Next(g, now, later);
            && g'.Valid() && g'.worker == g.worker
            && (id.None? <==> now < g.lastMs) && (id.None? ==> g' == g)
            && (id.Some? ==>
                  && g'.lastMs == (if Exhausted(g, now) then later else now)
                  && g'.sequence == (if now == g.lastMs then (g.sequence + 1) % 4096 else 0)
                  && id.value / TWO_22 == g'.lastMs % TWO_42 && id.value / TWO_12 % 1024 == g.worker
                  && id.value % TWO_12 == g'.sequence)
  {
    hide Pack;
    var g' := Next(g, now, later).0;
    if now >= g.lastMs {
      Unpacks(g'.lastMs, g'.worker, g'.sequence);
    }
  }

  /** The generator's fields are what the ids so far and the clock say. */
  lemma {:induction false} FieldsFromIds(worker: nat, calls: seq<Call>, i: nat)
    requires worker <= MAX_WORKER && i <= |calls|
    ensures var ids := Ids(Gen(worker, 0, 0), calls);
            Standing(Gen(worker, 0, 0), calls, i) == Gen(worker, LastSequence(ids, i), LastReading(ids, calls, i))
    ensures Standing(Gen(worker, 0, 0), calls, i).Valid()
    decreases i
  {
    hide Next;
    if i > 0 {
      FieldsFromIds(worker, calls, i - 1);
      NextAnswers(Standing(Gen(worker, 0, 0), calls, i - 1), calls[i - 1].now, calls[i - 1].later);
    }
  }

  /**
   * Every call of every run of a new generator: it is refused exactly when the clock has gone back
   * behind the last id's reading, and otherwise its id carries this call's own clock reading (the
   * one after the sleep exactly if the millisecond was spent), the worker, and the next sequence
   * number of that millisecond.
   */
  lemma IdsCarryReadings(worker: nat, calls: seq<Call>, i: nat)
    requires worker <= MAX_WORKER && i < |calls|
    ensures AnswersReading(worker, Ids(Gen(worker, 0, 0), calls), calls, i)
  {
    hide Next;
    FieldsFromIds(worker, calls, i);
    NextAnswers(Standing(Gen(worker, 0, 0), calls, i), calls[i].now, calls[i].later);
  }

  // ---- A sleep that does not leave the millisecond repeats an id ----

  ghost function Burst(ms: int, n: nat): (calls: seq<Call>)
    ensures |calls| == n
  {
    if n == 0 then [] else [Call(ms, ms)] + Burst(ms, n - 1)
  }

  lemma {:induction false} BurstMints(g: Gen, ms: int, n: nat, i: nat)
    requires g.Valid() && g.lastMs == ms && g.sequence + n == MAX_SEQUENCE + 1 && i < n
    ensures |Mints(g, Burst(ms, n))| == n
    ensures Mints(g, Burst(ms, n))[i] == Pack(ms, g.worker, if i == n - 1 then 0 else g.sequence + 1 + i)
    decreases n
  {
    var g' := Next(g, ms, ms).0;
    assert Burst(ms, n)[1..] == Burst(ms, n - 1);
    if n > 1 {
      BurstMints(g', ms, n - 1, if i == 0 then 0 else i - 1);
    } else {
      assert Mints(g', Burst(ms, 0)) == [];
    }
  }

  /** 4097 calls in one millisecond whose sleep ends inside it: the last id equals the first. */
  lemma StuckClockRepeats(worker: nat, ms: int)
    requires worker <= MAX_WORKER && 0 < ms < TWO_42
    ensures var ids := Mints(Gen(worker, 0, 0), Burst(ms, 4097)); |ids| == 4097 && ids[0] == ids[4096]
  {
    var g := Gen(worker, 0, 0);
    var g' := Next(g, ms, ms).0;
    assert Burst(ms, 4097)[1..] == Burst(ms, 4096);
    BurstMints(g', ms, 4096, 4095);
    assert Mints(g, Burst(ms, 4097)) == [Last(g')] + Mints(g', Burst(ms, 4096));
  }
}
