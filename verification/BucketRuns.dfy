/**
 * What whole runs of the bucket guarantee. A run is the non-decreasing sequence of Redis
 * times at which requests from all instances reach one key.
 */
module BucketRuns {
  import opened TokenBucket

  ghost predicate Ordered(times: seq<real>) {
    forall i, j :: 0 <= i < j < |times| ==> times[i] <= times[j]
  }

  ghost predicate From(ts: real, times: seq<real>) {
    Ordered(times) && (times != [] ==> ts <= times[0])
  }

  ghost predicate InRange(cfg: Config, b: Bucket) {
    0.0 <= b.tokens <= cfg.burst as real
  }

  /** Decisions of the script, expiry included. */
  function Run(cfg: Config, k: Key, times: seq<real>): (ds: seq<Decision>)
    requires cfg.Valid()
    ensures |ds| == |times|
    decreases |times|
  {
    if times == [] then []
    else
      var (k', d) := Script(cfg, k, times[0]);
      [d] + Run(cfg, k', times[1..])
  }

  /** Decisions of a bucket whose key is kept for ever. */
  function RunForever(cfg: Config, b: Bucket, times: seq<real>): (ds: seq<Decision>)
    requires cfg.Valid()
    ensures |ds| == |times|
    decreases |times|
  {
    if times == [] then []
    else
      var (b', d) := Take(cfg, b, times[0]);
      [d] + RunForever(cfg, b', times[1..])
  }

  function Admitted(ds: seq<Decision>): nat {
    if ds == [] then 0 else (if ds[0].allowed then 1 else 0) + Admitted(ds[1..])
  }

  // ---- One step ----
  // The laws of refilling; the proofs after them use these alone and hide the arithmetic.

  lemma InflowGrows(cfg: Config, a: real, z: real)
    requires cfg.Valid() && a <= z
    ensures Inflow(cfg, a, z) >= 0.0
  {
  }

  lemma InflowSplits(cfg: Config, a: real, m: real, z: real)
    ensures Inflow(cfg, a, m) + Inflow(cfg, m, z) == Inflow(cfg, a, z)
  {
  }

  lemma Scale(x: real, y: real, r: real)
    requires x <= y && r > 0.0
    ensures x * r <= y * r
    ensures x < y ==> x * r < y * r
  {
  }

  lemma Quotient(x: real, r: real)
    requires r > 0.0
    ensures x / r * r == x
  {
  }

  /** A bucket pays for a token exactly when its wait is over. */
  lemma WaitPays(cfg: Config, tokens: real, a: real, z: real)
    requires cfg.Valid()
    ensures tokens + Inflow(cfg, a, z) >= 1.0 <==> z - a >= Wait(cfg, tokens)
  {
    var r, idle, wait := cfg.rps as real, z - a, Wait(cfg, tokens);
    Quotient(1.0 - tokens, r);
    if idle >= wait {
      Scale(wait, idle, r);
    } else {
      Scale(idle, wait, r);
    }
  }

  /** Refilling shortens the wait by the time it took. */
  lemma WaitShrinks(cfg: Config, tokens: real, a: real, z: real)
    requires cfg.Valid()
    ensures Wait(cfg, tokens + Inflow(cfg, a, z)) == Wait(cfg, tokens) - (z - a)
  {
    DivideOut(1.0 - tokens, z - a, cfg.rps as real);
  }

  lemma DivideOut(x: real, y: real, r: real)
    requires r > 0.0
    ensures (x - y * r) / r == x / r - y
  {
    assert (x / r - y) * r == x - y * r;
  }

  lemma TakeKeepsRange(cfg: Config, b: Bucket, now: real)
    requires cfg.Valid() && InRange(cfg, b) && b.ts <= now
    ensures InRange(cfg, Take(cfg, b, now).0) && Take(cfg, b, now).0.ts == now
    ensures InRange(cfg, Bucket(Level(cfg, b, now), now))
  {
    hide Inflow, Wait;
    InflowGrows(cfg, b.ts, now);
  }

  /** Refilling in two legs is refilling in one. */
  lemma RefillComposes(cfg: Config, b: Bucket, mid: real, now: real)
    requires cfg.Valid() && b.ts <= mid <= now
    ensures Level(cfg, Bucket(Level(cfg, b, mid), mid), now) == Level(cfg, b, now)
  {
    hide Inflow;
    InflowGrows(cfg, mid, now);
    InflowSplits(cfg, b.ts, mid, now);
  }

  // ---- Expiry is unobservable ----

  /** A key as the script leaves it. */
  ghost predicate Written(cfg: Config, k: Key) {
    cfg.Valid() && k.Present? && InRange(cfg, k.bucket) && k.expireAtMs == Millis(k.bucket.ts) + IdleMs(cfg)
  }

  lemma IdleLongEnough(cfg: Config, ts: real, now: real)
    requires cfg.Valid() && Millis(now) >= Millis(ts) + IdleMs(cfg)
    ensures now - ts >= cfg.burst as real / cfg.rps as real
  {
    var full := cfg.burst as real / cfg.rps as real;
    assert now * 1000.0 >= Millis(now) as real;
    assert ts * 1000.0 < Millis(ts) as real + 1.0;
    assert IdleMs(cfg) as real >= full * 1000.0 + 1000.0;
  }

  lemma IdleRefills(cfg: Config, ts: real, now: real)
    requires cfg.Valid() && now - ts >= cfg.burst as real / cfg.rps as real
    ensures Inflow(cfg, ts, now) >= cfg.burst as real
  {
    var b, r := cfg.burst as real, cfg.rps as real;
    Scale(b / r, now - ts, r);
    Quotient(b, r);
  }

  /** By the time a key can have expired its bucket would be full again. */
  lemma ExpiredMeansFull(cfg: Config, k: Key, now: real)
    requires Written(cfg, k) && Millis(now) >= k.expireAtMs
    ensures Level(cfg, k.bucket, now) == cfg.burst as real
  {
    IdleLongEnough(cfg, k.bucket.ts, now);
    IdleRefills(cfg, k.bucket.ts, now);
  }

  lemma {:induction false} ExpiryUnobservableFrom(cfg: Config, k: Key, times: seq<real>)
    requires Written(cfg, k) && From(k.bucket.ts, times)
    ensures Run(cfg, k, times) == RunForever(cfg, k.bucket, times)
    decreases |times|
  {
    hide Inflow, Wait;
    if times != [] {
      var now := times[0];
      if Millis(now) >= k.expireAtMs {
        ExpiredMeansFull(cfg, k, now);
        InflowGrows(cfg, now, now);
      }
      assert Level(cfg, Current(cfg, k, now), now) == Level(cfg, k.bucket, now);
      TakeKeepsRange(cfg, k.bucket, now);
      ExpiryUnobservableFrom(cfg, Script(cfg, k, now).0, times[1..]);
    }
  }

  /** Reclaiming idle keys never changes a decision. */
  lemma ExpiryUnobservable(cfg: Config, times: seq<real>)
    requires cfg.Valid() && Ordered(times) && times != []
    ensures Run(cfg, Absent, times) == RunForever(cfg, Full(cfg, times[0]), times)
  {
    hide Inflow, Wait;
    TakeKeepsRange(cfg, Full(cfg, times[0]), times[0]);
    ExpiryUnobservableFrom(cfg, Script(cfg, Absent, times[0]).0, times[1..]);
  }

  // ---- Window bound ----

  /** Requests admitted at a time in [a, z]. */
  function AdmittedWithin(times: seq<real>, ds: seq<Decision>, a: real, z: real): nat
    requires |times| == |ds|
  {
    if times == [] then 0
    else (if ds[0].allowed && a <= times[0] <= z then 1 else 0) + AdmittedWithin(times[1..], ds[1..], a, z)
  }

  lemma {:induction false} NoneWithin(times: seq<real>, ds: seq<Decision>, a: real, z: real)
    requires |times| == |ds| && forall i :: 0 <= i < |times| ==> !(a <= times[i] <= z)
    ensures AdmittedWithin(times, ds, a, z) == 0
    decreases |times|
  {
    if times != [] {
      NoneWithin(times[1..], ds[1..], a, z);
    }
  }

  lemma BudgetStep(cfg: Config, b: Bucket, now: real, z: real, rest: nat)
    requires cfg.Valid() && b.ts <= now <= z
    requires var b' := Take(cfg, b, now).0; rest as real <= b'.tokens + Inflow(cfg, b'.ts, z)
    ensures (rest + if Take(cfg, b, now).1.allowed then 1 else 0) as real <= b.tokens + Inflow(cfg, b.ts, z)
  {
    hide Inflow, Wait;
    InflowSplits(cfg, b.ts, now, z);
  }

  /** What a bucket can pay for until z: what it holds and what flows in. */
  lemma {:induction false} Budget(cfg: Config, b: Bucket, times: seq<real>, a: real, z: real)
    requires cfg.Valid() && InRange(cfg, b) && From(b.ts, times) && b.ts <= z
    ensures AdmittedWithin(times, RunForever(cfg, b, times), a, z) as real <= b.tokens + Inflow(cfg, b.ts, z)
    decreases |times|
  {
    hide Inflow, Wait;
    var ds := RunForever(cfg, b, times);
    if times == [] || times[0] > z {
      InflowGrows(cfg, b.ts, z);
      NoneWithin(times, ds, a, z);
    } else {
      var (b', d) := Take(cfg, b, times[0]);
      TakeKeepsRange(cfg, b, times[0]);
      Budget(cfg, b', times[1..], a, z);
      var rest := AdmittedWithin(times[1..], RunForever(cfg, b', times[1..]), a, z);
      assert ds[0] == d && ds[1..] == RunForever(cfg, b', times[1..]);
      assert AdmittedWithin(times, ds, a, z) <= rest + if d.allowed then 1 else 0;
      BudgetStep(cfg, b, times[0], z, rest);
    }
  }

  /** Refilling to the first request beforehand changes nothing. */
  lemma RefillFirst(cfg: Config, b: Bucket, times: seq<real>)
    requires cfg.Valid() && From(b.ts, times) && times != []
    ensures RunForever(cfg, Bucket(Level(cfg, b, times[0]), times[0]), times) == RunForever(cfg, b, times)
  {
    hide Inflow, Wait, Level;
    RefillComposes(cfg, b, times[0], times[0]);
    assert Take(cfg, Bucket(Level(cfg, b, times[0]), times[0]), times[0]) == Take(cfg, b, times[0]);
  }

  lemma {:induction false} WindowBoundForever(cfg: Config, b: Bucket, times: seq<real>, a: real, z: real)
    requires cfg.Valid() && InRange(cfg, b) && From(b.ts, times) && a <= z
    ensures AdmittedWithin(times, RunForever(cfg, b, times), a, z) as real <= cfg.burst as real + Inflow(cfg, a, z)
    decreases |times|
  {
    hide Inflow, Wait;
    var ds := RunForever(cfg, b, times);
    InflowGrows(cfg, a, z);
    if times == [] || times[0] > z {
      NoneWithin(times, ds, a, z);
    } else if times[0] < a {
      var b' := Take(cfg, b, times[0]).0;
      TakeKeepsRange(cfg, b, times[0]);
      WindowBoundForever(cfg, b', times[1..], a, z);
      assert ds[1..] == RunForever(cfg, b', times[1..]);
    } else {
      var full := Bucket(Level(cfg, b, times[0]), times[0]);
      TakeKeepsRange(cfg, b, times[0]);
      RefillFirst(cfg, b, times);
      Budget(cfg, full, times, a, z);
      InflowSplits(cfg, a, times[0], z);
      InflowGrows(cfg, a, times[0]);
    }
  }

  /** At most burst + rps*d requests are admitted in any window of length d. */
  lemma WindowBound(cfg: Config, times: seq<real>, a: real, d: real)
    requires cfg.Valid() && Ordered(times) && d >= 0.0
    ensures AdmittedWithin(times, Run(cfg, Absent, times), a, a + d) as real <= cfg.burst as real + d * cfg.rps as real
  {
    if times == [] {
      Scale(0.0, d, cfg.rps as real);
    } else {
      ExpiryUnobservable(cfg, times);
      WindowBoundForever(cfg, Full(cfg, times[0]), times, a, a + d);
      InflowOver(cfg, a, d);
    }
  }

  lemma InflowOver(cfg: Config, a: real, d: real)
    ensures Inflow(cfg, a, a + d) == d * cfg.rps as real
  {
    assert a + d - a == d;
  }

  /** The key after a run. */
  function After(cfg: Config, k: Key, times: seq<real>): Key
    requires cfg.Valid()
    decreases |times|
  {
    if times == [] then k else After(cfg, Script(cfg, k, times[0]).0, times[1..])
  }

  /** 0 <= tokens <= burst after every run. */
  lemma {:induction false} TokensStayInRange(cfg: Config, k: Key, times: seq<real>)
    requires cfg.Valid() && (k.Present? ==> Written(cfg, k) && From(k.bucket.ts, times)) && Ordered(times)
    ensures var k' := After(cfg, k, times); k'.Present? ==> Written(cfg, k')
    decreases |times|
  {
    hide Inflow, Wait;
    if times != [] {
      var now := times[0];
      TakeKeepsRange(cfg, Current(cfg, k, now), now);
      TokensStayInRange(cfg, Script(cfg, k, now).0, times[1..]);
    }
  }

  // ---- Rejected requests are invisible ----

  function Keep<T>(xs: seq<T>, keep: seq<bool>): seq<T>
    requires |xs| == |keep|
  {
    if xs == [] then [] else (if keep[0] then [xs[0]] else []) + Keep(xs[1..], keep[1..])
  }

  /** Only rejected requests are dropped. */
  ghost predicate DropsOnlyRejected(ds: seq<Decision>, keep: seq<bool>) {
    |ds| == |keep| && forall i :: 0 <= i < |ds| ==> keep[i] || !ds[i].allowed
  }

  /** `late` is `early` refilled to a later instant. */
  ghost predicate Refilled(cfg: Config, early: Bucket, late: Bucket) {
    early.ts <= late.ts && late.tokens == Level(cfg, early, late.ts)
  }

  lemma SameFromHere(cfg: Config, early: Bucket, late: Bucket, now: real)
    requires cfg.Valid() && (early == late || Refilled(cfg, early, late)) && late.ts <= now
    ensures Take(cfg, early, now) == Take(cfg, late, now)
  {
    hide Inflow, Wait;
    if early != late {
      RefillComposes(cfg, early, late.ts, now);
    }
  }

  lemma {:induction false} RejectedInvisibleFrom(cfg: Config, early: Bucket, late: Bucket, times: seq<real>, keep: seq<bool>)
    requires cfg.Valid() && (early == late || Refilled(cfg, early, late)) && From(late.ts, times)
    requires DropsOnlyRejected(RunForever(cfg, late, times), keep)
    ensures RunForever(cfg, early, Keep(times, keep)) == Keep(RunForever(cfg, late, times), keep)
    decreases |times|
  {
    hide Inflow, Wait;
    if times != [] {
      var now := times[0];
      var ds := RunForever(cfg, late, times);
      var (b', d) := Take(cfg, late, now);
      SameFromHere(cfg, early, late, now);
      assert ds[0] == d && ds[1..] == RunForever(cfg, b', times[1..]);
      assert DropsOnlyRejected(ds[1..], keep[1..]);
      var rest := Keep(times[1..], keep[1..]);
      if keep[0] {
        RejectedInvisibleFrom(cfg, b', b', times[1..], keep[1..]);
        assert Keep(times, keep) == [now] + rest;
        assert ([now] + rest)[1..] == rest;
      } else {
        // A rejected request only refills, so the earlier bucket still tells the same story.
        if early != late {
          RefillComposes(cfg, early, late.ts, now);
        }
        RejectedInvisibleFrom(cfg, early, b', times[1..], keep[1..]);
        assert Keep(times, keep) == rest;
      }
    }
  }

  lemma {:induction false} KeepFrom(ts: real, times: seq<real>, keep: seq<bool>)
    requires |times| == |keep| && From(ts, times)
    ensures From(ts, Keep(times, keep))
    decreases |times|
  {
    if times != [] {
      var t, rest := times[0], Keep(times[1..], keep[1..]);
      KeepFrom(t, times[1..], keep[1..]);
      assert Ordered([t] + rest) by {
        forall i, j | 0 <= i < j < |rest| + 1 ensures ([t] + rest)[i] <= ([t] + rest)[j] {
          assert rest[0] <= rest[j - 1];
        }
      }
    }
  }

  /** Dropping any rejected requests from a run leaves every other decision as it was. */
  lemma RejectedInvisible(cfg: Config, times: seq<real>, keep: seq<bool>)
    requires cfg.Valid() && Ordered(times)
    requires DropsOnlyRejected(Run(cfg, Absent, times), keep)
    ensures Run(cfg, Absent, Keep(times, keep)) == Keep(Run(cfg, Absent, times), keep)
  {
    hide Inflow, Wait;
    var kept := Keep(times, keep);
    if times != [] {
      var full := Full(cfg, times[0]);
      ExpiryUnobservable(cfg, times);
      RejectedInvisibleFrom(cfg, full, full, times, keep);
      KeepFrom(times[0], times, keep);
      if kept != [] {
        // The first kept request finds a full bucket however long it waited.
        ExpiryUnobservable(cfg, kept);
        var later := Full(cfg, kept[0]);
        InflowGrows(cfg, full.ts, kept[0]);
        SameFromHere(cfg, full, later, kept[0]);
      }
    }
  }

  // ---- Every decision, without a bucket ----

  /** Admissions among requests i up to, not including, n. */
  ghost function Between(ds: seq<Decision>, i: nat, n: nat): nat
    requires i <= n <= |ds|
  {
    Admitted(ds[i..n])
  }

  /** What a window from a to z may admit. */
  ghost function Allowance(cfg: Config, a: real, z: real): real {
    cfg.burst as real + (z - a) * cfg.rps as real
  }

  /** One more request at n stays within the allowance of the window that opens at request i. */
  ghost predicate Leaves(cfg: Config, times: seq<real>, ds: seq<Decision>, i: nat, n: nat)
    requires |ds| == |times| && i <= n < |times|
  {
    Between(ds, i, n) as real + 1.0 <= Allowance(cfg, times[i], times[n])
  }

  /** And so for every window that ends at n. */
  ghost predicate RoomAt(cfg: Config, times: seq<real>, ds: seq<Decision>, n: nat)
    requires |ds| == |times| && n < |times|
  {
    forall i :: 0 <= i <= n ==> Leaves(cfg, times, ds, i, n)
  }

  /** What bucket b can still pay for at request n. */
  ghost predicate Pays(cfg: Config, b: Bucket, times: seq<real>, ds: seq<Decision>, n: nat)
    requires |ds| == |times| && n < |times|
  {
    Between(ds, 0, n) as real + 1.0 <= b.tokens + Inflow(cfg, b.ts, times[n])
  }

  lemma InflowIs(cfg: Config, a: real, z: real)
    ensures cfg.burst as real + Inflow(cfg, a, z) == Allowance(cfg, a, z)
  {
  }

  lemma BetweenTail(ds: seq<Decision>, i: nat, n: nat)
    requires 0 < i <= n <= |ds|
    ensures Between(ds[1..], i - 1, n - 1) == Between(ds, i, n)
    ensures Between(ds, 0, n) == Between(ds[1..], 0, n - 1) + if ds[0].allowed then 1 else 0
  {
    assert ds[1..][i - 1..n - 1] == ds[i..n];
    assert ds[0..n][1..] == ds[1..][0..n - 1];
  }

  /** The windows that open after request 0 are those of the requests after it. */
  lemma RoomTail(cfg: Config, times: seq<real>, ds: seq<Decision>, n: nat)
    requires |ds| == |times| && 0 < n < |times|
    ensures RoomAt(cfg, times, ds, n) <==> Leaves(cfg, times, ds, 0, n) && RoomAt(cfg, times[1..], ds[1..], n - 1)
  {
    forall i | 0 < i <= n
      ensures Leaves(cfg, times[1..], ds[1..], i - 1, n - 1) <==> Leaves(cfg, times, ds, i, n)
    {
      BetweenTail(ds, i, n);
    }
    if RoomAt(cfg, times[1..], ds[1..], n - 1) {
      forall i | 0 < i <= n ensures Leaves(cfg, times, ds, i, n) {
        assert Leaves(cfg, times[1..], ds[1..], i - 1, n - 1);
      }
    }
    if RoomAt(cfg, times, ds, n) {
      var times', ds', n' := times[1..], ds[1..], n - 1;
      forall i | 0 <= i <= n' ensures Leaves(cfg, times', ds', i, n') {
        assert Leaves(cfg, times, ds, i + 1, n);
      }
    }
  }

  /** After one request a bucket pays for request n if it did before and the window from that request leaves room. */
  lemma PaysTail(cfg: Config, b: Bucket, times: seq<real>, ds: seq<Decision>, n: nat)
    requires cfg.Valid() && |ds| == |times| && 0 < n < |times| && ds[0] == Take(cfg, b, times[0]).1
    ensures Pays(cfg, Take(cfg, b, times[0]).0, times[1..], ds[1..], n - 1) <==>
            Pays(cfg, b, times, ds, n) && Leaves(cfg, times, ds, 0, n)
  {
    hide Inflow, Wait, Allowance;
    BetweenTail(ds, 1, n);
    InflowSplits(cfg, b.ts, times[0], times[n]);
    InflowIs(cfg, times[0], times[n]);
  }

  lemma {:induction false} AdmitsExactlyFrom(cfg: Config, b: Bucket, times: seq<real>, n: nat)
    requires cfg.Valid() && n < |times|
    ensures var ds := RunForever(cfg, b, times);
            ds[n].allowed <==> Pays(cfg, b, times, ds, n) && RoomAt(cfg, times, ds, n)
    decreases n
  {
    hide Wait, Pays, RoomAt, Leaves;
    var ds := RunForever(cfg, b, times);
    if n == 0 {
      AdmitsFirst(cfg, b, times, ds);
    } else {
      var b' := Take(cfg, b, times[0]).0;
      assert ds[0] == Take(cfg, b, times[0]).1 && ds[1..] == RunForever(cfg, b', times[1..]);
      AdmitsExactlyFrom(cfg, b', times[1..], n - 1);
      PaysTail(cfg, b, times, ds, n);
      RoomTail(cfg, times, ds, n);
    }
  }

  lemma AdmitsFirst(cfg: Config, b: Bucket, times: seq<real>, ds: seq<Decision>)
    requires cfg.Valid() && times != [] && |ds| == |times| && ds[0] == Take(cfg, b, times[0]).1
    ensures ds[0].allowed <==> Pays(cfg, b, times, ds, 0) && RoomAt(cfg, times, ds, 0)
  {
    assert Between(ds, 0, 0) == 0;
    assert RoomAt(cfg, times, ds, 0) <==> Leaves(cfg, times, ds, 0, 0);
  }

  lemma FullPays(cfg: Config, times: seq<real>, ds: seq<Decision>, n: nat)
    requires |ds| == |times| && n < |times|
    ensures Pays(cfg, Full(cfg, times[0]), times, ds, n) <==> Leaves(cfg, times, ds, 0, n)
  {
    InflowIs(cfg, times[0], times[n]);
  }

  /**
   * A request is admitted exactly if, with it, no window that ends at it holds more than
   * burst + rps*d admissions, d being the window's length. Nothing else matters: this is the
   * limiter, expiry included, without a bucket.
   */
  lemma AdmitsExactly(cfg: Config, times: seq<real>, n: nat)
    requires cfg.Valid() && Ordered(times) && n < |times|
    ensures var ds := Run(cfg, Absent, times); ds[n].allowed <==> RoomAt(cfg, times, ds, n)
  {
    hide Inflow, Wait, Allowance, Leaves, Pays;
    ExpiryUnobservable(cfg, times);
    AdmitsExactlyFrom(cfg, Full(cfg, times[0]), times, n);
    FullPays(cfg, times, Run(cfg, Absent, times), n);
  }

  /** Every request is admitted exactly if the windows leave room for it. */
  ghost predicate DecidedBy(cfg: Config, times: seq<real>, ds: seq<Decision>) {
    |ds| == |times| && forall m: nat :: m < |times| ==> (ds[m].allowed <==> RoomAt(cfg, times, ds, m))
  }

  lemma DecidedByWindows(cfg: Config, times: seq<real>)
    requires cfg.Valid() && Ordered(times)
    ensures DecidedBy(cfg, times, Run(cfg, Absent, times))
  {
    hide Inflow, Wait, Allowance, RoomAt;
    var ds := Run(cfg, Absent, times);
    forall m: nat | m < |times| ensures ds[m].allowed <==> RoomAt(cfg, times, ds, m) {
      AdmitsExactly(cfg, times, m);
    }
  }

  // ---- Maximality ----

  function Chosen(chosen: seq<bool>): nat {
    if chosen == [] then 0 else (if chosen[0] then 1 else 0) + Chosen(chosen[1..])
  }

  /** No window between two requests holds more chosen ones than burst + rps*d. */
  ghost predicate Conforms(cfg: Config, times: seq<real>, chosen: seq<bool>)
    requires |times| == |chosen|
  {
    forall i, j :: 0 <= i <= j < |times| ==>
      Chosen(chosen[i..j + 1]) as real <= Allowance(cfg, times[i], times[j])
  }

  lemma {:induction false} ChosenSplits(xs: seq<bool>, ys: seq<bool>)
    ensures Chosen(xs + ys) == Chosen(xs) + Chosen(ys)
    decreases |xs|
  {
    if xs == [] {
      assert xs + ys == ys;
    } else {
      ChosenSplits(xs[1..], ys);
      assert (xs + ys)[1..] == xs[1..] + ys;
    }
  }

  /** What the limiter admits. */
  function Decided(ds: seq<Decision>): (c: seq<bool>)
    ensures |c| == |ds|
  {
    seq(|ds|, i requires 0 <= i < |ds| => ds[i].allowed)
  }

  lemma {:induction false} AdmittedIsDecided(ds: seq<Decision>)
    ensures Admitted(ds) == Chosen(Decided(ds))
    decreases |ds|
  {
    if ds != [] {
      AdmittedIsDecided(ds[1..]);
      assert Decided(ds)[1..] == Decided(ds[1..]);
    }
  }

  /** Counting up to a cut and from it on. */
  lemma Cut(c: seq<bool>, i: nat, n: nat)
    requires i <= n < |c|
    ensures Chosen(c[..n]) == Chosen(c[..i]) + Chosen(c[i..n])
    ensures Chosen(c[i..n + 1]) == Chosen(c[i..n]) + if c[n] then 1 else 0
    ensures Chosen(c[..n + 1]) == Chosen(c[..n]) + if c[n] then 1 else 0
  {
    ChosenSplits(c[..i], c[i..n]);
    assert c[..n] == c[..i] + c[i..n];
    ChosenSplits(c[i..n], [c[n]]);
    assert c[i..n + 1] == c[i..n] + [c[n]];
    ChosenSplits(c[..n], [c[n]]);
    assert c[..n + 1] == c[..n] + [c[n]];
    assert [c[n]][1..] == [];
  }

  lemma BetweenIsChosen(ds: seq<Decision>, i: nat, n: nat)
    requires i <= n <= |ds|
    ensures Between(ds, i, n) == Chosen(Decided(ds)[i..n])
  {
    AdmittedIsDecided(ds[i..n]);
    assert Decided(ds[i..n]) == Decided(ds)[i..n];
  }

  /**
   * If the limiter turns down request n, some window that ends there is full; a choice that takes n
   * and conforms holds fewer of that window, so it was ahead where the window opens.
   */
  lemma {:induction false} MaximalFrom(cfg: Config, times: seq<real>, ds: seq<Decision>, chosen: seq<bool>, n: nat)
    requires |ds| == |times| == |chosen| && n <= |times| && Conforms(cfg, times, chosen)
    requires DecidedBy(cfg, times, ds)
    ensures Chosen(chosen[..n]) <= Chosen(Decided(ds)[..n])
    decreases n
  {
    if n > 0 {
      var m, mine := n - 1, Decided(ds);
      MaximalFrom(cfg, times, ds, chosen, m);
      Cut(chosen, 0, m);
      Cut(mine, 0, m);
      if chosen[m] && !mine[m] {
        var i :| 0 <= i <= m && !Leaves(cfg, times, ds, i, m);
        MaximalFrom(cfg, times, ds, chosen, i);
        WindowFull(cfg, times, ds, chosen, i, m);
      }
    }
  }

  lemma WindowFull(cfg: Config, times: seq<real>, ds: seq<Decision>, chosen: seq<bool>, i: nat, m: nat)
    requires |ds| == |times| == |chosen| && i <= m < |times| && Conforms(cfg, times, chosen)
    requires chosen[m] && !Leaves(cfg, times, ds, i, m)
    ensures Chosen(chosen[..m]) - Chosen(chosen[..i]) < Chosen(Decided(ds)[..m]) - Chosen(Decided(ds)[..i])
  {
    BetweenIsChosen(ds, i, m);
    Cut(chosen, i, m);
    Cut(Decided(ds), i, m);
    assert Chosen(chosen[i..m + 1]) as real <= Allowance(cfg, times[i], times[m]);
  }

  /**
   * No choice of requests that keeps every window within burst + rps*d ever gets ahead: every
   * prefix holds at least as many admitted requests as chosen ones.
   */
  lemma Maximal(cfg: Config, times: seq<real>, chosen: seq<bool>, n: nat)
    requires cfg.Valid() && Ordered(times) && |times| == |chosen| && n <= |times| && Conforms(cfg, times, chosen)
    ensures Chosen(chosen[..n]) <= Admitted(Run(cfg, Absent, times)[..n])
  {
    var ds := Run(cfg, Absent, times);
    DecidedByWindows(cfg, times);
    MaximalFrom(cfg, times, ds, chosen, n);
    AdmittedIsDecided(ds[..n]);
    assert Decided(ds[..n]) == Decided(ds)[..n];
  }

  lemma AllowanceGrows(cfg: Config, a: real, m: real, z: real)
    requires cfg.Valid() && a <= m <= z
    ensures 0.0 <= Allowance(cfg, a, m) <= Allowance(cfg, a, z)
  {
    Scale(m - a, z - a, cfg.rps as real);
    Scale(0.0, m - a, cfg.rps as real);
  }

  lemma {:induction false} WindowKept(cfg: Config, times: seq<real>, ds: seq<Decision>, i: nat, j: nat)
    requires cfg.Valid() && Ordered(times) && |ds| == |times| && i <= j < |times|
    requires DecidedBy(cfg, times, ds)
    ensures Chosen(Decided(ds)[i..j + 1]) as real <= Allowance(cfg, times[i], times[j])
    decreases j
  {
    hide Allowance;
    Cut(Decided(ds), i, j);
    if ds[j].allowed {
      BetweenIsChosen(ds, i, j);
      assert Leaves(cfg, times, ds, i, j);
    } else if i < j {
      WindowKept(cfg, times, ds, i, j - 1);
      AllowanceGrows(cfg, times[i], times[j - 1], times[j]);
    } else {
      AllowanceGrows(cfg, times[i], times[j], times[j]);
      assert Decided(ds)[i..i] == [];
    }
  }

  /** The limiter's own admissions conform, so they are the most any conforming choice can have. */
  lemma OwnChoiceConforms(cfg: Config, times: seq<real>)
    requires cfg.Valid() && Ordered(times)
    ensures Conforms(cfg, times, Decided(Run(cfg, Absent, times)))
  {
    var ds := Run(cfg, Absent, times);
    DecidedByWindows(cfg, times);
    forall i, j | 0 <= i <= j < |times|
      ensures Chosen(Decided(ds)[i..j + 1]) as real <= Allowance(cfg, times[i], times[j])
    {
      WindowKept(cfg, times, ds, i, j);
    }
  }

  // ---- How long a key is kept ----

  /** The script keeps an idle key for one second past the least whole number of milliseconds that fills a bucket. */
  lemma KeptUntilFull(cfg: Config, k: Key, now: real)
    requires cfg.Valid()
    ensures var k' := Script(cfg, k, now).0;
            && k'.Present?
            && var idle := k'.expireAtMs - Millis(now) - 1000;
               (idle - 1) as real * cfg.rps as real < cfg.burst as real * 1000.0 <= idle as real * cfg.rps as real
  {
    CeilQuotient(cfg.burst, cfg.rps);
    hide Take, Current;
  }

  lemma CeilQuotient(b: int, r: int)
    requires r > 0
    ensures var n := Ceil(b as real / r as real * 1000.0);
            (n - 1) as real * r as real < b as real * 1000.0 <= n as real * r as real
  {
    var q := b as real / r as real;
    var n := Ceil(q * 1000.0);
    Quotient(b as real, r as real);
    Thousandfold(q, r as real, b as real);
    Scale(q * 1000.0, n as real, r as real);
    Scale((n - 1) as real, q * 1000.0, r as real);
  }

  lemma Thousandfold(q: real, r: real, b: real)
    requires q * r == b
    ensures q * 1000.0 * r == b * 1000.0
  {
  }

  // ---- Retry advice ----

  /** A waiting bucket admits a request exactly when its wait is over. */
  lemma NextToken(cfg: Config, b: Bucket, now: real)
    requires cfg.Valid() && b.tokens < 1.0
    ensures Take(cfg, b, now).1.allowed <==> now - b.ts >= Wait(cfg, b.tokens)
  {
    hide Inflow, Wait;
    WaitPays(cfg, b.tokens, b.ts, now);
  }

  /** A rejection leaves the moment of the next token where it was. */
  lemma RejectionWaits(cfg: Config, b: Bucket, now: real)
    requires cfg.Valid() && b.tokens < 1.0 && !Take(cfg, b, now).1.allowed
    ensures var b' := Take(cfg, b, now).0;
            b'.tokens < 1.0 && b'.ts == now && b'.ts + Wait(cfg, b'.tokens) == b.ts + Wait(cfg, b.tokens)
  {
    hide Inflow, Wait;
    WaitShrinks(cfg, b.tokens, b.ts, now);
  }

  /** Nothing is admitted before the moment of the next token. */
  lemma {:induction false} RetryTight(cfg: Config, b: Bucket, times: seq<real>, i: nat)
    requires cfg.Valid() && b.tokens < 1.0 && From(b.ts, times)
    requires i < |times| && times[i] < b.ts + Wait(cfg, b.tokens)
    ensures !RunForever(cfg, b, times)[i].allowed
    decreases |times|
  {
    hide Inflow, Wait;
    NextToken(cfg, b, times[0]);
    if i > 0 {
      var b' := Take(cfg, b, times[0]).0;
      RejectionWaits(cfg, b, times[0]);
      RetryTight(cfg, b', times[1..], i - 1);
      assert RunForever(cfg, b, times)[i] == RunForever(cfg, b', times[1..])[i - 1];
    }
  }

  /** If nothing was admitted before it, a request at or after that moment is admitted. */
  lemma {:induction false} RetrySufficient(cfg: Config, b: Bucket, times: seq<real>)
    requires cfg.Valid() && b.tokens < 1.0 && From(b.ts, times) && times != []
    requires forall i :: 0 <= i < |times| - 1 ==> !RunForever(cfg, b, times)[i].allowed
    requires times[|times| - 1] >= b.ts + Wait(cfg, b.tokens)
    ensures RunForever(cfg, b, times)[|times| - 1].allowed
    decreases |times|
  {
    hide Inflow, Wait;
    var ds := RunForever(cfg, b, times);
    NextToken(cfg, b, times[0]);
    if |times| > 1 {
      var b' := Take(cfg, b, times[0]).0;
      assert !ds[0].allowed;
      RejectionWaits(cfg, b, times[0]);
      var rest := RunForever(cfg, b', times[1..]);
      assert forall i :: 0 <= i < |rest| ==> rest[i] == ds[i + 1];
      RetrySufficient(cfg, b', times[1..]);
    }
  }

  /** Request j came no earlier than `until`, and nothing was admitted from request i up to it. */
  ghost predicate Waited(times: seq<real>, ds: seq<Decision>, i: nat, j: nat, until: real)
    requires |times| == |ds| && j < |times|
  {
    times[j] >= until && forall m :: i <= m < j ==> !ds[m].allowed
  }

  /** The wait advised by rejection i is needed and is enough. */
  ghost predicate SoundAdvice(times: seq<real>, ds: seq<Decision>, i: nat)
    requires |times| == |ds| && i < |times|
  {
    && ds[i].retryMs >= 1
    && (forall j :: i < j < |times| && times[j] <= times[i] + (ds[i].retryMs as real - 1.0) / 1000.0 ==> !ds[j].allowed)
    && (forall j :: i < j < |times| && Waited(times, ds, i + 1, j, times[i] + ds[i].retryMs as real / 1000.0) ==> ds[j].allowed)
  }

  lemma WaitPositive(cfg: Config, tokens: real)
    requires cfg.Valid() && tokens < 1.0
    ensures Wait(cfg, tokens) > 0.0
  {
  }

  /** The advice given with a rejection by bucket b, for whatever requests follow it. */
  lemma RetryAdviceFrom(cfg: Config, b: Bucket, now: real, times: seq<real>)
    requires cfg.Valid() && InRange(cfg, b) && b.ts <= now && From(now, times)
    requires !Take(cfg, b, now).1.allowed
    ensures var (b', d) := Take(cfg, b, now);
            var ds := RunForever(cfg, b', times);
            && d.retryMs >= 1
            && (forall i :: 0 <= i < |times| && times[i] <= now + (d.retryMs as real - 1.0) / 1000.0 ==> !ds[i].allowed)
            && (forall i :: 0 <= i < |times| && Waited(times, ds, 0, i, now + d.retryMs as real / 1000.0) ==> ds[i].allowed)
  {
    hide Inflow, Wait;
    var (b', d) := Take(cfg, b, now);
    var ds := RunForever(cfg, b', times);
    var wait := Wait(cfg, b'.tokens);
    WaitPositive(cfg, b'.tokens);
    assert d.retryMs == Ceil(wait * 1000.0);
    forall i | 0 <= i < |times| && times[i] <= now + (d.retryMs as real - 1.0) / 1000.0
      ensures !ds[i].allowed
    {
      RetryTight(cfg, b', times, i);
    }
    forall i | 0 <= i < |times| && Waited(times, ds, 0, i, now + d.retryMs as real / 1000.0)
      ensures ds[i].allowed
    {
      PrefixRun(cfg, b', times, i + 1);
      RetrySufficient(cfg, b', times[..i + 1]);
    }
  }

  lemma AdviceShift(times: seq<real>, ds: seq<Decision>, i: nat)
    requires |times| == |ds| && 0 < i < |times| && SoundAdvice(times[1..], ds[1..], i - 1)
    ensures SoundAdvice(times, ds, i)
  {
    var tail, rest := times[1..], ds[1..];
    assert forall j :: 0 < j < |times| ==> times[j] == tail[j - 1] && ds[j] == rest[j - 1];
    var until := times[i] + ds[i].retryMs as real / 1000.0;
    forall j | i < j < |times| && Waited(times, ds, i + 1, j, until)
      ensures ds[j].allowed
    {
      assert Waited(tail, rest, i, j - 1, until);
    }
  }

  lemma {:induction false} RetryAdviceForever(cfg: Config, b: Bucket, times: seq<real>, i: nat)
    requires cfg.Valid() && InRange(cfg, b) && From(b.ts, times) && i < |times|
    requires !RunForever(cfg, b, times)[i].allowed
    ensures SoundAdvice(times, RunForever(cfg, b, times), i)
    decreases i
  {
    hide Inflow, Wait;
    if i == 0 {
      RetryAdviceHead(cfg, b, times);
    } else {
      var b' := Take(cfg, b, times[0]).0;
      TakeKeepsRange(cfg, b, times[0]);
      assert RunForever(cfg, b, times)[1..] == RunForever(cfg, b', times[1..]);
      RetryAdviceForever(cfg, b', times[1..], i - 1);
      AdviceShift(times, RunForever(cfg, b, times), i);
    }
  }

  lemma RetryAdviceHead(cfg: Config, b: Bucket, times: seq<real>)
    requires cfg.Valid() && InRange(cfg, b) && From(b.ts, times) && times != []
    requires !RunForever(cfg, b, times)[0].allowed
    ensures SoundAdvice(times, RunForever(cfg, b, times), 0)
  {
    hide Inflow, Wait;
    var ds := RunForever(cfg, b, times);
    var tail, rest := times[1..], ds[1..];
    assert rest == RunForever(cfg, Take(cfg, b, times[0]).0, tail);
    RetryAdviceFrom(cfg, b, times[0], tail);
    var until := times[0] + ds[0].retryMs as real / 1000.0;
    forall j | 0 < j < |times|
      ensures times[j] == tail[j - 1] && ds[j] == rest[j - 1]
      ensures Waited(times, ds, 1, j, until) ==> Waited(tail, rest, 0, j - 1, until)
    {
    }
  }

  /**
   * The advice given with any rejection in any run: every request at most retry_ms - 1 ms later
   * is rejected too, and one that waits retry_ms, or the Retry-After seconds, is admitted if
   * nothing was admitted in between.
   */
  lemma RetryAdvice(cfg: Config, times: seq<real>, i: nat)
    requires cfg.Valid() && Ordered(times) && i < |times|
    requires !Run(cfg, Absent, times)[i].allowed
    ensures SoundAdvice(times, Run(cfg, Absent, times), i)
    ensures var ds := Run(cfg, Absent, times);
            forall j :: i < j < |times| && Waited(times, ds, i + 1, j, times[i] + RetryAfterSeconds(ds[i].retryMs) as real)
              ==> ds[j].allowed
  {
    hide Inflow, Wait, SoundAdvice, Run, RunForever, Script, Take, RetryAfterSeconds, Waited;
    ExpiryUnobservable(cfg, times);
    RetryAdviceForever(cfg, Full(cfg, times[0]), times, i);
    SecondsSuffice(times, Run(cfg, Absent, times), i);
  }

  lemma SecondsCover(retryMs: int)
    ensures RetryAfterSeconds(retryMs) as real >= retryMs as real / 1000.0
  {
  }

  lemma SecondsSuffice(times: seq<real>, ds: seq<Decision>, i: nat)
    requires |times| == |ds| && i < |times| && SoundAdvice(times, ds, i)
    ensures forall j :: i < j < |times| && Waited(times, ds, i + 1, j, times[i] + RetryAfterSeconds(ds[i].retryMs) as real)
              ==> ds[j].allowed
  {
    SecondsCover(ds[i].retryMs);
    forall j | i < j < |times| && Waited(times, ds, i + 1, j, times[i] + RetryAfterSeconds(ds[i].retryMs) as real)
      ensures ds[j].allowed
    {
      assert Waited(times, ds, i + 1, j, times[i] + ds[i].retryMs as real / 1000.0);
    }
  }

  lemma {:induction false} PrefixRun(cfg: Config, b: Bucket, times: seq<real>, n: nat)
    requires cfg.Valid() && n <= |times|
    ensures RunForever(cfg, b, times[..n]) == RunForever(cfg, b, times)[..n]
    decreases |times|
  {
    hide Inflow, Wait;
    if n > 0 {
      var b' := Take(cfg, b, times[0]).0;
      PrefixRun(cfg, b', times[1..], n - 1);
      assert times[..n][1..] == times[1..][..n - 1];
    }
  }

  // ---- Many clients ----

  datatype Request = Request(client: string, at: real)

  function Lookup(keys: map<string, Key>, client: string): Key {
    if client in keys then keys[client] else Absent
  }

  /** Decisions of a run over every client's bucket. */
  function RunAll(cfg: Config, keys: map<string, Key>, rs: seq<Request>): (ds: seq<Decision>)
    requires cfg.Valid()
    ensures |ds| == |rs|
    decreases |rs|
  {
    if rs == [] then []
    else
      var (k, d) := Script(cfg, Lookup(keys, rs[0].client), rs[0].at);
      [d] + RunAll(cfg, keys[rs[0].client := k], rs[1..])
  }

  function TimesOf(rs: seq<Request>, client: string): seq<real> {
    if rs == [] then []
    else (if rs[0].client == client then [rs[0].at] else []) + TimesOf(rs[1..], client)
  }

  function DecisionsOf(rs: seq<Request>, ds: seq<Decision>, client: string): seq<Decision>
    requires |rs| == |ds|
  {
    if rs == [] then []
    else (if rs[0].client == client then [ds[0]] else []) + DecisionsOf(rs[1..], ds[1..], client)
  }

  /** A client's decisions depend on its own requests alone. */
  lemma RunCons(cfg: Config, k: Key, at: real, rest: seq<real>)
    requires cfg.Valid()
    ensures Run(cfg, k, [at] + rest) == [Script(cfg, k, at).1] + Run(cfg, Script(cfg, k, at).0, rest)
  {
    hide Inflow, Wait;
    assert ([at] + rest)[1..] == rest;
  }

  lemma {:induction false} ClientsIndependent(cfg: Config, keys: map<string, Key>, rs: seq<Request>, client: string)
    requires cfg.Valid()
    ensures DecisionsOf(rs, RunAll(cfg, keys, rs), client) == Run(cfg, Lookup(keys, client), TimesOf(rs, client))
    decreases |rs|
  {
    hide Inflow, Wait;
    if rs != [] {
      var (k, d) := Script(cfg, Lookup(keys, rs[0].client), rs[0].at);
      var keys' := keys[rs[0].client := k];
      ClientsIndependent(cfg, keys', rs[1..], client);
      var ds, ds' := RunAll(cfg, keys, rs), RunAll(cfg, keys', rs[1..]);
      assert ds == [d] + ds' && ds[1..] == ds';
      if rs[0].client == client {
        RunCons(cfg, Lookup(keys, client), rs[0].at, TimesOf(rs[1..], client));
        assert DecisionsOf(rs, ds, client) == [d] + DecisionsOf(rs[1..], ds', client);
      } else {
        assert Lookup(keys', client) == Lookup(keys, client);
        assert DecisionsOf(rs, ds, client) == DecisionsOf(rs[1..], ds', client);
        assert TimesOf(rs, client) == TimesOf(rs[1..], client);
      }
    }
  }
}
