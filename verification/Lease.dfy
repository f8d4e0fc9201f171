/**
 * Worker-id slots in Redis (internal/idgen/lease.go): SETNX, compare-and-expire and
 * compare-and-delete, each one atomic step. Times are Redis milliseconds.
 */
module WorkerLease {
  import opened Basics
  import opened Snowflake

  const LEASE_TTL: int := 30_000

  datatype Slot = Slot(owner: string, expireAt: int)

  type Slots = map<nat, Slot>

  /** The slot answers a GET: it was set and its TTL has not run out. */
  predicate Held(slots: Slots, n: nat, now: int) {
    n in slots && now < slots[n].expireAt
  }

  predicate OwnedBy(slots: Slots, n: nat, owner: string, now: int) {
    Held(slots, n, now) && slots[n].owner == owner
  }

  function SetNX(slots: Slots, n: nat, owner: string, now: int): (Slots, bool) {
    if Held(slots, n, now) then (slots, false) else (slots[n := Slot(owner, now + LEASE_TTL)], true)
  }

  function RenewScript(slots: Slots, n: nat, owner: string, now: int): (Slots, bool) {
    if OwnedBy(slots, n, owner, now) then (slots[n := Slot(owner, now + LEASE_TTL)], true) else (slots, false)
  }

  function ReleaseScript(slots: Slots, n: nat, owner: string, now: int): Slots {
    if OwnedBy(slots, n, owner, now) then slots - {n} else slots
  }

  /** A renew or release by anyone but the recorded owner changes nothing and revives nothing. */
  lemma NonOwnerHarmless(slots: Slots, n: nat, owner: string, now: int, m: nat, t: int)
    ensures !OwnedBy(slots, n, owner, now) ==>
              RenewScript(slots, n, owner, now) == (slots, false) && ReleaseScript(slots, n, owner, now) == slots
    ensures t >= now && Held(RenewScript(slots, n, owner, now).0, m, t) ==> Held(slots, m, now)
    ensures Held(ReleaseScript(slots, n, owner, now), m, t) ==> Held(slots, m, t)
  {
  }

  /**
   * What the scripts do for an owner. A renewal holds the slot for exactly 30 seconds from now; a
   * release removes that slot and no other, so that anyone can claim it at once.
   */
  lemma OwnerScripts(slots: Slots, n: nat, owner: string, now: int, t: int)
    requires OwnedBy(slots, n, owner, now)
    ensures var (renewed, ok) := RenewScript(slots, n, owner, now);
            && ok && (OwnedBy(renewed, n, owner, t) <==> t < now + 30_000)
            && renewed - {n} == slots - {n}
    ensures var released := ReleaseScript(slots, n, owner, now);
            && n !in released && released == slots - {n}
            && forall other :: SetNX(released, n, other, t).1
  {
  }

  /** A SETNX succeeds exactly on a slot no one holds, and then holds it for exactly 30 seconds. */
  lemma ClaimExactly(slots: Slots, n: nat, owner: string, now: int, t: int)
    ensures var (slots', ok) := SetNX(slots, n, owner, now);
            && (ok <==> !(n in slots && now < slots[n].expireAt))
            && (ok ==> (OwnedBy(slots', n, owner, t) <==> t < now + 30_000) && slots' - {n} == slots - {n})
            && (!ok ==> slots' == slots)
  {
  }

  datatype Acquired = Lease(slot: nat) | Unreachable | NoFreeSlot

  /** A heartbeat wake-up: the stop channel, or a tick whose script may or may not reach Redis. */
  datatype Wake = Stop | Tick(at: int, reaches: bool)

  /** What the heartbeat's wake-ups do to the slots, up to the first Stop. */
  ghost function Beats(slots: Slots, n: nat, owner: string, wakes: seq<Wake>): Slots
    decreases |wakes|
  {
    if wakes == [] || wakes[0].Stop? then slots
    else
      var slots' := if wakes[0].reaches then RenewScript(slots, n, owner, wakes[0].at).0 else slots;
      Beats(slots', n, owner, wakes[1..])
  }

  class Redis {
    var slots: Slots

    constructor ()
      ensures slots == map[]
    {
      slots := map[];
    }

    /**
     * The scan for the lowest free slot. Attempt i reaches Redis at times[i]; attempt failAt is
     * the first whose command errors, if it is ever made, and `landed` says that it was applied.
     */
    method AcquireWorkerID(owner: string, times: seq<int>, failAt: nat, landed: bool) returns (r: Acquired)
      requires |times| == MAX_WORKER + 1
      modifies this
      ensures match r
              case Lease(w) =>
                && w <= MAX_WORKER && w < failAt
                && !Held(old(slots), w, times[w])
                && (forall v: nat :: v < w ==> Held(old(slots), v, times[v]))
                && slots == old(slots)[w := Slot(owner, times[w] + LEASE_TTL)]
              case Unreachable =>
                && failAt <= MAX_WORKER
                && (forall v: nat :: v < failAt ==> Held(old(slots), v, times[v]))
                && slots == if landed && !Held(old(slots), failAt, times[failAt])
                            then old(slots)[failAt := Slot(owner, times[failAt] + LEASE_TTL)] else old(slots)
              case NoFreeSlot =>
                && failAt > MAX_WORKER
                && (forall v: nat :: v <= MAX_WORKER ==> Held(old(slots), v, times[v]))
                && slots == old(slots)
    {
      var slot: nat := 0;
      while slot <= MAX_WORKER
        invariant slot <= MAX_WORKER + 1 && slot <= failAt
        invariant slots == old(slots)
        invariant forall v: nat :: v < slot ==> Held(slots, v, times[v])
      {
        if slot == failAt {
          if landed {
            slots := SetNX(slots, slot, owner, times[slot]).0;
          }
          return Unreachable;
        }
        var (slots', ok) := SetNX(slots, slot, owner, times[slot]);
        if ok {
          slots := slots';
          return Lease(slot);
        }
        slot := slot + 1;
      }
      r := NoFreeSlot;
    }

    /** The renewal loop. A failed or lost renewal is only logged. */
    method Heartbeat(n: nat, owner: string, wakes: seq<Wake>)
      modifies this
      ensures slots == Beats(old(slots), n, owner, wakes)
    {
      var i := 0;
      while i < |wakes|
        invariant i <= |wakes|
        invariant Beats(slots, n, owner, wakes[i..]) == Beats(old(slots), n, owner, wakes)
      {
        if wakes[i].Stop? {
          return;
        }
        if wakes[i].reaches {
          slots := RenewScript(slots, n, owner, wakes[i].at).0;
        }
        i := i + 1;
      }
    }

    /** Frees the slot if it is still owned. Only an answered script reports success. */
    method Release(n: nat, owner: string, now: int, trip: Trip) returns (ok: bool)
      modifies this
      ensures ok == trip.Answered?
      ensures slots == if trip.Applied() then ReleaseScript(old(slots), n, owner, now) else old(slots)
    {
      if trip.Applied() {
        slots := ReleaseScript(slots, n, owner, now);
      }
      ok := trip.Answered?;
    }
  }

  /** Once stopped, a heartbeat touches Redis no more, whatever wake-ups are still pending. */
  lemma {:induction false} StopEnds(slots: Slots, n: nat, owner: string, wakes: seq<Wake>, pending: seq<Wake>)
    ensures Beats(slots, n, owner, wakes + [Stop] + pending) == Beats(slots, n, owner, wakes)
    decreases |wakes|
  {
    var all := wakes + [Stop] + pending;
    if wakes == [] {
      assert all[0] == Stop;
    } else {
      assert all[0] == wakes[0] && all[1..] == wakes[1..] + [Stop] + pending;
      if wakes[0].Tick? {
        var slots' := if wakes[0].reaches then RenewScript(slots, n, owner, wakes[0].at).0 else slots;
        StopEnds(slots', n, owner, wakes[1..], pending);
      }
    }
  }

  /** However long it beats, a heartbeat never takes a slot its pod does not own. */
  lemma {:induction false} BeatsOnlyExtend(slots: Slots, n: nat, owner: string, wakes: seq<Wake>)
    ensures var after := Beats(slots, n, owner, wakes);
            && after.Keys == slots.Keys
            && (forall m :: m in slots ==> after[m].owner == slots[m].owner)
            && (forall m :: m in slots && (m != n || slots[m].owner != owner) ==> after[m] == slots[m])
    decreases |wakes|
  {
    if wakes != [] && wakes[0].Tick? {
      var slots' := if wakes[0].reaches then RenewScript(slots, n, owner, wakes[0].at).0 else slots;
      assert slots'.Keys == slots.Keys;
      BeatsOnlyExtend(slots', n, owner, wakes[1..]);
    }
  }
}

/** Does a lease outlive the gaps between its renewals? */
module HeartbeatTiming {
  import opened Basics
  import opened WorkerLease

  const INTERVAL: int := 10_000
  const ATTEMPT_TIMEOUT: int := 1_000

  /** One renewal: was it applied, and how long after its tick it reached Redis. */
  datatype Attempt = Attempt(ok: bool, latency: int)

  ghost predicate Bounded(attempts: seq<Attempt>) {
    forall i :: 0 <= i < |attempts| ==> 0 <= attempts[i].latency <= ATTEMPT_TIMEOUT
  }

  /** The lease's expiry after one attempt made at `tick`; None once it has lapsed, for good. */
  ghost function Beat(expiry: Option<int>, tick: int, a: Attempt): Option<int> {
    if expiry.None? || tick + a.latency >= expiry.value then None
    else if a.ok then Some(tick + a.latency + LEASE_TTL) else expiry
  }

  /** The lease after a run of attempts, the first at `tick`. */
  ghost function BeatAll(expiry: Option<int>, tick: int, attempts: seq<Attempt>): Option<int>
    decreases |attempts|
  {
    if attempts == [] then expiry
    else BeatAll(Beat(expiry, tick, attempts[0]), tick + INTERVAL, attempts[1..])
  }

  ghost predicate NoTwoFailuresInARow(attempts: seq<Attempt>) {
    forall i :: 0 <= i < |attempts| - 1 ==> attempts[i].ok || attempts[i + 1].ok
  }

  lemma {:induction false} StaysAlive(expiry: int, tick: int, attempts: seq<Attempt>, slack: int)
    requires Bounded(attempts) && NoTwoFailuresInARow(attempts) && slack < INTERVAL - ATTEMPT_TIMEOUT && slack >= 0
    requires expiry >= tick + INTERVAL - slack
    requires attempts != [] && !attempts[0].ok ==> expiry >= tick + 2 * INTERVAL - slack
    ensures BeatAll(Some(expiry), tick, attempts).Some?
    ensures BeatAll(Some(expiry), tick, attempts).value > tick + |attempts| * INTERVAL + ATTEMPT_TIMEOUT
    decreases |attempts|
  {
    if attempts != [] {
      var a, rest := attempts[0], attempts[1..];
      var expiry' := Beat(Some(expiry), tick, a).value;
      assert rest != [] ==> rest[0] == attempts[1];
      assert NoTwoFailuresInARow(rest) by {
        assert forall i :: 0 <= i < |rest| ==> rest[i] == attempts[i + 1];
      }
      StaysAlive(expiry', tick + INTERVAL, rest, slack);
    }
  }

  /** The heartbeat's wake-ups that these attempts are. */
  ghost function Wakes(tick: int, attempts: seq<Attempt>): seq<Wake>
    decreases |attempts|
  {
    if attempts == [] then []
    else [Tick(tick + attempts[0].latency, attempts[0].ok)] + Wakes(tick + INTERVAL, attempts[1..])
  }

  /** When the last of these attempts is over. */
  ghost function LastArrival(tick: int, attempts: seq<Attempt>): int
    requires attempts != []
  {
    tick + (|attempts| - 1) * INTERVAL + attempts[|attempts| - 1].latency
  }

  /** While the arithmetic has the lease alive, the slot in Redis expires when it says. */
  lemma {:induction false} SlotExpiry(slots: Slots, n: nat, owner: string, tick: int, attempts: seq<Attempt>)
    requires n in slots && slots[n].owner == owner
    requires BeatAll(Some(slots[n].expireAt), tick, attempts).Some?
    ensures var after := Beats(slots, n, owner, Wakes(tick, attempts));
            n in after && after[n] == Slot(owner, BeatAll(Some(slots[n].expireAt), tick, attempts).value)
    decreases |attempts|
  {
    if attempts != [] {
      var a, rest := attempts[0], attempts[1..];
      if Beat(Some(slots[n].expireAt), tick, a).None? {
        Lapsed(tick + INTERVAL, rest);
      } else {
        var slots' := if a.ok then RenewScript(slots, n, owner, tick + a.latency).0 else slots;
        assert Wakes(tick, attempts)[1..] == Wakes(tick + INTERVAL, rest);
        SlotExpiry(slots', n, owner, tick + INTERVAL, rest);
      }
    }
  }

  lemma LaterArrival(tick: int, attempts: seq<Attempt>)
    requires Bounded(attempts) && attempts != [] && attempts[1..] != []
    ensures LastArrival(tick + INTERVAL, attempts[1..]) == LastArrival(tick, attempts)
    ensures LastArrival(tick, attempts) > tick + attempts[0].latency && Bounded(attempts[1..])
  {
  }

  /** An expired slot stays as it is, however often its pod tries to renew it. */
  lemma {:induction false} ExpiredStays(slots: Slots, n: nat, owner: string, tick: int, attempts: seq<Attempt>)
    requires n in slots && slots[n].expireAt <= tick && Bounded(attempts)
    ensures Beats(slots, n, owner, Wakes(tick, attempts)) == slots
    decreases |attempts|
  {
    if attempts != [] {
      assert Wakes(tick, attempts)[1..] == Wakes(tick + INTERVAL, attempts[1..]);
      ExpiredStays(slots, n, owner, tick + INTERVAL, attempts[1..]);
    }
  }

  /** Where the arithmetic has the lease lapse, the slot in Redis has expired by the last attempt. */
  lemma {:induction false} SlotLapses(slots: Slots, n: nat, owner: string, tick: int, attempts: seq<Attempt>)
    requires n in slots && slots[n].owner == owner && Bounded(attempts) && attempts != []
    requires BeatAll(Some(slots[n].expireAt), tick, attempts).None?
    ensures !Held(Beats(slots, n, owner, Wakes(tick, attempts)), n, LastArrival(tick, attempts))
    decreases |attempts|
  {
    var a, rest := attempts[0], attempts[1..];
    assert Wakes(tick, attempts)[1..] == Wakes(tick + INTERVAL, rest);
    if rest != [] {
      LaterArrival(tick, attempts);
    }
    if Beat(Some(slots[n].expireAt), tick, a).None? {
      ExpiredStays(slots, n, owner, tick + INTERVAL, rest);
    } else {
      var slots' := if a.ok then RenewScript(slots, n, owner, tick + a.latency).0 else slots;
      SlotLapses(slots', n, owner, tick + INTERVAL, rest);
    }
  }

  /**
   * The heartbeat's slot is still its own when the last attempt is over if and only if the
   * arithmetic has the lease alive, and then it expires when the arithmetic says.
   */
  lemma SlotFollowsTiming(slots: Slots, n: nat, owner: string, tick: int, attempts: seq<Attempt>)
    requires n in slots && slots[n].owner == owner && Bounded(attempts) && attempts != []
    ensures var after := Beats(slots, n, owner, Wakes(tick, attempts));
            var lease := BeatAll(Some(slots[n].expireAt), tick, attempts);
            && (OwnedBy(after, n, owner, LastArrival(tick, attempts)) <==> lease.Some?)
            && (lease.Some? ==> after[n] == Slot(owner, lease.value))
  {
    if BeatAll(Some(slots[n].expireAt), tick, attempts).Some? {
      SlotExpiry(slots, n, owner, tick, attempts);
      AliveAfter(slots[n].expireAt, tick, attempts);
    } else {
      SlotLapses(slots, n, owner, tick, attempts);
    }
  }

  lemma {:induction false} AliveAfter(expiry: int, tick: int, attempts: seq<Attempt>)
    requires Bounded(attempts) && attempts != [] && BeatAll(Some(expiry), tick, attempts).Some?
    ensures LastArrival(tick, attempts) < BeatAll(Some(expiry), tick, attempts).value
    decreases |attempts|
  {
    var rest := attempts[1..];
    var next := Beat(Some(expiry), tick, attempts[0]);
    if next.None? {
      Lapsed(tick + INTERVAL, rest);
    } else if rest != [] {
      LaterArrival(tick, attempts);
      AliveAfter(next.value, tick + INTERVAL, rest);
    }
  }

  /**
   * No two consecutive failures: over any number of ticks the slot stays owned, right up to the
   * latest moment the next renewal can arrive, provided the heartbeat started within nine seconds
   * of the claim reaching Redis.
   */
  lemma OneMissTolerated(slots: Slots, n: nat, owner: string, claimed: int, started: int, attempts: seq<Attempt>)
    requires n in slots && slots[n] == Slot(owner, claimed + LEASE_TTL)
    requires claimed <= started < claimed + INTERVAL - ATTEMPT_TIMEOUT
    requires Bounded(attempts) && NoTwoFailuresInARow(attempts)
    ensures OwnedBy(Beats(slots, n, owner, Wakes(started + INTERVAL, attempts)), n, owner,
                    started + INTERVAL + |attempts| * INTERVAL + ATTEMPT_TIMEOUT)
  {
    StaysAlive(claimed + LEASE_TTL, started + INTERVAL, attempts, started - claimed);
    SlotExpiry(slots, n, owner, started + INTERVAL, attempts);
  }

  ghost predicate AllFail(attempts: seq<Attempt>) {
    forall i :: 0 <= i < |attempts| ==> !attempts[i].ok
  }

  lemma {:induction false} Misses(expiry: int, tick: int, misses: seq<Attempt>, last: Attempt)
    requires Bounded(misses) && AllFail(misses) && last.ok && 0 <= last.latency <= ATTEMPT_TIMEOUT
    ensures BeatAll(Some(expiry), tick, misses + [last]).Some? <==>
            && tick + |misses| * INTERVAL + last.latency < expiry
    decreases |misses|
  {
    var all := misses + [last];
    if misses == [] {
      assert all == [last] && all[1..] == [];
      assert BeatAll(Some(expiry), tick, all) == Beat(Some(expiry), tick, last);
    } else {
      assert all[0] == misses[0] && all[1..] == misses[1..] + [last];
      var expiry' := Beat(Some(expiry), tick, misses[0]);
      if expiry'.Some? {
        Misses(expiry, tick + INTERVAL, misses[1..], last);
      } else {
        Lapsed(tick + INTERVAL, all[1..]);
      }
    }
  }

  lemma {:induction false} Lapsed(tick: int, attempts: seq<Attempt>)
    ensures BeatAll(None, tick, attempts).None?
    decreases |attempts|
  {
    if attempts != [] {
      Lapsed(tick + INTERVAL, attempts[1..]);
    }
  }

  /**
   * Exactly how many misses the slot in Redis survives between two successful renewals, the first
   * made at `tick`: none or one always, two only if the later renewal reaches Redis strictly sooner
   * after its tick than the earlier one did, three or more never.
   */
  lemma MissBoundary(slots: Slots, n: nat, owner: string, tick: int, latency: int, misses: seq<Attempt>, next: Attempt)
    requires n in slots && slots[n] == Slot(owner, tick + latency + LEASE_TTL)
    requires 0 <= latency <= ATTEMPT_TIMEOUT && Bounded(misses + [next]) && AllFail(misses) && next.ok
    ensures OwnedBy(Beats(slots, n, owner, Wakes(tick + INTERVAL, misses + [next])), n, owner,
                    LastArrival(tick + INTERVAL, misses + [next])) <==>
            |misses| <= 1 || (|misses| == 2 && next.latency < latency)
  {
    assert (misses + [next])[|misses|] == next;
    assert Bounded(misses) by {
      assert forall i :: 0 <= i < |misses| ==> (misses + [next])[i] == misses[i];
    }
    Misses(tick + latency + LEASE_TTL, tick + INTERVAL, misses, next);
    SlotFollowsTiming(slots, n, owner, tick + INTERVAL, misses + [next]);
  }
}
