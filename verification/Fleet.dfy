/**
 * A fleet of API pods leasing worker ids and minting snowflake ids. One step is one Redis command
 * or one call of Generate; steps of different pods interleave freely.
 */
module Fleet {
  import opened Basics
  import opened WorkerLease
  import opened Snowflake
  import opened Bits

  /** A running pod. `renewedAt` is the last acquire or renew it knows succeeded, in Redis time. */
  datatype Pod = Pod(owner: string, slot: nat, renewedAt: int, gen: Gen, minted: bool)

  datatype Mint = Mint(pid: nat, slot: nat, ms: int, sequence: nat)

  /**
   * `gone` are the owners, with their slots, whose pods have stopped while scripts of theirs may
   * still arrive. `holder` remembers who claimed each slot last; pids are given out in order of claiming.
   */
  datatype State = State(now: int, slots: Slots, pods: map<nat, Pod>, gone: set<(string, nat)>, nextPid: nat,
                         holder: map<nat, nat>, mints: seq<Mint>)

  datatype Step =
    | Wait(ms: nat)
    | Sweep(slot: nat)                             // Redis drops an expired key
    | Claim(owner: string, slot: nat, acked: bool) // one SETNX of the scan; without its answer the pod does not start
    | Renew(pid: nat, applied: bool, acked: bool, sentAt: int)
    | Release(pid: nat, applied: bool)
    | Crash(pid: nat)
    | LateRenew(owner: string, slot: nat)          // a script of a pod that has stopped arrives
    | LateRelease(owner: string, slot: nat)
    | Settle(owner: string, slot: nat)             // none of its scripts can arrive any more
    | Generate(pid: nat, now: int, later: int)     // the pod's own clock readings

  ghost function Init(): State {
    State(0, map[], map[], {}, 0, map[], [])
  }

  /** No pod runs under this name and no script sent under it is still on its way. */
  ghost predicate Unused(s: State, owner: string) {
    && (forall p :: p in s.pods ==> s.pods[p].owner != owner)
    && (forall g :: g in s.gone ==> g.0 != owner)
  }

  /** A pod that lost its lease keeps running, renewing and minting: nothing here stops it. */
  ghost predicate Enabled(s: State, step: Step) {
    match step
    case Wait(_) => true
    case Sweep(n) => n in s.slots && !Held(s.slots, n, s.now)
    case Claim(owner, n, _) => n <= MAX_WORKER && Unused(s, owner)
    case Renew(p, applied, acked, sentAt) => p in s.pods && (acked ==> applied) && sentAt <= s.now
    case Release(p, _) => p in s.pods
    case Crash(p) => p in s.pods
    case LateRenew(owner, n) => (owner, n) in s.gone
    case LateRelease(owner, n) => (owner, n) in s.gone
    case Settle(_, _) => true
    case Generate(p, _, _) => p in s.pods
  }

  ghost function Stopped(s: State, p: nat): State
    requires p in s.pods
  {
    s.(pods := s.pods - {p}, gone := s.gone + {(s.pods[p].owner, s.pods[p].slot)})
  }

  ghost function Apply(s: State, step: Step): State
    requires Enabled(s, step)
  {
    match step
    case Wait(ms) => s.(now := s.now + ms)
    case Sweep(n) => s.(slots := s.slots - {n})
    case Claim(owner, n, acked) =>
      var (slots, ok) := SetNX(s.slots, n, owner, s.now);
      var pod := Pod(owner, n, s.now, Gen(n, 0, 0), false);
      if !ok then s
      else s.(slots := slots, pods := if acked then s.pods[s.nextPid := pod] else s.pods,
              nextPid := s.nextPid + 1, holder := s.holder[n := s.nextPid])
    case Renew(p, applied, acked, sentAt) =>
      var pod := s.pods[p];
      var (slots, ok) := RenewScript(s.slots, pod.slot, pod.owner, s.now);
      if !applied then s
      else s.(slots := slots, pods := if ok && acked then s.pods[p := pod.(renewedAt := sentAt)] else s.pods)
    case Release(p, applied) =>
      var pod := s.pods[p];
      Stopped(s.(slots := if applied then ReleaseScript(s.slots, pod.slot, pod.owner, s.now) else s.slots), p)
    case Crash(p) => Stopped(s, p)
    case LateRenew(owner, n) => s.(slots := RenewScript(s.slots, n, owner, s.now).0)
    case LateRelease(owner, n) => s.(slots := ReleaseScript(s.slots, n, owner, s.now))
    case Settle(owner, n) => s.(gone := s.gone - {(owner, n)})
    case Generate(p, now, later) =>
      var pod := s.pods[p];
      var (g, id) := Next(pod.gen, now, later);
      if id.None? then s
      else s.(pods := s.pods[p := pod.(gen := g, minted := true)],
              mints := s.mints + [Mint(p, pod.slot, g.lastMs, g.sequence)])
  }

  ghost predicate ValidRun(s: State, steps: seq<Step>)
    decreases |steps|
  {
    steps == [] || (Enabled(s, steps[0]) && ValidRun(Apply(s, steps[0]), steps[1..]))
  }

  ghost function Reached(s: State, steps: seq<Step>): State
    requires ValidRun(s, steps)
    decreases |steps|
  {
    if steps == [] then s else Reached(Apply(s, steps[0]), steps[1..])
  }

  // ---- Lease exclusivity ----

  /** Less than a TTL since the pod last knew it renewed. */
  ghost predicate Fresh(s: State, p: nat)
    requires p in s.pods
  {
    s.now < s.pods[p].renewedAt + LEASE_TTL
  }

  ghost predicate PodInv(s: State, p: nat)
    requires p in s.pods
  {
    var pod := s.pods[p];
    && p < s.nextPid && pod.slot <= MAX_WORKER && pod.gen.Valid() && pod.gen.worker == pod.slot
    && pod.renewedAt <= s.now
    && (Fresh(s, p) ==>
          && pod.slot in s.slots
          && s.slots[pod.slot].owner == pod.owner
          && s.slots[pod.slot].expireAt >= pod.renewedAt + LEASE_TTL)
    && (pod.slot in s.slots && s.slots[pod.slot].owner == pod.owner ==> pod.slot in s.holder && s.holder[pod.slot] == p)
  }

  ghost predicate Inv(s: State) {
    && (forall p :: p in s.pods ==> PodInv(s, p))
    && (forall p, q :: p in s.pods && q in s.pods && s.pods[p].owner == s.pods[q].owner ==> p == q)
    && (forall p, g :: p in s.pods && g in s.gone ==> s.pods[p].owner != g.0)
  }

  lemma ClaimKeeps(s: State, step: Step, p: nat)
    requires Inv(s) && Enabled(s, step) && step.Claim? && p in Apply(s, step).pods
    ensures PodInv(Apply(s, step), p)
  {
    if p in s.pods {
      assert PodInv(s, p);
    }
  }

  lemma RenewKeeps(s: State, step: Step, p: nat)
    requires Inv(s) && Enabled(s, step) && step.Renew? && p in s.pods
    ensures PodInv(Apply(s, step), p)
  {
    assert PodInv(s, p) && PodInv(s, step.pid);
  }

  lemma ReleaseKeeps(s: State, step: Step, p: nat)
    requires Inv(s) && Enabled(s, step) && step.Release? && p in Apply(s, step).pods
    ensures PodInv(Apply(s, step), p)
  {
    assert PodInv(s, p) && PodInv(s, step.pid);
  }

  lemma LateKeeps(s: State, step: Step, p: nat)
    requires Inv(s) && Enabled(s, step) && (step.LateRenew? || step.LateRelease?) && p in s.pods
    ensures PodInv(Apply(s, step), p)
  {
    assert PodInv(s, p) && s.pods[p].owner != (step.owner, step.slot).0;
  }

  lemma KeepsOne(s: State, step: Step, p: nat)
    requires Inv(s) && Enabled(s, step) && p in Apply(s, step).pods
    ensures PodInv(Apply(s, step), p)
  {
    match step
    case Claim(_, _, _) => ClaimKeeps(s, step, p);
    case Renew(_, _, _, _) => RenewKeeps(s, step, p);
    case Release(_, _) => ReleaseKeeps(s, step, p);
    case LateRenew(_, _) => LateKeeps(s, step, p);
    case LateRelease(_, _) => LateKeeps(s, step, p);
    case _ => assert PodInv(s, p);
  }

  lemma Keeps(s: State, step: Step)
    requires Inv(s) && Enabled(s, step)
    ensures Inv(Apply(s, step))
  {
    forall p | p in Apply(s, step).pods ensures PodInv(Apply(s, step), p) {
      KeepsOne(s, step, p);
    }
  }

  lemma {:induction false} Invariant(s: State, steps: seq<Step>)
    requires Inv(s) && ValidRun(s, steps)
    ensures Inv(Reached(s, steps))
    decreases |steps|
  {
    if steps != [] {
      Keeps(s, steps[0]);
      Invariant(Apply(s, steps[0]), steps[1..]);
    }
  }

  /** In every reachable state a pod within its TTL is the recorded, live owner of its slot. */
  lemma FreshPodOwnsSlot(steps: seq<Step>, p: nat)
    requires ValidRun(Init(), steps)
    requires var s := Reached(Init(), steps); p in s.pods && Fresh(s, p)
    ensures var s := Reached(Init(), steps); OwnedBy(s.slots, s.pods[p].slot, s.pods[p].owner, s.now)
  {
    Invariant(Init(), steps);
    assert PodInv(Reached(Init(), steps), p);
  }

  /**
   * A pod that is within its TTL can always renew: an acknowledged renewal makes it fresh for exactly
   * 30 seconds from when it was sent, and whoever else runs is left as it was.
   */
  lemma FreshPodRenews(steps: seq<Step>, p: nat, sentAt: int, ms: nat)
    requires ValidRun(Init(), steps)
    requires var s := Reached(Init(), steps); p in s.pods && Fresh(s, p) && sentAt <= s.now
    ensures var s := Reached(Init(), steps);
            var s' := Apply(s, Renew(p, true, true, sentAt));
            && p in s'.pods && s'.pods[p] == s.pods[p].(renewedAt := sentAt)
            && (Fresh(Apply(s', Wait(ms)), p) <==> s.now + ms < sentAt + 30_000)
            && s'.slots == s.slots[s.pods[p].slot := Slot(s.pods[p].owner, s.now + 30_000)]
            && s'.pods - {p} == s.pods - {p}
  {
    FreshPodOwnsSlot(steps, p);
  }

  /** Two running pods share a worker id only if one of them has gone a whole TTL without renewing. */
  lemma Exclusive(steps: seq<Step>, p: nat, q: nat)
    requires ValidRun(Init(), steps) && p != q
    requires var s := Reached(Init(), steps); p in s.pods && q in s.pods && s.pods[p].slot == s.pods[q].slot
    ensures var s := Reached(Init(), steps); !Fresh(s, p) || !Fresh(s, q)
  {
    var s := Reached(Init(), steps);
    Invariant(Init(), steps);
    assert PodInv(s, p) && PodInv(s, q);
  }

  // ---- When ids are unique ----

  /** A mint's sleep, if any, crosses into a later millisecond, and its timestamp fits its field. */
  ghost predicate ClockSound(s: State, p: nat, now: int, later: int)
    requires p in s.pods
  {
    var (g, id) := Next(s.pods[p].gen, now, later);
    id.Some? ==> (Exhausted(s.pods[p].gen, now) ==> later > s.pods[p].gen.lastMs) && 0 <= g.lastMs < TWO_42
  }

  ghost predicate ClocksSound(s: State, steps: seq<Step>)
    requires ValidRun(s, steps)
    decreases |steps|
  {
    steps == [] ||
    (&& (steps[0].Generate? ==> ClockSound(s, steps[0].pid, steps[0].now, steps[0].later))
     && ClocksSound(Apply(s, steps[0]), steps[1..]))
  }

  ghost predicate Before(ms: int, sequence: nat, ms': int, sequence': nat) {
    ms < ms' || (ms == ms' && sequence < sequence')
  }

  /** The first mint a pod makes in a millisecond. */
  ghost function First(pid: nat, slot: nat, ms: int): Mint {
    Mint(pid, slot, ms, if ms == 0 then 1 else 0)
  }

  ghost predicate MintInv(s: State, m: Mint) {
    && m.slot <= MAX_WORKER && m.sequence <= MAX_SEQUENCE && 0 <= m.ms < TWO_42 && m.pid < s.nextPid
    && First(m.pid, m.slot, m.ms) in s.mints
    && (m.pid in s.pods ==>
          var pod := s.pods[m.pid];
          m.slot == pod.slot && pod.minted && !Before(pod.gen.lastMs, pod.gen.sequence, m.ms, m.sequence))
  }

  ghost predicate GenInv(s: State, p: nat)
    requires p in s.pods
  {
    var pod := s.pods[p];
    && 0 <= pod.gen.lastMs < TWO_42
    && (if pod.minted then First(p, pod.slot, pod.gen.lastMs) in s.mints else pod.gen.lastMs == 0 && pod.gen.sequence == 0)
  }

  /** Each pod's own mints go up. */
  ghost predicate EachIncreases(mints: seq<Mint>) {
    forall i, j :: 0 <= i < j < |mints| && mints[i].pid == mints[j].pid ==>
      Before(mints[i].ms, mints[i].sequence, mints[j].ms, mints[j].sequence)
  }

  ghost predicate MintsInv(s: State) {
    && (forall m :: m in s.mints ==> MintInv(s, m))
    && (forall p :: p in s.pods ==> GenInv(s, p))
    && EachIncreases(s.mints)
  }

  /** The state after a mint, the generator's new state and what was minted. */
  ghost predicate MintStep(s: State, p: nat, now: int, later: int, s': State, g: Gen, m: Mint)
    requires p in s.pods
  {
    var pod := s.pods[p];
    && now >= pod.gen.lastMs && g == Next(pod.gen, now, later).0
    && m == Mint(p, pod.slot, g.lastMs, g.sequence)
    && s' == s.(pods := s.pods[p := pod.(gen := g, minted := true)], mints := s.mints + [m])
  }

  /** A mint goes up from where its generator stood, and is the first of its millisecond or follows it. */
  lemma MintMoves(s: State, p: nat, now: int, later: int, s': State, g: Gen, m: Mint)
    requires Inv(s) && p in s.pods && GenInv(s, p) && ClockSound(s, p, now, later) && MintStep(s, p, now, later, s', g, m)
    ensures var was := s.pods[p].gen;
            && Before(was.lastMs, was.sequence, m.ms, m.sequence) && was.lastMs <= m.ms
            && g.Valid() && 0 <= m.ms < TWO_42
            && (m == First(p, m.slot, m.ms) || (s.pods[p].minted && m.ms == was.lastMs))
  {
    assert PodInv(s, p);
  }

  lemma MintKeepsOld(s: State, p: nat, now: int, later: int, s': State, g: Gen, m: Mint, old_: Mint)
    requires Inv(s) && MintsInv(s) && p in s.pods && ClockSound(s, p, now, later) && MintStep(s, p, now, later, s', g, m)
    requires old_ in s.mints
    ensures MintInv(s', old_)
    ensures old_.pid == p ==> Before(old_.ms, old_.sequence, m.ms, m.sequence)
  {
    hide Next, ClockSound;
    assert MintInv(s, old_) && GenInv(s, p);
    MintMoves(s, p, now, later, s', g, m);
  }

  lemma MintKeepsNew(s: State, p: nat, now: int, later: int, s': State, g: Gen, m: Mint)
    requires Inv(s) && MintsInv(s) && p in s.pods && ClockSound(s, p, now, later) && MintStep(s, p, now, later, s', g, m)
    ensures MintInv(s', m) && GenInv(s', p)
  {
    hide Next, ClockSound;
    assert GenInv(s, p) && PodInv(s, p);
    MintMoves(s, p, now, later, s', g, m);
    assert m in s'.mints;
  }

  lemma MintKeeps(s: State, p: nat, now: int, later: int, s': State, g: Gen, m: Mint)
    requires Inv(s) && MintsInv(s) && p in s.pods && ClockSound(s, p, now, later) && MintStep(s, p, now, later, s', g, m)
    ensures MintsInv(s')
  {
    hide Next, ClockSound, MintInv, Inv;
    MintKeepsNew(s, p, now, later, s', g, m);
    forall old_ | old_ in s.mints
      ensures MintInv(s', old_)
      ensures old_.pid == p ==> Before(old_.ms, old_.sequence, m.ms, m.sequence)
    {
      MintKeepsOld(s, p, now, later, s', g, m, old_);
    }
    forall q | q in s'.pods ensures GenInv(s', q) {
      assert GenInv(s, q);
    }
  }

  lemma QuietKeeps(s: State, step: Step)
    requires Inv(s) && MintsInv(s) && Enabled(s, step) && !step.Generate?
    ensures MintsInv(Apply(s, step))
  {
    var s' := Apply(s, step);
    assert s'.mints == s.mints && s.nextPid <= s'.nextPid;
    forall m | m in s'.mints ensures MintInv(s', m) {
      assert MintInv(s, m);
    }
    forall p | p in s'.pods ensures GenInv(s', p) {
      assert p in s.pods ==> GenInv(s, p);
    }
  }

  lemma MintsKeep(s: State, step: Step)
    requires Inv(s) && MintsInv(s) && Enabled(s, step)
    requires step.Generate? ==> ClockSound(s, step.pid, step.now, step.later)
    ensures MintsInv(Apply(s, step))
  {
    if step.Generate? {
      var gen := s.pods[step.pid].gen;
      if step.now >= gen.lastMs {
        var g := Next(gen, step.now, step.later).0;
        MintKeeps(s, step.pid, step.now, step.later, Apply(s, step), g, Mint(step.pid, s.pods[step.pid].slot, g.lastMs, g.sequence));
      }
    } else {
      QuietKeeps(s, step);
    }
  }

  lemma {:induction false} MintsThroughout(s: State, steps: seq<Step>)
    requires Inv(s) && MintsInv(s) && ValidRun(s, steps) && ClocksSound(s, steps)
    ensures MintsInv(Reached(s, steps))
    decreases |steps|
  {
    if steps != [] {
      Keeps(s, steps[0]);
      MintsKeep(s, steps[0]);
      MintsThroughout(Apply(s, steps[0]), steps[1..]);
    }
  }

  ghost function IdOf(m: Mint): nat {
    Pack(m.ms, m.slot, m.sequence)
  }

  ghost predicate IdsDistinct(mints: seq<Mint>) {
    forall i, j :: 0 <= i < j < |mints| ==> IdOf(mints[i]) != IdOf(mints[j])
  }

  /** Two pods that held one slot minted in the same millisecond. */
  ghost predicate SharesMillisecond(a: Mint, b: Mint) {
    a.slot == b.slot && a.ms == b.ms && a.pid != b.pid
  }

  ghost predicate NoSharedMillisecond(mints: seq<Mint>) {
    forall a, b :: a in mints && b in mints ==> !SharesMillisecond(a, b)
  }

  lemma SharingClashes(s: State, a: Mint, b: Mint)
    requires MintsInv(s) && a in s.mints && b in s.mints && SharesMillisecond(a, b)
    ensures !IdsDistinct(s.mints)
  {
    assert MintInv(s, a) && MintInv(s, b);
    var f, g := First(a.pid, a.slot, a.ms), First(b.pid, b.slot, b.ms);
    assert IdOf(f) == IdOf(g);
    var i :| 0 <= i < |s.mints| && s.mints[i] == f;
    var j :| 0 <= j < |s.mints| && s.mints[j] == g;
    assert i < j || j < i;
  }

  lemma ApartAreDistinct(s: State, i: nat, j: nat)
    requires MintsInv(s) && i < j < |s.mints| && NoSharedMillisecond(s.mints)
    ensures IdOf(s.mints[i]) != IdOf(s.mints[j])
  {
    hide Pack;
    var a, b := s.mints[i], s.mints[j];
    assert MintInv(s, a) && MintInv(s, b) && !SharesMillisecond(a, b);
    if IdOf(a) == IdOf(b) {
      PackInjective(a.ms, a.slot, a.sequence, b.ms, b.slot, b.sequence);
    }
  }

  /**
   * Whatever happens to the leases, all ids minted anywhere are distinct if and only if no two pods
   * that held one slot ever mint in the same millisecond. Needed of the clocks alone: sleeps cross
   * into a later millisecond and timestamps fit.
   */
  lemma DistinctExactly(steps: seq<Step>)
    requires ValidRun(Init(), steps) && ClocksSound(Init(), steps)
    ensures var mints := Reached(Init(), steps).mints; IdsDistinct(mints) <==> NoSharedMillisecond(mints)
  {
    var s := Reached(Init(), steps);
    MintsThroughout(Init(), steps);
    if NoSharedMillisecond(s.mints) {
      forall i, j | 0 <= i < j < |s.mints| ensures IdOf(s.mints[i]) != IdOf(s.mints[j]) {
        ApartAreDistinct(s, i, j);
      }
    } else {
      var a, b :| a in s.mints && b in s.mints && SharesMillisecond(a, b);
      SharingClashes(s, a, b);
    }
  }

  // ---- What keeps two holders apart ----

  /**
   * The hypotheses on the leases, besides a sound clock, under which a call of Generate may mint:
   *   - the pod is within a TTL of its last known renewal;
   *   - its first millisecond is later than any minted on its slot by an earlier holder.
   */
  ghost predicate MayMint(s: State, p: nat, now: int, later: int)
    requires p in s.pods
  {
    var pod := s.pods[p];
    var (g, id) := Next(pod.gen, now, later);
    && ClockSound(s, p, now, later)
    && (id.Some? ==>
          && Fresh(s, p)
          && (!pod.minted ==> forall m :: m in s.mints && m.slot == pod.slot && m.pid < p ==> m.ms < g.lastMs))
  }

  ghost predicate Disciplined(s: State, steps: seq<Step>)
    requires ValidRun(s, steps)
    decreases |steps|
  {
    steps == [] ||
    (&& (steps[0].Generate? ==> MayMint(s, steps[0].pid, steps[0].now, steps[0].later))
     && Disciplined(Apply(s, steps[0]), steps[1..]))
  }

  lemma {:induction false} DisciplinedClocks(s: State, steps: seq<Step>)
    requires ValidRun(s, steps) && Disciplined(s, steps)
    ensures ClocksSound(s, steps)
    decreases |steps|
  {
    if steps != [] {
      DisciplinedClocks(Apply(s, steps[0]), steps[1..]);
    }
  }

  /** Mints of earlier holders of a slot are older than those of its last one. */
  ghost predicate HolderInv(s: State, m: Mint) {
    && m.slot in s.holder && m.pid <= s.holder[m.slot] < s.nextPid
    && var h := s.holder[m.slot];
       h in s.pods && m.pid != h && s.pods[h].minted ==> m.ms < s.pods[h].gen.lastMs
  }

  ghost predicate HoldersInv(s: State) {
    && (forall m :: m in s.mints ==> HolderInv(s, m))
    && (forall n :: n in s.holder ==> s.holder[n] < s.nextPid)
    && (forall n :: n in s.holder && s.holder[n] in s.pods ==> s.pods[s.holder[n]].slot == n)
    && NoSharedMillisecond(s.mints)
  }

  lemma MinterIsHolder(s: State, p: nat)
    requires Inv(s) && p in s.pods && Fresh(s, p)
    ensures s.pods[p].slot in s.holder && s.holder[s.pods[p].slot] == p
  {
    assert PodInv(s, p);
  }

  lemma QuietKeepsHolder(s: State, step: Step, m: Mint)
    requires Inv(s) && HoldersInv(s) && Enabled(s, step) && !step.Generate? && m in s.mints
    ensures HolderInv(Apply(s, step), m)
  {
    assert HolderInv(s, m);
  }

  /** A permitted mint is later than every mint another pod made on its slot. */
  lemma MintIsLater(s: State, p: nat, now: int, later: int, s': State, g: Gen, m: Mint, old_: Mint)
    requires Inv(s) && MintsInv(s) && HoldersInv(s) && p in s.pods && MayMint(s, p, now, later)
    requires MintStep(s, p, now, later, s', g, m) && old_ in s.mints
    ensures HolderInv(s', old_) && (old_.slot == m.slot && old_.pid != p ==> old_.ms < m.ms)
  {
    assert HolderInv(s, old_) && GenInv(s, p);
    MinterIsHolder(s, p);
    MintMoves(s, p, now, later, s', g, m);
  }

  lemma MintKeepsHolders(s: State, p: nat, now: int, later: int, s': State, g: Gen, m: Mint)
    requires Inv(s) && MintsInv(s) && HoldersInv(s) && p in s.pods && MayMint(s, p, now, later)
    requires MintStep(s, p, now, later, s', g, m)
    ensures HoldersInv(s')
  {
    assert PodInv(s, p);
    MinterIsHolder(s, p);
    hide MayMint, Next, MintsInv, Inv;
    forall old_ | old_ in s.mints
      ensures HolderInv(s', old_) && !SharesMillisecond(old_, m) && !SharesMillisecond(m, old_)
    {
      MintIsLater(s, p, now, later, s', g, m, old_);
    }
  }

  lemma HoldersKeep(s: State, step: Step)
    requires Inv(s) && MintsInv(s) && HoldersInv(s) && Enabled(s, step)
    requires step.Generate? ==> MayMint(s, step.pid, step.now, step.later)
    ensures HoldersInv(Apply(s, step))
  {
    if step.Generate? {
      var gen := s.pods[step.pid].gen;
      if step.now >= gen.lastMs {
        var g := Next(gen, step.now, step.later).0;
        MintKeepsHolders(s, step.pid, step.now, step.later, Apply(s, step), g, Mint(step.pid, s.pods[step.pid].slot, g.lastMs, g.sequence));
      }
    } else {
      forall m | m in s.mints ensures HolderInv(Apply(s, step), m) {
        QuietKeepsHolder(s, step, m);
      }
    }
  }

  lemma {:induction false} HoldersApart(s: State, steps: seq<Step>)
    requires Inv(s) && MintsInv(s) && HoldersInv(s) && ValidRun(s, steps) && Disciplined(s, steps)
    ensures HoldersInv(Reached(s, steps))
    decreases |steps|
  {
    if steps != [] {
      Keeps(s, steps[0]);
      MintsKeep(s, steps[0]);
      HoldersKeep(s, steps[0]);
      HoldersApart(Apply(s, steps[0]), steps[1..]);
    }
  }

  /** Over every run that keeps the hypotheses, no two ids minted anywhere are equal. */
  lemma FleetUnique(steps: seq<Step>)
    requires ValidRun(Init(), steps) && Disciplined(Init(), steps)
    ensures IdsDistinct(Reached(Init(), steps).mints)
  {
    HoldersApart(Init(), steps);
    DisciplinedClocks(Init(), steps);
    DistinctExactly(steps);
  }

  /** So no two codes are equal either, for any encoder that can be undone. */
  lemma CodesUnique(steps: seq<Step>, i: nat, j: nat, encode: nat -> Option<string>, decode: string -> nat)
    requires ValidRun(Init(), steps) && Disciplined(Init(), steps)
    requires i < j < |Reached(Init(), steps).mints|
    requires forall id :: encode(id).Some? ==> decode(encode(id).value) == id
    ensures var mints := Reached(Init(), steps).mints;
            var a, b := encode(IdOf(mints[i])), encode(IdOf(mints[j]));
            a.Some? && b.Some? ==> a != b
  {
    FleetUnique(steps);
  }

  // ---- Both hypotheses on the leases are needed ----

  ghost function Clash(s: State): bool {
    |s.mints| == 2 && IdOf(s.mints[0]) == IdOf(s.mints[1])
  }

  /** A pod cut off from Redis for a TTL still mints, and meets its slot's next holder. */
  lemma LostLeaseClashes()
    ensures exists steps :: ValidRun(Init(), steps) && Clash(Reached(Init(), steps))
  {
    var s0 := Init();
    var s1 := Apply(s0, Claim("a", 0, true));
    var s2 := Apply(s1, Wait(30_000));
    var s3 := Apply(s2, Claim("b", 0, true));
    var s4 := Apply(s3, Generate(1, 5, 5));
    var s5 := Apply(s4, Generate(0, 5, 5));
    Chain5(s0, Claim("a", 0, true), Wait(30_000), Claim("b", 0, true), Generate(1, 5, 5), Generate(0, 5, 5));
    assert s5.mints == [Mint(1, 0, 5, 0), Mint(0, 0, 5, 0)];
  }

  /** A slot released and reclaimed within one millisecond mints the same id twice, both pods fresh. */
  lemma QuickReuseClashes()
    ensures exists steps :: ValidRun(Init(), steps) && Clash(Reached(Init(), steps))
                            && Reached(Init(), steps).now == 0
  {
    var s0 := Init();
    var s1 := Apply(s0, Claim("a", 0, true));
    var s2 := Apply(s1, Generate(0, 5, 5));
    var s3 := Apply(s2, Release(0, true));
    var s4 := Apply(s3, Claim("b", 0, true));
    var s5 := Apply(s4, Generate(1, 5, 5));
    Chain5(s0, Claim("a", 0, true), Generate(0, 5, 5), Release(0, true), Claim("b", 0, true), Generate(1, 5, 5));
    assert s5.mints == [Mint(0, 0, 5, 0), Mint(1, 0, 5, 0)];
  }

  lemma Chain5(s: State, a: Step, b: Step, c: Step, d: Step, e: Step)
    requires Enabled(s, a)
    requires var s1 := Apply(s, a); Enabled(s1, b)
    requires var s2 := Apply(Apply(s, a), b); Enabled(s2, c)
    requires var s3 := Apply(Apply(Apply(s, a), b), c); Enabled(s3, d)
    requires var s4 := Apply(Apply(Apply(Apply(s, a), b), c), d); Enabled(s4, e)
    ensures ValidRun(s, [a, b, c, d, e])
    ensures Reached(s, [a, b, c, d, e]) == Apply(Apply(Apply(Apply(Apply(s, a), b), c), d), e)
  {
    var s1 := Apply(s, a);
    var s2 := Apply(s1, b);
    var s3 := Apply(s2, c);
    var s4 := Apply(s3, d);
    assert ValidRun(Apply(s4, e), []);
    assert [e][1..] == [] && [d, e][1..] == [e] && [c, d, e][1..] == [d, e];
    assert [b, c, d, e][1..] == [c, d, e] && [a, b, c, d, e][1..] == [b, c, d, e];
    assert ValidRun(s4, [e]) && Reached(s4, [e]) == Apply(s4, e);
    assert ValidRun(s3, [d, e]) && Reached(s3, [d, e]) == Reached(s4, [e]);
    assert ValidRun(s2, [c, d, e]) && Reached(s2, [c, d, e]) == Reached(s3, [d, e]);
    assert ValidRun(s1, [b, c, d, e]) && Reached(s1, [b, c, d, e]) == Reached(s2, [c, d, e]);
  }
}
