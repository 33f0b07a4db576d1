/** What a boot can break of the invariant: runs of requests to an empty coordinator after which a boot
    revives the lease of a worker that has been forgotten, or fills a source group past its cap. */
module BootExamples {
  import opened Base
  import opened LeaseSpec
  import opened LeaseRuns
  import opened LeaseInvariants
  import opened Persistence
  import opened Histories
  import opened RunExamples

  const LONG: JobSpec := JobSpec(Federated, NotLora, 200_000)
  const OTHER: Addr := 2
  const STRANGER: Addr := 3

  /** A stale idle key is all there is at a source with one slot, and a newcomer takes its place. */
  ghost predicate OnlyStale(s: State, victim: Addr, source: Source, now: u64) {
    && s.policy.maxWorkersPerSource == 1 && SlotsOf(s, source) == {victim}
    && victim !in Holders(s, now) && SatSub(now, s.workers[victim].lastSeen) >= SOURCE_SLOT_STALE_SECS
    && s.workers[victim].noshows == 0 && s.workers[victim].cooldownUntil <= now
  }

  lemma MakesRoom(s: State, victim: Addr, source: Source, now: u64)
    requires OnlyStale(s, victim, source, now)
    ensures MakeRoomForSource(s, source, now) == Ok(s.(workers := s.workers - {victim}))
  {
    var stale := StaleSlots(s, source, now);
    assert victim in stale && stale.Keys == {victim};
    assert MinKey(stale) in stale;
  }

  lemma TakesThePlace(s: State, key: Addr, victim: Addr, source: Source, now: u64)
    requires Stamped(s) && OnlyStale(s, victim, source, now)
    requires key !in s.workers && key !in s.policy.trusted && s.penalties == map[] && |s.workers| < MAX_WORKERS
    ensures Mutate(s, Request(RegisterStep(key, Federated, source), now, true))
         == s.(workers := (s.workers - {victim})[key := Newcomer(source, now)])
  {
    var s0 := s.(dirty := true);
    assert SlotsOf(s0, source) == SlotsOf(s, source) && Holders(s0, now) == Holders(s, now);
    MakesRoom(s0, victim, source, now);
    var room := s0.(workers := s.workers - {victim});
    FewerWorkers(s.workers, victim);
    Admits(room, key, source, now);
    assert Register(s, key, Federated, source, now).0 == Admit(room, key, Federated, source, now);
    SavedAsItIs(s.(workers := (s.workers - {victim})[key := Newcomer(source, now)]));
  }

  lemma FewerWorkers(workers: map<Addr, Worker>, victim: Addr)
    ensures |workers - {victim}| <= |workers|
  {
    assert (workers - {victim}).Keys == workers.Keys - {victim};
    SubsetSize((workers - {victim}).Keys, workers.Keys);
  }

  // ---- a lease nobody holds -------------------------------------------------------------------

  /** One unvouched worker a source. */
  const NARROW: Policy := Policy({}, Federated, 1, 900, 1)

  /** The squatter's lease lapsed at 900, nothing has noticed, and at 90000 a stranger took its slot. */
  const STRANDED: State := Holding(NARROW, LONG).(workers := map[STRANGER := Newcomer(Source(1, 1), 90_000)])

  const STRAND: Request := Request(RegisterStep(STRANGER, Federated, Source(1, 1)), 90_000, true)

  const STRANDING: seq<Request> :=
    [Request(AddJobStep(JOB, LONG), 0, true), Request(RegisterStep(SQUATTER, Federated, Source(1, 1)), 0, true),
     Request(PollStep(SQUATTER), 0, true), STRAND]

  lemma Stranded(s: State)
    requires s == Holding(NARROW, LONG)
    ensures Mutate(s, STRAND) == STRANDED
  {
    assert SlotsOf(s, Source(1, 1)) == {SQUATTER} && Holders(s, 90_000) == {};
    TakesThePlace(s, STRANGER, SQUATTER, Source(1, 1), 90_000);
    assert (s.workers - {SQUATTER})[STRANGER := Newcomer(Source(1, 1), 90_000)] == STRANDED.workers;
  }

  /** The state is reached from an empty coordinator, and so satisfies the whole invariant. */
  lemma StrandedIsReached(rs: seq<Request>)
    requires rs == STRANDING
    ensures Run(EmptyState(NARROW), rs) == STRANDED && Inv(STRANDED, 90_000)
  {
    StrandingLeadsThere(rs);
    StrandingInTime(rs);
    ReachedIsSound(NARROW, rs, STRANDED, 90_000);
  }

  lemma StrandingLeadsThere(rs: seq<Request>)
    requires rs == STRANDING
    ensures Run(EmptyState(NARROW), rs) == STRANDED
  {
    JobLoaded(NARROW, LONG);
    SquatterJoins(NARROW, LONG);
    SquatterHolds(NARROW, LONG);
    Stranded(Holding(NARROW, LONG));
    RunOfFour(EmptyState(NARROW), Loaded(NARROW, LONG), Joined(NARROW, LONG), Holding(NARROW, LONG), STRANDED, rs);
  }

  lemma StrandingInTime(rs: seq<Request>)
    requires rs == STRANDING
    ensures InTime(rs, 90_000)
  {
  }

  /** The requests come in order, the last at `t`. */
  predicate InTime(rs: seq<Request>, t: u64) {
    rs != [] && rs[|rs| - 1].now == t && forall j, k | 0 <= j < k < |rs| :: rs[j].now <= rs[k].now
  }

  lemma ReachedIsSound(p: Policy, rs: seq<Request>, s: State, t: u64)
    requires InTime(rs, t) && Run(EmptyState(p), rs) == s
    ensures Inv(s, t)
  {
    ClockedWhenSorted(0, rs);
    CapacityHoldsOnEveryRun(EmptyState(p), 0, rs);
  }

  lemma {:induction false} ClockedWhenSorted(t: u64, rs: seq<Request>)
    requires forall k | 0 <= k < |rs| :: t <= rs[k].now
    requires forall j, k | 0 <= j < k < |rs| :: rs[j].now <= rs[k].now
    ensures Clocked(t, rs)
    decreases |rs|
  {
    if rs != [] {
      ClockedWhenSorted(rs[0].now, rs[1..]);
    }
  }

  lemma RunOfFour(a: State, b: State, c: State, d: State, e: State, rs: seq<Request>)
    requires |rs| == 4 && Mutate(a, rs[0]) == b && Mutate(b, rs[1]) == c && Mutate(c, rs[2]) == d && Mutate(d, rs[3]) == e
    ensures Run(a, rs) == e
  {
    var ss := [a, b, c, d, e];
    forall k | 0 <= k < 4 ensures LeadsOn(ss, rs, k) {
    }
    RunThrough(ss, rs);
  }

  /** A run goes through the states its requests lead to, one by one. */
  lemma {:induction false} RunThrough(ss: seq<State>, rs: seq<Request>)
    requires |ss| == |rs| + 1 && forall k | 0 <= k < |rs| :: LeadsOn(ss, rs, k)
    ensures Run(ss[0], rs) == ss[|rs|]
    decreases |rs|
  {
    if rs != [] {
      forall k | 0 <= k < |rs| - 1 ensures LeadsOn(ss[1..], rs[1..], k) {
        assert LeadsOn(ss, rs, k + 1);
      }
      assert LeadsOn(ss, rs, 0);
      RunThrough(ss[1..], rs[1..]);
    }
  }

  ghost predicate LeadsOn(ss: seq<State>, rs: seq<Request>, k: nat)
    requires |ss| == |rs| + 1 && k < |rs|
  {
    Mutate(ss[k], rs[k]) == ss[k + 1]
  }

  /** From there a boot revives the lease of a worker nobody knows any more. */
  lemma BootCanReviveAStranger(disk: State)
    requires disk == Serialize(STRANDED)
    ensures !LiveRegistered(Restored(disk, disk.policy, 90_001), 90_001)
  {
    assert disk.jobs == map[JOB := FederatedJob(LONG, Leased(SQUATTER, 900, 200_000), 1, 0)];
    BootKeepsHoldersRegistered(disk, 90_001);
    assert Revives(disk.jobs[JOB], 900, 90_001);
  }

  // ---- a group past its cap ---------------------------------------------------------------------

  /** One unvouched worker a source, one lease a group, and more than a day a lease. */
  const SLOW: Policy := Policy({}, Federated, 1, 100_000, 1)
  const NEXT: JobId := 8

  function Pool(first: Job, second: Job, workers: map<Addr, Worker>): State {
    EmptyState(SLOW).(jobs := map[JOB := first, NEXT := second], workers := workers)
  }

  const OPEN: Job := FederatedJob(LONG, Pending, 0, 0)

  function Lent(w: Addr, end: u64): Job {
    FederatedJob(LONG, Leased(w, end, 200_000), 1, end)
  }

  function Known(site: nat, subnet: nat): Worker {
    Newcomer(Source(site, subnet), 0)
  }

  function Engaged(site: nat, at: u64): Worker {
    Known(site, 1).(lastSeen := at, lastEngaged := Some(at))
  }

  const LOADED_BOTH: State := Pool(OPEN, OPEN, map[])
  const JOINED_ONE: State := Pool(OPEN, OPEN, map[SQUATTER := Known(1, 1)])
  const JOINED_BOTH: State := Pool(OPEN, OPEN, map[SQUATTER := Known(1, 1), OTHER := Known(2, 1)])
  const LENT_ONE: State := Pool(Lent(SQUATTER, 100_000), OPEN, map[SQUATTER := Engaged(1, 0), OTHER := Known(2, 1)])

  /** Both jobs lent at 0, to workers of two groups. */
  const LENT: State := Pool(Lent(SQUATTER, 100_000), Lent(OTHER, 100_000),
                            map[SQUATTER := Engaged(1, 0), OTHER := Engaged(2, 0)])

  /** The second lease was extended at 50000; at 110000 the first worker lost its slot, its lease lapsed. */
  const BEATEN: State := Pool(Lent(SQUATTER, 100_000), Lent(OTHER, 150_000),
                              map[SQUATTER := Engaged(1, 0), OTHER := Engaged(2, 50_000)])
  const EVICTED: State := BEATEN.(workers := map[OTHER := Engaged(2, 50_000), STRANGER := Newcomer(Source(1, 1), 110_000)])

  /** And it is back, in the other's group. */
  const CROWDED: State := EVICTED.(workers := EVICTED.workers[SQUATTER := Newcomer(Source(2, 2), 110_000)])

  lemma PoolLoaded(a: State, b: State, c: State)
    requires a == EmptyState(SLOW) && b == Loaded(SLOW, LONG) && c == LOADED_BOTH
    ensures Mutate(a, Request(AddJobStep(JOB, LONG), 0, true)) == b
    ensures Mutate(b, Request(AddJobStep(NEXT, LONG), 0, true)) == c
  {
    JobLoaded(SLOW, LONG);
    SavedAsItIs(c);
    assert AddJob(b, NEXT, LONG).jobs == c.jobs;
  }

  lemma TwoJoin(a: State, b: State, c: State)
    requires a == LOADED_BOTH && b == JOINED_ONE
    requires c == JOINED_BOTH
    ensures Mutate(a, Request(RegisterStep(SQUATTER, Federated, Source(1, 1)), 0, true)) == b
    ensures Mutate(b, Request(RegisterStep(OTHER, Federated, Source(2, 1)), 0, true)) == c
  {
    assert SlotsOf(a, Source(1, 1)) == {} && SlotsOf(b, Source(2, 1)) == {};
    Registers(a, SQUATTER, Source(1, 1), 0);
    Registers(b, OTHER, Source(2, 1), 0);
  }

  lemma FirstMay(a: State, t: State)
    requires a == JOINED_BOTH && t == Touch(a, SQUATTER, 0)
    ensures MayLease(t, SQUATTER, 0) && ComesFirst(t, SQUATTER, JOB, 0)
  {
    assert HeldBy(t, SQUATTER) == {} && LeasesOfGroup(t, 1) == {};
  }

  lemma FirstIs(a: State, t: State, b: State)
    requires a == JOINED_BOTH && t == Touch(a, SQUATTER, 0)
    requires b == LENT_ONE
    ensures Leasing(t, SQUATTER, JOB, 0) == b
  {
    assert Leasing(t, SQUATTER, JOB, 0).jobs == b.jobs && t.workers == b.workers;
  }

  lemma FirstLent(a: State, b: State)
    requires a == JOINED_BOTH
    requires b == LENT_ONE
    ensures Mutate(a, Request(PollStep(SQUATTER), 0, true)) == b
  {
    var t := Touch(a, SQUATTER, 0);
    FirstMay(a, t);
    Leases(a, SQUATTER, JOB, 0);
    FirstIs(a, t, b);
  }

  lemma SecondMay(a: State, t: State)
    requires a == LENT_ONE
    requires t == Touch(a, OTHER, 0)
    ensures MayLease(t, OTHER, 0) && ComesFirst(t, OTHER, NEXT, 0)
  {
    assert HeldBy(t, OTHER) == {} && LeasesOfGroup(t, 2) == {};
  }

  lemma SecondIs(a: State, t: State)
    requires a == LENT_ONE
    requires t == Touch(a, OTHER, 0)
    ensures Leasing(t, OTHER, NEXT, 0) == LENT
  {
    assert Leasing(t, OTHER, NEXT, 0).jobs == LENT.jobs && t.workers == LENT.workers;
  }

  lemma SecondLent(a: State)
    requires a == LENT_ONE
    ensures Mutate(a, Request(PollStep(OTHER), 0, true)) == LENT
  {
    var t := Touch(a, OTHER, 0);
    SecondMay(a, t);
    Leases(a, OTHER, NEXT, 0);
    SecondIs(a, t);
  }

  lemma Beaten(a: State, b: State)
    requires a == LENT && b == BEATEN
    ensures Mutate(a, Request(HeartbeatStep(OTHER, NEXT), 50_000, true)) == b
  {
    var s := Renew(a, OTHER, NEXT, 50_000).0;
    assert s.dirty && s.workers == b.workers;
    assert TakeDirty(s).jobs == b.jobs;
  }

  lemma StaleByThen(a: State)
    requires a == BEATEN
    ensures OnlyStale(a, SQUATTER, Source(1, 1), 110_000)
  {
    assert SlotsOf(a, Source(1, 1)) == {SQUATTER};
    assert SQUATTER !in Holders(a, 110_000);
  }

  lemma Evicted(a: State, b: State)
    requires a == BEATEN && b == EVICTED
    ensures Mutate(a, Request(RegisterStep(STRANGER, Federated, Source(1, 1)), 110_000, true)) == b
  {
    StaleByThen(a);
    TakesThePlace(a, STRANGER, SQUATTER, Source(1, 1), 110_000);
    Replaced(a, b);
  }

  lemma Replaced(a: State, b: State)
    requires a == BEATEN && b == EVICTED
    ensures a.(workers := (a.workers - {SQUATTER})[STRANGER := Newcomer(Source(1, 1), 110_000)]) == b
  {
    assert (a.workers - {SQUATTER})[STRANGER := Newcomer(Source(1, 1), 110_000)] == b.workers;
  }

  lemma Crowded(b: State, c: State)
    requires b == EVICTED && c == CROWDED
    ensures Mutate(b, Request(RegisterStep(SQUATTER, Federated, Source(2, 2)), 110_000, true)) == c
  {
    assert SlotsOf(b, Source(2, 2)) == {};
    Registers(b, SQUATTER, Source(2, 2), 110_000);
  }

  const JOINING: seq<Request> :=
    [Request(AddJobStep(JOB, LONG), 0, true), Request(AddJobStep(NEXT, LONG), 0, true),
     Request(RegisterStep(SQUATTER, Federated, Source(1, 1)), 0, true), Request(RegisterStep(OTHER, Federated, Source(2, 1)), 0, true)]
  const LENDING: seq<Request> := [Request(PollStep(SQUATTER), 0, true), Request(PollStep(OTHER), 0, true)]
  const CROWDING: seq<Request> :=
    [Request(HeartbeatStep(OTHER, NEXT), 50_000, true), Request(RegisterStep(STRANGER, Federated, Source(1, 1)), 110_000, true),
     Request(RegisterStep(SQUATTER, Federated, Source(2, 2)), 110_000, true)]

  lemma UntilJoined(rs: seq<Request>)
    requires rs == JOINING
    ensures Run(EmptyState(SLOW), rs) == JOINED_BOTH
  {
    PoolLoaded(EmptyState(SLOW), Loaded(SLOW, LONG), LOADED_BOTH);
    TwoJoin(LOADED_BOTH, JOINED_ONE, JOINED_BOTH);
    RunOfFour(EmptyState(SLOW), Loaded(SLOW, LONG), LOADED_BOTH, JOINED_ONE, JOINED_BOTH, rs);
  }

  lemma UntilLent(rs: seq<Request>)
    requires rs == LENDING
    ensures Run(JOINED_BOTH, rs) == LENT
  {
    FirstLent(JOINED_BOTH, LENT_ONE);
    SecondLent(LENT_ONE);
    RunOfTwo(JOINED_BOTH, LENT_ONE, LENT, rs);
  }

  lemma UntilCrowded(rs: seq<Request>)
    requires rs == CROWDING
    ensures Run(LENT, rs) == CROWDED
  {
    Beaten(LENT, BEATEN);
    Evicted(BEATEN, EVICTED);
    Crowded(EVICTED, CROWDED);
    RunOfThree(LENT, BEATEN, EVICTED, CROWDED, rs);
  }

  lemma RunOfTwo(a: State, b: State, c: State, rs: seq<Request>)
    requires |rs| == 2 && Mutate(a, rs[0]) == b && Mutate(b, rs[1]) == c
    ensures Run(a, rs) == c
  {
    var ss := [a, b, c];
    assert LeadsOn(ss, rs, 0) && LeadsOn(ss, rs, 1);
    RunThrough(ss, rs);
  }

  lemma RunOfThree(a: State, b: State, c: State, d: State, rs: seq<Request>)
    requires |rs| == 3 && Mutate(a, rs[0]) == b && Mutate(b, rs[1]) == c && Mutate(c, rs[2]) == d
    ensures Run(a, rs) == d
  {
    var ss := [a, b, c, d];
    assert LeadsOn(ss, rs, 0) && LeadsOn(ss, rs, 1) && LeadsOn(ss, rs, 2);
    RunThrough(ss, rs);
  }

  lemma {:induction false} RunInParts(s: State, xs: seq<Request>, ys: seq<Request>)
    ensures Run(s, xs + ys) == Run(Run(s, xs), ys)
    decreases |xs|
  {
    if xs == [] {
      assert xs + ys == ys;
    } else {
      assert (xs + ys)[1..] == xs[1..] + ys;
      RunInParts(Mutate(s, xs[0]), xs[1..], ys);
    }
  }

  /** The state is reached from an empty coordinator, and so satisfies the whole invariant. */
  lemma CrowdedIsReached(rs: seq<Request>)
    requires rs == JOINING + LENDING + CROWDING
    ensures Run(EmptyState(SLOW), rs) == CROWDED && Inv(CROWDED, 110_000)
  {
    CrowdingLeadsThere(rs);
    CrowdingInTime(rs);
    ReachedIsSound(SLOW, rs, CROWDED, 110_000);
  }

  lemma CrowdingLeadsThere(rs: seq<Request>)
    requires rs == JOINING + LENDING + CROWDING
    ensures Run(EmptyState(SLOW), rs) == CROWDED
  {
    UntilJoined(JOINING);
    UntilLent(LENDING);
    UntilCrowded(CROWDING);
    RunInThree(EmptyState(SLOW), JOINED_BOTH, LENT, CROWDED, JOINING, LENDING, CROWDING);
  }

  lemma CrowdingInTime(rs: seq<Request>)
    requires rs == JOINING + LENDING + CROWDING
    ensures InTime(rs, 110_000)
  {
  }

  lemma RunInThree(a: State, b: State, c: State, d: State, xs: seq<Request>, ys: seq<Request>, zs: seq<Request>)
    requires Run(a, xs) == b && Run(b, ys) == c && Run(c, zs) == d
    ensures Run(a, xs + ys + zs) == d
  {
    RunInParts(a, xs, ys);
    RunInParts(a, xs + ys, zs);
  }

  lemma CrowdedGroup(disk: State)
    requires disk == Serialize(CROWDED)
    ensures LiveOfGroup(disk, 2, 110_001) == {NEXT} && RevivedOfGroup(disk, 2, 110_001) == {JOB}
    ensures JobsOk(disk, 110_001) && disk.policy.maxLeasesPerSource == 1
  {
    assert disk.jobs == map[JOB := Forgetful(Lent(SQUATTER, 100_000)), NEXT := Forgetful(Lent(OTHER, 150_000))];
  }

  /** From there a boot fills a group past its cap: the cap is one, one lease of the group is live, and the
      boot makes it two. */
  lemma BootCanOverfillAGroup(disk: State)
    requires disk == Serialize(CROWDED)
    ensures !GroupCap(Restored(disk, disk.policy, 110_001), 110_001)
  {
    CrowdedGroup(disk);
    BootKeepsGroupsCapped(disk, 110_001);
    assert |{NEXT} + {JOB}| == 2;
  }
}
