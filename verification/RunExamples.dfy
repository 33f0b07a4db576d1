/** Lives that meet the conditions of the two longest theorems: a squatted job that a waiting vouched
    worker gets, and a no-show that is charged and then refused. */
module RunExamples {
  import opened Base
  import opened LeaseSpec
  import opened LeaseRuns
  import opened LeaseInvariants
  import opened LeaseTheorems
  import opened LeaseLives
  import opened BoundedWaiting
  import opened NoShowHistory
  import opened Persistence
  import opened Histories

  const SQUATTER: Addr := 1
  const VOUCHED: Addr := 2
  const JOB: JobId := 7

  const POLICY: Policy := Policy({VOUCHED}, Federated, 16, 900, 4)
  const SPEC: JobSpec := JobSpec(Federated, NotLora, 10)

  function Registered(seen: u64, engaged: Option<u64>, noshows: u32, cooldownUntil: u64): Worker {
    Worker(Federated, seen, Source(1, 1), noshows, cooldownUntil, 0, 0, engaged)
  }

  const PATIENT: Worker := Worker(Federated, 0, Source(2, 2), 0, 0, 0, 0, None)

  function OneJob(status: Status, attempts: nat, persisted: u64): Job {
    Job(SPEC, status, attempts, {}, None, {}, 0, persisted)
  }

  /** Both workers registered, one job waiting. */
  const START: State := State(map[JOB := OneJob(Pending, 0, 0)], map[SQUATTER := Registered(0, None, 0, 0), VOUCHED := PATIENT],
                              map[], map[], POLICY, false, {})

  /** The squatter has leased it at 0. */
  const SQUATTED: State := START.(jobs := map[JOB := OneJob(Leased(SQUATTER, 10, 10), 1, 10)],
                                  workers := map[SQUATTER := Registered(0, Some(0), 0, 0), VOUCHED := PATIENT])

  lemma NothingToExpire(s: State, now: u64)
    requires forall i | i in s.jobs :: !Lapsed(s.jobs[i].status, now)
    ensures ExpireLeases(s, now) == s
  {
    NoGroups(s, s.jobs.Keys, now);
    forall w | w in s.workers ensures ChargeWorker(s.workers[w], |LapsedOf(s, s.jobs.Keys, w, now)|, now) == s.workers[w] {
      assert LapsedOf(s, s.jobs.Keys, w, now) == {};
    }
    assert ExpireLeases(s, now).jobs == s.jobs && ExpireLeases(s, now).workers == s.workers;
  }

  lemma {:induction false} NoGroups(s: State, ids: set<JobId>, now: u64)
    requires forall i | i in s.jobs :: !Lapsed(s.jobs[i].status, now)
    ensures LapsedGroups(s, ids, now) == []
    decreases ids
  {
    if ids != {} {
      NoGroups(s, ids - {Least(ids)}, now);
    }
  }

  lemma StartIsSound()
    ensures Inv(START, 0)
  {
    forall g ensures |LiveOfGroup(START, g, 0)| <= 4 {
      assert LiveOfGroup(START, g, 0) == {};
    }
    forall source ensures |SlotsOf(START, source)| <= 16 {
      SubsetSize(SlotsOf(START, source), {SQUATTER, VOUCHED});
    }
    assert START.workers.Keys == {SQUATTER, VOUCHED};
  }

  /** Saving would change nothing but the flag. */
  predicate Stamped(s: State) {
    !s.dirty && forall i | i in s.jobs && s.jobs[i].status.Leased? :: s.jobs[i].persistedExpiry == s.jobs[i].status.expiresAt
  }

  lemma SavedAsItIs(s: State)
    requires Stamped(s)
    ensures TakeDirty(s.(dirty := true)) == s
  {
    assert TakeDirty(s.(dirty := true)).jobs == s.jobs;
  }

  function Newcomer(source: Source, now: u64): Worker {
    Worker(Federated, now, source, 0, 0, 0, now, None)
  }

  /** An unvouched key registers at a source with nobody. */
  lemma Registers(s: State, key: Addr, source: Source, now: u64)
    requires Stamped(s) && key !in s.workers && s.penalties == map[] && |s.workers| < MAX_WORKERS
    requires SlotsOf(s, source) == {} && s.policy.maxWorkersPerSource >= 1
    ensures Mutate(s, Request(RegisterStep(key, Federated, source), now, true))
         == s.(workers := s.workers[key := Newcomer(source, now)])
  {
    assert SlotsOf(s.(dirty := true), source) == {};
    Admits(s.(dirty := true), key, source, now);
    assert Register(s, key, Federated, source, now).0 == Admit(s.(dirty := true), key, Federated, source, now);
    SavedAsItIs(s.(workers := s.workers[key := Newcomer(source, now)]));
  }

  lemma Admits(s: State, key: Addr, source: Source, now: u64)
    requires s.penalties == map[]
    ensures Admit(s, key, Federated, source, now) == s.(workers := s.workers[key := Newcomer(source, now)])
  {
    assert s.penalties - {key} == map[];
  }

  /** An unvouched worker with nothing held against it, alone of its group in holding leases. */
  ghost predicate MayLease(s: State, w: Addr, now: u64) {
    && w in s.workers && w !in s.policy.trusted && s.workers[w].cooldownUntil <= now && HeldBy(s, w) == {}
    && s.sources == map[] && LeasesOfGroup(s, SourceGroup(s.workers[w].source)) == {} && s.policy.maxLeasesPerSource >= 1
  }

  /** Job `i` is open to it, and of the jobs open to it, all of one tier, the first. */
  ghost predicate ComesFirst(s: State, w: Addr, i: JobId, now: u64)
    requires w in s.workers
  {
    && i in s.jobs && Eligible(s, w, i, now)
    && forall k | k in s.jobs && Eligible(s, w, k, now) :: s.jobs[k].spec.tier == s.jobs[i].spec.tier && i <= k
  }

  function Leasing(s: State, w: Addr, i: JobId, now: u64): State
    requires i in s.jobs
  {
    var j := s.jobs[i];
    var e := SatAdd(now, Min(j.spec.leaseSecs, s.policy.leaseWindow));
    s.(jobs := s.jobs[i := j.(attempts := j.attempts + 1, status := Leased(w, e, SatAdd(now, j.spec.leaseSecs)), persistedExpiry := e)])
  }

  /** It polls and is given that job. */
  lemma Leases(s: State, w: Addr, i: JobId, now: u64)
    requires Stamped(s) && w in s.workers && MayLease(Touch(s, w, now), w, now)
    requires forall k | k in s.jobs :: !Lapsed(s.jobs[k].status, now)
    requires ComesFirst(Touch(s, w, now), w, i, now)
    ensures Lease(s, w, now).1 == Ok(i)
    ensures Mutate(s, Request(PollStep(w), now, true)) == Leasing(Touch(s, w, now), w, i, now)
  {
    var t := Touch(s, w, now);
    NothingToExpire(t, now);
    FirstChoice(t, w, i, now);
    assert Lease(s, w, now) == (Grant(t, w, i, now), Ok(i));
    GrantSaved(t, w, i, now);
  }

  lemma GrantSaved(t: State, w: Addr, i: JobId, now: u64)
    requires Stamped(t) && i in t.jobs
    ensures TakeDirty(Grant(t, w, i, now)) == Leasing(t, w, i, now)
  {
    assert TakeDirty(Grant(t, w, i, now)).jobs == Leasing(t, w, i, now).jobs;
  }

  lemma FirstChoice(s: State, w: Addr, i: JobId, now: u64)
    requires w in s.workers && ComesFirst(s, w, i, now)
    ensures EligibleJobs(s, w, now) != map[] && MinKey(EligibleJobs(s, w, now)) == i
  {
    assert i in EligibleJobs(s, w, now);
    MinKeyUnique(EligibleJobs(s, w, now), i);
  }

  lemma SquattedMay(t: State)
    requires t == Touch(START, SQUATTER, 0)
    ensures MayLease(t, SQUATTER, 0) && ComesFirst(t, SQUATTER, JOB, 0)
  {
    assert t.workers == SQUATTED.workers;
    assert HeldBy(t, SQUATTER) == {} && LeasesOfGroup(t, 1) == {};
  }

  lemma SquatterLeases()
    ensures Lease(START, SQUATTER, 0).1 == Ok(JOB)
    ensures Mutate(START, Request(PollStep(SQUATTER), 0, true)) == SQUATTED
  {
    var t := Touch(START, SQUATTER, 0);
    SquattedMay(t);
    Leases(START, SQUATTER, JOB, 0);
    SquattedIs(t);
  }

  lemma SquattedIs(t: State)
    requires t == Touch(START, SQUATTER, 0)
    ensures Leasing(t, SQUATTER, JOB, 0) == SQUATTED
  {
    assert t.workers == SQUATTED.workers;
    assert Leasing(t, SQUATTER, JOB, 0).jobs == SQUATTED.jobs;
  }

  /** One more move at the end of a life. */
  lemma Grow(ss: seq<State>, ms: seq<Move>, m: Move, last: State, next: State)
    requires IsLife(ss, ms) && ss[|ms|] == last && Moves(last, m, next)
    ensures IsLife(ss + [next], ms + [m])
  {
    var more, moves := ss + [next], ms + [m];
    forall k | 0 <= k < |moves| ensures MovesAt(more, moves, k) {
      if k < |ms| {
        assert MovesAt(ss, ms, k);
      }
    }
  }

  lemma GrowTwice(ss: seq<State>, ms: seq<Move>, m: Move, q: Move) returns (more: seq<State>)
    requires IsLife(ss, ms) && m.Asked? && q.Asked?
    ensures IsLife(more, ms + [m] + [q]) && ss <= more
  {
    var s1 := Mutate(ss[|ms|], m.request);
    var s2 := Mutate(s1, q.request);
    Grow(ss, ms, m, ss[|ms|], s1);
    Grow(ss + [s1], ms + [m], q, s1, s2);
    more := ss + [s1] + [s2];
  }

  lemma ThePatientIsVigilant(ss: seq<State>, ms: seq<Move>)
    requires |ss| == 3 && ss[0] == SQUATTED
    requires ms == [Asked(Request(PollStep(VOUCHED), 60, true)), Asked(Request(PollStep(SQUATTER), 110, true))]
    ensures Vigilant(ss, ms, VOUCHED, JOB, 0, 100)
  {
    ThePatientMayTakeIt();
    assert LastPoll(ms, VOUCHED, 0, 0) == 0;
    assert LastPoll(ms, VOUCHED, 0, 1) == 60;
    forall k | 0 <= k < |ms| ensures VigilantThrough(ss, ms, VOUCHED, JOB, 0, 100, k) {
    }
  }

  lemma ThePatientMayTakeIt()
    ensures IdlePoll(SQUATTED, VOUCHED, JOB, 60) && MayTake(SQUATTED, VOUCHED, JOB)
  {
    assert HeldBy(SQUATTED, VOUCHED) == {};
  }

  /** A squat under way: `squatted` is what the squatter's lease makes of the sound state `start`. */
  ghost predicate Squat(start: State, squatted: State) {
    && Inv(start, 0) && Lease(start, SQUATTER, 0).1 == Ok(JOB) && SQUATTER !in start.policy.trusted
    && squatted == Mutate(start, Request(PollStep(SQUATTER), 0, true))
    && MayTake(squatted, VOUCHED, JOB) && squatted.jobs[JOB].spec.leaseSecs == 10
  }

  lemma TheSquat()
    ensures Squat(START, SQUATTED)
  {
    StartIsSound();
    SquatterLeases();
    ThePatientMayTakeIt();
  }

  lemma TheSquatter() returns (start: State, squatted: State)
    ensures Squat(start, squatted) && squatted == SQUATTED
  {
    TheSquat();
    start, squatted := START, SQUATTED;
  }

  /** The conditions of bounded waiting are met by a life: a squatter leases at 0, a vouched worker polls
      at 60, and the squatter is back at 110. */
  lemma AWaitThatEnds(ms: seq<Move>) returns (ss: seq<State>)
    requires ms == [Asked(Request(PollStep(VOUCHED), 60, true)), Asked(Request(PollStep(SQUATTER), 110, true))]
    ensures ss != [] && ss[0] == SQUATTED && IsLife(ss, ms) && Vigilant(ss, ms, VOUCHED, JOB, 0, 100)
    ensures exists m | 0 <= m < |ms| :: InGoodHands(ss[m], JOB)
  {
    ss := GrowTwice([SQUATTED], [], ms[0], ms[1]);
    assert [] + [ms[0]] + [ms[1]] == ms;
    ThePatientIsVigilant(ss, ms);
    TheWaitEnds(ss, ms);
  }

  lemma TheWaitEnds(ss: seq<State>, ms: seq<Move>)
    requires IsLife(ss, ms) && Timed(0, ms) && ss[0] == SQUATTED
    requires Vigilant(ss, ms, VOUCHED, JOB, 0, 100) && ms != [] && At(ms[|ms| - 1]) >= 110
    ensures exists m | 0 <= m < |ms| :: InGoodHands(ss[m], JOB)
  {
    var start, squatted := TheSquatter();
    WaitingEnds(start, squatted, ss, ms);
  }

  lemma WaitingEnds(start: State, squatted: State, ss: seq<State>, ms: seq<Move>)
    requires Squat(start, squatted) && IsLife(ss, ms) && Timed(0, ms) && ss[0] == squatted
    requires Vigilant(ss, ms, VOUCHED, JOB, 0, 100) && ms != [] && At(ms[|ms| - 1]) >= 110
    ensures exists m | 0 <= m < |ms| :: InGoodHands(ss[m], JOB)
  {
    VouchedWorkerWaitsAtMost(start, SQUATTER, 0, true, ss, ms, VOUCHED, JOB, 0, 100);
  }

  // ---- a charged no-show ----------------------------------------------------------------------

  function FederatedJob(spec: JobSpec, status: Status, attempts: nat, persisted: u64): Job {
    Job(spec, status, attempts, {}, None, {}, 0, persisted)
  }

  function Loaded(p: Policy, spec: JobSpec): State {
    EmptyState(p).(jobs := map[JOB := FederatedJob(spec, Pending, 0, 0)])
  }

  function Joined(p: Policy, spec: JobSpec): State {
    Loaded(p, spec).(workers := map[SQUATTER := Registered(0, None, 0, 0)])
  }

  function Holding(p: Policy, spec: JobSpec): State {
    var end := Min(spec.leaseSecs, p.leaseWindow);
    Loaded(p, spec).(jobs := map[JOB := FederatedJob(spec, Leased(SQUATTER, end, spec.leaseSecs), 1, end)],
                     workers := map[SQUATTER := Registered(0, Some(0), 0, 0)])
  }

  /** Policies and jobs under which the squatter may register and lease. */
  predicate Permissive(p: Policy, spec: JobSpec) {
    && SQUATTER !in p.trusted && p.openTier == Federated && p.maxWorkersPerSource >= 1 && p.maxLeasesPerSource >= 1
    && spec.tier == Federated && spec.payload == NotLora
  }

  lemma JobLoaded(p: Policy, spec: JobSpec)
    ensures Mutate(EmptyState(p), Request(AddJobStep(JOB, spec), 0, true)) == Loaded(p, spec)
  {
    var s := AddJob(EmptyState(p), JOB, spec);
    assert s.jobs == map[JOB := FederatedJob(spec, Pending, 0, 0)];
    assert TakeDirty(s).jobs == s.jobs;
  }

  lemma SquatterJoins(p: Policy, spec: JobSpec)
    requires Permissive(p, spec)
    ensures Mutate(Loaded(p, spec), Request(RegisterStep(SQUATTER, Federated, Source(1, 1)), 0, true)) == Joined(p, spec)
  {
    assert SlotsOf(Loaded(p, spec), Source(1, 1)) == {};
    Registers(Loaded(p, spec), SQUATTER, Source(1, 1), 0);
    assert map[][SQUATTER := Newcomer(Source(1, 1), 0)] == Joined(p, spec).workers;
  }

  lemma SquatterHolds(p: Policy, spec: JobSpec)
    requires Permissive(p, spec)
    ensures Mutate(Joined(p, spec), Request(PollStep(SQUATTER), 0, true)) == Holding(p, spec)
  {
    var t := Touch(Joined(p, spec), SQUATTER, 0);
    SquatterMay(p, spec, t);
    Leases(Joined(p, spec), SQUATTER, JOB, 0);
    LeasedJobs(p, spec, t);
  }

  lemma SquatterMay(p: Policy, spec: JobSpec, t: State)
    requires Permissive(p, spec) && t == Touch(Joined(p, spec), SQUATTER, 0)
    ensures MayLease(t, SQUATTER, 0) && ComesFirst(t, SQUATTER, JOB, 0)
  {
    assert HeldBy(t, SQUATTER) == {} && LeasesOfGroup(t, 1) == {};
  }

  lemma LeasedJobs(p: Policy, spec: JobSpec, t: State)
    requires t == Touch(Joined(p, spec), SQUATTER, 0)
    ensures Leasing(t, SQUATTER, JOB, 0) == Holding(p, spec)
  {
    assert t.workers == Holding(p, spec).workers;
    assert Leasing(t, SQUATTER, JOB, 0).jobs == Holding(p, spec).jobs;
  }

  const EMPTY: State := EmptyState(POLICY)
  const LOADED: State := Loaded(POLICY, SPEC)
  const JOINED: State := Joined(POLICY, SPEC)
  const HOLDING: State := Holding(POLICY, SPEC)

  const STEPS: seq<Move> := [Asked(Request(AddJobStep(JOB, SPEC), 0, true)),
                             Asked(Request(RegisterStep(SQUATTER, Federated, Source(1, 1)), 0, true)),
                             Asked(Request(PollStep(SQUATTER), 0, true)), Asked(Request(PollStep(SQUATTER), 20, true)),
                             Asked(Request(PollStep(SQUATTER), 30, true))]

  /** While there are no penalties none is pushed out. */
  lemma {:induction false} NothingLostYet(ss: seq<State>, ms: seq<Move>, n: nat)
    requires |ss| == |ms| + 1 && n <= |ms| && forall k | 0 <= k < n :: ss[k].penalties == map[]
    ensures BooksAfter(ss, ms, n).lost == {}
  {
    if n > 0 {
      NothingLostYet(ss, ms, n - 1);
      NoPenaltyNoLoss(BooksAfter(ss, ms, n - 1).lost, ss[n - 1], ms[n - 1], ss[n]);
    }
  }

  lemma NoPenaltyNoLoss(lost: set<Addr>, s: State, m: Move, s': State)
    requires s.penalties == map[]
    ensures m.Asked? ==> NextLost(lost, s, m.request, s') == lost
  {
  }

  lemma UntilJoined(ms: seq<Move>)
    requires ms == STEPS[..2]
    ensures IsLife([EMPTY, LOADED, JOINED], ms)
  {
    JobLoaded(POLICY, SPEC);
    Grow([EMPTY], [], STEPS[0], EMPTY, LOADED);
    assert [EMPTY] + [LOADED] == [EMPTY, LOADED] && [] + [STEPS[0]] == STEPS[..1];
    SquatterJoins(POLICY, SPEC);
    Grow([EMPTY, LOADED], STEPS[..1], STEPS[1], LOADED, JOINED);
    assert [EMPTY, LOADED] + [JOINED] == [EMPTY, LOADED, JOINED] && STEPS[..1] + [STEPS[1]] == ms;
  }

  lemma UntilHolding(ms: seq<Move>)
    requires ms == STEPS[..3] && IsLife([EMPTY, LOADED, JOINED], STEPS[..2])
    ensures IsLife([EMPTY, LOADED, JOINED, HOLDING], ms)
  {
    SquatterHolds(POLICY, SPEC);
    Grow([EMPTY, LOADED, JOINED], STEPS[..2], STEPS[2], JOINED, HOLDING);
    assert [EMPTY, LOADED, JOINED] + [HOLDING] == [EMPTY, LOADED, JOINED, HOLDING] && STEPS[..2] + [STEPS[2]] == ms;
  }

  lemma FirstBackoff(n: u32)
    requires n >= 1
    ensures 30 < SatAdd(20, Min(3_600 * Pow2(n - 1), 7 * 86_400))
  {
    Pow2Grows(0, n - 1);
  }

  lemma SquatterIsRefused(ss: seq<State>, ms: seq<Move>, bs: seq<Books>)
    requires Kept(ss, ms, bs) && Opening(ss[0], bs[0], 0) && |ms| == 5 && Timed(0, ms)
    requires ms[3].Asked? && At(ms[3]) == 20 && At(ms[4]) == 30
    requires Charged(ss[3], ms[3].request, SQUATTER) && SQUATTER !in bs[4].lost
    ensures Lease(ss[4], SQUATTER, 30).1.Err?
  {
    var n := Entry(bs[4].ledger, SQUATTER).noshows;
    if n >= 1 {
      FirstBackoff(n);
    }
    BackoffHolds(0, ss, ms, bs, 3, 4, SQUATTER);
  }

  lemma HoldingLapses(s: State, r: Request)
    requires s == HOLDING && r.step == PollStep(SQUATTER) && r.now == 20
    ensures Charged(s, r, SQUATTER)
  {
    assert JOB in LapsedOf(s, s.jobs.Keys, SQUATTER, 20);
  }

  lemma TheStates(ms: seq<Move>, first: seq<State>) returns (ss: seq<State>)
    requires ms == STEPS && first == [EMPTY, LOADED, JOINED, HOLDING] && IsLife(first, ms[..3])
    ensures IsLife(ss, ms) && ss[0] == EMPTY && ss[1] == LOADED && ss[2] == JOINED && ss[3] == HOLDING
  {
    ss := GrowTwice(first, ms[..3], ms[3], ms[4]);
    assert ms[..3] + [ms[3]] + [ms[4]] == ms;
  }

  lemma NoShowAfter(ms: seq<Move>, ss: seq<State>, holding: State) returns (bs: seq<Books>)
    requires IsLife(ss, ms) && |ms| == 5 && Timed(0, ms) && ms[3].Asked? && At(ms[3]) == 20 && At(ms[4]) == 30
    requires ss[0] == EmptyState(POLICY) && forall k | 0 <= k < 4 :: ss[k].penalties == map[]
    requires ss[3] == holding && Charged(holding, ms[3].request, SQUATTER)
    ensures Kept(ss, ms, bs) && Lease(ss[4], SQUATTER, 30).1.Err?
  {
    bs := BooksAlong(ss, ms);
    BooksAlongAreKept(ss, ms);
    NothingLostYet(ss, ms, 4);
    EmptyOpening(POLICY, 0);
    SquatterIsRefused(ss, ms, bs);
  }

  /** The conditions of back-off are met by a life: register, lease at 0, be charged at 20, poll at 30. */
  lemma ANoShowThatCosts(ms: seq<Move>) returns (ss: seq<State>, bs: seq<Books>)
    requires ms == STEPS
    ensures Kept(ss, ms, bs) && Charged(ss[3], ms[3].request, SQUATTER)
    ensures Lease(ss[4], SQUATTER, 30).1.Err?
  {
    UntilJoined(ms[..2]);
    UntilHolding(ms[..3]);
    ss := TheStates(ms, [EMPTY, LOADED, JOINED, HOLDING]);
    HoldingLapses(HOLDING, ms[3].request);
    bs := NoShowAfter(ms, ss, HOLDING);
  }
}
