/** A polling vouched worker gets a squatted job in bounded time, whatever the squatters do and however
    often the coordinator restarts. */
module BoundedWaiting {
  import opened Base
  import opened LeaseSpec
  import opened LeaseRuns
  import opened LeaseInvariants
  import opened LeaseTheorems
  import opened LeaseLives

  // ---- reservations ------------------------------------------------------------------------

  /** Requests that return job `i` to the pool because its lease has lapsed. */
  predicate FindsLapsed(s: State, r: Request, i: JobId) {
    && (r.step.ExpireStep? || (r.step.PollStep? && r.step.worker in s.workers))
    && i in s.jobs && Lapsed(s.jobs[i].status, r.now)
  }

  /** A hold is set by a request that finds the lease lapsed, for 900 s, and by nothing else. */
  ghost predicate HoldMoved(s: State, r: Request, s': State, i: JobId) {
    && i in s'.jobs
    && if i in s.jobs then
         && s'.jobs[i].spec == s.jobs[i].spec
         && s'.jobs[i].heldUntil == if FindsLapsed(s, r, i) then SatAdd(r.now, LAPSE_HOLD_SECS) else s.jobs[i].heldUntil
       else s'.jobs[i].heldUntil == 0
  }

  predicate HoldKept(s: State, s': State, i: JobId) {
    i in s.jobs ==> i in s'.jobs && s'.jobs[i].heldUntil == s.jobs[i].heldUntil && s'.jobs[i].spec == s.jobs[i].spec
  }

  lemma AssignKeepsHold(s: State, w: Addr, now: u64, i: JobId)
    requires w in s.workers
    ensures HoldKept(s, Assign(s, w, now).0, i) && Assign(s, w, now).0.jobs.Keys == s.jobs.Keys
  {
    BestOfEligible(s, w, now);
  }

  lemma ExpireMovesHold(s: State, now: u64, i: JobId)
    ensures HoldMoved(s, Request(ExpireStep, now, true), ExpireLeases(s, now), i) || i !in s.jobs
    ensures ExpireLeases(s, now).jobs.Keys == s.jobs.Keys
  {
  }

  lemma PollMovesHold(s: State, w: Addr, now: u64, saved: bool, i: JobId)
    requires i in Lease(s, w, now).0.jobs
    ensures HoldMoved(s, Request(PollStep(w), now, saved), Lease(s, w, now).0, i)
  {
    if w in s.workers {
      var t := Touch(s, w, now);
      ExpireMovesHold(t, now, i);
      AssignKeepsHold(ExpireLeases(t, now), w, now, i);
    }
  }

  lemma RenewKeepsHold(s: State, w: Addr, k: JobId, now: u64, i: JobId)
    ensures HoldKept(s, Renew(s, w, k, now).0, i) && Renew(s, w, k, now).0.jobs.Keys == s.jobs.Keys
  {
  }

  lemma SubmitKeepsHold(s: State, w: Addr, k: JobId, result: string, now: u64, i: JobId)
    ensures HoldKept(s, Submit(s, w, k, result, now).0, i) && Submit(s, w, k, result, now).0.jobs.Keys == s.jobs.Keys
  {
  }

  lemma ApplyMovesHold(s: State, r: Request, i: JobId)
    requires i in Apply(s, r.step, r.now).jobs
    ensures HoldMoved(s, r, Apply(s, r.step, r.now), i)
  {
    match r.step
    case PollStep(w) => PollMovesHold(s, w, r.now, r.saved, i);
    case RegisterStep(key, c, source) => RegisterLeavesJobs(s, key, c, source, r.now);
    case HeartbeatStep(w, k) => RenewKeepsHold(s, w, k, r.now, i);
    case SubmitStep(w, k, result) => SubmitKeepsHold(s, w, k, result, r.now, i);
    case ExpireStep => ExpireMovesHold(s, r.now, i);
    case AddJobStep(_, _) =>
    case NoteStep(_, _, _) =>
  }

  lemma RequestMovesHold(s: State, r: Request, i: JobId)
    requires i in Mutate(s, r).jobs
    ensures HoldMoved(s, r, Mutate(s, r), i)
  {
    MutateIsApply(s, r);
    ApplyMovesHold(s, r, i);
  }

  /** A held job, at any point of any life from an empty coordinator, was found lapsed by an earlier
      request, and is held for 900 s from then. */
  lemma {:induction false} HeldSinceALapse(ss: seq<State>, ms: seq<Move>, t: u64, policy: Policy, n: nat, i: JobId)
    returns (m: nat)
    requires IsLife(ss, ms) && Timed(t, ms) && ss[0] == EmptyState(policy) && n <= |ms|
    requires i in ss[n].jobs && ss[n].jobs[i].heldUntil != 0
    ensures m < n && ms[m].Asked? && FindsLapsed(ss[m], ms[m].request, i)
    ensures ss[m].jobs[i].spec == ss[n].jobs[i].spec
    ensures ss[n].jobs[i].heldUntil == SatAdd(At(ms[m]), LAPSE_HOLD_SECS)
  {
    HoldAt(ss, ms, t, n - 1, i);
    if HeldBefore(ss, ms, t, n - 1, i) {
      m := HeldSinceALapse(ss, ms, t, policy, n - 1, i);
    } else {
      m := n - 1;
    }
  }

  /** Did job `i` have its hold already before move `k`? */
  ghost predicate HeldBefore(ss: seq<State>, ms: seq<Move>, t: u64, k: int, i: JobId)
    requires IsLife(ss, ms)
  {
    0 <= k < |ms| && i in ss[k].jobs && !(ms[k].Asked? && FindsLapsed(ss[k], ms[k].request, i))
  }

  lemma HoldAt(ss: seq<State>, ms: seq<Move>, t: u64, k: nat, i: JobId)
    requires IsLife(ss, ms) && Timed(t, ms) && k < |ms| && i in ss[k + 1].jobs && ss[k + 1].jobs[i].heldUntil != 0
    ensures i in ss[k].jobs && ss[k].jobs[i].spec == ss[k + 1].jobs[i].spec
    ensures HeldBefore(ss, ms, t, k, i) ==> ss[k].jobs[i].heldUntil == ss[k + 1].jobs[i].heldUntil
    ensures !HeldBefore(ss, ms, t, k, i) ==>
              ms[k].Asked? && FindsLapsed(ss[k], ms[k].request, i)
              && ss[k + 1].jobs[i].heldUntil == SatAdd(At(ms[k]), LAPSE_HOLD_SECS)
  {
    LifeAt(ss, ms, t, k);
    match ms[k]
    case Asked(r) => RequestMovesHold(ss[k], r, i);
    case Resumed(now) => assert JobResumed(ss[k].jobs[i], ss[k + 1].jobs[i], ss[k].policy.leaseWindow, now);
  }

  /** No reservation outlasts `reservation_cap(lease_secs)`: if a job is reserved for vouched workers at
      `now`, an earlier request found its lease lapsed less than that long ago, seven days at most; for
      the lowest tier, less than 900 s ago. */
  lemma ReservationEnds(ss: seq<State>, ms: seq<Move>, t: u64, policy: Policy, n: nat, i: JobId, now: u64)
    returns (m: nat)
    requires IsLife(ss, ms) && Timed(t, ms) && ss[0] == EmptyState(policy) && n <= |ms|
    requires i in ss[n].jobs && ReservedForVouched(ss[n], ss[n].jobs[i], now)
    ensures m < n && ms[m].Asked? && FindsLapsed(ss[m], ms[m].request, i)
    ensures now < At(ms[m]) + ReservationCap(ss[n].jobs[i].spec.leaseSecs)
    ensures ReservationCap(ss[n].jobs[i].spec.leaseSecs) <= RESERVATION_MAX_SECS
    ensures ss[n].jobs[i].spec.tier == Probe ==> now < At(ms[m]) + LAPSE_HOLD_SECS
  {
    m := HeldSinceALapse(ss, ms, t, policy, n, i);
  }

  // ---- waiting --------------------------------------------------------------------------------

  /** The job is finished, or a vouched worker holds it. */
  predicate InGoodHands(s: State, i: JobId) {
    i in s.jobs &&
    var st := s.jobs[i].status;
    st.Done? || (st.Leased? && st.worker in s.policy.trusted)
  }

  /** The latest of `v`'s polls among the first `k` moves, or `last` if there is none. */
  ghost function LastPoll(ms: seq<Move>, v: Addr, last: u64, k: nat): u64
    requires k <= |ms|
  {
    if k == 0 then last else NextPoll(ms[k - 1], v, LastPoll(ms, v, last, k - 1))
  }

  predicate IsPoll(m: Move, v: Addr) {
    m.Asked? && m.request.step == PollStep(v)
  }

  ghost function NextPoll(m: Move, v: Addr, last: u64): u64 {
    if IsPoll(m, v) then At(m) else last
  }

  /** `v` polls while idle and not cooling down, and job `i` is its best choice: it comes before every
      other job `v` could be granted by this poll. */
  ghost predicate IdlePoll(s: State, v: Addr, i: JobId, now: u64)
    requires i in s.jobs && v in s.workers
  {
    && HeldBy(s, v) == {}
    && s.workers[v].cooldownUntil <= now
    && RoundOpen(s, v, s.jobs[i].spec.payload)
    && var s1 := ExpireLeases(Touch(s, v, now), now);
       forall k | k in s1.jobs && k != i && Eligible(s1, v, k, now) :: k in s.jobs && Better(s, i, k)
  }

  /** `v` polls at least every `period` seconds, the last time before the run at `last`, always
      as in `IdlePoll`, and never claims less than job `i` needs. Everything else is up to the
      adversary, restarts included. */
  ghost predicate Vigilant(ss: seq<State>, ms: seq<Move>, v: Addr, i: JobId, last: u64, period: u64)
    requires |ss| == |ms| + 1
  {
    forall k | 0 <= k < |ms| :: VigilantThrough(ss, ms, v, i, last, period, k)
  }

  ghost predicate VigilantThrough(ss: seq<State>, ms: seq<Move>, v: Addr, i: JobId, last: u64, period: u64, k: nat)
    requires k < |ms| && |ss| == |ms| + 1
  {
    VigilantAt(ss[k], ms[k], v, i, LastPoll(ms, v, last, k), period)
  }

  ghost predicate VigilantAt(s: State, m: Move, v: Addr, i: JobId, last: u64, period: u64) {
    && At(m) <= last + period
    && (i in s.jobs && v in s.workers ==>
          && (IsPoll(m, v) ==> IdlePoll(s, v, i, At(m)))
          && (m.Asked? && m.request.step.RegisterStep? && m.request.step.key == v ==>
                Satisfies(m.request.step.capability, s.jobs[i].spec.tier)))
  }

  /** Where the wait stands: `v` can take the job, which is squatted until `d` at the latest,
      or back in the pool and reserved beyond `v`'s next poll. */
  ghost predicate Waiting(s: State, v: Addr, i: JobId, last: u64, period: u64, d: u64) {
    && i in s.jobs && v in s.workers && v in s.policy.trusted
    && v !in s.jobs[i].failedBy
    && Satisfies(s.workers[v].capability, s.jobs[i].spec.tier)
    && var st := s.jobs[i].status;
       || (st.Leased? && st.worker !in s.policy.trusted && st.expiresAt <= Hard(st) <= d)
       || (st == Pending && s.jobs[i].heldUntil > last + period)
  }

  // ---- one step of the wait ---------------------------------------------------------

  /** Expiring leases, seen from the awaited job: a squatted lease lapses into a fresh hold. */
  lemma ExpireWaits(s: State, v: Addr, i: JobId, last: u64, period: u64, d: u64, now: u64)
    requires Waiting(s, v, i, last, period, d) && last <= now && period < LAPSE_HOLD_SECS && last + period < MAX64
    ensures var s' := ExpireLeases(s, now);
            && Waiting(s', v, i, last, period, d)
            && s'.policy == s.policy && s'.jobs[i].spec == s.jobs[i].spec
            && s'.workers[v].capability == s.workers[v].capability
            && !Lapsed(s'.jobs[i].status, now)
  {
  }

  /** While the hold lasts an unvouched poller is not given the job; a vouched one may be. */
  lemma AssignWaits(s: State, x: Addr, v: Addr, i: JobId, last: u64, period: u64, d: u64, now: u64)
    requires Waiting(s, v, i, last, period, d) && x in s.workers && now <= last + period
    ensures var s' := Assign(s, x, now).0; Waiting(s', v, i, last, period, d) || InGoodHands(s', i)
  {
    BestOfEligible(s, x, now);
  }

  lemma PollWaits(s: State, x: Addr, v: Addr, i: JobId, last: u64, period: u64, d: u64, now: u64)
    requires Waiting(s, v, i, last, period, d) && last <= now <= last + period
    requires period < LAPSE_HOLD_SECS && last + period < MAX64
    ensures var s' := Lease(s, x, now).0; Waiting(s', v, i, last, period, d) || InGoodHands(s', i)
  {
    if x in s.workers {
      var s1 := Touch(s, x, now);
      assert Waiting(s1, v, i, last, period, d);
      ExpireWaits(s1, v, i, last, period, d, now);
      AssignWaits(ExpireLeases(s1, now), x, v, i, last, period, d, now);
    }
  }

  /** An idle worker is charged nothing and holds nothing after the pass. */
  lemma IdleThroughExpiry(s: State, v: Addr, now: u64)
    requires v in s.workers && HeldBy(s, v) == {}
    ensures var s1 := ExpireLeases(Touch(s, v, now), now);
            && v in s1.workers && HeldBy(s1, v) == {}
            && s1.workers[v].cooldownUntil == s.workers[v].cooldownUntil
            && s1.workers[v].capability == s.workers[v].capability
            && RoundsOf(s1, v) <= RoundsOf(s, v)
            && s1.policy == s.policy && s1.jobs.Keys == s.jobs.Keys
            && forall k | k in s.jobs :: s1.jobs[k].spec == s.jobs[k].spec
  {
    var t := Touch(s, v, now);
    var s1 := ExpireLeases(t, now);
    assert forall k | k in s.jobs && s.jobs[k].status.Leased? && s.jobs[k].status.worker == v :: k in HeldBy(s, v);
    assert LapsedOf(t, t.jobs.Keys, v, now) == {};
    forall k | k in s1.jobs && HoldsOrFinished(s1.jobs[k], v) ensures HoldsOrFinished(s.jobs[k], v) {
    }
  }

  /** `v`'s own poll: the job is taken if it is in the pool, and otherwise still squatted, so
      its deadline is still ahead. */
  lemma OwnPoll(s: State, v: Addr, i: JobId, last: u64, period: u64, d: u64, now: u64)
    requires Waiting(s, v, i, last, period, d) && last <= now <= last + period
    requires period < LAPSE_HOLD_SECS && last + period < MAX64
    requires IdlePoll(s, v, i, now)
    ensures var s' := Lease(s, v, now).0;
            InGoodHands(s', i) || (now < d && Waiting(s', v, i, now, period, d))
  {
    var t := Touch(s, v, now);
    assert Waiting(t, v, i, last, period, d);
    ExpireWaits(t, v, i, last, period, d, now);
    IdleThroughExpiry(s, v, now);
    var s1 := ExpireLeases(t, now);
    if s1.jobs[i].status == Pending {
      TakesTheJob(s, s1, v, i, now);
    } else {
      AssignWaits(s1, v, v, i, last, period, d, now);
      BestOfEligible(s1, v, now);
    }
  }

  lemma TakesTheJob(s: State, s1: State, v: Addr, i: JobId, now: u64)
    requires i in s.jobs && v in s.workers && IdlePoll(s, v, i, now) && s1 == ExpireLeases(Touch(s, v, now), now)
    requires v in s1.workers && HeldBy(s1, v) == {} && s1.workers[v].cooldownUntil == s.workers[v].cooldownUntil
    requires s1.workers[v].capability == s.workers[v].capability && RoundsOf(s1, v) <= RoundsOf(s, v)
    requires s1.policy == s.policy && s1.jobs.Keys == s.jobs.Keys
    requires forall k | k in s.jobs :: s1.jobs[k].spec == s.jobs[k].spec
    requires v in s.policy.trusted && s1.jobs[i].status == Pending && v !in s1.jobs[i].failedBy
    requires Satisfies(s.workers[v].capability, s.jobs[i].spec.tier)
    ensures Assign(s1, v, now).1 == Ok(i)
  {
    assert Eligible(s1, v, i, now);
    BestOfEligible(s1, v, now);
  }

  /** Nobody else's registration moves the awaited job or the vouched worker's claim. */
  lemma RegisterWaits(s: State, t: u64, key: Addr, c: Capability, source: Source, v: Addr, i: JobId,
                      last: u64, period: u64, d: u64, now: u64)
    requires Core(s, now) && Waiting(s, v, i, last, period, d)
    requires key == v ==> Satisfies(c, s.jobs[i].spec.tier)
    ensures Waiting(Register(s, key, c, source, now).0, v, i, last, period, d)
  {
    RegisterLeavesJobs(s, key, c, source, now);
    RegisterKeeps(s, key, c, source, now);
    RegisterKeepsRecord(s, key, c, source, now, v);
  }

  /** A worker that is not the one registering keeps its record, if it keeps its place. */
  lemma RegisterKeepsRecord(s: State, key: Addr, c: Capability, source: Source, now: u64, v: Addr)
    requires v in s.workers && v in Register(s, key, c, source, now).0.workers
    ensures var w' := Register(s, key, c, source, now).0.workers[v];
            if key == v then w'.capability == c else w' == s.workers[v]
  {
    if key !in s.workers {
      var s0 := s.(dirty := true);
      var room := if key in s.policy.trusted then Ok(s0) else MakeRoomForSource(s0, source, now);
      if room.Ok? {
        SourceRoomKeepsRecords(s0, source, now);
        RegistryRoomKeepsRecords(room.value, Holders(s, now), now);
      }
    }
  }

  lemma SourceRoomKeepsRecords(s: State, source: Source, now: u64)
    ensures var r := MakeRoomForSource(s, source, now);
            r.Ok? ==> forall w | w in r.value.workers :: w in s.workers && r.value.workers[w] == s.workers[w]
  {
  }

  lemma RegistryRoomKeepsRecords(s: State, holders: set<Addr>, now: u64)
    ensures var r := MakeRoomInRegistry(s, holders, now);
            r.Ok? ==> forall w | w in r.value.workers :: w in s.workers && r.value.workers[w] == s.workers[w]
  {
  }

  /** Heartbeats and submissions: the squatter extends within its deadline or finishes. */
  lemma RenewWaits(s: State, w: Addr, k: JobId, v: Addr, i: JobId, last: u64, period: u64, d: u64, now: u64)
    requires Core(s, now) && Waiting(s, v, i, last, period, d)
    ensures Waiting(Renew(s, w, k, now).0, v, i, last, period, d)
  {
    assert JobOk(s.jobs[i], s.policy, now);
  }

  lemma SubmitWaits(s: State, w: Addr, k: JobId, result: string, v: Addr, i: JobId,
                    last: u64, period: u64, d: u64, now: u64)
    requires Core(s, now) && Waiting(s, v, i, last, period, d)
    ensures var s' := Submit(s, w, k, result, now).0; Waiting(s', v, i, last, period, d) || InGoodHands(s', i)
  {
    assert JobOk(s.jobs[i], s.policy, now);
  }

  lemma ApplyWaits(s: State, r: Request, v: Addr, i: JobId, last: u64, period: u64, d: u64)
    requires Core(s, r.now) && Waiting(s, v, i, last, period, d) && last <= r.now <= last + period
    requires period < LAPSE_HOLD_SECS && last + period < MAX64 && r.step != PollStep(v)
    requires r.step.RegisterStep? && r.step.key == v ==> Satisfies(r.step.capability, s.jobs[i].spec.tier)
    ensures var s' := Apply(s, r.step, r.now); Waiting(s', v, i, last, period, d) || InGoodHands(s', i)
  {
    match r.step
    case RegisterStep(key, c, source) => RegisterWaits(s, r.now, key, c, source, v, i, last, period, d, r.now);
    case PollStep(x) => PollWaits(s, x, v, i, last, period, d, r.now);
    case HeartbeatStep(w, k) => RenewWaits(s, w, k, v, i, last, period, d, r.now);
    case SubmitStep(w, k, result) => SubmitWaits(s, w, k, result, v, i, last, period, d, r.now);
    case ExpireStep => ExpireWaits(s, v, i, last, period, d, r.now);
    case AddJobStep(_, _) =>
    case NoteStep(_, _, _) =>
  }

  /** Saving changes nothing the wait looks at. */
  lemma SavedWaits(s: State, r: Request, v: Addr, i: JobId, last: u64, period: u64, d: u64)
    ensures var s1 := Apply(s, r.step, r.now); var s' := Mutate(s, r);
            && (Waiting(s1, v, i, last, period, d) ==> Waiting(s', v, i, last, period, d))
            && (InGoodHands(s1, i) ==> InGoodHands(s', i))
  {
    MutateIsApply(s, r);
  }

  /** A restart leaves the squatter its deadline, and the hold and the vouched worker as they were. */
  lemma ResumeWaits(s: State, s': State, now: u64, v: Addr, i: JobId, last: u64, period: u64, d: u64)
    requires Resumes(s, s', now) && Waiting(s, v, i, last, period, d)
    ensures Waiting(s', v, i, last, period, d)
  {
    assert JobResumed(s.jobs[i], s'.jobs[i], s.policy.leaseWindow, now);
    assert WorkerResumed(s.workers[v], s'.workers[v]);
  }

  lemma RequestWaits(s: State, r: Request, v: Addr, i: JobId, last: u64, period: u64, d: u64)
    requires Core(s, r.now) && last <= r.now && last < d && period < LAPSE_HOLD_SECS && d + period < MAX64
    requires Waiting(s, v, i, last, period, d) && VigilantAt(s, Asked(r), v, i, last, period)
    ensures var s' := Mutate(s, r); var p := NextPoll(Asked(r), v, last);
            InGoodHands(s', i) || (p < d && Waiting(s', v, i, p, period, d))
  {
    if r.step == PollStep(v) {
      OwnPoll(s, v, i, last, period, d, r.now);
      SavedWaits(s, r, v, i, r.now, period, d);
    } else {
      ApplyWaits(s, r, v, i, last, period, d);
      SavedWaits(s, r, v, i, last, period, d);
    }
  }

  /** One move: the wait is over, or it goes on with `v`'s latest poll before `d`. */
  lemma WaitStep(s: State, t: u64, m: Move, s': State, v: Addr, i: JobId, last: u64, period: u64, d: u64)
    requires Core(s, t) && last <= t <= At(m) && last < d && Moves(s, m, s')
    requires period < LAPSE_HOLD_SECS && d + period < MAX64
    requires Waiting(s, v, i, last, period, d) && VigilantAt(s, m, v, i, last, period)
    ensures InGoodHands(s', i)
            || (NextPoll(m, v, last) < d && Waiting(s', v, i, NextPoll(m, v, last), period, d))
  {
    match m
    case Asked(r) => LaterIsFine(s, t, r.now); RequestWaits(s, r, v, i, last, period, d);
    case Resumed(now) => ResumeWaits(s, s', now, v, i, last, period, d);
  }

  lemma {:induction false} PollsInTime(ms: seq<Move>, t: u64, v: Addr, last: u64, k: nat)
    requires Timed(t, ms) && last <= t && k <= |ms|
    ensures last <= LastPoll(ms, v, last, k) <= Clock(t, ms, k)
  {
    if k > 0 {
      PollsInTime(ms, t, v, last, k - 1);
    }
  }

  /** The wait is over by the `k`th state. */
  ghost predicate OverBy(ss: seq<State>, i: JobId, k: nat)
    requires k < |ss|
  {
    exists m | 0 <= m <= k :: InGoodHands(ss[m], i)
  }

  /** The wait goes on in the `k`th state, bounded by `d`. */
  ghost predicate OnAt(ss: seq<State>, ms: seq<Move>, t: u64, v: Addr, i: JobId, last: u64, period: u64, d: u64, k: nat)
    requires k <= |ms| && |ss| == |ms| + 1
  {
    var p := LastPoll(ms, v, last, k);
    p < d && p <= Clock(t, ms, k) && Waiting(ss[k], v, i, p, period, d)
  }

  lemma WaitAt(ss: seq<State>, t: u64, ms: seq<Move>, v: Addr, i: JobId, last: u64, period: u64, d: u64, k: nat)
    requires IsLife(ss, ms) && Timed(t, ms) && k < |ms| && Vigilant(ss, ms, v, i, last, period)
    requires SoundAt(ss, ms, t, k) && period < LAPSE_HOLD_SECS && d + period < MAX64
    requires last <= t && OnAt(ss, ms, t, v, i, last, period, d, k)
    ensures InGoodHands(ss[k + 1], i) || OnAt(ss, ms, t, v, i, last, period, d, k + 1)
  {
    LifeAt(ss, ms, t, k);
    PollsInTime(ms, t, v, last, k + 1);
    assert VigilantThrough(ss, ms, v, i, last, period, k);
    WaitStep(ss[k], Clock(t, ms, k), ms[k], ss[k + 1], v, i, LastPoll(ms, v, last, k), period, d);
  }

  /** After any number of moves the wait is over or still bounded. */
  lemma {:induction false} WaitGoesOn(ss: seq<State>, t: u64, ms: seq<Move>, v: Addr, i: JobId,
                                      last: u64, period: u64, d: u64, k: nat)
    requires IsLife(ss, ms) && Timed(t, ms) && k <= |ms| && AlwaysSound(ss, ms, t)
    requires last <= t && last < d && period < LAPSE_HOLD_SECS && d + period < MAX64
    requires Waiting(ss[0], v, i, last, period, d) && Vigilant(ss, ms, v, i, last, period)
    ensures OverBy(ss, i, k) || OnAt(ss, ms, t, v, i, last, period, d, k)
  {
    if k > 0 {
      WaitGoesOn(ss, t, ms, v, i, last, period, d, k - 1);
      if OverBy(ss, i, k - 1) {
        StaysOver(ss, i, k - 1);
      } else {
        assert SoundAt(ss, ms, t, k - 1);
        WaitAt(ss, t, ms, v, i, last, period, d, k - 1);
      }
    }
  }

  lemma StaysOver(ss: seq<State>, i: JobId, k: nat)
    requires k + 1 < |ss| && OverBy(ss, i, k)
    ensures OverBy(ss, i, k + 1)
  {
  }

  /** A life that reaches `d + period` has seen the wait end. */
  lemma WaitEnds(ss: seq<State>, t: u64, ms: seq<Move>, v: Addr, i: JobId, last: u64, period: u64, d: u64)
    requires IsLife(ss, ms) && Timed(t, ms) && Core(ss[0], t) && last <= t && last < d
    requires period < LAPSE_HOLD_SECS && d + period < MAX64
    requires Waiting(ss[0], v, i, last, period, d) && Vigilant(ss, ms, v, i, last, period)
    requires ms != [] && At(ms[|ms| - 1]) >= d + period
    ensures exists m | 0 <= m < |ms| :: InGoodHands(ss[m], i)
  {
    LifeIsSound(ss, ms, t);
    var k := |ms| - 1;
    WaitGoesOn(ss, t, ms, v, i, last, period, d, k);
    assert VigilantThrough(ss, ms, v, i, last, period, k);
  }

  /** What the waiting theorem asks of the state the squatter leaves: `v` may do the job. */
  ghost predicate MayTake(s: State, v: Addr, i: JobId) {
    && i in s.jobs && v in s.workers && v in s.policy.trusted && v !in s.jobs[i].failedBy
    && Satisfies(s.workers[v].capability, s.jobs[i].spec.tier) && 0 < s.jobs[i].spec.leaseSecs
  }

  /** The wait begins when the squatter's lease is granted. */
  lemma WaitStarts(s0: State, u: Addr, t0: u64, saved: bool, s: State, v: Addr, i: JobId, last: u64, period: u64)
    requires Core(s0, t0) && Lease(s0, u, t0).1 == Ok(i) && u !in s0.policy.trusted
    requires s == Mutate(s0, Request(PollStep(u), t0, saved)) && MayTake(s, v, i)
    requires t0 + s.jobs[i].spec.leaseSecs < MAX64
    ensures Core(s, t0) && Waiting(s, v, i, last, period, t0 + s.jobs[i].spec.leaseSecs)
  {
    var r := Request(PollStep(u), t0, saved);
    MutateKeeps(s0, t0, r);
    SquattedAt(s0, u, t0, saved, s, i);
  }

  lemma SquattedAt(s0: State, u: Addr, t0: u64, saved: bool, s: State, i: JobId)
    requires Lease(s0, u, t0).1 == Ok(i) && s == Mutate(s0, Request(PollStep(u), t0, saved))
    ensures i in s.jobs && s.policy == s0.policy
    ensures var d := SatAdd(t0, s.jobs[i].spec.leaseSecs);
            s.jobs[i].status == Leased(u, Min(SatAdd(t0, s.policy.leaseWindow), d), d)
  {
    MutateIsApply(s0, Request(PollStep(u), t0, saved));
    GrantedLease(s0, u, t0);
    PolicyFixed(s0, Request(PollStep(u), t0, saved));
  }

  /** Bounded waiting. An unvouched key leases job `i` at `t0`; a vouched worker `v` that may do
      the job polls at least every `period` < 900 s, idle and with `i` as its best choice among the
      jobs it could be granted. Then in any life that reaches `t0 + lease_secs + period`, whatever keys
      and sources are used and however often the coordinator restarts, the job has by then been
      finished or handed to a vouched worker. */
  lemma VouchedWorkerWaitsAtMost(s0: State, u: Addr, t0: u64, saved: bool, ss: seq<State>, ms: seq<Move>,
                                 v: Addr, i: JobId, last: u64, period: u64)
    requires Core(s0, t0) && Lease(s0, u, t0).1 == Ok(i) && u !in s0.policy.trusted
    requires IsLife(ss, ms) && Timed(t0, ms) && ss[0] == Mutate(s0, Request(PollStep(u), t0, saved))
    requires MayTake(ss[0], v, i) && t0 + ss[0].jobs[i].spec.leaseSecs + period < MAX64
    requires period < LAPSE_HOLD_SECS && last <= t0 && Vigilant(ss, ms, v, i, last, period)
    requires ms != [] && At(ms[|ms| - 1]) >= t0 + ss[0].jobs[i].spec.leaseSecs + period
    ensures exists m | 0 <= m < |ms| :: InGoodHands(ss[m], i)
  {
    WaitStarts(s0, u, t0, saved, ss[0], v, i, last, period);
    WaitEnds(ss, t0, ms, v, i, last, period, t0 + ss[0].jobs[i].spec.leaseSecs);
  }
}
