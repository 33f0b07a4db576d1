/** What the scheduler promises on every run: best job first, vouched-only top tier, no second
    offer after a lapse, and leases that last exactly as long as their holder heartbeats. */
module LeaseTheorems {
  import opened Base
  import opened LeaseSpec
  import opened LeaseRuns
  import opened LeaseInvariants

  // ---- what a poll grants -----------------------------------------------------------

  /** Does job `a` come before job `b` when both could be granted? */
  predicate Better(s: State, a: JobId, b: JobId)
    requires a in s.jobs && b in s.jobs
  {
    || Rank(s.jobs[a].spec.tier) > Rank(s.jobs[b].spec.tier)
    || (Rank(s.jobs[a].spec.tier) == Rank(s.jobs[b].spec.tier) && a < b)
  }

  /** May `w` be given work at all at `now`, leases already expired? */
  ghost predicate MayLease(s: State, w: Addr, now: u64)
    requires w in s.workers
  {
    var g := SourceGroup(s.workers[w].source);
    && s.workers[w].cooldownUntil <= now
    && HeldBy(s, w) == {}
    && (w in s.policy.trusted ||
        ((g in s.sources ==> s.sources[g].cooldownUntil <= now)
         && |LeasesOfGroup(s, g)| < s.policy.maxLeasesPerSource))
  }

  /** A poll is granted exactly the best eligible job, answers "nothing available" exactly when
      no job is eligible, and is refused outright exactly when the worker may not lease. */
  lemma PollGrantsTheBest(s: State, w: Addr, now: u64)
    requires w in s.workers
    ensures var s1 := ExpireLeases(Touch(s, w, now), now);
            var (s', r) := Lease(s, w, now);
            && s1.jobs.Keys == s.jobs.Keys
            && (r.Ok? || r == Err(NothingAvailable) <==> MayLease(s1, w, now))
            && (r == Err(NothingAvailable) ==> forall i | i in s1.jobs :: !Eligible(s1, w, i, now))
            && (MayLease(s1, w, now) && (exists i | i in s1.jobs :: Eligible(s1, w, i, now)) ==> r.Ok?)
            && (r.Ok? ==>
                  && r.value in s1.jobs && Eligible(s1, w, r.value, now)
                  && (forall i | i in s1.jobs && i != r.value && Eligible(s1, w, i, now) :: Better(s1, r.value, i))
                  && s'.jobs == s1.jobs[r.value := s'.jobs[r.value]]
                  && s'.jobs[r.value].status.Leased? && s'.jobs[r.value].status.worker == w)
  {
    BestOfEligible(ExpireLeases(Touch(s, w, now), now), w, now);
  }

  lemma BestOfEligible(s: State, w: Addr, now: u64)
    requires w in s.workers
    ensures var eligible := EligibleJobs(s, w, now);
            && (eligible == map[] <==> forall i | i in s.jobs :: !Eligible(s, w, i, now))
            && (eligible != map[] ==>
                  var best := MinKey(eligible);
                  && best in s.jobs && Eligible(s, w, best, now)
                  && forall i | i in s.jobs && i != best && Eligible(s, w, i, now) :: Better(s, best, i))
  {
    var eligible := EligibleJobs(s, w, now);
    assert forall i | i in s.jobs && Eligible(s, w, i, now) :: i in eligible;
    if eligible != map[] {
      assert MinKey(eligible) in eligible;
    }
  }

  // ---- what one request does to one job -----------------------------------------------

  /** The lease, if any, that a request grants. */
  ghost predicate Grants(s: State, r: Request, i: JobId) {
    r.step.PollStep? && Lease(s, r.step.worker, r.now).1 == Ok(i)
  }

  /** `j` may become `j'` by a request that `grants` it or not: the job and its failures are
      kept, and without a grant it is left alone, returned to the pool, extended or finished. */
  ghost predicate JobMove(j: Job, j': Job, grants: bool, w: Addr) {
    && j'.spec == j.spec && j.failedBy <= j'.failedBy && j.failedBySources <= j'.failedBySources
    && (j'.status.Leased? && !grants ==> j.status.Leased? && j'.status.worker == j.status.worker)
    && (grants ==> w !in j'.failedBy)
  }

  lemma PollMoves(s: State, w: Addr, now: u64, i: JobId)
    requires w in s.workers && i in s.jobs
    ensures var (s', r) := Lease(s, w, now);
            i in s'.jobs && s'.policy == s.policy && JobMove(s.jobs[i], s'.jobs[i], r == Ok(i), w)
  {
    PollGrantsTheBest(s, w, now);
  }

  lemma ForgetLeavesJobs(s: State, id: Addr, now: u64)
    ensures var s' := ForgetWorker(s, id, now); s'.jobs == s.jobs && s'.policy == s.policy
  {
  }

  lemma SourceRoomLeavesJobs(s: State, source: Source, now: u64)
    ensures var r := MakeRoomForSource(s, source, now);
            r.Ok? ==> r.value.jobs == s.jobs && r.value.policy == s.policy
  {
    if StaleSlots(s, source, now) != map[] {
      ForgetLeavesJobs(s, MinKey(StaleSlots(s, source, now)), now);
    }
  }

  lemma RegistryRoomLeavesJobs(s: State, holders: set<Addr>, now: u64)
    ensures var r := MakeRoomInRegistry(s, holders, now);
            r.Ok? ==> r.value.jobs == s.jobs && r.value.policy == s.policy
  {
    if Evictable(s, holders) != map[] {
      ForgetLeavesJobs(s, MinKey(Evictable(s, holders)), now);
    }
  }

  lemma RegisterLeavesJobs(s: State, id: Addr, capability: Capability, source: Source, now: u64)
    ensures var s' := Register(s, id, capability, source, now).0; s'.jobs == s.jobs && s'.policy == s.policy
  {
    if id !in s.workers {
      var s0 := s.(dirty := true);
      SourceRoomLeavesJobs(s0, source, now);
      var room := if id in s.policy.trusted then Ok(s0) else MakeRoomForSource(s0, source, now);
      if room.Ok? {
        RegistryRoomLeavesJobs(room.value, Holders(s, now), now);
      }
    }
  }

  /** Every request's effect on every job. */
  lemma ApplyMoves(s: State, r: Request, i: JobId)
    requires i in s.jobs
    ensures var s' := Apply(s, r.step, r.now);
            && i in s'.jobs && s'.policy == s.policy
            && JobMove(s.jobs[i], s'.jobs[i], Grants(s, r, i), if r.step.PollStep? then r.step.worker else 0)
  {
    match r.step
    case PollStep(w) => if w in s.workers { PollMoves(s, w, r.now, i); }
    case RegisterStep(key, capability, source) => RegisterLeavesJobs(s, key, capability, source, r.now);
    case AddJobStep(_, _) =>
    case NoteStep(_, _, _) =>
    case HeartbeatStep(w, k) => RenewMoves(s, w, k, r.now, i);
    case SubmitStep(w, k, result) => SubmitMoves(s, w, k, result, r.now, i);
    case ExpireStep =>
  }

  lemma RenewMoves(s: State, w: Addr, k: JobId, now: u64, i: JobId)
    requires i in s.jobs
    ensures var s' := Renew(s, w, k, now).0; i in s'.jobs && s'.policy == s.policy && JobMove(s.jobs[i], s'.jobs[i], false, 0)
  {
  }

  lemma SubmitMoves(s: State, w: Addr, k: JobId, result: string, now: u64, i: JobId)
    requires i in s.jobs
    ensures var s' := Submit(s, w, k, result, now).0;
            i in s'.jobs && s'.policy == s.policy && JobMove(s.jobs[i], s'.jobs[i], false, 0)
  {
  }

  lemma RequestOnJob(s: State, r: Request, i: JobId)
    requires i in s.jobs
    ensures var s' := Mutate(s, r);
            && i in s'.jobs && s'.policy == s.policy
            && JobMove(s.jobs[i], s'.jobs[i], Grants(s, r, i), if r.step.PollStep? then r.step.worker else 0)
  {
    ApplyMoves(s, r, i);
    MutateIsApply(s, r);
  }

  // ---- vouched workers stay ---------------------------------------------------------------

  lemma PollKeepsRegistry(s: State, w: Addr, now: u64)
    requires w in s.workers
    ensures Lease(s, w, now).0.workers.Keys == s.workers.Keys && Lease(s, w, now).0.policy == s.policy
  {
    var s1 := Touch(s, w, now);
    assert s1.workers.Keys == s.workers.Keys;
    assert ExpireLeases(s1, now).workers.Keys == s1.workers.Keys;
    AssignLeavesBooks(ExpireLeases(s1, now), w, now);
  }

  lemma AssignLeavesBooks(s: State, w: Addr, now: u64)
    requires w in s.workers
    ensures var s' := Assign(s, w, now).0;
            s'.workers == s.workers && s'.policy == s.policy && s'.penalties == s.penalties && s'.sources == s.sources
  {
  }

  /** Only registrations move keys in or out of the registry. */
  lemma RegistryFixed(s: State, step: Step, now: u64)
    requires !step.RegisterStep?
    ensures var s' := Apply(s, step, now); s'.workers.Keys == s.workers.Keys && s'.policy == s.policy
  {
    match step
    case PollStep(w) => if w in s.workers { PollKeepsRegistry(s, w, now); }
    case AddJobStep(_, _) =>
    case NoteStep(_, _, _) =>
    case HeartbeatStep(_, _) =>
    case SubmitStep(_, _, _) =>
    case ExpireStep =>
  }

  lemma RequestKeepsVouched(s: State, t: u64, r: Request, v: Addr)
    requires Core(s, t) && t <= r.now && v in s.workers && v in s.policy.trusted
    ensures v in Mutate(s, r).workers
  {
    MutateIsApply(s, r);
    if r.step.RegisterStep? {
      LaterIsFine(s, t, r.now);
      RegisterKeeps(s, r.step.key, r.step.capability, r.step.source, r.now);
    } else {
      RegistryFixed(s, r.step, r.now);
    }
  }

  lemma PolicyFixed(s: State, r: Request)
    ensures Mutate(s, r).policy == s.policy
  {
    MutateIsApply(s, r);
    if r.step.RegisterStep? {
      RegisterLeavesJobs(s, r.step.key, r.step.capability, r.step.source, r.now);
    } else {
      RegistryFixed(s, r.step, r.now);
    }
  }

  // ---- how long a lease lasts ---------------------------------------------------------------

  /** A grant at `now` gives one window, and the job's own length as the hard deadline. */
  lemma GrantedLease(s: State, w: Addr, now: u64)
    requires Lease(s, w, now).1.Ok?
    ensures var (s', r) := Lease(s, w, now);
            && r.value in s'.jobs
            && var d := SatAdd(now, s'.jobs[r.value].spec.leaseSecs);
               s'.jobs[r.value].status == Leased(w, Min(SatAdd(now, s'.policy.leaseWindow), d), d)
  {
    PollGrantsTheBest(s, w, now);
  }

  predicate IsBeat(r: Request, w: Addr, i: JobId) {
    r.step == HeartbeatStep(w, i)
  }

  predicate Submits(r: Request, w: Addr, i: JobId) {
    r.step.SubmitStep? && r.step.worker == w && r.step.job == i
  }

  lemma PollLeavesLive(s: State, w: Addr, now: u64, i: JobId)
    requires w in s.workers && i in s.jobs && Live(s.jobs[i].status, now)
    ensures i in Lease(s, w, now).0.jobs && Lease(s, w, now).0.jobs[i].status == s.jobs[i].status
  {
    PollGrantsTheBest(s, w, now);
  }

  lemma StrangersLeaveLease(s: State, v: Addr, k: JobId, result: string, now: u64, w: Addr, i: JobId)
    requires i in s.jobs && s.jobs[i].status.Leased? && s.jobs[i].status.worker == w && !(v == w && k == i)
    ensures i in Renew(s, v, k, now).0.jobs && Renew(s, v, k, now).0.jobs[i] == s.jobs[i]
    ensures i in Submit(s, v, k, result, now).0.jobs && Submit(s, v, k, result, now).0.jobs[i] == s.jobs[i]
  {
  }

  /** A live lease is out of everyone else's reach. */
  lemma OthersLeaveLiveLease(s: State, t: u64, r: Request, w: Addr, i: JobId)
    requires t <= r.now && i in s.jobs
    requires Live(s.jobs[i].status, r.now) && s.jobs[i].status.worker == w
    requires !IsBeat(r, w, i) && !Submits(r, w, i)
    ensures i in Mutate(s, r).jobs && Mutate(s, r).jobs[i].status == s.jobs[i].status
  {
    MutateIsApply(s, r);
    match r.step
    case RegisterStep(key, capability, source) => RegisterLeavesJobs(s, key, capability, source, r.now);
    case PollStep(v) => if v in s.workers { PollLeavesLive(s, v, r.now, i); }
    case AddJobStep(_, _) =>
    case NoteStep(_, _, _) =>
    case HeartbeatStep(v, k) => StrangersLeaveLease(s, v, k, "", r.now, w, i);
    case SubmitStep(v, k, result) => StrangersLeaveLease(s, v, k, result, r.now, w, i);
    case ExpireStep =>
  }

  /** A heartbeat before expiry moves the lease to one window from now, or to its deadline. */
  lemma BeatExtends(s: State, t: u64, r: Request, w: Addr, i: JobId, last: u64, d: u64)
    requires JobsOk(s, t) && last <= t <= r.now && i in s.jobs && d != 0
    requires s.jobs[i].status == Leased(w, Min(SatAdd(last, s.policy.leaseWindow), d), d)
    requires Live(s.jobs[i].status, r.now) && IsBeat(r, w, i)
    ensures i in Mutate(s, r).jobs
         && Mutate(s, r).jobs[i].status == Leased(w, Min(SatAdd(r.now, s.policy.leaseWindow), d), d)
  {
    assert JobOk(s.jobs[i], s.policy, t);
    assert LeaseholderError(s, w, i, r.now).None?;
    MutateIsApply(s, r);
    assert Apply(s, r.step, r.now).jobs[i].status == Leased(w, Min(SatAdd(r.now, s.policy.leaseWindow), d), d);
  }

  /** Every request comes while the lease is still live, counting `w`'s heartbeats on job `i`,
      the latest so far at `last`; and `w` has not submitted yet. */
  ghost predicate Attentive(rs: seq<Request>, w: Addr, i: JobId, last: u64, window: u64, d: u64)
    decreases |rs|
  {
    rs == [] ||
    (&& rs[0].now < Min(SatAdd(last, window), d)
     && !Submits(rs[0], w, i)
     && Attentive(rs[1..], w, i, if IsBeat(rs[0], w, i) then rs[0].now else last, window, d))
  }

  ghost function LastBeat(rs: seq<Request>, w: Addr, i: JobId, last: u64): u64
    decreases |rs|
  {
    if rs == [] then last else LastBeat(rs[1..], w, i, if IsBeat(rs[0], w, i) then rs[0].now else last)
  }

  /** Renewal in closed form: whatever others do meanwhile, after the latest accepted heartbeat
      the lease ends at exactly one window from it or at the deadline, whichever is first. */
  lemma {:induction false} RenewalClosedForm(s: State, t: u64, rs: seq<Request>, w: Addr, i: JobId, last: u64, d: u64)
    requires Core(s, t) && Clocked(t, rs) && last <= t && i in s.jobs && d != 0
    requires s.jobs[i].status == Leased(w, Min(SatAdd(last, s.policy.leaseWindow), d), d)
    requires Attentive(rs, w, i, last, s.policy.leaseWindow, d)
    ensures var s' := Run(s, rs);
            i in s'.jobs
            && s'.jobs[i].status == Leased(w, Min(SatAdd(LastBeat(rs, w, i, last), s.policy.leaseWindow), d), d)
    decreases |rs|
  {
    if rs != [] {
      if IsBeat(rs[0], w, i) {
        BeatExtends(s, t, rs[0], w, i, last, d);
      } else {
        OthersLeaveLiveLease(s, t, rs[0], w, i);
      }
      MutateKeeps(s, t, rs[0]);
      PolicyFixed(s, rs[0]);
      RenewalClosedForm(Mutate(s, rs[0]), rs[0].now, rs[1..], w, i,
                        if IsBeat(rs[0], w, i) then rs[0].now else last, d);
    }
  }

  /** `w` beats every `HEARTBEAT_INTERVAL_SECS`, missing at most two in a row, and the run ends
      before the deadline. */
  const HEARTBEAT_INTERVAL_SECS: u64 := 240

  ghost predicate BeatsWithTwoMisses(rs: seq<Request>, w: Addr, i: JobId, last: u64, d: u64)
    decreases |rs|
  {
    rs == [] ||
    (&& rs[0].now <= last + 3 * HEARTBEAT_INTERVAL_SECS && rs[0].now < d
     && !Submits(rs[0], w, i)
     && BeatsWithTwoMisses(rs[1..], w, i, if IsBeat(rs[0], w, i) then rs[0].now else last, d))
  }

  /** With the default window of 900 s, two missed heartbeats in a row never lose a lease. */
  lemma {:induction false} TwoMissesAreFine(rs: seq<Request>, w: Addr, i: JobId, last: u64, window: u64, d: u64)
    requires window >= 900 && BeatsWithTwoMisses(rs, w, i, last, d)
    ensures Attentive(rs, w, i, last, window, d)
    decreases |rs|
  {
    if rs != [] {
      TwoMissesAreFine(rs[1..], w, i, if IsBeat(rs[0], w, i) then rs[0].now else last, window, d);
    }
  }

  /** So such a worker still holds its lease at every request up to the deadline, whatever others do. */
  lemma TwoMissesKeepTheLease(s: State, t: u64, rs: seq<Request>, w: Addr, i: JobId, last: u64, d: u64, k: nat)
    requires Core(s, t) && Clocked(t, rs) && last <= t && i in s.jobs && d != 0 && s.policy.leaseWindow >= 900
    requires s.jobs[i].status == Leased(w, Min(SatAdd(last, s.policy.leaseWindow), d), d)
    requires BeatsWithTwoMisses(rs, w, i, last, d) && k < |rs|
    ensures var s' := Run(s, rs[..k]);
            i in s'.jobs && Live(s'.jobs[i].status, rs[k].now) && s'.jobs[i].status.worker == w
  {
    TwoMissesAreFine(rs, w, i, last, s.policy.leaseWindow, d);
    AttentivePrefix(rs, w, i, last, s.policy.leaseWindow, d, k);
    ClockedPrefix(t, rs, k);
    RenewalClosedForm(s, t, rs[..k], w, i, last, d);
  }

  lemma {:induction false} ClockedPrefix(t: u64, rs: seq<Request>, k: nat)
    requires Clocked(t, rs) && k <= |rs|
    ensures Clocked(t, rs[..k])
    decreases k
  {
    if k > 0 {
      ClockedPrefix(rs[0].now, rs[1..], k - 1);
      assert rs[..k][1..] == rs[1..][..k - 1];
    }
  }

  lemma {:induction false} AttentivePrefix(rs: seq<Request>, w: Addr, i: JobId, last: u64, window: u64, d: u64, k: nat)
    requires Attentive(rs, w, i, last, window, d) && k < |rs|
    ensures Attentive(rs[..k], w, i, last, window, d)
    ensures rs[k].now < Min(SatAdd(LastBeat(rs[..k], w, i, last), window), d)
    decreases k
  {
    if k > 0 {
      AttentivePrefix(rs[1..], w, i, if IsBeat(rs[0], w, i) then rs[0].now else last, window, d, k - 1);
      assert rs[..k][1..] == rs[1..][..k - 1];
    }
  }
}
