/** What every request keeps between two restarts. */
module LeaseInvariants {
  import opened Base
  import opened LeaseSpec
  import opened LeaseRuns

  // ---- the invariant --------------------------------------------------------------

  /** No worker holds two leases. */
  ghost predicate OneLease(s: State) {
    forall i, k | i in s.jobs && k in s.jobs && s.jobs[i].status.Leased? && s.jobs[k].status.Leased?
                  && s.jobs[i].status.worker == s.jobs[k].status.worker :: i == k
  }

  /** Whoever holds a live lease is still in the registry. */
  ghost predicate LiveRegistered(s: State, t: u64) {
    forall i | i in s.jobs && Live(s.jobs[i].status, t) :: s.jobs[i].status.worker in s.workers
  }

  ghost function LiveOfGroup(s: State, g: Group, t: u64): set<JobId> {
    set i | i in s.jobs && Live(s.jobs[i].status, t) && HolderInGroup(s, s.jobs[i].status.worker, g)
  }

  /** No source group's unvouched workers hold more live leases than the cap. */
  ghost predicate GroupCap(s: State, t: u64) {
    forall g :: |LiveOfGroup(s, g, t)| <= s.policy.maxLeasesPerSource
  }

  /** The maps stay within their bounds, and a key is in the registry or among the penalties, not both. */
  ghost predicate Bounds(s: State) {
    && |s.workers| <= MAX_WORKERS && |s.penalties| <= MAX_WORKERS && |s.sources| <= MAX_SOURCES
    && s.workers.Keys !! s.penalties.Keys
  }

  ghost predicate SlotCap(s: State) {
    forall source :: |SlotsOf(s, source)| <= s.policy.maxWorkersPerSource
  }

  /** A lease ends within one window of the clock and by its deadline, and neither it nor a
      finished job belongs to a worker the policy or the job rules out. */
  ghost predicate JobOk(j: Job, p: Policy, t: u64) {
    && (j.status.Leased? ==>
          && j.status.expiresAt <= Hard(j.status)
          && j.status.expiresAt <= SatAdd(t, p.leaseWindow)
          && j.status.worker !in j.failedBy)
    && (j.status.Leased? || j.status.Done? ==>
          && TierAllowed(p, j.status.worker, j.spec.tier)
          && !j.spec.payload.Malformed?
          && (j.spec.payload.Round? ==> j.status.worker in j.spec.payload.roster))
  }

  ghost predicate JobsOk(s: State, t: u64) {
    forall i | i in s.jobs :: JobOk(s.jobs[i], s.policy, t)
  }

  predicate SameRound(a: Job, b: Job) {
    a.spec.payload.Round? && b.spec.payload.Round? && a.spec.payload.id == b.spec.payload.id
  }

  /** A device holds or has finished at most one job of a LoRA round. */
  ghost predicate OnePerRound(s: State) {
    forall i, k, w | i in s.jobs && k in s.jobs && HoldsOrFinished(s.jobs[i], w) && HoldsOrFinished(s.jobs[k], w)
                     && SameRound(s.jobs[i], s.jobs[k]) :: i == k
  }

  /** A cool-down never reaches further than the back-off its no-show count earns. */
  predicate CoolingOk(noshows: u32, cooldownUntil: u64, t: u64) {
    cooldownUntil <= if noshows == 0 then t else SatAdd(t, NoshowBackoff(noshows))
  }

  predicate CooledDown(s: State, w: Addr, t: u64) {
    && (w in s.workers ==> s.workers[w].cooldownUntil <= t)
    && (w in s.penalties ==> s.penalties[w].cooldownUntil <= t)
  }

  ghost predicate NoShowsOk(s: State, t: u64) {
    && (forall w | w in s.workers :: CoolingOk(s.workers[w].noshows, s.workers[w].cooldownUntil, t))
    && (forall w | w in s.penalties :: CoolingOk(s.penalties[w].noshows, s.penalties[w].cooldownUntil, t))
    && (forall i | i in s.jobs && s.jobs[i].status.Leased? :: CooledDown(s, s.jobs[i].status.worker, t))
  }

  /** What every request keeps and every restart under the same policy keeps too. */
  ghost predicate Core(s: State, t: u64) {
    OneLease(s) && Bounds(s) && SlotCap(s) && JobsOk(s, t) && OnePerRound(s) && NoShowsOk(s, t)
  }

  /** What every request keeps, but a restart need not: it may revive a lapsed lease. */
  ghost predicate Roomy(s: State, t: u64) {
    LiveRegistered(s, t) && GroupCap(s, t)
  }

  ghost predicate Inv(s: State, t: u64) {
    Core(s, t) && Roomy(s, t)
  }

  /** `s'` is sound, and roomy if `s` was. */
  ghost predicate Keeps(s: State, s': State, now: u64) {
    Core(s', now) && (Roomy(s, now) ==> Roomy(s', now))
  }

  // ---- cardinalities --------------------------------------------------------------

  lemma PutSize<K, V>(m: map<K, V>, k: K, v: V)
    ensures |m[k := v]| == if k in m then |m| else |m| + 1
  {
    assert m[k := v].Keys == m.Keys + {k};
    if k in m {
      assert m[k := v].Keys == m.Keys;
    }
  }

  lemma DropSize<K, V>(m: map<K, V>, k: K)
    ensures (m - {k}).Keys == m.Keys - {k}
    ensures |m - {k}| == if k in m then |m| - 1 else |m|
  {
    assert (m - {k}).Keys == m.Keys - {k};
    if k !in m {
      assert m.Keys - {k} == m.Keys;
    }
  }

  // ---- back-off -------------------------------------------------------------------

  lemma Pow2Grows(a: nat, b: nat)
    requires a <= b
    ensures 1 <= Pow2(a) <= Pow2(b)
  {
  }

  /** The n-th consecutive no-show costs min(3600 * 2^(n-1), 7 days). */
  lemma NoshowBackoffClosedForm(n: u32)
    requires n >= 1
    ensures NoshowBackoff(n) == Min(3_600 * Pow2(n - 1), 7 * 86_400)
  {
    if n - 1 > 20 {
      assert Pow2(10) == 1024 by { assert Pow2(5) == 32; }
      Pow2Grows(10, 20);
      Pow2Grows(20, n - 1);
    }
  }

  lemma BackoffGrows(a: u32, b: u32)
    requires a <= b
    ensures NoshowBackoff(a) <= NoshowBackoff(b)
  {
    Pow2Grows(Min(if a >= 1 then a - 1 else 0, 20), Min(if b >= 1 then b - 1 else 0, 20));
  }

  // ---- time passing ---------------------------------------------------------------

  lemma LaterIsFine(s: State, t: u64, now: u64)
    requires Core(s, t) && t <= now
    ensures Core(s, now) && (Roomy(s, t) ==> Roomy(s, now))
  {
    assert JobsOk(s, now) by {
      assert forall i | i in s.jobs :: JobOk(s.jobs[i], s.policy, t) ==> JobOk(s.jobs[i], s.policy, now);
    }
    if Roomy(s, t) {
      RoomyLater(s, t, now);
    }
  }

  lemma RoomyLater(s: State, t: u64, now: u64)
    requires Roomy(s, t) && t <= now
    ensures Roomy(s, now)
  {
    forall g ensures |LiveOfGroup(s, g, now)| <= s.policy.maxLeasesPerSource {
      SubsetSize(LiveOfGroup(s, g, now), LiveOfGroup(s, g, t));
    }
  }

  // ---- changes that only touch jobs -------------------------------------------------

  /** The ways one job record may change without a new lease being granted: it stays, goes
      back to the pool, is finished by its holder, or its lease ends a little later. */
  ghost predicate Softer(a: Job, b: Job, p: Policy, now: u64) {
    && b.spec == a.spec && a.failedBy <= b.failedBy
    && (|| (b.status == a.status && b.failedBy == a.failedBy)
        || (a.status.Leased? && b.status == Pending)
        || (a.status.Leased? && b.status.Done? && b.status.worker == a.status.worker)
        || (Live(a.status, now) && b.status.Leased? && b.status.worker == a.status.worker
            && b.failedBy == a.failedBy && b.status.expiresAt <= Hard(b.status)
            && b.status.expiresAt <= SatAdd(now, p.leaseWindow)))
  }

  ghost predicate JobsSoften(s: State, s': State, now: u64) {
    && s'.jobs.Keys == s.jobs.Keys && s'.policy == s.policy
    && forall i | i in s.jobs :: Softer(s.jobs[i], s'.jobs[i], s.policy, now)
  }

  /** Workers keep their identity; what a record says about no-shows may be anything sound. */
  ghost predicate SameRegistry(s: State, s': State) {
    && s'.workers.Keys == s.workers.Keys && s'.penalties == s.penalties
    && |s'.sources| <= MAX_SOURCES
    && forall w | w in s.workers :: s'.workers[w].source == s.workers[w].source
  }

  lemma SofterKeepsJobs(s: State, s': State, now: u64)
    requires OneLease(s) && JobsOk(s, now) && OnePerRound(s) && JobsSoften(s, s', now)
    ensures OneLease(s') && JobsOk(s', now) && OnePerRound(s')
  {
    forall i | i in s'.jobs ensures JobOk(s'.jobs[i], s'.policy, now) {
      assert Softer(s.jobs[i], s'.jobs[i], s.policy, now) && JobOk(s.jobs[i], s.policy, now);
    }
    forall i, k, w | i in s'.jobs && k in s'.jobs && HoldsOrFinished(s'.jobs[i], w) && HoldsOrFinished(s'.jobs[k], w)
                     && SameRound(s'.jobs[i], s'.jobs[k])
      ensures i == k
    {
      assert Softer(s.jobs[i], s'.jobs[i], s.policy, now) && Softer(s.jobs[k], s'.jobs[k], s.policy, now);
      assert HoldsOrFinished(s.jobs[i], w) && HoldsOrFinished(s.jobs[k], w);
    }
  }

  lemma SameRegistryKeepsBooks(s: State, s': State)
    requires Bounds(s) && SlotCap(s) && SameRegistry(s, s') && s'.policy == s.policy
    ensures Bounds(s') && SlotCap(s')
  {
    assert |s'.workers.Keys| == |s.workers.Keys|;
    forall source ensures |SlotsOf(s', source)| <= s'.policy.maxWorkersPerSource {
      assert SlotsOf(s', source) == SlotsOf(s, source);
    }
  }

  lemma SofterKeepsRoomy(s: State, s': State, now: u64)
    requires Roomy(s, now) && JobsSoften(s, s', now) && SameRegistry(s, s')
    ensures Roomy(s', now)
  {
    forall i | i in s'.jobs && Live(s'.jobs[i].status, now) ensures s'.jobs[i].status.worker in s'.workers {
      assert Softer(s.jobs[i], s'.jobs[i], s.policy, now);
    }
    forall g ensures |LiveOfGroup(s', g, now)| <= s'.policy.maxLeasesPerSource {
      forall i | i in LiveOfGroup(s', g, now) ensures i in LiveOfGroup(s, g, now) {
        assert Softer(s.jobs[i], s'.jobs[i], s.policy, now);
      }
      SubsetSize(LiveOfGroup(s', g, now), LiveOfGroup(s, g, now));
    }
  }

  lemma SofterKeeps(s: State, s': State, now: u64)
    requires Core(s, now) && JobsSoften(s, s', now) && SameRegistry(s, s') && NoShowsOk(s', now)
    ensures Keeps(s, s', now)
  {
    SofterKeepsJobs(s, s', now);
    SameRegistryKeepsBooks(s, s');
    if Roomy(s, now) {
      SofterKeepsRoomy(s, s', now);
    }
  }

  /** Nothing the invariant reads about jobs or workers has changed. */
  ghost predicate SameForInv(s: State, s': State) {
    && s'.policy == s.policy && s'.penalties == s.penalties && |s'.sources| <= MAX_SOURCES
    && s'.jobs.Keys == s.jobs.Keys
    && (forall i | i in s.jobs :: s'.jobs[i] == s.jobs[i].(persistedExpiry := s'.jobs[i].persistedExpiry))
    && s'.workers.Keys == s.workers.Keys
    && forall w | w in s.workers :: && s'.workers[w].source == s.workers[w].source
                                    && s'.workers[w].noshows == s.workers[w].noshows
                                    && s'.workers[w].cooldownUntil == s.workers[w].cooldownUntil
  }

  lemma SameKeeps(s: State, s': State, now: u64)
    requires Core(s, now) && SameForInv(s, s')
    ensures Keeps(s, s', now)
  {
    NoShowsCarryOver(s, s', now);
    assert JobsSoften(s, s', now);
    SofterKeeps(s, s', now);
  }

  // ---- expire_leases ----------------------------------------------------------------

  lemma ChargeSourceBounded(sources: map<Group, SourceRecord>, g: Group, now: u64)
    requires |sources| <= MAX_SOURCES
    ensures |ChargeSource(sources, g, now)| <= MAX_SOURCES
  {
    var scores := SourceScores(sources, now);
    assert scores.Keys == sources.Keys;
    if g !in sources && |sources| >= MAX_SOURCES {
      assert scores != map[];
      var kept := sources - {MinKey(scores)};
      assert kept.Keys == sources.Keys - {MinKey(scores)};
      assert ChargeSource(sources, g, now).Keys == kept.Keys + {g};
    } else {
      assert ChargeSource(sources, g, now).Keys == sources.Keys + {g};
    }
  }

  lemma {:induction false} ChargeSourcesBounded(sources: map<Group, SourceRecord>, gs: seq<Group>, now: u64)
    requires |sources| <= MAX_SOURCES
    ensures |ChargeSources(sources, gs, now)| <= MAX_SOURCES
    decreases |gs|
  {
    if gs != [] {
      ChargeSourceBounded(sources, gs[0], now);
      ChargeSourcesBounded(ChargeSource(sources, gs[0], now), gs[1..], now);
    }
  }

  /** With one lease per worker, a pass charges a worker at most once, and exactly when its
      lease lapsed. */
  lemma ChargedOnce(s: State, w: Addr, now: u64)
    requires OneLease(s)
    ensures |LapsedOf(s, s.jobs.Keys, w, now)| <= 1
    ensures |LapsedOf(s, s.jobs.Keys, w, now)| == 1
       <==> exists i | i in s.jobs :: Lapsed(s.jobs[i].status, now) && s.jobs[i].status.worker == w
  {
    var lapsed := LapsedOf(s, s.jobs.Keys, w, now);
    if i :| i in lapsed {
      assert lapsed == {i};
    } else {
      assert forall i | i in s.jobs && Lapsed(s.jobs[i].status, now) && s.jobs[i].status.worker == w :: i in lapsed;
    }
  }

  lemma ExpireSoftens(s: State, now: u64)
    requires |s.sources| <= MAX_SOURCES
    ensures JobsSoften(s, ExpireLeases(s, now), now) && SameRegistry(s, ExpireLeases(s, now))
    ensures forall i | i in s.jobs :: !Lapsed(ExpireLeases(s, now).jobs[i].status, now)
  {
    ChargeSourcesBounded(s.sources, LapsedGroups(s, s.jobs.Keys, now), now);
  }

  lemma ExpireKeeps(s: State, now: u64)
    requires Core(s, now)
    ensures Keeps(s, ExpireLeases(s, now), now)
  {
    ExpireSoftens(s, now);
    ExpireKeepsNoShows(s, now);
    SofterKeeps(s, ExpireLeases(s, now), now);
  }

  lemma ExpireKeepsNoShows(s: State, now: u64)
    requires OneLease(s) && NoShowsOk(s, now)
    ensures NoShowsOk(ExpireLeases(s, now), now)
  {
    var s' := ExpireLeases(s, now);
    forall i | i in s'.jobs && s'.jobs[i].status.Leased? ensures CooledDown(s', s'.jobs[i].status.worker, now) {
      var w := s'.jobs[i].status.worker;
      assert CooledDown(s, w, now);
      ChargedOnce(s, w, now);
    }
  }

  // ---- polls ------------------------------------------------------------------------

  lemma TouchKeeps(s: State, w: Addr, now: u64)
    requires Core(s, now) && w in s.workers
    ensures Keeps(s, Touch(s, w, now), now)
  {
    SameKeeps(s, Touch(s, w, now), now);
  }

  lemma GrantKeeps(s: State, w: Addr, id: JobId, now: u64)
    requires Core(s, now) && w in s.workers && Eligible(s, w, id, now)
    requires HeldBy(s, w) == {} && s.workers[w].cooldownUntil <= now
    requires w !in s.policy.trusted ==>
               |LeasesOfGroup(s, SourceGroup(s.workers[w].source))| < s.policy.maxLeasesPerSource
    ensures Keeps(s, Grant(s, w, id, now), now)
  {
    var s' := Grant(s, w, id, now);
    GrantKeepsJobs(s, w, id, now);
    GrantKeepsRounds(s, w, id, now);
    SameRegistryKeepsBooks(s, s');
    if Roomy(s, now) {
      GrantKeepsRoomy(s, w, id, now);
    }
  }

  lemma GrantKeepsRoomy(s: State, w: Addr, id: JobId, now: u64)
    requires Roomy(s, now) && w in s.workers && id in s.jobs
    requires w !in s.policy.trusted ==>
               |LeasesOfGroup(s, SourceGroup(s.workers[w].source))| < s.policy.maxLeasesPerSource
    ensures Roomy(Grant(s, w, id, now), now)
  {
    var s' := Grant(s, w, id, now);
    forall g ensures |LiveOfGroup(s', g, now)| <= s'.policy.maxLeasesPerSource {
      if HolderInGroup(s, w, g) {
        assert LiveOfGroup(s', g, now) <= LeasesOfGroup(s, g) + {id};
        SubsetSize(LiveOfGroup(s', g, now), LeasesOfGroup(s, g) + {id});
      } else {
        SubsetSize(LiveOfGroup(s', g, now), LiveOfGroup(s, g, now));
      }
    }
  }

  lemma GrantKeepsJobs(s: State, w: Addr, id: JobId, now: u64)
    requires OneLease(s) && JobsOk(s, now) && NoShowsOk(s, now) && Bounds(s)
    requires w in s.workers && Eligible(s, w, id, now)
    requires HeldBy(s, w) == {} && s.workers[w].cooldownUntil <= now
    ensures var s' := Grant(s, w, id, now);
            OneLease(s') && JobsOk(s', now) && NoShowsOk(s', now)
  {
    assert forall i | i in s.jobs && s.jobs[i].status.Leased? && s.jobs[i].status.worker == w :: i in HeldBy(s, w);
    assert CooledDown(s, w, now);
    TierIsEnough(s.policy, w, s.workers[w].capability, s.jobs[id].spec.tier);
  }

  /** The policy check never refuses what the scheduler granted. */
  lemma TierIsEnough(p: Policy, w: Addr, claimed: Capability, tier: Capability)
    requires Satisfies(EffectiveCapability(p, w, claimed), tier)
    ensures TierAllowed(p, w, tier)
  {
  }

  lemma GrantKeepsRounds(s: State, w: Addr, id: JobId, now: u64)
    requires OnePerRound(s) && w in s.workers && Eligible(s, w, id, now)
    ensures OnePerRound(Grant(s, w, id, now))
  {
    var s' := Grant(s, w, id, now);
    assert forall i | i in s.jobs && HoldsOrFinished(s.jobs[i], w) && s.jobs[i].spec.payload.Round? ::
        s.jobs[i].spec.payload.id in RoundsOf(s, w);
    forall i, k, v | i in s'.jobs && k in s'.jobs && HoldsOrFinished(s'.jobs[i], v) && HoldsOrFinished(s'.jobs[k], v)
                     && SameRound(s'.jobs[i], s'.jobs[k])
      ensures i == k
    {
      if i != id && k != id {
        assert HoldsOrFinished(s.jobs[i], v) && HoldsOrFinished(s.jobs[k], v);
      }
    }
  }

  lemma AssignKeeps(s: State, w: Addr, now: u64)
    requires Core(s, now) && w in s.workers
    ensures Keeps(s, Assign(s, w, now).0, now)
  {
    if Assign(s, w, now).1.Ok? {
      var id := MinKey(EligibleJobs(s, w, now));
      assert id in EligibleJobs(s, w, now);
      GrantKeeps(s, w, id, now);
    }
  }

  // ---- heartbeats and submissions -----------------------------------------------------

  lemma OneJobSoftens(s: State, s': State, id: JobId, now: u64)
    requires id in s.jobs && s'.jobs.Keys == s.jobs.Keys && s'.policy == s.policy
    requires forall i | i in s.jobs && i != id :: s'.jobs[i] == s.jobs[i]
    requires Softer(s.jobs[id], s'.jobs[id], s.policy, now)
    ensures JobsSoften(s, s', now)
  {
  }

  lemma RenewSoftens(s: State, w: Addr, id: JobId, now: u64)
    requires JobsOk(s, now) && |s.sources| <= MAX_SOURCES
    ensures JobsSoften(s, Renew(s, w, id, now).0, now) && SameRegistry(s, Renew(s, w, id, now).0)
  {
    if LeaseholderError(s, w, id, now).None? {
      assert JobOk(s.jobs[id], s.policy, now);
      OneJobSoftens(s, Renew(s, w, id, now).0, id, now);
    }
  }

  lemma NoShowsCarryOver(s: State, s': State, now: u64)
    requires NoShowsOk(s, now)
    requires s'.workers.Keys == s.workers.Keys && s'.penalties == s.penalties && s'.jobs.Keys == s.jobs.Keys
    requires forall w | w in s.workers :: s'.workers[w].noshows == s.workers[w].noshows
                                       && s'.workers[w].cooldownUntil == s.workers[w].cooldownUntil
    requires forall i | i in s.jobs && s'.jobs[i].status.Leased? ::
               s.jobs[i].status.Leased? && s'.jobs[i].status.worker == s.jobs[i].status.worker
    ensures NoShowsOk(s', now)
  {
    forall i | i in s'.jobs && s'.jobs[i].status.Leased? ensures CooledDown(s', s'.jobs[i].status.worker, now) {
      assert CooledDown(s, s.jobs[i].status.worker, now);
    }
  }

  lemma RenewKeepsNoShows(s: State, w: Addr, id: JobId, now: u64)
    requires NoShowsOk(s, now)
    ensures NoShowsOk(Renew(s, w, id, now).0, now)
  {
    NoShowsCarryOver(s, Renew(s, w, id, now).0, now);
  }

  lemma RenewKeeps(s: State, w: Addr, id: JobId, now: u64)
    requires Core(s, now)
    ensures Keeps(s, Renew(s, w, id, now).0, now)
  {
    RenewSoftens(s, w, id, now);
    RenewKeepsNoShows(s, w, id, now);
    SofterKeeps(s, Renew(s, w, id, now).0, now);
  }

  lemma FinishSoftens(s: State, w: Addr, id: JobId, result: string, now: u64)
    requires LeaseholderError(s, w, id, now).None? && TierAllowed(s.policy, w, s.jobs[id].spec.tier)
    ensures JobsSoften(s, Finish(s, w, id, result, now), now)
  {
    OneJobSoftens(s, Finish(s, w, id, result, now), id, now);
  }

  lemma RevokeSoftens(s: State, id: JobId, now: u64)
    requires id in s.jobs && s.jobs[id].status.Leased? && |s.sources| <= MAX_SOURCES
    ensures JobsSoften(s, RevokeLease(s, id), now) && SameRegistry(s, RevokeLease(s, id))
  {
    OneJobSoftens(s, RevokeLease(s, id), id, now);
  }

  lemma CreditKeepsRegistry(s: State, w: Addr, now: u64)
    requires |s.sources| <= MAX_SOURCES
    ensures SameRegistry(s, Credit(s, w, now)) && Credit(s, w, now).jobs == s.jobs && Credit(s, w, now).policy == s.policy
  {
    if w in s.workers && SourceGroup(s.workers[w].source) in s.sources {
      var g := SourceGroup(s.workers[w].source);
      PutSize(s.sources, g, s.sources[g].(noshows := 0));
    }
  }

  lemma SubmitSoftens(s: State, w: Addr, id: JobId, result: string, now: u64)
    requires |s.sources| <= MAX_SOURCES
    ensures JobsSoften(s, Submit(s, w, id, result, now).0, now) && SameRegistry(s, Submit(s, w, id, result, now).0)
  {
    if LeaseholderError(s, w, id, now).None? {
      if TierAllowed(s.policy, w, s.jobs[id].spec.tier) {
        FinishSoftens(s, w, id, result, now);
        CreditKeepsRegistry(Finish(s, w, id, result, now), w, now);
      } else {
        RevokeSoftens(s, id, now);
      }
    }
  }

  lemma SubmitKeeps(s: State, w: Addr, id: JobId, result: string, now: u64)
    requires Core(s, now)
    ensures Keeps(s, Submit(s, w, id, result, now).0, now)
  {
    SubmitSoftens(s, w, id, result, now);
    SubmitKeepsNoShows(s, w, id, result, now);
    SofterKeeps(s, Submit(s, w, id, result, now).0, now);
  }

  /** A worker whose result is accepted is not cooling down, so its count may be cleared. */
  lemma CreditKeepsNoShows(s: State, w: Addr, now: u64)
    requires NoShowsOk(s, now) && CooledDown(s, w, now)
    ensures NoShowsOk(Credit(s, w, now), now)
  {
    var s' := Credit(s, w, now);
    forall i | i in s'.jobs && s'.jobs[i].status.Leased? ensures CooledDown(s', s'.jobs[i].status.worker, now) {
      assert CooledDown(s, s.jobs[i].status.worker, now);
    }
  }

  lemma SubmitKeepsNoShows(s: State, w: Addr, id: JobId, result: string, now: u64)
    requires NoShowsOk(s, now)
    ensures NoShowsOk(Submit(s, w, id, result, now).0, now)
  {
    if LeaseholderError(s, w, id, now).None? {
      assert CooledDown(s, w, now);
      if TierAllowed(s.policy, w, s.jobs[id].spec.tier) {
        NoShowsCarryOver(s, Finish(s, w, id, result, now), now);
        CreditKeepsNoShows(Finish(s, w, id, result, now), w, now);
      } else {
        NoShowsCarryOver(s, RevokeLease(s, id), now);
      }
    }
  }

  // ---- registrations --------------------------------------------------------------------

  lemma KeepPenaltyFacts(penalties: map<Addr, Penalty>, id: Addr, p: Penalty)
    requires |penalties| <= MAX_WORKERS
    ensures var kept := KeepPenalty(penalties, id, p);
            && |kept| <= MAX_WORKERS
            && kept.Keys <= penalties.Keys + {id}
            && id in kept && kept[id] == p
            && forall k | k in kept && k != id :: kept[k] == penalties[k]
  {
    var scores := PenaltyScores(penalties);
    assert scores.Keys == penalties.Keys;
    if |penalties| >= MAX_WORKERS && id !in penalties {
      assert scores != map[];
      DropSize(penalties, MinKey(scores));
      PutSize(penalties - {MinKey(scores)}, id, p);
    } else {
      PutSize(penalties, id, p);
    }
  }

  lemma ForgetKeepsBounds(s: State, id: Addr, now: u64)
    requires Bounds(s) && id in s.workers
    ensures var s' := ForgetWorker(s, id, now); Bounds(s') && |s'.workers| == |s.workers| - 1
  {
    KeepPenaltyFacts(s.penalties, id, Penalty(s.workers[id].noshows, s.workers[id].cooldownUntil));
    DropSize(s.workers, id);
  }

  lemma ForgetKeepsNoShows(s: State, id: Addr, now: u64)
    requires |s.penalties| <= MAX_WORKERS && NoShowsOk(s, now) && id in s.workers
    ensures NoShowsOk(ForgetWorker(s, id, now), now)
  {
    ForgetShape(s, id, now);
    FewerRecordsKeepNoShows(s, ForgetWorker(s, id, now), id, now);
  }

  /** Other keys' penalties are as before, or displaced; `id`'s own is `p` or as before. */
  ghost predicate PenaltyMoved(before: map<Addr, Penalty>, after: map<Addr, Penalty>, id: Addr, p: Penalty) {
    && (forall k | k in after && k != id :: k in before && after[k] == before[k])
    && (id in after ==> after[id] == p || (id in before && after[id] == before[id]))
  }

  lemma KeepPenaltyMoves(penalties: map<Addr, Penalty>, id: Addr, p: Penalty)
    requires |penalties| <= MAX_WORKERS
    ensures PenaltyMoved(penalties, KeepPenalty(penalties, id, p), id, p)
  {
    KeepPenaltyFacts(penalties, id, p);
  }

  /** Forgetting leaves the jobs and every other record; the worker's own history, if any, is its penalty. */
  lemma ForgetShape(s: State, id: Addr, now: u64)
    requires |s.penalties| <= MAX_WORKERS && id in s.workers
    ensures var s' := ForgetWorker(s, id, now);
            && s'.jobs == s.jobs && s'.policy == s.policy && s'.workers == s.workers - {id}
            && PenaltyMoved(s.penalties, s'.penalties, id, Penalty(s.workers[id].noshows, s.workers[id].cooldownUntil))
  {
    KeepPenaltyMoves(s.penalties, id, Penalty(s.workers[id].noshows, s.workers[id].cooldownUntil));
  }

  lemma FewerRecordsKeepNoShows(s: State, s': State, id: Addr, now: u64)
    requires NoShowsOk(s, now) && id in s.workers
    requires s'.jobs == s.jobs && s'.workers == s.workers - {id}
    requires PenaltyMoved(s.penalties, s'.penalties, id, Penalty(s.workers[id].noshows, s.workers[id].cooldownUntil))
    ensures NoShowsOk(s', now)
  {
    forall i | i in s'.jobs && s'.jobs[i].status.Leased? ensures CooledDown(s', s'.jobs[i].status.worker, now) {
      assert CooledDown(s, s.jobs[i].status.worker, now);
    }
  }

  lemma ForgetKeepsSlots(s: State, id: Addr, now: u64)
    requires SlotCap(s) && id in s.workers
    ensures SlotCap(ForgetWorker(s, id, now))
  {
    var s' := ForgetWorker(s, id, now);
    forall source ensures |SlotsOf(s', source)| <= s'.policy.maxWorkersPerSource {
      SubsetSize(SlotsOf(s', source), SlotsOf(s, source));
    }
  }

  lemma FewerRecordsKeepRoomy(s: State, s': State, id: Addr, now: u64)
    requires Roomy(s, now) && id !in Holders(s, now)
    requires s'.jobs == s.jobs && s'.policy == s.policy && s'.workers == s.workers - {id}
    ensures Roomy(s', now)
  {
    forall i | i in s'.jobs && Live(s'.jobs[i].status, now) ensures s'.jobs[i].status.worker in s'.workers {
      assert s.jobs[i].status.worker in Holders(s, now);
    }
    forall g ensures |LiveOfGroup(s', g, now)| <= s'.policy.maxLeasesPerSource {
      SubsetSize(LiveOfGroup(s', g, now), LiveOfGroup(s, g, now));
    }
  }

  /** Forgetting a registered worker, which holds no live lease if the state is to stay roomy. */
  lemma ForgetKeeps(s: State, id: Addr, now: u64)
    requires Core(s, now) && id in s.workers && id !in Holders(s, now)
    ensures var s' := ForgetWorker(s, id, now);
            && Keeps(s, s', now)
            && s'.workers == s.workers - {id} && |s'.workers| == |s.workers| - 1
            && s'.jobs == s.jobs && s'.policy == s.policy
  {
    ForgetShape(s, id, now);
    ForgetKeepsBounds(s, id, now);
    ForgetKeepsNoShows(s, id, now);
    ForgetKeepsSlots(s, id, now);
    if Roomy(s, now) {
      FewerRecordsKeepRoomy(s, ForgetWorker(s, id, now), id, now);
    }
  }

  /** What admitting does, as far as the invariant looks. */
  ghost predicate Joins(s: State, s': State, id: Addr, source: Source) {
    && id !in s.workers && id in s'.workers && s'.jobs == s.jobs && s'.policy == s.policy
    && s'.workers == s.workers[id := s'.workers[id]] && s'.workers[id].source == source
    && s'.penalties == s.penalties - {id} && s'.sources == s.sources
    && var p := if id in s.penalties then s.penalties[id] else Penalty(0, 0);
       s'.workers[id].noshows == p.noshows && s'.workers[id].cooldownUntil == p.cooldownUntil
  }

  lemma JoiningKeepsBooks(s: State, s': State, id: Addr, source: Source, now: u64)
    requires Bounds(s) && NoShowsOk(s, now) && |s.workers| < MAX_WORKERS && Joins(s, s', id, source)
    ensures Bounds(s') && NoShowsOk(s', now)
  {
    PutSize(s.workers, id, s'.workers[id]);
    DropSize(s.penalties, id);
    forall i | i in s'.jobs && s'.jobs[i].status.Leased? ensures CooledDown(s', s'.jobs[i].status.worker, now) {
      assert CooledDown(s, s.jobs[i].status.worker, now);
    }
  }

  lemma SlotsAfterJoining(s: State, s': State, id: Addr, source: Source, src: Source)
    requires Joins(s, s', id, source)
    ensures SlotsOf(s', src) == if src == source && id !in s.policy.trusted then SlotsOf(s, src) + {id} else SlotsOf(s, src)
  {
  }

  lemma JoiningKeepsSlots(s: State, s': State, id: Addr, source: Source)
    requires SlotCap(s) && Joins(s, s', id, source)
    requires id !in s.policy.trusted ==> |SlotsOf(s, source)| < s.policy.maxWorkersPerSource
    ensures SlotCap(s')
  {
    forall src ensures |SlotsOf(s', src)| <= s'.policy.maxWorkersPerSource {
      SlotsAfterJoining(s, s', id, source, src);
    }
  }

  lemma JoiningKeepsRoomy(s: State, s': State, id: Addr, source: Source, now: u64)
    requires Roomy(s, now) && Joins(s, s', id, source)
    ensures Roomy(s', now)
  {
    forall g ensures |LiveOfGroup(s', g, now)| <= s'.policy.maxLeasesPerSource {
      assert LiveOfGroup(s', g, now) == LiveOfGroup(s, g, now);
    }
  }

  lemma AdmitJoins(s: State, id: Addr, capability: Capability, source: Source, now: u64)
    requires id !in s.workers
    ensures Joins(s, Admit(s, id, capability, source, now), id, source)
  {
  }

  lemma AdmitKeeps(s: State, id: Addr, capability: Capability, source: Source, now: u64)
    requires Core(s, now) && id !in s.workers && |s.workers| < MAX_WORKERS
    requires id !in s.policy.trusted ==> |SlotsOf(s, source)| < s.policy.maxWorkersPerSource
    ensures Keeps(s, Admit(s, id, capability, source, now), now)
  {
    AdmitJoins(s, id, capability, source, now);
    JoiningKeeps(s, Admit(s, id, capability, source, now), id, source, now);
  }

  lemma JoiningKeeps(s: State, s': State, id: Addr, source: Source, now: u64)
    requires Core(s, now) && |s.workers| < MAX_WORKERS && Joins(s, s', id, source)
    requires id !in s.policy.trusted ==> |SlotsOf(s, source)| < s.policy.maxWorkersPerSource
    ensures Keeps(s, s', now)
  {
    JoiningKeepsBooks(s, s', id, source, now);
    JoiningKeepsSlots(s, s', id, source);
    if Roomy(s, now) {
      JoiningKeepsRoomy(s, s', id, source, now);
    }
  }

  ghost predicate KeepsProtected(s: State, s': State, now: u64) {
    forall v | v in s.workers && (v in s.policy.trusted || v in Holders(s, now)) :: v in s'.workers
  }

  /** Making room at a source leaves an open slot there, and takes it only from a stale,
      unvouched, idle key. */
  lemma MakeRoomKeeps(s: State, source: Source, now: u64)
    requires Core(s, now)
    ensures var r := MakeRoomForSource(s, source, now);
            r.Ok? ==>
              && Keeps(s, r.value, now) && r.value.jobs == s.jobs && r.value.policy == s.policy
              && r.value.workers.Keys <= s.workers.Keys
              && |SlotsOf(r.value, source)| < s.policy.maxWorkersPerSource
              && KeepsProtected(s, r.value, now)
  {
    var r := MakeRoomForSource(s, source, now);
    if r.Ok? && r.value != s {
      var victim := MinKey(StaleSlots(s, source, now));
      assert victim in StaleSlots(s, source, now);
      ForgetKeeps(s, victim, now);
      OneSlotFewer(s, ForgetWorker(s, victim, now), victim, source);
    }
  }

  lemma OneSlotFewer(s: State, s': State, victim: Addr, source: Source)
    requires SlotCap(s) && victim in SlotsOf(s, source) && s'.workers == s.workers - {victim} && s'.policy == s.policy
    ensures |SlotsOf(s', source)| < s.policy.maxWorkersPerSource
  {
    assert SlotsOf(s', source) == SlotsOf(s, source) - {victim};
  }

  lemma RegistryRoomKeeps(s: State, now: u64)
    requires Core(s, now)
    ensures var r := MakeRoomInRegistry(s, Holders(s, now), now);
            r.Ok? ==>
              && Keeps(s, r.value, now) && r.value.policy == s.policy && |r.value.workers| < MAX_WORKERS
              && r.value.jobs == s.jobs
              && r.value.workers.Keys <= s.workers.Keys
              && (forall source :: |SlotsOf(r.value, source)| <= |SlotsOf(s, source)|)
              && KeepsProtected(s, r.value, now)
  {
    var r := MakeRoomInRegistry(s, Holders(s, now), now);
    if r.Ok? && r.value != s {
      var victim := MinKey(Evictable(s, Holders(s, now)));
      assert victim in Evictable(s, Holders(s, now));
      ForgetKeeps(s, victim, now);
      forall source ensures |SlotsOf(r.value, source)| <= |SlotsOf(s, source)| {
        SubsetSize(SlotsOf(r.value, source), SlotsOf(s, source));
      }
    }
  }

  lemma DirtyIrrelevant(s: State, now: u64)
    requires Core(s, now)
    ensures Keeps(s, s.(dirty := true), now) && Keeps(s, s.(dirty := false), now)
    ensures Holders(s.(dirty := true), now) == Holders(s, now)
  {
    SameKeeps(s, s.(dirty := true), now);
    SameKeeps(s, s.(dirty := false), now);
  }

  lemma RefreshKeeps(s: State, id: Addr, capability: Capability, source: Source, now: u64)
    requires Core(s, now) && id in s.workers
    ensures Keeps(s, Register(s, id, capability, source, now).0, now)
  {
    SameKeeps(s, Register(s, id, capability, source, now).0, now);
  }

  lemma NewcomerKeeps(s0: State, id: Addr, capability: Capability, source: Source, now: u64)
    requires Core(s0, now) && id !in s0.workers && s0.dirty
    ensures Keeps(s0, Register(s0, id, capability, source, now).0, now)
    ensures KeepsProtected(s0, Register(s0, id, capability, source, now).0, now)
  {
    assert s0.(dirty := true) == s0;
    MakeRoomKeeps(s0, source, now);
    var room := if id in s0.policy.trusted then Ok(s0) else MakeRoomForSource(s0, source, now);
    if room.Ok? {
      assert Holders(room.value, now) == Holders(s0, now);
      SpaceKeeps(s0, room.value, id, capability, source, now);
    }
  }

  /** With room at the source, making room in the registry and admitting. */
  lemma SpaceKeeps(s0: State, room: State, id: Addr, capability: Capability, source: Source, now: u64)
    requires Keeps(s0, room, now) && id !in s0.workers && room.policy == s0.policy && room.workers.Keys <= s0.workers.Keys
    requires KeepsProtected(s0, room, now) && Holders(room, now) == Holders(s0, now)
    requires id in room.policy.trusted || |SlotsOf(room, source)| < room.policy.maxWorkersPerSource
    ensures var space := MakeRoomInRegistry(room, Holders(room, now), now);
            space.Ok? ==> var s' := Admit(space.value, id, capability, source, now);
                          Keeps(s0, s', now) && KeepsProtected(s0, s', now)
  {
    RegistryRoomKeeps(room, now);
    var space := MakeRoomInRegistry(room, Holders(room, now), now);
    if space.Ok? {
      AdmitKeeps(space.value, id, capability, source, now);
    }
  }

  /** Registering keeps the invariant and never drops a vouched worker or a live leaseholder. */
  lemma RegisterKeeps(s: State, id: Addr, capability: Capability, source: Source, now: u64)
    requires Core(s, now)
    ensures Keeps(s, Register(s, id, capability, source, now).0, now)
    ensures KeepsProtected(s, Register(s, id, capability, source, now).0, now)
  {
    if id in s.workers {
      RefreshKeeps(s, id, capability, source, now);
    } else {
      DirtyIrrelevant(s, now);
      DirtyNewcomer(s, id, capability, source, now);
      NewcomerKeeps(s.(dirty := true), id, capability, source, now);
    }
  }

  lemma DirtyNewcomer(s: State, id: Addr, capability: Capability, source: Source, now: u64)
    requires id !in s.workers
    ensures Register(s.(dirty := true), id, capability, source, now) == Register(s, id, capability, source, now)
  {
    assert Holders(s.(dirty := true), now) == Holders(s, now);
  }

  // ---- the whole request ------------------------------------------------------------------

  lemma NoteKeeps(s: State, id: Addr, ts: u64, nowNanos: u64, now: u64)
    requires Core(s, now)
    ensures Keeps(s, NoteRegistration(s, id, ts, nowNanos).0, now)
  {
    SameKeeps(s, NoteRegistration(s, id, ts, nowNanos).0, now);
  }

  lemma AddJobKeepsJobs(s: State, id: JobId, spec: JobSpec, now: u64)
    requires OneLease(s) && JobsOk(s, now) && OnePerRound(s) && NoShowsOk(s, now) && id !in s.jobs
    ensures var s' := AddJob(s, id, spec); OneLease(s') && JobsOk(s', now) && OnePerRound(s') && NoShowsOk(s', now)
  {
  }

  lemma AddJobKeepsRoomy(s: State, id: JobId, spec: JobSpec, now: u64)
    requires Roomy(s, now) && id !in s.jobs
    ensures Roomy(AddJob(s, id, spec), now)
  {
    forall g ensures LiveOfGroup(AddJob(s, id, spec), g, now) == LiveOfGroup(s, g, now) {
    }
  }

  lemma AddJobKeeps(s: State, id: JobId, spec: JobSpec, now: u64)
    requires Core(s, now) && id !in s.jobs
    ensures Keeps(s, AddJob(s, id, spec), now)
  {
    AddJobKeepsJobs(s, id, spec, now);
    SameRegistryKeepsBooks(s, AddJob(s, id, spec));
    if Roomy(s, now) {
      AddJobKeepsRoomy(s, id, spec, now);
    }
  }

  lemma TakeDirtyKeeps(s: State, now: u64)
    requires Core(s, now)
    ensures Keeps(s, TakeDirty(s), now)
  {
    SameKeeps(s, TakeDirty(s), now);
  }

  lemma ApplyKeeps(s: State, step: Step, now: u64)
    requires Core(s, now)
    ensures Keeps(s, Apply(s, step, now), now)
  {
    match step
    case AddJobStep(id, spec) => if id !in s.jobs { AddJobKeeps(s, id, spec, now); }
    case RegisterStep(key, capability, source) => RegisterKeeps(s, key, capability, source, now);
    case NoteStep(key, ts, nowNanos) => NoteKeeps(s, key, ts, nowNanos, now);
    case PollStep(w) =>
      if w in s.workers {
        TouchKeeps(s, w, now);
        ExpireKeeps(Touch(s, w, now), now);
        AssignKeeps(ExpireLeases(Touch(s, w, now), now), w, now);
      }
    case HeartbeatStep(w, job) => RenewKeeps(s, w, job, now);
    case SubmitStep(w, job, result) => SubmitKeeps(s, w, job, result, now);
    case ExpireStep => ExpireKeeps(s, now);
  }

  lemma MutateKeeps(s: State, t: u64, r: Request)
    requires Core(s, t) && t <= r.now
    ensures Core(Mutate(s, r), r.now) && (Roomy(s, t) ==> Roomy(Mutate(s, r), r.now))
  {
    LaterIsFine(s, t, r.now);
    ApplyKeeps(s, r.step, r.now);
    TakeDirtyKeeps(Apply(s, r.step, r.now), r.now);
    DirtyIrrelevant(TakeDirty(Apply(s, r.step, r.now)), r.now);
  }

  /** Every run keeps the core from any sound state, and the rest from any roomy one. */
  lemma {:induction false} RunKeeps(s: State, t: u64, rs: seq<Request>)
    requires Core(s, t) && Clocked(t, rs)
    ensures Core(Run(s, rs), EndOf(t, rs)) && (Roomy(s, t) ==> Roomy(Run(s, rs), EndOf(t, rs)))
    decreases |rs|, 0
  {
    if rs != [] {
      MutateKeeps(s, t, rs[0]);
      RestKeeps(Mutate(s, rs[0]), rs[0].now, rs[1..]);
    }
  }

  /** The rest of a run, from the state its first request leaves. */
  lemma {:induction false} RestKeeps(s: State, t: u64, rs: seq<Request>)
    requires Core(s, t) && Clocked(t, rs)
    ensures Core(Run(s, rs), EndOf(t, rs)) && (Roomy(s, t) ==> Roomy(Run(s, rs), EndOf(t, rs)))
    decreases |rs|, 1
  {
    RunKeeps(s, t, rs);
  }

  lemma EmptyIsFine(policy: Policy, t: u64)
    ensures Inv(EmptyState(policy), t)
  {
    var s := EmptyState(policy);
    forall g ensures |LiveOfGroup(s, g, t)| <= s.policy.maxLeasesPerSource {
      assert LiveOfGroup(s, g, t) == {};
    }
    forall source ensures |SlotsOf(s, source)| <= s.policy.maxWorkersPerSource {
      assert SlotsOf(s, source) == {};
    }
  }

  /** The coupled capacity invariant holds after every run between restarts that starts with it, in
      particular of a freshly started coordinator. */
  lemma CapacityHoldsOnEveryRun(s: State, t: u64, rs: seq<Request>)
    requires Clocked(t, rs) && (Inv(s, t) || s == EmptyState(s.policy))
    ensures Inv(Run(s, rs), EndOf(t, rs))
  {
    EmptyIsFine(s.policy, t);
    RunKeeps(s, t, rs);
  }
}
