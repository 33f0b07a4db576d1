/** The training coordinator's state machine as it runs: one object whose methods update
    the maps in place, each proved to do what `LeaseSpec` says. */
module LeaseBooks {
  import opened Base
  import opened S = LeaseSpec

  lemma ChargeAgain(r: Worker, n: nat, now: u64)
    ensures ChargeWorker(ChargeWorker(r, n, now), 1, now) == ChargeWorker(r, n + 1, now)
  {
  }

  /** Moving one job from the unvisited to the visited ones adds its lapse, if any, to its
      holder's count and to nobody else's. */
  lemma CountOneMore(s: State, ids: set<JobId>, id: JobId, w: Addr, now: u64)
    requires id in s.jobs && id !in ids
    ensures |LapsedOf(s, ids + {id}, w, now)|
         == |LapsedOf(s, ids, w, now)|
            + (if Lapsed(s.jobs[id].status, now) && s.jobs[id].status.worker == w then 1 else 0)
  {
    var before, after := LapsedOf(s, ids, w, now), LapsedOf(s, ids + {id}, w, now);
    if Lapsed(s.jobs[id].status, now) && s.jobs[id].status.worker == w {
      assert after == before + {id};
    } else {
      assert after == before;
    }
  }

  /** Charging one more lapse to its holder brings the worker map one job further. */
  lemma WorkersStep(s: State, done: set<JobId>, id: JobId, now: u64, w: Addr)
    requires id in s.jobs && id !in done && w in s.workers
    ensures var st := s.jobs[id].status;
            var before := ChargeWorker(s.workers[w], |LapsedOf(s, done, w, now)|, now);
            ChargeWorker(s.workers[w], |LapsedOf(s, done + {id}, w, now)|, now)
            == if Lapsed(st, now) && st.worker == w then ChargeWorker(before, 1, now) else before
  {
    CountOneMore(s, done, id, w, now);
    ChargeAgain(s.workers[w], |LapsedOf(s, done, w, now)|, now);
  }

  ghost predicate JobsVisited(s: State, jobs: map<JobId, Job>, todo: set<JobId>, now: u64) {
    && jobs.Keys == s.jobs.Keys
    && forall id | id in s.jobs :: jobs[id] == if id in todo then s.jobs[id] else LapseJob(s, s.jobs[id], now)
  }

  ghost predicate WorkersVisited(s: State, workers: map<Addr, Worker>, done: set<JobId>, now: u64) {
    && workers.Keys == s.workers.Keys
    && forall w | w in s.workers :: workers[w] == ChargeWorker(s.workers[w], |LapsedOf(s, done, w, now)|, now)
  }

  lemma WorkersVisitedStep(s: State, before: map<Addr, Worker>, after: map<Addr, Worker>,
                           done: set<JobId>, id: JobId, now: u64)
    requires id in s.jobs && id !in done && WorkersVisited(s, before, done, now)
    requires after == if Lapsed(s.jobs[id].status, now) && s.jobs[id].status.worker in before
                      then before[s.jobs[id].status.worker := ChargeWorker(before[s.jobs[id].status.worker], 1, now)]
                      else before
    ensures WorkersVisited(s, after, done + {id}, now)
  {
    forall w | w in s.workers
      ensures after[w] == ChargeWorker(s.workers[w], |LapsedOf(s, done + {id}, w, now)|, now)
    {
      WorkersStep(s, done, id, now, w);
    }
  }

  lemma GroupsStep(s: State, groups: seq<Group>, todo: set<JobId>, now: u64)
    requires todo != {}
    ensures groups + ChargedGroup(s, Least(todo), now) + LapsedGroups(s, todo - {Least(todo)}, now)
         == groups + LapsedGroups(s, todo, now)
  {
    LapsedGroupsNext(s, todo, now);
    Regroup(groups, ChargedGroup(s, Least(todo), now), LapsedGroups(s, todo - {Least(todo)}, now));
  }

  lemma LapsedGroupsNext(s: State, todo: set<JobId>, now: u64)
    requires todo != {}
    ensures LapsedGroups(s, todo, now) == ChargedGroup(s, Least(todo), now) + LapsedGroups(s, todo - {Least(todo)}, now)
  {
  }

  lemma Regroup(a: seq<Group>, b: seq<Group>, c: seq<Group>)
    ensures a + b + c == a + (b + c)
  {
  }

  /** Jobs among `ids` whose lease has lapsed. */
  ghost function LapsedIds(s: State, ids: set<JobId>, now: u64): set<JobId> {
    set id | id in ids && id in s.jobs && Lapsed(s.jobs[id].status, now)
  }

  /** `freed` lists the lapsed jobs outside `todo`, all of which come before those in it. */
  ghost predicate Freeing(s: State, todo: set<JobId>, freed: seq<JobId>, now: u64) {
    InOrder(freed, LapsedIds(s, s.jobs.Keys - todo, now)) && forall x, k | x in freed && k in todo :: x < k
  }

  ghost function FreedNext(s: State, id: JobId, freed: seq<JobId>, now: u64): seq<JobId>
    requires id in s.jobs
  {
    if Lapsed(s.jobs[id].status, now) then freed + [id] else freed
  }

  lemma FreeingStep(s: State, todo: set<JobId>, freed: seq<JobId>, now: u64)
    requires todo != {} && todo <= s.jobs.Keys && Freeing(s, todo, freed, now)
    ensures Freeing(s, todo - {Least(todo)}, FreedNext(s, Least(todo), freed, now), now)
  {
    var id := Least(todo);
    var before, after := LapsedIds(s, s.jobs.Keys - todo, now), LapsedIds(s, s.jobs.Keys - (todo - {id}), now);
    if Lapsed(s.jobs[id].status, now) {
      assert after == before + {id};
      OneMoreInOrder(freed, before, id);
    } else {
      assert after == before;
    }
  }

  /** The pass over the jobs, with `todo` still to visit: `t` is the state so far. */
  ghost predicate Passing(s: State, t: State, todo: set<JobId>, groups: seq<Group>, freed: seq<JobId>, now: u64) {
    && todo <= s.jobs.Keys
    && JobsVisited(s, t.jobs, todo, now)
    && WorkersVisited(s, t.workers, s.jobs.Keys - todo, now)
    && groups + LapsedGroups(s, todo, now) == LapsedGroups(s, s.jobs.Keys, now)
    && t == s.(jobs := t.jobs, workers := t.workers, dirty := s.dirty || freed != [])
  }

  lemma StartPass(s: State, now: u64)
    ensures Passing(s, s, s.jobs.Keys, [], [], now)
  {
    assert s.jobs.Keys - s.jobs.Keys == {};
  }

  lemma PassingStep(s: State, t: State, t': State, todo: set<JobId>, groups: seq<Group>, freed: seq<JobId>,
                    groups': seq<Group>, now: u64)
    requires todo != {} && Passing(s, t, todo, groups, freed, now)
    requires var id := Least(todo);
             && JobsVisited(s, t'.jobs, todo - {id}, now)
             && WorkersVisited(s, t'.workers, s.jobs.Keys - (todo - {id}), now)
             && groups' == groups + ChargedGroup(s, id, now)
             && t' == t.(jobs := t'.jobs, workers := t'.workers,
                         dirty := t.dirty || Lapsed(s.jobs[id].status, now))
    ensures Passing(s, t', todo - {Least(todo)}, groups', FreedNext(s, Least(todo), freed, now), now)
  {
    GroupsStep(s, groups, todo, now);
  }

  /** A state that has visited every job and charged the collected groups has expired its leases. */
  lemma PassingEnd(s: State, t: State, t': State, groups: seq<Group>, freed: seq<JobId>, now: u64)
    requires Passing(s, t, {}, groups, freed, now) && Freeing(s, {}, freed, now)
    requires t' == t.(sources := ChargeSources(s.sources, groups, now))
    ensures InOrder(freed, LapsedIds(s, s.jobs.Keys, now))
    ensures t' == S.ExpireLeases(s, now)
  {
    assert s.jobs.Keys - {} == s.jobs.Keys;
    assert groups == LapsedGroups(s, s.jobs.Keys, now);
    AnyLapsedFreed(s, freed, now);
    VisitedJobs(s, t.jobs, now);
    VisitedWorkers(s, t.workers, now);
  }

  lemma VisitedJobs(s: State, jobs: map<JobId, Job>, now: u64)
    requires JobsVisited(s, jobs, {}, now)
    ensures jobs == S.ExpireLeases(s, now).jobs
  {
  }

  lemma VisitedWorkers(s: State, workers: map<Addr, Worker>, now: u64)
    requires WorkersVisited(s, workers, s.jobs.Keys, now)
    ensures workers == S.ExpireLeases(s, now).workers
  {
  }

  /** Lapsing a job part way through the pass is lapsing it in the original state: the
      registry's keys and sources have not moved. */
  lemma LapseSame(s: State, t: State, todo: set<JobId>, id: JobId, now: u64)
    requires WorkersVisited(s, t.workers, s.jobs.Keys - todo, now) && t.policy == s.policy
    requires JobsVisited(s, t.jobs, todo, now) && id in todo && id in s.jobs && Lapsed(s.jobs[id].status, now)
    ensures t.jobs[id] == s.jobs[id]
    ensures var h := s.jobs[id].status.worker;
            && ChargesGroup(t, h) == ChargesGroup(s, h)
            && (h in s.workers ==> t.workers[h].source == s.workers[h].source)
            && JobsVisited(s, t.jobs[id := LapseJob(t, t.jobs[id], now)], todo - {id}, now)
  {
  }

  ghost predicate JobsGraced(s: State, jobs: map<JobId, Job>, todo: set<JobId>, now: u64) {
    && jobs.Keys == s.jobs.Keys
    && forall id | id in s.jobs ::
         jobs[id] == if id in todo then s.jobs[id] else GraceJob(s.jobs[id], s.policy.leaseWindow, now)
  }

  /** `t` has visited all jobs but those in `todo`. */
  ghost predicate Gracing(s: State, t: State, todo: set<JobId>, now: u64) {
    && todo <= s.jobs.Keys && JobsGraced(s, t.jobs, todo, now)
    && t == s.(jobs := t.jobs, dirty := s.dirty || GracedOutside(s, todo, now))
  }

  ghost predicate GracedOutside(s: State, todo: set<JobId>, now: u64) {
    exists id | id in s.jobs && id !in todo :: GraceJob(s.jobs[id], s.policy.leaseWindow, now) != s.jobs[id]
  }

  lemma GracingStep(s: State, t: State, t': State, todo: set<JobId>, id: JobId, now: u64)
    requires Gracing(s, t, todo, now) && id in todo
    requires var j := GraceJob(s.jobs[id], s.policy.leaseWindow, now);
             t' == t.(jobs := t.jobs[id := j], dirty := t.dirty || j != s.jobs[id])
    ensures Gracing(s, t', todo - {id}, now)
  {
    if GracedOutside(s, todo, now) {
      var k :| k in s.jobs && k !in todo && GraceJob(s.jobs[k], s.policy.leaseWindow, now) != s.jobs[k];
      assert k !in todo - {id};
    }
  }

  lemma GracingEnd(s: State, t: State, now: u64)
    requires Gracing(s, t, {}, now)
    ensures t == S.GraceLiveLeases(s, now)
  {
    GracedAll(s, t.jobs, now);
    assert GracedOutside(s, {}, now) <==> AnyGraced(s, now);
  }

  lemma GracedAll(s: State, jobs: map<JobId, Job>, now: u64)
    requires JobsGraced(s, jobs, {}, now)
    ensures jobs == S.GraceLiveLeases(s, now).jobs
  {
  }

  ghost predicate JobsRevoked(s: State, jobs: map<JobId, Job>, revoked: set<JobId>) {
    && jobs.Keys == s.jobs.Keys
    && forall id | id in s.jobs :: jobs[id] == if id in revoked then s.jobs[id].(status := Pending) else s.jobs[id]
  }

  ghost function OutOfPolicyIds(s: State): set<JobId> {
    set id | id in s.jobs && OutOfPolicy(s.policy, s.jobs[id])
  }

  /** `t` has revoked the first `n` of the leases out of policy. */
  ghost predicate Revoking(s: State, t: State, revoked: seq<JobId>, n: nat)
    requires n <= |revoked|
  {
    JobsRevoked(s, t.jobs, set id | id in revoked[..n]) && t == s.(jobs := t.jobs, dirty := s.dirty || n > 0)
  }

  lemma RevokingStep(s: State, t: State, t': State, revoked: seq<JobId>, n: nat)
    requires n < |revoked| && Revoking(s, t, revoked, n) && revoked[n] in t.jobs && t' == RevokeLease(t, revoked[n])
    ensures Revoking(s, t', revoked, n + 1)
  {
    assert revoked[..n + 1] == revoked[..n] + [revoked[n]];
  }

  lemma RevokingEnd(s: State, t: State, revoked: seq<JobId>)
    requires InOrder(revoked, OutOfPolicyIds(s)) && Revoking(s, t, revoked, |revoked|)
    ensures t == S.RevokeOutOfPolicy(s)
  {
    assert revoked[..|revoked|] == revoked;
    AnyRevokedListed(s, revoked);
    assert t.jobs == S.RevokeOutOfPolicy(s).jobs;
  }

  lemma AnyRevokedListed(s: State, revoked: seq<JobId>)
    requires InOrder(revoked, OutOfPolicyIds(s))
    ensures AnyRevoked(s) <==> revoked != []
  {
    if AnyRevoked(s) {
      var id :| id in s.jobs && OutOfPolicy(s.policy, s.jobs[id]);
      assert id in revoked;
    }
    if revoked != [] {
      assert revoked[0] in OutOfPolicyIds(s);
    }
  }

  lemma AnyLapsedFreed(s: State, freed: seq<JobId>, now: u64)
    requires InOrder(freed, LapsedIds(s, s.jobs.Keys, now))
    ensures AnyLapsed(s, now) <==> freed != []
  {
    if AnyLapsed(s, now) {
      var id :| id in s.jobs && Lapsed(s.jobs[id].status, now);
      assert id in freed;
    }
    if freed != [] {
      assert freed[0] in LapsedIds(s, s.jobs.Keys, now);
    }
  }

  class LeaseBook {
    var jobs: map<JobId, Job>
    var workers: map<Addr, Worker>
    var sources: map<Group, SourceRecord>
    var penalties: map<Addr, Penalty>
    var policy: Policy
    var dirty: bool
    var recent: set<(Addr, u64)>

    function Value(): State
      reads this
    {
      State(jobs, workers, sources, penalties, policy, dirty, recent)
    }

    constructor (policy: Policy)
      ensures Value() == EmptyState(policy)
    {
      jobs, workers, sources, penalties := map[], map[], map[], map[];
      this.policy, dirty, recent := policy, false, {};
    }

    /** The state as loaded from disk, under the policy supplied at boot. */
    constructor Load(s: State, policy: Policy)
      ensures Value() == s.(policy := policy)
    {
      jobs, workers, sources, penalties := s.jobs, s.workers, s.sources, s.penalties;
      this.policy, dirty, recent := policy, s.dirty, s.recent;
    }

    method AddJob(id: JobId, spec: JobSpec)
      modifies this
      ensures Value() == S.AddJob(old(Value()), id, spec)
    {
      dirty := true;
      jobs := jobs[id := Job(spec, Pending, 0, {}, None, {}, 0, 0)];
    }

    method ForgetWorker(id: Addr, now: u64)
      modifies this
      ensures Value() == S.ForgetWorker(old(Value()), id, now)
    {
      if id !in workers {
        return;
      }
      var r := workers[id];
      workers := workers - {id};
      if r.noshows == 0 && r.cooldownUntil <= now {
        return;
      }
      var scores := PenaltyScores(penalties);
      if |penalties| >= MAX_WORKERS && id !in penalties && scores != map[] {
        var oldest := FindMin(scores);
        penalties := penalties - {oldest};
      }
      penalties := penalties[id := Penalty(r.noshows, r.cooldownUntil)];
    }

    method MakeRoomForSource(source: Source, now: u64) returns (r: Result<(), RegisterError>)
      modifies this
      ensures var spec := S.MakeRoomForSource(old(Value()), source, now);
              && r.Ok? == spec.Ok?
              && Value() == (if spec.Ok? then spec.value else old(Value()))
              && (spec.Err? ==> r == Err(spec.error))
    {
      if |SlotsOf(Value(), source)| < policy.maxWorkersPerSource {
        return Ok(());
      }
      var stale := StaleSlots(Value(), source, now);
      if stale == map[] {
        return Err(SourceFull);
      }
      var victim := FindMin(stale);
      ForgetWorker(victim, now);
      return Ok(());
    }

    method MakeRoomInRegistry(holders: set<Addr>, now: u64) returns (r: Result<(), RegisterError>)
      modifies this
      ensures var spec := S.MakeRoomInRegistry(old(Value()), holders, now);
              && r.Ok? == spec.Ok?
              && Value() == (if spec.Ok? then spec.value else old(Value()))
              && (spec.Err? ==> r == Err(spec.error))
    {
      if |workers| < MAX_WORKERS {
        return Ok(());
      }
      var victims := Evictable(Value(), holders);
      if victims == map[] {
        return Err(RegistryFull);
      }
      var evict := FindMin(victims);
      ForgetWorker(evict, now);
      return Ok(());
    }

    method Register(id: Addr, capability: Capability, source: Source, now: u64)
      returns (r: Result<Capability, RegisterError>)
      modifies this
      ensures (Value(), r) == S.Register(old(Value()), id, capability, source, now)
    {
      var granted := EffectiveCapability(policy, id, capability);
      if id in workers {
        var e := workers[id];
        dirty := dirty || e.capability != capability;
        workers := workers[id := e.(lastRegistration := now, capability := capability, lastSeen := now)];
        return Ok(granted);
      }
      dirty := true;
      var holders := Holders(Value(), now);
      if id !in policy.trusted {
        var room := MakeRoomForSource(source, now);
        if room.Err? {
          return Err(room.error);
        }
      }
      var space := MakeRoomInRegistry(holders, now);
      if space.Err? {
        return Err(space.error);
      }
      Insert(id, capability, source, now);
      return Ok(granted);
    }

    method Insert(id: Addr, capability: Capability, source: Source, now: u64)
      modifies this
      ensures Value() == S.Admit(old(Value()), id, capability, source, now)
    {
      var p := if id in penalties then penalties[id] else Penalty(0, 0);
      penalties := penalties - {id};
      workers := workers[id := Worker(capability, now, source, p.noshows, p.cooldownUntil, 0, now, None)];
    }

    method ChargeSource(g: Group, now: u64)
      modifies this`sources
      ensures sources == S.ChargeSource(old(sources), g, now)
    {
      if g !in sources && |sources| >= MAX_SOURCES {
        var scores := SourceScores(sources, now);
        if scores != map[] {
          var victim := FindMin(scores);
          sources := sources - {victim};
        }
      }
      var n := SatAdd32(if g in sources then sources[g].noshows else 0, 1);
      sources := sources[g := SourceRecord(n, SatAdd(now, NoshowBackoff(n)), now)];
    }

    /** Return one lapsed job to the pool and charge its holder; the group to charge, if any,
        is handed back for later. */
    method LapseOne(id: JobId, now: u64) returns (group: Option<Group>)
      requires id in jobs && Lapsed(jobs[id].status, now)
      modifies this`jobs, this`workers
      ensures var s := old(Value()); var holder := s.jobs[id].status.worker;
              && jobs == s.jobs[id := LapseJob(s, s.jobs[id], now)]
              && workers == (if holder in s.workers
                             then s.workers[holder := ChargeWorker(s.workers[holder], 1, now)] else s.workers)
              && group == if ChargesGroup(s, holder) then Some(SourceGroup(s.workers[holder].source)) else None
    {
      var rec := jobs[id];
      var holder := rec.status.worker;
      rec := rec.(failedBy := rec.failedBy + {holder}, status := Pending,
                  heldUntil := SatAdd(now, LAPSE_HOLD_SECS));
      group := None;
      if holder in workers {
        var w := workers[holder];
        var n := SatAdd32(w.noshows, 1);
        workers := workers[holder := w.(noshows := n, cooldownUntil := SatAdd(now, NoshowBackoff(n)))];
        if holder !in policy.trusted {
          group := Some(SourceGroup(w.source));
          rec := rec.(failedBySources := rec.failedBySources + {group.value});
        }
      }
      jobs := jobs[id := rec];
    }

    method ChargeSources(groups: seq<Group>, now: u64)
      modifies this`sources
      ensures sources == S.ChargeSources(old(sources), groups, now)
    {
      var i := 0;
      while i < |groups|
        invariant 0 <= i <= |groups|
        invariant S.ChargeSources(sources, groups[i..], now) == S.ChargeSources(old(sources), groups, now)
      {
        ChargeSource(groups[i], now);
        assert groups[i..][1..] == groups[i + 1..];
        i := i + 1;
      }
    }

    /** Visit one job; `groups` collects the source charges to make afterwards. */
    method VisitJob(id: JobId, now: u64, groups: seq<Group>, ghost s: State, ghost todo: set<JobId>)
      returns (lapsed: bool, collected: seq<Group>)
      requires id in todo && todo <= s.jobs.Keys && policy == s.policy
      requires JobsVisited(s, jobs, todo, now) && WorkersVisited(s, workers, s.jobs.Keys - todo, now)
      modifies this`jobs, this`workers
      ensures JobsVisited(s, jobs, todo - {id}, now)
      ensures WorkersVisited(s, workers, s.jobs.Keys - (todo - {id}), now)
      ensures lapsed == Lapsed(s.jobs[id].status, now)
      ensures collected == groups + ChargedGroup(s, id, now)
    {
      ghost var done, before := s.jobs.Keys - todo, workers;
      assert s.jobs.Keys - (todo - {id}) == done + {id};
      lapsed := Lapsed(jobs[id].status, now);
      collected := groups;
      if lapsed {
        LapseSame(s, Value(), todo, id, now);
        var group := LapseOne(id, now);
        if group.Some? {
          collected := groups + [group.value];
        }
      }
      WorkersVisitedStep(s, before, workers, done, id, now);
    }

    /** Visit the next job of the pass. */
    method VisitNext(now: u64, todo: set<JobId>, groups: seq<Group>, freed: seq<JobId>, ghost s: State)
      returns (rest: set<JobId>, collected: seq<Group>, freed': seq<JobId>)
      requires todo != {} && Passing(s, Value(), todo, groups, freed, now)
      modifies this`jobs, this`workers, this`dirty
      ensures rest == todo - {Least(todo)} && Passing(s, Value(), rest, collected, freed', now)
      ensures freed' == FreedNext(s, Least(todo), freed, now)
    {
      ghost var t := Value();
      var id := FindLeast(todo);
      var lapsed;
      lapsed, collected := VisitJob(id, now, groups, s, todo);
      if lapsed {
        dirty := true;
      }
      freed' := if lapsed then freed + [id] else freed;
      rest := todo - {id};
      assert Value() == t.(jobs := jobs, workers := workers, dirty := t.dirty || lapsed);
      PassingStep(s, t, Value(), todo, groups, freed, collected, now);
    }

    /** One pass over the jobs in id order. */
    method VisitAll(now: u64) returns (groups: seq<Group>, freed: seq<JobId>)
      modifies this`jobs, this`workers, this`dirty
      ensures Passing(old(Value()), Value(), {}, groups, freed, now) && Freeing(old(Value()), {}, freed, now)
    {
      ghost var s := Value();
      groups, freed := [], [];
      var todo := jobs.Keys;
      StartPass(s, now);
      while todo != {}
        invariant Passing(s, Value(), todo, groups, freed, now) && Freeing(s, todo, freed, now)
        decreases todo
      {
        FreeingStep(s, todo, freed, now);
        todo, groups, freed := VisitNext(now, todo, groups, freed, s);
      }
    }

    /** The pass, then the source charges it collected. */
    method ExpireLeases(now: u64) returns (freed: seq<JobId>)
      modifies this`jobs, this`workers, this`sources, this`dirty
      ensures Value() == S.ExpireLeases(old(Value()), now)
      ensures InOrder(freed, set id | id in old(jobs) && Lapsed(old(jobs)[id].status, now))
    {
      ghost var s := Value();
      var groups;
      groups, freed := VisitAll(now);
      ghost var t := Value();
      ChargeSources(groups, now);
      PassingEnd(s, t, Value(), groups, freed, now);
      assert LapsedIds(s, s.jobs.Keys, now) == set id | id in s.jobs && Lapsed(s.jobs[id].status, now);
    }

    method Lease(worker: Addr, now: u64) returns (r: Result<JobId, LeaseError>)
      modifies this
      ensures (Value(), r) == S.Lease(old(Value()), worker, now)
    {
      if worker !in workers {
        return Err(UnknownWorker);
      }
      workers := workers[worker := workers[worker].(lastSeen := now, lastEngaged := Some(now))];
      var _ := ExpireLeases(now);
      r := Assign(worker, now);
    }

    method Assign(worker: Addr, now: u64) returns (r: Result<JobId, LeaseError>)
      requires worker in workers
      modifies this
      ensures (Value(), r) == S.Assign(old(Value()), worker, now)
    {
      var rec := workers[worker];
      var group := SourceGroup(rec.source);
      if rec.cooldownUntil > now {
        return Err(CoolingDown(rec.cooldownUntil));
      }
      if |HeldBy(Value(), worker)| >= MAX_LEASES_PER_WORKER {
        return Err(AtLeaseCap);
      }
      if worker !in policy.trusted {
        if group in sources && sources[group].cooldownUntil > now {
          return Err(CoolingDown(sources[group].cooldownUntil));
        }
        if |LeasesOfGroup(Value(), group)| >= policy.maxLeasesPerSource {
          return Err(AtLeaseCap);
        }
      }
      var eligible := EligibleJobs(Value(), worker, now);
      if eligible == map[] {
        return Err(NothingAvailable);
      }
      var pick := FindMin(eligible);
      var j := jobs[pick];
      dirty := true;
      jobs := jobs[pick := j.(
        attempts := j.attempts + 1,
        status := Leased(worker, SatAdd(now, Min(j.spec.leaseSecs, policy.leaseWindow)),
                         SatAdd(now, j.spec.leaseSecs)))];
      return Ok(pick);
    }

    method RevokeLease(id: JobId)
      requires id in jobs
      modifies this`jobs, this`dirty
      ensures dirty && jobs == old(jobs)[id := old(jobs)[id].(status := Pending)]
    {
      jobs := jobs[id := jobs[id].(status := Pending)];
      dirty := true;
    }

    method Renew(worker: Addr, id: JobId, now: u64) returns (r: Result<u64, SubmitError>)
      modifies this
      ensures (Value(), r) == S.Renew(old(Value()), worker, id, now)
    {
      if id !in jobs {
        return Err(UnknownJob);
      }
      var j := jobs[id];
      if !j.status.Leased? {
        return Err(NotLeased);
      }
      if j.status.worker != worker {
        return Err(NotLeaseholder);
      }
      if j.status.expiresAt <= now {
        return Err(LeaseExpired(j.status.expiresAt, now));
      }
      if !TierAllowed(policy, worker, j.spec.tier) {
        RevokeLease(id);
        return Err(TierRevoked);
      }
      var hard := if j.status.deadline == 0 then j.status.expiresAt else j.status.deadline;
      var extended := Max(Min(SatAdd(now, policy.leaseWindow), hard), j.status.expiresAt);
      if extended >= SatAdd(j.persistedExpiry, HEARTBEAT_PERSIST_STEP_SECS)
         || (extended == hard && j.persistedExpiry != hard) {
        dirty := true;
      }
      jobs := jobs[id := j.(status := Leased(worker, extended, hard))];
      if worker in workers {
        workers := workers[worker := workers[worker].(lastSeen := now, lastEngaged := Some(now))];
      }
      return Ok(extended);
    }

    method Submit(worker: Addr, id: JobId, result: string, now: u64) returns (r: Result<(), SubmitError>)
      modifies this
      ensures (Value(), r) == S.Submit(old(Value()), worker, id, result, now)
    {
      if id !in jobs {
        return Err(UnknownJob);
      }
      var j := jobs[id];
      if j.status.Leased? && j.status.worker == worker && j.status.expiresAt > now
         && !TierAllowed(policy, worker, j.spec.tier) {
        RevokeLease(id);
        return Err(TierRevoked);
      }
      if !j.status.Leased? {
        return Err(NotLeased);
      }
      if j.status.worker != worker {
        return Err(NotLeaseholder);
      }
      if j.status.expiresAt <= now {
        return Err(LeaseExpired(j.status.expiresAt, now));
      }
      dirty := true;
      jobs := jobs[id := j.(status := Done(worker, now), result := Some(result))];
      if worker in workers {
        var w := workers[worker];
        w := w.(lastSeen := now, delivered := SatAdd32(w.delivered, 1));
        if worker in policy.trusted {
          w := w.(noshows := 0);
          var g := SourceGroup(w.source);
          if g in sources {
            sources := sources[g := sources[g].(noshows := 0)];
          }
        }
        workers := workers[worker := w];
      }
      return Ok(());
    }

    method RevokeOutOfPolicy() returns (revoked: seq<JobId>)
      modifies this`jobs, this`dirty
      ensures Value() == S.RevokeOutOfPolicy(old(Value()))
      ensures InOrder(revoked, set id | id in old(jobs) && OutOfPolicy(old(policy), old(jobs)[id]))
    {
      ghost var s := Value();
      revoked := Ordered(set id | id in jobs && OutOfPolicy(policy, jobs[id]));
      assert InOrder(revoked, OutOfPolicyIds(s));
      for i := 0 to |revoked|
        invariant Revoking(s, Value(), revoked, i)
      {
        ghost var t := Value();
        assert revoked[i] in OutOfPolicyIds(s);
        RevokeLease(revoked[i]);
        RevokingStep(s, t, Value(), revoked, i);
      }
      RevokingEnd(s, Value(), revoked);
    }

    /** Give one lease still inside its deadline a fresh renewal window. */
    method GraceOne(id: JobId, now: u64)
      requires id in jobs
      modifies this`jobs, this`dirty
      ensures var s := old(Value()); var j := GraceJob(s.jobs[id], s.policy.leaseWindow, now);
              jobs == s.jobs[id := j] && dirty == (s.dirty || j != s.jobs[id])
    {
      var j := jobs[id];
      if j.status.Leased? {
        var hard := if j.status.deadline == 0 then j.status.expiresAt else j.status.deadline;
        if hard > now {
          var renewed := Max(Min(SatAdd(now, policy.leaseWindow), hard), j.status.expiresAt);
          if renewed != j.status.expiresAt {
            jobs := jobs[id := j.(status := Leased(j.status.worker, renewed, hard))];
            dirty := true;
          }
        }
      }
    }

    method GraceLiveLeases(now: u64)
      modifies this`jobs, this`dirty
      ensures Value() == S.GraceLiveLeases(old(Value()), now)
    {
      ghost var s := Value();
      var todo := jobs.Keys;
      while todo != {}
        invariant Gracing(s, Value(), todo, now)
        decreases todo
      {
        var id := FindLeast(todo);
        ghost var t := Value();
        GraceOne(id, now);
        GracingStep(s, t, Value(), todo, id, now);
        todo := todo - {id};
      }
      GracingEnd(s, Value(), now);
    }

    method TakeDirty() returns (was: bool)
      modifies this
      ensures was == old(dirty) && Value() == S.TakeDirty(old(Value()))
    {
      ghost var s := Value();
      was := dirty;
      dirty := false;
      if was {
        var todo := jobs.Keys;
        while todo != {}
          invariant todo <= s.jobs.Keys
          invariant jobs.Keys == s.jobs.Keys
          invariant forall id | id in s.jobs :: jobs[id] == if id in todo then s.jobs[id] else StampJob(s.jobs[id])
          invariant Value() == s.(jobs := jobs, dirty := false)
          decreases todo
        {
          var id :| id in todo;
          todo := todo - {id};
          if jobs[id].status.Leased? {
            jobs := jobs[id := jobs[id].(persistedExpiry := jobs[id].status.expiresAt)];
          }
        }
      }
    }

    method NoteRegistration(id: Addr, ts: u64, nowNanos: u64) returns (inserted: bool)
      modifies this
      ensures (Value(), inserted) == S.NoteRegistration(old(Value()), id, ts, nowNanos)
    {
      recent := set e | e in recent && AbsDiff(e.1, nowNanos) <= LEASE_FRESHNESS_NANOS;
      inserted := (id, ts) !in recent;
      recent := recent + {(id, ts)};
      dirty := dirty || inserted;
    }

    method MarkDirty()
      modifies this`dirty
      ensures Value() == old(Value()).(dirty := true)
    {
      dirty := true;
    }
  }
}
