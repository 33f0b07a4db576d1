/** What the registry remembers of a worker, told from the requests alone; whom it forgets and whom it turns away. */
module WorkerHistory {
  import opened Base
  import opened LeaseSpec
  import opened LeaseRuns
  import opened LeaseInvariants
  import opened LeaseTheorems
  import opened LeaseLives
  import opened RegistrationBudgets
  import opened RegisterInners

  // ---- whom a registration makes room by forgetting -------------------------------------------------

  predicate HoldsLive(s: State, w: Addr, i: JobId, now: u64) {
    i in s.jobs && s.jobs[i].status.Leased? && s.jobs[i].status.worker == w && now < s.jobs[i].status.expiresAt
  }

  /** `x` may be forgotten: it is not vouched for and holds no live lease. */
  ghost predicate Spare(s: State, x: Addr, now: u64) {
    x in s.workers && x !in s.policy.trusted && forall i | i in s.jobs :: !HoldsLive(s, x, i, now)
  }

  /** And it holds a slot of this source, and has not been heard of for a day. */
  ghost predicate Reclaimable(s: State, x: Addr, source: Source, now: u64) {
    Spare(s, x, now) && s.workers[x].source == source && s.workers[x].lastSeen + 86_400 <= now
  }

  predicate UnseenLonger(s: State, x: Addr, y: Addr)
    requires x in s.workers && y in s.workers
  {
    s.workers[x].lastSeen < s.workers[y].lastSeen || (s.workers[x].lastSeen == s.workers[y].lastSeen && x <= y)
  }

  function UnvouchedFrom(s: State, source: Source): set<Addr> {
    set x | x in s.workers && x !in s.policy.trusted && s.workers[x].source == source
  }

  predicate AtSourceCap(s: State, key: Addr, source: Source) {
    key !in s.policy.trusted && |UnvouchedFrom(s, source)| >= s.policy.maxWorkersPerSource
  }

  /** A new key makes the registry forget `x`: at its source's cap, the reclaimable one there unseen the longest;
      with the registry at its bound, the one of all that may be forgotten. */
  ghost predicate Forgets(s: State, key: Addr, source: Source, now: u64, x: Addr) {
    if AtSourceCap(s, key, source) then
      Reclaimable(s, x, source, now) && forall y | Reclaimable(s, y, source, now) :: UnseenLonger(s, x, y)
    else
      |s.workers| == 4096 && Spare(s, x, now) && forall y | Spare(s, y, now) :: UnseenLonger(s, x, y)
  }

  ghost predicate NoSlot(s: State, key: Addr, source: Source, now: u64) {
    AtSourceCap(s, key, source) && forall x :: !Reclaimable(s, x, source, now)
  }

  ghost predicate NoSpace(s: State, key: Addr, source: Source, now: u64) {
    !AtSourceCap(s, key, source) && |s.workers| == 4096 && forall x :: !Spare(s, x, now)
  }

  lemma SpareIsEvictable(s: State, x: Addr, now: u64)
    ensures Spare(s, x, now) <==> x in Evictable(s, Holders(s, now))
  {
    if x in Holders(s, now) {
      var i :| i in s.jobs && Live(s.jobs[i].status, now) && s.jobs[i].status.worker == x;
      assert HoldsLive(s, x, i, now);
    }
  }

  lemma ReclaimableIsStale(s: State, x: Addr, source: Source, now: u64)
    ensures Reclaimable(s, x, source, now) <==> x in StaleSlots(s, source, now)
  {
    SpareIsEvictable(s, x, now);
  }

  lemma SourceRoomExactly(s: State, key: Addr, source: Source, now: u64)
    requires key !in s.policy.trusted
    ensures var r := MakeRoomForSource(s, source, now);
            && (r.Err? <==> NoSlot(s, key, source, now))
            && (r.Err? ==> r == Err(SourceFull))
            && (r.Ok? ==> r.value.policy == s.policy && r.value.jobs == s.jobs
                          && (!AtSourceCap(s, key, source) ==> r.value == s)
                          && (AtSourceCap(s, key, source) ==>
                                exists x :: Forgets(s, key, source, now, x) && r.value == ForgetWorker(s, x, now)))
  {
    assert UnvouchedFrom(s, source) == SlotsOf(s, source);
    var stale := StaleSlots(s, source, now);
    forall x ensures Reclaimable(s, x, source, now) <==> x in stale {
      ReclaimableIsStale(s, x, source, now);
    }
    if AtSourceCap(s, key, source) && stale != map[] {
      assert Reclaimable(s, MinKey(stale), source, now);
      assert Forgets(s, key, source, now, MinKey(stale));
    }
  }

  lemma RegistryRoomExactly(s: State, key: Addr, source: Source, now: u64)
    requires |s.workers| <= 4096 && !AtSourceCap(s, key, source)
    ensures var r := MakeRoomInRegistry(s, Holders(s, now), now);
            && (r.Err? <==> NoSpace(s, key, source, now))
            && (r.Err? ==> r == Err(RegistryFull))
            && (r.Ok? ==> (|s.workers| < 4096 ==> r.value == s)
                          && (|s.workers| == 4096 ==> exists x :: Forgets(s, key, source, now, x) && r.value == ForgetWorker(s, x, now)))
  {
    var victims := Evictable(s, Holders(s, now));
    forall x ensures Spare(s, x, now) <==> x in victims {
      SpareIsEvictable(s, x, now);
    }
    if |s.workers| == 4096 && victims != map[] {
      assert Spare(s, MinKey(victims), now);
      assert Forgets(s, key, source, now, MinKey(victims));
    }
  }

  lemma OneIsForgotten(s: State, key: Addr, source: Source, now: u64, x: Addr, y: Addr)
    requires Forgets(s, key, source, now, x) && Forgets(s, key, source, now, y)
    ensures x == y
  {
  }

  lemma ForgottenOnly(s: State, x: Addr, now: u64)
    requires x in s.workers
    ensures ForgetWorker(s, x, now).workers == s.workers - {x}
    ensures |ForgetWorker(s, x, now).workers| == |s.workers| - 1
  {
    ForgettingMakesRoom(s, x, now);
  }

  /** What an accepted newcomer leaves of the registry. */
  ghost predicate Joins(s: State, key: Addr, c: Capability, source: Source, now: u64, s': State) {
    && key in s'.workers && s'.workers.Keys <= s.workers.Keys + {key}
    && (forall x | x in s.workers :: x !in s'.workers <==> Forgets(s, key, source, now, x))
    && (forall x | x in s.workers && x in s'.workers :: s'.workers[x] == s.workers[x])
    && s'.workers[key].capability == c && s'.workers[key].source == source && s'.workers[key].delivered == 0
    && s'.workers[key].lastSeen == s'.workers[key].lastRegistration == now && s'.workers[key].lastEngaged == None
  }

  lemma AdmittedJoins(s: State, room: State, gone: set<Addr>, key: Addr, c: Capability, source: Source, now: u64)
    requires key !in s.workers && gone <= s.workers.Keys && room.workers == s.workers - gone
    requires forall x | x in s.workers :: x in gone <==> Forgets(s, key, source, now, x)
    ensures Joins(s, key, c, source, now, Admit(room, key, c, source, now))
  {
  }

  lemma OneLeavesForIt(s: State, room: State, x: Addr, key: Addr, c: Capability, source: Source, now: u64)
    requires key !in s.workers && Forgets(s, key, source, now, x) && room.workers == s.workers - {x}
    ensures Joins(s, key, c, source, now, Admit(room, key, c, source, now))
  {
    forall y | Forgets(s, key, source, now, y) ensures y == x {
      OneIsForgotten(s, key, source, now, x, y);
    }
    AdmittedJoins(s, room, {x}, key, c, source, now);
  }

  /** `room` is `s` with whom the newcomer makes the registry forget forgotten. */
  ghost predicate MadeRoom(s: State, room: State, key: Addr, source: Source, now: u64) {
    || (room == s && forall x :: !Forgets(s, key, source, now, x))
    || (exists x :: Forgets(s, key, source, now, x) && room == ForgetWorker(s, x, now))
  }

  lemma JoinsFor(s: State, room: State, key: Addr, c: Capability, source: Source, now: u64)
    requires key !in s.workers && MadeRoom(s, room, key, source, now)
    ensures Joins(s, key, c, source, now, Admit(room, key, c, source, now))
  {
    if x :| Forgets(s, key, source, now, x) && room == ForgetWorker(s, x, now) {
      ForgottenOnly(s, x, now);
      OneLeavesForIt(s, room, x, key, c, source, now);
    } else {
      AdmittedJoins(s, room, {}, key, c, source, now);
    }
  }

  /** A newcomer at its source's cap finds room in the registry once a slot there is reclaimed. */
  lemma ReclaimedIsEnough(s: State, key: Addr, source: Source, now: u64, room: State)
    requires |s.workers| <= 4096 && AtSourceCap(s, key, source)
    requires exists x :: Forgets(s, key, source, now, x) && room == ForgetWorker(s, x, now)
    ensures MakeRoomInRegistry(room, Holders(s, now), now) == Ok(room)
  {
    var x :| Forgets(s, key, source, now, x) && room == ForgetWorker(s, x, now);
    ForgottenOnly(s, x, now);
  }

  lemma NewcomerExactly(s: State, key: Addr, c: Capability, source: Source, now: u64)
    requires key !in s.workers && |s.workers| <= 4096 && s.dirty
    ensures var (s', r) := Register(s, key, c, source, now);
            && (r == Err(SourceFull) <==> NoSlot(s, key, source, now))
            && (r == Err(RegistryFull) <==> NoSpace(s, key, source, now))
            && (r.Err? ==> s'.workers == s.workers)
            && (r.Ok? ==> exists room :: MadeRoom(s, room, key, source, now) && s' == Admit(room, key, c, source, now))
  {
    assert s.(dirty := true) == s;
    if AtSourceCap(s, key, source) {
      SourceRoomExactly(s, key, source, now);
      var room := MakeRoomForSource(s, source, now);
      if room.Ok? {
        ReclaimedIsEnough(s, key, source, now, room.value);
        assert MadeRoom(s, room.value, key, source, now);
      }
    } else {
      if key !in s.policy.trusted {
        SourceRoomExactly(s, key, source, now);
      }
      RegistryRoomExactly(s, key, source, now);
      var space := MakeRoomInRegistry(s, Holders(s, now), now);
      if space.Ok? {
        assert MadeRoom(s, space.value, key, source, now);
      }
    }
  }

  lemma DirtyAside(s: State, s0: State, key: Addr, source: Source, now: u64)
    requires s0 == s.(dirty := true)
    ensures NoSlot(s0, key, source, now) <==> NoSlot(s, key, source, now)
    ensures NoSpace(s0, key, source, now) <==> NoSpace(s, key, source, now)
    ensures forall x :: Forgets(s0, key, source, now, x) <==> Forgets(s, key, source, now, x)
  {
    assert UnvouchedFrom(s0, source) == UnvouchedFrom(s, source);
    forall x ensures Spare(s0, x, now) <==> Spare(s, x, now) {
      assert forall i :: HoldsLive(s0, x, i, now) <==> HoldsLive(s, x, i, now);
    }
    forall x ensures Reclaimable(s0, x, source, now) <==> Reclaimable(s, x, source, now) {
      assert Spare(s0, x, now) <==> Spare(s, x, now);
    }
  }

  /** A new key is turned away exactly when its source is at the cap with no slot to reclaim, or the registry is at
      its bound with nobody to forget; otherwise it joins, and at most one worker is forgotten for it. */
  lemma RegistrationExactly(s: State, key: Addr, c: Capability, source: Source, now: u64)
    requires key !in s.workers && |s.workers| <= 4096
    ensures var (s', r) := Register(s, key, c, source, now);
            && (r == Err(SourceFull) <==> NoSlot(s, key, source, now))
            && (r == Err(RegistryFull) <==> NoSpace(s, key, source, now))
            && (r.Err? ==> s'.workers == s.workers)
            && (r.Ok? ==> Joins(s, key, c, source, now, s'))
  {
    var s0 := s.(dirty := true);
    DirtyAside(s, s0, key, source, now);
    NewcomerExactly(s0, key, c, source, now);
    RegisterDirtied(s, key, c, source, now);
    var (s', r) := Register(s, key, c, source, now);
    if r.Ok? {
      var room :| MadeRoom(s0, room, key, source, now) && s' == Admit(room, key, c, source, now);
      JoinsFor(s0, room, key, c, source, now);
    }
  }

  lemma RegisterDirtied(s: State, key: Addr, c: Capability, source: Source, now: u64)
    requires key !in s.workers
    ensures Register(s.(dirty := true), key, c, source, now) == Register(s, key, c, source, now)
  {
    var s0 := s.(dirty := true);
    assert s0.(dirty := true) == s0;
    assert Holders(s0, now) == Holders(s, now);
    assert EffectiveCapability(s0.policy, key, c) == EffectiveCapability(s.policy, key, c);
  }

  // ---- what each request tells of a worker ----------------------------------------------------------

  /** What the registry knows of a worker, no-shows aside. */
  datatype Known = Known(
    capability: Capability,
    source: Source,
    delivered: u32,
    lastSeen: u64,
    lastEngaged: Option<u64>,
    lastRegistration: u64)

  function KnownOf(r: Worker): Known {
    Known(r.capability, r.source, r.delivered, r.lastSeen, r.lastEngaged, r.lastRegistration)
  }

  function Before(s: State, w: Addr): Option<Known> {
    if w in s.workers then Some(KnownOf(s.workers[w])) else None
  }

  /** What a request tells of `w`, if it leaves it registered: a registration its claim, and its source the first
      time; a poll and a heartbeat for a job it holds that it is engaged; a result for a job it holds one more
      delivery. Anything else of anyone's tells nothing. */
  function Told(s: State, r: Request, w: Addr, k: Option<Known>): Option<Known> {
    match r.step
    case RegisterStep(key, c, source) =>
      if key != w then k
      else if k.None? then Some(Known(c, source, 0, r.now, None, r.now))
      else Some(k.value.(capability := c, lastSeen := r.now, lastRegistration := r.now))
    case PollStep(v) => if v == w && k.Some? then Some(k.value.(lastSeen := r.now, lastEngaged := Some(r.now))) else k
    case HeartbeatStep(v, i) =>
      if v == w && HoldsLive(s, w, i, r.now) && k.Some? then Some(k.value.(lastSeen := r.now, lastEngaged := Some(r.now))) else k
    case SubmitStep(v, i, _) =>
      if v == w && HoldsLive(s, w, i, r.now) && k.Some?
      then Some(k.value.(lastSeen := r.now, delivered := SatAdd32(k.value.delivered, 1))) else k
    case _ => k
  }

  lemma RegistrationTells(s: State, r: Request, w: Addr)
    requires r.step.RegisterStep? && |s.workers| <= 4096
    ensures var s' := Apply(s, r.step, r.now); w in s'.workers ==> Some(KnownOf(s'.workers[w])) == Told(s, r, w, Before(s, w))
  {
    if r.step.key !in s.workers {
      RegistrationExactly(s, r.step.key, r.step.capability, r.step.source, r.now);
    }
  }

  lemma PollTells(s: State, r: Request, w: Addr)
    requires r.step.PollStep? && r.step.worker in s.workers && w in s.workers
    ensures var s' := Apply(s, r.step, r.now); w in s'.workers && Some(KnownOf(s'.workers[w])) == Told(s, r, w, Before(s, w))
  {
    AssignLeavesBooks(ExpireLeases(Touch(s, r.step.worker, r.now), r.now), r.step.worker, r.now);
  }

  lemma HolderTells(s: State, r: Request, w: Addr)
    requires JobsOk(s, r.now) && (r.step.HeartbeatStep? || r.step.SubmitStep?) && w in s.workers
    ensures var s' := Apply(s, r.step, r.now); w in s'.workers && Some(KnownOf(s'.workers[w])) == Told(s, r, w, Before(s, w))
  {
    var v, i := r.step.worker, r.step.job;
    if i in s.jobs {
      assert JobOk(s.jobs[i], s.policy, r.now);
    }
    assert LeaseholderError(s, v, i, r.now).None? <==> HoldsLive(s, v, i, r.now);
  }

  lemma OtherTells(s: State, r: Request, w: Addr)
    requires JobsOk(s, r.now) && !r.step.RegisterStep? && w in s.workers
    ensures var s' := Apply(s, r.step, r.now); w in s'.workers && Some(KnownOf(s'.workers[w])) == Told(s, r, w, Before(s, w))
  {
    match r.step
    case PollStep(v) => if v in s.workers { PollTells(s, r, w); }
    case HeartbeatStep(_, _) => HolderTells(s, r, w);
    case SubmitStep(_, _, _) => HolderTells(s, r, w);
    case ExpireStep =>
    case AddJobStep(_, _) =>
    case NoteStep(_, _, _) =>
  }

  lemma RequestTells(s: State, r: Request, w: Addr)
    requires Core(s, r.now)
    ensures var s' := Mutate(s, r); w in s'.workers ==> Some(KnownOf(s'.workers[w])) == Told(s, r, w, Before(s, w))
  {
    MutateIsApply(s, r);
    if r.step.RegisterStep? {
      RegistrationTells(s, r, w);
    } else {
      RegistryFixed(s, r.step, r.now);
      if w in s.workers {
        OtherTells(s, r, w);
      }
    }
  }

  // ---- whole lives ----------------------------------------------------------------------------------

  /** What `n` moves have told of a worker since it last joined. A restart goes by the times last on file. */
  function Heard(ss: seq<State>, ms: seq<Move>, n: nat, w: Addr): Option<Known>
    requires n <= |ms| && |ss| == |ms| + 1
  {
    if n == 0 || w !in ss[n].workers then None
    else
      var k := Heard(ss, ms, n - 1, w);
      match ms[n - 1]
      case Asked(r) => Told(ss[n - 1], r, w, k)
      case Resumed(_) =>
        var file := ss[n].workers[w];
        if k.Some? then Some(k.value.(lastSeen := file.lastSeen, lastEngaged := file.lastEngaged, lastRegistration := file.lastRegistration))
        else None
  }

  /** In every life from an empty coordinator, restarts included, the registry knows of a worker exactly what the
      requests since it joined have told. */
  lemma {:induction false} RecordIsHistory(ss: seq<State>, ms: seq<Move>, t: u64, policy: Policy, n: nat, w: Addr)
    requires IsLife(ss, ms) && Timed(t, ms) && ss[0] == EmptyState(policy) && n <= |ms|
    ensures Before(ss[n], w) == Heard(ss, ms, n, w)
  {
    if n == 0 {
    } else {
      RecordIsHistory(ss, ms, t, policy, n - 1, w);
      HeardAtNext(ss, ms, t, policy, n - 1, w);
    }
  }

  lemma HeardAtNext(ss: seq<State>, ms: seq<Move>, t: u64, policy: Policy, n: nat, w: Addr)
    requires IsLife(ss, ms) && Timed(t, ms) && ss[0] == EmptyState(policy) && n < |ms|
    requires Before(ss[n], w) == Heard(ss, ms, n, w)
    ensures Before(ss[n + 1], w) == Heard(ss, ms, n + 1, w)
  {
    LifeAt(ss, ms, t, n);
    SoundThere(ss, ms, t, policy, n);
    HeardNext(ss, ms, n, w);
  }

  lemma HeardNext(ss: seq<State>, ms: seq<Move>, n: nat, w: Addr)
    requires n < |ms| && |ss| == |ms| + 1 && Moves(ss[n], ms[n], ss[n + 1]) && Core(ss[n], At(ms[n]))
    requires Before(ss[n], w) == Heard(ss, ms, n, w)
    ensures Before(ss[n + 1], w) == Heard(ss, ms, n + 1, w)
  {
    match ms[n]
    case Asked(r) => RequestTells(ss[n], r, w);
    case Resumed(now) =>
      if w in ss[n + 1].workers {
        assert WorkerResumed(ss[n].workers[w], ss[n + 1].workers[w]);
      }
  }

  lemma SoundThere(ss: seq<State>, ms: seq<Move>, t: u64, policy: Policy, n: nat)
    requires IsLife(ss, ms) && Timed(t, ms) && ss[0] == EmptyState(policy) && n < |ms|
    ensures Core(ss[n], At(ms[n])) && ss[n].policy == policy
  {
    EmptyIsFine(policy, t);
    LifeIsSound(ss, ms, t);
    assert SoundAt(ss, ms, t, n);
    LifeAt(ss, ms, t, n);
    LaterIsFine(ss[n], LeaseLives.Clock(t, ms, n), At(ms[n]));
  }

  /** A worker is forgotten exactly when a new key's registration makes it the one to forget. */
  lemma ForgottenExactly(ss: seq<State>, ms: seq<Move>, t: u64, policy: Policy, n: nat, x: Addr)
    requires IsLife(ss, ms) && Timed(t, ms) && ss[0] == EmptyState(policy) && n < |ms| && x in ss[n].workers
    ensures x !in ss[n + 1].workers <==>
              && ms[n].Asked? && ms[n].request.step.RegisterStep? && ms[n].request.step.key !in ss[n].workers
              && Forgets(ss[n], ms[n].request.step.key, ms[n].request.step.source, At(ms[n]), x)
  {
    LifeAt(ss, ms, t, n);
    SoundThere(ss, ms, t, policy, n);
    if ms[n].Asked? {
      ForgottenByRequest(ss[n], ms[n].request, x);
    }
  }

  lemma ForgottenByRequest(s: State, r: Request, x: Addr)
    requires Core(s, r.now) && x in s.workers
    ensures x !in Mutate(s, r).workers <==>
              r.step.RegisterStep? && r.step.key !in s.workers && Forgets(s, r.step.key, r.step.source, r.now, x)
  {
    MutateIsApply(s, r);
    if r.step.RegisterStep? {
      ForgottenByRegistration(s, r.step.key, r.step.capability, r.step.source, r.now, x);
    } else {
      RegistryFixed(s, r.step, r.now);
    }
  }

  lemma ForgottenByRegistration(s: State, key: Addr, c: Capability, source: Source, now: u64, x: Addr)
    requires |s.workers| <= 4096 && x in s.workers
    ensures x !in Register(s, key, c, source, now).0.workers <==> key !in s.workers && Forgets(s, key, source, now, x)
  {
    if key !in s.workers {
      RegistrationExactly(s, key, c, source, now);
    }
  }

  // ---- how often a known key may register -------------------------------------------------------------

  /** From an accepted registration on, with no restart in between, whenever the key is registered it last
      registered no earlier. */
  lemma {:induction false} RegisteredSince(ss: seq<State>, ms: seq<Move>, t: u64, policy: Policy, m: nat, n: nat, key: Addr)
    requires IsLife(ss, ms) && Timed(t, ms) && ss[0] == EmptyState(policy) && m < n <= |ms|
    requires ms[m].Asked? && ms[m].request.step.RegisterStep? && ms[m].request.step.key == key && key in ss[m + 1].workers
    requires forall k | m < k < n :: ms[k].Asked?
    ensures key in ss[n].workers ==> ss[n].workers[key].lastRegistration >= At(ms[m])
    decreases n
  {
    RecordIsHistory(ss, ms, t, policy, n, key);
    RecordIsHistory(ss, ms, t, policy, n - 1, key);
    if m < n - 1 {
      RegisteredSince(ss, ms, t, policy, m, n - 1, key);
      assert ms[n - 1].Asked?;
    }
  }

  /** A registered key's registration is a replay, or too soon after its last, with exactly the time still to wait,
      or accepted; a refusal leaves everything as it was. */
  lemma KnownKeyIsAnswered(s: State, b: Budget, f: Form, refreshSecs: u64, now: u64, nowNanos: u64)
    requires f.key in s.workers
    ensures var (s', b', r) := RegisterInner(s, b, f, refreshSecs, now, nowNanos);
            var next := SatAdd(s.workers[f.key].lastRegistration, refreshSecs);
            && (r == Err(Replay) <==> (f.key, f.ts) in s.recent)
            && (r.Ok? <==> (f.key, f.ts) !in s.recent && next <= now)
            && (r.Err? && r != Err(Replay) ==> now < next && r == Err(TooSoon(next - now)))
            && (r.Err? ==> s' == s) && b' == b
  {
  }

  /** However it is asked, a key that registered is not accepted again within the refresh interval while the
      coordinator runs: each further attempt is a replay, or is told to wait until an interval after its last
      registration, and changes nothing. */
  lemma RefreshIsPaced(ss: seq<State>, ms: seq<Move>, t: u64, policy: Policy, m: nat, n: nat, key: Addr,
                       b: Budget, f: Form, refreshSecs: u64, now: u64, nowNanos: u64)
    requires IsLife(ss, ms) && Timed(t, ms) && ss[0] == EmptyState(policy) && m < n <= |ms|
    requires ms[m].Asked? && ms[m].request.step.RegisterStep? && ms[m].request.step.key == key && key in ss[m + 1].workers
    requires forall k | m < k < n :: ms[k].Asked?
    requires f.key == key && key in ss[n].workers && now < SatAdd(At(ms[m]), refreshSecs)
    ensures Heard(ss, ms, n, key).Some?
    ensures var (s', b', r) := RegisterInner(ss[n], b, f, refreshSecs, now, nowNanos);
            && s' == ss[n] && b' == b
            && (r == Err(Replay) || r == Err(TooSoon(SatSub(SatAdd(Heard(ss, ms, n, key).value.lastRegistration, refreshSecs), now))))
  {
    RecordIsHistory(ss, ms, t, policy, n, key);
    RegisteredSince(ss, ms, t, policy, m, n, key);
    KnownKeyIsAnswered(ss[n], b, f, refreshSecs, now, nowNanos);
  }

  // ---- the history a full penalty map gives up --------------------------------------------------------

  /** Making room pushes a forgotten worker's history out only of a full penalty map, and of those there the one
      whose cool-down ends first. */
  lemma DisplacesTheEarliest(penalties: map<Addr, Penalty>, id: Addr, p: Penalty, k: Addr)
    requires k in penalties && k !in KeepPenalty(penalties, id, p)
    ensures |penalties| >= 4096 && id !in penalties && EndsFirst(penalties, k)
  {
    assert PenaltyScores(penalties).Keys == penalties.Keys && IsMinKey(PenaltyScores(penalties), k);
  }

  predicate EndsFirst(penalties: map<Addr, Penalty>, k: Addr)
    requires k in penalties
  {
    forall x | x in penalties ::
      penalties[k].cooldownUntil < penalties[x].cooldownUntil
      || (penalties[k].cooldownUntil == penalties[x].cooldownUntil && k <= x)
  }

  /** A worker's history is worth keeping while it has no-shows against it or is cooling down. */
  predicate Matters(r: Worker, now: u64) {
    r.noshows > 0 || r.cooldownUntil > now
  }

  /** What a registration makes of the penalties: the newcomer's is its own again; the forgotten worker's is kept
      exactly if it matters; any other that goes was, of a full map, the first to end. */
  ghost predicate PenaltiesAfter(s: State, key: Addr, source: Source, now: u64, s': State, k: Addr) {
    && key !in s'.penalties
    && (k != key && Forgets(s, key, source, now, k) ==>
          && k in s.workers && (k in s'.penalties <==> Matters(s.workers[k], now))
          && (k in s'.penalties ==> s'.penalties[k] == Penalty(s.workers[k].noshows, s.workers[k].cooldownUntil)))
    && (k != key && !Forgets(s, key, source, now, k) && k in s'.penalties ==> k in s.penalties && s'.penalties[k] == s.penalties[k])
    && (k != key && k in s.penalties && k !in s'.penalties ==>
          && |s.penalties| >= 4096 && EndsFirst(s.penalties, k)
          && exists x :: Forgets(s, key, source, now, x) && x in s.workers && Matters(s.workers[x], now))
  }

  lemma NobodysPenalty(s: State, room: State, key: Addr, c: Capability, source: Source, now: u64, k: Addr)
    requires key !in s.workers && room == s && forall x :: !Forgets(s, key, source, now, x)
    ensures PenaltiesAfter(s, key, source, now, Admit(room, key, c, source, now), k)
  {
  }

  lemma PenaltiesAside(s: State, x: Addr, now: u64, k: Addr)
    requires s.workers.Keys !! s.penalties.Keys && x in s.workers
    ensures var r, p := s.workers[x], ForgetWorker(s, x, now).penalties;
            && (x in p <==> Matters(r, now)) && (x in p ==> p[x] == Penalty(r.noshows, r.cooldownUntil))
            && (k != x && k in p ==> k in s.penalties && p[k] == s.penalties[k])
            && (k in s.penalties && k !in p ==> |s.penalties| >= 4096 && EndsFirst(s.penalties, k) && Matters(r, now))
  {
    var r := s.workers[x];
    if Matters(r, now) {
      var p := KeepPenalty(s.penalties, x, Penalty(r.noshows, r.cooldownUntil));
      if k in s.penalties && k !in p {
        DisplacesTheEarliest(s.penalties, x, Penalty(r.noshows, r.cooldownUntil), k);
      }
    }
  }

  lemma ForgottensPenalty(s: State, x: Addr, key: Addr, c: Capability, source: Source, now: u64, k: Addr)
    requires key !in s.workers && s.workers.Keys !! s.penalties.Keys && x in s.workers && Forgets(s, key, source, now, x)
    ensures PenaltiesAfter(s, key, source, now, Admit(ForgetWorker(s, x, now), key, c, source, now), k)
  {
    PenaltiesAside(s, x, now, k);
    if Forgets(s, key, source, now, k) {
      OneIsForgotten(s, key, source, now, x, k);
    }
  }

  /** Over every accepted newcomer's registration the penalties change by exactly that. */
  lemma PenaltiesExactly(s: State, key: Addr, c: Capability, source: Source, now: u64, k: Addr)
    requires key !in s.workers && |s.workers| <= 4096 && s.workers.Keys !! s.penalties.Keys
    ensures var (s', r) := Register(s, key, c, source, now); r.Ok? ==> PenaltiesAfter(s, key, source, now, s', k)
  {
    var s0 := s.(dirty := true);
    DirtyAside(s, s0, key, source, now);
    NewcomerExactly(s0, key, c, source, now);
    RegisterDirtied(s, key, c, source, now);
    var (s', r) := Register(s, key, c, source, now);
    if r.Ok? {
      var room :| MadeRoom(s0, room, key, source, now) && s' == Admit(room, key, c, source, now);
      if x :| Forgets(s0, key, source, now, x) && room == ForgetWorker(s0, x, now) {
        ForgottensPenalty(s0, x, key, c, source, now, k);
      } else {
        NobodysPenalty(s0, room, key, c, source, now, k);
      }
      SamePenalties(s, s0, key, source, now, s', k);
    }
  }

  lemma SamePenalties(s: State, s0: State, key: Addr, source: Source, now: u64, s': State, k: Addr)
    requires s0 == s.(dirty := true) && PenaltiesAfter(s0, key, source, now, s', k)
    ensures PenaltiesAfter(s, key, source, now, s', k)
  {
    DirtyAside(s, s0, key, source, now);
  }
}
