/** Saves, crashes and restarts around the state machine: the dirty flag never misses anything
    a restart needs, and a restart never shortens a lease. */
module Persistence {
  import opened Base
  import opened LeaseSpec
  import opened LeaseRuns
  import opened LeaseInvariants
  import opened LeaseTheorems
  import opened LeaseLives

  /** A save replaces the file, or fails having left the old file or already put the new one in place. */
  datatype SaveOutcome = Saved | FailedOld | FailedNew

  datatype System = Up(mem: State, disk: State) | Down(disk: State)

  datatype Event =
    | Ask(step: Step, now: u64, outcome: SaveOutcome)
    | Crash(now: u64)
    | Boot(now: u64, outcome: SaveOutcome)

  function Forgetful(j: Job): Job {
    j.(persistedExpiry := 0)
  }

  /** What a save writes: everything but the flag and the heartbeat stamps. */
  function Serialize(s: State): State {
    s.(jobs := map i | i in s.jobs :: Forgetful(s.jobs[i]), dirty := false)
  }

  /** The file after trying to save `s` over `disk`. */
  function DiskAfter(s: State, disk: State, outcome: SaveOutcome): State {
    if outcome.FailedOld? then disk else Serialize(s)
  }

  /** `open_with` up to its save. */
  function Restored(disk: State, policy: Policy, now: u64): State {
    GraceLiveLeases(RevokeOutOfPolicy(disk.(policy := policy)), now)
  }

  ghost function Next(sys: System, e: Event, policy: Policy): System {
    match e
    case Ask(step, now, outcome) =>
      if sys.Down? then sys
      else
        var r := Request(step, now, outcome.Saved?);
        var s1 := Apply(sys.mem, step, now);
        Up(Mutate(sys.mem, r), if s1.dirty then DiskAfter(TakeDirty(s1), sys.disk, outcome) else sys.disk)
    case Crash(_) => Down(sys.disk)
    case Boot(now, outcome) =>
      if sys.Up? then sys
      else
        var s1 := Restored(sys.disk, policy, now);
        var disk := if s1.dirty then DiskAfter(TakeDirty(s1), sys.disk, outcome) else sys.disk;
        if s1.dirty && !outcome.Saved? then Down(disk) else Up(TakeDirty(s1), disk)
  }

  ghost predicate IsHistory(xs: seq<System>, es: seq<Event>, policy: Policy) {
    && |xs| == |es| + 1
    && forall k | 0 <= k < |es| :: xs[k + 1] == Next(xs[k], es[k], policy)
  }

  ghost predicate Timely(es: seq<Event>) {
    forall k, m | 0 <= k < m < |es| :: es[k].now <= es[m].now
  }

  // ---- dirty-flag soundness -----------------------------------------------------------

  /** The same job, but for a lease that may have been extended by less than one persist step
      past the stamp, and not to its deadline unless that is the stamp. */
  ghost predicate JobSettled(a: Job, b: Job) {
    && b == a.(status := b.status)
    && (|| b.status == a.status
        || (a.status.Leased? && b.status.Leased? && b.status.worker == a.status.worker
            && Hard(b.status) == Hard(a.status) && a.status.expiresAt <= b.status.expiresAt <= Hard(a.status)
            && b.status.expiresAt < SatAdd(a.persistedExpiry, HEARTBEAT_PERSIST_STEP_SECS)
            && (b.status.expiresAt == Hard(b.status) ==> a.persistedExpiry == Hard(b.status))))
  }

  /** Nothing a restart needs has changed. */
  ghost predicate Settled(s: State, s': State) {
    && s'.jobs.Keys == s.jobs.Keys && (forall i | i in s.jobs :: JobSettled(s.jobs[i], s'.jobs[i]))
    && s'.workers.Keys == s.workers.Keys && (forall w | w in s.workers :: WorkerResumed(s.workers[w], s'.workers[w]))
    && s'.sources == s.sources && s'.penalties == s.penalties && s'.policy == s.policy
    && s'.recent <= s.recent
  }

  lemma {:induction false} NoLapsesNoGroups(s: State, ids: set<JobId>, now: u64)
    requires !AnyLapsed(s, now)
    ensures LapsedGroups(s, ids, now) == []
    decreases ids
  {
    if ids != {} {
      NoLapsesNoGroups(s, ids - {Least(ids)}, now);
    }
  }

  lemma CleanExpiry(s: State, now: u64)
    requires !ExpireLeases(s, now).dirty
    ensures ExpireLeases(s, now) == s
  {
    NoLapsesNoGroups(s, s.jobs.Keys, now);
    var s' := ExpireLeases(s, now);
    assert s'.jobs == s.jobs;
    forall w | w in s.workers ensures s'.workers[w] == s.workers[w] {
      assert LapsedOf(s, s.jobs.Keys, w, now) == {};
    }
    assert s'.workers == s.workers;
  }

  lemma CleanPoll(s: State, w: Addr, now: u64)
    requires w in s.workers && !Lease(s, w, now).0.dirty
    ensures Lease(s, w, now).0 == Touch(s, w, now)
  {
    CleanExpiry(Touch(s, w, now), now);
  }

  lemma CleanPollSettles(s: State, w: Addr, now: u64)
    requires !Lease(s, w, now).0.dirty
    ensures Settled(s, Lease(s, w, now).0)
  {
    if w in s.workers {
      CleanPoll(s, w, now);
    }
  }

  lemma CleanSubmit(s: State, w: Addr, i: JobId, result: string, now: u64)
    requires !Submit(s, w, i, result, now).0.dirty
    ensures Settled(s, Submit(s, w, i, result, now).0)
  {
  }

  lemma CleanRegister(s: State, key: Addr, c: Capability, source: Source, now: u64)
    requires !Register(s, key, c, source, now).0.dirty
    ensures Settled(s, Register(s, key, c, source, now).0)
  {
    if key !in s.workers {
      NewcomerIsDirty(s, key, c, source, now);
    }
  }

  lemma NewcomerIsDirty(s: State, key: Addr, c: Capability, source: Source, now: u64)
    requires key !in s.workers
    ensures Register(s, key, c, source, now).0.dirty
  {
    var s0 := s.(dirty := true);
    SourceRoomKeepsFlag(s0, source, now);
    var room := if key in s.policy.trusted then Ok(s0) else MakeRoomForSource(s0, source, now);
    if room.Ok? {
      RegistryRoomKeepsFlag(room.value, Holders(s, now), now);
    }
  }

  lemma SourceRoomKeepsFlag(s: State, source: Source, now: u64)
    ensures var r := MakeRoomForSource(s, source, now); r.Ok? ==> r.value.dirty == s.dirty
  {
  }

  lemma RegistryRoomKeepsFlag(s: State, holders: set<Addr>, now: u64)
    ensures var r := MakeRoomInRegistry(s, holders, now); r.Ok? ==> r.value.dirty == s.dirty
  {
  }

  lemma CleanHeartbeat(s: State, w: Addr, i: JobId, now: u64)
    requires JobsOk(s, now) && !Renew(s, w, i, now).0.dirty
    ensures Settled(s, Renew(s, w, i, now).0)
  {
    var s' := Renew(s, w, i, now).0;
    if LeaseholderError(s, w, i, now).None? {
      assert JobOk(s.jobs[i], s.policy, now);
      assert JobSettled(s.jobs[i], s'.jobs[i]);
    }
  }

  /** Dirty-flag soundness: a request that leaves the flag clear has changed nothing a restart
      needs, apart from a lease end that moved by less than one persist step. */
  lemma CleanRequestSettles(s: State, step: Step, now: u64)
    requires JobsOk(s, now) && !Apply(s, step, now).dirty
    ensures Settled(s, Apply(s, step, now))
  {
    match step
    case RegisterStep(key, c, source) => CleanRegister(s, key, c, source, now);
    case PollStep(w) => CleanPollSettles(s, w, now);
    case HeartbeatStep(w, i) => CleanHeartbeat(s, w, i, now);
    case ExpireStep => CleanExpiry(s, now);
    case AddJobStep(_, _) =>
    case NoteStep(_, _, _) =>
    case SubmitStep(w, i, result) => CleanSubmit(s, w, i, result, now);
  }

  /** No request clears the flag. */
  lemma FlagOnlyRises(s: State, step: Step, now: u64)
    requires s.dirty
    ensures Apply(s, step, now).dirty
  {
    match step
    case RegisterStep(key, c, source) => if key !in s.workers { NewcomerIsDirty(s, key, c, source, now); }
    case PollStep(w) => if w in s.workers { PollKeepsFlag(s, w, now); }
    case HeartbeatStep(_, _) =>
    case ExpireStep =>
    case AddJobStep(_, _) =>
    case NoteStep(_, _, _) =>
    case SubmitStep(_, _, _) =>
  }

  lemma PollKeepsFlag(s: State, w: Addr, now: u64)
    requires s.dirty && w in s.workers
    ensures Lease(s, w, now).0.dirty
  {
    assert ExpireLeases(Touch(s, w, now), now).dirty;
  }

  // ---- memory and disk ------------------------------------------------------------------

  /** A job as memory has it, `m`, and as the file has it, `d`. */
  ghost predicate JobTied(m: Job, d: Job) {
    && d == m.(status := d.status, persistedExpiry := 0)
    && (if m.status.Leased? then
          && d.status.Leased? && d.status.worker == m.status.worker && Hard(d.status) == Hard(m.status)
          && d.status.expiresAt <= m.status.expiresAt
          && m.persistedExpiry <= d.status.expiresAt
          && (|| m.status.expiresAt == d.status.expiresAt
              || (m.status.expiresAt < SatAdd(m.persistedExpiry, HEARTBEAT_PERSIST_STEP_SECS)
                  && m.status.expiresAt < Hard(m.status)))
        else d.status == m.status)
  }

  /** The file is as good as memory for a restart. */
  ghost predicate Tied(mem: State, disk: State) {
    && disk.jobs.Keys == mem.jobs.Keys && (forall i | i in mem.jobs :: JobTied(mem.jobs[i], disk.jobs[i]))
    && disk.workers.Keys == mem.workers.Keys
    && (forall w | w in mem.workers :: WorkerResumed(disk.workers[w], mem.workers[w]))
    && disk.sources == mem.sources && disk.penalties == mem.penalties && mem.recent <= disk.recent
  }

  /** The expiry on disk trails the one in memory by less than one persist step, and not at all once that is
      the deadline. */
  lemma TrailsByLessThanAStep(mem: State, disk: State, i: JobId)
    requires Tied(mem, disk) && i in mem.jobs && mem.jobs[i].status.Leased?
    ensures disk.jobs[i].status.Leased?
         && disk.jobs[i].status.expiresAt <= mem.jobs[i].status.expiresAt
         && mem.jobs[i].status.expiresAt - disk.jobs[i].status.expiresAt < HEARTBEAT_PERSIST_STEP_SECS
         && (mem.jobs[i].status.expiresAt == Hard(mem.jobs[i].status) ==> disk.jobs[i].status.expiresAt == mem.jobs[i].status.expiresAt)
  {
    assert JobTied(mem.jobs[i], disk.jobs[i]);
  }

  /** A heartbeat costs a save exactly when it takes the lease's end a persist step past the one on file, or to the
      deadline when the one on file falls short of it. */
  lemma HeartbeatSavesExactlyWhen(mem: State, disk: State, w: Addr, i: JobId, now: u64)
    requires Tied(mem, disk) && !mem.dirty && Renew(mem, w, i, now).1.Ok?
    requires i in mem.jobs && disk.jobs[i].status.Leased? && mem.jobs[i].persistedExpiry == disk.jobs[i].status.expiresAt
    ensures var (s', until) := Renew(mem, w, i, now); var file := disk.jobs[i].status.expiresAt;
            mem.jobs[i].status.Leased?
            && (s'.dirty <==> until.value >= SatAdd(file, 300)
                              || (until.value == Hard(mem.jobs[i].status) && file < Hard(mem.jobs[i].status)))
  {
    assert JobTied(mem.jobs[i], disk.jobs[i]);
  }

  lemma SavingTies(s: State)
    requires s.dirty
    ensures Tied(TakeDirty(s), Serialize(TakeDirty(s)))
  {
    var m := TakeDirty(s);
    forall i | i in m.jobs ensures JobTied(m.jobs[i], Serialize(m).jobs[i]) {
    }
  }

  lemma SettledStaysTied(s: State, s': State, disk: State)
    requires Tied(s, disk) && Settled(s, s')
    ensures Tied(s', disk)
  {
    forall i | i in s'.jobs ensures JobTied(s'.jobs[i], disk.jobs[i]) {
      assert JobSettled(s.jobs[i], s'.jobs[i]) && JobTied(s.jobs[i], disk.jobs[i]);
    }
    forall w | w in s'.workers ensures WorkerResumed(disk.workers[w], s'.workers[w]) {
      assert WorkerResumed(s.workers[w], s'.workers[w]) && WorkerResumed(disk.workers[w], s.workers[w]);
    }
  }

  // ---- what survives restarts -------------------------------------------------------------

  /** Every request keeps leases within the clock's window, their deadline and the policy,
      whatever happened before. */
  lemma ApplyKeepsJobsOk(s: State, step: Step, now: u64)
    requires JobsOk(s, now)
    ensures JobsOk(Apply(s, step, now), now) && Apply(s, step, now).policy == s.policy
  {
    match step
    case RegisterStep(key, c, source) => RegisterLeavesJobs(s, key, c, source, now);
    case PollStep(w) => if w in s.workers { PollKeepsJobsOk(s, w, now); }
    case ExpireStep => ExpireKeepsJobsOk(s, now);
    case HeartbeatStep(w, i) => RenewKeepsJobsOk(s, w, i, now);
    case SubmitStep(w, i, result) => SubmitKeepsJobsOk(s, w, i, result, now);
    case AddJobStep(_, _) =>
    case NoteStep(_, _, _) =>
  }

  lemma ExpireKeepsJobsOk(s: State, now: u64)
    requires JobsOk(s, now)
    ensures JobsOk(ExpireLeases(s, now), now)
  {
    var s' := ExpireLeases(s, now);
    forall i | i in s'.jobs ensures JobOk(s'.jobs[i], s'.policy, now) {
      assert JobOk(s.jobs[i], s.policy, now);
    }
  }

  lemma PollKeepsJobsOk(s: State, w: Addr, now: u64)
    requires JobsOk(s, now) && w in s.workers
    ensures JobsOk(Lease(s, w, now).0, now) && Lease(s, w, now).0.policy == s.policy
  {
    var t := Touch(s, w, now);
    assert JobsOk(t, now);
    ExpireKeepsJobsOk(t, now);
    BestOfEligible(ExpireLeases(t, now), w, now);
    AssignKeepsJobsOk(ExpireLeases(t, now), w, now);
  }

  lemma AssignKeepsJobsOk(s: State, w: Addr, now: u64)
    requires JobsOk(s, now) && w in s.workers
    ensures JobsOk(Assign(s, w, now).0, now) && Assign(s, w, now).0.policy == s.policy
  {
    BestOfEligible(s, w, now);
    var (s', r) := Assign(s, w, now);
    if r.Ok? {
      TierIsEnough(s.policy, w, s.workers[w].capability, s.jobs[r.value].spec.tier);
      assert JobOk(s'.jobs[r.value], s.policy, now);
    }
  }

  lemma RenewKeepsJobsOk(s: State, w: Addr, i: JobId, now: u64)
    requires JobsOk(s, now)
    ensures JobsOk(Renew(s, w, i, now).0, now)
  {
    assert i in s.jobs ==> JobOk(s.jobs[i], s.policy, now);
  }

  lemma SubmitKeepsJobsOk(s: State, w: Addr, i: JobId, result: string, now: u64)
    requires JobsOk(s, now)
    ensures JobsOk(Submit(s, w, i, result, now).0, now)
  {
    assert i in s.jobs ==> JobOk(s.jobs[i], s.policy, now);
  }

  lemma JobsOkLater(s: State, t: u64, now: u64)
    requires JobsOk(s, t) && t <= now
    ensures JobsOk(s, now)
  {
    forall i | i in s.jobs ensures JobOk(s.jobs[i], s.policy, now) {
      assert JobOk(s.jobs[i], s.policy, t);
    }
  }

  lemma SavedKeepsJobsOk(s: State, now: u64)
    requires JobsOk(s, now)
    ensures JobsOk(TakeDirty(s), now) && JobsOk(TakeDirty(s).(dirty := true), now)
    ensures JobsOk(Serialize(TakeDirty(s)), now)
  {
    forall i | i in s.jobs ensures JobOk(TakeDirty(s).jobs[i], s.policy, now) {
      assert JobOk(s.jobs[i], s.policy, now);
    }
  }

  /** With the policy unchanged a restart revokes nothing and only lengthens leases. */
  ghost predicate JobRestored(d: Job, b: Job, window: u64, now: u64) {
    && b == d.(status := b.status)
    && (if d.status.Leased? then
          && b.status.Leased? && b.status.worker == d.status.worker && Hard(b.status) == Hard(d.status)
          && b.status.expiresAt
             == if Hard(d.status) > now then Extended(d.status, window, now) else d.status.expiresAt
        else b.status == d.status)
  }

  lemma RestoredJobs(disk: State, now: u64)
    requires JobsOk(disk, now)
    ensures var b := Restored(disk, disk.policy, now);
            && b.jobs.Keys == disk.jobs.Keys && b.workers == disk.workers && b.policy == disk.policy
            && b.sources == disk.sources && b.penalties == disk.penalties && b.recent == disk.recent
            && (forall i | i in disk.jobs :: JobRestored(disk.jobs[i], b.jobs[i], disk.policy.leaseWindow, now))
            && (!b.dirty ==> !disk.dirty && b.jobs == disk.jobs)
            && JobsOk(b, now)
  {
    var revoked := RevokeOutOfPolicy(disk);
    forall i | i in disk.jobs ensures RevokedJob(disk.policy, disk.jobs[i]) == disk.jobs[i] {
      assert JobOk(disk.jobs[i], disk.policy, now);
    }
    assert revoked.jobs == disk.jobs;
    assert disk.(policy := disk.policy) == disk;
    var b := Restored(disk, disk.policy, now);
    forall i | i in disk.jobs
      ensures JobRestored(disk.jobs[i], b.jobs[i], disk.policy.leaseWindow, now) && JobOk(b.jobs[i], b.policy, now)
    {
      assert JobOk(disk.jobs[i], disk.policy, now);
    }
    if !b.dirty {
      assert b.jobs == disk.jobs;
    }
  }

  // ---- the invariant over every history ---------------------------------------------------

  ghost predicate Unstamped(disk: State) {
    !disk.dirty && forall i | i in disk.jobs :: disk.jobs[i].persistedExpiry == 0
  }

  ghost predicate SysInv(sys: System, policy: Policy, t: u64) {
    && sys.disk.policy == policy && JobsOk(sys.disk, t) && Unstamped(sys.disk)
    && (sys.Up? ==> sys.mem.policy == policy && JobsOk(sys.mem, t) && (!sys.mem.dirty ==> Tied(sys.mem, sys.disk)))
  }

  lemma AskKeeps(mem: State, disk: State, step: Step, now: u64, outcome: SaveOutcome, policy: Policy)
    requires SysInv(Up(mem, disk), policy, now)
    ensures SysInv(Next(Up(mem, disk), Ask(step, now, outcome), policy), policy, now)
  {
    var s1 := Apply(mem, step, now);
    ApplyKeepsJobsOk(mem, step, now);
    SavedKeepsJobsOk(s1, now);
    if s1.dirty {
      SavingTies(s1);
    } else {
      if mem.dirty {
        FlagOnlyRises(mem, step, now);
      }
      CleanRequestSettles(mem, step, now);
      SettledStaysTied(mem, s1, disk);
    }
  }

  lemma BootKeeps(disk: State, now: u64, outcome: SaveOutcome, policy: Policy)
    requires SysInv(Down(disk), policy, now)
    ensures SysInv(Next(Down(disk), Boot(now, outcome), policy), policy, now)
  {
    var s1 := Restored(disk, policy, now);
    RestoredJobs(disk, now);
    SavedKeepsJobsOk(s1, now);
    if s1.dirty {
      SavingTies(s1);
    } else {
      forall i | i in s1.jobs ensures JobTied(s1.jobs[i], disk.jobs[i]) {
      }
      assert Tied(s1, disk);
    }
  }

  lemma NextKeeps(sys: System, e: Event, policy: Policy, t: u64)
    requires SysInv(sys, policy, t) && t <= e.now
    ensures SysInv(Next(sys, e, policy), policy, e.now)
  {
    JobsOkLater(sys.disk, t, e.now);
    if sys.Up? {
      JobsOkLater(sys.mem, t, e.now);
    }
    match e
    case Ask(step, now, outcome) => if sys.Up? { AskKeeps(sys.mem, sys.disk, step, now, outcome, policy); }
    case Crash(_) =>
    case Boot(now, outcome) => if sys.Down? { BootKeeps(sys.disk, now, outcome, policy); }
  }

  lemma EmptyIsSound(policy: Policy)
    ensures SysInv(Down(EmptyState(policy)), policy, 0)
  {
  }

  lemma StepKeeps(xs: seq<System>, es: seq<Event>, policy: Policy, t: u64, k: nat)
    requires IsHistory(xs, es, policy) && k < |es| && SysInv(xs[k], policy, t) && t <= es[k].now
    ensures SysInv(xs[k + 1], policy, es[k].now)
  {
    NextKeeps(xs[k], es[k], policy, t);
  }

  ghost predicate KeepsAt(xs: seq<System>, es: seq<Event>, policy: Policy, k: nat)
    requires k < |es| && |xs| == |es| + 1
  {
    forall t: u64 :: SysInv(xs[k], policy, t) && t <= es[k].now ==> SysInv(xs[k + 1], policy, es[k].now)
  }

  lemma {:induction false} SoundThroughout(xs: seq<System>, es: seq<Event>, policy: Policy, k: nat)
    requires |xs| == |es| + 1 && Timely(es) && k <= |es| && SysInv(xs[0], policy, 0)
    requires forall n | 0 <= n < |es| :: KeepsAt(xs, es, policy, n)
    ensures SysInv(xs[k], policy, if k == 0 then 0 else es[k - 1].now)
  {
    if k > 0 {
      SoundThroughout(xs, es, policy, k - 1);
      assert KeepsAt(xs, es, policy, k - 1);
    }
  }

  /** Over every history of requests, failed saves, crashes and boots: whenever memory is clean,
      the file says everything a restart needs, its lease ends trailing by less than a step. */
  lemma CleanMeansSaved(xs: seq<System>, es: seq<Event>, policy: Policy, k: nat)
    requires IsHistory(xs, es, policy) && Timely(es) && k <= |es| && xs[0] == Down(EmptyState(policy))
    ensures SysInv(xs[k], policy, if k == 0 then 0 else es[k - 1].now)
  {
    EmptyIsSound(policy);
    forall n | 0 <= n < |es| ensures KeepsAt(xs, es, policy, n) {
      forall t: u64 | SysInv(xs[n], policy, t) && t <= es[n].now ensures SysInv(xs[n + 1], policy, es[n].now) {
        StepKeeps(xs, es, policy, t, n);
      }
    }
    SoundThroughout(xs, es, policy, k);
  }

  /** A failed save keeps the change pending: the flag stays up until a save succeeds, and then
      the file has everything. */
  lemma FailedSaveStaysPending(mem: State, disk: State, step: Step, now: u64, outcome: SaveOutcome, policy: Policy)
    requires mem.dirty
    ensures var sys := Next(Up(mem, disk), Ask(step, now, outcome), policy);
            && sys.mem.dirty == !outcome.Saved?
            && (outcome.Saved? ==> sys.disk == Serialize(sys.mem) && Tied(sys.mem, sys.disk))
  {
    FlagOnlyRises(mem, step, now);
    SavingTies(Apply(mem, step, now));
  }

  // ---- restarts and leases ------------------------------------------------------------------

  /** The file has `w` holding job `i` with last possible second `hard`. */
  predicate DiskHolds(disk: State, i: JobId, w: Addr, hard: u64) {
    && i in disk.jobs && disk.jobs[i].status.Leased? && disk.jobs[i].status.worker == w
    && Hard(disk.jobs[i].status) == hard
  }

  /** Boot attempts, failed ones included, keep the lease on file. */
  lemma {:induction false} BootsKeepHolding(xs: seq<System>, es: seq<Event>, policy: Policy, t: u64,
                                            i: JobId, w: Addr, hard: u64, k: nat)
    requires IsHistory(xs, es, policy) && Timely(es) && k <= |es| && (es != [] ==> t <= es[0].now)
    requires SysInv(xs[0], policy, t) && xs[0].Down? && DiskHolds(xs[0].disk, i, w, hard)
    requires forall m | 0 <= m < k :: es[m].Boot? && xs[m + 1].Down?
    ensures xs[k].Down? && DiskHolds(xs[k].disk, i, w, hard) && xs[k].disk.workers == xs[0].disk.workers
    ensures SysInv(xs[k], policy, if k == 0 then t else es[k - 1].now)
  {
    if k > 0 {
      var t1 := if k == 1 then t else es[k - 2].now;
      BootsKeepHolding(xs, es, policy, t, i, w, hard, k - 1);
      StepKeeps(xs, es, policy, t1, k - 1);
      FailedBootHolds(xs, es, policy, t1, i, w, hard, k - 1);
    }
  }

  lemma FailedBootHolds(xs: seq<System>, es: seq<Event>, policy: Policy, t: u64, i: JobId, w: Addr, hard: u64, k: nat)
    requires IsHistory(xs, es, policy) && k < |es| && SysInv(xs[k], policy, t) && t <= es[k].now
    requires xs[k].Down? && DiskHolds(xs[k].disk, i, w, hard) && es[k].Boot? && xs[k + 1].Down?
    ensures DiskHolds(xs[k + 1].disk, i, w, hard) && xs[k + 1].disk.workers == xs[k].disk.workers
  {
    var now := es[k].now;
    JobsOkLater(xs[k].disk, t, now);
    RestoredJobs(xs[k].disk, now);
    assert JobRestored(xs[k].disk.jobs[i], Restored(xs[k].disk, policy, now).jobs[i], policy.leaseWindow, now);
  }

  /** A successful boot gives the lease back, at least as long as it ever was. */
  lemma BootGivesBack(disk: State, policy: Policy, t: u64, now: u64, outcome: SaveOutcome,
                      i: JobId, w: Addr, hard: u64, e: u64)
    requires SysInv(Down(disk), policy, t) && t <= now && DiskHolds(disk, i, w, hard)
    requires e <= hard && e <= SatAdd(now, policy.leaseWindow)
    requires Next(Down(disk), Boot(now, outcome), policy).Up?
    ensures var mem := Next(Down(disk), Boot(now, outcome), policy).mem;
            && mem.workers == disk.workers && mem.penalties == disk.penalties
            && i in mem.jobs && mem.jobs[i].status.Leased? && mem.jobs[i].status.worker == w
            && Hard(mem.jobs[i].status) == hard
            && (hard > now ==> e <= mem.jobs[i].status.expiresAt
                               && Min(SatAdd(now, policy.leaseWindow), hard) <= mem.jobs[i].status.expiresAt)
  {
    JobsOkLater(disk, t, now);
    RestoredJobs(disk, now);
    assert JobRestored(disk.jobs[i], Restored(disk, policy, now).jobs[i], policy.leaseWindow, now);
  }

  /** Crash and restart never shorten a lease. With the last save successful, a crash, any number
      of failed boots and one that succeeds (the policy unchanged, the clock not going back) leave
      every lease that was held in memory held by the same worker with the same deadline and,
      unless that deadline has passed, at least as long as before and as one window from the boot; and nobody has been charged
      a no-show. */
  lemma RestartNeverShortens(mem: State, disk: State, policy: Policy, t: u64, xs: seq<System>, es: seq<Event>, i: JobId)
    requires SysInv(Up(mem, disk), policy, t) && !mem.dirty && i in mem.jobs && mem.jobs[i].status.Leased?
    requires IsHistory(xs, es, policy) && Timely(es) && es != [] && t <= es[0].now && xs[0] == Down(disk)
    requires forall m | 0 <= m < |es| :: es[m].Boot?
    requires (forall m | 0 < m < |es| :: xs[m].Down?) && xs[|es|].Up?
    ensures var before := mem.jobs[i].status; var now := es[|es| - 1].now; var after := xs[|es|].mem;
            && i in after.jobs && after.jobs[i].status.Leased? && after.jobs[i].status.worker == before.worker
            && Hard(after.jobs[i].status) == Hard(before)
            && (Hard(before) > now ==> before.expiresAt <= after.jobs[i].status.expiresAt
                                       && Min(SatAdd(now, policy.leaseWindow), Hard(before)) <= after.jobs[i].status.expiresAt)
            && after.workers.Keys == mem.workers.Keys
            && forall v | v in mem.workers :: after.workers[v].noshows == mem.workers[v].noshows
                                          && after.workers[v].cooldownUntil == mem.workers[v].cooldownUntil
  {
    var st := mem.jobs[i].status;
    var n := |es| - 1;
    assert JobTied(mem.jobs[i], disk.jobs[i]) && JobOk(mem.jobs[i], policy, t);
    BootsKeepHolding(xs, es, policy, t, i, st.worker, Hard(st), n);
    assert xs[n + 1] == Next(xs[n], es[n], policy);
    BootGivesBack(xs[n].disk, policy, if n == 0 then t else es[n - 1].now, es[n].now, es[n].outcome,
                  i, st.worker, Hard(st), st.expiresAt);
  }

  /** Under a new policy a boot requeues exactly the leases that policy rules out, charging nobody. */
  lemma TightenedPolicyRequeues(disk: State, policy: Policy, now: u64, i: JobId)
    requires i in disk.jobs && disk.jobs[i].status.Leased?
    ensures var b := Restored(disk, policy, now);
            && i in b.jobs && b.workers == disk.workers && b.penalties == disk.penalties && b.sources == disk.sources
            && (b.jobs[i].status == Pending <==> !TierAllowed(policy, disk.jobs[i].status.worker, disk.jobs[i].spec.tier))
            && (b.jobs[i].status == Pending ==> b.dirty && b.jobs[i].failedBy == disk.jobs[i].failedBy)
  {
    if OutOfPolicy(policy, disk.jobs[i]) {
      assert AnyRevoked(disk.(policy := policy));
    }
  }
}
