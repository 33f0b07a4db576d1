/** Whole lives of a coordinator: requests, and the restarts between them. */
module LeaseLives {
  import opened Base
  import opened LeaseSpec
  import opened LeaseRuns
  import opened LeaseInvariants
  import opened LeaseTheorems

  /** A request, or a restart that lost nothing: a crash after a good save, or a boot under the same policy. */
  datatype Move = Asked(request: Request) | Resumed(now: u64)

  function At(m: Move): u64 {
    match m
    case Asked(r) => r.now
    case Resumed(now) => now
  }

  /** A job across a restart: a lease keeps its holder and its deadline, and ends no later than it did
      or than one window from now within that deadline. */
  ghost predicate JobResumed(a: Job, b: Job, window: u64, now: u64) {
    && b == a.(status := b.status, persistedExpiry := b.persistedExpiry)
    && (if a.status.Leased? then
          && b.status.Leased? && b.status.worker == a.status.worker && Hard(b.status) == Hard(a.status)
          && b.status.expiresAt <= Max(a.status.expiresAt, Min(SatAdd(now, window), Hard(a.status)))
        else b.status == a.status)
  }

  /** A worker across a restart: all but when it was last heard of. */
  predicate WorkerResumed(a: Worker, b: Worker) {
    b == a.(lastSeen := b.lastSeen, lastRegistration := b.lastRegistration, lastEngaged := b.lastEngaged)
  }

  ghost predicate Resumes(s: State, s': State, now: u64) {
    && s'.policy == s.policy && s'.penalties == s.penalties && s'.sources == s.sources
    && s'.jobs.Keys == s.jobs.Keys
    && (forall i | i in s.jobs :: JobResumed(s.jobs[i], s'.jobs[i], s.policy.leaseWindow, now))
    && s'.workers.Keys == s.workers.Keys
    && forall w | w in s.workers :: WorkerResumed(s.workers[w], s'.workers[w])
  }

  ghost predicate Moves(s: State, m: Move, s': State) {
    match m
    case Asked(r) => s' == Mutate(s, r)
    case Resumed(now) => Resumes(s, s', now)
  }

  /** The states `ss` a coordinator goes through by the moves `ms`, whatever they are. */
  ghost predicate IsLife(ss: seq<State>, ms: seq<Move>) {
    && |ss| == |ms| + 1
    && forall k | 0 <= k < |ms| :: MovesAt(ss, ms, k)
  }

  ghost predicate MovesAt(ss: seq<State>, ms: seq<Move>, k: nat)
    requires k < |ms| && |ss| == |ms| + 1
  {
    Moves(ss[k], ms[k], ss[k + 1])
  }

  ghost predicate Timed(t: u64, ms: seq<Move>) {
    && (forall k | 0 <= k < |ms| :: t <= At(ms[k]))
    && (forall k, m | 0 <= k < m < |ms| :: At(ms[k]) <= At(ms[m]))
  }

  ghost function Clock(t: u64, ms: seq<Move>, k: nat): u64
    requires k <= |ms|
  {
    if k == 0 then t else At(ms[k - 1])
  }

  lemma LifeAt(ss: seq<State>, ms: seq<Move>, t: u64, k: nat)
    requires IsLife(ss, ms) && Timed(t, ms) && k < |ms|
    ensures Moves(ss[k], ms[k], ss[k + 1]) && Clock(t, ms, k) <= At(ms[k])
  {
    assert MovesAt(ss, ms, k);
  }

  // ---- the core of the invariant ------------------------------------------------------------

  lemma ResumeKeepsJobs(s: State, s': State, now: u64)
    requires OneLease(s) && JobsOk(s, now) && OnePerRound(s) && Resumes(s, s', now)
    ensures OneLease(s') && JobsOk(s', now) && OnePerRound(s')
  {
    forall i | i in s'.jobs ensures JobOk(s'.jobs[i], s'.policy, now) {
      assert JobResumed(s.jobs[i], s'.jobs[i], s.policy.leaseWindow, now) && JobOk(s.jobs[i], s.policy, now);
    }
    forall i, k, w | i in s'.jobs && k in s'.jobs && HoldsOrFinished(s'.jobs[i], w) && HoldsOrFinished(s'.jobs[k], w)
                     && SameRound(s'.jobs[i], s'.jobs[k])
      ensures i == k
    {
      assert JobResumed(s.jobs[i], s'.jobs[i], s.policy.leaseWindow, now);
      assert JobResumed(s.jobs[k], s'.jobs[k], s.policy.leaseWindow, now);
      assert HoldsOrFinished(s.jobs[i], w) && HoldsOrFinished(s.jobs[k], w);
    }
  }

  lemma ResumeKeepsNoShows(s: State, s': State, now: u64)
    requires NoShowsOk(s, now) && Resumes(s, s', now)
    ensures NoShowsOk(s', now)
  {
    forall i | i in s'.jobs && s'.jobs[i].status.Leased?
      ensures s.jobs[i].status.Leased? && s'.jobs[i].status.worker == s.jobs[i].status.worker
    {
      assert JobResumed(s.jobs[i], s'.jobs[i], s.policy.leaseWindow, now);
    }
    forall w | w in s.workers ensures WorkerResumed(s.workers[w], s'.workers[w]) {
    }
    NoShowsCarryOver(s, s', now);
  }

  /** A restart keeps the core. */
  lemma ResumeKeeps(s: State, s': State, t: u64, now: u64)
    requires Core(s, t) && t <= now && Resumes(s, s', now)
    ensures Core(s', now)
  {
    LaterIsFine(s, t, now);
    ResumeKeepsJobs(s, s', now);
    ResumeKeepsNoShows(s, s', now);
    assert forall w | w in s.workers :: WorkerResumed(s.workers[w], s'.workers[w]);
    SameRegistryKeepsBooks(s, s');
  }

  lemma MoveKeeps(s: State, m: Move, s': State, t: u64)
    requires Core(s, t) && t <= At(m) && Moves(s, m, s')
    ensures Core(s', At(m)) && s'.policy == s.policy
  {
    match m
    case Asked(r) => MutateKeeps(s, t, r); PolicyFixed(s, r);
    case Resumed(now) => ResumeKeeps(s, s', t, now);
  }

  lemma StepIsSound(ss: seq<State>, ms: seq<Move>, t: u64, k: nat)
    requires IsLife(ss, ms) && Timed(t, ms) && k < |ms| && Core(ss[k], Clock(t, ms, k))
    ensures Core(ss[k + 1], At(ms[k])) && ss[k + 1].policy == ss[k].policy
  {
    LifeAt(ss, ms, t, k);
    MoveKeeps(ss[k], ms[k], ss[k + 1], Clock(t, ms, k));
  }

  ghost predicate SoundAt(ss: seq<State>, ms: seq<Move>, t: u64, k: nat)
    requires k <= |ms| && |ss| == |ms| + 1
  {
    Core(ss[k], Clock(t, ms, k)) && ss[k].policy == ss[0].policy
  }

  ghost predicate AlwaysSound(ss: seq<State>, ms: seq<Move>, t: u64)
    requires |ss| == |ms| + 1
  {
    forall k | 0 <= k <= |ms| :: SoundAt(ss, ms, t, k)
  }

  lemma SoundNext(ss: seq<State>, ms: seq<Move>, t: u64, k: nat)
    requires IsLife(ss, ms) && Timed(t, ms) && k < |ms| && SoundAt(ss, ms, t, k)
    ensures SoundAt(ss, ms, t, k + 1)
  {
    StepIsSound(ss, ms, t, k);
  }

  lemma {:induction false} SoundUpTo(ss: seq<State>, ms: seq<Move>, t: u64, n: nat)
    requires IsLife(ss, ms) && Timed(t, ms) && SoundAt(ss, ms, t, 0) && n <= |ms|
    ensures SoundAt(ss, ms, t, n)
  {
    if n > 0 {
      SoundUpTo(ss, ms, t, n - 1);
      SoundNext(ss, ms, t, n - 1);
    }
  }

  /** The core of the invariant holds throughout every life, restarts included. */
  lemma LifeIsSound(ss: seq<State>, ms: seq<Move>, t: u64)
    requires IsLife(ss, ms) && Timed(t, ms) && Core(ss[0], t)
    ensures AlwaysSound(ss, ms, t)
  {
    assert SoundAt(ss, ms, t, 0);
    forall k | 0 <= k <= |ms| ensures SoundAt(ss, ms, t, k) {
      SoundUpTo(ss, ms, t, k);
    }
  }

  // ---- what no life undoes --------------------------------------------------------------------

  lemma MoveKeepsFailures(s: State, m: Move, s': State, w: Addr, i: JobId)
    requires Moves(s, m, s') && i in s.jobs && w in s.jobs[i].failedBy
    ensures i in s'.jobs && w in s'.jobs[i].failedBy
  {
    match m
    case Asked(r) => RequestOnJob(s, r, i);
    case Resumed(now) => assert JobResumed(s.jobs[i], s'.jobs[i], s.policy.leaseWindow, now);
  }

  lemma {:induction false} FailuresKept(ss: seq<State>, ms: seq<Move>, t: u64, n: nat, w: Addr, i: JobId)
    requires IsLife(ss, ms) && Timed(t, ms) && n <= |ms| && i in ss[0].jobs && w in ss[0].jobs[i].failedBy
    ensures i in ss[n].jobs && w in ss[n].jobs[i].failedBy
  {
    if n > 0 {
      FailuresKept(ss, ms, t, n - 1, w, i);
      FailuresKeptAt(ss, ms, t, n - 1, w, i);
    }
  }

  lemma FailuresKeptAt(ss: seq<State>, ms: seq<Move>, t: u64, k: nat, w: Addr, i: JobId)
    requires IsLife(ss, ms) && Timed(t, ms) && k < |ms| && i in ss[k].jobs && w in ss[k].jobs[i].failedBy
    ensures i in ss[k + 1].jobs && w in ss[k + 1].jobs[i].failedBy
  {
    LifeAt(ss, ms, t, k);
    MoveKeepsFailures(ss[k], ms[k], ss[k + 1], w, i);
  }

  /** Once a worker has let a job lapse it never holds that job again, through any requests and restarts. */
  lemma NeverOfferedAgain(ss: seq<State>, ms: seq<Move>, t: u64, n: nat, w: Addr, i: JobId)
    requires IsLife(ss, ms) && Timed(t, ms) && Core(ss[0], t) && n <= |ms|
    requires i in ss[0].jobs && w in ss[0].jobs[i].failedBy
    ensures i in ss[n].jobs && w in ss[n].jobs[i].failedBy
    ensures !(ss[n].jobs[i].status.Leased? && ss[n].jobs[i].status.worker == w)
  {
    FailuresKept(ss, ms, t, n, w, i);
    LifeIsSound(ss, ms, t);
    assert SoundAt(ss, ms, t, n);
    assert JobOk(ss[n].jobs[i], ss[n].policy, Clock(t, ms, n));
  }

  lemma MoveKeepsVouched(s: State, m: Move, s': State, t: u64, v: Addr)
    requires Core(s, t) && t <= At(m) && Moves(s, m, s') && v in s.workers && v in s.policy.trusted
    ensures v in s'.workers
  {
    if m.Asked? {
      RequestKeepsVouched(s, t, m.request, v);
    }
  }

  lemma StepKeepsVouched(ss: seq<State>, ms: seq<Move>, t: u64, k: nat, v: Addr)
    requires IsLife(ss, ms) && Timed(t, ms) && k < |ms| && SoundAt(ss, ms, t, k)
    requires v in ss[k].workers && v in ss[0].policy.trusted
    ensures v in ss[k + 1].workers
  {
    LifeAt(ss, ms, t, k);
    MoveKeepsVouched(ss[k], ms[k], ss[k + 1], Clock(t, ms, k), v);
  }

  lemma {:induction false} VouchedKept(ss: seq<State>, ms: seq<Move>, t: u64, n: nat, v: Addr)
    requires IsLife(ss, ms) && Timed(t, ms) && AlwaysSound(ss, ms, t) && n <= |ms|
    requires v in ss[0].workers && v in ss[0].policy.trusted
    ensures v in ss[n].workers
  {
    if n > 0 {
      VouchedKept(ss, ms, t, n - 1, v);
      StepKeepsVouched(ss, ms, t, n - 1, v);
    }
  }

  /** A vouched worker is never evicted, through any requests and restarts. */
  lemma VouchedNeverEvicted(ss: seq<State>, ms: seq<Move>, t: u64, n: nat, v: Addr)
    requires IsLife(ss, ms) && Timed(t, ms) && Core(ss[0], t) && n <= |ms|
    requires v in ss[0].workers && v in ss[0].policy.trusted
    ensures v in ss[n].workers
  {
    LifeIsSound(ss, ms, t);
    VouchedKept(ss, ms, t, n, v);
  }
}
