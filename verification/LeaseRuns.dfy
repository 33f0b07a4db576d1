/** Requests against the coordinator, and runs of them: whatever keys, sources and job ids an
    adversary uses, in any order, on a clock that does not go backwards. */
module LeaseRuns {
  import opened Base
  import opened LeaseSpec

  datatype Step =
    | AddJobStep(id: JobId, spec: JobSpec)
    | RegisterStep(key: Addr, capability: Capability, source: Source)
    | NoteStep(key: Addr, ts: u64, nowNanos: u64)
    | PollStep(worker: Addr)
    | HeartbeatStep(worker: Addr, job: JobId)
    | SubmitStep(worker: Addr, job: JobId, result: string)
    | ExpireStep

  /** One request: what it asks, when, and whether the save it may trigger succeeds. */
  datatype Request = Request(step: Step, now: u64, saved: bool)

  /** The effect of the request's closure on the state. A catalogue job is added only when
      its id is unknown. */
  ghost function Apply(s: State, step: Step, now: u64): State {
    match step
    case AddJobStep(id, spec) => if id in s.jobs then s else AddJob(s, id, spec)
    case RegisterStep(key, capability, source) => Register(s, key, capability, source, now).0
    case NoteStep(key, ts, nowNanos) => NoteRegistration(s, key, ts, nowNanos).0
    case PollStep(worker) => Lease(s, worker, now).0
    case HeartbeatStep(worker, job) => Renew(s, worker, job, now).0
    case SubmitStep(worker, job, result) => Submit(s, worker, job, result, now).0
    case ExpireStep => ExpireLeases(s, now)
  }

  /** `mutate`: run the closure, take the dirty flag and save; a failed save marks the state
      dirty again. */
  ghost function Mutate(s: State, r: Request): State {
    var s1 := Apply(s, r.step, r.now);
    if s1.dirty && !r.saved then TakeDirty(s1).(dirty := true) else TakeDirty(s1)
  }

  /** Saving only touches the dirty flag and the stamps it compares heartbeats against. */
  lemma MutateIsApply(s: State, r: Request)
    ensures var s1 := Apply(s, r.step, r.now); var s' := Mutate(s, r);
            && s'.workers == s1.workers && s'.policy == s1.policy && s'.sources == s1.sources
            && s'.penalties == s1.penalties && s'.recent == s1.recent && s'.jobs.Keys == s1.jobs.Keys
            && forall i | i in s1.jobs :: s'.jobs[i] == s1.jobs[i].(persistedExpiry := s'.jobs[i].persistedExpiry)
  {
  }

  ghost function Run(s: State, rs: seq<Request>): State
    decreases |rs|
  {
    if rs == [] then s else Run(Mutate(s, rs[0]), rs[1..])
  }

  /** The clock reads at least `t` at the first request and never goes back. */
  ghost predicate Clocked(t: u64, rs: seq<Request>)
    decreases |rs|
  {
    rs == [] || (t <= rs[0].now && Clocked(rs[0].now, rs[1..]))
  }

  ghost function EndOf(t: u64, rs: seq<Request>): u64 {
    if rs == [] then t else rs[|rs| - 1].now
  }
}
