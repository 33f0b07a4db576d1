/** What each operation of the training coordinator's state machine does, as functions on
    an immutable snapshot of its maps. `LeaseBook` proves the in-place methods against
    these functions; the invariants and run theorems are proved about them. */
module LeaseSpec {
  import opened Base

  /** Ethereum addresses and job ids, in the order an ordered map iterates over them. */
  type Addr = nat
  type JobId = nat
  type Group = nat

  /** A registration source: an IPv4 address, or an IPv6 /64 with the /48 it belongs to.
      `site` identifies the address or the /48, `subnet` the /64 inside it. */
  datatype Source = Source(site: Group, subnet: nat)

  function SourceGroup(source: Source): Group {
    source.site
  }

  datatype Capability = Probe | Federated | H01

  function Rank(c: Capability): nat {
    match c
    case Probe => 0
    case Federated => 1
    case H01 => 2
  }

  predicate Satisfies(c: Capability, required: Capability) {
    Rank(c) >= Rank(required)
  }

  function Lower(a: Capability, b: Capability): Capability {
    if Rank(a) <= Rank(b) then a else b
  }

  /** What a job payload is as far as federated LoRA rounds are concerned. */
  datatype Payload = NotLora | Malformed | Round(id: nat, roster: set<Addr>)

  datatype JobSpec = JobSpec(tier: Capability, payload: Payload, leaseSecs: u64)

  datatype Status =
    | Pending
    | Leased(worker: Addr, expiresAt: u64, deadline: u64)
    | Done(worker: Addr, at: u64)
    | Quarantined

  datatype Job = Job(
    spec: JobSpec,
    status: Status,
    attempts: nat,
    failedBy: set<Addr>,
    result: Option<string>,
    failedBySources: set<Group>,
    heldUntil: u64,
    persistedExpiry: u64)

  datatype Worker = Worker(
    capability: Capability,
    lastSeen: u64,
    source: Source,
    noshows: u32,
    cooldownUntil: u64,
    delivered: u32,
    lastRegistration: u64,
    lastEngaged: Option<u64>)

  datatype SourceRecord = SourceRecord(noshows: u32, cooldownUntil: u64, lastSeen: u64)

  datatype Penalty = Penalty(noshows: u32, cooldownUntil: u64)

  datatype Policy = Policy(
    trusted: set<Addr>,
    openTier: Capability,
    maxWorkersPerSource: nat,
    leaseWindow: u64,
    maxLeasesPerSource: nat)

  datatype State = State(
    jobs: map<JobId, Job>,
    workers: map<Addr, Worker>,
    sources: map<Group, SourceRecord>,
    penalties: map<Addr, Penalty>,
    policy: Policy,
    dirty: bool,
    recent: set<(Addr, u64)>)

  datatype LeaseError = UnknownWorker | NothingAvailable | CoolingDown(until: u64) | AtLeaseCap
  datatype RegisterError = SourceFull | RegistryFull
  datatype SubmitError =
    | UnknownJob
    | NotLeaseholder
    | LeaseExpired(expiredAt: u64, now: u64)
    | NotLeased
    | TierRevoked

  const MAX_LEASES_PER_WORKER: nat := 1
  const SOURCE_SLOT_STALE_SECS: u64 := 86_400
  const LAPSE_HOLD_SECS: u64 := 900
  const VOUCHED_ACTIVE_SECS: u64 := 3_600
  const RESERVATION_MAX_SECS: u64 := 604_800
  const HEARTBEAT_PERSIST_STEP_SECS: u64 := 300
  const NOSHOW_BACKOFF_BASE_SECS: u64 := 3_600
  const NOSHOW_BACKOFF_MAX_SECS: u64 := 604_800
  const MAX_WORKERS: nat := 4096
  const MAX_SOURCES: nat := 4096
  const LEASE_FRESHNESS_NANOS: u64 := 120_000_000_000
  const MAX_FUTURE_SKEW_NANOS: u64 := 30_000_000_000

  function EmptyState(policy: Policy): State {
    State(map[], map[], map[], map[], policy, false, {})
  }

  // ---- policy and small helpers -------------------------------------------------

  function EffectiveCapability(p: Policy, id: Addr, claimed: Capability): Capability {
    if id in p.trusted then claimed else Lower(Lower(claimed, p.openTier), Federated)
  }

  predicate TierAllowed(p: Policy, id: Addr, tier: Capability) {
    Satisfies(EffectiveCapability(p, id, H01), tier)
  }

  function Pow2(n: nat): nat {
    if n == 0 then 1 else 2 * Pow2(n - 1)
  }

  /** Cool-down after the `n`-th consecutive no-show. */
  function NoshowBackoff(n: u32): u64 {
    var doublings := Min(if n >= 1 then n - 1 else 0, 20);
    Min(NOSHOW_BACKOFF_BASE_SECS * Pow2(doublings), NOSHOW_BACKOFF_MAX_SECS)
  }

  function ReservationCap(leaseSecs: u64): u64 {
    var doubled := if 2 * leaseSecs <= MAX64 then 2 * leaseSecs else MAX64;
    Min(Max(doubled, LAPSE_HOLD_SECS), RESERVATION_MAX_SECS)
  }

  predicate Live(st: Status, now: u64) {
    st.Leased? && st.expiresAt > now
  }

  predicate Lapsed(st: Status, now: u64) {
    st.Leased? && st.expiresAt <= now
  }

  /** The last second a lease may be extended to; records written before deadlines
      existed carry 0 and are not extendable. */
  function Hard(st: Status): u64
    requires st.Leased?
  {
    if st.deadline == 0 then st.expiresAt else st.deadline
  }

  function Holders(s: State, now: u64): set<Addr> {
    set id | id in s.jobs && Live(s.jobs[id].status, now) :: s.jobs[id].status.worker
  }

  // ---- forgetting workers and charging no-shows ----------------------------------

  function PenaltyScores(penalties: map<Addr, Penalty>): map<Addr, nat> {
    map k | k in penalties :: penalties[k].cooldownUntil
  }

  /** The penalties map after making room for `id`'s history. */
  ghost function KeepPenalty(penalties: map<Addr, Penalty>, id: Addr, p: Penalty): map<Addr, Penalty> {
    var scores := PenaltyScores(penalties);
    if |penalties| >= MAX_WORKERS && id !in penalties && scores != map[] then
      (penalties - {MinKey(scores)})[id := p]
    else
      penalties[id := p]
  }

  ghost function ForgetWorker(s: State, id: Addr, now: u64): State {
    if id !in s.workers then s
    else
      var r := s.workers[id];
      var s1 := s.(workers := s.workers - {id});
      if r.noshows == 0 && r.cooldownUntil <= now then s1
      else s1.(penalties := KeepPenalty(s.penalties, id, Penalty(r.noshows, r.cooldownUntil)))
  }

  /** Victim order of a full `sources` map: cooled-down groups first, then least recently seen. */
  function SourceScores(sources: map<Group, SourceRecord>, now: u64): map<Group, nat> {
    map g | g in sources ::
      (if sources[g].cooldownUntil > now then 0x1_0000_0000_0000_0000 else 0) + sources[g].lastSeen
  }

  ghost function ChargeSource(sources: map<Group, SourceRecord>, g: Group, now: u64): map<Group, SourceRecord> {
    var scores := SourceScores(sources, now);
    var kept := if g !in sources && |sources| >= MAX_SOURCES && scores != map[]
                then sources - {MinKey(scores)} else sources;
    var n := SatAdd32(if g in kept then kept[g].noshows else 0, 1);
    kept[g := SourceRecord(n, SatAdd(now, NoshowBackoff(n)), now)]
  }

  ghost function ChargeSources(sources: map<Group, SourceRecord>, gs: seq<Group>, now: u64): map<Group, SourceRecord>
    decreases |gs|
  {
    if gs == [] then sources else ChargeSources(ChargeSource(sources, gs[0], now), gs[1..], now)
  }

  // ---- expire_leases --------------------------------------------------------------

  predicate ChargesGroup(s: State, holder: Addr) {
    holder in s.workers && holder !in s.policy.trusted
  }

  function LapseJob(s: State, j: Job, now: u64): Job {
    if Lapsed(j.status, now) then
      j.(failedBy := j.failedBy + {j.status.worker},
         status := Pending,
         heldUntil := SatAdd(now, LAPSE_HOLD_SECS),
         failedBySources := if ChargesGroup(s, j.status.worker)
                            then j.failedBySources + {SourceGroup(s.workers[j.status.worker].source)}
                            else j.failedBySources)
    else j
  }

  /** The leases of `w` among `ids` that have lapsed. */
  function LapsedOf(s: State, ids: set<JobId>, w: Addr, now: u64): set<JobId> {
    set id | id in ids && id in s.jobs && Lapsed(s.jobs[id].status, now) && s.jobs[id].status.worker == w
  }

  /** A worker record charged with `n` lapses at `now`. */
  function ChargeWorker(r: Worker, n: nat, now: u64): Worker {
    if n == 0 then r
    else
      r.(noshows := SatAdd32(r.noshows, n),
         cooldownUntil := SatAdd(now, NoshowBackoff(SatAdd32(r.noshows, n))))
  }

  /** The group charged for one job, if its lease lapsed and its holder is registered and unvouched. */
  function ChargedGroup(s: State, id: JobId, now: u64): seq<Group> {
    if id in s.jobs && Lapsed(s.jobs[id].status, now) && ChargesGroup(s, s.jobs[id].status.worker)
    then [SourceGroup(s.workers[s.jobs[id].status.worker].source)] else []
  }

  /** The groups charged for the lapsed leases in `ids`, in job-id order. */
  ghost function LapsedGroups(s: State, ids: set<JobId>, now: u64): seq<Group> {
    if ids == {} then []
    else
      ChargedGroup(s, Least(ids), now) + LapsedGroups(s, ids - {Least(ids)}, now)
  }

  predicate AnyLapsed(s: State, now: u64) {
    exists id | id in s.jobs :: Lapsed(s.jobs[id].status, now)
  }

  ghost function ExpireLeases(s: State, now: u64): State {
    s.(jobs := map id | id in s.jobs :: LapseJob(s, s.jobs[id], now),
       workers := map w | w in s.workers ::
         ChargeWorker(s.workers[w], |LapsedOf(s, s.jobs.Keys, w, now)|, now),
       sources := ChargeSources(s.sources, LapsedGroups(s, s.jobs.Keys, now), now),
       dirty := s.dirty || AnyLapsed(s, now))
  }

  // ---- register -------------------------------------------------------------------

  function SlotsOf(s: State, source: Source): set<Addr> {
    set id | id in s.workers && s.workers[id].source == source && id !in s.policy.trusted
  }

  function StaleSlots(s: State, source: Source, now: u64): map<Addr, nat> {
    map id | id in SlotsOf(s, source)
             && SatSub(now, s.workers[id].lastSeen) >= SOURCE_SLOT_STALE_SECS
             && id !in Holders(s, now) :: s.workers[id].lastSeen
  }

  ghost function MakeRoomForSource(s: State, source: Source, now: u64): Result<State, RegisterError> {
    if |SlotsOf(s, source)| < s.policy.maxWorkersPerSource then Ok(s)
    else if StaleSlots(s, source, now) == map[] then Err(SourceFull)
    else Ok(ForgetWorker(s, MinKey(StaleSlots(s, source, now)), now))
  }

  /** `admits_new`: would a registration of a never-seen `id` find room at its source? */
  function AdmitsNew(s: State, id: Addr, source: Source, now: u64): bool {
    || id in s.policy.trusted
    || |SlotsOf(s, source)| < s.policy.maxWorkersPerSource
    || StaleSlots(s, source, now) != map[]
  }

  function Evictable(s: State, holders: set<Addr>): map<Addr, nat> {
    map id | id in s.workers && id !in s.policy.trusted && id !in holders :: s.workers[id].lastSeen
  }

  /** Evict the least recently seen worker that is neither vouched nor mid-job. */
  ghost function MakeRoomInRegistry(s: State, holders: set<Addr>, now: u64): Result<State, RegisterError> {
    if |s.workers| < MAX_WORKERS then Ok(s)
    else if Evictable(s, holders) == map[] then Err(RegistryFull)
    else Ok(ForgetWorker(s, MinKey(Evictable(s, holders)), now))
  }

  function Admit(s: State, id: Addr, capability: Capability, source: Source, now: u64): State {
    var p := if id in s.penalties then s.penalties[id] else Penalty(0, 0);
    s.(penalties := s.penalties - {id},
       workers := s.workers[id :=
         Worker(capability, now, source, p.noshows, p.cooldownUntil, 0, now, None)])
  }

  ghost function Register(s: State, id: Addr, capability: Capability, source: Source, now: u64)
    : (State, Result<Capability, RegisterError>)
  {
    var granted := Ok(EffectiveCapability(s.policy, id, capability));
    if id in s.workers then
      var r := s.workers[id];
      (s.(workers := s.workers[id := r.(lastRegistration := now, capability := capability, lastSeen := now)],
          dirty := s.dirty || r.capability != capability),
       granted)
    else
      var s0 := s.(dirty := true);
      var room := if id in s.policy.trusted then Ok(s0) else MakeRoomForSource(s0, source, now);
      if room.Err? then (s0, Err(room.error))
      else
        var space := MakeRoomInRegistry(room.value, Holders(s, now), now);
        if space.Err? then (room.value, Err(space.error))
        else (Admit(space.value, id, capability, source, now), granted)
  }

  // ---- lease ----------------------------------------------------------------------

  function Touch(s: State, w: Addr, now: u64): State
    requires w in s.workers
  {
    s.(workers := s.workers[w := s.workers[w].(lastSeen := now, lastEngaged := Some(now))])
  }

  function HeldBy(s: State, w: Addr): set<JobId> {
    set id | id in s.jobs && s.jobs[id].status.Leased? && s.jobs[id].status.worker == w
  }

  /** Leases held by unvouched registered workers of group `g`. */
  function LeasesOfGroup(s: State, g: Group): set<JobId> {
    set id | id in s.jobs && s.jobs[id].status.Leased? && HolderInGroup(s, s.jobs[id].status.worker, g)
  }

  predicate HolderInGroup(s: State, h: Addr, g: Group) {
    h !in s.policy.trusted && h in s.workers && SourceGroup(s.workers[h].source) == g
  }

  predicate HoldsOrFinished(j: Job, w: Addr) {
    (j.status.Leased? || j.status.Done?) && j.status.worker == w
  }

  /** The LoRA rounds `w` holds or has finished a job of. */
  function RoundsOf(s: State, w: Addr): set<nat> {
    set id | id in s.jobs && HoldsOrFinished(s.jobs[id], w) && s.jobs[id].spec.payload.Round?
      :: s.jobs[id].spec.payload.id
  }

  predicate RoundOpen(s: State, w: Addr, payload: Payload) {
    match payload
    case NotLora => true
    case Malformed => false
    case Round(id, roster) => w in roster && id !in RoundsOf(s, w)
  }

  /** A vouched worker that asked for work or heartbeated within the activity window and
      could take the job. */
  predicate EngagedVouched(s: State, j: Job, v: Addr, now: u64) {
    && v in s.workers && v in s.policy.trusted
    && s.workers[v].lastEngaged.Some?
    && SatSub(now, s.workers[v].lastEngaged.value) < VOUCHED_ACTIVE_SECS
    && v !in j.failedBy
    && Satisfies(EffectiveCapability(s.policy, v, s.workers[v].capability), j.spec.tier)
  }

  predicate ReservedForVouched(s: State, j: Job, now: u64) {
    j.heldUntil != 0 &&
    (j.heldUntil > now ||
     (j.spec.tier != Probe
      && now < SatAdd(SatSub(j.heldUntil, LAPSE_HOLD_SECS), ReservationCap(j.spec.leaseSecs))
      && exists v | v in s.workers :: EngagedVouched(s, j, v, now)))
  }

  predicate Eligible(s: State, w: Addr, id: JobId, now: u64)
    requires w in s.workers
  {
    id in s.jobs &&
    var j := s.jobs[id];
    var trusted := w in s.policy.trusted;
    && j.status == Pending
    && Satisfies(EffectiveCapability(s.policy, w, s.workers[w].capability), j.spec.tier)
    && RoundOpen(s, w, j.spec.payload)
    && w !in j.failedBy
    && (trusted || SourceGroup(s.workers[w].source) !in j.failedBySources)
    && (trusted || !ReservedForVouched(s, j, now))
  }

  /** Eligible jobs, scored so that the most demanding one comes first. */
  function EligibleJobs(s: State, w: Addr, now: u64): map<JobId, nat>
    requires w in s.workers
  {
    map id | id in s.jobs && Eligible(s, w, id, now) :: (2 - Rank(s.jobs[id].spec.tier)) as nat
  }

  function Grant(s: State, w: Addr, id: JobId, now: u64): State
    requires id in s.jobs
  {
    var j := s.jobs[id];
    s.(jobs := s.jobs[id := j.(
         attempts := j.attempts + 1,
         status := Leased(w, SatAdd(now, Min(j.spec.leaseSecs, s.policy.leaseWindow)),
                          SatAdd(now, j.spec.leaseSecs)))],
       dirty := true)
  }

  /** `lease` once the worker is known and expired leases have been returned. */
  ghost function Assign(s: State, w: Addr, now: u64): (State, Result<JobId, LeaseError>)
    requires w in s.workers
  {
    var r := s.workers[w];
    var g := SourceGroup(r.source);
    var trusted := w in s.policy.trusted;
    if r.cooldownUntil > now then (s, Err(CoolingDown(r.cooldownUntil)))
    else if |HeldBy(s, w)| >= MAX_LEASES_PER_WORKER then (s, Err(AtLeaseCap))
    else if !trusted && g in s.sources && s.sources[g].cooldownUntil > now then
      (s, Err(CoolingDown(s.sources[g].cooldownUntil)))
    else if !trusted && |LeasesOfGroup(s, g)| >= s.policy.maxLeasesPerSource then (s, Err(AtLeaseCap))
    else if EligibleJobs(s, w, now) == map[] then (s, Err(NothingAvailable))
    else
      var id := MinKey(EligibleJobs(s, w, now));
      (Grant(s, w, id, now), Ok(id))
  }

  ghost function Lease(s: State, w: Addr, now: u64): (State, Result<JobId, LeaseError>) {
    if w !in s.workers then (s, Err(UnknownWorker))
    else Assign(ExpireLeases(Touch(s, w, now), now), w, now)
  }

  // ---- renew, submit, and the rest ------------------------------------------------

  function SetStatus(s: State, id: JobId, st: Status): State
    requires id in s.jobs
  {
    s.(jobs := s.jobs[id := s.jobs[id].(status := st)])
  }

  function RevokeLease(s: State, id: JobId): State
    requires id in s.jobs
  {
    SetStatus(s, id, Pending).(dirty := true)
  }

  function Extended(st: Status, window: u64, now: u64): u64
    requires st.Leased?
  {
    Max(Min(SatAdd(now, window), Hard(st)), st.expiresAt)
  }

  /** Why `w` may not act on job `id` as its leaseholder, if it may not. */
  function LeaseholderError(s: State, w: Addr, id: JobId, now: u64): Option<SubmitError> {
    if id !in s.jobs then Some(UnknownJob)
    else
      var st := s.jobs[id].status;
      if !st.Leased? then Some(NotLeased)
      else if st.worker != w then Some(NotLeaseholder)
      else if st.expiresAt <= now then Some(LeaseExpired(st.expiresAt, now))
      else None
  }

  /** Must this heartbeat reach the disk? */
  predicate PersistsHeartbeat(j: Job, extended: u64)
    requires j.status.Leased?
  {
    || extended >= SatAdd(j.persistedExpiry, HEARTBEAT_PERSIST_STEP_SECS)
    || (extended == Hard(j.status) && j.persistedExpiry != Hard(j.status))
  }

  function ExtendJob(j: Job, window: u64, now: u64): Job
    requires j.status.Leased?
  {
    j.(status := Leased(j.status.worker, Extended(j.status, window, now), Hard(j.status)))
  }

  function Heartbeat(s: State, w: Addr, id: JobId, now: u64): State
    requires LeaseholderError(s, w, id, now).None?
  {
    var j := s.jobs[id];
    var e := Extended(j.status, s.policy.leaseWindow, now);
    s.(jobs := s.jobs[id := ExtendJob(j, s.policy.leaseWindow, now)],
       dirty := s.dirty || PersistsHeartbeat(j, e),
       workers := if w in s.workers
                  then s.workers[w := s.workers[w].(lastSeen := now, lastEngaged := Some(now))]
                  else s.workers)
  }

  function Renew(s: State, w: Addr, id: JobId, now: u64): (State, Result<u64, SubmitError>) {
    var error := LeaseholderError(s, w, id, now);
    if error.Some? then (s, Err(error.value))
    else if !TierAllowed(s.policy, w, s.jobs[id].spec.tier) then (RevokeLease(s, id), Err(TierRevoked))
    else (Heartbeat(s, w, id, now), Ok(Extended(s.jobs[id].status, s.policy.leaseWindow, now)))
  }

  function Submit(s: State, w: Addr, id: JobId, result: string, now: u64): (State, Result<(), SubmitError>) {
    var error := LeaseholderError(s, w, id, now);
    if error.Some? then (s, Err(error.value))
    else if !TierAllowed(s.policy, w, s.jobs[id].spec.tier) then (RevokeLease(s, id), Err(TierRevoked))
    else (Credit(Finish(s, w, id, result, now), w, now), Ok(()))
  }

  function Finish(s: State, w: Addr, id: JobId, result: string, now: u64): State
    requires id in s.jobs
  {
    s.(jobs := s.jobs[id := s.jobs[id].(status := Done(w, now), result := Some(result))], dirty := true)
  }

  /** The books of a worker whose result was accepted: only a vouched delivery clears the
      no-show count, its own and its group's. */
  function Credit(s: State, w: Addr, now: u64): State {
    if w !in s.workers then s
    else
      var r := s.workers[w];
      var trusted := w in s.policy.trusted;
      var g := SourceGroup(r.source);
      s.(workers := s.workers[w := r.(lastSeen := now,
                                      delivered := SatAdd32(r.delivered, 1),
                                      noshows := if trusted then 0 else r.noshows)],
         sources := if trusted && g in s.sources
                    then s.sources[g := s.sources[g].(noshows := 0)] else s.sources)
  }

  function AddJob(s: State, id: JobId, spec: JobSpec): State {
    s.(jobs := s.jobs[id := Job(spec, Pending, 0, {}, None, {}, 0, 0)], dirty := true)
  }

  function GraceJob(j: Job, window: u64, now: u64): Job {
    if j.status.Leased? && Hard(j.status) > now && Extended(j.status, window, now) != j.status.expiresAt then
      j.(status := Leased(j.status.worker, Extended(j.status, window, now), Hard(j.status)))
    else j
  }

  function GraceLiveLeases(s: State, now: u64): State {
    s.(jobs := map id | id in s.jobs :: GraceJob(s.jobs[id], s.policy.leaseWindow, now),
       dirty := s.dirty || AnyGraced(s, now))
  }

  predicate AnyGraced(s: State, now: u64) {
    exists id | id in s.jobs :: GraceJob(s.jobs[id], s.policy.leaseWindow, now) != s.jobs[id]
  }

  predicate OutOfPolicy(p: Policy, j: Job) {
    j.status.Leased? && !TierAllowed(p, j.status.worker, j.spec.tier)
  }

  function RevokedJob(p: Policy, j: Job): Job {
    if OutOfPolicy(p, j) then j.(status := Pending) else j
  }

  predicate AnyRevoked(s: State) {
    exists id | id in s.jobs :: OutOfPolicy(s.policy, s.jobs[id])
  }

  function RevokeOutOfPolicy(s: State): State {
    s.(jobs := map id | id in s.jobs :: RevokedJob(s.policy, s.jobs[id]),
       dirty := s.dirty || AnyRevoked(s))
  }

  /** The stamp `take_dirty` puts on leases about to be written. */
  function StampJob(j: Job): Job {
    if j.status.Leased? then j.(persistedExpiry := j.status.expiresAt) else j
  }

  function TakeDirty(s: State): State {
    if s.dirty then s.(jobs := map id | id in s.jobs :: StampJob(s.jobs[id]), dirty := false) else s
  }

  function AbsDiff(a: u64, b: u64): u64 {
    if a >= b then a - b else b - a
  }

  function NoteRegistration(s: State, id: Addr, ts: u64, nowNanos: u64): (State, bool) {
    var kept := set e | e in s.recent && AbsDiff(e.1, nowNanos) <= LEASE_FRESHNESS_NANOS;
    (s.(recent := kept + {(id, ts)}, dirty := s.dirty || (id, ts) !in kept), (id, ts) !in kept)
  }

  /** `fresh`: is a signed timestamp acceptable at this instant? */
  predicate Fresh(ts: u64, nowNanos: u64) {
    ts <= SatAdd(nowNanos, MAX_FUTURE_SKEW_NANOS) && SatSub(nowNanos, ts) <= LEASE_FRESHNESS_NANOS
  }
}
