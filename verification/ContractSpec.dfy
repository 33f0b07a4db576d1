/** The in-memory `ComputePoolTraining` contract: what every call answers, and the chain it leaves. */
module ContractSpec {
  import opened Base
  import opened Merkle

  type Addr = nat
  type JobId = nat

  const CHALLENGE_BOND: nat := 1_000_000_000_000_000_000
  const STALL_EXPIRY_BLOCKS: nat := 50_400
  const COORDINATION_TIMEOUT: nat := 100
  const COMMITTEE_QUORUM: nat := 2
  const SLASH_BPS: nat := 1000
  const LIVENESS_SLASH_BPS: nat := 10
  const BPS: nat := 10_000
  const MOCK_REQUESTER: Addr := 0xA0
  const MOCK_GOVERNANCE: Addr := 0x60
  const ZERO: Digest := Raw(0)

  datatype Spec = Spec(epochCount: nat, stepsPerEpoch: nat, minWorkers: nat, maxWorkers: nat,
                       challengeWindow: nat, perWorkerStake: nat)

  datatype Phase = Recruiting | Training | Awaiting | Finalized | Aborted

  datatype Verdict = Voting | ResolvedUphold | ResolvedReject

  datatype Dispute = Dispute(epoch: nat, step: nat, target: Addr)

  datatype Challenge = Challenge(challenger: Addr, bond: nat, verdict: Verdict, upholdVotes: nat, rejectVotes: nat,
                                 voted: set<Addr>)

  datatype Job = Job(spec: Spec, phase: Phase, currentEpoch: nat, coordinator: Option<Addr>, workers: seq<Addr>,
                     joined: set<Addr>, epochRoots: map<nat, Digest>, allCommittedBlock: nat, lastActivityBlock: nat,
                     livenessSlashed: set<Addr>, challenges: map<Dispute, Challenge>, challengeSlashed: map<Addr, nat>)

  datatype Chain = Chain(jobs: map<JobId, Job>, nextJobId: JobId, block: nat, committee: set<Addr>,
                         rewards: map<Addr, nat>)

  datatype ChainError =
    | UnknownJob(id: JobId) | WrongState | AlreadyJoined | PoolFull | StakeMismatch | BelowMin | CoordinatorNotJoined
    | WrongEpoch(expected: nat, got: nat) | EpochAlreadyCommitted | ChallengeWindowOpen | NotCoordinator
    | NotReadyToFinalize | ReplacementNotJoined | CoordinatorStillActive | NotRequesterOrGovernance | NotStalled
    | SelfChallenge | TargetNotJoined | EpochNotCommitted | BadMerkleProof | ChallengeAlreadyActive
    | ChallengeNotVoting | VoterNotOnCommittee | AlreadyVoted | ZeroEpochRoot | StepOutOfRange
    | ChallengeEpochOutOfRange | WrongChallengeBond

  /** Calls about one job. */
  datatype JobCall =
    | Join(sender: Addr, stake: nat)
    | Close(coordinator: Addr)
    | Commit(sender: Addr, epoch: nat, root: Digest)
    | Finalize
    | Expire(caller: Addr)
    | Reassign(caller: Addr, replacement: Addr)
    | Open(caller: Addr, dispute: Dispute, leaf: Digest, proof: seq<Digest>, bond: nat)
    | Vote(voter: Addr, dispute: Dispute, uphold: bool)

  datatype Call =
    | CreateJob(spec: Spec)
    | Advance(blocks: nat)
    | SetMember(member: Addr, active: bool)
    | On(id: JobId, call: JobCall)

  // ---- slashing -----------------------------------------------------------------------

  function Lookup(m: map<Addr, nat>, a: Addr): nat {
    if a in m then m[a] else 0
  }

  function LivenessPortion(job: Job, worker: Addr): nat {
    if worker in job.livenessSlashed then job.spec.perWorkerStake * LIVENESS_SLASH_BPS / BPS else 0
  }

  /** The next challenge slash: a tenth of the stake, bounded by what is still held. */
  function SlashDue(job: Job, target: Addr): nat {
    var stake := job.spec.perWorkerStake;
    Min(stake * SLASH_BPS / BPS, Max(0, Max(0, stake - Lookup(job.challengeSlashed, target)) - LivenessPortion(job, target)))
  }

  function TotalSlashed(job: Job, worker: Addr): nat {
    Lookup(job.challengeSlashed, worker) + LivenessPortion(job, worker)
  }

  // ---- votes --------------------------------------------------------------------------

  /** The challenge with one more vote in it, not yet decided. */
  function Counted(ch: Challenge, voter: Addr, uphold: bool): Challenge {
    ch.(voted := ch.voted + {voter}, upholdVotes := ch.upholdVotes + (if uphold then 1 else 0),
        rejectVotes := ch.rejectVotes + (if uphold then 0 else 1))
  }

  /** A vote that reached the quorum decides; a decided challenge holds no bond. */
  function Decided(ch: Challenge): Challenge {
    if ch.upholdVotes >= COMMITTEE_QUORUM then ch.(verdict := ResolvedUphold, bond := 0)
    else if ch.rejectVotes >= COMMITTEE_QUORUM then ch.(verdict := ResolvedReject, bond := 0)
    else ch
  }

  function Voted(job: Job, d: Dispute, voter: Addr, uphold: bool): Job
    requires d in job.challenges
  {
    var ch := Decided(Counted(job.challenges[d], voter, uphold));
    var job1 := job.(challenges := job.challenges[d := ch]);
    if ch.verdict.ResolvedUphold? then
      job1.(challengeSlashed := job.challengeSlashed[d.target := Lookup(job.challengeSlashed, d.target) + SlashDue(job, d.target)])
    else
      job1
  }

  /** What a vote pays the challenger: the bond back and half the slash, once upheld. */
  function Reward(job: Job, d: Dispute, voter: Addr, uphold: bool): nat
    requires d in job.challenges
  {
    if Decided(Counted(job.challenges[d], voter, uphold)).verdict.ResolvedUphold? then
      job.challenges[d].bond + SlashDue(job, d.target) / 2
    else
      0
  }

  // ---- calls --------------------------------------------------------------------------

  /** What a call does to the job it names, at block `block`, or why it is refused. */
  function JobAnswer(job: Job, block: nat, call: JobCall): Result<Job, ChainError> {
    match call
    case Join(sender, stake) =>
      if !job.phase.Recruiting? then Err(WrongState)
      else if sender in job.joined then Err(AlreadyJoined)
      else if |job.workers| >= job.spec.maxWorkers then Err(PoolFull)
      else if stake != job.spec.perWorkerStake then Err(StakeMismatch)
      else Ok(job.(workers := job.workers + [sender], joined := job.joined + {sender}))
    case Close(coordinator) =>
      if !job.phase.Recruiting? then Err(WrongState)
      else if |job.workers| < job.spec.minWorkers then Err(BelowMin)
      else if coordinator !in job.joined then Err(CoordinatorNotJoined)
      else Ok(job.(phase := Training, coordinator := Some(coordinator), lastActivityBlock := block))
    case Commit(sender, epoch, root) =>
      if !job.phase.Training? then Err(WrongState)
      else if job.coordinator != Some(sender) then Err(NotCoordinator)
      else if epoch != job.currentEpoch then Err(WrongEpoch(job.currentEpoch, epoch))
      else if epoch in job.epochRoots then Err(EpochAlreadyCommitted)
      else
        var job1 := job.(epochRoots := job.epochRoots[epoch := root], currentEpoch := job.currentEpoch + 1,
                         lastActivityBlock := block);
        Ok(if job1.currentEpoch == job.spec.epochCount then job1.(phase := Awaiting, allCommittedBlock := block) else job1)
    case Finalize =>
      if !job.phase.Awaiting? then Err(NotReadyToFinalize)
      else if block < job.allCommittedBlock + job.spec.challengeWindow then Err(ChallengeWindowOpen)
      else Ok(job.(phase := Finalized))
    case Expire(caller) =>
      if !job.phase.Training? then Err(WrongState)
      else if caller != MOCK_REQUESTER && caller !in job.joined then Err(NotRequesterOrGovernance)
      else if block <= job.lastActivityBlock + STALL_EXPIRY_BLOCKS then Err(NotStalled)
      else Ok(job.(phase := Awaiting, allCommittedBlock := block))
    case Reassign(caller, replacement) =>
      if !job.phase.Training? then Err(WrongState)
      else if caller != MOCK_REQUESTER && caller != MOCK_GOVERNANCE then Err(NotRequesterOrGovernance)
      else if replacement !in job.joined then Err(ReplacementNotJoined)
      else if block <= job.lastActivityBlock + COORDINATION_TIMEOUT then Err(CoordinatorStillActive)
      else
        var slashed := if caller == MOCK_GOVERNANCE && job.coordinator.Some?
                       then job.livenessSlashed + {job.coordinator.value} else job.livenessSlashed;
        Ok(job.(livenessSlashed := slashed, coordinator := Some(replacement), lastActivityBlock := block))
    case Open(caller, d, leaf, proof, bond) =>
      if caller == d.target then Err(SelfChallenge)
      else if d.target !in job.joined then Err(TargetNotJoined)
      else if bond != CHALLENGE_BOND then Err(WrongChallengeBond)
      else if d.step >= job.spec.stepsPerEpoch then Err(StepOutOfRange)
      else if d.epoch >= job.spec.epochCount then Err(ChallengeEpochOutOfRange)
      else if d.epoch !in job.epochRoots then Err(EpochNotCommitted)
      else if Climb(LeafHash(leaf), proof) != job.epochRoots[d.epoch] then Err(BadMerkleProof)
      else if d in job.challenges && job.challenges[d].verdict.Voting? then Err(ChallengeAlreadyActive)
      else Ok(job.(challenges := job.challenges[d := Challenge(caller, bond, Voting, 0, 0, {})]))
    case Vote(voter, d, uphold) =>
      if d !in job.challenges || !job.challenges[d].verdict.Voting? then Err(ChallengeNotVoting)
      else if voter in job.challenges[d].voted then Err(AlreadyVoted)
      else Ok(Voted(job, d, voter, uphold))
  }

  /** Checks made before the job is looked up. */
  function Gate(c: Chain, call: JobCall): Option<ChainError> {
    if call.Commit? && call.root == ZERO then Some(ZeroEpochRoot)
    else if call.Vote? && call.voter !in c.committee then Some(VoterNotOnCommittee)
    else None
  }

  function Paid(c: Chain, job: Job, call: JobCall): map<Addr, nat> {
    if call.Vote? && call.dispute in job.challenges then
      var to, reward := job.challenges[call.dispute].challenger, Reward(job, call.dispute, call.voter, call.uphold);
      if Decided(Counted(job.challenges[call.dispute], call.voter, call.uphold)).verdict.ResolvedUphold? then
        c.rewards[to := Lookup(c.rewards, to) + reward]
      else c.rewards
    else c.rewards
  }

  function NewJob(spec: Spec): Job {
    Job(spec, Recruiting, 0, None, [], {}, map[], 0, 0, {}, map[], map[])
  }

  function Answer(c: Chain, call: Call): Result<Chain, ChainError> {
    match call
    case CreateJob(spec) => Ok(c.(jobs := c.jobs[c.nextJobId := NewJob(spec)], nextJobId := c.nextJobId + 1))
    case Advance(n) => Ok(c.(block := c.block + n))
    case SetMember(m, active) => Ok(c.(committee := if active then c.committee + {m} else c.committee - {m}))
    case On(id, jc) =>
      if Gate(c, jc).Some? then Err(Gate(c, jc).value)
      else if id !in c.jobs then Err(UnknownJob(id))
      else
        match JobAnswer(c.jobs[id], c.block, jc)
        case Err(e) => Err(e)
        case Ok(job) => Ok(c.(jobs := c.jobs[id := job], rewards := Paid(c, c.jobs[id], jc)))
  }

  /** A refused call changes nothing. */
  function Step(c: Chain, call: Call): Chain {
    var r := Answer(c, call);
    if r.Ok? then r.value else c
  }

  function Run(c: Chain, calls: seq<Call>): Chain
    decreases |calls|
  {
    if calls == [] then c else Run(Step(c, calls[0]), calls[1..])
  }

  const GENESIS: Chain := Chain(map[], 0, 0, {}, map[])
}
