/** The training lifecycle over every run: what a job's fields always satisfy, that it only moves
    forward, and that any joined worker can bring a stalled job to its end. */
module ContractLifecycle {
  import opened Base
  import opened Merkle
  import opened ContractSpec

  // ---- what every job satisfies ---------------------------------------------------------

  ghost predicate Membership(job: Job) {
    && (forall w :: w in job.joined <==> w in job.workers)
    && |job.workers| == |job.joined| <= job.spec.maxWorkers
    && (job.coordinator.None? <==> job.phase.Recruiting?)
    && (job.coordinator.Some? ==> job.coordinator.value in job.joined)
    && job.livenessSlashed <= job.joined
  }

  /** Roots are those of the epochs committed so far, none of them zero. */
  ghost predicate Roots(job: Job) {
    && (forall e: nat :: e in job.epochRoots <==> e < job.currentEpoch)
    && (forall e | e in job.epochRoots :: job.epochRoots[e] != ZERO)
    && (job.phase.Recruiting? ==> job.currentEpoch == 0)
    && (0 < job.spec.epochCount ==> job.currentEpoch <= job.spec.epochCount)
    && (job.phase.Training? && 0 < job.spec.epochCount ==> job.currentEpoch < job.spec.epochCount)
  }

  ghost predicate Timed(job: Job, block: nat) {
    && job.allCommittedBlock <= block && job.lastActivityBlock <= block && !job.phase.Aborted?
    && (job.phase.Finalized? ==> job.allCommittedBlock + job.spec.challengeWindow <= block)
  }

  /** Votes are distinct voters; two of a kind decide, so there are at most three; a bond is held in
      full while the vote is open and not at all afterwards. */
  ghost predicate Fair(ch: Challenge) {
    && |ch.voted| == ch.upholdVotes + ch.rejectVotes
    && match ch.verdict
       case Voting => ch.upholdVotes <= 1 && ch.rejectVotes <= 1 && ch.bond == CHALLENGE_BOND
       case ResolvedUphold => ch.upholdVotes == 2 && ch.rejectVotes <= 1 && ch.bond == 0
       case ResolvedReject => ch.upholdVotes <= 1 && ch.rejectVotes == 2 && ch.bond == 0
  }

  ghost predicate WellFounded(job: Job, d: Dispute) {
    d.target in job.joined && d.step < job.spec.stepsPerEpoch && d.epoch in job.epochRoots
  }

  ghost predicate Disputes(job: Job) {
    && (forall d | d in job.challenges :: WellFounded(job, d) && Fair(job.challenges[d]) && job.challenges[d].challenger != d.target)
    && (forall w | w in job.challengeSlashed :: w in job.joined && job.challengeSlashed[w] <= job.spec.perWorkerStake)
  }

  ghost predicate JobInv(job: Job, block: nat) {
    Membership(job) && Roots(job) && Timed(job, block) && Disputes(job)
  }

  ghost predicate Inv(c: Chain) {
    forall id | id in c.jobs :: id < c.nextJobId && JobInv(c.jobs[id], c.block)
  }

  // ---- every call keeps it ----------------------------------------------------------------

  lemma MembershipKept(job: Job, block: nat, call: JobCall)
    requires Membership(job) && JobAnswer(job, block, call).Ok?
    ensures Membership(JobAnswer(job, block, call).value)
  {
    if call.Join? {
      JoinKeepsMembership(job, call.sender);
    }
  }

  lemma JoinKeepsMembership(job: Job, sender: Addr)
    requires Membership(job) && job.phase.Recruiting? && sender !in job.joined && |job.workers| < job.spec.maxWorkers
    ensures Membership(job.(workers := job.workers + [sender], joined := job.joined + {sender}))
  {
  }

  lemma RootsKept(job: Job, block: nat, call: JobCall)
    requires Roots(job) && JobAnswer(job, block, call).Ok? && !(call.Commit? && call.root == ZERO)
    ensures Roots(JobAnswer(job, block, call).value)
  {
  }

  lemma TimedKept(job: Job, block: nat, call: JobCall)
    requires Timed(job, block) && JobAnswer(job, block, call).Ok?
    ensures Timed(JobAnswer(job, block, call).value, block)
  {
  }

  lemma FairVote(ch: Challenge, voter: Addr, uphold: bool)
    requires Fair(ch) && ch.verdict.Voting? && voter !in ch.voted
    ensures Fair(Decided(Counted(ch, voter, uphold)))
  {
  }

  lemma DisputesKept(job: Job, block: nat, call: JobCall)
    requires Membership(job) && Disputes(job) && JobAnswer(job, block, call).Ok?
    ensures Disputes(JobAnswer(job, block, call).value)
  {
    if call.Vote? {
      VoteKeepsDisputes(job, call.dispute, call.voter, call.uphold);
    }
  }

  lemma VoteKeepsDisputes(job: Job, d: Dispute, voter: Addr, uphold: bool)
    requires Disputes(job) && d in job.challenges && job.challenges[d].verdict.Voting? && voter !in job.challenges[d].voted
    ensures Disputes(Voted(job, d, voter, uphold))
  {
    FairVote(job.challenges[d], voter, uphold);
  }

  lemma JobKept(job: Job, block: nat, call: JobCall)
    requires JobInv(job, block) && JobAnswer(job, block, call).Ok? && !(call.Commit? && call.root == ZERO)
    ensures JobInv(JobAnswer(job, block, call).value, block)
  {
    MembershipKept(job, block, call);
    RootsKept(job, block, call);
    TimedKept(job, block, call);
    DisputesKept(job, block, call);
  }

  lemma NewJobInv(spec: Spec, block: nat)
    ensures JobInv(NewJob(spec), block)
  {
  }

  lemma StepKeeps(c: Chain, call: Call)
    requires Inv(c)
    ensures Inv(Step(c, call))
  {
    var c' := Step(c, call);
    forall id | id in c'.jobs ensures id < c'.nextJobId && JobInv(c'.jobs[id], c'.block) {
      if call.On? && call.id == id && Answer(c, call).Ok? {
        JobKept(c.jobs[id], c.block, call.call);
      } else if call.CreateJob? && id == c.nextJobId {
        NewJobInv(call.spec, c.block);
      } else {
        assert c'.jobs[id] == c.jobs[id];
      }
    }
  }

  lemma {:induction false} RunKeeps(c: Chain, calls: seq<Call>)
    requires Inv(c)
    ensures Inv(Run(c, calls))
    decreases |calls|
  {
    if calls != [] {
      StepKeeps(c, calls[0]);
      RunKeeps(Step(c, calls[0]), calls[1..]);
    }
  }

  /** Everything above holds of every job after every run from an empty chain. */
  lemma EveryReachableJob(calls: seq<Call>, id: JobId)
    requires id in Run(GENESIS, calls).jobs
    ensures JobInv(Run(GENESIS, calls).jobs[id], Run(GENESIS, calls).block)
  {
    RunKeeps(GENESIS, calls);
  }

  lemma NextRootIsNew(job: Job, block: nat, call: JobCall)
    requires Roots(job)
    ensures JobAnswer(job, block, call) != Err(EpochAlreadyCommitted)
  {
  }

  /** The `EpochAlreadyCommitted` refusal is never given. */
  lemma EpochAlreadyCommittedUnreachable(calls: seq<Call>, call: Call)
    ensures Answer(Run(GENESIS, calls), call) != Err(EpochAlreadyCommitted)
  {
    RunKeeps(GENESIS, calls);
    var c := Run(GENESIS, calls);
    if call.On? && call.id in c.jobs {
      NextRootIsNew(c.jobs[call.id], c.block, call.call);
    }
  }

  // ---- forward only -------------------------------------------------------------------------

  function Rank(p: Phase): nat {
    match p
    case Recruiting => 0
    case Training => 1
    case Awaiting => 2
    case Finalized => 3
    case Aborted => 4
  }

  /** `b` is a later form of `a`: same terms, no later phase undone, no committed root changed or lost,
      no member gone and no slash taken back. Once training is over the awaiting clock is fixed too. */
  ghost predicate Later(a: Job, b: Job) {
    && b.spec == a.spec && Rank(a.phase) <= Rank(b.phase) && a.currentEpoch <= b.currentEpoch
    && a.workers <= b.workers && a.joined <= b.joined && a.livenessSlashed <= b.livenessSlashed
    && (forall e | e in a.epochRoots :: e in b.epochRoots && b.epochRoots[e] == a.epochRoots[e])
    && (forall w | w in a.challengeSlashed :: w in b.challengeSlashed && a.challengeSlashed[w] <= b.challengeSlashed[w])
    && (Rank(a.phase) >= 2 ==> b.epochRoots == a.epochRoots && b.allCommittedBlock == a.allCommittedBlock
                               && b.coordinator == a.coordinator)
    && (Rank(a.phase) >= 1 ==> b.workers == a.workers && b.joined == a.joined)
  }

  lemma CallMovesForward(job: Job, block: nat, call: JobCall)
    requires Roots(job) && JobAnswer(job, block, call).Ok?
    ensures Later(job, JobAnswer(job, block, call).value)
  {
  }

  lemma StepMovesForward(c: Chain, call: Call, id: JobId)
    requires Inv(c) && id in c.jobs
    ensures id in Step(c, call).jobs && Later(c.jobs[id], Step(c, call).jobs[id]) && c.block <= Step(c, call).block
  {
    if call.On? && call.id == id && Answer(c, call).Ok? {
      CallMovesForward(c.jobs[id], c.block, call.call);
    }
  }

  lemma LaterIsTransitive(a: Job, b: Job, c: Job)
    requires Later(a, b) && Later(b, c)
    ensures Later(a, c)
  {
  }

  /** Over any run a job only moves forward; committed roots never change. */
  lemma {:induction false} RunMovesForward(c: Chain, calls: seq<Call>, id: JobId)
    requires Inv(c) && id in c.jobs
    ensures id in Run(c, calls).jobs && Later(c.jobs[id], Run(c, calls).jobs[id]) && c.block <= Run(c, calls).block
    decreases |calls|
  {
    if calls != [] {
      var c1 := Step(c, calls[0]);
      StepKeeps(c, calls[0]);
      StepMovesForward(c, calls[0], id);
      RunMovesForward(c1, calls[1..], id);
      LaterIsTransitive(c.jobs[id], c1.jobs[id], Run(c1, calls[1..]).jobs[id]);
    }
  }

  /** Training ends in `Awaiting`, with the window counted from that block. */
  lemma TrainingEndsInAwaiting(c: Chain, call: Call, id: JobId)
    requires id in c.jobs && c.jobs[id].phase.Training? && id < c.nextJobId
    ensures id in Step(c, call).jobs
    ensures var job := Step(c, call).jobs[id];
            job.phase.Training? || (job.phase.Awaiting? && job.allCommittedBlock == c.block)
  {
  }

  lemma FinalizedAfterWindow(c: Chain, id: JobId)
    requires Inv(c) && id in c.jobs && c.jobs[id].phase.Finalized?
    ensures c.jobs[id].allCommittedBlock + c.jobs[id].spec.challengeWindow <= c.block
  {
  }

  /** A call that ends training at some block opens a challenge window there, and no run finalizes the
      job before that window has passed. */
  lemma NotFinalizedBeforeTheWindowEnds(c: Chain, call: Call, calls: seq<Call>, id: JobId)
    requires Inv(c) && id in c.jobs && c.jobs[id].phase.Training? && !Step(c, call).jobs[id].phase.Training?
    ensures var late := Run(Step(c, call), calls);
            && !Step(c, call).jobs[id].phase.Finalized? && id in late.jobs
            && (late.jobs[id].phase.Finalized? ==> late.block >= c.block + c.jobs[id].spec.challengeWindow)
  {
    var c1 := Step(c, call);
    TrainingEndsInAwaiting(c, call, id);
    StepMovesForward(c, call, id);
    StepKeeps(c, call);
    RunMovesForward(c1, calls, id);
    RunKeeps(c1, calls);
    if Run(c1, calls).jobs[id].phase.Finalized? {
      FinalizedAfterWindow(Run(c1, calls), id);
    }
  }

  // ---- progress -------------------------------------------------------------------------------

  /** What a single joined worker does about a stalled job. */
  function WayOut(job: Job, id: JobId, worker: Addr): seq<Call> {
    [Advance(STALL_EXPIRY_BLOCKS + 1), On(id, Expire(worker)), Advance(job.spec.challengeWindow), On(id, Finalize)]
  }

  lemma RunFirst(c: Chain, call: Call, rest: seq<Call>)
    ensures Run(c, [call] + rest) == Run(Step(c, call), rest)
  {
    assert ([call] + rest)[1..] == rest;
  }

  lemma RunFour(c: Chain, a: Call, b: Call, d: Call, e: Call)
    ensures Run(c, [a, b, d, e]) == Step(Step(Step(Step(c, a), b), d), e)
  {
    RunFirst(c, a, [b, d, e]);
    RunFirst(Step(c, a), b, [d, e]);
    RunFirst(Step(Step(c, a), b), d, [e]);
    RunFirst(Step(Step(Step(c, a), b), d), e, []);
    assert [a, b, d, e] == [a] + [b, d, e] && [b, d, e] == [b] + [d, e] && [d, e] == [d] + [e] && [e] == [e] + [];
  }

  lemma WaitAndExpire(c: Chain, id: JobId, worker: Addr)
    requires id in c.jobs && c.jobs[id].phase.Training? && worker in c.jobs[id].joined
    requires c.jobs[id].lastActivityBlock <= c.block
    ensures var c2 := Step(Step(c, Advance(STALL_EXPIRY_BLOCKS + 1)), On(id, Expire(worker)));
            id in c2.jobs && c2.jobs[id] == c.jobs[id].(phase := Awaiting, allCommittedBlock := c2.block)
  {
  }

  lemma WaitAndFinalize(c: Chain, id: JobId)
    requires id in c.jobs && c.jobs[id].phase.Awaiting? && c.jobs[id].allCommittedBlock <= c.block
    ensures var c2 := Step(Step(c, Advance(c.jobs[id].spec.challengeWindow)), On(id, Finalize));
            id in c2.jobs && c2.jobs[id] == c.jobs[id].(phase := Finalized)
  {
  }

  /** From every reachable training state any joined worker, alone and whatever the coordinator does
      not do, brings the job to `Finalized` by waiting, expiring, waiting and finalizing; and there is
      always such a worker. */
  lemma AnyWorkerCanFinish(c: Chain, id: JobId, worker: Addr)
    requires Inv(c) && id in c.jobs && c.jobs[id].phase.Training?
    ensures c.jobs[id].joined != {}
    ensures worker in c.jobs[id].joined ==>
              var done := Run(c, WayOut(c.jobs[id], id, worker));
              id in done.jobs && done.jobs[id].phase.Finalized? && done.jobs[id].epochRoots == c.jobs[id].epochRoots
  {
    var job := c.jobs[id];
    assert job.coordinator.Some?;
    if worker in job.joined {
      var wait, expire, close := Advance(STALL_EXPIRY_BLOCKS + 1), On(id, Expire(worker)), On(id, Finalize);
      WaitAndExpire(c, id, worker);
      var c2 := Step(Step(c, wait), expire);
      WaitAndFinalize(c2, id);
      RunFour(c, wait, expire, Advance(job.spec.challengeWindow), close);
    }
  }

  /** Expiring is refused exactly while the coordinator has been active within the stall period: what
      an outsider, or a worker too early, gets. */
  lemma ExpiresExactlyWhenStalled(c: Chain, id: JobId, caller: Addr)
    requires Inv(c) && id in c.jobs
    ensures Answer(c, On(id, Expire(caller))).Ok? <==>
              && c.jobs[id].phase.Training? && (caller == MOCK_REQUESTER || caller in c.jobs[id].joined)
              && c.block > c.jobs[id].lastActivityBlock + STALL_EXPIRY_BLOCKS
  {
  }
}
