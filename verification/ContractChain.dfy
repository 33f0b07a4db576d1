/** The mock chain client itself: the contract's fields changed in place, call by call. */
module ContractChains {
  import opened Base
  import opened Merkle
  import opened S = ContractSpec

  /** A call answers as specified, and a refused one leaves the chain as it was. */
  ghost predicate Answers(before: Chain, call: Call, after: Chain, failure: Option<ChainError>) {
    match Answer(before, call)
    case Ok(c) => after == c && failure == None
    case Err(e) => after == before && failure == Some(e)
  }

  /** The slash an upheld challenge makes: nominal, but never more than is still held. */
  method SlashFor(job: Job, target: Addr) returns (slash: nat)
    ensures slash == SlashDue(job, target)
    ensures Lookup(job.challengeSlashed, target) <= job.spec.perWorkerStake ==>
              Lookup(job.challengeSlashed, target) + slash <= job.spec.perWorkerStake
  {
    var stake := job.spec.perWorkerStake;
    var prior := Lookup(job.challengeSlashed, target);
    var livenessCount := if target in job.livenessSlashed then 1 else 0;
    var nominal := stake * SLASH_BPS / BPS;
    var held := Max(0, Max(0, stake - prior) - livenessCount * (stake * LIVENESS_SLASH_BPS / BPS));
    slash := Min(nominal, held);
  }

  class MockChain {
    var jobs: map<JobId, Job>
    var nextJobId: JobId
    var block: nat
    var committee: set<Addr>
    var rewards: map<Addr, nat>

    function Value(): Chain
      reads this
    {
      Chain(jobs, nextJobId, block, committee, rewards)
    }

    constructor ()
      ensures Value() == GENESIS
    {
      jobs, nextJobId, block, committee, rewards := map[], 0, 0, {}, map[];
    }

    method CreateJob(spec: Spec) returns (id: JobId)
      modifies this
      ensures Value() == Step(old(Value()), S.CreateJob(spec))
      ensures id == old(nextJobId) && jobs[id] == NewJob(spec)
    {
      id := nextJobId;
      nextJobId := nextJobId + 1;
      jobs := jobs[id := NewJob(spec)];
    }

    method AdvanceBlocks(n: nat)
      modifies this
      ensures Value() == Step(old(Value()), Advance(n))
    {
      block := block + n;
    }

    method SetCommitteeMember(member: Addr, active: bool)
      modifies this
      ensures Value() == Step(old(Value()), SetMember(member, active))
    {
      if active {
        committee := committee + {member};
      } else {
        committee := committee - {member};
      }
    }

    method JoinTrainingJob(id: JobId, sender: Addr, stake: nat) returns (failure: Option<ChainError>)
      modifies this
      ensures Answers(old(Value()), On(id, Join(sender, stake)), Value(), failure)
    {
      if id !in jobs { return Some(UnknownJob(id)); }
      var job := jobs[id];
      if job.phase != Recruiting { return Some(WrongState); }
      if sender in job.joined { return Some(AlreadyJoined); }
      if |job.workers| >= job.spec.maxWorkers { return Some(PoolFull); }
      if stake != job.spec.perWorkerStake { return Some(StakeMismatch); }
      job := job.(workers := job.workers + [sender]);
      job := job.(joined := job.joined + {sender});
      jobs := jobs[id := job];
      failure := None;
    }

    method CloseRecruitment(id: JobId, coordinator: Addr) returns (failure: Option<ChainError>)
      modifies this
      ensures Answers(old(Value()), On(id, Close(coordinator)), Value(), failure)
    {
      if id !in jobs { return Some(UnknownJob(id)); }
      var job := jobs[id];
      if job.phase != Recruiting { return Some(WrongState); }
      if |job.workers| < job.spec.minWorkers { return Some(BelowMin); }
      if coordinator !in job.joined { return Some(CoordinatorNotJoined); }
      job := job.(phase := Training, coordinator := Some(coordinator));
      job := job.(lastActivityBlock := block);
      jobs := jobs[id := job];
      failure := None;
    }

    method CommitEpoch(id: JobId, sender: Addr, epoch: nat, root: Digest) returns (failure: Option<ChainError>)
      modifies this
      ensures Answers(old(Value()), On(id, Commit(sender, epoch, root)), Value(), failure)
    {
      if root == ZERO { return Some(ZeroEpochRoot); }
      if id !in jobs { return Some(UnknownJob(id)); }
      var job := jobs[id];
      if job.phase != Training { return Some(WrongState); }
      if job.coordinator != Some(sender) { return Some(NotCoordinator); }
      if epoch != job.currentEpoch { return Some(WrongEpoch(job.currentEpoch, epoch)); }
      if epoch in job.epochRoots { return Some(EpochAlreadyCommitted); }
      job := job.(epochRoots := job.epochRoots[epoch := root]);
      job := job.(currentEpoch := job.currentEpoch + 1, lastActivityBlock := block);
      if job.currentEpoch == job.spec.epochCount {
        job := job.(phase := Awaiting, allCommittedBlock := block);
      }
      jobs := jobs[id := job];
      failure := None;
    }

    method FinalizeJob(id: JobId) returns (failure: Option<ChainError>)
      modifies this
      ensures Answers(old(Value()), On(id, Finalize), Value(), failure)
    {
      if id !in jobs { return Some(UnknownJob(id)); }
      var job := jobs[id];
      if job.phase != Awaiting { return Some(NotReadyToFinalize); }
      var windowEnd := job.allCommittedBlock + job.spec.challengeWindow;
      if block < windowEnd { return Some(ChallengeWindowOpen); }
      jobs := jobs[id := job.(phase := Finalized)];
      failure := None;
    }

    method ExpireStalledTraining(id: JobId, caller: Addr) returns (failure: Option<ChainError>)
      modifies this
      ensures Answers(old(Value()), On(id, Expire(caller)), Value(), failure)
    {
      if id !in jobs { return Some(UnknownJob(id)); }
      var job := jobs[id];
      if job.phase != Training { return Some(WrongState); }
      if caller != MOCK_REQUESTER && caller !in job.joined { return Some(NotRequesterOrGovernance); }
      if block <= job.lastActivityBlock + STALL_EXPIRY_BLOCKS { return Some(NotStalled); }
      jobs := jobs[id := job.(phase := Awaiting, allCommittedBlock := block)];
      failure := None;
    }

    method ReassignCoordinator(id: JobId, caller: Addr, replacement: Addr) returns (failure: Option<ChainError>)
      modifies this
      ensures Answers(old(Value()), On(id, Reassign(caller, replacement)), Value(), failure)
    {
      if id !in jobs { return Some(UnknownJob(id)); }
      var job := jobs[id];
      if job.phase != Training { return Some(WrongState); }
      if caller != MOCK_REQUESTER && caller != MOCK_GOVERNANCE { return Some(NotRequesterOrGovernance); }
      if replacement !in job.joined { return Some(ReplacementNotJoined); }
      if block <= job.lastActivityBlock + COORDINATION_TIMEOUT { return Some(CoordinatorStillActive); }
      if caller == MOCK_GOVERNANCE && job.coordinator.Some? {
        job := job.(livenessSlashed := job.livenessSlashed + {job.coordinator.value});
      }
      job := job.(coordinator := Some(replacement), lastActivityBlock := block);
      jobs := jobs[id := job];
      failure := None;
    }

    method ChallengeStep(id: JobId, caller: Addr, d: Dispute, leaf: Digest, proof: seq<Digest>, bond: nat)
      returns (failure: Option<ChainError>)
      modifies this
      ensures Answers(old(Value()), On(id, Open(caller, d, leaf, proof, bond)), Value(), failure)
    {
      if id !in jobs { return Some(UnknownJob(id)); }
      var job := jobs[id];
      if caller == d.target { return Some(SelfChallenge); }
      if d.target !in job.joined { return Some(TargetNotJoined); }
      if bond != CHALLENGE_BOND { return Some(WrongChallengeBond); }
      if d.step >= job.spec.stepsPerEpoch { return Some(StepOutOfRange); }
      if d.epoch >= job.spec.epochCount { return Some(ChallengeEpochOutOfRange); }
      if d.epoch !in job.epochRoots { return Some(EpochNotCommitted); }
      var verified := VerifyMerkleProof(proof, job.epochRoots[d.epoch], leaf);
      if !verified { return Some(BadMerkleProof); }
      if d in job.challenges && job.challenges[d].verdict == Voting { return Some(ChallengeAlreadyActive); }
      job := job.(challenges := job.challenges[d := Challenge(caller, bond, Voting, 0, 0, {})]);
      jobs := jobs[id := job];
      failure := None;
    }

    method VoteChallenge(id: JobId, voter: Addr, d: Dispute, uphold: bool) returns (failure: Option<ChainError>)
      modifies this
      ensures Answers(old(Value()), On(id, Vote(voter, d, uphold)), Value(), failure)
    {
      if voter !in committee { return Some(VoterNotOnCommittee); }
      if id !in jobs { return Some(UnknownJob(id)); }
      var job := jobs[id];
      if d !in job.challenges { return Some(ChallengeNotVoting); }
      var ch := job.challenges[d];
      if ch.verdict != Voting { return Some(ChallengeNotVoting); }
      if voter in ch.voted { return Some(AlreadyVoted); }
      ch := ch.(voted := ch.voted + {voter});
      if uphold {
        ch := ch.(upholdVotes := ch.upholdVotes + 1);
      } else {
        ch := ch.(rejectVotes := ch.rejectVotes + 1);
      }
      failure := None;
      if ch.upholdVotes >= COMMITTEE_QUORUM {
        var challenger, bond := ch.challenger, ch.bond;
        ch := ch.(verdict := ResolvedUphold, bond := 0);
        var slash := SlashFor(job, d.target);
        job := job.(challenges := job.challenges[d := ch]);
        job := job.(challengeSlashed := job.challengeSlashed[d.target := Lookup(job.challengeSlashed, d.target) + slash]);
        jobs := jobs[id := job];
        rewards := rewards[challenger := Lookup(rewards, challenger) + (bond + slash / 2)];
        return;
      }
      if ch.rejectVotes >= COMMITTEE_QUORUM {
        ch := ch.(verdict := ResolvedReject, bond := 0);
      }
      jobs := jobs[id := job.(challenges := job.challenges[d := ch])];
    }

    method WorkerTotalSlashed(id: JobId, worker: Addr) returns (total: nat)
      ensures total == if id in jobs then TotalSlashed(jobs[id], worker) else 0
    {
      if id !in jobs { return 0; }
      var job := jobs[id];
      var challengePortion := Lookup(job.challengeSlashed, worker);
      total := challengePortion + LivenessPortion(job, worker);
    }
  }
}
