/** The contract told a second time, from nothing but the calls it has accepted: who joined, who was named
    last, what was committed, who voted since. What the contract answers is what this record says. */
module ContractRecord {
  import opened Base
  import opened Merkle
  import opened ContractSpec
  import opened ContractLifecycle

  /** An accepted call about a job, and the block it came at. */
  datatype Entry = Entry(call: JobCall, block: nat)

  type Record = seq<Entry>

  /** Everything that was accepted: the jobs in the order they were created, a record of each, the blocks
      that have passed and the committee. */
  datatype Book = Book(specs: seq<Spec>, records: seq<Record>, height: nat, seated: set<Addr>)

  // ---- what a record says -----------------------------------------------------------------------

  function Members(log: Record): seq<Addr> {
    if log == [] then []
    else
      var before, last := Members(log[..|log| - 1]), log[|log| - 1].call;
      if last.Join? then before + [last.sender] else before
  }

  /** The coordinator named last. */
  function Named(log: Record): Option<Addr> {
    if log == [] then None
    else
      var last := log[|log| - 1].call;
      if last.Close? then Some(last.coordinator)
      else if last.Reassign? then Some(last.replacement)
      else Named(log[..|log| - 1])
  }

  function Committed(log: Record): seq<Digest> {
    if log == [] then []
    else
      var before, last := Committed(log[..|log| - 1]), log[|log| - 1].call;
      if last.Commit? then before + [last.root] else before
  }

  /** The last sign of life: recruitment closed, an epoch committed, or a coordinator named. */
  function LastActive(log: Record): nat {
    if log == [] then 0
    else
      var last := log[|log| - 1];
      if last.call.Close? || last.call.Commit? || last.call.Reassign? then last.block else LastActive(log[..|log| - 1])
  }

  /** The commit of the last epoch, or an expiry, ends training. */
  predicate Ends(spec: Spec, log: Record)
    requires log != []
  {
    var last := log[|log| - 1].call;
    last.Expire? || (last.Commit? && |Committed(log)| == spec.epochCount)
  }

  function EndedAt(spec: Spec, log: Record): nat {
    if log == [] then 0
    else if Ends(spec, log) then log[|log| - 1].block
    else EndedAt(spec, log[..|log| - 1])
  }

  function Stage(spec: Spec, log: Record): Phase {
    if log == [] then Recruiting
    else if log[|log| - 1].call.Finalize? then Finalized
    else if Ends(spec, log) then Awaiting
    else if log[|log| - 1].call.Close? then Training
    else Stage(spec, log[..|log| - 1])
  }

  /** Whoever governance replaced. */
  function Replaced(log: Record): set<Addr> {
    if log == [] then {}
    else
      var before, last := Replaced(log[..|log| - 1]), log[|log| - 1].call;
      var named := Named(log[..|log| - 1]);
      if last.Reassign? && last.caller == MOCK_GOVERNANCE && named.Some? then before + {named.value} else before
  }

  predicate Opens(e: Entry, d: Dispute) {
    e.call.Open? && e.call.dispute == d
  }

  predicate VotesOn(e: Entry, d: Dispute) {
    e.call.Vote? && e.call.dispute == d
  }

  predicate Disputed(log: Record, d: Dispute) {
    log != [] && (Opens(log[|log| - 1], d) || Disputed(log[..|log| - 1], d))
  }

  /** Who has voted since the dispute was last opened. */
  function Voters(log: Record, d: Dispute): set<Addr> {
    if log == [] || Opens(log[|log| - 1], d) then {}
    else
      var before := Voters(log[..|log| - 1], d);
      if VotesOn(log[|log| - 1], d) then before + {log[|log| - 1].call.voter} else before
  }

  /** How many of them voted this way. */
  function Tally(log: Record, d: Dispute, uphold: bool): nat {
    if log == [] || Opens(log[|log| - 1], d) then 0
    else
      var before := Tally(log[..|log| - 1], d, uphold);
      if VotesOn(log[|log| - 1], d) && log[|log| - 1].call.uphold == uphold then before + 1 else before
  }

  /** Opened, and no two votes of a kind since. */
  predicate Undecided(log: Record, d: Dispute) {
    Disputed(log, d) && Tally(log, d, true) < 2 && Tally(log, d, false) < 2
  }

  // ---- what is lawful ---------------------------------------------------------------------------

  /** The reason a call about a job is refused, if it is. */
  function Refusal(spec: Spec, log: Record, call: JobCall, height: nat): Option<ChainError> {
    match call
    case Join(sender, stake) =>
      if Stage(spec, log) != Recruiting then Some(WrongState)
      else if sender in Members(log) then Some(AlreadyJoined)
      else if |Members(log)| >= spec.maxWorkers then Some(PoolFull)
      else if stake != spec.perWorkerStake then Some(StakeMismatch)
      else None
    case Close(coordinator) =>
      if Stage(spec, log) != Recruiting then Some(WrongState)
      else if |Members(log)| < spec.minWorkers then Some(BelowMin)
      else if coordinator !in Members(log) then Some(CoordinatorNotJoined)
      else None
    case Commit(sender, epoch, root) =>
      if Stage(spec, log) != Training then Some(WrongState)
      else if Named(log) != Some(sender) then Some(NotCoordinator)
      else if epoch != |Committed(log)| then Some(WrongEpoch(|Committed(log)|, epoch))
      else None
    case Finalize =>
      if Stage(spec, log) != Awaiting then Some(NotReadyToFinalize)
      else if height < EndedAt(spec, log) + spec.challengeWindow then Some(ChallengeWindowOpen)
      else None
    case Expire(caller) =>
      if Stage(spec, log) != Training then Some(WrongState)
      else if caller != MOCK_REQUESTER && caller !in Members(log) then Some(NotRequesterOrGovernance)
      else if height <= LastActive(log) + 50_400 then Some(NotStalled)
      else None
    case Reassign(caller, replacement) =>
      if Stage(spec, log) != Training then Some(WrongState)
      else if caller != MOCK_REQUESTER && caller != MOCK_GOVERNANCE then Some(NotRequesterOrGovernance)
      else if replacement !in Members(log) then Some(ReplacementNotJoined)
      else if height <= LastActive(log) + 100 then Some(CoordinatorStillActive)
      else None
    case Open(caller, d, leaf, proof, bond) =>
      if caller == d.target then Some(SelfChallenge)
      else if d.target !in Members(log) then Some(TargetNotJoined)
      else if bond != 1_000_000_000_000_000_000 then Some(WrongChallengeBond)
      else if d.step >= spec.stepsPerEpoch then Some(StepOutOfRange)
      else if d.epoch >= spec.epochCount then Some(ChallengeEpochOutOfRange)
      else if d.epoch >= |Committed(log)| then Some(EpochNotCommitted)
      else if Climb(LeafHash(leaf), proof) != Committed(log)[d.epoch] then Some(BadMerkleProof)
      else if Undecided(log, d) then Some(ChallengeAlreadyActive)
      else None
    case Vote(voter, d, uphold) =>
      if !Undecided(log, d) then Some(ChallengeNotVoting)
      else if voter in Voters(log, d) then Some(AlreadyVoted)
      else None
  }

  /** The reason a call is refused, if it is. */
  function Objection(b: Book, call: Call): Option<ChainError>
    requires |b.specs| == |b.records|
  {
    match call
    case CreateJob(_) => None
    case Advance(_) => None
    case SetMember(_, _) => None
    case On(id, jc) =>
      if jc.Commit? && jc.root == ZERO then Some(ZeroEpochRoot)
      else if jc.Vote? && jc.voter !in b.seated then Some(VoterNotOnCommittee)
      else if id >= |b.specs| then Some(UnknownJob(id))
      else Refusal(b.specs[id], b.records[id], jc, b.height)
  }

  function Noted(b: Book, call: Call): (b': Book)
    requires |b.specs| == |b.records|
    ensures |b'.specs| == |b'.records|
  {
    match call
    case CreateJob(spec) => b.(specs := b.specs + [spec], records := b.records + [[]])
    case Advance(n) => b.(height := b.height + n)
    case SetMember(m, active) => b.(seated := if active then b.seated + {m} else b.seated - {m})
    case On(id, jc) =>
      if Objection(b, call).Some? then b
      else b.(records := b.records[id := b.records[id] + [Entry(jc, b.height)]])
  }

  function Kept(calls: seq<Call>): (b: Book)
    ensures |b.specs| == |b.records|
  {
    if calls == [] then Book([], [], 0, {}) else Noted(Kept(calls[..|calls| - 1]), calls[|calls| - 1])
  }

  // ---- the contract holds what the record says --------------------------------------------------

  ghost predicate TellsTraining(spec: Spec, log: Record, job: Job) {
    && job.spec == spec && job.phase == Stage(spec, log)
    && job.workers == Members(log) && (forall w :: w in job.joined <==> w in job.workers)
    && job.coordinator == Named(log) && job.livenessSlashed == Replaced(log)
    && job.lastActivityBlock == LastActive(log) && job.allCommittedBlock == EndedAt(spec, log)
  }

  ghost predicate TellsRoots(log: Record, job: Job) {
    && job.currentEpoch == |Committed(log)|
    && (forall e: nat :: e in job.epochRoots <==> e < |Committed(log)|)
    && forall e: nat | e < |Committed(log)| :: job.epochRoots[e] == Committed(log)[e]
  }

  ghost predicate TellsDispute(log: Record, job: Job, d: Dispute) {
    && (d in job.challenges <==> Disputed(log, d))
    && (d in job.challenges ==>
          var ch := job.challenges[d];
          && ch.voted == Voters(log, d) && ch.upholdVotes == Tally(log, d, true) && ch.rejectVotes == Tally(log, d, false)
          && (ch.verdict.Voting? <==> Undecided(log, d)))
  }

  ghost predicate Tells(spec: Spec, log: Record, job: Job) {
    TellsTraining(spec, log, job) && TellsRoots(log, job) && forall d :: TellsDispute(log, job, d)
  }

  lemma LastOf(log: Record, e: Entry)
    ensures (log + [e])[..|log + [e]| - 1] == log && (log + [e])[|log + [e]| - 1] == e && log + [e] != []
  {
  }

  lemma TrainingTold(spec: Spec, log: Record, job: Job, block: nat, call: JobCall)
    requires TellsTraining(spec, log, job) && TellsRoots(log, job) && JobAnswer(job, block, call).Ok?
    ensures TellsTraining(spec, log + [Entry(call, block)], JobAnswer(job, block, call).value)
  {
    LastOf(log, Entry(call, block));
  }

  lemma RootsTold(spec: Spec, log: Record, job: Job, block: nat, call: JobCall)
    requires TellsTraining(spec, log, job) && TellsRoots(log, job) && JobAnswer(job, block, call).Ok?
    ensures TellsRoots(log + [Entry(call, block)], JobAnswer(job, block, call).value)
  {
    LastOf(log, Entry(call, block));
  }

  lemma OpenTold(log: Record, job: Job, block: nat, call: JobCall, d: Dispute)
    requires TellsDispute(log, job, d) && call.Open? && JobAnswer(job, block, call).Ok?
    ensures TellsDispute(log + [Entry(call, block)], JobAnswer(job, block, call).value, d)
  {
    LastOf(log, Entry(call, block));
  }

  lemma VoteTold(log: Record, job: Job, block: nat, call: JobCall, d: Dispute)
    requires TellsDispute(log, job, d) && Disputes(job) && call.Vote? && JobAnswer(job, block, call).Ok?
    ensures TellsDispute(log + [Entry(call, block)], JobAnswer(job, block, call).value, d)
  {
    LastOf(log, Entry(call, block));
    if call.dispute == d {
      FairVote(job.challenges[d], call.voter, call.uphold);
    }
  }

  lemma RestTold(log: Record, job: Job, block: nat, call: JobCall, d: Dispute)
    requires TellsDispute(log, job, d) && !call.Open? && !call.Vote? && JobAnswer(job, block, call).Ok?
    ensures TellsDispute(log + [Entry(call, block)], JobAnswer(job, block, call).value, d)
  {
    LastOf(log, Entry(call, block));
  }

  lemma DisputeTold(log: Record, job: Job, block: nat, call: JobCall, d: Dispute)
    requires TellsDispute(log, job, d) && Disputes(job) && JobAnswer(job, block, call).Ok?
    ensures TellsDispute(log + [Entry(call, block)], JobAnswer(job, block, call).value, d)
  {
    if call.Open? {
      OpenTold(log, job, block, call, d);
    } else if call.Vote? {
      VoteTold(log, job, block, call, d);
    } else {
      RestTold(log, job, block, call, d);
    }
  }

  lemma CallTold(spec: Spec, log: Record, job: Job, block: nat, call: JobCall)
    requires Tells(spec, log, job) && Disputes(job) && JobAnswer(job, block, call).Ok?
    ensures Tells(spec, log + [Entry(call, block)], JobAnswer(job, block, call).value)
  {
    TrainingTold(spec, log, job, block, call);
    RootsTold(spec, log, job, block, call);
    forall d ensures TellsDispute(log + [Entry(call, block)], JobAnswer(job, block, call).value, d) {
      DisputeTold(log, job, block, call, d);
    }
  }

  /** A call about a job is refused for the reason the record gives, or accepted if it gives none. */
  lemma AnsweredByTheRecord(spec: Spec, log: Record, job: Job, block: nat, call: JobCall)
    requires Tells(spec, log, job)
    ensures var r := JobAnswer(job, block, call); var refusal := Refusal(spec, log, call, block);
            (r.Ok? <==> refusal.None?) && (r.Err? ==> refusal == Some(r.error))
  {
    if call.Open? {
      assert TellsDispute(log, job, call.dispute);
    } else if call.Vote? {
      assert TellsDispute(log, job, call.dispute);
    }
  }

  ghost predicate TellsJob(b: Book, c: Chain, id: JobId)
    requires |b.specs| == |b.records|
  {
    (id in c.jobs <==> id < |b.specs|) && (id in c.jobs ==> Tells(b.specs[id], b.records[id], c.jobs[id]))
  }

  ghost predicate TellsChain(b: Book, c: Chain) {
    && |b.specs| == |b.records| == c.nextJobId && c.block == b.height && c.committee == b.seated
    && forall id :: TellsJob(b, c, id)
  }

  lemma NewJobTold(spec: Spec)
    ensures Tells(spec, [], NewJob(spec))
  {
  }

  lemma ChainTold(b: Book, c: Chain, call: Call)
    requires TellsChain(b, c) && Inv(c)
    ensures TellsChain(Noted(b, call), Step(c, call))
    ensures (Answer(c, call).Ok? <==> Objection(b, call).None?) && (Answer(c, call).Err? ==> Objection(b, call) == Some(Answer(c, call).error))
  {
    ObjectionsMatch(b, c, call);
    match call
    case CreateJob(spec) => CreatedTold(b, c, spec);
    case Advance(_) => OthersTold(b, c, call);
    case SetMember(_, _) => OthersTold(b, c, call);
    case On(id, jc) => if Answer(c, call).Ok? { AcceptedTold(b, c, id, jc); }
  }

  lemma ObjectionsMatch(b: Book, c: Chain, call: Call)
    requires TellsChain(b, c)
    ensures (Answer(c, call).Ok? <==> Objection(b, call).None?) && (Answer(c, call).Err? ==> Objection(b, call) == Some(Answer(c, call).error))
  {
    if call.On? {
      assert TellsJob(b, c, call.id);
      if call.id in c.jobs {
        AnsweredByTheRecord(b.specs[call.id], b.records[call.id], c.jobs[call.id], c.block, call.call);
      }
    }
  }

  lemma CreatedTold(b: Book, c: Chain, spec: Spec)
    requires TellsChain(b, c)
    ensures TellsChain(Noted(b, CreateJob(spec)), Step(c, CreateJob(spec)))
  {
    NewJobTold(spec);
    forall id ensures TellsJob(Noted(b, CreateJob(spec)), Step(c, CreateJob(spec)), id) {
      assert TellsJob(b, c, id);
    }
  }

  lemma OthersTold(b: Book, c: Chain, call: Call)
    requires TellsChain(b, c) && (call.Advance? || call.SetMember?)
    ensures TellsChain(Noted(b, call), Step(c, call))
  {
    forall id ensures TellsJob(Noted(b, call), Step(c, call), id) {
      assert TellsJob(b, c, id);
    }
  }

  lemma AcceptedTold(b: Book, c: Chain, id: JobId, jc: JobCall)
    requires TellsChain(b, c) && Inv(c) && Answer(c, On(id, jc)).Ok? && Objection(b, On(id, jc)).None?
    ensures TellsChain(Noted(b, On(id, jc)), Step(c, On(id, jc)))
  {
    var b', c' := Noted(b, On(id, jc)), Step(c, On(id, jc));
    forall k ensures TellsJob(b', c', k) {
      assert TellsJob(b, c, k);
      if k == id {
        CallTold(b.specs[id], b.records[id], c.jobs[id], c.block, jc);
      }
    }
  }

  lemma {:induction false} RunTold(calls: seq<Call>)
    ensures TellsChain(Kept(calls), Run(GENESIS, calls)) && Inv(Run(GENESIS, calls))
    decreases |calls|
  {
    if calls != [] {
      var n := |calls| - 1;
      RunTold(calls[..n]);
      RunOneMore(GENESIS, calls[..n], calls[n]);
      assert calls == calls[..n] + [calls[n]];
      ChainTold(Kept(calls[..n]), Run(GENESIS, calls[..n]), calls[n]);
      StepKeeps(Run(GENESIS, calls[..n]), calls[n]);
    }
  }

  lemma {:induction false} RunOneMore(c: Chain, calls: seq<Call>, call: Call)
    ensures Run(c, calls + [call]) == Step(Run(c, calls), call)
    decreases |calls|
  {
    if calls == [] {
      assert ([] + [call])[1..] == [];
    } else {
      assert (calls + [call])[1..] == calls[1..] + [call];
      RunOneMore(Step(c, calls[0]), calls[1..], call);
    }
  }

  /** After any run of calls from an empty chain, every call is answered as the record of the accepted ones
      says: accepted if and only if it has no objection, and otherwise refused with exactly that reason. */
  lemma RefusedExactlyByTheRecord(calls: seq<Call>, call: Call)
    ensures var r := Answer(Run(GENESIS, calls), call); var objection := Objection(Kept(calls), call);
            (r.Ok? <==> objection.None?) && (r.Err? ==> objection == Some(r.error))
  {
    RunTold(calls);
    ObjectionsMatch(Kept(calls), Run(GENESIS, calls), call);
  }
}
