/** Bonds, rewards and slashes over every run: nothing is created or lost, every challenge is decided
    once, and what a worker is charged against its stake. */
module ContractMoney {
  import opened Base
  import opened Merkle
  import opened Sums
  import opened ContractSpec
  import opened ContractLifecycle

  // ---- what is held ---------------------------------------------------------------------

  ghost function Bonds(job: Job): map<Dispute, nat> {
    map d | d in job.challenges :: job.challenges[d].bond
  }

  ghost function BondsOf(job: Job): nat {
    Sum(Bonds(job))
  }

  ghost function HeldByJob(c: Chain): map<JobId, nat> {
    map id | id in c.jobs :: BondsOf(c.jobs[id])
  }

  ghost function BondsHeld(c: Chain): nat {
    Sum(HeldByJob(c))
  }

  // ---- one challenge slot -----------------------------------------------------------------

  function JobSlot(job: Job, d: Dispute): Option<Challenge> {
    if d in job.challenges then Some(job.challenges[d]) else None
  }

  function Slot(c: Chain, id: JobId, d: Dispute): Option<Challenge> {
    if id in c.jobs then JobSlot(c.jobs[id], d) else None
  }

  predicate IsOpen(slot: Option<Challenge>) {
    slot.Some? && slot.value.verdict.Voting?
  }

  /** Is this an accepted call about this challenge? */
  predicate Concerns(c: Chain, call: Call, id: JobId, d: Dispute) {
    && call.On? && call.id == id && Answer(c, call).Ok?
    && ((call.call.Open? && call.call.dispute == d) || (call.call.Vote? && call.call.dispute == d))
  }

  lemma JobSlotUntouched(job: Job, block: nat, call: JobCall, d: Dispute)
    requires JobAnswer(job, block, call).Ok?
    requires !(call.Open? && call.dispute == d) && !(call.Vote? && call.dispute == d)
    ensures JobSlot(JobAnswer(job, block, call).value, d) == JobSlot(job, d)
  {
  }

  /** A challenge changes only by accepted calls about it. */
  lemma SlotUntouched(c: Chain, call: Call, id: JobId, d: Dispute)
    requires Inv(c) && !Concerns(c, call, id, d)
    ensures Slot(Step(c, call), id, d) == Slot(c, id, d)
  {
    if call.On? && call.id == id && Answer(c, call).Ok? {
      JobSlotUntouched(c.jobs[id], c.block, call.call, d);
    }
  }

  lemma SlotTouched(c: Chain, call: Call, id: JobId, d: Dispute)
    requires Inv(c) && Concerns(c, call, id, d)
    ensures call.call.Open? ==>
              Slot(Step(c, call), id, d) == Some(Challenge(call.call.caller, CHALLENGE_BOND, Voting, 0, 0, {}))
              && !IsOpen(Slot(c, id, d))
    ensures call.call.Vote? ==>
              && IsOpen(Slot(c, id, d)) && Fair(Slot(c, id, d).value) && call.call.voter !in Slot(c, id, d).value.voted
              && call.call.voter in c.committee
              && Slot(Step(c, call), id, d) == Some(Decided(Counted(Slot(c, id, d).value, call.call.voter, call.call.uphold)))
  {
  }

  // ---- what has happened ----------------------------------------------------------------

  /** Money moved so far: bonds paid in with accepted challenges, bonds kept on rejection, and half of
      each slash, rounded down, as it was made. */
  datatype Ledger = Ledger(paidIn: nat, forfeited: nat, halves: nat)

  predicate Opens(c: Chain, call: Call, id: JobId, d: Dispute) {
    call.On? && call.id == id && call.call.Open? && call.call.dispute == d && Answer(c, call).Ok?
  }

  /** Does this call decide the challenge, and how? */
  predicate Decides(c: Chain, call: Call, id: JobId, d: Dispute, verdict: Verdict) {
    && !verdict.Voting? && IsOpen(Slot(c, id, d))
    && var slot := Slot(Step(c, call), id, d); slot.Some? && slot.value.verdict == verdict
  }

  /** What a worker is charged in a job so far. */
  function SlashOf(c: Chain, id: JobId, worker: Addr): nat {
    if id in c.jobs then TotalSlashed(c.jobs[id], worker) else 0
  }

  function Booked(c: Chain, call: Call, l: Ledger): Ledger {
    if !call.On? then l
    else
      var id, jc := call.id, call.call;
      if jc.Open? && Opens(c, call, id, jc.dispute) then l.(paidIn := l.paidIn + jc.bond)
      else if jc.Vote? && Decides(c, call, id, jc.dispute, ResolvedReject) then
        l.(forfeited := l.forfeited + Slot(c, id, jc.dispute).value.bond)
      else if jc.Vote? && Decides(c, call, id, jc.dispute, ResolvedUphold) then
        l.(halves := l.halves + Max(0, SlashOf(Step(c, call), id, jc.dispute.target) - SlashOf(c, id, jc.dispute.target)) / 2)
      else l
  }

  function Books(c: Chain, calls: seq<Call>, l: Ledger): Ledger
    decreases |calls|
  {
    if calls == [] then l else Books(Step(c, calls[0]), calls[1..], Booked(c, calls[0], l))
  }

  ghost predicate Balanced(c: Chain, l: Ledger) {
    Sum(c.rewards) + BondsHeld(c) + l.forfeited == l.paidIn + l.halves
  }

  // ---- conservation ---------------------------------------------------------------------

  lemma BondsWith(job: Job, d: Dispute, ch: Challenge)
    ensures var job' := job.(challenges := job.challenges[d := ch]);
            BondsOf(job') == BondsOf(job) - (if d in job.challenges then job.challenges[d].bond else 0) + ch.bond
  {
    var job' := job.(challenges := job.challenges[d := ch]);
    assert Bonds(job') == Bonds(job)[d := ch.bond];
    SumUpdate(Bonds(job), d, ch.bond);
  }

  lemma SameChallengesSameBonds(a: Job, b: Job)
    requires a.challenges == b.challenges
    ensures BondsOf(a) == BondsOf(b)
  {
    assert Bonds(a) == Bonds(b);
  }

  lemma HeldWith(c: Chain, id: JobId, job: Job, rewards: map<Addr, nat>)
    requires id in c.jobs
    ensures BondsHeld(c.(jobs := c.jobs[id := job], rewards := rewards)) == BondsHeld(c) - BondsOf(c.jobs[id]) + BondsOf(job)
  {
    var c' := c.(jobs := c.jobs[id := job], rewards := rewards);
    assert HeldByJob(c') == HeldByJob(c)[id := BondsOf(job)];
    SumUpdate(HeldByJob(c), id, BondsOf(job));
  }

  /** An accepted challenge adds its bond: the slot it takes was free, or decided and so empty. */
  lemma OpenHolds(job: Job, block: nat, call: JobCall)
    requires Disputes(job) && call.Open? && JobAnswer(job, block, call).Ok?
    ensures BondsOf(JobAnswer(job, block, call).value) == BondsOf(job) + call.bond
  {
    BondsWith(job, call.dispute, Challenge(call.caller, call.bond, Voting, 0, 0, {}));
  }

  lemma VoteReleases(job: Job, d: Dispute, voter: Addr, uphold: bool)
    requires d in job.challenges
    ensures var ch := Decided(Counted(job.challenges[d], voter, uphold));
            BondsOf(Voted(job, d, voter, uphold)) == BondsOf(job) - job.challenges[d].bond + ch.bond
  {
    var ch := Decided(Counted(job.challenges[d], voter, uphold));
    BondsWith(job, d, ch);
    SameChallengesSameBonds(job.(challenges := job.challenges[d := ch]), Voted(job, d, voter, uphold));
  }

  lemma OpenBalances(c: Chain, call: Call, l: Ledger)
    requires Inv(c) && Balanced(c, l) && call.On? && call.call.Open? && Answer(c, call).Ok?
    ensures Balanced(Step(c, call), Booked(c, call, l))
  {
    var job := c.jobs[call.id];
    var job' := JobAnswer(job, c.block, call.call).value;
    OpenHolds(job, c.block, call.call);
    HeldWith(c, call.id, job', c.rewards);
    assert Step(c, call) == c.(jobs := c.jobs[call.id := job'], rewards := c.rewards);
  }

  lemma VoteSlash(job: Job, d: Dispute, voter: Addr, uphold: bool)
    requires d in job.challenges
    ensures TotalSlashed(Voted(job, d, voter, uphold), d.target) - TotalSlashed(job, d.target)
            == if Decided(Counted(job.challenges[d], voter, uphold)).verdict.ResolvedUphold? then SlashDue(job, d.target) else 0
  {
  }

  lemma VoteStep(c: Chain, call: Call)
    requires call.On? && call.call.Vote? && Answer(c, call).Ok?
    ensures var job, v := c.jobs[call.id], call.call;
            Step(c, call) == c.(jobs := c.jobs[call.id := Voted(job, v.dispute, v.voter, v.uphold)], rewards := Paid(c, job, v))
  {
  }

  /** What a vote that leaves the challenge as `ch` books. */
  function VoteBooked(l: Ledger, job: Job, d: Dispute, ch: Challenge): Ledger
    requires d in job.challenges
  {
    match ch.verdict
    case Voting => l
    case ResolvedUphold => l.(halves := l.halves + SlashDue(job, d.target) / 2)
    case ResolvedReject => l.(forfeited := l.forfeited + job.challenges[d].bond)
  }

  lemma VoteBooks(c: Chain, call: Call, l: Ledger)
    requires Inv(c) && call.On? && call.call.Vote? && Answer(c, call).Ok?
    ensures var job, d := c.jobs[call.id], call.call.dispute;
            Booked(c, call, l)
            == VoteBooked(l, job, d, Decided(Counted(job.challenges[d], call.call.voter, call.call.uphold)))
  {
    var job, v := c.jobs[call.id], call.call;
    SlotTouched(c, call, call.id, v.dispute);
    VoteSlash(job, v.dispute, v.voter, v.uphold);
    VoteStep(c, call);
  }

  /** A vote moves no money it does not book. */
  lemma VoteConserves(l: Ledger, job: Job, d: Dispute, voter: Addr, uphold: bool)
    requires d in job.challenges && job.challenges[d].verdict.Voting?
    ensures var ch := Decided(Counted(job.challenges[d], voter, uphold)); var l' := VoteBooked(l, job, d, ch);
            && Reward(job, d, voter, uphold) - job.challenges[d].bond + ch.bond + l'.forfeited - l.forfeited == l'.halves - l.halves
            && l'.paidIn == l.paidIn
  {
  }

  lemma VotePays(c: Chain, job: Job, v: JobCall)
    requires v.Vote? && v.dispute in job.challenges
    ensures Sum(Paid(c, job, v)) == Sum(c.rewards) + Reward(job, v.dispute, v.voter, v.uphold)
  {
    var challenger := job.challenges[v.dispute].challenger;
    SumUpdate(c.rewards, challenger, Lookup(c.rewards, challenger) + Reward(job, v.dispute, v.voter, v.uphold));
  }

  lemma VoteHolds(c: Chain, call: Call, c': Chain)
    requires call.On? && call.call.Vote? && Answer(c, call).Ok? && c' == Step(c, call)
    ensures var v := call.call; var ch := c.jobs[call.id].challenges[v.dispute];
            BondsHeld(c') == BondsHeld(c) - ch.bond + Decided(Counted(ch, v.voter, v.uphold)).bond
  {
    var job, v := c.jobs[call.id], call.call;
    VoteReleases(job, v.dispute, v.voter, v.uphold);
    HeldWith(c, call.id, Voted(job, v.dispute, v.voter, v.uphold), Paid(c, job, v));
    VoteStep(c, call);
  }

  lemma VoteBalances(c: Chain, call: Call, l: Ledger)
    requires Inv(c) && Balanced(c, l) && call.On? && call.call.Vote? && Answer(c, call).Ok?
    ensures Balanced(Step(c, call), Booked(c, call, l))
  {
    var job, v := c.jobs[call.id], call.call;
    VoteHolds(c, call, Step(c, call));
    VotePays(c, job, v);
    VoteBooks(c, call, l);
    VoteConserves(l, job, v.dispute, v.voter, v.uphold);
    VoteStep(c, call);
  }

  lemma QuietJobHolds(job: Job, block: nat, call: JobCall)
    requires !call.Open? && !call.Vote? && JobAnswer(job, block, call).Ok?
    ensures BondsOf(JobAnswer(job, block, call).value) == BondsOf(job)
  {
    SameChallengesSameBonds(job, JobAnswer(job, block, call).value);
  }

  lemma NewJobHasNoBonds(spec: Spec)
    ensures BondsOf(NewJob(spec)) == 0
  {
    assert Bonds(NewJob(spec)) == map[];
  }

  lemma NewJobHoldsNothing(c: Chain, spec: Spec)
    requires c.nextJobId !in c.jobs
    ensures BondsHeld(Step(c, CreateJob(spec))) == BondsHeld(c)
  {
    var c' := c.(jobs := c.jobs[c.nextJobId := NewJob(spec)], nextJobId := c.nextJobId + 1);
    NewJobHasNoBonds(spec);
    assert HeldByJob(c') == HeldByJob(c)[c.nextJobId := 0];
    SumUpdate(HeldByJob(c), c.nextJobId, 0);
  }

  predicate Quiet(c: Chain, call: Call) {
    !(call.On? && (call.call.Open? || call.call.Vote?) && Answer(c, call).Ok?)
  }

  lemma QuietHolds(c: Chain, call: Call)
    requires Inv(c) && Quiet(c, call)
    ensures BondsHeld(Step(c, call)) == BondsHeld(c) && Step(c, call).rewards == c.rewards
  {
    if call.On? && Answer(c, call).Ok? {
      QuietJobHolds(c.jobs[call.id], c.block, call.call);
      HeldWith(c, call.id, JobAnswer(c.jobs[call.id], c.block, call.call).value, c.rewards);
    } else if call.CreateJob? {
      NewJobHoldsNothing(c, call.spec);
    } else {
      assert HeldByJob(Step(c, call)) == HeldByJob(c);
    }
  }

  lemma QuietBooks(c: Chain, call: Call, l: Ledger)
    requires Quiet(c, call)
    ensures Booked(c, call, l) == l
  {
  }

  lemma {:induction false} RunBalances(c: Chain, calls: seq<Call>, l: Ledger)
    requires Inv(c) && Balanced(c, l)
    ensures Balanced(Run(c, calls), Books(c, calls, l))
    decreases |calls|
  {
    if calls != [] {
      var call := calls[0];
      if call.On? && call.call.Open? && Answer(c, call).Ok? {
        OpenBalances(c, call, l);
      } else if call.On? && call.call.Vote? && Answer(c, call).Ok? {
        VoteBalances(c, call, l);
      } else {
        QuietHolds(c, call);
        QuietBooks(c, call, l);
      }
      StepKeeps(c, call);
      RunBalances(Step(c, call), calls[1..], Booked(c, call, l));
    }
  }

  /** On every run from an empty chain: rewards paid, bonds still held and bonds forfeited add up to the
      bonds paid in and the halves of the slashes. */
  lemma MoneyIsConserved(calls: seq<Call>)
    ensures var c := Run(GENESIS, calls); var l := Books(GENESIS, calls, Ledger(0, 0, 0));
            Sum(c.rewards) + BondsHeld(c) + l.forfeited == l.paidIn + l.halves
  {
    assert HeldByJob(GENESIS) == map[];
    assert Balanced(GENESIS, Ledger(0, 0, 0));
    RunBalances(GENESIS, calls, Ledger(0, 0, 0));
  }

  // ---- decided exactly once ----------------------------------------------------------------

  /** How often the run opens a challenge in this slot. */
  function Openings(c: Chain, calls: seq<Call>, id: JobId, d: Dispute): nat
    decreases |calls|
  {
    if calls == [] then 0
    else (if Opens(c, calls[0], id, d) then 1 else 0) + Openings(Step(c, calls[0]), calls[1..], id, d)
  }

  /** How often the run decides a challenge in this slot. */
  function Decisions(c: Chain, calls: seq<Call>, id: JobId, d: Dispute): nat
    decreases |calls|
  {
    if calls == [] then 0
    else
      (if Decides(c, calls[0], id, d, ResolvedUphold) || Decides(c, calls[0], id, d, ResolvedReject) then 1 else 0)
      + Decisions(Step(c, calls[0]), calls[1..], id, d)
  }

  lemma OneMore(c: Chain, call: Call, id: JobId, d: Dispute)
    requires Inv(c)
    ensures (if IsOpen(Slot(c, id, d)) then 1 else 0) + (if Opens(c, call, id, d) then 1 else 0)
            == (if IsOpen(Slot(Step(c, call), id, d)) then 1 else 0)
               + (if Decides(c, call, id, d, ResolvedUphold) || Decides(c, call, id, d, ResolvedReject) then 1 else 0)
  {
    if Concerns(c, call, id, d) {
      SlotTouched(c, call, id, d);
    } else {
      SlotUntouched(c, call, id, d);
    }
  }

  /** Every challenge opened is decided once, or is the one still open. */
  lemma {:induction false} DecidedExactlyOnce(c: Chain, calls: seq<Call>, id: JobId, d: Dispute)
    requires Inv(c)
    ensures (if IsOpen(Slot(c, id, d)) then 1 else 0) + Openings(c, calls, id, d)
            == Decisions(c, calls, id, d) + (if IsOpen(Slot(Run(c, calls), id, d)) then 1 else 0)
    decreases |calls|
  {
    if calls != [] {
      OneMore(c, calls[0], id, d);
      StepKeeps(c, calls[0]);
      DecidedExactlyOnce(Step(c, calls[0]), calls[1..], id, d);
    }
  }

  /** A decided challenge never changes again until a new one takes its slot. */
  lemma DecidedStays(c: Chain, call: Call, id: JobId, d: Dispute)
    requires Inv(c) && Slot(c, id, d).Some? && !IsOpen(Slot(c, id, d)) && !Opens(c, call, id, d)
    ensures Slot(Step(c, call), id, d) == Slot(c, id, d)
  {
    if Concerns(c, call, id, d) {
      SlotTouched(c, call, id, d);
    } else {
      SlotUntouched(c, call, id, d);
    }
  }

  /** An open challenge has at most two votes, and is decided by the vote that makes two of a kind, by
      no other call: so the third vote, whichever way it goes, always decides. */
  lemma SecondOfAKindDecides(c: Chain, call: Call, id: JobId, d: Dispute)
    requires Inv(c) && IsOpen(Slot(c, id, d))
    ensures var ch := Slot(c, id, d).value;
            && |ch.voted| <= 2
            && (Decides(c, call, id, d, ResolvedUphold) <==>
                  Concerns(c, call, id, d) && call.call.uphold && ch.upholdVotes == 1)
            && (Decides(c, call, id, d, ResolvedReject) <==>
                  Concerns(c, call, id, d) && !call.call.uphold && ch.rejectVotes == 1)
            && (|ch.voted| == 2 ==> ch.upholdVotes == 1 && ch.rejectVotes == 1)
  {
    assert Fair(Slot(c, id, d).value);
    if Concerns(c, call, id, d) {
      SlotTouched(c, call, id, d);
    } else {
      SlotUntouched(c, call, id, d);
    }
  }

  lemma VoteSpares(job: Job, d: Dispute, voter: Addr, uphold: bool, worker: Addr)
    requires d in job.challenges && worker != d.target
    ensures TotalSlashed(Voted(job, d, voter, uphold), worker) == TotalSlashed(job, worker)
  {
  }

  /** The one accepted vote that decides. */
  lemma DecidingVote(c: Chain, call: Call, id: JobId, d: Dispute, verdict: Verdict)
    requires Inv(c) && Decides(c, call, id, d, verdict)
    ensures Concerns(c, call, id, d) && call.call.Vote? && c.jobs[id].challenges[d].bond == CHALLENGE_BOND
    ensures Decided(Counted(c.jobs[id].challenges[d], call.call.voter, call.call.uphold)).verdict == verdict
  {
    if Concerns(c, call, id, d) {
      SlotTouched(c, call, id, d);
    } else {
      SlotUntouched(c, call, id, d);
    }
  }

  lemma UpheldRewards(c: Chain, job: Job, v: JobCall)
    requires v.Vote? && v.dispute in job.challenges && job.challenges[v.dispute].bond == CHALLENGE_BOND
    requires Decided(Counted(job.challenges[v.dispute], v.voter, v.uphold)).verdict.ResolvedUphold?
    ensures var to := job.challenges[v.dispute].challenger; var slash := SlashDue(job, v.dispute.target);
            && Paid(c, job, v) == c.rewards[to := Lookup(c.rewards, to) + CHALLENGE_BOND + slash / 2]
            && 0 <= slash <= job.spec.perWorkerStake * SLASH_BPS / BPS
  {
  }

  /** Upholding pays the challenger, and nobody else, the full bond and half of what the target is
      newly charged, at most a tenth of the stake; nobody else is charged. */
  lemma UpholdingPays(c: Chain, call: Call, id: JobId, d: Dispute, worker: Addr, c': Chain)
    requires Inv(c) && Decides(c, call, id, d, ResolvedUphold) && c' == Step(c, call)
    ensures var to := c.jobs[id].challenges[d].challenger;
            var slash := SlashOf(c', id, d.target) - SlashOf(c, id, d.target);
            && 0 <= slash <= c.jobs[id].spec.perWorkerStake * SLASH_BPS / BPS
            && c'.rewards == c.rewards[to := Lookup(c.rewards, to) + CHALLENGE_BOND + slash / 2]
    ensures worker != d.target ==> SlashOf(c', id, worker) == SlashOf(c, id, worker)
  {
    var v := DecidedByVote(c, call, id, d, ResolvedUphold, c');
    UpheldVotePays(c, id, d, v, worker, c');
  }

  lemma DecidedByVote(c: Chain, call: Call, id: JobId, d: Dispute, verdict: Verdict, c': Chain) returns (v: JobCall)
    requires Inv(c) && Decides(c, call, id, d, verdict) && c' == Step(c, call)
    ensures id in c.jobs && d in c.jobs[id].challenges && c.jobs[id].challenges[d].bond == CHALLENGE_BOND
    ensures v.Vote? && v.dispute == d && Decided(Counted(c.jobs[id].challenges[d], v.voter, v.uphold)).verdict == verdict
    ensures c' == c.(jobs := c.jobs[id := Voted(c.jobs[id], d, v.voter, v.uphold)], rewards := Paid(c, c.jobs[id], v))
  {
    DecidingVote(c, call, id, d, verdict);
    VoteStep(c, call);
    v := call.call;
  }

  lemma UpheldVotePays(c: Chain, id: JobId, d: Dispute, v: JobCall, worker: Addr, c': Chain)
    requires id in c.jobs && d in c.jobs[id].challenges && c.jobs[id].challenges[d].bond == CHALLENGE_BOND
    requires v.Vote? && v.dispute == d && Decided(Counted(c.jobs[id].challenges[d], v.voter, v.uphold)).verdict == ResolvedUphold
    requires c' == c.(jobs := c.jobs[id := Voted(c.jobs[id], d, v.voter, v.uphold)], rewards := Paid(c, c.jobs[id], v))
    ensures var to := c.jobs[id].challenges[d].challenger;
            var slash := SlashOf(c', id, d.target) - SlashOf(c, id, d.target);
            && 0 <= slash <= c.jobs[id].spec.perWorkerStake * SLASH_BPS / BPS
            && c'.rewards == c.rewards[to := Lookup(c.rewards, to) + CHALLENGE_BOND + slash / 2]
    ensures worker != d.target ==> SlashOf(c', id, worker) == SlashOf(c, id, worker)
  {
    UpheldRewards(c, c.jobs[id], v);
    VoteSlash(c.jobs[id], d, v.voter, v.uphold);
    if worker != d.target {
      VoteSpares(c.jobs[id], d, v.voter, v.uphold, worker);
    }
  }

  /** Rejecting pays and charges nobody. */
  lemma RejectingPaysNobody(c: Chain, call: Call, id: JobId, d: Dispute, worker: Addr, c': Chain)
    requires Inv(c) && Decides(c, call, id, d, ResolvedReject) && c' == Step(c, call)
    ensures c'.rewards == c.rewards && SlashOf(c', id, worker) == SlashOf(c, id, worker)
  {
    var v := DecidedByVote(c, call, id, d, ResolvedReject, c');
    if worker == d.target {
      VoteSlash(c.jobs[id], d, v.voter, v.uphold);
    } else {
      VoteSpares(c.jobs[id], d, v.voter, v.uphold, worker);
    }
  }

  // ---- what a worker is charged against its stake -------------------------------------------

  predicate WithinStake(c: Chain, id: JobId, worker: Addr) {
    id in c.jobs ==> SlashOf(c, id, worker) <= c.jobs[id].spec.perWorkerStake
  }

  /** Governance replaces `worker` as coordinator for the first time, when upheld challenges have
      already taken so much of its stake that the liveness portion is no longer there. */
  predicate TooLate(job: Job, call: JobCall, worker: Addr) {
    && call.Reassign? && call.caller == MOCK_GOVERNANCE
    && job.coordinator == Some(worker) && worker !in job.livenessSlashed
    && var stake := job.spec.perWorkerStake;
       Lookup(job.challengeSlashed, worker) > stake - stake * LIVENESS_SLASH_BPS / BPS
  }

  predicate SlashedTooLate(c: Chain, call: Call, id: JobId, worker: Addr) {
    call.On? && call.id == id && Answer(c, call).Ok? && TooLate(c.jobs[id], call.call, worker)
  }

  lemma JobWithinStake(job: Job, block: nat, call: JobCall, worker: Addr)
    requires TotalSlashed(job, worker) <= job.spec.perWorkerStake && JobAnswer(job, block, call).Ok?
    ensures TotalSlashed(JobAnswer(job, block, call).value, worker) <= job.spec.perWorkerStake <==> !TooLate(job, call, worker)
  {
  }

  lemma JobAfterStep(c: Chain, call: Call, id: JobId)
    requires id in c.jobs && id < c.nextJobId
    ensures id in Step(c, call).jobs
    ensures Step(c, call).jobs[id] == if call.On? && call.id == id && Answer(c, call).Ok?
                                      then JobAnswer(c.jobs[id], c.block, call.call).value else c.jobs[id]
    ensures call.On? && call.id == id && Answer(c, call).Ok? ==> JobAnswer(c.jobs[id], c.block, call.call).Ok?
    ensures Step(c, call).jobs[id].spec == c.jobs[id].spec
  {
  }

  /** The reported total of a worker within its stake stays within it through a call, unless the call
      is a liveness slash that comes too late: then, and only then, the total passes the stake. */
  lemma TotalWithinStakeUnlessSlashedTooLate(c: Chain, call: Call, id: JobId, worker: Addr)
    requires Inv(c) && id in c.jobs && WithinStake(c, id, worker)
    ensures WithinStake(Step(c, call), id, worker) <==> !SlashedTooLate(c, call, id, worker)
  {
    JobAfterStep(c, call, id);
    if call.On? && call.id == id && Answer(c, call).Ok? {
      JobWithinStake(c.jobs[id], c.block, call.call, worker);
    }
  }

  /** No call of the run is a liveness slash that comes too late. */
  predicate NeverSlashedTooLate(c: Chain, calls: seq<Call>, id: JobId, worker: Addr)
    decreases |calls|
  {
    calls == [] || (!SlashedTooLate(c, calls[0], id, worker) && NeverSlashedTooLate(Step(c, calls[0]), calls[1..], id, worker))
  }

  lemma {:induction false} RunWithinStake(c: Chain, calls: seq<Call>, id: JobId, worker: Addr)
    requires Inv(c) && WithinStake(c, id, worker) && NeverSlashedTooLate(c, calls, id, worker)
    ensures WithinStake(Run(c, calls), id, worker)
    decreases |calls|
  {
    if calls != [] {
      if id in c.jobs {
        TotalWithinStakeUnlessSlashedTooLate(c, calls[0], id, worker);
      }
      StepKeeps(c, calls[0]);
      RunWithinStake(Step(c, calls[0]), calls[1..], id, worker);
    }
  }
}
