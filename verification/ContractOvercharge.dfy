/** A run on which a worker's reported slashes pass its stake. */
module ContractOvercharge {
  import opened Base
  import opened Merkle
  import opened ContractSpec
  import opened ContractLifecycle
  import opened ContractMoney

  const TEN_UPHELD: Spec := Spec(2, 1, 1, 1, 0, 1000)
  const DISPUTE: Dispute := Dispute(0, 0, 1)
  const ROOT: Digest := LeafHash(Raw(1))

  const OPEN: Call := On(0, Open(9, DISPUTE, Raw(1), [], CHALLENGE_BOND))
  const SEVEN: Call := On(0, Vote(7, DISPUTE, true))
  const EIGHT: Call := On(0, Vote(8, DISPUTE, true))
  const ROUND: seq<Call> := [OPEN, SEVEN, EIGHT]
  const RECRUIT: seq<Call> := [CreateJob(TEN_UPHELD), On(0, Join(1, 1000)), On(0, Close(1))]
  const TRAIN: seq<Call> := [On(0, Commit(1, 0, ROOT)), SetMember(7, true), SetMember(8, true)]
  const LATE: seq<Call> := [Advance(101), On(0, Reassign(MOCK_GOVERNANCE, 1))]

  function Trained(challenges: map<Dispute, Challenge>, slashed: map<Addr, nat>): Job {
    Job(TEN_UPHELD, Training, 1, Some(1), [1], {1}, map[0 := ROOT], 0, 0, {}, challenges, slashed)
  }

  function With(challenges: map<Dispute, Challenge>, slashed: map<Addr, nat>, rewards: map<Addr, nat>): Chain {
    Chain(map[0 := Trained(challenges, slashed)], 1, 0, {7, 8}, rewards)
  }

  /** The chain after `k` challenges against worker 1 were upheld. */
  function Upheld(k: nat): Chain {
    if k == 0 then With(map[], map[], map[])
    else With(map[DISPUTE := Challenge(9, 0, ResolvedUphold, 2, 0, {7, 8})], map[1 := 100 * k], map[9 := k * (CHALLENGE_BOND + 50)])
  }

  function Rounds(k: nat): seq<Call> {
    if k == 0 then [] else Rounds(k - 1) + ROUND
  }

  lemma {:induction false} RunConcat(c: Chain, xs: seq<Call>, ys: seq<Call>)
    ensures Run(c, xs + ys) == Run(Run(c, xs), ys)
    decreases |xs|
  {
    if xs == [] {
      assert xs + ys == ys;
    } else {
      assert (xs + ys)[1..] == xs[1..] + ys;
      RunConcat(Step(c, xs[0]), xs[1..], ys);
    }
  }

  lemma RunTwo(c: Chain, a: Call, b: Call)
    ensures Run(c, [a, b]) == Step(Step(c, a), b)
  {
    RunFirst(c, a, [b]);
    RunFirst(Step(c, a), b, []);
    assert [a, b] == [a] + [b] && [b] == [b] + [];
  }

  lemma RunThree(c: Chain, a: Call, b: Call, d: Call)
    ensures Run(c, [a, b, d]) == Step(Step(Step(c, a), b), d)
  {
    RunFirst(c, a, [b, d]);
    RunTwo(Step(c, a), b, d);
    assert [a, b, d] == [a] + [b, d];
  }

  lemma Opened(challenges: map<Dispute, Challenge>, slashed: map<Addr, nat>, rewards: map<Addr, nat>)
    requires DISPUTE in challenges ==> !challenges[DISPUTE].verdict.Voting?
    ensures Step(With(challenges, slashed, rewards), OPEN)
            == With(challenges[DISPUTE := Challenge(9, CHALLENGE_BOND, Voting, 0, 0, {})], slashed, rewards)
  {
    assert Climb(LeafHash(Raw(1)), []) == ROOT;
  }

  lemma OneVote(challenges: map<Dispute, Challenge>, slashed: map<Addr, nat>, rewards: map<Addr, nat>)
    requires DISPUTE in challenges && challenges[DISPUTE] == Challenge(9, CHALLENGE_BOND, Voting, 0, 0, {})
    ensures Step(With(challenges, slashed, rewards), SEVEN)
            == With(challenges[DISPUTE := Challenge(9, CHALLENGE_BOND, Voting, 1, 0, {7})], slashed, rewards)
  {
    assert {} + {7} == {7};
  }

  lemma TwoVotes(challenges: map<Dispute, Challenge>, slashed: map<Addr, nat>, rewards: map<Addr, nat>)
    requires DISPUTE in challenges && challenges[DISPUTE] == Challenge(9, CHALLENGE_BOND, Voting, 1, 0, {7})
    requires Lookup(slashed, 1) <= 900
    ensures Step(With(challenges, slashed, rewards), EIGHT)
            == With(challenges[DISPUTE := Challenge(9, 0, ResolvedUphold, 2, 0, {7, 8})], slashed[1 := Lookup(slashed, 1) + 100],
                    rewards[9 := Lookup(rewards, 9) + CHALLENGE_BOND + 50])
  {
    var job := Trained(challenges, slashed);
    assert SlashDue(job, 1) == 100;
    assert {7} + {8} == {7, 8};
    assert Decided(Counted(challenges[DISPUTE], 8, true)) == Challenge(9, 0, ResolvedUphold, 2, 0, {7, 8});
  }

  lemma RoundOf(challenges: map<Dispute, Challenge>, slashed: map<Addr, nat>, rewards: map<Addr, nat>)
    requires DISPUTE in challenges ==> !challenges[DISPUTE].verdict.Voting?
    requires Lookup(slashed, 1) <= 900
    ensures Run(With(challenges, slashed, rewards), ROUND)
            == With(challenges[DISPUTE := Challenge(9, 0, ResolvedUphold, 2, 0, {7, 8})], slashed[1 := Lookup(slashed, 1) + 100],
                    rewards[9 := Lookup(rewards, 9) + CHALLENGE_BOND + 50])
  {
    var open := challenges[DISPUTE := Challenge(9, CHALLENGE_BOND, Voting, 0, 0, {})];
    var half := open[DISPUTE := Challenge(9, CHALLENGE_BOND, Voting, 1, 0, {7})];
    RunThree(With(challenges, slashed, rewards), OPEN, SEVEN, EIGHT);
    Opened(challenges, slashed, rewards);
    OneVote(open, slashed, rewards);
    TwoVotes(half, slashed, rewards);
    assert half[DISPUTE := Challenge(9, 0, ResolvedUphold, 2, 0, {7, 8})]
        == challenges[DISPUTE := Challenge(9, 0, ResolvedUphold, 2, 0, {7, 8})];
  }

  lemma OneRound(k: nat)
    requires k < 10
    ensures Run(Upheld(k), ROUND) == Upheld(k + 1)
  {
    var challenges, slashed, rewards := Upheld(k).jobs[0].challenges, Upheld(k).jobs[0].challengeSlashed, Upheld(k).rewards;
    RoundOf(challenges, slashed, rewards);
    SumsUp(k, challenges, slashed, rewards);
  }

  lemma SumsUp(k: nat, challenges: map<Dispute, Challenge>, slashed: map<Addr, nat>, rewards: map<Addr, nat>)
    requires With(challenges, slashed, rewards) == Upheld(k)
    ensures With(challenges[DISPUTE := Challenge(9, 0, ResolvedUphold, 2, 0, {7, 8})], slashed[1 := Lookup(slashed, 1) + 100],
                 rewards[9 := Lookup(rewards, 9) + CHALLENGE_BOND + 50]) == Upheld(k + 1)
  {
    var upheld := Challenge(9, 0, ResolvedUphold, 2, 0, {7, 8});
    assert With(challenges, slashed, rewards).jobs[0] == Trained(challenges, slashed);
    assert challenges[DISPUTE := upheld] == map[DISPUTE := upheld];
    assert slashed[1 := Lookup(slashed, 1) + 100] == map[1 := 100 * (k + 1)];
    assert rewards[9 := Lookup(rewards, 9) + CHALLENGE_BOND + 50] == map[9 := (k + 1) * (CHALLENGE_BOND + 50)];
  }

  lemma {:induction false} ManyRounds(k: nat)
    requires k <= 10
    ensures Run(Upheld(0), Rounds(k)) == Upheld(k)
  {
    if k > 0 {
      ManyRounds(k - 1);
      RunConcat(Upheld(0), Rounds(k - 1), ROUND);
      OneRound(k - 1);
    }
  }

  lemma Recruits()
    ensures Run(GENESIS, RECRUIT)
            == Chain(map[0 := Job(TEN_UPHELD, Training, 0, Some(1), [1], {1}, map[], 0, 0, {}, map[], map[])], 1, 0, {}, map[])
  {
    RunThree(GENESIS, RECRUIT[0], RECRUIT[1], RECRUIT[2]);
    var c1 := Step(GENESIS, RECRUIT[0]);
    assert c1.jobs == map[0 := NewJob(TEN_UPHELD)];
    var c2 := Step(c1, RECRUIT[1]);
    assert c2.jobs[0] == NewJob(TEN_UPHELD).(workers := [1], joined := {1});
  }

  lemma Trains()
    ensures Run(Run(GENESIS, RECRUIT), TRAIN) == Upheld(0)
  {
    Recruits();
    var c := Run(GENESIS, RECRUIT);
    RunThree(c, TRAIN[0], TRAIN[1], TRAIN[2]);
    assert Step(c, TRAIN[0]).jobs == map[0 := Trained(map[], map[])];
    assert {} + {7} + {8} == {7, 8};
  }

  lemma SlashedLate(c: Chain)
    requires c == With(map[DISPUTE := Challenge(9, 0, ResolvedUphold, 2, 0, {7, 8})], map[1 := 1000], c.rewards)
    ensures var c' := Run(c, LATE); 0 in c'.jobs && SlashOf(c', 0, 1) == 1001 && c'.jobs[0].spec.perWorkerStake == 1000
  {
    RunTwo(c, LATE[0], LATE[1]);
    assert Step(Step(c, LATE[0]), LATE[1]).jobs[0].livenessSlashed == {1};
  }

  /** The condition is needed: ten upheld challenges take all of worker 1's stake of 1000, and the
      liveness slash that follows brings its reported total to 1001. */
  lemma TotalCanPassTheStake()
    ensures var c := Run(GENESIS, RECRUIT + TRAIN + Rounds(10) + LATE);
            0 in c.jobs && SlashOf(c, 0, 1) == 1001 && c.jobs[0].spec.perWorkerStake == 1000
  {
    RunConcat(GENESIS, RECRUIT + TRAIN + Rounds(10), LATE);
    RunConcat(GENESIS, RECRUIT + TRAIN, Rounds(10));
    RunConcat(GENESIS, RECRUIT, TRAIN);
    Trains();
    ManyRounds(10);
    SlashedLate(Upheld(10));
  }
}
