/** What a poll is given, told from what has happened: the worker's and its network's lapses, the leases out, and
    the vouched workers about. */
module PollHistory {
  import opened Base
  import opened LeaseSpec
  import opened LeaseRuns
  import opened LeaseInvariants
  import opened LeaseTheorems
  import opened LeaseLives
  import opened BoundedWaiting
  import opened JobHistory
  import G = GroupHistory

  // ---- may it lease at all --------------------------------------------------------------------------

  function LapsesOfWorker(s: State, w: Addr, now: u64): set<JobId> {
    set i | i in s.jobs && s.jobs[i].status.Leased? && s.jobs[i].status.expiresAt <= now && s.jobs[i].status.worker == w
  }

  /** Until when a worker cools down, what this poll finds out included. */
  function CoolsUntil(s: State, w: Addr, now: u64): u64
    requires w in s.workers
  {
    G.Expected(G.Standing(s.workers[w].noshows, s.workers[w].cooldownUntil), |LapsesOfWorker(s, w, now)|, false, now).cooldownUntil
  }

  /** And its network. */
  function GroupCoolsUntil(s: State, r: Request, g: Group): u64 {
    G.Expected(G.View(s, g), |G.LapsesOf(s, r, g)|, false, r.now).cooldownUntil
  }

  /** Neither it nor, unvouched, its network is cooling down; it holds no live lease, and its network's unvouched
      workers hold fewer than the cap. */
  ghost predicate MayAsk(s: State, r: Request, w: Addr)
    requires w in s.workers
  {
    var g := SourceGroup(s.workers[w].source);
    && CoolsUntil(s, w, r.now) <= r.now
    && (forall k | k in s.jobs && s.jobs[k].status.Leased? && s.jobs[k].status.expiresAt > r.now :: s.jobs[k].status.worker != w)
    && (w in s.policy.trusted ||
        (GroupCoolsUntil(s, r, g) <= r.now
         && |LiveOfGroup(s, g, r.now)| < s.policy.maxLeasesPerSource))
  }

  lemma CoolsAsExpected(s: State, w: Addr, now: u64)
    requires w in s.workers
    ensures ExpireLeases(Touch(s, w, now), now).workers[w].cooldownUntil == CoolsUntil(s, w, now)
  {
    var t := Touch(s, w, now);
    assert LapsedOf(t, t.jobs.Keys, w, now) == LapsesOfWorker(s, w, now);
    var total := SatAdd32(s.workers[w].noshows, |LapsesOfWorker(s, w, now)|);
    if |LapsesOfWorker(s, w, now)| > 0 {
      NoshowBackoffClosedForm(total);
    }
  }

  lemma LeasesLeft(s: State, w: Addr, now: u64, g: Group)
    requires w in s.workers
    ensures var s1 := ExpireLeases(Touch(s, w, now), now);
            && (HeldBy(s1, w) == {} <==>
                  forall k | k in s.jobs && s.jobs[k].status.Leased? && s.jobs[k].status.expiresAt > now :: s.jobs[k].status.worker != w)
            && LeasesOfGroup(s1, g) == LiveOfGroup(s, g, now)
  {
    var s1 := ExpireLeases(Touch(s, w, now), now);
    forall k ensures k in LeasesOfGroup(s1, g) <==> k in LiveOfGroup(s, g, now) {
    }
    forall k | k in s.jobs ensures k in HeldBy(s1, w) <==> Live(s.jobs[k].status, now) && s.jobs[k].status.worker == w {
    }
  }

  lemma MayLeaseAsToldHere(s: State, r: Request, w: Addr)
    requires w in s.workers && r.step == PollStep(w)
    requires w in s.policy.trusted || !G.Lost(s, r, SourceGroup(s.workers[w].source))
    ensures var s1 := ExpireLeases(Touch(s, w, r.now), r.now); w in s1.workers && (MayLease(s1, w, r.now) <==> MayAsk(s, r, w))
  {
    var g := SourceGroup(s.workers[w].source);
    CoolsAsExpected(s, w, r.now);
    LeasesLeft(s, w, r.now, g);
    if w !in s.policy.trusted {
      G.PollCharges(s, r, g);
      AssignLeavesBooks(ExpireLeases(Touch(s, w, r.now), r.now), w, r.now);
    }
  }

  // ---- which jobs are open to it ----------------------------------------------------------------------

  /** A vouched worker about, heard of within the hour, that could take job `i` and has not let it lapse. */
  ghost predicate CouldTake(ss: seq<State>, ms: seq<Move>, q: nat, i: JobId, v: Addr)
    requires q < |ms| && |ss| == |ms| + 1 && i in ss[q].jobs
  {
    var s := ss[q];
    && v in s.workers && v in s.policy.trusted && s.workers[v].lastEngaged.Some?
    && At(ms[q]) - s.workers[v].lastEngaged.value < 3_600
    && Rank(s.workers[v].capability) >= Rank(s.jobs[i].spec.tier) && !LetLapse(ss, ms, q + 1, i, v)
  }

  /** Job `i` is kept for vouched workers: it was found lapsed less than 900 s ago, or, above the lowest tier,
      less than twice its length ago, at least 900 s and at most seven days, and one could take it. */
  ghost predicate KeptForVouched(ss: seq<State>, ms: seq<Move>, q: nat, i: JobId)
    requires q < |ms| && |ss| == |ms| + 1 && i in ss[q].jobs
  {
    var last, spec, now := LastLapse(ss, ms, q + 1, i), ss[q].jobs[i].spec, At(ms[q]);
    last.Some? &&
    (now < SatAdd(last.value, 900)
     || (spec.tier != Probe && now < SatAdd(last.value, Min(Max(2 * spec.leaseSecs, 900), 604_800))
         && exists v | v in ss[q].workers :: CouldTake(ss, ms, q, i, v)))
  }

  /** What a worker may claim to be, vouched or not, is enough for the tier. */
  predicate Able(s: State, w: Addr, tier: Capability)
    requires w in s.workers
  {
    && Rank(s.workers[w].capability) >= Rank(tier)
    && (w in s.policy.trusted || (Rank(s.policy.openTier) >= Rank(tier) && tier != H01))
  }

  /** Of a LoRA round only a member of its roster that holds and has finished none of its jobs may have one. */
  ghost predicate RoundFree(s: State, w: Addr, payload: Payload, now: u64) {
    match payload
    case NotLora => true
    case Malformed => false
    case Round(id, roster) =>
      w in roster &&
      forall k | k in s.jobs && s.jobs[k].spec.payload.Round? && s.jobs[k].spec.payload.id == id ::
        var st := s.jobs[k].status;
        !(st.Leased? && st.expiresAt > now && st.worker == w) && !(st.Done? && st.worker == w)
  }

  ghost predicate OpenTo(ss: seq<State>, ms: seq<Move>, q: nat, w: Addr, i: JobId)
    requires q < |ms| && |ss| == |ms| + 1 && w in ss[q].workers
  {
    var s, now := ss[q], At(ms[q]);
    && i in s.jobs && (s.jobs[i].status.Pending? || (s.jobs[i].status.Leased? && s.jobs[i].status.expiresAt <= now))
    && Able(s, w, s.jobs[i].spec.tier) && RoundFree(s, w, s.jobs[i].spec.payload, now)
    && !LetLapse(ss, ms, q + 1, i, w)
    && (w in s.policy.trusted ||
        (!GroupLetLapse(ss, ms, q + 1, i, SourceGroup(s.workers[w].source)) && !KeptForVouched(ss, ms, q, i)))
  }

  lemma AbleAsGranted(s: State, w: Addr, tier: Capability)
    requires w in s.workers
    ensures Able(s, w, tier) <==> Satisfies(EffectiveCapability(s.policy, w, s.workers[w].capability), tier)
  {
  }

  lemma RoundFreeAsOpen(s: State, w: Addr, payload: Payload, now: u64)
    requires w in s.workers
    ensures var s1 := ExpireLeases(Touch(s, w, now), now); RoundFree(s, w, payload, now) <==> RoundOpen(s1, w, payload)
  {
    var s1 := ExpireLeases(Touch(s, w, now), now);
    forall k | k in s.jobs
      ensures HoldsOrFinished(s1.jobs[k], w) <==>
                (s.jobs[k].status.Leased? && s.jobs[k].status.expiresAt > now && s.jobs[k].status.worker == w)
                || (s.jobs[k].status.Done? && s.jobs[k].status.worker == w)
    {
    }
    if payload.Round? && !RoundFree(s, w, payload, now) && w in payload.roster {
      var k :| k in s.jobs && s.jobs[k].spec.payload.Round? && s.jobs[k].spec.payload.id == payload.id
               && HoldsOrFinished(s1.jobs[k], w);
      assert payload.id in RoundsOf(s1, w);
    }
  }

  /** What a job remembers once this poll has expired leases is what has happened, this poll included. */
  lemma ToldAfterExpiry(ss: seq<State>, ms: seq<Move>, q: nat, w: Addr, i: JobId)
    requires q < |ms| && |ss| == |ms| + 1 && Told(ss, ms, q, i) && i in ss[q].jobs
    requires ms[q].Asked? && ms[q].request.step == PollStep(w) && w in ss[q].workers
    ensures var j := ExpireLeases(Touch(ss[q], w, At(ms[q])), At(ms[q])).jobs[i];
            && (forall v :: v in j.failedBy <==> LetLapse(ss, ms, q + 1, i, v))
            && (forall g :: g in j.failedBySources <==> GroupLetLapse(ss, ms, q + 1, i, g))
            && j.heldUntil == (var last := LastLapse(ss, ms, q + 1, i); if last.None? then 0 else SatAdd(last.value, 900))
            && j.spec == ss[q].jobs[i].spec
            && (j.status == Pending <==>
                  ss[q].jobs[i].status.Pending? || (ss[q].jobs[i].status.Leased? && ss[q].jobs[i].status.expiresAt <= At(ms[q])))
  {
    var r := ms[q].request;
    OneMoreMove(ss, ms, q, i);
    var j, next := ExpireLeases(Touch(ss[q], w, r.now), r.now).jobs[i], q + 1;
    forall v ensures v in j.failedBy <==> LetLapse(ss, ms, next, i, v) {
      assert v in ss[q].jobs[i].failedBy <==> LetLapse(ss, ms, q, i, v);
      assert LapsesBy(ss, ms, q, i, v) <==> FindsLapsed(ss[q], r, i) && ss[q].jobs[i].status.worker == v;
    }
    forall g ensures g in j.failedBySources <==> GroupLetLapse(ss, ms, next, i, g) {
      assert g in ss[q].jobs[i].failedBySources <==> GroupLetLapse(ss, ms, q, i, g);
    }
  }

  ghost predicate EngagedFor(s1: State, j: Job, now: u64) {
    exists v | v in s1.workers :: EngagedVouched(s1, j, v, now)
  }

  lemma EngagedAsToldHere(ss: seq<State>, ms: seq<Move>, q: nat, w: Addr, i: JobId, s1: State)
    requires q < |ms| && |ss| == |ms| + 1 && i in ss[q].jobs && w in ss[q].workers && w !in ss[q].policy.trusted
    requires s1 == ExpireLeases(Touch(ss[q], w, At(ms[q])), At(ms[q]))
    requires forall v :: v in s1.jobs[i].failedBy <==> LetLapse(ss, ms, q + 1, i, v)
    ensures EngagedFor(s1, s1.jobs[i], At(ms[q])) <==> exists v | v in ss[q].workers :: CouldTake(ss, ms, q, i, v)
  {
    forall v | v in s1.workers ensures EngagedVouched(s1, s1.jobs[i], v, At(ms[q])) <==> CouldTake(ss, ms, q, i, v) {
    }
    if v :| v in s1.workers && EngagedVouched(s1, s1.jobs[i], v, At(ms[q])) {
      assert CouldTake(ss, ms, q, i, v);
    }
    if v :| v in ss[q].workers && CouldTake(ss, ms, q, i, v) {
      assert EngagedVouched(s1, s1.jobs[i], v, At(ms[q]));
    }
  }

  lemma ReservedAsKept(ss: seq<State>, ms: seq<Move>, q: nat, w: Addr, i: JobId, s1: State)
    requires q < |ms| && |ss| == |ms| + 1 && i in ss[q].jobs && w in ss[q].workers && w !in ss[q].policy.trusted
    requires s1 == ExpireLeases(Touch(ss[q], w, At(ms[q])), At(ms[q])) && s1.jobs[i].spec == ss[q].jobs[i].spec
    requires forall v :: v in s1.jobs[i].failedBy <==> LetLapse(ss, ms, q + 1, i, v)
    requires s1.jobs[i].heldUntil == (var last := LastLapse(ss, ms, q + 1, i); if last.None? then 0 else SatAdd(last.value, 900))
    ensures ReservedForVouched(s1, s1.jobs[i], At(ms[q])) <==> KeptForVouched(ss, ms, q, i)
  {
    EngagedAsToldHere(ss, ms, q, w, i, s1);
  }

  lemma EligibleAsOpen(ss: seq<State>, ms: seq<Move>, q: nat, w: Addr, i: JobId, s1: State)
    requires q < |ms| && |ss| == |ms| + 1 && Told(ss, ms, q, i)
    requires ms[q].Asked? && ms[q].request.step == PollStep(w) && w in ss[q].workers
    requires s1 == ExpireLeases(Touch(ss[q], w, At(ms[q])), At(ms[q])) && w in s1.workers
    ensures Eligible(s1, w, i, At(ms[q])) <==> OpenTo(ss, ms, q, w, i)
  {
    if i in ss[q].jobs {
      ToldAfterExpiry(ss, ms, q, w, i);
      AbleAsGranted(ss[q], w, ss[q].jobs[i].spec.tier);
      RoundFreeAsOpen(ss[q], w, ss[q].jobs[i].spec.payload, At(ms[q]));
      if w !in ss[q].policy.trusted {
        ReservedAsKept(ss, ms, q, w, i, s1);
      }
    }
  }

  /** Before its rivals: of a higher tier, or of the same and first in order. */
  predicate ComesBefore(s: State, i: JobId, k: JobId)
    requires i in s.jobs && k in s.jobs
  {
    var a, b := Rank(s.jobs[i].spec.tier), Rank(s.jobs[k].spec.tier);
    a > b || (a == b && i < k)
  }

  ghost predicate FirstOpen(ss: seq<State>, ms: seq<Move>, q: nat, w: Addr, i: JobId)
    requires q < |ms| && |ss| == |ms| + 1 && w in ss[q].workers
  {
    OpenTo(ss, ms, q, w, i) && forall k | k != i && OpenTo(ss, ms, q, w, k) :: ComesBefore(ss[q], i, k)
  }

  /** In every life from an empty coordinator, restarts included, a registered worker's poll is given job `i` if
      and only if what has happened lets it lease, the job is open to it, and no other open job comes before it. */
  lemma PollGivesExactly(ss: seq<State>, ms: seq<Move>, t: u64, policy: Policy, q: nat, w: Addr, i: JobId)
    requires IsLife(ss, ms) && Timed(t, ms) && ss[0] == EmptyState(policy) && q < |ms|
    requires ms[q].Asked? && ms[q].request.step == PollStep(w) && w in ss[q].workers
    requires w in ss[q].policy.trusted || !G.Lost(ss[q], ms[q].request, SourceGroup(ss[q].workers[w].source))
    ensures Lease(ss[q], w, At(ms[q])).1 == Ok(i) <==> MayAsk(ss[q], ms[q].request, w) && FirstOpen(ss, ms, q, w, i)
  {
    var s, now := ss[q], At(ms[q]);
    var s1 := ExpireLeases(Touch(s, w, now), now);
    MayLeaseAsToldHere(s, ms[q].request, w);
    forall k ensures Eligible(s1, w, k, now) <==> OpenTo(ss, ms, q, w, k) {
      BooksAreHistory(ss, ms, t, policy, q, k);
      EligibleAsOpen(ss, ms, q, w, k, s1);
    }
    GivesFirst(s, w, now, s1, i);
    forall k | k in s.jobs && i in s.jobs ensures ComesBefore(s, i, k) <==> Better(s1, i, k) {
    }
  }

  lemma GivesFirst(s: State, w: Addr, now: u64, s1: State, i: JobId)
    requires w in s.workers && s1 == ExpireLeases(Touch(s, w, now), now)
    ensures w in s1.workers && s1.jobs.Keys == s.jobs.Keys
    ensures Lease(s, w, now).1 == Ok(i) <==>
              MayLease(s1, w, now) && Eligible(s1, w, i, now)
              && forall k | k != i && Eligible(s1, w, k, now) :: k in s1.jobs && Better(s1, i, k)
  {
    PollGrantsTheBest(s, w, now);
  }

  // ---- why it is given nothing ------------------------------------------------------------------------

  ghost predicate HoldsOne(s: State, w: Addr, now: u64) {
    exists k | k in s.jobs && s.jobs[k].status.Leased? && s.jobs[k].status.expiresAt > now :: s.jobs[k].status.worker == w
  }

  /** What stands in the way of a worker that may not ask: its own cool-down, the lease it holds, its network's
      cool-down, or its network's cap, the first of them. */
  ghost function Hindrance(s: State, r: Request, w: Addr): LeaseError
    requires w in s.workers
  {
    var g := SourceGroup(s.workers[w].source);
    if CoolsUntil(s, w, r.now) > r.now then CoolingDown(CoolsUntil(s, w, r.now))
    else if HoldsOne(s, w, r.now) then AtLeaseCap
    else if w !in s.policy.trusted && GroupCoolsUntil(s, r, g) > r.now then CoolingDown(GroupCoolsUntil(s, r, g))
    else AtLeaseCap
  }

  lemma AssignRefuses(s1: State, w: Addr, now: u64)
    requires w in s1.workers && !MayLease(s1, w, now)
    ensures var g := SourceGroup(s1.workers[w].source); var until := G.ViewIn(s1.sources, g).cooldownUntil;
            Assign(s1, w, now).1 == Err(
              if s1.workers[w].cooldownUntil > now then CoolingDown(s1.workers[w].cooldownUntil)
              else if HeldBy(s1, w) != {} then AtLeaseCap
              else if w !in s1.policy.trusted && until > now then CoolingDown(until)
              else AtLeaseCap)
  {
  }

  lemma HindranceThere(s: State, r: Request, w: Addr, s1: State)
    requires w in s.workers && r.step == PollStep(w) && s1 == ExpireLeases(Touch(s, w, r.now), r.now)
    requires w in s.policy.trusted || !G.Lost(s, r, SourceGroup(s.workers[w].source))
    ensures var g := SourceGroup(s.workers[w].source);
            && w in s1.workers && s1.policy == s.policy && s1.workers[w].source == s.workers[w].source
            && s1.workers[w].cooldownUntil == CoolsUntil(s, w, r.now)
            && (HeldBy(s1, w) != {} <==> HoldsOne(s, w, r.now))
            && (w in s.policy.trusted || G.ViewIn(s1.sources, g).cooldownUntil == GroupCoolsUntil(s, r, g))
  {
    var g := SourceGroup(s.workers[w].source);
    CoolsAsExpected(s, w, r.now);
    LeasesLeft(s, w, r.now, g);
    if w !in s.policy.trusted {
      G.PollCharges(s, r, g);
    }
  }

  /** A registered worker's poll that may not ask is told what stands in the way, and until when; one that may is
      told that nothing is available exactly when no job is open to it. */
  lemma PollIsToldWhy(ss: seq<State>, ms: seq<Move>, t: u64, policy: Policy, q: nat, w: Addr)
    requires IsLife(ss, ms) && Timed(t, ms) && ss[0] == EmptyState(policy) && q < |ms|
    requires ms[q].Asked? && ms[q].request.step == PollStep(w) && w in ss[q].workers
    requires w in ss[q].policy.trusted || !G.Lost(ss[q], ms[q].request, SourceGroup(ss[q].workers[w].source))
    ensures var answer := Lease(ss[q], w, At(ms[q])).1;
            if MayAsk(ss[q], ms[q].request, w) then answer.Ok? || (answer == Err(NothingAvailable) && forall i :: !OpenTo(ss, ms, q, w, i))
            else answer == Err(Hindrance(ss[q], ms[q].request, w))
  {
    var s, r, now := ss[q], ms[q].request, At(ms[q]);
    var s1 := ExpireLeases(Touch(s, w, now), now);
    MayLeaseAsToldHere(s, r, w);
    HindranceThere(s, r, w, s1);
    if MayAsk(s, r, w) {
      PollGrantsTheBest(s, w, now);
      forall k ensures Eligible(s1, w, k, now) <==> OpenTo(ss, ms, q, w, k) {
        BooksAreHistory(ss, ms, t, policy, q, k);
        EligibleAsOpen(ss, ms, q, w, k, s1);
      }
    } else {
      AssignRefuses(s1, w, now);
    }
  }
}
