/** What a job remembers, told from the requests alone: who let it lapse and when, how often it was granted,
    and who finished it with what. */
module JobHistory {
  import opened Base
  import opened LeaseSpec
  import opened LeaseRuns
  import opened LeaseInvariants
  import opened LeaseTheorems
  import opened LeaseLives
  import opened BoundedWaiting

  // ---- what has happened to a job -----------------------------------------------------------------

  /** Move `m` finds job `i` lapsed in the hands of `w`. */
  predicate LapsesBy(ss: seq<State>, ms: seq<Move>, m: nat, i: JobId, w: Addr)
    requires m < |ms| && |ss| == |ms| + 1
  {
    ms[m].Asked? && FindsLapsed(ss[m], ms[m].request, i) && ss[m].jobs[i].status.worker == w
  }

  /** One of the first `n` moves found job `i` lapsed in the hands of `w`. */
  ghost predicate LetLapse(ss: seq<State>, ms: seq<Move>, n: nat, i: JobId, w: Addr)
    requires n <= |ms| && |ss| == |ms| + 1
  {
    exists m | 0 <= m < n :: LapsesBy(ss, ms, m, i, w)
  }

  /** Move `m` finds job `i` lapsed in the hands of an unvouched worker registered from group `g`. */
  predicate LapsesFrom(ss: seq<State>, ms: seq<Move>, m: nat, i: JobId, g: Group)
    requires m < |ms| && |ss| == |ms| + 1
  {
    ms[m].Asked? && FindsLapsed(ss[m], ms[m].request, i) &&
    var h := ss[m].jobs[i].status.worker;
    h in ss[m].workers && h !in ss[m].policy.trusted && SourceGroup(ss[m].workers[h].source) == g
  }

  ghost predicate GroupLetLapse(ss: seq<State>, ms: seq<Move>, n: nat, i: JobId, g: Group)
    requires n <= |ms| && |ss| == |ms| + 1
  {
    exists m | 0 <= m < n :: LapsesFrom(ss, ms, m, i, g)
  }

  predicate FoundAt(ss: seq<State>, ms: seq<Move>, m: nat, i: JobId)
    requires m < |ms| && |ss| == |ms| + 1
  {
    ms[m].Asked? && FindsLapsed(ss[m], ms[m].request, i)
  }

  /** When job `i` was last found lapsed. */
  function LastLapse(ss: seq<State>, ms: seq<Move>, n: nat, i: JobId): Option<u64>
    requires n <= |ms| && |ss| == |ms| + 1
  {
    if n == 0 then None
    else if FoundAt(ss, ms, n - 1, i) then Some(At(ms[n - 1]))
    else LastLapse(ss, ms, n - 1, i)
  }

  ghost predicate GrantedAt(ss: seq<State>, ms: seq<Move>, m: nat, i: JobId)
    requires m < |ms| && |ss| == |ms| + 1
  {
    ms[m].Asked? && Grants(ss[m], ms[m].request, i)
  }

  ghost function TimesGranted(ss: seq<State>, ms: seq<Move>, n: nat, i: JobId): nat
    requires n <= |ms| && |ss| == |ms| + 1
  {
    if n == 0 then 0 else TimesGranted(ss, ms, n - 1, i) + (if GrantedAt(ss, ms, n - 1, i) then 1 else 0)
  }

  /** Move `m` is `w`'s submission of `result` for job `i`, which it holds live. */
  predicate SubmittedAt(ss: seq<State>, ms: seq<Move>, m: nat, i: JobId, w: Addr, result: string)
    requires m < |ms| && |ss| == |ms| + 1
  {
    && ms[m].Asked? && ms[m].request.step == SubmitStep(w, i, result) && i in ss[m].jobs
    && ss[m].jobs[i].status.Leased? && ss[m].jobs[i].status.worker == w && At(ms[m]) < ss[m].jobs[i].status.expiresAt
  }

  // ---- one request and one job ----------------------------------------------------------------------

  /** What a request makes of the books of a job it finds. */
  ghost predicate BooksOf(s: State, r: Request, s': State, i: JobId)
    requires i in s.jobs
  {
    && i in s'.jobs
    && var j, j' := s.jobs[i], s'.jobs[i];
       && (j'.failedBy == if FindsLapsed(s, r, i) then j.failedBy + {j.status.worker} else j.failedBy)
       && (j'.heldUntil == if FindsLapsed(s, r, i) then SatAdd(r.now, LAPSE_HOLD_SECS) else j.heldUntil)
       && (j'.attempts == if Grants(s, r, i) then j.attempts + 1 else j.attempts)
       && j'.spec == j.spec
  }

  ghost predicate GroupsOf(s: State, r: Request, s': State, i: JobId)
    requires i in s.jobs
  {
    && i in s'.jobs
    && forall g :: g in s'.jobs[i].failedBySources <==>
         || g in s.jobs[i].failedBySources
         || (FindsLapsed(s, r, i) && s.jobs[i].status.worker in s.workers && s.jobs[i].status.worker !in s.policy.trusted
             && SourceGroup(s.workers[s.jobs[i].status.worker].source) == g)
  }

  /** A job ends done exactly by its live holder's submission, with what was submitted. */
  ghost predicate EndsOf(s: State, r: Request, s': State, i: JobId)
    requires i in s.jobs
  {
    && i in s'.jobs
    && (s.jobs[i].status.Done? ==> s'.jobs[i].status == s.jobs[i].status && s'.jobs[i].result == s.jobs[i].result)
    && (!s.jobs[i].status.Done? && s'.jobs[i].status.Done? ==>
          && r.step.SubmitStep? && r.step.job == i && s.jobs[i].status.Leased? && s.jobs[i].status.worker == r.step.worker
          && r.now < s.jobs[i].status.expiresAt
          && s'.jobs[i].status == Done(r.step.worker, r.now) && s'.jobs[i].result == Some(r.step.result))
    && (!s'.jobs[i].status.Done? ==> s'.jobs[i].result == s.jobs[i].result)
  }

  lemma AssignBooks(s: State, w: Addr, now: u64, i: JobId)
    requires w in s.workers && i in s.jobs
    ensures var (s', r) := Assign(s, w, now);
            && i in s'.jobs
            && s'.jobs[i] == s.jobs[i].(status := s'.jobs[i].status, attempts := if r == Ok(i) then s.jobs[i].attempts + 1 else s.jobs[i].attempts)
            && (r != Ok(i) ==> s'.jobs[i].status == s.jobs[i].status)
            && (r == Ok(i) ==> s.jobs[i].status == Pending && s'.jobs[i].status.Leased?)
  {
    BestOfEligible(s, w, now);
  }

  lemma PollBooks(s: State, w: Addr, now: u64, saved: bool, i: JobId)
    requires w in s.workers && i in s.jobs
    ensures var r := Request(PollStep(w), now, saved); var s' := Lease(s, w, now).0;
            BooksOf(s, r, s', i) && GroupsOf(s, r, s', i) && EndsOf(s, r, s', i)
  {
    var t := Touch(s, w, now);
    AssignBooks(ExpireLeases(t, now), w, now, i);
  }

  lemma ExpiryBooks(s: State, now: u64, saved: bool, i: JobId)
    requires i in s.jobs
    ensures var r := Request(ExpireStep, now, saved); var s' := ExpireLeases(s, now);
            BooksOf(s, r, s', i) && GroupsOf(s, r, s', i) && EndsOf(s, r, s', i)
  {
  }

  lemma RenewBooks(s: State, w: Addr, k: JobId, now: u64, saved: bool, i: JobId)
    requires i in s.jobs
    ensures var r := Request(HeartbeatStep(w, k), now, saved); var s' := Renew(s, w, k, now).0;
            BooksOf(s, r, s', i) && GroupsOf(s, r, s', i) && EndsOf(s, r, s', i)
  {
  }

  lemma FinishBooks(s: State, w: Addr, k: JobId, result: string, now: u64, saved: bool, i: JobId)
    requires i in s.jobs && LeaseholderError(s, w, k, now).None?
    ensures var r := Request(SubmitStep(w, k, result), now, saved); var s' := Finish(s, w, k, result, now);
            BooksOf(s, r, s', i) && GroupsOf(s, r, s', i) && EndsOf(s, r, s', i)
  {
  }

  lemma RevokeBooks(s: State, k: JobId, r: Request, i: JobId)
    requires i in s.jobs && k in s.jobs && s.jobs[k].status.Leased? && r.step.SubmitStep?
    ensures var s' := RevokeLease(s, k); BooksOf(s, r, s', i) && GroupsOf(s, r, s', i) && EndsOf(s, r, s', i)
  {
  }

  lemma SubmitBooks(s: State, w: Addr, k: JobId, result: string, now: u64, saved: bool, i: JobId)
    requires i in s.jobs
    ensures var r := Request(SubmitStep(w, k, result), now, saved); var s' := Submit(s, w, k, result, now).0;
            BooksOf(s, r, s', i) && GroupsOf(s, r, s', i) && EndsOf(s, r, s', i)
  {
    if LeaseholderError(s, w, k, now).None? {
      if TierAllowed(s.policy, w, s.jobs[k].spec.tier) {
        FinishBooks(s, w, k, result, now, saved, i);
      } else {
        RevokeBooks(s, k, Request(SubmitStep(w, k, result), now, saved), i);
      }
    }
  }

  lemma ApplyBooks(s: State, r: Request, i: JobId)
    requires i in s.jobs
    ensures var s' := Apply(s, r.step, r.now); BooksOf(s, r, s', i) && GroupsOf(s, r, s', i) && EndsOf(s, r, s', i)
  {
    match r.step
    case PollStep(w) => if w in s.workers { PollBooks(s, w, r.now, r.saved, i); }
    case RegisterStep(key, c, source) => RegisterLeavesJobs(s, key, c, source, r.now);
    case HeartbeatStep(w, k) => RenewBooks(s, w, k, r.now, r.saved, i);
    case SubmitStep(w, k, result) => SubmitBooks(s, w, k, result, r.now, r.saved, i);
    case ExpireStep => ExpiryBooks(s, r.now, r.saved, i);
    case AddJobStep(_, _) =>
    case NoteStep(_, _, _) =>
  }

  lemma RequestBooks(s: State, r: Request, i: JobId)
    requires i in s.jobs
    ensures var s' := Mutate(s, r); BooksOf(s, r, s', i) && GroupsOf(s, r, s', i) && EndsOf(s, r, s', i)
  {
    ApplyBooks(s, r, i);
    MutateIsApply(s, r);
  }

  /** A job appears only when the catalogue adds it, waiting and with a clean sheet. */
  lemma NewJob(s: State, r: Request, i: JobId)
    requires i !in s.jobs && i in Mutate(s, r).jobs
    ensures r.step.AddJobStep? && r.step.id == i
    ensures var j := Mutate(s, r).jobs[i];
            j == Job(r.step.spec, Pending, 0, {}, None, {}, 0, 0)
  {
    MutateIsApply(s, r);
    if !r.step.AddJobStep? {
      OnlyTheCatalogueAdds(s, r, i);
    }
  }

  lemma OnlyTheCatalogueAdds(s: State, r: Request, i: JobId)
    requires !r.step.AddJobStep?
    ensures i in Apply(s, r.step, r.now).jobs ==> i in s.jobs
  {
    match r.step
    case PollStep(w) => if w in s.workers { PollGrantsTheBest(s, w, r.now); }
    case RegisterStep(key, c, source) => RegisterLeavesJobs(s, key, c, source, r.now);
    case HeartbeatStep(w, k) => RenewKeepsHold(s, w, k, r.now, i);
    case SubmitStep(w, k, result) => SubmitKeepsHold(s, w, k, result, r.now, i);
    case ExpireStep =>
    case NoteStep(_, _, _) =>
  }

  // ---- whole lives ----------------------------------------------------------------------------------

  /** The books of job `i` after `n` moves are what the moves say. */
  ghost predicate Told(ss: seq<State>, ms: seq<Move>, n: nat, i: JobId)
    requires n <= |ms| && |ss| == |ms| + 1
  {
    if i in ss[n].jobs then
      var j := ss[n].jobs[i];
      && (forall w :: w in j.failedBy <==> LetLapse(ss, ms, n, i, w))
      && (forall g :: g in j.failedBySources <==> GroupLetLapse(ss, ms, n, i, g))
      && j.heldUntil == (var last := LastLapse(ss, ms, n, i); if last.None? then 0 else SatAdd(last.value, 900))
      && j.attempts == TimesGranted(ss, ms, n, i)
    else Clean(ss, ms, n, i)
  }

  lemma OneMoreMove(ss: seq<State>, ms: seq<Move>, n: nat, i: JobId)
    requires n < |ms| && |ss| == |ms| + 1
    ensures forall w :: LetLapse(ss, ms, n + 1, i, w) <==> LetLapse(ss, ms, n, i, w) || LapsesBy(ss, ms, n, i, w)
    ensures forall g :: GroupLetLapse(ss, ms, n + 1, i, g) <==> GroupLetLapse(ss, ms, n, i, g) || LapsesFrom(ss, ms, n, i, g)
  {
    forall w ensures LetLapse(ss, ms, n + 1, i, w) <==> LetLapse(ss, ms, n, i, w) || LapsesBy(ss, ms, n, i, w) {
      if m :| 0 <= m < n && LapsesBy(ss, ms, m, i, w) {
        assert LetLapse(ss, ms, n + 1, i, w);
      }
    }
    forall g ensures GroupLetLapse(ss, ms, n + 1, i, g) <==> GroupLetLapse(ss, ms, n, i, g) || LapsesFrom(ss, ms, n, i, g) {
      if m :| 0 <= m < n && LapsesFrom(ss, ms, m, i, g) {
        assert GroupLetLapse(ss, ms, n + 1, i, g);
      }
    }
  }

  lemma NotGrantedUnknown(s: State, r: Request, i: JobId)
    requires i !in s.jobs
    ensures !Grants(s, r, i) && !FindsLapsed(s, r, i)
  {
    if r.step.PollStep? && r.step.worker in s.workers {
      PollGrantsTheBest(s, r.step.worker, r.now);
    }
  }

  lemma JobsStay(s: State, m: Move, s': State, i: JobId)
    requires Moves(s, m, s') && i in s.jobs
    ensures i in s'.jobs
  {
    if m.Asked? {
      RequestBooks(s, m.request, i);
    }
  }

  lemma ToldNext(ss: seq<State>, ms: seq<Move>, t: u64, n: nat, i: JobId)
    requires IsLife(ss, ms) && Timed(t, ms) && n < |ms| && Told(ss, ms, n, i)
    ensures Told(ss, ms, n + 1, i)
  {
    LifeAt(ss, ms, t, n);
    OneMoreMove(ss, ms, n, i);
    match ms[n]
    case Asked(r) => ToldByRequest(ss, ms, n, i, r);
    case Resumed(now) =>
      if i in ss[n].jobs {
        assert JobResumed(ss[n].jobs[i], ss[n + 1].jobs[i], ss[n].policy.leaseWindow, now);
      } else {
        StillNothing(ss, ms, n, i);
      }
  }

  /** Nothing has happened to a job yet. */
  ghost predicate Clean(ss: seq<State>, ms: seq<Move>, n: nat, i: JobId)
    requires n <= |ms| && |ss| == |ms| + 1
  {
    && (forall w :: !LetLapse(ss, ms, n, i, w)) && (forall g :: !GroupLetLapse(ss, ms, n, i, g))
    && LastLapse(ss, ms, n, i) == None && TimesGranted(ss, ms, n, i) == 0
  }

  /** Nothing happens to a job that is not there. */
  lemma StillNothing(ss: seq<State>, ms: seq<Move>, n: nat, i: JobId)
    requires n < |ms| && |ss| == |ms| + 1 && i !in ss[n].jobs && Clean(ss, ms, n, i)
    ensures Clean(ss, ms, n + 1, i)
  {
    OneMoreMove(ss, ms, n, i);
    if ms[n].Asked? {
      NotGrantedUnknown(ss[n], ms[n].request, i);
    }
    var next := n + 1;
    forall w ensures !LetLapse(ss, ms, next, i, w) {
      assert !LetLapse(ss, ms, n, i, w) && !LapsesBy(ss, ms, n, i, w);
    }
    forall g ensures !GroupLetLapse(ss, ms, next, i, g) {
      assert !GroupLetLapse(ss, ms, n, i, g) && !LapsesFrom(ss, ms, n, i, g);
    }
  }

  lemma ToldByRequest(ss: seq<State>, ms: seq<Move>, n: nat, i: JobId, r: Request)
    requires n < |ms| && |ss| == |ms| + 1 && ms[n] == Asked(r) && ss[n + 1] == Mutate(ss[n], r) && Told(ss, ms, n, i)
    ensures Told(ss, ms, n + 1, i)
  {
    if i in ss[n].jobs {
      RequestBooks(ss[n], r, i);
      ToldOfKnown(ss, ms, n, i, r);
    } else {
      StillNothing(ss, ms, n, i);
      if i in ss[n + 1].jobs {
        NewJob(ss[n], r, i);
      }
    }
  }

  lemma ToldOfKnown(ss: seq<State>, ms: seq<Move>, n: nat, i: JobId, r: Request)
    requires n < |ms| && |ss| == |ms| + 1 && ms[n] == Asked(r) && Told(ss, ms, n, i) && i in ss[n].jobs
    requires BooksOf(ss[n], r, ss[n + 1], i) && GroupsOf(ss[n], r, ss[n + 1], i)
    ensures Told(ss, ms, n + 1, i)
  {
    OneMoreMove(ss, ms, n, i);
    var j := ss[n + 1].jobs[i];
    forall w ensures w in j.failedBy <==> LetLapse(ss, ms, n + 1, i, w) {
      assert w in ss[n].jobs[i].failedBy <==> LetLapse(ss, ms, n, i, w);
      assert LapsesBy(ss, ms, n, i, w) <==> FindsLapsed(ss[n], r, i) && ss[n].jobs[i].status.worker == w;
    }
    forall g ensures g in j.failedBySources <==> GroupLetLapse(ss, ms, n + 1, i, g) {
      assert g in ss[n].jobs[i].failedBySources <==> GroupLetLapse(ss, ms, n, i, g);
    }
  }

  /** In every life from an empty coordinator, restarts included, a job's books are exactly what the requests so
      far say: who let it lapse, from which groups, until when it is held, and how often it was granted. */
  lemma {:induction false} BooksAreHistory(ss: seq<State>, ms: seq<Move>, t: u64, policy: Policy, n: nat, i: JobId)
    requires IsLife(ss, ms) && Timed(t, ms) && ss[0] == EmptyState(policy) && n <= |ms|
    ensures Told(ss, ms, n, i)
  {
    if n > 0 {
      BooksAreHistory(ss, ms, t, policy, n - 1, i);
      ToldNext(ss, ms, t, n - 1, i);
    }
  }

  lemma EndsNext(ss: seq<State>, ms: seq<Move>, t: u64, k: nat, i: JobId)
    requires IsLife(ss, ms) && Timed(t, ms) && k < |ms| && i in ss[k].jobs
    ensures i in ss[k + 1].jobs
    ensures ss[k].jobs[i].status.Done? ==> ss[k + 1].jobs[i].status == ss[k].jobs[i].status && ss[k + 1].jobs[i].result == ss[k].jobs[i].result
    ensures !ss[k].jobs[i].status.Done? && ss[k + 1].jobs[i].status.Done? ==>
              && ms[k].Asked? && ms[k].request.step.SubmitStep?
              && SubmittedAt(ss, ms, k, i, ms[k].request.step.worker, ms[k].request.step.result)
              && ss[k + 1].jobs[i].status == Done(ms[k].request.step.worker, At(ms[k]))
              && ss[k + 1].jobs[i].result == Some(ms[k].request.step.result)
  {
    LifeAt(ss, ms, t, k);
    match ms[k]
    case Asked(r) => RequestBooks(ss[k], r, i);
    case Resumed(now) => assert JobResumed(ss[k].jobs[i], ss[k + 1].jobs[i], ss[k].policy.leaseWindow, now);
  }

  /** A finished job was finished by the worker it names, which held it live, at the time it gives, and its
      result is what that worker submitted. */
  lemma {:induction false} FinishedByItsHolder(ss: seq<State>, ms: seq<Move>, t: u64, policy: Policy, n: nat, i: JobId)
    returns (m: nat, result: string)
    requires IsLife(ss, ms) && Timed(t, ms) && ss[0] == EmptyState(policy) && n <= |ms|
    requires i in ss[n].jobs && ss[n].jobs[i].status.Done?
    ensures m < n && SubmittedAt(ss, ms, m, i, ss[n].jobs[i].status.worker, result)
    ensures ss[n].jobs[i].status.at == At(ms[m]) && ss[n].jobs[i].result == Some(result)
  {
    LifeAt(ss, ms, t, n - 1);
    KnownBefore(ss, ms, t, n - 1, i);
    EndsNext(ss, ms, t, n - 1, i);
    if ss[n - 1].jobs[i].status.Done? {
      m, result := FinishedByItsHolder(ss, ms, t, policy, n - 1, i);
    } else {
      m, result := n - 1, ms[n - 1].request.step.result;
    }
  }

  lemma KnownBefore(ss: seq<State>, ms: seq<Move>, t: u64, k: nat, i: JobId)
    requires IsLife(ss, ms) && Timed(t, ms) && k < |ms| && i in ss[k + 1].jobs && ss[k + 1].jobs[i].status != Pending
    ensures i in ss[k].jobs
  {
    LifeAt(ss, ms, t, k);
    if ms[k].Asked? && i !in ss[k].jobs {
      NewJob(ss[k], ms[k].request, i);
    }
  }

  /** And once finished it stays as it is, through anything. */
  lemma {:induction false} FinishedForGood(ss: seq<State>, ms: seq<Move>, t: u64, m: nat, n: nat, i: JobId)
    requires IsLife(ss, ms) && Timed(t, ms) && m <= n <= |ms| && i in ss[m].jobs && ss[m].jobs[i].status.Done?
    ensures i in ss[n].jobs && ss[n].jobs[i].status == ss[m].jobs[i].status && ss[n].jobs[i].result == ss[m].jobs[i].result
    decreases n
  {
    if m < n {
      FinishedForGood(ss, ms, t, m, n - 1, i);
      EndsNext(ss, ms, t, n - 1, i);
    }
  }

  // ---- what its holder is answered --------------------------------------------------------------------

  predicate HeldLiveBy(s: State, w: Addr, i: JobId, now: u64) {
    i in s.jobs && s.jobs[i].status.Leased? && s.jobs[i].status.worker == w && now < s.jobs[i].status.expiresAt
  }

  /** Why `w` is turned away, when it does not hold the job live. */
  function Reason(s: State, w: Addr, i: JobId, now: u64): SubmitError {
    if i !in s.jobs then UnknownJob
    else match s.jobs[i].status
         case Leased(holder, expiresAt, _) => if holder == w then LeaseExpired(expiresAt, now) else NotLeaseholder
         case _ => NotLeased
  }

  /** A heartbeat or a result is accepted exactly from the worker that holds the job live: the one makes the lease
      last a window from now, within its deadline and no shorter than it was, the other finishes the job.
      Anyone else is told why not and changes nothing. No lease is found out of policy. */
  lemma HolderIsAnsweredExactly(ss: seq<State>, ms: seq<Move>, t: u64, policy: Policy, n: nat, w: Addr, i: JobId,
                                result: string, now: u64)
    requires IsLife(ss, ms) && Timed(t, ms) && ss[0] == EmptyState(policy) && n <= |ms|
    ensures var s := ss[n]; var (beat, until) := Renew(s, w, i, now); var (done, accepted) := Submit(s, w, i, result, now);
            if HeldLiveBy(s, w, i, now) then
              var st := s.jobs[i].status;
              var end := if st.deadline == 0 then st.expiresAt else st.deadline;
              && until == Ok(Max(st.expiresAt, Min(SatAdd(now, policy.leaseWindow), end)))
              && i in beat.jobs && beat.jobs[i].status == Leased(w, until.value, end)
              && accepted == Ok(()) && i in done.jobs
              && done.jobs[i].status == Done(w, now) && done.jobs[i].result == Some(result)
            else
              beat == s && until == Err(Reason(s, w, i, now)) && done == s && accepted == Err(Reason(s, w, i, now))
  {
    EmptyIsFine(policy, t);
    LifeIsSound(ss, ms, t);
    assert SoundAt(ss, ms, t, n);
    if i in ss[n].jobs {
      assert JobOk(ss[n].jobs[i], policy, Clock(t, ms, n));
    }
  }

  /** In any state at all, the holder of a lease the policy does not allow loses it at once, by a heartbeat and by a
      result alike: the job waits again, to be saved, and nothing else changes. */
  lemma OutOfPolicyIsRevoked(s: State, w: Addr, i: JobId, result: string, now: u64)
    requires HeldLiveBy(s, w, i, now) && w !in s.policy.trusted
    requires s.jobs[i].spec.tier == H01 || Rank(s.policy.openTier) < Rank(s.jobs[i].spec.tier)
    ensures var s' := s.(jobs := s.jobs[i := s.jobs[i].(status := Pending)], dirty := true);
            Renew(s, w, i, now) == (s', Err(TierRevoked)) && Submit(s, w, i, result, now) == (s', Err(TierRevoked))
  {
  }
}
