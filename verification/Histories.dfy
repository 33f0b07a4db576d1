/** Every history of a coordinator, crashes and boots included: what holds of all of them, which of them
    are lives without loss, and what a boot alone can break. */
module Histories {
  import opened Base
  import opened LeaseSpec
  import opened LeaseRuns
  import opened LeaseInvariants
  import opened LeaseLives
  import opened NoShowHistory
  import opened Persistence

  // ---- restarts as resumptions ----------------------------------------------------------------

  lemma ResumesItself(s: State, now: u64)
    ensures Resumes(s, s, now)
  {
  }

  lemma TiedResumes(mem: State, disk: State, now: u64)
    requires Tied(mem, disk) && disk.policy == mem.policy
    ensures Resumes(mem, disk, now)
  {
    forall i | i in mem.jobs ensures JobResumed(mem.jobs[i], disk.jobs[i], mem.policy.leaseWindow, now) {
      assert JobTied(mem.jobs[i], disk.jobs[i]);
    }
    forall w | w in mem.workers ensures WorkerResumed(mem.workers[w], disk.workers[w]) {
      assert WorkerResumed(disk.workers[w], mem.workers[w]);
    }
  }

  lemma RestoredJobResumes(d: Job, b: Job, window: u64, now: u64)
    requires JobRestored(d, b, window, now) && (d.status.Leased? ==> d.status.expiresAt <= Hard(d.status))
    ensures JobResumed(d, b, window, now)
  {
  }

  lemma RestoredResumes(disk: State, now: u64)
    requires JobsOk(disk, now)
    ensures Resumes(disk, Restored(disk, disk.policy, now), now)
  {
    RestoredJobs(disk, now);
    var b := Restored(disk, disk.policy, now);
    forall i | i in disk.jobs ensures JobResumed(disk.jobs[i], b.jobs[i], disk.policy.leaseWindow, now) {
      assert JobOk(disk.jobs[i], disk.policy, now);
      RestoredJobResumes(disk.jobs[i], b.jobs[i], disk.policy.leaseWindow, now);
    }
  }

  /** Stamps and the flag are nothing a resumption looks at. */
  ghost predicate SameButStamps(s: State, s': State) {
    && s'.policy == s.policy && s'.penalties == s.penalties && s'.sources == s.sources && s'.workers == s.workers
    && s'.jobs.Keys == s.jobs.Keys
    && forall i | i in s.jobs :: s'.jobs[i] == s.jobs[i].(persistedExpiry := s'.jobs[i].persistedExpiry)
  }

  lemma StampsResume(s: State, b: State, b': State, now: u64)
    requires Resumes(s, b, now) && SameButStamps(b, b')
    ensures Resumes(s, b', now)
  {
    forall i | i in s.jobs ensures JobResumed(s.jobs[i], b'.jobs[i], s.policy.leaseWindow, now) {
      assert JobResumed(s.jobs[i], b.jobs[i], s.policy.leaseWindow, now);
    }
    forall w | w in s.workers ensures WorkerResumed(s.workers[w], b'.workers[w]) {
      assert WorkerResumed(s.workers[w], b.workers[w]);
    }
  }

  lemma SavingStamps(s: State)
    ensures SameButStamps(s, TakeDirty(s)) && SameButStamps(s, Serialize(s)) && SameButStamps(s, Serialize(TakeDirty(s)))
  {
  }

  // ---- the core over every history --------------------------------------------------------------

  ghost predicate SysCore(sys: System, t: u64) {
    Core(sys.disk, t) && (sys.Up? ==> Core(sys.mem, t))
  }

  lemma StampsKeepCore(s: State, s': State, now: u64)
    requires Core(s, now) && SameButStamps(s, s')
    ensures Core(s', now)
  {
    SameKeeps(s, s', now);
  }

  lemma AskKeepsCore(mem: State, disk: State, step: Step, now: u64, outcome: SaveOutcome, policy: Policy)
    requires Core(mem, now) && Core(disk, now)
    ensures SysCore(Next(Up(mem, disk), Ask(step, now, outcome), policy), now)
  {
    var s1 := Apply(mem, step, now);
    MutateKeeps(mem, now, Request(step, now, outcome.Saved?));
    ApplyKeeps(mem, step, now);
    SavingStamps(s1);
    StampsKeepCore(s1, Serialize(TakeDirty(s1)), now);
  }

  /** After a boot the file is as it was or holds what was loaded, which is what memory has. */
  lemma BootLands(disk: State, s1: State, now: u64, outcome: SaveOutcome, policy: Policy)
    requires s1 == Restored(disk, policy, now)
    ensures var sys := Next(Down(disk), Boot(now, outcome), policy);
            (sys.disk == disk || sys.disk == Serialize(TakeDirty(s1))) && (sys.Up? ==> sys.mem == TakeDirty(s1))
  {
  }

  lemma LoadedResumes(disk: State, s1: State, s: State, now: u64)
    requires Resumes(disk, s1, now) && (s == disk || s == TakeDirty(s1) || s == Serialize(TakeDirty(s1)))
    ensures Resumes(disk, s, now)
  {
    if s == disk {
      ResumesItself(disk, now);
    } else {
      SavingStamps(s1);
      StampsResume(disk, s1, s, now);
    }
  }

  /** A boot hands on what the file has, with leases extended. */
  lemma BootResumes(disk: State, now: u64, outcome: SaveOutcome, policy: Policy)
    requires SysInv(Down(disk), policy, now)
    ensures var sys := Next(Down(disk), Boot(now, outcome), policy);
            Resumes(disk, sys.disk, now) && (sys.Up? ==> Resumes(disk, sys.mem, now))
  {
    var s1, sys := Restored(disk, policy, now), Next(Down(disk), Boot(now, outcome), policy);
    RestoredResumes(disk, now);
    BootLands(disk, s1, now, outcome, policy);
    LoadedResumes(disk, s1, sys.disk, now);
    if sys.Up? {
      LoadedResumes(disk, s1, sys.mem, now);
    }
  }

  lemma NextKeepsCore(sys: System, e: Event, policy: Policy, t: u64)
    requires SysInv(sys, policy, t) && SysCore(sys, t) && t <= e.now
    ensures SysCore(Next(sys, e, policy), e.now)
  {
    LaterIsFine(sys.disk, t, e.now);
    if sys.Up? {
      LaterIsFine(sys.mem, t, e.now);
    }
    match e
    case Ask(step, now, outcome) => if sys.Up? { AskKeepsCore(sys.mem, sys.disk, step, now, outcome, policy); }
    case Crash(_) =>
    case Boot(now, outcome) => if sys.Down? { BootKeepsCore(sys.disk, now, outcome, policy); }
  }

  lemma BootKeepsCore(disk: State, now: u64, outcome: SaveOutcome, policy: Policy)
    requires SysInv(Down(disk), policy, now) && Core(disk, now)
    ensures SysCore(Next(Down(disk), Boot(now, outcome), policy), now)
  {
    var sys := Next(Down(disk), Boot(now, outcome), policy);
    BootResumes(disk, now, outcome, policy);
    ResumeKeeps(disk, sys.disk, now, now);
    if sys.Up? {
      ResumeKeeps(disk, sys.mem, now, now);
    }
  }

  function Time(es: seq<Event>, k: nat): u64
    requires k <= |es|
  {
    if k == 0 then 0 else es[k - 1].now
  }

  ghost predicate CoreAt(xs: seq<System>, es: seq<Event>, policy: Policy, k: nat)
    requires k <= |es| && |xs| == |es| + 1
  {
    SysInv(xs[k], policy, Time(es, k)) && SysCore(xs[k], Time(es, k))
  }

  lemma CoreNext(xs: seq<System>, es: seq<Event>, policy: Policy, k: nat)
    requires IsHistory(xs, es, policy) && Timely(es) && k < |es| && CoreAt(xs, es, policy, k)
    ensures CoreAt(xs, es, policy, k + 1)
  {
    StepKeeps(xs, es, policy, Time(es, k), k);
    NextKeepsCore(xs[k], es[k], policy, Time(es, k));
  }

  lemma {:induction false} CoreUpTo(xs: seq<System>, es: seq<Event>, policy: Policy, k: nat)
    requires |xs| == |es| + 1 && k <= |es| && CoreAt(xs, es, policy, 0)
    requires forall n | 0 <= n < |es| && CoreAt(xs, es, policy, n) :: CoreAt(xs, es, policy, n + 1)
    ensures CoreAt(xs, es, policy, k)
  {
    if k > 0 {
      CoreUpTo(xs, es, policy, k - 1);
    }
  }

  /** Over every history, whatever requests, failed saves, crashes and boots it has, memory and file keep
      the core of the invariant: one lease per worker, bounded maps and sources, leases the policy allows,
      one job of a round per device, cool-downs no longer than earned. */
  lemma CoreOnEveryHistory(xs: seq<System>, es: seq<Event>, policy: Policy, k: nat)
    requires IsHistory(xs, es, policy) && Timely(es) && xs[0] == Down(EmptyState(policy)) && k <= |es|
    ensures CoreAt(xs, es, policy, k)
  {
    EmptyIsSound(policy);
    EmptyIsFine(policy, 0);
    forall n | 0 <= n < |es| && CoreAt(xs, es, policy, n) ensures CoreAt(xs, es, policy, n + 1) {
      CoreNext(xs, es, policy, n);
    }
    CoreUpTo(xs, es, policy, k);
  }

  /** On every history top-tier work is only ever held or finished by vouched workers, whatever tier the
      operator opens. */
  lemma TopTierIsVouchedOnly(xs: seq<System>, es: seq<Event>, policy: Policy, k: nat, i: JobId)
    requires IsHistory(xs, es, policy) && Timely(es) && xs[0] == Down(EmptyState(policy)) && k <= |es|
    requires var s := Logical(xs[k]);
             i in s.jobs && s.jobs[i].spec.tier == H01 && (s.jobs[i].status.Leased? || s.jobs[i].status.Done?)
    ensures Logical(xs[k]).jobs[i].status.worker in policy.trusted
  {
    CleanMeansSaved(xs, es, policy, k);
    assert JobOk(Logical(xs[k]).jobs[i], policy, Time(es, k));
  }

  // ---- histories without loss are lives ----------------------------------------------------------

  /** What the coordinator is at: its memory, or the file it will start from. */
  function Logical(sys: System): State {
    if sys.Up? then sys.mem else sys.disk
  }

  ghost function MoveOf(sys: System, e: Event): Move {
    if sys.Up? && e.Ask? then Asked(Request(e.step, e.now, e.outcome.Saved?)) else Resumed(e.now)
  }

  /** The last save before every crash succeeded. */
  ghost predicate NothingLost(xs: seq<System>, es: seq<Event>)
    requires |xs| == |es| + 1
  {
    forall k | 0 <= k < |es| && es[k].Crash? && xs[k].Up? :: !xs[k].mem.dirty
  }

  lemma EventMoves(sys: System, e: Event, policy: Policy, t: u64)
    requires SysInv(sys, policy, t) && t <= e.now && (e.Crash? && sys.Up? ==> !sys.mem.dirty)
    ensures Moves(Logical(sys), MoveOf(sys, e), Logical(Next(sys, e, policy)))
  {
    ResumesItself(Logical(sys), e.now);
    match e
    case Ask(step, now, outcome) =>
    case Crash(now) => if sys.Up? { TiedResumes(sys.mem, sys.disk, now); }
    case Boot(now, outcome) =>
      if sys.Down? {
        JobsOkLater(sys.disk, t, now);
        BootResumes(sys.disk, now, outcome, policy);
      }
  }

  ghost function Lifeline(xs: seq<System>): seq<State> {
    seq(|xs|, k requires 0 <= k < |xs| => Logical(xs[k]))
  }

  ghost function MovesOf(xs: seq<System>, es: seq<Event>): seq<Move>
    requires |xs| == |es| + 1
  {
    seq(|es|, k requires 0 <= k < |es| => MoveOf(xs[k], es[k]))
  }

  lemma MoveTime(sys: System, e: Event)
    ensures At(MoveOf(sys, e)) == e.now
  {
  }

  lemma EventMovesAt(xs: seq<System>, es: seq<Event>, policy: Policy, k: nat)
    requires IsHistory(xs, es, policy) && Timely(es) && NothingLost(xs, es) && k < |es|
    requires SysInv(xs[k], policy, Time(es, k))
    ensures Moves(Logical(xs[k]), MoveOf(xs[k], es[k]), Logical(xs[k + 1]))
  {
    EventMoves(xs[k], es[k], policy, Time(es, k));
  }

  /** A history in which no crash comes between a change and its save is a life: so everything proved of
      lives holds of it, restarts and all. */
  lemma HistoryIsALife(xs: seq<System>, es: seq<Event>, policy: Policy)
    requires IsHistory(xs, es, policy) && Timely(es) && xs[0] == Down(EmptyState(policy)) && NothingLost(xs, es)
    ensures IsLife(Lifeline(xs), MovesOf(xs, es)) && Timed(0, MovesOf(xs, es))
    ensures Lifeline(xs)[0] == EmptyState(policy)
  {
    var ss, ms := Lifeline(xs), MovesOf(xs, es);
    forall k | 0 <= k < |ms| ensures MovesAt(ss, ms, k) {
      CleanMeansSaved(xs, es, policy, k);
      EventMovesAt(xs, es, policy, k);
    }
    forall k | 0 <= k < |ms| ensures At(ms[k]) == es[k].now {
      MoveTime(xs[k], es[k]);
    }
  }

  /** In particular no-show history is never laundered by restarting. */
  lemma RestartsLaunderNothing(xs: seq<System>, es: seq<Event>, policy: Policy, n: nat)
    requires IsHistory(xs, es, policy) && Timely(es) && xs[0] == Down(EmptyState(policy)) && NothingLost(xs, es)
    requires n <= |es|
    ensures var b := BooksAlong(Lifeline(xs), MovesOf(xs, es))[n];
            Agrees(Logical(xs[n]), b.ledger, b.lost, Time(es, n))
  {
    var ss, ms := Lifeline(xs), MovesOf(xs, es);
    HistoryIsALife(xs, es, policy);
    BooksAlongAreKept(ss, ms);
    EmptyOpening(policy, 0);
    HistoryIsNeverLaundered(0, ss, ms, BooksAlong(ss, ms), n);
    assert AgreesAt(ss, ms, BooksAlong(ss, ms), 0, n);
    if n > 0 {
      MoveTime(xs[n - 1], es[n - 1]);
    }
  }

  // ---- what a boot can break ----------------------------------------------------------------------

  /** A lapsed lease still inside its deadline, which a boot at `now` brings back to life. */
  predicate Revives(j: Job, window: u64, now: u64) {
    j.status.Leased? && j.status.expiresAt <= now < Hard(j.status) && now < SatAdd(now, window)
  }

  function RevivedOfGroup(s: State, g: Group, now: u64): set<JobId> {
    set i | i in s.jobs && Revives(s.jobs[i], s.policy.leaseWindow, now) && HolderInGroup(s, s.jobs[i].status.worker, g)
  }

  lemma LiveAfterBoot(disk: State, now: u64, i: JobId)
    requires JobsOk(disk, now) && i in disk.jobs
    ensures var b := Restored(disk, disk.policy, now);
            && i in b.jobs && b.workers == disk.workers && b.policy == disk.policy
            && (Live(b.jobs[i].status, now) <==>
                  Live(disk.jobs[i].status, now) || Revives(disk.jobs[i], disk.policy.leaseWindow, now))
            && (Live(b.jobs[i].status, now) ==> b.jobs[i].status.worker == disk.jobs[i].status.worker)
  {
    RestoredJobs(disk, now);
    assert JobRestored(disk.jobs[i], Restored(disk, disk.policy, now).jobs[i], disk.policy.leaseWindow, now);
    assert JobOk(disk.jobs[i], disk.policy, now);
  }

  /** A boot leaves every live holder registered if and only if no lease it revives belongs to a worker
      that has been forgotten. */
  lemma BootKeepsHoldersRegistered(disk: State, now: u64)
    requires JobsOk(disk, now) && LiveRegistered(disk, now)
    ensures LiveRegistered(Restored(disk, disk.policy, now), now)
       <==> forall i | i in disk.jobs && Revives(disk.jobs[i], disk.policy.leaseWindow, now) ::
              disk.jobs[i].status.worker in disk.workers
  {
    var b := Restored(disk, disk.policy, now);
    RestoredJobs(disk, now);
    forall i | i in disk.jobs
      ensures Live(b.jobs[i].status, now) <==>
                Live(disk.jobs[i].status, now) || Revives(disk.jobs[i], disk.policy.leaseWindow, now)
      ensures Live(b.jobs[i].status, now) ==> b.jobs[i].status.worker == disk.jobs[i].status.worker
    {
      LiveAfterBoot(disk, now, i);
    }
  }

  /** A boot keeps every group within its cap if and only if the group's live leases on file and those it
      revives are within it together. */
  lemma BootKeepsGroupsCapped(disk: State, now: u64)
    requires JobsOk(disk, now)
    ensures GroupCap(Restored(disk, disk.policy, now), now)
       <==> forall g :: |LiveOfGroup(disk, g, now) + RevivedOfGroup(disk, g, now)| <= disk.policy.maxLeasesPerSource
  {
    var b := Restored(disk, disk.policy, now);
    RestoredJobs(disk, now);
    forall g ensures LiveOfGroup(b, g, now) == LiveOfGroup(disk, g, now) + RevivedOfGroup(disk, g, now) {
      forall i ensures i in LiveOfGroup(b, g, now) <==> i in LiveOfGroup(disk, g, now) + RevivedOfGroup(disk, g, now) {
        if i in disk.jobs {
          LiveAfterBoot(disk, now, i);
        }
      }
    }
  }

  /** So a boot that finds no lapsed lease on file keeps the whole invariant. */
  lemma BootWithoutLapsesKeepsAll(disk: State, now: u64)
    requires Inv(disk, now) && forall i | i in disk.jobs :: !Revives(disk.jobs[i], disk.policy.leaseWindow, now)
    ensures Inv(Restored(disk, disk.policy, now), now)
  {
    RestoredResumes(disk, now);
    ResumeKeeps(disk, Restored(disk, disk.policy, now), now, now);
    BootKeepsHoldersRegistered(disk, now);
    BootKeepsGroupsAsTheyWere(disk, now);
  }

  lemma BootKeepsGroupsAsTheyWere(disk: State, now: u64)
    requires JobsOk(disk, now) && GroupCap(disk, now)
    requires forall i | i in disk.jobs :: !Revives(disk.jobs[i], disk.policy.leaseWindow, now)
    ensures GroupCap(Restored(disk, disk.policy, now), now)
  {
    forall g ensures |LiveOfGroup(disk, g, now) + RevivedOfGroup(disk, g, now)| <= disk.policy.maxLeasesPerSource {
      assert LiveOfGroup(disk, g, now) + RevivedOfGroup(disk, g, now) == LiveOfGroup(disk, g, now);
    }
    BootKeepsGroupsCapped(disk, now);
  }
}
