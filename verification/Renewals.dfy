/** How long a lease lasts over histories of the whole system: heartbeats, restarts and what others do. */
module Renewals {
  import opened Base
  import opened LeaseSpec
  import opened LeaseRuns
  import opened LeaseInvariants
  import opened LeaseTheorems
  import opened Persistence
  import opened Histories

  /** The last renewal after this event: a heartbeat of `w` on job `i`, or a boot that succeeds, renews. */
  ghost function RenewedAt(sys: System, e: Event, sys': System, w: Addr, i: JobId, last: u64): u64 {
    if e.Ask? && sys.Up? && e.step == HeartbeatStep(w, i) then e.now
    else if sys.Down? && sys'.Up? then e.now
    else last
  }

  ghost function LastRenewal(xs: seq<System>, es: seq<Event>, w: Addr, i: JobId, last: u64, m: nat, n: nat): u64
    requires m <= n <= |es| && |xs| == |es| + 1
    decreases n
  {
    if n == m then last
    else RenewedAt(xs[n - 1], es[n - 1], xs[n], w, i, LastRenewal(xs, es, w, i, last, m, n - 1))
  }

  /** The event comes before the deadline; a request, while the lease is live, and it is not `w`'s submission;
      a crash, when nothing is unsaved. */
  ghost predicate Keeping(sys: System, e: Event, w: Addr, i: JobId, last: u64, window: u64, d: u64) {
    && e.now < d
    && (e.Ask? && sys.Up? ==> e.now < SatAdd(last, window) && !(e.step.SubmitStep? && e.step.worker == w && e.step.job == i))
    && (e.Crash? && sys.Up? ==> !sys.mem.dirty)
  }

  ghost predicate KeepingAt(xs: seq<System>, es: seq<Event>, w: Addr, i: JobId, last: u64, window: u64, d: u64, m: nat, k: nat)
    requires m <= k < |es| && |xs| == |es| + 1
  {
    Keeping(xs[k], es[k], w, i, LastRenewal(xs, es, w, i, last, m, k), window, d)
  }

  /** In memory the lease ends one window after `last` or at the deadline `d`; while down, the file has it. */
  predicate Holding(sys: System, w: Addr, i: JobId, last: u64, window: u64, d: u64) {
    if sys.Up? then HoldsUntil(sys.mem, w, i, Min(SatAdd(last, window), d), d) else DiskHolds(sys.disk, i, w, d)
  }

  predicate HoldsUntil(s: State, w: Addr, i: JobId, end: u64, d: u64) {
    DiskHolds(s, i, w, d) && s.jobs[i].status.expiresAt == end
  }

  // ---- one event --------------------------------------------------------------------------------

  lemma BeatRenews(s: State, r: Request, w: Addr, i: JobId, last: u64, d: u64)
    requires JobsOk(s, r.now) && last <= r.now && IsBeat(r, w, i) && r.now < Min(SatAdd(last, s.policy.leaseWindow), d)
    requires HoldsUntil(s, w, i, Min(SatAdd(last, s.policy.leaseWindow), d), d)
    ensures HoldsUntil(Mutate(s, r), w, i, Min(SatAdd(r.now, s.policy.leaseWindow), d), d)
  {
    assert JobOk(s.jobs[i], s.policy, r.now);
    assert LeaseholderError(s, w, i, r.now).None?;
    assert HoldsUntil(Renew(s, w, i, r.now).0, w, i, Min(SatAdd(r.now, s.policy.leaseWindow), d), d);
    MutateIsApply(s, r);
  }

  lemma OthersLeaveIt(s: State, r: Request, w: Addr, i: JobId, end: u64, d: u64)
    requires HoldsUntil(s, w, i, end, d) && r.now < end && !IsBeat(r, w, i) && !Submits(r, w, i)
    ensures HoldsUntil(Mutate(s, r), w, i, end, d)
  {
    OthersLeaveLiveLease(s, r.now, r, w, i);
  }

  lemma AskHolds(mem: State, disk: State, e: Event, policy: Policy, w: Addr, i: JobId, last: u64, d: u64)
    requires e.Ask? && SysInv(Up(mem, disk), policy, e.now) && last <= e.now
    requires Holding(Up(mem, disk), w, i, last, policy.leaseWindow, d)
    requires Keeping(Up(mem, disk), e, w, i, last, policy.leaseWindow, d)
    ensures var sys' := Next(Up(mem, disk), e, policy);
            Holding(sys', w, i, RenewedAt(Up(mem, disk), e, sys', w, i, last), policy.leaseWindow, d)
  {
    var r := Request(e.step, e.now, e.outcome.Saved?);
    if IsBeat(r, w, i) {
      BeatRenews(mem, r, w, i, last, d);
    } else {
      OthersLeaveIt(mem, r, w, i, Min(SatAdd(last, policy.leaseWindow), d), d);
    }
  }

  /** What a boot at `now` makes of a lease on file: one window from then, or the deadline. */
  lemma RestoredHolds(disk: State, b: State, now: u64, w: Addr, i: JobId, d: u64)
    requires JobsOk(disk, now) && b == Restored(disk, disk.policy, now) && DiskHolds(disk, i, w, d) && now < d
    ensures HoldsUntil(b, w, i, Min(SatAdd(now, disk.policy.leaseWindow), d), d)
  {
    RestoredJobs(disk, now);
    assert JobRestored(disk.jobs[i], b.jobs[i], disk.policy.leaseWindow, now);
    assert JobOk(disk.jobs[i], disk.policy, now);
  }

  lemma SavingHolds(b: State, w: Addr, i: JobId, end: u64, d: u64)
    requires HoldsUntil(b, w, i, end, d)
    ensures HoldsUntil(TakeDirty(b), w, i, end, d) && DiskHolds(Serialize(TakeDirty(b)), i, w, d)
  {
  }

  lemma BootHolds(disk: State, e: Event, policy: Policy, w: Addr, i: JobId, last: u64, d: u64)
    requires e.Boot? && SysInv(Down(disk), policy, e.now) && DiskHolds(disk, i, w, d) && e.now < d
    ensures var sys' := Next(Down(disk), e, policy);
            Holding(sys', w, i, RenewedAt(Down(disk), e, sys', w, i, last), policy.leaseWindow, d)
  {
    var b := Restored(disk, policy, e.now);
    RestoredHolds(disk, b, e.now, w, i, d);
    SavingHolds(b, w, i, Min(SatAdd(e.now, policy.leaseWindow), d), d);
    BootLands(disk, b, e.now, e.outcome, policy);
  }

  lemma CrashHolds(mem: State, disk: State, w: Addr, i: JobId, last: u64, window: u64, d: u64)
    requires Tied(mem, disk) && Holding(Up(mem, disk), w, i, last, window, d)
    ensures DiskHolds(disk, i, w, d)
  {
    assert JobTied(mem.jobs[i], disk.jobs[i]);
  }

  lemma EventHolds(sys: System, e: Event, policy: Policy, w: Addr, i: JobId, last: u64, d: u64)
    requires SysInv(sys, policy, e.now) && last <= e.now
    requires Holding(sys, w, i, last, policy.leaseWindow, d) && Keeping(sys, e, w, i, last, policy.leaseWindow, d)
    ensures var sys' := Next(sys, e, policy);
            Holding(sys', w, i, RenewedAt(sys, e, sys', w, i, last), policy.leaseWindow, d)
  {
    match e
    case Ask(_, _, _) => if sys.Up? { AskHolds(sys.mem, sys.disk, e, policy, w, i, last, d); }
    case Crash(_) => if sys.Up? { CrashHolds(sys.mem, sys.disk, w, i, last, policy.leaseWindow, d); }
    case Boot(_, _) => if sys.Down? { BootHolds(sys.disk, e, policy, w, i, last, d); }
  }

  // ---- whole histories --------------------------------------------------------------------------

  lemma SoundAtEvent(xs: seq<System>, es: seq<Event>, policy: Policy, k: nat)
    requires IsHistory(xs, es, policy) && Timely(es) && xs[0] == Down(EmptyState(policy)) && k < |es|
    ensures SysInv(xs[k], policy, es[k].now) && Time(es, k) <= es[k].now && xs[k + 1] == Next(xs[k], es[k], policy)
  {
    CleanMeansSaved(xs, es, policy, k);
    JobsOkLater(xs[k].disk, Time(es, k), es[k].now);
    if xs[k].Up? {
      JobsOkLater(xs[k].mem, Time(es, k), es[k].now);
    }
  }

  lemma {:induction false} RenewedInTime(xs: seq<System>, es: seq<Event>, w: Addr, i: JobId, last: u64, m: nat, n: nat)
    requires |xs| == |es| + 1 && Timely(es) && m <= n <= |es| && last <= Time(es, m)
    ensures LastRenewal(xs, es, w, i, last, m, n) <= Time(es, n)
    decreases n
  {
    if n > m {
      RenewedInTime(xs, es, w, i, last, m, n - 1);
    }
  }

  ghost predicate HoldingAt(xs: seq<System>, es: seq<Event>, w: Addr, i: JobId, last: u64, window: u64, d: u64, m: nat, n: nat)
    requires m <= n <= |es| && |xs| == |es| + 1
  {
    Holding(xs[n], w, i, LastRenewal(xs, es, w, i, last, m, n), window, d)
  }

  lemma HoldingNext(xs: seq<System>, es: seq<Event>, policy: Policy, w: Addr, i: JobId, last: u64, d: u64, m: nat, k: nat)
    requires IsHistory(xs, es, policy) && Timely(es) && xs[0] == Down(EmptyState(policy)) && m <= k < |es|
    requires last <= Time(es, m) && HoldingAt(xs, es, w, i, last, policy.leaseWindow, d, m, k)
    requires KeepingAt(xs, es, w, i, last, policy.leaseWindow, d, m, k)
    ensures HoldingAt(xs, es, w, i, last, policy.leaseWindow, d, m, k + 1)
  {
    SoundAtEvent(xs, es, policy, k);
    RenewedInTime(xs, es, w, i, last, m, k);
    EventHolds(xs[k], es[k], policy, w, i, LastRenewal(xs, es, w, i, last, m, k), d);
  }

  lemma {:induction false} HoldingUpTo(xs: seq<System>, es: seq<Event>, w: Addr, i: JobId, last: u64, window: u64, d: u64, m: nat, n: nat)
    requires |xs| == |es| + 1 && m <= n <= |es| && HoldingAt(xs, es, w, i, last, window, d, m, m)
    requires forall k | m <= k < n && HoldingAt(xs, es, w, i, last, window, d, m, k) ::
               HoldingAt(xs, es, w, i, last, window, d, m, k + 1)
    ensures HoldingAt(xs, es, w, i, last, window, d, m, n)
    decreases n
  {
    if n > m {
      HoldingUpTo(xs, es, w, i, last, window, d, m, n - 1);
    }
  }

  /** Renewal in closed form over histories: whatever others do, and however often the coordinator crashes with
      nothing unsaved, fails to boot and boots, a lease whose holder keeps it ends at every point exactly one
      window after the last heartbeat or boot, or at its deadline. */
  lemma RenewalOverHistories(xs: seq<System>, es: seq<Event>, policy: Policy, w: Addr, i: JobId,
                             last: u64, d: u64, m: nat, n: nat)
    requires IsHistory(xs, es, policy) && Timely(es) && xs[0] == Down(EmptyState(policy)) && m <= n <= |es|
    requires last <= Time(es, m) && Holding(xs[m], w, i, last, policy.leaseWindow, d)
    requires forall k | m <= k < n :: KeepingAt(xs, es, w, i, last, policy.leaseWindow, d, m, k)
    ensures Holding(xs[n], w, i, LastRenewal(xs, es, w, i, last, m, n), policy.leaseWindow, d)
  {
    var window := policy.leaseWindow;
    forall k | m <= k < n && HoldingAt(xs, es, w, i, last, window, d, m, k)
      ensures HoldingAt(xs, es, w, i, last, window, d, m, k + 1)
    {
      assert KeepingAt(xs, es, w, i, last, window, d, m, k);
      HoldingNext(xs, es, policy, w, i, last, d, m, k);
    }
    HoldingUpTo(xs, es, w, i, last, window, d, m, n);
  }
}
